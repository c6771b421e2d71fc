/**
 * gmap_utils.py: the retry loop of `bd_latlng2xy`, which asks Baidu's
 * geoconv service for the map coordinates of a point.
 *
 * The service is a function from the attempt number (0, 1, ...) to what
 * that attempt got back; the sleeps are recorded by their deterministic
 * part `retry_delay * retry_count`.
 */
module Geoconv {
  import opened Wrappers

  /** `result["result"][0]`: the converted point, in the service's units. */
  datatype Location = Location(x: real, y: real)

  /**
   * What one attempt got back: an exception from the request, the read or
   * the JSON decoding, or a JSON object with its `status` (None when absent)
   * and its first result (None when `result["result"][0]["x"]` or `["y"]`
   * cannot be read).
   */
  datatype Reply =
    | Failure
    | Answer(status: Option<int>, location: Option<Location>)

  /** The attempt returns: status 0 and a readable location. */
  predicate Succeeds(r: Reply)
  {
    r.Answer? && r.status == Some(0) && r.location.Some?
  }

  /** `result.get("status") != 0`: the branch that counts the failure itself and raises on the last attempt. */
  predicate StatusError(r: Reply)
  {
    r.Answer? && r.status != Some(0)
  }

  /** `2**n` as an exact real; a negative `n` gives a fraction. */
  function Pow2(n: int): (r: real)
    ensures 0.0 < r
    decreases if n < 0 then -n else n
  {
    if n == 0 then 1.0
    else if 0 < n then 2.0 * Pow2(n - 1)
    else Pow2(n + 1) / 2.0
  }

  lemma Pow2Step(n: int)
    ensures Pow2(n + 1) == 2.0 * Pow2(n)
  {
  }

  /** `v / 2**(18-z)`: a coordinate of the service at zoom `z`. */
  function Scaled(v: real, z: int): real
  {
    v / Pow2(18 - z)
  }

  /** One zoom level more doubles both coordinates. */
  lemma ZoomDoubles(v: real, z: int)
    ensures Scaled(v, z + 1) == 2.0 * Scaled(v, z)
  {
    Pow2Step(18 - (z + 1));
  }

  /** How `bd_latlng2xy` ends. */
  datatype Conversion =
    | Returned(x: real, y: real)  // `return x, y`
    | Raised                      // the exception leaves the function
    | FellThrough                 // the loop never ran: the function returns None

  /**
   * `time.sleep` turns its argument into a count of nanoseconds held in a
   * signed 64-bit integer; 2**63 ns, 9223372036.854775808 s, is out of range.
   */
  const SleepLimit := 9223372037

  /**
   * `time.sleep(base + random.random())` raises: `ValueError` for a negative
   * argument, `OverflowError` for one out of range. With an integer `base`
   * and `random.random()` in [0, 1), the first happens exactly when `base` is
   * negative, and the second whenever `base` is at least `SleepLimit`.
   * A base of `SleepLimit - 1` overflows only for a jitter of about 0.85 or
   * more; the model lets that sleep complete.
   */
  predicate SleepFails(base: int)
  {
    base < 0 || SleepLimit <= base
  }

  /**
   * The attempts the loop can make once `k - 1` failures have slept: the
   * first failure `k` below `max_retries` whose sleep raises, or else
   * `max_retries`.
   */
  function ReachFrom(k: int, maxRetries: int, retryDelay: int): int
    decreases maxRetries - k
  {
    if maxRetries <= k then maxRetries
    else if SleepFails(retryDelay * k) then k
    else ReachFrom(k + 1, maxRetries, retryDelay)
  }

  /** How many attempts `bd_latlng2xy` can make. */
  function Reach(maxRetries: int, retryDelay: int): int
  {
    ReachFrom(1, maxRetries, retryDelay)
  }

  lemma {:induction false} ReachFromFirstFailingSleep(k: int, maxRetries: int, retryDelay: int)
    requires 1 <= k <= maxRetries
    ensures k <= ReachFrom(k, maxRetries, retryDelay) <= maxRetries
    ensures forall j :: k <= j < ReachFrom(k, maxRetries, retryDelay) ==> !SleepFails(retryDelay * j)
    ensures ReachFrom(k, maxRetries, retryDelay) < maxRetries ==>
              SleepFails(retryDelay * ReachFrom(k, maxRetries, retryDelay))
    decreases maxRetries - k
  {
    if k < maxRetries && !SleepFails(retryDelay * k) {
      ReachFromFirstFailingSleep(k + 1, maxRetries, retryDelay);
    }
  }

  /**
   * `Reach` is the number of the first failure whose sleep raises, when that
   * comes before the last attempt, and `max_retries` otherwise: every sleep
   * before it completes.
   */
  lemma ReachIsFirstFailingSleep(maxRetries: int, retryDelay: int)
    requires 1 <= maxRetries
    ensures 1 <= Reach(maxRetries, retryDelay) <= maxRetries
    ensures forall k :: 1 <= k < Reach(maxRetries, retryDelay) ==> !SleepFails(retryDelay * k)
    ensures Reach(maxRetries, retryDelay) < maxRetries ==> SleepFails(retryDelay * Reach(maxRetries, retryDelay))
  {
    ReachFromFirstFailingSleep(1, maxRetries, retryDelay);
  }

  /** A delay whose first sleep raises, negative or too large, allows one attempt only. */
  lemma ReachFailingDelay(maxRetries: int, retryDelay: int)
    requires 1 <= maxRetries && SleepFails(retryDelay)
    ensures Reach(maxRetries, retryDelay) == 1
  {
  }

  /** When even the last sleep fits, every one of the `max_retries` attempts can be made. */
  lemma ReachFittingDelay(maxRetries: int, retryDelay: int)
    requires 1 <= maxRetries && 0 <= retryDelay && retryDelay * (maxRetries - 1) < SleepLimit
    ensures Reach(maxRetries, retryDelay) == maxRetries
  {
    ReachIsFirstFailingSleep(maxRetries, retryDelay);
    var r := Reach(maxRetries, retryDelay);
    if r < maxRetries {
      assert retryDelay * r <= retryDelay * (maxRetries - 1) by {
        MulMonotone(retryDelay, r, maxRetries - 1);
      }
    }
  }

  lemma MulMonotone(a: int, b: int, c: int)
    requires 0 <= a && b <= c
    ensures a * b <= a * c
  {
    assert a * c - a * b == a * (c - b);
  }

  /**
   * `bd_latlng2xy(z, lat, lng, max_retries, retry_delay)`.
   * `attempts` counts the requests sent, `retryCount` is the final value of
   * `retry_count` and `delays` the base of each sleep that completed, in order.
   */
  method BdLatLng2Xy(z: int, service: nat -> Reply, maxRetries: int, retryDelay: int)
    returns (result: Conversion, attempts: nat, retryCount: int, delays: seq<int>)
    ensures result == FellThrough <==> maxRetries <= 0
    ensures result == FellThrough ==> attempts == 0 && retryCount == 0 && delays == []
    ensures result != FellThrough ==> 0 < attempts <= Reach(maxRetries, retryDelay) && |delays| == attempts - 1
    ensures forall i :: 0 <= i < |delays| ==> delays[i] == retryDelay * (i + 1)
    ensures forall j :: 0 <= j < attempts - 1 ==> !Succeeds(service(j))
    ensures result.Returned? <==> 0 < attempts && Succeeds(service(attempts - 1))
    ensures result.Returned? <==> exists k :: 0 <= k < Reach(maxRetries, retryDelay) && Succeeds(service(k))
    ensures result.Returned? ==>
              && retryCount == attempts - 1
              && var loc := service(attempts - 1).location.value;
                 result == Returned(Scaled(loc.x, z), Scaled(loc.y, z))
    ensures result.Raised? ==>
              && attempts == Reach(maxRetries, retryDelay)
              && (attempts < maxRetries ==> SleepFails(retryDelay * attempts))
              && retryCount == attempts + (if StatusError(service(attempts - 1)) then 1 else 0)
  {
    retryCount, attempts, delays := 0, 0, [];
    while retryCount < maxRetries
      invariant 0 <= retryCount == attempts == |delays|
      invariant retryCount == 0 || retryCount < maxRetries
      invariant Reach(maxRetries, retryDelay) == ReachFrom(retryCount + 1, maxRetries, retryDelay)
      invariant forall j :: 0 <= j < attempts ==> !Succeeds(service(j))
      invariant forall i :: 0 <= i < |delays| ==> delays[i] == retryDelay * (i + 1)
      decreases maxRetries - retryCount
    {
      ReachFromFirstFailingSleep(retryCount + 1, maxRetries, retryDelay);
      var reply := service(attempts);
      attempts := attempts + 1;
      if StatusError(reply) {
        retryCount := retryCount + 1;
        if retryCount >= maxRetries {
          // The exception raised here is caught by the handler of the same
          // `try`, which counts the failure a second time and re-raises.
          retryCount := retryCount + 1;
          return Raised, attempts, retryCount, delays;
        }
        if SleepFails(retryDelay * retryCount) {
          // The exception of the sleep is caught by the same handler, which
          // counts the failure a second time; it then re-raises, or its own
          // sleep, whose base is further from zero still, raises out of the
          // function.
          retryCount := retryCount + 1;
          return Raised, attempts, retryCount, delays;
        }
        delays := delays + [retryDelay * retryCount];
        continue;
      }
      if reply.Answer? && reply.location.Some? {
        var loc := reply.location.value;
        var res := Pow2(18 - z);
        return Returned(loc.x / res, loc.y / res), attempts, retryCount, delays;
      }
      retryCount := retryCount + 1;
      if retryCount >= maxRetries {
        return Raised, attempts, retryCount, delays;
      }
      if SleepFails(retryDelay * retryCount) {
        // The handler's own sleep raises out of the function.
        return Raised, attempts, retryCount, delays;
      }
      delays := delays + [retryDelay * retryCount];
    }
    result := FellThrough;
  }

  /** The default arguments of `bd_latlng2xy`: `max_retries=3, retry_delay=2`. */
  const DefaultMaxRetries := 3
  const DefaultRetryDelay := 2

  /**
   * `bd_latlng2xy(z, lat, lng)`: at most three attempts, with sleeps based on
   * 2 and 4 seconds between them; it returns iff one of them succeeds.
   */
  method BdLatLng2XyDefaults(z: int, service: nat -> Reply)
    returns (result: Conversion, attempts: nat, retryCount: int, delays: seq<int>)
    ensures 0 < attempts <= 3 && delays == [2, 4][..attempts - 1]
    ensures result.Returned? <==> Succeeds(service(0)) || Succeeds(service(1)) || Succeeds(service(2))
    ensures result.Raised? <==> !result.Returned?
  {
    result, attempts, retryCount, delays := BdLatLng2Xy(z, service, DefaultMaxRetries, DefaultRetryDelay);
    assert delays == [2, 4][..attempts - 1] by {
      assert |delays| == |[2, 4][..attempts - 1]|;
      forall i | 0 <= i < |delays| ensures delays[i] == [2, 4][..attempts - 1][i] {
        assert delays[i] == 2 * (i + 1);
      }
    }
    if result.Returned? {
      var k :| 0 <= k < 3 && Succeeds(service(k));
      assert k == 0 || k == 1 || k == 2;
    }
  }
}

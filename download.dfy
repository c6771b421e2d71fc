/**
 * download_tiles.py: the decision `download_file` takes for one request,
 * the per-column loop of `FastThread.run`, and the column loop of
 * `download_tiles`, all over the store of `Store.FileSystem`.
 *
 * The remote server is a function from URL to what fetching it yields;
 * each worker thread runs here to completion before the next starts.
 */
module Download {
  import opened Wrappers
  import opened Store
  import opened Decimal
  import opened TileAddress

  /** What fetching one URL yields: an exception, or the response body. */
  datatype Fetch = FetchError | Body(bytes: Bytes)

  /**
   * Why a worker thread stopped early. `sys.exit(1)` raises SystemExit, and
   * an unset module-level name raises NameError; in a worker thread either
   * one ends only that thread.
   */
  datatype Exit =
    | FetchFailed         // the request raised
    | Forbidden           // the body starts with "<html>"
    | SatelliteUndefined  // `run` reads a module-level `satellite` that is not set

  /** What one `download_file` call did. */
  datatype Outcome =
    | Existed              // the file was already there: no request was sent
    | Saved(bytes: Bytes)  // a request was sent and its body written
    | Stopped(reason: Exit)

  /** `b"<html>"`. */
  const HtmlPrefix: Bytes := [60, 104, 116, 109, 108, 62]

  /** `bytes.startswith(b"<html>")`. */
  predicate IsHtml(bytes: Bytes)
  {
    |HtmlPrefix| <= |bytes| && bytes[..|HtmlPrefix|] == HtmlPrefix
  }

  /** The outcome of one `download_file` call and the store after it. */
  datatype Step = Step(outcome: Outcome, files: map<string, Bytes>)

  /**
   * `download_file`: skip a path that exists, stop on a failed fetch or an
   * HTML body, otherwise store exactly the fetched bytes at `folder + filename`.
   */
  function DownloadStep(files: map<string, Bytes>, req: Request, remote: string -> Fetch): (s: Step)
    ensures s.outcome == Existed <==> req.Path() in files
    ensures s.outcome == Stopped(FetchFailed) <==> req.Path() !in files && remote(req.url).FetchError?
    ensures s.outcome == Stopped(Forbidden) <==> req.Path() !in files && remote(req.url).Body? && IsHtml(remote(req.url).bytes)
    ensures s.outcome.Saved? <==> req.Path() !in files && remote(req.url).Body? && !IsHtml(remote(req.url).bytes)
    ensures s.outcome.Saved? ==> remote(req.url) == Body(s.outcome.bytes)
                                 && s.files == files[req.Path() := s.outcome.bytes]
    ensures !s.outcome.Saved? ==> s.files == files
    ensures files.Keys <= s.files.Keys && forall p :: p in files ==> s.files[p] == files[p]
  {
    var path := req.Path();
    if path in files then Step(Existed, files)
    else match remote(req.url)
      case FetchError => Step(Stopped(FetchFailed), files)
      case Body(bytes) =>
        if IsHtml(bytes) then Step(Stopped(Forbidden), files)
        else Step(Saved(bytes), files[path := bytes])
  }

  /** `download_file(url, filename, folder)`. */
  method DownloadFile(fs: FileSystem, url: string, filename: string, folder: string,
                      remote: string -> Fetch) returns (o: Outcome)
    modifies fs
    ensures var s := DownloadStep(old(fs.files), Request(url, folder, filename), remote);
            o == s.outcome && fs.files == s.files
  {
    var fullFilePath := folder + filename;
    if !fs.Exists(fullFilePath) {
      var fetched := remote(url);
      if fetched.FetchError? {
        return Stopped(FetchFailed);
      }
      if IsHtml(fetched.bytes) {
        return Stopped(Forbidden);
      }
      fs.Write(fullFilePath, fetched.bytes);
      o := Saved(fetched.bytes);
    } else {
      o := Existed;
    }
  }

  /** `download_tile(x, y, zoom, satellite)`. */
  method DownloadTile(fs: FileSystem, x: int, y: int, zoom: int, satellite: bool,
                      remote: string -> Fetch) returns (o: Outcome)
    modifies fs
    ensures var s := DownloadStep(old(fs.files), TileRequest(x, y, zoom, satellite), remote);
            o == s.outcome && fs.files == s.files
  {
    var r := TileRequest(x, y, zoom, satellite);
    o := DownloadFile(fs, r.url, r.filename, r.folder, remote);
  }

  /** `download_satellite(x, y, zoom)`. */
  method DownloadSatellite(fs: FileSystem, x: int, y: int, zoom: int,
                           remote: string -> Fetch) returns (o: Outcome)
    modifies fs
    ensures var s := DownloadStep(old(fs.files), SatelliteRequest(x, y, zoom), remote);
            o == s.outcome && fs.files == s.files
  {
    var r := SatelliteRequest(x, y, zoom);
    o := DownloadFile(fs, r.url, r.filename, r.folder, remote);
  }

  /** What one worker did: the store after it, one outcome per call made, and why it stopped, if it did. */
  datatype Trace = Trace(files: map<string, Bytes>, outcomes: seq<Outcome>, exit: Option<Exit>)

  /** `outcomes` happened first, then `t`. */
  function Continue(outcomes: seq<Outcome>, t: Trace): Trace
  {
    Trace(t.files, outcomes + t.outcomes, t.exit)
  }

  /** The downloads made in order, each through `download_file`, until one stops the thread. */
  function Execute(files: map<string, Bytes>, items: seq<WorkItem>, remote: string -> Fetch): Trace
    decreases |items|
  {
    if items == [] then Trace(files, [], None)
    else
      var s := DownloadStep(files, RequestFor(items[0]), remote);
      if s.outcome.Stopped? then Trace(s.files, [s.outcome], Some(s.outcome.reason))
      else Continue([s.outcome], Execute(s.files, items[1..], remote))
  }

  /** Number of integers in `range(lo, hi)`. */
  function Span(lo: int, hi: int): nat
  {
    if lo < hi then hi - lo else 0
  }

  /** Downloads per tile index: imagery then overlay in satellite mode, one road tile otherwise. */
  function PerIndex(satellite: bool): nat
  {
    if satellite then 2 else 1
  }

  /** The body of `run` for one `y`. */
  function Jobs(x: int, y: int, zoom: int, satellite: bool): seq<WorkItem>
  {
    if satellite then [WorkItem(Imagery, x, y, zoom), WorkItem(Overlay, x, y, zoom)]
    else [WorkItem(Road, x, y, zoom)]
  }

  /** The downloads of one worker: `y` over `range(y, stopY)`. */
  function ColumnItems(x: int, y: int, stopY: int, zoom: int, satellite: bool): seq<WorkItem>
    decreases stopY - y
  {
    if y >= stopY then [] else Jobs(x, y, zoom, satellite) + ColumnItems(x, y + 1, stopY, zoom, satellite)
  }

  /** All downloads, column by column: `x` over `range(x, stopX)`. */
  function Plan(x: int, stopX: int, startY: int, stopY: int, zoom: int, satellite: bool): seq<WorkItem>
    decreases stopX - x
  {
    if x >= stopX then []
    else ColumnItems(x, startY, stopY, zoom, satellite) + Plan(x + 1, stopX, startY, stopY, zoom, satellite)
  }

  /**
   * `FastThread.run`. The branch reads the module-level `satellite`
   * (`moduleSatellite`; `None` when it is not set), not the thread's own field.
   */
  function Worker(files: map<string, Bytes>, x: int, startY: int, stopY: int, zoom: int,
                  moduleSatellite: Option<bool>, remote: string -> Fetch): Trace
  {
    match moduleSatellite
    case None => Trace(files, [], if startY < stopY then Some(SatelliteUndefined) else None)
    case Some(satellite) => Execute(files, ColumnItems(x, startY, stopY, zoom, satellite), remote)
  }

  /** The store after a batch of workers, and each worker's trace in order. */
  datatype Batch = Batch(files: map<string, Bytes>, traces: seq<Trace>)

  /** The loop of `download_tiles`: one worker per `x` in `range(x, stopX)`, one after another. */
  function Workers(files: map<string, Bytes>, x: int, stopX: int, startY: int, stopY: int, zoom: int,
                   moduleSatellite: Option<bool>, remote: string -> Fetch): Batch
    decreases stopX - x
  {
    if x >= stopX then Batch(files, [])
    else
      var t := Worker(files, x, startY, stopY, zoom, moduleSatellite, remote);
      var rest := Workers(t.files, x + 1, stopX, startY, stopY, zoom, moduleSatellite, remote);
      Batch(rest.files, [t] + rest.traces)
  }

  /** Running `a + b` is running `a`, then `b` from where `a` left the store, unless `a` stopped. */
  lemma {:induction false} ExecuteConcat(files: map<string, Bytes>, a: seq<WorkItem>, b: seq<WorkItem>,
                                         remote: string -> Fetch)
    ensures var ta := Execute(files, a, remote);
            Execute(files, a + b, remote)
            == if ta.exit.Some? then ta else Continue(ta.outcomes, Execute(ta.files, b, remote))
    decreases |a|
  {
    if a == [] {
      assert a + b == b;
    } else {
      var s := DownloadStep(files, RequestFor(a[0]), remote);
      assert (a + b)[0] == a[0];
      if !s.outcome.Stopped? {
        assert (a + b)[1..] == a[1..] + b;
        ExecuteConcat(s.files, a[1..], b, remote);
        var t1 := Execute(s.files, a[1..], remote);
        if t1.exit.None? {
          ContinueAssoc([s.outcome], t1.outcomes, Execute(t1.files, b, remote));
        }
      }
    }
  }

  /** The trace of a run that made exactly the one `download_file` call `s`. */
  function Single(s: Step): Trace
  {
    Trace(s.files, [s.outcome], if s.outcome.Stopped? then Some(s.outcome.reason) else None)
  }

  lemma ExecuteOne(files: map<string, Bytes>, a: WorkItem, remote: string -> Fetch)
    ensures Execute(files, [a], remote) == Single(DownloadStep(files, RequestFor(a), remote))
  {
    var s := DownloadStep(files, RequestFor(a), remote);
    if !s.outcome.Stopped? {
      assert [a][1..] == [];
    }
  }

  lemma ExecuteTwo(files: map<string, Bytes>, a: WorkItem, b: WorkItem, remote: string -> Fetch)
    ensures var s := DownloadStep(files, RequestFor(a), remote);
            Execute(files, [a, b], remote)
            == if s.outcome.Stopped? then Single(s)
               else Continue([s.outcome], Single(DownloadStep(s.files, RequestFor(b), remote)))
  {
    var s := DownloadStep(files, RequestFor(a), remote);
    if !s.outcome.Stopped? {
      assert [a, b][1..] == [b];
      ExecuteOne(s.files, b, remote);
    }
  }

  /** One step of `run`'s loop: the jobs of row `y`, then the rest of the column. */
  lemma ColumnStep(files: map<string, Bytes>, x: int, y: int, stopY: int, zoom: int, satellite: bool,
                   remote: string -> Fetch)
    requires y < stopY
    ensures var tj := Execute(files, Jobs(x, y, zoom, satellite), remote);
            Execute(files, ColumnItems(x, y, stopY, zoom, satellite), remote)
            == if tj.exit.Some? then tj
               else Continue(tj.outcomes, Execute(tj.files, ColumnItems(x, y + 1, stopY, zoom, satellite), remote))
  {
    ExecuteConcat(files, Jobs(x, y, zoom, satellite), ColumnItems(x, y + 1, stopY, zoom, satellite), remote);
  }

  lemma ContinueAssoc(a: seq<Outcome>, b: seq<Outcome>, t: Trace)
    ensures Continue(a, Continue(b, t)) == Continue(a + b, t)
  {
    assert a + (b + t.outcomes) == (a + b) + t.outcomes;
  }

  // ---------------------------------------------------------------------------
  // Which downloads a run asks for
  // ---------------------------------------------------------------------------

  /** The `i`-th download of a worker whose rows start at `y`. */
  function ColumnItem(x: int, y: int, zoom: int, satellite: bool, i: nat): WorkItem
  {
    if satellite then WorkItem(if i % 2 == 0 then Imagery else Overlay, x, y + i / 2, zoom)
    else WorkItem(Road, x, y + i, zoom)
  }

  /**
   * A worker visits each `y` of `range(y, stopY)` once, in order: imagery then
   * overlay for each `y` in satellite mode, one road tile for each `y` otherwise.
   */
  lemma {:induction false} ColumnItemsShape(x: int, y: int, stopY: int, zoom: int, satellite: bool)
    ensures |ColumnItems(x, y, stopY, zoom, satellite)| == PerIndex(satellite) * Span(y, stopY)
    ensures forall i :: 0 <= i < |ColumnItems(x, y, stopY, zoom, satellite)| ==>
              ColumnItems(x, y, stopY, zoom, satellite)[i] == ColumnItem(x, y, zoom, satellite, i)
    decreases stopY - y
  {
    if y < stopY {
      ColumnItemsShape(x, y + 1, stopY, zoom, satellite);
      var jobs := Jobs(x, y, zoom, satellite);
      var rest := ColumnItems(x, y + 1, stopY, zoom, satellite);
      var items := jobs + rest;
      assert items == ColumnItems(x, y, stopY, zoom, satellite);
      forall i | 0 <= i < |items|
        ensures items[i] == ColumnItem(x, y, zoom, satellite, i)
      {
        if i >= |jobs| {
          var k := i - |jobs|;
          assert items[i] == rest[k] == ColumnItem(x, y + 1, zoom, satellite, k);
          if satellite {
            assert i == k + 2 && k % 2 == i % 2 && y + 1 + k / 2 == y + i / 2;
          }
        }
      }
    }
  }

  /** The number of downloads: `PerIndex` per tile index of the rectangle. */
  lemma {:induction false} PlanSize(x: int, stopX: int, startY: int, stopY: int, zoom: int, satellite: bool)
    ensures |Plan(x, stopX, startY, stopY, zoom, satellite)|
            == PerIndex(satellite) * Span(x, stopX) * Span(startY, stopY)
    decreases stopX - x
  {
    if x < stopX {
      PlanSize(x + 1, stopX, startY, stopY, zoom, satellite);
      ColumnItemsShape(x, startY, stopY, zoom, satellite);
      var k, h := PerIndex(satellite), Span(startY, stopY);
      assert k * (stopX - x) * h == k * h + k * (stopX - (x + 1)) * h;
    }
  }

  /** `item` is one of the downloads a worker for column `x` and rows `range(y, stopY)` may make. */
  predicate InColumn(item: WorkItem, x: int, y: int, stopY: int, zoom: int, satellite: bool)
  {
    item.x == x && y <= item.y < stopY && item.zoom == zoom && (item.kind == Road <==> !satellite)
  }

  /** `item` lies in the half-open rectangle and has one of the mode's kinds. */
  predicate InRectangle(item: WorkItem, x: int, stopX: int, startY: int, stopY: int, zoom: int, satellite: bool)
  {
    x <= item.x < stopX && startY <= item.y < stopY && item.zoom == zoom && (item.kind == Road <==> !satellite)
  }

  /** No item occurs twice. */
  predicate Distinct(items: seq<WorkItem>)
  {
    forall i, j :: 0 <= i < j < |items| ==> items[i] != items[j]
  }

  /** A worker's downloads stay in its column, in `range(y, stopY)`, with the mode's kinds. */
  lemma {:induction false} ColumnInRange(x: int, y: int, stopY: int, zoom: int, satellite: bool)
    ensures forall i :: 0 <= i < |ColumnItems(x, y, stopY, zoom, satellite)| ==>
              InColumn(ColumnItems(x, y, stopY, zoom, satellite)[i], x, y, stopY, zoom, satellite)
    decreases stopY - y
  {
    if y < stopY {
      ColumnInRange(x, y + 1, stopY, zoom, satellite);
      var jobs := Jobs(x, y, zoom, satellite);
      var rest := ColumnItems(x, y + 1, stopY, zoom, satellite);
      var col := jobs + rest;
      assert col == ColumnItems(x, y, stopY, zoom, satellite);
      forall i | |jobs| <= i < |col|
        ensures col[i] == rest[i - |jobs|]
      {
      }
    }
  }

  /** A worker never downloads the same tile twice. */
  lemma {:induction false} ColumnDistinct(x: int, y: int, stopY: int, zoom: int, satellite: bool)
    ensures Distinct(ColumnItems(x, y, stopY, zoom, satellite))
    decreases stopY - y
  {
    if y < stopY {
      ColumnDistinct(x, y + 1, stopY, zoom, satellite);
      ColumnInRange(x, y + 1, stopY, zoom, satellite);
      var jobs := Jobs(x, y, zoom, satellite);
      var rest := ColumnItems(x, y + 1, stopY, zoom, satellite);
      var col := jobs + rest;
      assert col == ColumnItems(x, y, stopY, zoom, satellite);
      forall i, j | 0 <= i < j < |col|
        ensures col[i] != col[j]
      {
        if j < |jobs| {
          assert col[i] == jobs[i] && col[j] == jobs[j];
        } else if i < |jobs| {
          assert col[i].y == y && col[j] == rest[j - |jobs|];
        } else {
          assert col[i] == rest[i - |jobs|] && col[j] == rest[j - |jobs|];
        }
      }
    }
  }

  /** Every download of the run lies in the half-open rectangle and has the mode's kinds. */
  lemma {:induction false} PlanInRectangle(x: int, stopX: int, startY: int, stopY: int, zoom: int, satellite: bool)
    ensures forall i :: 0 <= i < |Plan(x, stopX, startY, stopY, zoom, satellite)| ==>
              InRectangle(Plan(x, stopX, startY, stopY, zoom, satellite)[i], x, stopX, startY, stopY, zoom, satellite)
    decreases stopX - x
  {
    if x < stopX {
      PlanInRectangle(x + 1, stopX, startY, stopY, zoom, satellite);
      ColumnInRange(x, startY, stopY, zoom, satellite);
      var col := ColumnItems(x, startY, stopY, zoom, satellite);
      var rest := Plan(x + 1, stopX, startY, stopY, zoom, satellite);
      var plan := col + rest;
      assert plan == Plan(x, stopX, startY, stopY, zoom, satellite);
      forall i | 0 <= i < |plan|
        ensures InRectangle(plan[i], x, stopX, startY, stopY, zoom, satellite)
      {
        if i < |col| {
          assert plan[i] == col[i];
        } else {
          assert plan[i] == rest[i - |col|];
        }
      }
    }
  }

  /** Every tile index of the rectangle is downloaded, with every kind the mode asks for. */
  lemma {:induction false} PlanCovers(x: int, stopX: int, startY: int, stopY: int, zoom: int, satellite: bool,
                                      item: WorkItem)
    requires InRectangle(item, x, stopX, startY, stopY, zoom, satellite)
    ensures item in Plan(x, stopX, startY, stopY, zoom, satellite)
    decreases stopX - x
  {
    var col := ColumnItems(x, startY, stopY, zoom, satellite);
    if item.x == x {
      ColumnItemsShape(x, startY, stopY, zoom, satellite);
      var j := item.y - startY;
      if satellite {
        var i := if item.kind == Imagery then 2 * j else 2 * j + 1;
        assert i / 2 == j;
        assert col[i] == item;
      } else {
        assert col[j] == item;
      }
    } else {
      PlanCovers(x + 1, stopX, startY, stopY, zoom, satellite, item);
    }
  }

  /** No download is planned twice. */
  lemma {:induction false} PlanDistinct(x: int, stopX: int, startY: int, stopY: int, zoom: int, satellite: bool)
    ensures Distinct(Plan(x, stopX, startY, stopY, zoom, satellite))
    decreases stopX - x
  {
    if x < stopX {
      PlanDistinct(x + 1, stopX, startY, stopY, zoom, satellite);
      PlanInRectangle(x + 1, stopX, startY, stopY, zoom, satellite);
      ColumnDistinct(x, startY, stopY, zoom, satellite);
      ColumnInRange(x, startY, stopY, zoom, satellite);
      var col := ColumnItems(x, startY, stopY, zoom, satellite);
      var rest := Plan(x + 1, stopX, startY, stopY, zoom, satellite);
      var plan := col + rest;
      assert plan == Plan(x, stopX, startY, stopY, zoom, satellite);
      forall i, j | 0 <= i < j < |plan|
        ensures plan[i] != plan[j]
      {
        if j < |col| {
          assert plan[i] == col[i] && plan[j] == col[j];
        } else if i < |col| {
          assert plan[i] == col[i] && plan[j] == rest[j - |col|];
        } else {
          assert plan[i] == rest[i - |col|] && plan[j] == rest[j - |col|];
        }
      }
    }
  }

  /** No two items are stored at the same path. */
  predicate PathsDistinct(items: seq<WorkItem>)
  {
    forall i, j :: 0 <= i < j < |items| ==> RequestFor(items[i]).Path() != RequestFor(items[j]).Path()
  }

  /** At most one write per path: no two planned downloads share a stored path. */
  lemma PlanPathsDistinct(x: int, stopX: int, startY: int, stopY: int, zoom: int, satellite: bool)
    ensures PathsDistinct(Plan(x, stopX, startY, stopY, zoom, satellite))
  {
    var plan := Plan(x, stopX, startY, stopY, zoom, satellite);
    PlanDistinct(x, stopX, startY, stopY, zoom, satellite);
    forall i, j | 0 <= i < j < |plan|
      ensures RequestFor(plan[i]).Path() != RequestFor(plan[j]).Path()
    {
      if RequestFor(plan[i]).Path() == RequestFor(plan[j]).Path() {
        PathInjective(plan[i], plan[j]);
      }
    }
  }

  // ---------------------------------------------------------------------------
  // What running the downloads does to the store
  // ---------------------------------------------------------------------------

  /**
   * `t` made at most `n` calls, stopped at its first stopping outcome and at
   * no other, and made all `n` calls when it did not stop.
   */
  predicate StopsAtFirstStop(t: Trace, n: nat)
  {
    && |t.outcomes| <= n
    && (forall i :: 0 <= i < |t.outcomes| - 1 ==> !t.outcomes[i].Stopped?)
    && (t.exit.None? ==> |t.outcomes| == n && forall i :: 0 <= i < n ==> !t.outcomes[i].Stopped?)
    && (t.exit.Some? ==> 0 < |t.outcomes| && t.outcomes[|t.outcomes| - 1] == Stopped(t.exit.value))
  }

  /** A call that did not stop, in front of a trace that stops at its first stop, keeps that shape. */
  lemma StopsCons(o: Outcome, t': Trace, n: nat)
    requires !o.Stopped? && StopsAtFirstStop(t', n)
    ensures StopsAtFirstStop(Continue([o], t'), n + 1)
  {
    var t := Continue([o], t');
    assert forall i :: 1 <= i < |t.outcomes| ==> t.outcomes[i] == t'.outcomes[i - 1];
  }

  lemma {:induction false} ExecuteStops(files: map<string, Bytes>, items: seq<WorkItem>, remote: string -> Fetch)
    ensures StopsAtFirstStop(Execute(files, items, remote), |items|)
    decreases |items|
  {
    if items != [] {
      var s := DownloadStep(files, RequestFor(items[0]), remote);
      if !s.outcome.Stopped? {
        ExecuteStops(s.files, items[1..], remote);
        StopsCons(s.outcome, Execute(s.files, items[1..], remote), |items| - 1);
      }
    }
  }

  /** Every file of `before` is in `after`, unchanged. */
  predicate KeepsFiles(before: map<string, Bytes>, after: map<string, Bytes>)
  {
    before.Keys <= after.Keys && forall p :: p in before ==> after[p] == before[p]
  }

  /** Write-once store: a run never changes or removes a file that was already there. */
  lemma {:induction false} ExecuteWriteOnce(files: map<string, Bytes>, items: seq<WorkItem>, remote: string -> Fetch)
    ensures KeepsFiles(files, Execute(files, items, remote).files)
    decreases |items|
  {
    if items != [] {
      var s := DownloadStep(files, RequestFor(items[0]), remote);
      if !s.outcome.Stopped? {
        ExecuteWriteOnce(s.files, items[1..], remote);
      }
    }
  }

  /** The paths a list of downloads would write. */
  function Paths(items: seq<WorkItem>): set<string>
  {
    set i | 0 <= i < |items| :: RequestFor(items[i]).Path()
  }

  /** Nothing is written anywhere but at the items' paths. */
  lemma {:induction false} ExecuteOnlyPaths(files: map<string, Bytes>, items: seq<WorkItem>, remote: string -> Fetch)
    ensures Execute(files, items, remote).files.Keys <= files.Keys + Paths(items)
    decreases |items|
  {
    if items != [] {
      var s := DownloadStep(files, RequestFor(items[0]), remote);
      if !s.outcome.Stopped? {
        var rest := items[1..];
        ExecuteOnlyPaths(s.files, rest, remote);
        assert s.files.Keys <= files.Keys + {RequestFor(items[0]).Path()};
        forall i | 0 <= i < |rest| ensures RequestFor(rest[i]).Path() in Paths(items) {
          assert rest[i] == items[i + 1];
        }
      }
    }
  }

  /** If call `o` on `item` saved, `files` holds the fetched body at its path. */
  predicate SavedAt(item: WorkItem, o: Outcome, files: map<string, Bytes>, remote: string -> Fetch)
  {
    o.Saved? ==>
      && RequestFor(item).Path() in files
      && files[RequestFor(item).Path()] == o.bytes
      && remote(RequestFor(item).url) == Body(o.bytes)
  }

  /** Each saving call of `t` stored exactly the fetched body at its own path, and it is still there. */
  predicate SavedAsFetched(items: seq<WorkItem>, t: Trace, remote: string -> Fetch)
  {
    forall i :: 0 <= i < |t.outcomes| && i < |items| ==> SavedAt(items[i], t.outcomes[i], t.files, remote)
  }

  /** One saving step in front of a run that keeps its files: the saves of both are as fetched. */
  lemma SavedAsFetchedCons(files: map<string, Bytes>, items: seq<WorkItem>, t': Trace, remote: string -> Fetch)
    requires items != [] && !DownloadStep(files, RequestFor(items[0]), remote).outcome.Stopped?
    requires SavedAsFetched(items[1..], t', remote)
    requires KeepsFiles(DownloadStep(files, RequestFor(items[0]), remote).files, t'.files)
    ensures SavedAsFetched(items, Continue([DownloadStep(files, RequestFor(items[0]), remote).outcome], t'), remote)
  {
    var s := DownloadStep(files, RequestFor(items[0]), remote);
    var t := Continue([s.outcome], t');
    assert SavedAt(items[0], s.outcome, t'.files, remote) by {
      assert SavedAt(items[0], s.outcome, s.files, remote);
    }
    forall i | 0 <= i < |t.outcomes| && i < |items|
      ensures SavedAt(items[i], t.outcomes[i], t.files, remote)
    {
      if 0 < i {
        assert t.outcomes[i] == t'.outcomes[i - 1] && items[i] == items[1..][i - 1];
      }
    }
  }

  lemma {:induction false} ExecuteSaves(files: map<string, Bytes>, items: seq<WorkItem>, remote: string -> Fetch)
    ensures SavedAsFetched(items, Execute(files, items, remote), remote)
    decreases |items|
  {
    if items != [] {
      var s := DownloadStep(files, RequestFor(items[0]), remote);
      if !s.outcome.Stopped? {
        var t' := Execute(s.files, items[1..], remote);
        ExecuteSaves(s.files, items[1..], remote);
        ExecuteWriteOnce(s.files, items[1..], remote);
        SavedAsFetchedCons(files, items, t', remote);
      }
    }
  }

  /** Every item's path is in `files`. */
  predicate AllStored(items: seq<WorkItem>, files: map<string, Bytes>)
  {
    forall i :: 0 <= i < |items| ==> RequestFor(items[i]).Path() in files
  }

  /** A run that does not stop leaves every one of its paths in the store. */
  lemma {:induction false} ExecuteCovers(files: map<string, Bytes>, items: seq<WorkItem>, remote: string -> Fetch)
    ensures Execute(files, items, remote).exit.None? ==> AllStored(items, Execute(files, items, remote).files)
    decreases |items|
  {
    if items != [] {
      var s := DownloadStep(files, RequestFor(items[0]), remote);
      if !s.outcome.Stopped? {
        var rest := items[1..];
        var t' := Execute(s.files, rest, remote);
        ExecuteCovers(s.files, rest, remote);
        ExecuteWriteOnce(s.files, rest, remote);
        assert Execute(files, items, remote).files == t'.files;
        forall i | 1 <= i < |items| ensures items[i] == rest[i - 1] {
        }
      }
    }
  }

  /** `n` calls that each found the file already there. */
  function AllExisted(n: nat): seq<Outcome>
  {
    seq(n, _ => Existed)
  }

  /**
   * Idempotence: when every path is already stored, a run sends no request,
   * changes nothing and reports every file as existing.
   */
  lemma {:induction false} ExecuteIdempotent(files: map<string, Bytes>, items: seq<WorkItem>, remote: string -> Fetch)
    requires AllStored(items, files)
    ensures Execute(files, items, remote) == Trace(files, AllExisted(|items|), None)
    decreases |items|
  {
    if items != [] {
      var rest := items[1..];
      forall i | 0 <= i < |rest| ensures RequestFor(rest[i]).Path() in files {
        assert rest[i] == items[i + 1];
      }
      ExecuteIdempotent(files, rest, remote);
      assert [Existed] + AllExisted(|rest|) == AllExisted(|items|);
    }
  }

  /** Resuming a run that completed fetches nothing, whatever the server now answers. */
  lemma Rerun(files: map<string, Bytes>, items: seq<WorkItem>, remote: string -> Fetch, remote': string -> Fetch)
    requires Execute(files, items, remote).exit.None?
    ensures Execute(Execute(files, items, remote).files, items, remote')
            == Trace(Execute(files, items, remote).files, AllExisted(|items|), None)
  {
    ExecuteCovers(files, items, remote);
    ExecuteIdempotent(Execute(files, items, remote).files, items, remote');
  }

  // ---------------------------------------------------------------------------
  // The whole rectangle
  // ---------------------------------------------------------------------------

  /** One trace per column, and the store keeps every file it had. */
  lemma {:induction false} WorkersShape(files: map<string, Bytes>, x: int, stopX: int, startY: int, stopY: int,
                                        zoom: int, moduleSatellite: Option<bool>, remote: string -> Fetch)
    ensures |Workers(files, x, stopX, startY, stopY, zoom, moduleSatellite, remote).traces| == Span(x, stopX)
    ensures KeepsFiles(files, Workers(files, x, stopX, startY, stopY, zoom, moduleSatellite, remote).files)
    decreases stopX - x
  {
    if x < stopX {
      var t := Worker(files, x, startY, stopY, zoom, moduleSatellite, remote);
      if moduleSatellite.Some? {
        ExecuteWriteOnce(files, ColumnItems(x, startY, stopY, zoom, moduleSatellite.value), remote);
      }
      WorkersShape(t.files, x + 1, stopX, startY, stopY, zoom, moduleSatellite, remote);
    }
  }

  /** No trace stopped early. */
  predicate AllCompleted(traces: seq<Trace>)
  {
    forall i :: 0 <= i < |traces| ==> traces[i].exit.None?
  }

  lemma AllCompletedCons(t: Trace, traces: seq<Trace>)
    requires AllCompleted([t] + traces)
    ensures t.exit.None? && AllCompleted(traces)
  {
    assert ([t] + traces)[0] == t;
    forall i | 0 <= i < |traces| ensures traces[i].exit.None? {
      assert traces[i] == ([t] + traces)[i + 1];
    }
  }

  /** When no worker stops, the columns together did exactly what one run of the whole plan would do. */
  lemma {:induction false} WorkersRunPlan(files: map<string, Bytes>, x: int, stopX: int, startY: int, stopY: int,
                                          zoom: int, satellite: bool, remote: string -> Fetch)
    requires AllCompleted(Workers(files, x, stopX, startY, stopY, zoom, Some(satellite), remote).traces)
    ensures Execute(files, Plan(x, stopX, startY, stopY, zoom, satellite), remote)
            == Trace(Workers(files, x, stopX, startY, stopY, zoom, Some(satellite), remote).files,
                     Execute(files, Plan(x, stopX, startY, stopY, zoom, satellite), remote).outcomes, None)
    decreases stopX - x
  {
    if x < stopX {
      var col := ColumnItems(x, startY, stopY, zoom, satellite);
      var tc := Execute(files, col, remote);
      var rest := Workers(tc.files, x + 1, stopX, startY, stopY, zoom, Some(satellite), remote);
      AllCompletedCons(tc, rest.traces);
      WorkersRunPlan(tc.files, x + 1, stopX, startY, stopY, zoom, satellite, remote);
      ExecuteConcat(files, col, Plan(x + 1, stopX, startY, stopY, zoom, satellite), remote);
    }
  }

  /**
   * When no worker stops, the columns together did exactly what one run of
   * the whole plan would do, and every planned file is stored.
   */
  lemma WorkersComplete(files: map<string, Bytes>, x: int, stopX: int, startY: int, stopY: int,
                        zoom: int, satellite: bool, remote: string -> Fetch)
    requires AllCompleted(Workers(files, x, stopX, startY, stopY, zoom, Some(satellite), remote).traces)
    ensures Execute(files, Plan(x, stopX, startY, stopY, zoom, satellite), remote).exit.None?
    ensures Execute(files, Plan(x, stopX, startY, stopY, zoom, satellite), remote).files
            == Workers(files, x, stopX, startY, stopY, zoom, Some(satellite), remote).files
    ensures AllStored(Plan(x, stopX, startY, stopY, zoom, satellite),
                      Workers(files, x, stopX, startY, stopY, zoom, Some(satellite), remote).files)
  {
    WorkersRunPlan(files, x, stopX, startY, stopY, zoom, satellite, remote);
    ExecuteCovers(files, Plan(x, stopX, startY, stopY, zoom, satellite), remote);
  }

  /** What each worker of an idempotent run reports: every file of its column already existed. */
  function IdleTraces(files: map<string, Bytes>, columns: nat, perColumn: nat): seq<Trace>
  {
    seq(columns, _ => Trace(files, AllExisted(perColumn), None))
  }

  /**
   * Idempotence of the whole run: with every planned file already stored, no
   * worker sends a request and the store is unchanged.
   */
  lemma {:induction false} WorkersIdempotent(files: map<string, Bytes>, x: int, stopX: int, startY: int, stopY: int,
                                             zoom: int, satellite: bool, remote: string -> Fetch)
    requires AllStored(Plan(x, stopX, startY, stopY, zoom, satellite), files)
    ensures Workers(files, x, stopX, startY, stopY, zoom, Some(satellite), remote)
            == Batch(files, IdleTraces(files, Span(x, stopX), PerIndex(satellite) * Span(startY, stopY)))
    decreases stopX - x
  {
    if x < stopX {
      var col := ColumnItems(x, startY, stopY, zoom, satellite);
      var rest := Plan(x + 1, stopX, startY, stopY, zoom, satellite);
      WorkersIdempotentColumn(files, col, rest);
      ColumnItemsShape(x, startY, stopY, zoom, satellite);
      ExecuteIdempotent(files, col, remote);
      WorkersIdempotent(files, x + 1, stopX, startY, stopY, zoom, satellite, remote);
      var n := PerIndex(satellite) * Span(startY, stopY);
      assert [Trace(files, AllExisted(n), None)] + IdleTraces(files, Span(x + 1, stopX), n)
             == IdleTraces(files, Span(x, stopX), n);
    }
  }

  lemma WorkersIdempotentColumn(files: map<string, Bytes>, col: seq<WorkItem>, rest: seq<WorkItem>)
    requires AllStored(col + rest, files)
    ensures AllStored(col, files) && AllStored(rest, files)
  {
    forall i | 0 <= i < |col| ensures RequestFor(col[i]).Path() in files {
      assert col[i] == (col + rest)[i];
    }
    forall i | 0 <= i < |rest| ensures RequestFor(rest[i]).Path() in files {
      assert rest[i] == (col + rest)[i + |col|];
    }
  }

  /**
   * With the module-level `satellite` unset, every worker with a non-empty
   * `y` range dies at its first iteration: nothing is requested or written.
   */
  lemma {:induction false} WorkersWithoutModuleFlag(files: map<string, Bytes>, x: int, stopX: int, startY: int,
                                                    stopY: int, zoom: int, remote: string -> Fetch)
    requires startY < stopY
    ensures Workers(files, x, stopX, startY, stopY, zoom, None, remote)
            == Batch(files, seq(Span(x, stopX), _ => Trace(files, [], Some(SatelliteUndefined))))
    decreases stopX - x
  {
    if x < stopX {
      WorkersWithoutModuleFlag(files, x + 1, stopX, startY, stopY, zoom, remote);
      var t := Trace(files, [], Some(SatelliteUndefined));
      assert [t] + seq(Span(x + 1, stopX), _ => t) == seq(Span(x, stopX), _ => t);
    }
  }

  /** `int(v // 256)`: the tile index holding pixel coordinate `v` (Python's `//` floors). */
  function FloorTile(v: int): (t: int)
    ensures 256 * t <= v < 256 * t + 256
  {
    v / 256
  }

  /** One row of a worker: after its jobs, the worker either stops there or goes on with the next row. */
  lemma RowStep(w: Trace, outcomes: seq<Outcome>, files: map<string, Bytes>, files': map<string, Bytes>,
                x: int, y: int, stopY: int, zoom: int, satellite: bool, done: seq<Outcome>, exit: Option<Exit>,
                remote: string -> Fetch)
    requires y < stopY
    requires w == Continue(outcomes, Worker(files, x, y, stopY, zoom, Some(satellite), remote))
    requires Trace(files', done, exit) == Execute(files, Jobs(x, y, zoom, satellite), remote)
    ensures exit.Some? ==> w == Trace(files', outcomes + done, exit)
    ensures exit.None? ==> w == Continue(outcomes + done, Worker(files', x, y + 1, stopY, zoom, Some(satellite), remote))
  {
    ColumnStep(files, x, y, stopY, zoom, satellite, remote);
    ContinueAssoc(outcomes, done, Execute(files', ColumnItems(x, y + 1, stopY, zoom, satellite), remote));
  }

  /** The worker thread of download_tiles.py. */
  class FastThread {
    const x: int
    const startY: int
    const stopY: int
    const zoom: int
    /** Stored by the constructor but never read by `Run`. */
    const satellite: bool

    constructor (x: int, startY: int, stopY: int, zoom: int, satellite: bool)
      ensures this.x == x && this.startY == startY && this.stopY == stopY
      ensures this.zoom == zoom && this.satellite == satellite
    {
      this.x := x;
      this.startY := startY;
      this.stopY := stopY;
      this.zoom := zoom;
      this.satellite := satellite;
    }

    /** The body of `run`'s loop for one `y`: the downloads of one tile index. */
    method RunRow(fs: FileSystem, y: int, satellite: bool, remote: string -> Fetch)
      returns (done: seq<Outcome>, exit: Option<Exit>)
      modifies fs
      ensures Trace(fs.files, done, exit) == Execute(old(fs.files), Jobs(x, y, zoom, satellite), remote)
    {
      ghost var files0 := fs.files;
      if satellite {
        ExecuteTwo(files0, WorkItem(Imagery, x, y, zoom), WorkItem(Overlay, x, y, zoom), remote);
        var o := DownloadSatellite(fs, x, y, zoom, remote);
        if o.Stopped? {
          return [o], Some(o.reason);
        }
        var o' := DownloadTile(fs, x, y, zoom, true, remote);
        done := [o, o'];
        exit := if o'.Stopped? then Some(o'.reason) else None;
      } else {
        ExecuteOne(files0, WorkItem(Road, x, y, zoom), remote);
        var o := DownloadTile(fs, x, y, zoom, false, remote);
        done := [o];
        exit := if o.Stopped? then Some(o.reason) else None;
      }
    }

    /** `run`: the downloads of column `x`, in order of `y`, until one stops the thread. */
    method Run(fs: FileSystem, moduleSatellite: Option<bool>, remote: string -> Fetch) returns (t: Trace)
      modifies fs
      ensures t == Worker(old(fs.files), x, startY, stopY, zoom, moduleSatellite, remote)
      ensures fs.files == t.files
    {
      ghost var w := Worker(fs.files, x, startY, stopY, zoom, moduleSatellite, remote);
      var outcomes: seq<Outcome> := [];
      var y := startY;
      while y < stopY
        invariant startY <= y && (startY <= stopY ==> y <= stopY)
        invariant w == Continue(outcomes, Worker(fs.files, x, y, stopY, zoom, moduleSatellite, remote))
        decreases stopY - y
      {
        if moduleSatellite.None? {
          assert outcomes + [] == outcomes;
          return Trace(fs.files, outcomes, Some(SatelliteUndefined));
        }
        var sat := moduleSatellite.value;
        ghost var before := fs.files;
        var done, exit := RunRow(fs, y, sat, remote);
        RowStep(w, outcomes, before, fs.files, x, y, stopY, zoom, sat, done, exit, remote);
        outcomes := outcomes + done;
        if exit.Some? {
          return Trace(fs.files, outcomes, exit);
        }
        y := y + 1;
      }
      assert outcomes + [] == outcomes;
      t := Trace(fs.files, outcomes, None);
    }
  }

  /**
   * `download_tiles` from the start and stop pixel coordinates that
   * `bd_latlng2xy` returns: one worker per tile column, run in turn.
   * Its own `satellite` argument reaches only the threads' unused field.
   */
  method DownloadTiles(fs: FileSystem, zoom: int, startPixelX: int, startPixelY: int,
                       stopPixelX: int, stopPixelY: int, satellite: bool,
                       moduleSatellite: Option<bool>, remote: string -> Fetch)
    returns (traces: seq<Trace>)
    modifies fs
    ensures var b := Workers(old(fs.files), FloorTile(startPixelX), FloorTile(stopPixelX),
                             FloorTile(startPixelY), FloorTile(stopPixelY), zoom, moduleSatellite, remote);
            traces == b.traces && fs.files == b.files
  {
    var startX, startY := FloorTile(startPixelX), FloorTile(startPixelY);
    var stopX, stopY := FloorTile(stopPixelX), FloorTile(stopPixelY);
    ghost var files0 := fs.files;
    traces := [];
    var x := startX;
    while x < stopX
      invariant startX <= x && (startX <= stopX ==> x <= stopX)
      invariant var b := Workers(fs.files, x, stopX, startY, stopY, zoom, moduleSatellite, remote);
                Workers(files0, startX, stopX, startY, stopY, zoom, moduleSatellite, remote)
                == Batch(b.files, traces + b.traces)
      decreases stopX - x
    {
      var thread := new FastThread(x, startY, stopY, zoom, satellite);
      var t := thread.Run(fs, moduleSatellite, remote);
      traces := traces + [t];
      x := x + 1;
    }
  }
}

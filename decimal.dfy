/**
 * Decimal text as Python's `%d` conversion writes an integer, the
 * `%d` templates the tile scripts build their names from, and the
 * single-character `str.replace` the satellite filename uses.
 */
module Decimal {
  import opened Wrappers

  predicate IsDigit(c: char) { '0' <= c <= '9' }

  /** A character `%d` can produce: a decimal digit or the minus sign. */
  predicate IsNumeral(c: char) { IsDigit(c) || c == '-' }

  predicate AllDigits(s: string) { forall i :: 0 <= i < |s| ==> IsDigit(s[i]) }

  predicate AllNumerals(s: string) { forall i :: 0 <= i < |s| ==> IsNumeral(s[i]) }

  function DigitChar(d: nat): (c: char)
    requires d < 10
    ensures IsDigit(c)
  {
    ('0' as int + d) as char
  }

  function DigitValue(c: char): (d: nat)
    requires IsDigit(c)
    ensures d < 10
  {
    c as int - '0' as int
  }

  /** The decimal digits of `n`, most significant first. */
  function NatDigits(n: nat): (s: string)
    ensures 1 <= |s| && AllDigits(s)
    decreases n
  {
    if n < 10 then [DigitChar(n)] else NatDigits(n / 10) + [DigitChar(n % 10)]
  }

  /** The number a non-empty run of decimal digits denotes. */
  function DigitsValue(s: string): nat
    requires AllDigits(s)
    decreases |s|
  {
    if s == [] then 0 else 10 * DigitsValue(s[..|s| - 1]) + DigitValue(s[|s| - 1])
  }

  /** `"%d" % i`: an optional minus sign followed by the digits of `|i|`. */
  function FormatInt(i: int): (s: string)
    ensures 1 <= |s| && AllNumerals(s)
    ensures (s[0] == '-') == (i < 0)
  {
    if i < 0 then "-" + NatDigits(-i) else NatDigits(i)
  }

  /** Reads back what `FormatInt` writes; `None` for anything else. */
  function ParseInt(s: string): (r: Option<int>)
  {
    if 2 <= |s| && s[0] == '-' && AllDigits(s[1..]) then Some(-(DigitsValue(s[1..]) as int))
    else if 1 <= |s| && AllDigits(s) then Some(DigitsValue(s))
    else None
  }

  lemma {:induction false} NatDigitsValue(n: nat)
    ensures DigitsValue(NatDigits(n)) == n
    decreases n
  {
    var s := NatDigits(n);
    if n >= 10 {
      NatDigitsValue(n / 10);
      assert s[..|s| - 1] == NatDigits(n / 10);
    }
  }

  /** `ParseInt` undoes `FormatInt`: the `%d` text of an integer determines it. */
  lemma ParseFormatInt(i: int)
    ensures ParseInt(FormatInt(i)) == Some(i)
  {
    var s := FormatInt(i);
    if i < 0 {
      NatDigitsValue(-i);
      assert s[1..] == NatDigits(-i);
    } else {
      NatDigitsValue(i);
      assert !AllDigits(s[1..]) || s[0] != '-';
    }
  }

  lemma FormatIntInjective(a: int, b: int)
    requires FormatInt(a) == FormatInt(b)
    ensures a == b
  {
    ParseFormatInt(a);
    ParseFormatInt(b);
  }

  /** A literal piece that ends a `%d` field: it starts with a non-numeral. */
  predicate Delimiter(p: string) { 0 < |p| && !IsNumeral(p[0]) }

  /**
   * The `%d` template `p0%dp1%dp2%dp3` filled with `a`, `b`, `c`
   * (written right-nested so that each field starts a suffix).
   */
  function Format3(p0: string, a: int, p1: string, b: int, p2: string, c: int, p3: string): string
  {
    p0 + (FormatInt(a) + (p1 + (FormatInt(b) + (p2 + (FormatInt(c) + p3)))))
  }

  /** The first literal after the first field sits right after that field. */
  lemma Format3Delimiter(p0: string, a: int, p1: string, b: int, p2: string, c: int, p3: string)
    requires 0 < |p1|
    ensures |p0| + |FormatInt(a)| < |Format3(p0, a, p1, b, p2, c, p3)|
    ensures Format3(p0, a, p1, b, p2, c, p3)[|p0| + |FormatInt(a)|] == p1[0]
  {
  }

  lemma StripPrefix(p: string, s: string, t: string)
    requires p + s == p + t
    ensures s == t
  {
    assert s == (p + s)[|p|..];
    assert t == (p + t)[|p|..];
  }

  lemma StripSuffix(s: string, t: string, p: string)
    requires s + p == t + p
    ensures s == t
  {
    assert s == (s + p)[..|s|];
    assert t == (t + p)[..|t|];
  }

  /** A numeral field followed by a delimiter can be split off in only one way. */
  lemma SplitField(a: string, ra: string, b: string, rb: string)
    requires AllNumerals(a) && AllNumerals(b)
    requires Delimiter(ra) && Delimiter(rb)
    requires a + ra == b + rb
    ensures a == b && ra == rb
  {
    assert a == (a + ra)[..|a|];
    assert b == (b + rb)[..|b|];
    assert ra == (a + ra)[|a|..];
    assert rb == (b + rb)[|b|..];
  }

  /** A filled template determines its three fields when every piece after a field delimits it. */
  lemma {:induction false} Format3Injective(p0: string, p1: string, p2: string, p3: string,
                                            a: int, b: int, c: int, a': int, b': int, c': int)
    requires Delimiter(p1) && Delimiter(p2) && Delimiter(p3)
    requires Format3(p0, a, p1, b, p2, c, p3) == Format3(p0, a', p1, b', p2, c', p3)
    ensures a == a' && b == b' && c == c'
  {
    var restB := p1 + (FormatInt(b) + (p2 + (FormatInt(c) + p3)));
    var restB' := p1 + (FormatInt(b') + (p2 + (FormatInt(c') + p3)));
    StripPrefix(p0, FormatInt(a) + restB, FormatInt(a') + restB');
    SplitField(FormatInt(a), restB, FormatInt(a'), restB');
    FormatIntInjective(a, a');
    var restC := p2 + (FormatInt(c) + p3);
    var restC' := p2 + (FormatInt(c') + p3);
    StripPrefix(p1, FormatInt(b) + restC, FormatInt(b') + restC');
    SplitField(FormatInt(b), restC, FormatInt(b'), restC');
    FormatIntInjective(b, b');
    StripPrefix(p2, FormatInt(c) + p3, FormatInt(c') + p3);
    SplitField(FormatInt(c), p3, FormatInt(c'), p3);
    FormatIntInjective(c, c');
  }

  /** `s.replace(from, to)` for single characters: each character is replaced on its own, in place. */
  function Replace(s: string, from: char, to: char): (r: string)
  {
    seq(|s|, i requires 0 <= i < |s| => if s[i] == from then to else s[i])
  }

  /** After replacing `from` by a different character, no `from` is left. */
  lemma ReplaceRemoves(s: string, from: char, to: char)
    requires from != to
    ensures from !in Replace(s, from, to)
  {
    var r := Replace(s, from, to);
    assert forall i :: 0 <= i < |r| ==> r[i] != from;
  }

  lemma ReplaceConcat(s: string, t: string, from: char, to: char)
    ensures Replace(s + t, from, to) == Replace(s, from, to) + Replace(t, from, to)
  {
    var l, r := Replace(s + t, from, to), Replace(s, from, to) + Replace(t, from, to);
    assert forall i :: 0 <= i < |l| ==> l[i] == r[i];
  }

  lemma ReplaceAbsent(s: string, from: char, to: char)
    requires from !in s
    ensures Replace(s, from, to) == s
  {
    var r := Replace(s, from, to);
    assert forall i :: 0 <= i < |s| ==> r[i] == s[i];
  }

  /** A leading `from` becomes `to`; the rest has none to replace. */
  lemma ReplaceLeading(rest: string, from: char, to: char)
    requires from !in rest
    ensures Replace([from] + rest, from, to) == [to] + rest
  {
    ReplaceConcat([from], rest, from, to);
    ReplaceAbsent(rest, from, to);
  }

  /** Replacing `from` inside a filled template leaves the numeral fields alone. */
  lemma ReplaceFormat3(p0: string, a: int, p1: string, b: int, p2: string, c: int, p3: string,
                       from: char, to: char)
    requires !IsNumeral(from)
    ensures Replace(Format3(p0, a, p1, b, p2, c, p3), from, to)
         == Format3(Replace(p0, from, to), a, Replace(p1, from, to), b,
                    Replace(p2, from, to), c, Replace(p3, from, to))
  {
    ReplaceAbsent(FormatInt(a), from, to);
    ReplaceAbsent(FormatInt(b), from, to);
    ReplaceAbsent(FormatInt(c), from, to);
    ReplaceConcat(FormatInt(c), p3, from, to);
    ReplaceConcat(p2, FormatInt(c) + p3, from, to);
    ReplaceConcat(FormatInt(b), p2 + (FormatInt(c) + p3), from, to);
    ReplaceConcat(p1, FormatInt(b) + (p2 + (FormatInt(c) + p3)), from, to);
    ReplaceConcat(FormatInt(a), p1 + (FormatInt(b) + (p2 + (FormatInt(c) + p3))), from, to);
    ReplaceConcat(p0, FormatInt(a) + (p1 + (FormatInt(b) + (p2 + (FormatInt(c) + p3)))), from, to);
  }
}

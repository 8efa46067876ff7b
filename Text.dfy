/**
 * The string operations the generator relies on: substring search with the
 * conventions of Python's `str.find`, `str.startswith`, `'\n'.join(...)` and the
 * decimal rendering of a parameter count inside an f-string.
 */
module Text {

  /** `term` occurs in `txt` starting at index `i`. */
  predicate OccursAt(txt: string, term: string, i: int) {
    0 <= i && i + |term| <= |txt| && txt[i..i + |term|] == term
  }

  ghost predicate Contains(txt: string, term: string) {
    exists i :: OccursAt(txt, term, i)
  }

  /** `i` is the leftmost index at which `term` occurs in `txt`. */
  predicate IsFirstOccurrence(txt: string, term: string, i: int) {
    OccursAt(txt, term, i) && forall j :: 0 <= j < i ==> !OccursAt(txt, term, j)
  }

  predicate StartsWith(s: string, prefix: string) {
    |prefix| <= |s| && s[..|prefix|] == prefix
  }

  predicate EndsWith(s: string, suffix: string) {
    |suffix| <= |s| && s[|s| - |suffix|..] == suffix
  }

  /** Search for `term` from index `start` on; -1 when there is none. */
  function FindFrom(txt: string, term: string, start: nat): (r: int)
    ensures r == -1 || start <= r
    ensures r == -1 ==> forall j :: start <= j ==> !OccursAt(txt, term, j)
    ensures r != -1 ==> OccursAt(txt, term, r) && forall j :: start <= j < r ==> !OccursAt(txt, term, j)
    decreases |txt| - start
  {
    if start + |term| > |txt| then -1
    else if txt[start..start + |term|] == term then start
    else FindFrom(txt, term, start + 1)
  }

  /** Python's `txt.find(term)`: the first index of `term`, or -1. */
  function Find(txt: string, term: string): (r: int)
    ensures r == -1 <==> !Contains(txt, term)
    ensures r != -1 ==> IsFirstOccurrence(txt, term, r)
  {
    FindFrom(txt, term, 0)
  }

  lemma FirstOccurrenceUnique(txt: string, term: string, i: int, j: int)
    requires IsFirstOccurrence(txt, term, i) && IsFirstOccurrence(txt, term, j)
    ensures i == j
  {
  }

  lemma ContainsEnd(s: string, t: string)
    ensures Contains(s + t, t)
  {
    assert (s + t)[|s|..|s| + |t|] == t;
    assert OccursAt(s + t, t, |s|);
  }

  /** Text that occurs in `s` still occurs once more is appended. */
  lemma ContainsAppend(s: string, u: string, t: string)
    requires Contains(s, t)
    ensures Contains(s + u, t)
  {
    var i :| OccursAt(s, t, i);
    assert (s + u)[i..i + |t|] == s[i..i + |t|];
    assert OccursAt(s + u, t, i);
  }

  lemma StartsWithAppend(s: string, u: string, p: string)
    requires StartsWith(s, p)
    ensures StartsWith(s + u, p)
  {
    assert (s + u)[..|p|] == s[..|p|];
  }

  lemma EndsWithEnd(s: string, a: string, b: string)
    ensures EndsWith(s + a + b, a + b)
  {
    assert (s + a + b)[|s|..] == a + b;
  }

  /** `s + a` cannot end with `c` when the character of `c` that would face the end of `s` differs. */
  lemma NotEndsWith(s: string, a: string, c: string)
    requires |s| >= 1 && |c| > |a|
    requires c[|c| - |a| - 1] != s[|s| - 1]
    ensures !EndsWith(s + a, c)
  {
    if |c| <= |s + a| {
      assert (s + a)[|s + a| - |c|..][|c| - |a| - 1] == s[|s| - 1];
    }
  }

  /** Python's `sep.join(xs)`. */
  function Join(sep: string, xs: seq<string>): (r: string)
    ensures |xs| == 0 ==> r == ""
    ensures |xs| > 0 ==> StartsWith(r, xs[0])
    decreases |xs|
  {
    if |xs| == 0 then ""
    else if |xs| == 1 then xs[0]
    else xs[0] + sep + Join(sep, xs[1..])
  }

  /** Cuts `s` at every `c`; the reading-back partner of `Join([c], _)`. */
  function Split(c: char, s: string): (r: seq<string>)
    ensures |r| >= 1
    decreases |s|
  {
    if s == [] then [""]
    else
      var rest := Split(c, s[1..]);
      if s[0] == c then [""] + rest
      else [[s[0]] + rest[0]] + rest[1..]
  }

  lemma {:induction false} SplitWithout(c: char, x: string)
    requires c !in x
    ensures Split(c, x) == [x]
    decreases |x|
  {
    if x != [] {
      SplitWithout(c, x[1..]);
      assert [x[0]] + x[1..] == x;
    }
  }

  lemma {:induction false} SplitAfter(c: char, x: string, y: string)
    requires c !in x
    ensures Split(c, x + [c] + y) == [x] + Split(c, y)
    decreases |x|
  {
    var s := x + [c] + y;
    if x == [] {
      assert s[0] == c && s[1..] == y;
    } else {
      assert s[0] == x[0] && s[1..] == x[1..] + [c] + y;
      SplitAfter(c, x[1..], y);
      assert [x[0]] + x[1..] == x;
    }
  }

  /**
   * Joining lines that hold no separator loses nothing: cutting the joined
   * text at the separator gives the lines back.
   */
  lemma {:induction false} SplitJoin(c: char, xs: seq<string>)
    requires |xs| >= 1
    requires forall i :: 0 <= i < |xs| ==> c !in xs[i]
    ensures Split(c, Join([c], xs)) == xs
    decreases |xs|
  {
    if |xs| == 1 {
      SplitWithout(c, xs[0]);
    } else {
      SplitJoin(c, xs[1..]);
      SplitAfter(c, xs[0], Join([c], xs[1..]));
      assert [xs[0]] + xs[1..] == xs;
    }
  }

  function DigitChar(d: nat): (c: char)
    requires d < 10
    ensures '0' <= c <= '9'
  {
    "0123456789"[d]
  }

  function DigitValue(c: char): (d: nat)
    requires '0' <= c <= '9'
    ensures d < 10
  {
    c as int - '0' as int
  }

  predicate IsDigits(s: string) {
    forall i :: 0 <= i < |s| ==> '0' <= s[i] <= '9'
  }

  /** The decimal text of `n`, as an f-string renders an int. */
  function NatToString(n: nat): (s: string)
    ensures |s| >= 1 && IsDigits(s)
    ensures s[0] == '0' ==> n == 0 && s == "0"
    decreases n
  {
    if n < 10 then [DigitChar(n)] else NatToString(n / 10) + [DigitChar(n % 10)]
  }

  /** The number a string of decimal digits denotes. */
  function DecimalValue(s: string): nat
    requires IsDigits(s)
    decreases |s|
  {
    if s == [] then 0 else 10 * DecimalValue(s[..|s| - 1]) + DigitValue(s[|s| - 1])
  }

  lemma {:induction false} DecimalRoundTrip(n: nat)
    ensures DecimalValue(NatToString(n)) == n
    decreases n
  {
    var s := NatToString(n);
    if n >= 10 {
      DecimalRoundTrip(n / 10);
      assert s[..|s| - 1] == NatToString(n / 10);
    }
  }

  /** Distinct counts render as distinct texts. */
  lemma NatToStringInjective(a: nat, b: nat)
    requires NatToString(a) == NatToString(b)
    ensures a == b
  {
    DecimalRoundTrip(a);
    DecimalRoundTrip(b);
  }
}

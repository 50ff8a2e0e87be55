/**
  The string primitives the core uses from Python's standard library:
  `str.lower` (restricted to ASCII), `in` on strings, `str.rfind` for one
  character, `str(i)` for a non-negative integer, and the last component of
  a path.
*/
module Strings {

  /** ASCII case folding of one character. */
  function LowerChar(c: char): (r: char)
    ensures 'A' <= c <= 'Z' ==> r as int == c as int + 32
    ensures !('A' <= c <= 'Z') ==> r == c
  {
    if 'A' <= c <= 'Z' then (c as int + 32) as char else c
  }

  /** `s.lower()` on ASCII text: same length, each letter folded. */
  function Lower(s: string): (r: string)
    ensures |r| == |s|
    ensures forall i :: 0 <= i < |s| ==> r[i] == LowerChar(s[i])
  {
    seq(|s|, i requires 0 <= i < |s| => LowerChar(s[i]))
  }

  /** `q` occurs in `s` at index `i`. */
  ghost predicate OccursAt(q: string, s: string, i: int)
  {
    0 <= i && i + |q| <= |s| && s[i..i + |q|] == q
  }

  /** Python's `q in s` for strings: some window of `s` equals `q`. */
  function Contains(s: string, q: string): (r: bool)
    ensures r <==> exists i :: OccursAt(q, s, i)
    decreases |s|
  {
    if |s| < |q| then false
    else if s[..|q|] == q then
      assert OccursAt(q, s, 0);
      true
    else
      OccursShift(q, s);
      Contains(s[1..], q)
  }

  /** An occurrence in `s` is at its start or is an occurrence in `s[1..]` moved one place right. */
  lemma OccursShift(q: string, s: string)
    requires |q| <= |s| && 0 < |s|
    ensures (exists i :: OccursAt(q, s, i))
        <==> (s[..|q|] == q || exists i :: OccursAt(q, s[1..], i))
  {
    if s[..|q|] == q {
      assert OccursAt(q, s, 0);
    }
    forall i | OccursAt(q, s[1..], i) ensures OccursAt(q, s, i + 1) {
      assert s[1..][i..i + |q|] == s[i + 1..i + 1 + |q|];
    }
    forall i | OccursAt(q, s, i) && i > 0 ensures OccursAt(q, s[1..], i - 1) {
      assert s[1..][i - 1..i - 1 + |q|] == s[i..i + |q|];
    }
  }

  /** The empty string occurs in every string. */
  lemma ContainsEmpty(s: string)
    ensures Contains(s, "")
  {
    assert OccursAt("", s, 0);
  }

  /**
    `s.rfind(c, lo, hi)`: the largest index in [lo, hi) holding `c`, or -1
    when there is none.
  */
  function RFind(s: string, c: char, lo: nat, hi: nat): (r: int)
    requires lo <= hi <= |s|
    ensures r == -1 || (lo <= r < hi && s[r] == c)
    ensures r == -1 ==> forall j :: lo <= j < hi ==> s[j] != c
    ensures r != -1 ==> forall j :: r < j < hi ==> s[j] != c
    decreases hi - lo
  {
    if hi == lo then -1
    else if s[hi - 1] == c then hi - 1
    else RFind(s, c, lo, hi - 1)
  }

  function DigitChar(d: nat): (r: char)
    requires d < 10
    ensures '0' <= r <= '9'
  {
    ('0' as int + d) as char
  }

  /** `str(n)` for a natural number: decimal digits, no leading zero. */
  function NatToString(n: nat): (r: string)
    ensures 1 <= |r|
    ensures forall i :: 0 <= i < |r| ==> '0' <= r[i] <= '9'
    ensures n < 10 <==> |r| == 1
    decreases n
  {
    if n < 10 then [DigitChar(n)] else NatToString(n / 10) + [DigitChar(n % 10)]
  }

  /** Distinct numbers have distinct decimal renderings. */
  lemma {:induction false} NatToStringInjective(m: nat, n: nat)
    requires NatToString(m) == NatToString(n)
    ensures m == n
    decreases m
  {
    if m >= 10 && n >= 10 {
      var sm, sn := NatToString(m), NatToString(n);
      assert sm[|sm| - 1] == DigitChar(m % 10) && sn[|sn| - 1] == DigitChar(n % 10);
      assert sm[..|sm| - 1] == NatToString(m / 10);
      assert sn[..|sn| - 1] == NatToString(n / 10);
      NatToStringInjective(m / 10, n / 10);
    }
  }

  /** `Path(p).name`: the part of `p` after its last '/'. */
  function BaseName(p: string): string
    decreases |p|
  {
    if |p| == 0 || p[|p| - 1] == '/' then ""
    else BaseName(p[..|p| - 1]) + [p[|p| - 1]]
  }

  /**
    The last component holds no '/', is a suffix of the path, and is either
    all of the path or preceded by '/'.
  */
  lemma {:induction false} BaseNameShape(p: string)
    ensures var r := BaseName(p);
      && '/' !in r
      && |r| <= |p| && r == p[|p| - |r|..]
      && (|r| < |p| ==> p[|p| - |r| - 1] == '/')
    decreases |p|
  {
    if |p| > 0 && p[|p| - 1] != '/' {
      var init, c := p[..|p| - 1], p[|p| - 1];
      BaseNameShape(init);
      var b := BaseName(init);
      assert p == init + [c];
      assert init[|init| - |b|..] + [c] == p[|p| - |b| - 1..];
    }
  }

  /** Lower-casing a string with one more character appends its folded form. */
  lemma LowerSnoc(s: string, c: char)
    ensures Lower(s + [c]) == Lower(s) + [LowerChar(c)]
  {
    assert forall i :: 0 <= i < |s| ==> (s + [c])[i] == s[i];
  }

  /** Appending a character either starts a new last component or extends the current one. */
  lemma BaseNameSnoc(s: string, c: char)
    ensures BaseName(s + [c]) == if c == '/' then "" else BaseName(s) + [c]
  {
    assert (s + [c])[..|s|] == s;
  }

  /** Lower-casing a path and taking its last component commute, since only '/' folds to '/'. */
  lemma {:induction false} LowerBaseName(p: string)
    ensures BaseName(Lower(p)) == Lower(BaseName(p))
    decreases |p|
  {
    if |p| > 0 {
      var init, c := p[..|p| - 1], p[|p| - 1];
      assert p == init + [c];
      LowerSnoc(init, c);
      BaseNameSnoc(init, c);
      BaseNameSnoc(Lower(init), LowerChar(c));
      if c != '/' {
        LowerBaseName(init);
        LowerSnoc(BaseName(init), c);
      }
    }
  }

  /** A path without '/' is its own last component. */
  lemma {:induction false} BaseNameWithoutSlash(p: string)
    requires '/' !in p
    ensures BaseName(p) == p
    decreases |p|
  {
    if |p| > 0 {
      var init := p[..|p| - 1];
      assert p == init + [p[|p| - 1]];
      assert '/' !in init;
      BaseNameWithoutSlash(init);
    }
  }
}

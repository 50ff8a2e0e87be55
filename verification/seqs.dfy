/**
  Sequence helpers for the Python list and dict idioms of the core:
  distinct keys, removal of one key in order, and the slice `s[:k]`.
*/
module Seqs {

  /** No element occurs twice. */
  predicate Distinct<T(==)>(s: seq<T>)
  {
    forall i, j :: 0 <= i < j < |s| ==> s[i] != s[j]
  }

  /** `s` with every occurrence of `x` removed, the rest in order. */
  function Without<T(==,!new)>(s: seq<T>, x: T): (r: seq<T>)
    ensures forall y :: y in r <==> y in s && y != x
    ensures Distinct(s) ==> Distinct(r)
    ensures x !in s ==> r == s
    ensures |r| <= |s|
    decreases |s|
  {
    if s == [] then []
    else
      var init := Without(s[..|s| - 1], x);
      var last := s[|s| - 1];
      assert s == s[..|s| - 1] + [last];
      assert Distinct(s) ==> last !in s[..|s| - 1];
      if last == x then init else init + [last]
  }

  /**
    Removal distributes over concatenation, so the kept elements keep their
    relative order: `Without(s, x)` is `s` with the occurrences of `x`
    dropped and nothing else moved.
  */
  lemma {:induction false} WithoutAppend<T(!new)>(a: seq<T>, b: seq<T>, x: T)
    ensures Without(a + b, x) == Without(a, x) + Without(b, x)
    decreases |b|
  {
    if b == [] {
      assert a + b == a;
    } else {
      var init, last := b[..|b| - 1], b[|b| - 1];
      var ab := a + b;
      assert ab[..|ab| - 1] == a + init && ab[|ab| - 1] == last;
      var rest := Without(a + init, x);
      assert Without(ab, x) == if last == x then rest else rest + [last];
      assert Without(b, x) == if last == x then Without(init, x) else Without(init, x) + [last];
      WithoutAppend(a, init, x);
    }
  }

  /** Removal from a one-element sequence: the element goes exactly when it is the one removed. */
  lemma WithoutSingleton<T(!new)>(y: T, x: T)
    ensures Without([y], x) == if y == x then [] else [y]
  {
    assert [y][..0] == [];
  }

  /**
    Python's `s[:k]`: the first k elements, all of them when k exceeds the
    length, and for a negative k all but the last -k.
  */
  function PyTake<T>(s: seq<T>, k: int): (r: seq<T>)
    ensures |r| <= |s| && r == s[..|r|]
    ensures k >= 0 ==> |r| == if k <= |s| then k else |s|
    ensures k < 0 ==> |r| == if -k <= |s| then |s| + k else 0
  {
    if k >= 0 then (if k <= |s| then s[..k] else s)
    else if -k <= |s| then s[..|s| + k]
    else []
  }

  /** A sequence without repetitions that lists exactly the elements of a set has its size. */
  lemma {:induction false} DistinctCard<T(!new)>(s: seq<T>, keys: set<T>)
    requires Distinct(s)
    requires forall x :: x in s <==> x in keys
    ensures |s| == |keys|
    decreases |s|
  {
    if s != [] {
      var last := s[|s| - 1];
      var init := s[..|s| - 1];
      forall x ensures x in init <==> x in keys - {last} {
        if x in init {
          var i :| 0 <= i < |init| && init[i] == x;
          assert s[i] == x;
        }
        if x in keys - {last} {
          assert x in s;
          var i :| 0 <= i < |s| && s[i] == x;
          assert i != |s| - 1;
          assert init[i] == x;
        }
      }
      DistinctCard(init, keys - {last});
    }
  }

  /** A subset is no larger than the set that holds it. */
  lemma {:induction false} SubsetCard<T>(a: set<T>, b: set<T>)
    requires a <= b
    ensures |a| <= |b|
    decreases a
  {
    if a != {} {
      var x :| x in a;
      SubsetCard(a - {x}, b - {x});
    }
  }
}

/** Ascending sort of reals (the effect of `vDSP.sort(_, sortOrder: .ascending)`),
    as an insertion sort with its permutation and ordering properties, and the
    fact that a sorted permutation is unique. */
module Sorting {

  predicate Sorted(s: seq<real>) {
    forall i, j :: 0 <= i < j < |s| ==> s[i] <= s[j]
  }

  function Insert(x: real, s: seq<real>): (r: seq<real>)
    requires Sorted(s)
    ensures Sorted(r)
    ensures multiset(r) == multiset(s) + multiset{x}
  {
    if s == [] then [x]
    else if x <= s[0] then [x] + s
    else
      var rest := Insert(x, s[1..]);
      assert s == [s[0]] + s[1..];
      PrependSorted(s[0], rest, s[1..], x);
      [s[0]] + rest
  }

  /** A value no larger than anything in `tail` or than `x` can be put in
      front of a sorted arrangement of `tail` and `x`. */
  lemma PrependSorted(h: real, rest: seq<real>, tail: seq<real>, x: real)
    requires Sorted(rest) && multiset(rest) == multiset(tail) + multiset{x}
    requires h <= x && forall k :: 0 <= k < |tail| ==> h <= tail[k]
    ensures Sorted([h] + rest)
  {
    var r := [h] + rest;
    forall k | 0 <= k < |rest|
      ensures h <= rest[k]
    {
      assert rest[k] in multiset(rest);
      if rest[k] != x {
        assert rest[k] in multiset(tail);
      }
    }
    forall i, j | 0 <= i < j < |r|
      ensures r[i] <= r[j]
    {
      assert r[j] == rest[j - 1];
    }
  }

  /** The elements of `s` in ascending order. */
  function Sort(s: seq<real>): (r: seq<real>)
    ensures Sorted(r)
    ensures multiset(r) == multiset(s)
  {
    if s == [] then []
    else
      assert s == [s[0]] + s[1..];
      Insert(s[0], Sort(s[1..]))
  }

  /** The first element of a sorted sequence is its least element. */
  lemma HeadIsLeast(a: seq<real>, x: real)
    requires Sorted(a) && x in multiset(a)
    ensures a[0] <= x
  {
    var i :| 0 <= i < |a| && a[i] == x;
  }

  /** Removing the first element removes one occurrence of it. */
  lemma TailMultiset(a: seq<real>)
    requires |a| > 0
    ensures multiset(a[1..]) == multiset(a) - multiset{a[0]}
  {
    assert a == [a[0]] + a[1..];
  }

  /** Two sorted sequences with the same elements start with the same
      element and continue with the same elements. */
  lemma SameHead(a: seq<real>, b: seq<real>)
    requires Sorted(a) && Sorted(b) && multiset(a) == multiset(b) && |a| > 0
    ensures |b| > 0 && a[0] == b[0]
    ensures Sorted(a[1..]) && Sorted(b[1..]) && multiset(a[1..]) == multiset(b[1..])
  {
    assert |a| == |multiset(a)| == |multiset(b)| == |b|;
    assert a[0] in multiset(a) && b[0] in multiset(b);
    HeadIsLeast(a, b[0]);
    HeadIsLeast(b, a[0]);
    TailMultiset(a);
    TailMultiset(b);
  }

  /** Two sorted sequences with the same elements are equal. */
  lemma {:induction false} SortedUnique(a: seq<real>, b: seq<real>)
    requires Sorted(a) && Sorted(b) && multiset(a) == multiset(b)
    ensures a == b
  {
    if a == [] {
      assert |b| == |multiset(b)| == |multiset(a)| == 0;
    } else {
      SameHead(a, b);
      SortedUnique(a[1..], b[1..]);
      assert a == [a[0]] + a[1..] && b == [b[0]] + b[1..];
    }
  }

  /** A sorted arrangement of `a` runs from an element of `a` no larger than
      any other to an element no smaller than any other. */
  lemma SortedSpan(a: seq<real>, s: seq<real>)
    requires Sorted(s) && multiset(s) == multiset(a) && |a| > 0
    ensures |s| == |a|
    ensures s[0] in a && s[|s| - 1] in a
    ensures forall i :: 0 <= i < |a| ==> s[0] <= a[i] <= s[|s| - 1]
  {
    assert |s| == |multiset(s)| == |multiset(a)| == |a|;
    assert s[0] in multiset(s) && s[|s| - 1] in multiset(s);
    forall i | 0 <= i < |a|
      ensures s[0] <= a[i] <= s[|s| - 1]
    {
      assert a[i] in multiset(a);
      var k :| 0 <= k < |s| && s[k] == a[i];
    }
  }

  /** The sort depends only on the multiset of its input. */
  lemma SortPermutationInvariant(a: seq<real>, b: seq<real>)
    requires multiset(a) == multiset(b)
    ensures Sort(a) == Sort(b)
  {
    SortedUnique(Sort(a), Sort(b));
  }
}

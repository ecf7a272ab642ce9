/** Interpolated percentile bounds of an unordered collection
    (`PixelUtilities.percentileBounds`). */
module Percentiles {
  import opened Vectors
  import opened Sorting

  /** The fractional rank of percentile `p` among `n` sorted values. */
  function Rank(n: nat, p: real): real {
    (n - 1) as real * (p / 100.0)
  }

  /** The source indexes the sorted array at `Int(floor(rank))`, which traps
      unless 0 <= rank < n. */
  predicate RankInRange(n: nat, p: real) {
    0.0 <= Rank(n, p) < n as real
  }

  /** Percentiles in [0, 100] are in range for every non-empty collection. */
  lemma PercentInRange(n: nat, p: real)
    requires n > 0 && 0.0 <= p <= 100.0
    ensures RankInRange(n, p)
  {
    assert (n - 1) as real * (p / 100.0) <= (n - 1) as real * 1.0;
  }

  /** Linear interpolation in a sorted sequence at fractional position `pos`,
      between index floor(pos) and the next index (capped at the last one). */
  function Interpolate(s: seq<real>, pos: real): real
    requires 0.0 <= pos < |s| as real
  {
    var i := pos.Floor;
    var weight := pos - i as real;
    var j := if i + 1 < |s| - 1 then i + 1 else |s| - 1;
    s[i] * (1.0 - weight) + s[j] * weight
  }

  datatype Bounds = Bounds(lower: real, upper: real)

  /** The values at the `lower` and `upper` percentiles; (0, 0) for an empty
      collection. */
  function PercentileBounds(a: seq<real>, lower: real, upper: real): (b: Bounds)
    requires |a| == 0 || (RankInRange(|a|, lower) && RankInRange(|a|, upper))
    ensures |a| == 0 ==> b == Bounds(0.0, 0.0)
    ensures |a| == 1 ==> b == Bounds(a[0], a[0])
    ensures |a| > 0 ==> Min(a) <= b.lower <= Max(a) && Min(a) <= b.upper <= Max(a)
  {
    if |a| == 0 then Bounds(0.0, 0.0)
    else
      var sorted := Sort(a);
      SortEnds(a);
      InterpolateWithin(sorted, Rank(|a|, lower));
      InterpolateWithin(sorted, Rank(|a|, upper));
      Bounds(Interpolate(sorted, Rank(|a|, lower)), Interpolate(sorted, Rank(|a|, upper)))
  }

  /** The first and last elements of the sorted sequence are the minimum and
      the maximum of the input. */
  lemma SortEnds(a: seq<real>)
    requires |a| > 0
    ensures |Sort(a)| == |a|
    ensures Sort(a)[0] == Min(a) && Sort(a)[|a| - 1] == Max(a)
  {
    var s := Sort(a);
    SortedSpan(a, s);
    MinUnique(a, s[0]);
    MaxUnique(a, s[|s| - 1]);
  }

  /** An interpolated value lies between its two neighbours. */
  lemma InterpolateBetween(s: seq<real>, pos: real)
    requires Sorted(s) && 0.0 <= pos < |s| as real
    ensures var i := pos.Floor;
            var j := if i + 1 < |s| - 1 then i + 1 else |s| - 1;
            s[i] <= Interpolate(s, pos) <= s[j]
  {
    var i := pos.Floor;
    var weight := pos - i as real;
    var j := if i + 1 < |s| - 1 then i + 1 else |s| - 1;
    assert i as real <= pos < i as real + 1.0;
    assert 0 <= i <= j < |s|;
    assert s[i] <= s[j];
    assert 0.0 <= weight <= 1.0;
    var d := s[j] - s[i];
    assert Interpolate(s, pos) == s[i] + d * weight;
    ScaledPart(d, weight);
  }

  lemma ScaledPart(d: real, w: real)
    requires d >= 0.0 && 0.0 <= w <= 1.0
    ensures 0.0 <= d * w <= d
  {
    assert d - d * w == d * (1.0 - w);
  }

  /** At a whole-number position the interpolation is exact. */
  lemma InterpolateAtIndex(s: seq<real>, k: nat)
    requires k < |s|
    ensures Interpolate(s, k as real) == s[k]
  {
    assert (k as real).Floor == k;
  }

  lemma InterpolateWithin(s: seq<real>, pos: real)
    requires Sorted(s) && 0.0 <= pos < |s| as real
    ensures s[0] <= Interpolate(s, pos) <= s[|s| - 1]
  {
    InterpolateBetween(s, pos);
  }

  /** Interpolation is monotone in the position. */
  lemma InterpolateMonotone(s: seq<real>, p: real, q: real)
    requires Sorted(s) && 0.0 <= p <= q < |s| as real
    ensures Interpolate(s, p) <= Interpolate(s, q)
  {
    var i, k := p.Floor, q.Floor;
    InterpolateBetween(s, p);
    InterpolateBetween(s, q);
    if i == k {
      var j := if i + 1 < |s| - 1 then i + 1 else |s| - 1;
      assert Interpolate(s, p) == s[i] + (s[j] - s[i]) * (p - i as real);
      assert Interpolate(s, q) == s[i] + (s[j] - s[i]) * (q - i as real);
      assert (s[j] - s[i]) * (q - i as real) - (s[j] - s[i]) * (p - i as real)
             == (s[j] - s[i]) * (q - p);
      assert s[i] <= s[j];
      MulNonNegative(s[j] - s[i], q - p);
    }
  }

  lemma MulNonNegative(a: real, b: real)
    requires 0.0 <= a && 0.0 <= b
    ensures 0.0 <= a * b
  {
  }

  lemma RankMonotone(n: nat, p: real, q: real)
    requires n > 0 && p <= q
    ensures Rank(n, p) <= Rank(n, q)
  {
    assert Rank(n, q) - Rank(n, p) == (n - 1) as real * ((q - p) / 100.0);
    ScaledNonNegative((n - 1) as real, (q - p) / 100.0);
  }

  lemma ScaledNonNegative(a: real, b: real)
    requires a >= 0.0 && b >= 0.0
    ensures a * b >= 0.0
  {
  }

  /** Percentile 0 is the minimum and percentile 100 the maximum. */
  lemma ExtremePercentiles(a: seq<real>)
    requires |a| > 0
    ensures PercentileBounds(a, 0.0, 100.0) == Bounds(Min(a), Max(a))
  {
    var n := |a|;
    var s := Sort(a);
    SortEnds(a);
    var lo, hi := Rank(n, 0.0), Rank(n, 100.0);
    assert lo == 0 as real;
    assert hi == (n - 1) as real;
    assert RankInRange(n, 0.0) && RankInRange(n, 100.0);
    InterpolateAtIndex(s, 0);
    InterpolateAtIndex(s, n - 1);
    assert Interpolate(s, lo) == Min(a);
    assert Interpolate(s, hi) == Max(a);
  }

  /** A lower percentile never yields a larger value than a higher one. */
  lemma BoundsOrdered(a: seq<real>, lower: real, upper: real)
    requires |a| > 0 && RankInRange(|a|, lower) && RankInRange(|a|, upper)
    requires lower <= upper
    ensures PercentileBounds(a, lower, upper).lower <= PercentileBounds(a, lower, upper).upper
  {
    SortEnds(a);
    RankMonotone(|a|, lower, upper);
    InterpolateMonotone(Sort(a), Rank(|a|, lower), Rank(|a|, upper));
  }

  /** The result depends only on the multiset of the input: shuffling it does
      not change the bounds. */
  lemma PermutationInvariant(a: seq<real>, b: seq<real>, lower: real, upper: real)
    requires multiset(a) == multiset(b)
    requires |a| == 0 || (RankInRange(|a|, lower) && RankInRange(|a|, upper))
    ensures |a| == |b|
    ensures PercentileBounds(a, lower, upper) == PercentileBounds(b, lower, upper)
  {
    assert |a| == |multiset(a)| == |multiset(b)| == |b|;
    SortPermutationInvariant(a, b);
  }

  /** [10, 20] at the 25th and 75th percentiles interpolates to (12.5, 17.5). */
  lemma TwoElementExample()
    ensures PercentileBounds([10.0, 20.0], 25.0, 75.0) == Bounds(12.5, 17.5)
  {
    var a := [10.0, 20.0];
    SortedUnique(Sort(a), a);
    assert Rank(2, 25.0) == 0.25;
    assert (0.25).Floor == 0;
    assert Interpolate(a, 0.25) == 12.5;
    assert Rank(2, 75.0) == 0.75;
    assert (0.75).Floor == 0;
    assert Interpolate(a, 0.75) == 17.5;
  }
}

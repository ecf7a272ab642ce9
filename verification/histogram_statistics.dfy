/** Aggregate statistics of an integer histogram (`HistogramStatistics` in
    SwiftPixel/HistogramStatistics.swift): the total count, the weighted mean,
    a median bucket, the first and last occupied buckets, and two percentile
    buckets found by a cumulative-threshold scan. */
module HistogramStatistics {
  import opened Outcomes

  /** The sum of all bucket counts (`data.reduce(0, +)`). */
  function Total(data: seq<int>): int {
    if data == [] then 0 else Total(data[..|data| - 1]) + data[|data| - 1]
  }

  /** The cumulative count of buckets 0 through `k` inclusive. */
  function Through(data: seq<int>, k: nat): int
    requires k < |data|
  {
    Total(data[..k + 1])
  }

  /** Σ i·data[i], the numerator of the mean. */
  function Weighted(data: seq<int>): int {
    if data == [] then 0
    else Weighted(data[..|data| - 1]) + (|data| - 1) * data[|data| - 1]
  }

  lemma ThroughStep(data: seq<int>, k: nat)
    requires 0 < k < |data|
    ensures Through(data, k) == Through(data, k - 1) + data[k]
  {
    assert data[..k + 1][..k] == data[..k];
  }

  lemma ThroughFirst(data: seq<int>)
    requires 0 < |data|
    ensures Through(data, 0) == data[0]
  {
    var d := data[..1];
    assert d[..0] == [] && d[0] == data[0];
    assert Total(d) == Total(d[..0]) + d[0];
  }

  lemma WeightedStep(data: seq<int>, i: nat)
    requires i < |data|
    ensures Weighted(data[..i + 1]) == Weighted(data[..i]) + i * data[i]
  {
    assert data[..i + 1][..i] == data[..i];
  }

  lemma ThroughLast(data: seq<int>)
    requires 0 < |data|
    ensures Through(data, |data| - 1) == Total(data)
  {
    assert data[..|data|] == data;
  }

  /** The smallest index at or after `i` whose cumulative count reaches `t`. */
  function FirstReachingFrom(data: seq<int>, t: int, i: nat): (r: Option<nat>)
    requires i <= |data|
    ensures r.Some? ==> i <= r.value < |data| && Through(data, r.value) >= t
    ensures forall k :: i <= k < |data| && (r.None? || k < r.value) ==> Through(data, k) < t
    decreases |data| - i
  {
    if i == |data| then None
    else if Through(data, i) >= t then Some(i)
    else FirstReachingFrom(data, t, i + 1)
  }

  /** The smallest bucket whose cumulative count reaches `t`, if any. */
  function FirstReaching(data: seq<int>, t: int): (r: Option<nat>)
    ensures r.Some? ==> r.value < |data| && Through(data, r.value) >= t
    ensures forall k :: 0 <= k < |data| && (r.None? || k < r.value) ==> Through(data, k) < t
  {
    FirstReachingFrom(data, t, 0)
  }

  /** The percentile bucket for threshold `t`, with the scan's fallback 255. */
  function Bucket(data: seq<int>, t: int): int {
    FirstReaching(data, t).GetOr(255)
  }

  /** The first bucket with a positive count. */
  function FirstPositiveFrom(data: seq<int>, i: nat): (r: Option<nat>)
    requires i <= |data|
    ensures r.Some? ==> i <= r.value < |data| && data[r.value] > 0
    ensures forall k :: i <= k < |data| && (r.None? || k < r.value) ==> data[k] <= 0
    decreases |data| - i
  {
    if i == |data| then None
    else if data[i] > 0 then Some(i)
    else FirstPositiveFrom(data, i + 1)
  }

  function FirstPositive(data: seq<int>): (r: Option<nat>)
    ensures r.Some? ==> r.value < |data| && data[r.value] > 0
    ensures forall k :: 0 <= k < |data| && (r.None? || k < r.value) ==> data[k] <= 0
  {
    FirstPositiveFrom(data, 0)
  }

  /** The last bucket below `n` with a positive count. */
  function LastPositiveBelow(data: seq<int>, n: nat): (r: Option<nat>)
    requires n <= |data|
    ensures r.Some? ==> r.value < n && data[r.value] > 0
    ensures forall k :: 0 <= k < n && (r.None? || k > r.value) ==> data[k] <= 0
  {
    if n == 0 then None
    else if data[n - 1] > 0 then Some(n - 1)
    else LastPositiveBelow(data, n - 1)
  }

  function LastPositive(data: seq<int>): (r: Option<nat>)
    ensures r.Some? ==> r.value < |data| && data[r.value] > 0
    ensures forall k :: 0 <= k < |data| && (r.None? || k > r.value) ==> data[k] <= 0
  {
    LastPositiveBelow(data, |data|)
  }

  /** The snapshot a histogram yields; `stdDev` is not part of this model. */
  datatype Stats = Stats(
    count: int,
    mean: real,
    median: int,
    min: int,
    max: int,
    percentile1: int,
    percentile99: int)

  const Empty := Stats(0, 0.0, 0, 0, 0, 0, 0)

  /** The statistics of `data`, where `t1` and `t2` are the integer thresholds
      the source derives from 1% and 99% of the total.  A total of zero or
      less yields all zeros; otherwise min falls back to 0 and max to 255 when
      no bucket is positive, the median to 0 when no bucket reaches half the
      total, and each percentile to 255. */
  function Statistics(data: seq<int>, t1: int, t2: int): (s: Stats)
    ensures Total(data) <= 0 ==> s == Empty
    ensures Total(data) > 0 ==> s.count == Total(data)
    ensures Total(data) > 0 ==> s.percentile1 == Bucket(data, t1) && s.percentile99 == Bucket(data, t2)
  {
    var total := Total(data);
    if total <= 0 then Empty
    else
      Stats(
        total,
        Weighted(data) as real / total as real,
        FirstReaching(data, total / 2).GetOr(0),
        FirstPositive(data).GetOr(0),
        LastPositive(data).GetOr(255),
        Bucket(data, t1),
        Bucket(data, t2))
  }

  // ---------------------------------------------------------------------
  // Uniqueness of the searches

  lemma FirstReachingUnique(data: seq<int>, t: int, m: nat)
    requires m < |data| && Through(data, m) >= t
    requires forall k :: 0 <= k < m ==> Through(data, k) < t
    ensures FirstReaching(data, t) == Some(m)
  {
  }

  lemma FirstPositiveUnique(data: seq<int>, m: nat)
    requires m < |data| && data[m] > 0
    requires forall k :: 0 <= k < m ==> data[k] <= 0
    ensures FirstPositive(data) == Some(m)
  {
  }

  lemma LastPositiveUnique(data: seq<int>, m: nat)
    requires m < |data| && data[m] > 0
    requires forall k :: m < k < |data| ==> data[k] <= 0
    ensures LastPositive(data) == Some(m)
  {
  }

  // ---------------------------------------------------------------------
  // The source's loops

  /** The threshold scan of `percentiles(data:total:p1:p2:)`: one pass over
      the cumulative count that records the first bucket reaching each
      threshold and stops once both are found. */
  method PercentileScan(data: seq<int>, t1: int, t2: int) returns (p1: int, p2: int)
    ensures p1 == Bucket(data, t1) && p2 == Bucket(data, t2)
  {
    var cumulative := 0;
    var r1: Option<nat> := None;
    var r2: Option<nat> := None;
    var i := 0;
    while i < |data|
      invariant 0 <= i <= |data|
      invariant i > 0 ==> cumulative == Through(data, i - 1)
      invariant i == 0 ==> cumulative == 0
      invariant r1.Some? ==> r1 == FirstReaching(data, t1)
      invariant r1.None? ==> forall k :: 0 <= k < i ==> Through(data, k) < t1
      invariant r2.Some? ==> r2 == FirstReaching(data, t2)
      invariant r2.None? ==> forall k :: 0 <= k < i ==> Through(data, k) < t2
      invariant i == |data| || r1.None? || r2.None?
    {
      cumulative := cumulative + data[i];
      if i == 0 {
        ThroughFirst(data);
      } else {
        ThroughStep(data, i);
      }
      if r1.None? && cumulative >= t1 {
        FirstReachingUnique(data, t1, i);
        r1 := Some(i);
      }
      if r2.None? && cumulative >= t2 {
        FirstReachingUnique(data, t2, i);
        r2 := Some(i);
      }
      if r1.Some? && r2.Some? {
        break;
      }
      i := i + 1;
    }
    p1 := r1.GetOr(255);
    p2 := r2.GetOr(255);
  }

  /** The first positive bucket among the first `i`, as far as it is known. */
  predicate MinSoFar(data: seq<int>, i: nat, minVal: Option<nat>)
    requires i <= |data|
  {
    && (minVal.Some? ==> minVal.value < i && data[minVal.value] > 0)
    && forall k :: 0 <= k < i && (minVal.None? || k < minVal.value) ==> data[k] <= 0
  }

  /** The last positive bucket among the first `i`. */
  predicate MaxSoFar(data: seq<int>, i: nat, maxVal: Option<nat>)
    requires i <= |data|
  {
    && (maxVal.Some? ==> maxVal.value < i && data[maxVal.value] > 0)
    && forall k :: 0 <= k < i && (maxVal.None? || k > maxVal.value) ==> data[k] <= 0
  }

  /** The median scan after `i` buckets: either the median is found, or the
      running count is the cumulative count so far and stays below `t`. */
  predicate MedianSoFar(data: seq<int>, t: int, i: nat, found: bool, cumulative: int, median: int)
    requires i <= |data|
  {
    if found then FirstReaching(data, t) == Some(median)
    else
      && cumulative == (if i == 0 then 0 else Through(data, i - 1))
      && forall k :: 0 <= k < i ==> Through(data, k) < t
  }

  lemma MinStep(data: seq<int>, i: nat, minVal: Option<nat>)
    requires i < |data| && MinSoFar(data, i, minVal)
    ensures MinSoFar(data, i + 1, if data[i] > 0 && minVal.None? then Some(i) else minVal)
  {
  }

  lemma MaxStep(data: seq<int>, i: nat, maxVal: Option<nat>)
    requires i < |data| && MaxSoFar(data, i, maxVal)
    ensures MaxSoFar(data, i + 1, if data[i] > 0 then Some(i) else maxVal)
  {
  }

  lemma MedianStep(data: seq<int>, t: int, i: nat, cumulative: int, median: int)
    requires i < |data| && MedianSoFar(data, t, i, false, cumulative, median)
    ensures var c := cumulative + data[i];
            MedianSoFar(data, t, i + 1, c >= t, c, if c >= t then i else median)
  {
    if i == 0 {
      ThroughFirst(data);
    } else {
      ThroughStep(data, i);
    }
    if cumulative + data[i] >= t {
      FirstReachingUnique(data, t, i);
    }
  }

  /** The one-pass aggregation of `init(data:)`: the running weighted sum, the
      first and last positive buckets, and the median scan that stops
      accumulating once half the total is reached. */
  method Accumulate(data: seq<int>, total: int)
    returns (sum: int, median: int, minVal: Option<nat>, maxVal: Option<nat>)
    requires total == Total(data) && total > 0
    ensures sum == Weighted(data)
    ensures FirstReaching(data, total / 2) == Some(median)
    ensures minVal == FirstPositive(data) && maxVal == LastPositive(data)
  {
    sum := 0;
    median := 0;
    minVal := None;
    maxVal := None;
    var cumulative := 0;
    var medianFound := false;
    var i := 0;
    while i < |data|
      invariant 0 <= i <= |data|
      invariant sum == Weighted(data[..i])
      invariant MinSoFar(data, i, minVal) && MaxSoFar(data, i, maxVal)
      invariant MedianSoFar(data, total / 2, i, medianFound, cumulative, median)
    {
      var value := data[i];
      MinStep(data, i, minVal);
      MaxStep(data, i, maxVal);
      if value > 0 {
        if minVal.None? {
          minVal := Some(i);
        }
        maxVal := Some(i);
      }
      WeightedStep(data, i);
      sum := sum + i * value;
      if !medianFound {
        MedianStep(data, total / 2, i, cumulative, median);
        cumulative := cumulative + value;
        if cumulative >= total / 2 {
          median := i;
          medianFound := true;
        }
      }
      i := i + 1;
    }
    assert data[..|data|] == data;
    ThroughLast(data);
    assert medianFound;
    if minVal.Some? {
      FirstPositiveUnique(data, minVal.value);
      LastPositiveUnique(data, maxVal.value);
    }
  }

  /** `init(data:)`: the zero snapshot for a non-positive total, otherwise the
      aggregation pass followed by the percentile scan. */
  method ComputeStatistics(data: seq<int>, t1: int, t2: int) returns (s: Stats)
    ensures s == Statistics(data, t1, t2)
  {
    var total := Total(data);
    if total <= 0 {
      return Empty;
    }
    var sum, median, minVal, maxVal := Accumulate(data, total);
    var p1, p2 := PercentileScan(data, t1, t2);
    s := Stats(total, sum as real / total as real, median, minVal.GetOr(0), maxVal.GetOr(255), p1, p2);
  }

  // ---------------------------------------------------------------------
  // Properties of the snapshot

  /** A histogram with no positive bucket has a total of at most zero. */
  lemma {:induction false} NonPositiveTotal(data: seq<int>)
    requires forall k :: 0 <= k < |data| ==> data[k] <= 0
    ensures Total(data) <= 0
  {
    if data != [] {
      NonPositiveTotal(data[..|data| - 1]);
    }
  }

  /** Buckets after `j` that are all non-positive cannot raise the cumulative
      count above its value at `j`. */
  lemma {:induction false} TailNonPositive(data: seq<int>, j: nat, n: nat)
    requires j < n <= |data|
    requires forall k :: j < k < |data| ==> data[k] <= 0
    ensures Total(data[..n]) <= Through(data, j)
    decreases n
  {
    if n > j + 1 {
      TailNonPositive(data, j, n - 1);
      assert data[..n][..n - 1] == data[..n - 1];
    }
  }

  /** With a positive total, the first and last positive buckets exist, so
      the fallbacks 0 and 255 are never used, and min <= max. */
  lemma SupportExists(data: seq<int>, t1: int, t2: int)
    requires Total(data) > 0
    ensures FirstPositive(data).Some? && LastPositive(data).Some?
    ensures Statistics(data, t1, t2).min == FirstPositive(data).value
    ensures Statistics(data, t1, t2).max == LastPositive(data).value
    ensures Statistics(data, t1, t2).min <= Statistics(data, t1, t2).max
  {
    if FirstPositive(data).None? {
      NonPositiveTotal(data);
    }
  }

  /** The median bucket is always found when the total is positive, and it
      never lies after the last positive bucket. When the total is at least 2
      it never lies before the first positive bucket either. */
  lemma MedianWithinSupport(data: seq<int>, t1: int, t2: int)
    requires Total(data) > 0
    ensures FirstReaching(data, Total(data) / 2).Some?
    ensures Statistics(data, t1, t2).median <= Statistics(data, t1, t2).max
    ensures Total(data) >= 2 ==> Statistics(data, t1, t2).min <= Statistics(data, t1, t2).median
  {
    var total := Total(data);
    SupportExists(data, t1, t2);
    var mx := LastPositive(data).value;
    TailNonPositive(data, mx, |data|);
    assert data[..|data|] == data;
    assert Through(data, mx) >= total / 2;
    if total >= 2 {
      var mn := FirstPositive(data).value;
      forall k | 0 <= k < mn
        ensures Through(data, k) < total / 2
      {
        NonPositiveTotal(data[..k + 1]);
      }
    }
  }

  /** A histogram whose only count is 1 has a median threshold of 1 / 2 = 0,
      which bucket 0 already reaches: the median is 0 while min is 1. */
  lemma MedianOfSingleCount(t1: int, t2: int)
    ensures Statistics([0, 1], t1, t2).median == 0
    ensures Statistics([0, 1], t1, t2).min == 1
  {
    var data := [0, 1];
    ThroughFirst(data);
    ThroughLast(data);
    FirstReachingUnique(data, 0, 0);
    FirstPositiveUnique(data, 1);
  }

  lemma MulMonotone(a: int, b: int, d: int)
    requires a <= b && d >= 0
    ensures a * d <= b * d
  {
    assert b * d - a * d == (b - a) * d;
  }

  /** With non-negative counts that are zero outside [lo, hi], the weighted
      sum lies between lo and hi times the total. */
  lemma {:induction false} WeightedBounds(data: seq<int>, lo: int, hi: int)
    requires forall k :: 0 <= k < |data| ==> data[k] >= 0
    requires forall k :: 0 <= k < |data| && data[k] > 0 ==> lo <= k <= hi
    ensures lo * Total(data) <= Weighted(data) <= hi * Total(data)
  {
    if data != [] {
      var n := |data|;
      var d := data[n - 1];
      WeightedBounds(data[..n - 1], lo, hi);
      if d > 0 {
        MulMonotone(lo, n - 1, d);
        MulMonotone(n - 1, hi, d);
      }
      assert lo * Total(data) == lo * Total(data[..n - 1]) + lo * d;
      assert hi * Total(data) == hi * Total(data[..n - 1]) + hi * d;
    }
  }

  lemma QuotientBetween(lo: int, hi: int, w: int, t: int)
    requires t > 0 && lo * t <= w <= hi * t
    ensures lo as real <= w as real / t as real <= hi as real
  {
    var q := w as real / t as real;
    assert q * t as real == w as real;
    assert (lo * t) as real == lo as real * t as real;
    assert (hi * t) as real == hi as real * t as real;
    NonNegativeFactor(q - lo as real, t as real);
    NonNegativeFactor(hi as real - q, t as real);
  }

  lemma NonNegativeFactor(x: real, t: real)
    requires t > 0.0 && x * t >= 0.0
    ensures x >= 0.0
  {
  }

  /** With non-negative counts and a positive total, the mean lies between the
      first and the last occupied bucket. */
  lemma MeanWithinSupport(data: seq<int>, t1: int, t2: int)
    requires forall k :: 0 <= k < |data| ==> data[k] >= 0
    requires Total(data) > 0
    ensures Statistics(data, t1, t2).min as real <= Statistics(data, t1, t2).mean
    ensures Statistics(data, t1, t2).mean <= Statistics(data, t1, t2).max as real
  {
    SupportExists(data, t1, t2);
    var lo, hi := FirstPositive(data).value, LastPositive(data).value;
    WeightedBounds(data, lo, hi);
    QuotientBetween(lo, hi, Weighted(data), Total(data));
  }

  /** The percentile bucket of a smaller threshold is never after that of a
      larger one, for histograms of at most 256 buckets. */
  lemma BucketsOrdered(data: seq<int>, t1: int, t2: int)
    requires |data| <= 256 && t1 <= t2
    ensures Bucket(data, t1) <= Bucket(data, t2)
  {
    var r1, r2 := FirstReaching(data, t1), FirstReaching(data, t2);
    if r2.Some? {
      assert Through(data, r2.value) >= t1;
    }
  }

  /** A histogram whose only non-zero bucket is `k`, holding `v`. */
  predicate IsSpike(data: seq<int>, k: nat, v: int) {
    k < |data| && data[k] == v && forall i :: 0 <= i < |data| && i != k ==> data[i] == 0
  }

  lemma {:induction false} SpikeThrough(data: seq<int>, k: nat, v: int, j: nat)
    requires IsSpike(data, k, v) && j < |data|
    ensures Through(data, j) == if j < k then 0 else v
  {
    if j == 0 {
      ThroughFirst(data);
    } else {
      SpikeThrough(data, k, v, j - 1);
      ThroughStep(data, j);
    }
  }

  lemma {:induction false} SpikeWeighted(data: seq<int>, k: nat, v: int, n: nat)
    requires IsSpike(data, k, v) && n <= |data|
    ensures Weighted(data[..n]) == if n <= k then 0 else k * v
  {
    if n > 0 {
      SpikeWeighted(data, k, v, n - 1);
      WeightedStep(data, n - 1);
    }
  }

  lemma ExactQuotient(k: int, v: int)
    requires v > 0
    ensures (k * v) as real / v as real == k as real
  {
    assert (k * v) as real == k as real * v as real;
  }

  /** The total and weighted sum of a spike. */
  lemma SpikeSums(data: seq<int>, k: nat, v: int)
    requires IsSpike(data, k, v)
    ensures Total(data) == v && Weighted(data) == k * v
  {
    SpikeThrough(data, k, v, |data| - 1);
    ThroughLast(data);
    SpikeWeighted(data, k, v, |data|);
    assert data[..|data|] == data;
  }

  /** In a spike, every threshold in (0, v] is first reached at the spike. */
  lemma SpikeReaching(data: seq<int>, k: nat, v: int, t: int)
    requires IsSpike(data, k, v) && 0 < t <= v
    ensures FirstReaching(data, t) == Some(k)
  {
    forall j | 0 <= j < k
      ensures Through(data, j) < t
    {
      SpikeThrough(data, k, v, j);
    }
    SpikeThrough(data, k, v, k);
    FirstReachingUnique(data, t, k);
  }

  /** A single spike of `v >= 2` at bucket `k` has count v, and mean, median,
      min, max and both percentile buckets equal to k, for thresholds in
      (0, v]. */
  lemma SpikeStatistics(data: seq<int>, k: nat, v: int, t1: int, t2: int)
    requires IsSpike(data, k, v) && v >= 2
    requires 0 < t1 <= v && 0 < t2 <= v
    ensures Statistics(data, t1, t2) == Stats(v, k as real, k, k, k, k, k)
  {
    SpikeSums(data, k, v);
    SpikeReaching(data, k, v, v / 2);
    SpikeReaching(data, k, v, t1);
    SpikeReaching(data, k, v, t2);
    FirstPositiveUnique(data, k);
    LastPositiveUnique(data, k);
    ExactQuotient(k, v);
  }

  /** A 256-bucket histogram holding 100 samples in bucket 42, with the
      thresholds 1 and 99 that 1% and 99% of 100 give. */
  lemma SpikeAt42()
    ensures Statistics(seq(256, i => if i == 42 then 100 else 0), 1, 99)
         == Stats(100, 42.0, 42, 42, 42, 42, 42)
  {
    SpikeStatistics(seq(256, i => if i == 42 then 100 else 0), 42, 100, 1, 99);
  }

  /** A histogram with no counts at all yields the zero snapshot. */
  lemma AllZero(n: nat, t1: int, t2: int)
    ensures Statistics(seq(n, i => 0), t1, t2) == Empty
  {
    NonPositiveTotal(seq(n, i => 0));
  }
}

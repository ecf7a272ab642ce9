/** `Processors.Normalize` (SwiftPixel/Processors/Normalize.swift): samples
    mapped affinely into [0, 1], either between the minimum and maximum or
    between two interpolated percentiles. */
module NormalizeStage {
  import opened Buffers
  import opened Vectors
  import opened Percentiles

  datatype Mode = MinMax | Percentile(lower: real, upper: real)

  /** Percentile mode indexes the sorted samples at the two ranks, which the
      source does without a check: they must be in range. */
  predicate RanksValid(b: PixelBuffer, mode: Mode) {
    mode.Percentile? && |b.pixels| > 0 ==>
      RankInRange(|b.pixels|, mode.lower) && RankInRange(|b.pixels|, mode.upper)
  }

  /** The two values that are to become 0 and 1. */
  function Limits(b: PixelBuffer, mode: Mode): Bounds
    requires |b.pixels| > 0 && RanksValid(b, mode)
  {
    match mode
    case MinMax => Bounds(Min(b.pixels), Max(b.pixels))
    case Percentile(lower, upper) => PercentileBounds(b.pixels, lower, upper)
  }

  /** Equal limits leave no range to map onto [0, 1]. */
  predicate Degenerate(b: PixelBuffer, mode: Mode)
    requires |b.pixels| > 0 && RanksValid(b, mode)
  {
    Limits(b, mode).lower == Limits(b, mode).upper
  }

  /** vDSP_vsmsaD with scale 1/(hi - lo) and offset -lo/(hi - lo). */
  function Rescale(v: real, lo: real, hi: real): (r: real)
    requires lo != hi
    ensures r == (v - lo) / (hi - lo)
  {
    var range := hi - lo;
    v * (1.0 / range) + (-lo / range)
  }

  lemma RescaleWithin(v: real, lo: real, hi: real)
    requires lo < hi && lo <= v <= hi
    ensures 0.0 <= Rescale(v, lo, hi) <= 1.0
  {
    assert Rescale(v, lo, hi) == (v - lo) / (hi - lo);
    QuotientWithin(v - lo, hi - lo);
  }

  lemma QuotientWithin(a: real, d: real)
    requires 0.0 < d && 0.0 <= a <= d
    ensures 0.0 <= a / d <= 1.0
  {
  }

  lemma RescaleMonotone(a: real, b: real, lo: real, hi: real)
    requires lo < hi && a <= b
    ensures Rescale(a, lo, hi) <= Rescale(b, lo, hi)
  {
    var range := hi - lo;
    assert Rescale(b, lo, hi) - Rescale(a, lo, hi) == (b - a) / range;
  }

  /** The processed samples for distinct limits: percentile mode clips to the
      limits first; both modes clip the result to [0, 1]. */
  function Map(pixels: seq<real>, clipFirst: bool, lo: real, hi: real): (out: seq<real>)
    requires lo != hi
    ensures |out| == |pixels|
    ensures forall i :: 0 <= i < |out| ==> 0.0 <= out[i] <= 1.0
  {
    seq(|pixels|, i requires 0 <= i < |pixels| =>
      var v := if clipFirst then Clip(pixels[i], lo, hi) else pixels[i];
      Clip(Rescale(v, lo, hi), 0.0, 1.0))
  }

  /** An empty buffer is only marked normalized; a degenerate one is returned
      as it was, flag included; otherwise every sample lands in [0, 1] and the
      buffer is marked normalized. No other field changes. */
  function Process(b: PixelBuffer, mode: Mode): (r: PixelBuffer)
    requires RanksValid(b, mode)
    ensures r.width == b.width && r.height == b.height && r.channels == b.channels
    ensures |r.pixels| == |b.pixels|
    ensures |b.pixels| == 0 ==> r == b.(isNormalized := true)
    ensures |b.pixels| > 0 && Degenerate(b, mode) ==> r == b
    ensures |b.pixels| > 0 && !Degenerate(b, mode) ==>
              r.isNormalized && forall i :: 0 <= i < |r.pixels| ==> 0.0 <= r.pixels[i] <= 1.0
  {
    if |b.pixels| == 0 then b.(isNormalized := true)
    else if Degenerate(b, mode) then b
    else b.(pixels := Map(b.pixels, mode.Percentile?, Limits(b, mode).lower, Limits(b, mode).upper),
            isNormalized := true)
  }

  /** Min/max mode needs no clipping: sample v becomes exactly
      (v - min) / (max - min), so the minimum becomes 0 and the maximum 1. */
  lemma MinMaxExact(b: PixelBuffer, i: nat)
    requires |b.pixels| > 0 && !Degenerate(b, MinMax) && i < |b.pixels|
    ensures var lo, hi := Min(b.pixels), Max(b.pixels);
            Process(b, MinMax).pixels[i] == (b.pixels[i] - lo) / (hi - lo)
    ensures b.pixels[i] == Min(b.pixels) ==> Process(b, MinMax).pixels[i] == 0.0
    ensures b.pixels[i] == Max(b.pixels) ==> Process(b, MinMax).pixels[i] == 1.0
  {
    var lo, hi := Min(b.pixels), Max(b.pixels);
    var v := b.pixels[i];
    RescaleWithin(v, lo, hi);
    RescaleEnds(lo, hi);
    assert Process(b, MinMax).pixels[i] == Clip(Rescale(v, lo, hi), 0.0, 1.0);
  }

  lemma RescaleEnds(lo: real, hi: real)
    requires lo < hi
    ensures Rescale(lo, lo, hi) == 0.0 && Rescale(hi, lo, hi) == 1.0
  {
  }

  /** Min/max mode preserves the order of samples. */
  lemma MinMaxMonotone(b: PixelBuffer, i: nat, j: nat)
    requires |b.pixels| > 0 && !Degenerate(b, MinMax)
    requires i < |b.pixels| && j < |b.pixels| && b.pixels[i] <= b.pixels[j]
    ensures Process(b, MinMax).pixels[i] <= Process(b, MinMax).pixels[j]
  {
    var lo, hi := Min(b.pixels), Max(b.pixels);
    RescaleMonotone(b.pixels[i], b.pixels[j], lo, hi);
    ClipMonotone(Rescale(b.pixels[i], lo, hi), Rescale(b.pixels[j], lo, hi), 0.0, 1.0);
  }

  /** Samples already spanning exactly [0, 1] are left as they are by
      min/max mode. */
  lemma MinMaxOfUnitSpan(b: PixelBuffer)
    requires |b.pixels| > 0 && Min(b.pixels) == 0.0 && Max(b.pixels) == 1.0
    ensures !Degenerate(b, MinMax)
    ensures Map(b.pixels, false, 0.0, 1.0) == b.pixels
  {
    UnitMap(b.pixels);
  }

  /** Rescaling onto [0, 1] from [0, 1] is the identity on samples in range. */
  lemma UnitMap(pixels: seq<real>)
    requires forall i :: 0 <= i < |pixels| ==> 0.0 <= pixels[i] <= 1.0
    ensures Map(pixels, false, 0.0, 1.0) == pixels
  {
    var out := Map(pixels, false, 0.0, 1.0);
    forall i | 0 <= i < |pixels|
      ensures out[i] == pixels[i]
    {
      assert Rescale(pixels[i], 0.0, 1.0) == pixels[i];
    }
  }

  /** What percentile mode makes of one sample `v`: with lo < hi, samples at
      or below lo become 0, samples at or above hi become 1, and samples
      strictly between become (v - lo) / (hi - lo). With lo > hi (the lower
      percentile above the upper one) the low-then-high clip sends every
      sample to hi, which maps to 1. */
  lemma PercentileSample(v: real, lo: real, hi: real)
    requires lo != hi
    ensures lo < hi && v <= lo ==> Clip(Rescale(Clip(v, lo, hi), lo, hi), 0.0, 1.0) == 0.0
    ensures lo < hi && hi <= v ==> Clip(Rescale(Clip(v, lo, hi), lo, hi), 0.0, 1.0) == 1.0
    ensures lo < v < hi ==> Clip(Rescale(Clip(v, lo, hi), lo, hi), 0.0, 1.0) == (v - lo) / (hi - lo)
    ensures hi < lo ==> Clip(Rescale(Clip(v, lo, hi), lo, hi), 0.0, 1.0) == 1.0
  {
    if lo < hi {
      RescaleEnds(lo, hi);
      if lo < v < hi {
        RescaleWithin(v, lo, hi);
      }
    } else {
      assert Clip(v, lo, hi) == hi;
      assert Rescale(hi, lo, hi) == (hi - lo) / (hi - lo) == 1.0;
    }
  }

  /** Percentile mode, sample by sample: clipped to the two interpolated
      percentiles, mapped affinely onto [0, 1], and clipped again. */
  lemma PercentileExact(b: PixelBuffer, lower: real, upper: real, i: nat)
    requires |b.pixels| > 0 && RanksValid(b, Percentile(lower, upper)) && i < |b.pixels|
    ensures var lo, hi := PercentileBounds(b.pixels, lower, upper).lower, PercentileBounds(b.pixels, lower, upper).upper;
            lo < hi && b.pixels[i] <= lo ==> Process(b, Percentile(lower, upper)).pixels[i] == 0.0
    ensures var lo, hi := PercentileBounds(b.pixels, lower, upper).lower, PercentileBounds(b.pixels, lower, upper).upper;
            lo < hi && hi <= b.pixels[i] ==> Process(b, Percentile(lower, upper)).pixels[i] == 1.0
    ensures var lo, hi := PercentileBounds(b.pixels, lower, upper).lower, PercentileBounds(b.pixels, lower, upper).upper;
            lo < b.pixels[i] < hi ==>
              Process(b, Percentile(lower, upper)).pixels[i] == (b.pixels[i] - lo) / (hi - lo)
    ensures var lo, hi := PercentileBounds(b.pixels, lower, upper).lower, PercentileBounds(b.pixels, lower, upper).upper;
            hi < lo ==> Process(b, Percentile(lower, upper)).pixels[i] == 1.0
    ensures var lo, hi := PercentileBounds(b.pixels, lower, upper).lower, PercentileBounds(b.pixels, lower, upper).upper;
            lo != hi ==> Process(b, Percentile(lower, upper)).isNormalized
  {
    var mode := Percentile(lower, upper);
    var lo, hi := Limits(b, mode).lower, Limits(b, mode).upper;
    var v := b.pixels[i];
    if lo != hi {
      assert Process(b, mode).pixels[i] == Clip(Rescale(Clip(v, lo, hi), lo, hi), 0.0, 1.0);
      PercentileSample(v, lo, hi);
    }
  }

  /** Percentile mode preserves the order of samples. */
  lemma PercentileMonotone(b: PixelBuffer, lower: real, upper: real, i: nat, j: nat)
    requires |b.pixels| > 0 && RanksValid(b, Percentile(lower, upper))
    requires i < |b.pixels| && j < |b.pixels| && b.pixels[i] <= b.pixels[j]
    ensures Process(b, Percentile(lower, upper)).pixels[i] <= Process(b, Percentile(lower, upper)).pixels[j]
  {
    var mode := Percentile(lower, upper);
    var lo, hi := Limits(b, mode).lower, Limits(b, mode).upper;
    var u, v := b.pixels[i], b.pixels[j];
    if lo == hi {
      return;
    }
    assert Process(b, mode).pixels[i] == Clip(Rescale(Clip(u, lo, hi), lo, hi), 0.0, 1.0);
    assert Process(b, mode).pixels[j] == Clip(Rescale(Clip(v, lo, hi), lo, hi), 0.0, 1.0);
    if lo < hi {
      ClipMonotone(u, v, lo, hi);
      RescaleMonotone(Clip(u, lo, hi), Clip(v, lo, hi), lo, hi);
      ClipMonotone(Rescale(Clip(u, lo, hi), lo, hi), Rescale(Clip(v, lo, hi), lo, hi), 0.0, 1.0);
    } else {
      PercentileSample(u, lo, hi);
      PercentileSample(v, lo, hi);
    }
  }

  /** After a non-degenerate min/max run the smallest sample is 0 and the
      largest is 1. */
  lemma MinMaxSpansUnit(b: PixelBuffer)
    requires |b.pixels| > 0 && !Degenerate(b, MinMax)
    ensures var r := Process(b, MinMax);
            |r.pixels| > 0 && Min(r.pixels) == 0.0 && Max(r.pixels) == 1.0
  {
    var r := Process(b, MinMax);
    var lo, hi := Min(b.pixels), Max(b.pixels);
    var kl :| 0 <= kl < |b.pixels| && b.pixels[kl] == lo;
    var kh :| 0 <= kh < |b.pixels| && b.pixels[kh] == hi;
    MinMaxExact(b, kl);
    MinMaxExact(b, kh);
    MinUnique(r.pixels, 0.0);
    MaxUnique(r.pixels, 1.0);
  }

  /** Normalizing twice in min/max mode is the same as normalizing once. */
  lemma MinMaxIdempotent(b: PixelBuffer)
    ensures Process(Process(b, MinMax), MinMax) == Process(b, MinMax)
  {
    if |b.pixels| > 0 && !Degenerate(b, MinMax) {
      var r := Process(b, MinMax);
      MinMaxSpansUnit(b);
      MinMaxOfUnitSpan(r);
    }
  }

  /** Percentiles 0 and 100 are the minimum and maximum, and clipping to them
      changes nothing, so percentile(0, 100) is min/max mode. */
  lemma FullRangePercentileIsMinMax(b: PixelBuffer)
    requires RanksValid(b, Percentile(0.0, 100.0))
    ensures Process(b, Percentile(0.0, 100.0)) == Process(b, MinMax)
  {
    if |b.pixels| > 0 {
      ExtremePercentiles(b.pixels);
      var lo, hi := Min(b.pixels), Max(b.pixels);
      assert Limits(b, Percentile(0.0, 100.0)) == Limits(b, MinMax);
      if !Degenerate(b, MinMax) {
        forall i | 0 <= i < |b.pixels|
          ensures Map(b.pixels, true, lo, hi)[i] == Map(b.pixels, false, lo, hi)[i]
        {
          assert Clip(b.pixels[i], lo, hi) == b.pixels[i];
        }
        assert Map(b.pixels, true, lo, hi) == Map(b.pixels, false, lo, hi);
      }
    }
  }

  /** The full percentile range is always in range for a non-empty buffer. */
  lemma FullRangeRanksValid(b: PixelBuffer)
    ensures RanksValid(b, Percentile(0.0, 100.0))
  {
    if |b.pixels| > 0 {
      PercentInRange(|b.pixels|, 0.0);
      PercentInRange(|b.pixels|, 100.0);
    }
  }
}

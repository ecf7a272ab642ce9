/** `Processors.WhiteBalance` (SwiftPixel/Processors/WhiteBalance.swift):
    per-channel gains on an interleaved RGB buffer, given by hand or derived
    from the channel averages (gray world). */
module WhiteBalanceStage {
  import opened Outcomes
  import opened Buffers
  import opened Vectors

  datatype Mode = Auto | Manual(red: real, green: real, blue: real)

  datatype Gains = Gains(r: real, g: real, b: real)

  const Unit := Gains(1.0, 1.0, 1.0)

  /** The gain for channel `k` (0 red, 1 green, 2 blue). */
  function Gain(gains: Gains, k: nat): real
    requires k < 3
  {
    if k == 0 then gains.r else if k == 1 then gains.g else gains.b
  }

  /** The three strided multiplications (stride 3, `count` elements each):
      slot 3p + k of the first `count` pixels scaled by gain k. The source
      writes past the end of the samples when there are fewer than
      3 * count; the model confines the effect to the samples that exist. */
  function ApplyGains(pixels: seq<real>, count: nat, gains: Gains): (out: seq<real>)
    ensures |out| == |pixels|
  {
    seq(|pixels|, j requires 0 <= j < |pixels| =>
      if j < 3 * count then pixels[j] * Gain(gains, j % 3) else pixels[j])
  }

  /** Channel `k` of the first `count` pixels. */
  function Channel(pixels: seq<real>, count: nat, k: nat): (c: seq<real>)
    requires 3 * count <= |pixels| && k < 3
    ensures |c| == count
  {
    seq(count, p requires 0 <= p < count => pixels[3 * p + k])
  }

  function Average(pixels: seq<real>, count: nat, k: nat): real
    requires 0 < count && 3 * count <= |pixels| && k < 3
  {
    Mean(Channel(pixels, count, k))
  }

  /** The gray level: the mean of the three channel averages. */
  function Gray(pixels: seq<real>, count: nat): real
    requires 0 < count && 3 * count <= |pixels|
  {
    (Average(pixels, count, 0) + Average(pixels, count, 1) + Average(pixels, count, 2)) / 3.0
  }

  /** Gray-world gains: each brings its channel's average to the gray level.
      With no pixels the averages are 0/0, the comparison `gray > 0` fails
      and every gain is 1; the same holds when gray <= 0. A zero average with
      a positive gray level would give an infinite gain, which the model
      reports as an error. */
  function ComputeGains(pixels: seq<real>, count: nat): (r: Result<Gains>)
    requires 3 * count <= |pixels|
    ensures count == 0 ==> r == Ok(Unit)
    ensures count > 0 && Gray(pixels, count) <= 0.0 ==> r == Ok(Unit)
    ensures count > 0 && Gray(pixels, count) > 0.0 ==>
              (r.Err? <==> Average(pixels, count, 0) == 0.0 || Average(pixels, count, 1) == 0.0
                           || Average(pixels, count, 2) == 0.0)
    ensures r.Err? ==> r.error == NonFiniteGain
    ensures r.Ok? && count > 0 && Gray(pixels, count) > 0.0 ==>
              r.value.r * Average(pixels, count, 0) == Gray(pixels, count)
    ensures r.Ok? && count > 0 && Gray(pixels, count) > 0.0 ==>
              r.value.g * Average(pixels, count, 1) == Gray(pixels, count)
    ensures r.Ok? && count > 0 && Gray(pixels, count) > 0.0 ==>
              r.value.b * Average(pixels, count, 2) == Gray(pixels, count)
  {
    if count == 0 then Ok(Unit)
    else
      var avgR, avgG, avgB := Average(pixels, count, 0), Average(pixels, count, 1), Average(pixels, count, 2);
      var gray := Gray(pixels, count);
      if gray > 0.0 then
        if avgR == 0.0 || avgG == 0.0 || avgB == 0.0 then Err(NonFiniteGain)
        else Ok(Gains(gray / avgR, gray / avgG, gray / avgB))
      else Ok(Unit)
  }

  /** Automatic mode reads 3 * width * height samples, which the source does
      not check: the buffer must hold them. */
  predicate ReadsInBounds(b: PixelBuffer, mode: Mode) {
    mode.Auto? && b.isNormalized && b.channels == 3 ==> 3 * PixelCount(b) <= |b.pixels|
  }

  /** The buffer must be normalized, then hold three channels; the gains
      then scale the first width*height pixels and nothing else changes. */
  function Process(b: PixelBuffer, mode: Mode): (r: Result<PixelBuffer>)
    requires ReadsInBounds(b, mode)
    ensures !b.isNormalized ==> r == Err(MustBeNormalized)
    ensures b.isNormalized && b.channels != 3 ==> r == Err(UnsupportedChannelCount(b.channels))
    ensures mode.Manual? ==> (r.Ok? <==> b.isNormalized && b.channels == 3)
    ensures r.Ok? ==> r.value.width == b.width && r.value.height == b.height
    ensures r.Ok? ==> r.value.channels == 3 && r.value.isNormalized
    ensures r.Ok? ==> |r.value.pixels| == |b.pixels|
    ensures r.Ok? ==> forall j :: 3 * PixelCount(b) <= j < |b.pixels| ==> r.value.pixels[j] == b.pixels[j]
  {
    if !b.isNormalized then Err(MustBeNormalized)
    else if b.channels != 3 then Err(UnsupportedChannelCount(b.channels))
    else
      var gains :- match mode
        case Auto => ComputeGains(b.pixels, PixelCount(b))
        case Manual(red, green, blue) => Ok(Gains(red, green, blue));
      Ok(b.(pixels := ApplyGains(b.pixels, PixelCount(b), gains)))
  }

  /** Manual gains multiply channel 0, 1 and 2 of every pixel p below
      width*height by red, green and blue respectively. */
  lemma ManualGains(b: PixelBuffer, red: real, green: real, blue: real, p: nat)
    requires b.isNormalized && b.channels == 3
    requires p < PixelCount(b) && 3 * p + 2 < |b.pixels|
    ensures var out := Process(b, Manual(red, green, blue)).value.pixels;
            out[3 * p] == b.pixels[3 * p] * red
            && out[3 * p + 1] == b.pixels[3 * p + 1] * green
            && out[3 * p + 2] == b.pixels[3 * p + 2] * blue
  {
    assert (3 * p) % 3 == 0 && (3 * p + 1) % 3 == 1 && (3 * p + 2) % 3 == 2;
  }

  /** Gains of 1 change nothing. */
  lemma UnitGainsIdentity(pixels: seq<real>, count: nat)
    ensures ApplyGains(pixels, count, Unit) == pixels
  {
  }

  /** Channel k of the balanced samples is channel k of the input scaled by
      gain k. */
  lemma ChannelOfBalanced(pixels: seq<real>, count: nat, gains: Gains, k: nat)
    requires 3 * count <= |pixels| && k < 3
    ensures forall p :: 0 <= p < count ==>
              Channel(ApplyGains(pixels, count, gains), count, k)[p] == Gain(gains, k) * Channel(pixels, count, k)[p]
  {
    forall p | 0 <= p < count
      ensures Channel(ApplyGains(pixels, count, gains), count, k)[p] == Gain(gains, k) * Channel(pixels, count, k)[p]
    {
      assert (3 * p + k) % 3 == k;
    }
  }

  /** Balancing scales each channel's average by that channel's gain. */
  lemma AverageOfBalanced(pixels: seq<real>, count: nat, gains: Gains, k: nat)
    requires 0 < count && 3 * count <= |pixels| && k < 3
    ensures Average(ApplyGains(pixels, count, gains), count, k) == Gain(gains, k) * Average(pixels, count, k)
  {
    ChannelOfBalanced(pixels, count, gains, k);
    MeanScale(Channel(pixels, count, k), Channel(ApplyGains(pixels, count, gains), count, k), Gain(gains, k));
  }

  /** Gray world: with a positive gray level, the automatic gains bring
      every channel's average to the gray level of the input. */
  lemma GrayWorld(pixels: seq<real>, count: nat, k: nat)
    requires 0 < count && 3 * count <= |pixels| && k < 3
    requires Gray(pixels, count) > 0.0
    requires ComputeGains(pixels, count).Ok?
    ensures Average(ApplyGains(pixels, count, ComputeGains(pixels, count).value), count, k) == Gray(pixels, count)
  {
    var gains := ComputeGains(pixels, count).value;
    AverageOfBalanced(pixels, count, gains, k);
  }

  /** Automatic mode applies exactly the computed gains. */
  lemma AutoAppliesComputedGains(b: PixelBuffer)
    requires b.isNormalized && b.channels == 3 && 3 * PixelCount(b) <= |b.pixels|
    ensures Process(b, Auto).Ok? <==> ComputeGains(b.pixels, PixelCount(b)).Ok?
    ensures Process(b, Auto).Ok? ==>
              Process(b, Auto).value.pixels == ApplyGains(b.pixels, PixelCount(b), ComputeGains(b.pixels, PixelCount(b)).value)
  {
  }

  /** Three equal positive channel averages give unit gains: automatic
      balancing leaves such a buffer unchanged. */
  lemma BalancedInputUnchanged(b: PixelBuffer)
    requires b.isNormalized && b.channels == 3
    requires 0 < PixelCount(b) && 3 * PixelCount(b) <= |b.pixels|
    requires Average(b.pixels, PixelCount(b), 0) == Average(b.pixels, PixelCount(b), 1)
             == Average(b.pixels, PixelCount(b), 2) > 0.0
    ensures Process(b, Auto) == Ok(b)
  {
    var count := PixelCount(b);
    var a := Average(b.pixels, count, 0);
    assert Gray(b.pixels, count) == a;
    assert a / a == 1.0;
    assert ComputeGains(b.pixels, count) == Ok(Unit);
    UnitGainsIdentity(b.pixels, count);
  }
}

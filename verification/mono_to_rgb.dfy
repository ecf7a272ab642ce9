/** `Processors.MonoToRGB` (SwiftPixel/Processors/MonoToRGB.swift): a
    single-channel buffer promoted to three interleaved channels by repeating
    every sample. */
module MonoToRgbStage {
  import opened Outcomes
  import opened Buffers

  /** The guards shared by the stages that consume a raw single-channel
      buffer: the sample count must match the dimensions, there must be one
      channel, and the buffer must not be normalized, checked in that order. */
  function CheckRawMono(b: PixelBuffer): (r: Option<Error>)
    ensures r.None? <==> |b.pixels| == b.width * b.height && b.channels == 1 && !b.isNormalized
    ensures |b.pixels| != b.width * b.height ==> r == Some(SizeMismatch(|b.pixels|, b.width * b.height))
    ensures |b.pixels| == b.width * b.height && b.channels != 1 ==> r == Some(UnsupportedChannelCount(b.channels))
    ensures |b.pixels| == b.width * b.height && b.channels == 1 && b.isNormalized ==> r == Some(MustNotBeNormalized)
  {
    if |b.pixels| != b.width * b.height then Some(SizeMismatch(|b.pixels|, b.width * b.height))
    else if b.channels != 1 then Some(UnsupportedChannelCount(b.channels))
    else if b.isNormalized then Some(MustNotBeNormalized)
    else None
  }

  /** Each sample written to three consecutive slots. */
  function Replicate(pixels: seq<real>): (rgb: seq<real>)
    ensures |rgb| == 3 * |pixels|
  {
    seq(3 * |pixels|, j requires 0 <= j < 3 * |pixels| => pixels[j / 3])
  }

  /** Channel `k` of an interleaved three-channel sequence. */
  function Plane(rgb: seq<real>, k: nat): (p: seq<real>)
    requires |rgb| % 3 == 0 && k < 3
    ensures |p| == |rgb| / 3
  {
    seq(|rgb| / 3, i requires 0 <= i < |rgb| / 3 => rgb[3 * i + k])
  }

  function Process(b: PixelBuffer): (r: Result<PixelBuffer>)
    ensures r.Err? <==> CheckRawMono(b).Some?
    ensures r.Err? ==> r.error == CheckRawMono(b).value
    ensures r.Ok? ==> r.value.width == b.width && r.value.height == b.height
    ensures r.Ok? ==> r.value.channels == 3 && !r.value.isNormalized
    ensures r.Ok? ==> |r.value.pixels| == 3 * |b.pixels|
  {
    var failure := CheckRawMono(b);
    if failure.Some? then Err(failure.value)
    else Ok(b.(pixels := Replicate(b.pixels), channels := 3))
  }

  /** Every channel of the output holds the input: slots 3i, 3i+1 and 3i+2
      all equal sample i, so taking any one plane gives back the input. */
  lemma PlanesAreInput(b: PixelBuffer, k: nat)
    requires CheckRawMono(b).None? && k < 3
    ensures Plane(Process(b).value.pixels, k) == b.pixels
  {
    var rgb := Process(b).value.pixels;
    assert |rgb| % 3 == 0 && |rgb| / 3 == |b.pixels|;
    forall i | 0 <= i < |b.pixels|
      ensures Plane(rgb, k)[i] == b.pixels[i]
    {
      assert (3 * i + k) / 3 == i;
    }
  }

  /** [10, 20, 30, 40] becomes [10, 10, 10, 20, 20, 20, 30, 30, 30, 40, 40, 40]. */
  lemma Example()
    ensures Process(PixelBuffer(2, 2, 1, [10.0, 20.0, 30.0, 40.0], false))
         == Ok(PixelBuffer(2, 2, 3, [10.0, 10.0, 10.0, 20.0, 20.0, 20.0,
                                     30.0, 30.0, 30.0, 40.0, 40.0, 40.0], false))
  {
    var out := Replicate([10.0, 20.0, 30.0, 40.0]);
    assert out == [10.0, 10.0, 10.0, 20.0, 20.0, 20.0, 30.0, 30.0, 30.0, 40.0, 40.0, 40.0];
  }
}

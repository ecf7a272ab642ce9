/** The in-flight image (`PixelBuffer` in SwiftPixel/PixelBuffer.swift): its
    record, the lossy conversion of normalized samples to 8-bit values, and the
    validation and geometry that precede building a displayable image. */
module Buffers {
  import opened Outcomes
  import opened Formats
  import opened Vectors

  /** Dimensions, channel count, interleaved samples and the normalization
      flag. The channel count is an unconstrained integer, as in the source:
      the stages validate it. */
  datatype PixelBuffer = PixelBuffer(
    width: nat,
    height: nat,
    channels: int,
    pixels: seq<real>,
    isNormalized: bool)

  /** The number of pixels the dimensions describe. */
  function PixelCount(b: PixelBuffer): nat {
    b.width * b.height
  }

  /** Round to the nearest integer, halves rounding up (vDSP_vfixru8D). */
  function RoundToNearest(x: real): (r: int)
    ensures r as real - 0.5 <= x < r as real + 0.5
  {
    (x + 0.5).Floor
  }

  /** One sample's 8-bit value: scaled by 255, clipped to [0, 255], rounded. */
  function Quantise(v: real): (b: Byte)
    ensures v <= 0.0 ==> b == 0
    ensures v >= 1.0 ==> b == 255
    ensures 0.0 <= v <= 1.0 ==> b as real - 0.5 <= v * 255.0 < b as real + 0.5
  {
    var clipped := Clip(v * 255.0, 0.0, 255.0);
    RoundToNearest(clipped)
  }

  /** Quantisation never reverses the order of two samples. */
  lemma QuantiseMonotone(a: real, b: real)
    requires a <= b
    ensures Quantise(a) <= Quantise(b)
  {
    ClipMonotone(a * 255.0, b * 255.0, 0.0, 255.0);
  }

  /** Half-way values round up: 0.5 becomes 128 and 0.25 becomes 64. */
  lemma QuantiseExamples()
    ensures Quantise(0.5) == 128 && Quantise(0.25) == 64
  {
    assert Clip(0.5 * 255.0, 0.0, 255.0) == 127.5;
    assert (127.5 + 0.5).Floor == 128;
    assert Clip(0.25 * 255.0, 0.0, 255.0) == 63.75;
    assert (63.75 + 0.5).Floor == 64;
  }

  /** `convertTo8Bits`: every sample quantised, one byte per sample; refused
      unless the buffer is normalized. */
  function ConvertTo8Bits(b: PixelBuffer): (r: Result<seq<Byte>>)
    ensures r.Err? <==> !b.isNormalized
    ensures r.Err? ==> r.error == MustBeNormalized
    ensures r.Ok? ==> |r.value| == |b.pixels|
    ensures r.Ok? ==> forall i :: 0 <= i < |r.value| ==> r.value[i] == Quantise(b.pixels[i])
  {
    if !b.isNormalized then Err(MustBeNormalized)
    else Ok(seq(|b.pixels|, i requires 0 <= i < |b.pixels| => Quantise(b.pixels[i])))
  }

  /** A normalized buffer whose samples already lie in [0, 1] comes back within
      half a step of 255 times each sample. */
  lemma ConvertTo8BitsError(b: PixelBuffer, i: nat)
    requires b.isNormalized && i < |b.pixels| && 0.0 <= b.pixels[i] <= 1.0
    ensures var bytes := ConvertTo8Bits(b).value;
            bytes[i] as real - 0.5 <= b.pixels[i] * 255.0 < bytes[i] as real + 0.5
  {
  }

  datatype ColorSpace = DeviceGray | DeviceRGB

  datatype AlphaInfo = NoAlpha | PremultipliedLast

  /** Everything the source hands to the image constructor. */
  datatype ImageLayout = ImageLayout(
    width: nat,
    height: nat,
    bitsPerComponent: nat,
    bitsPerPixel: int,
    bytesPerRow: int,
    space: ColorSpace,
    alpha: AlphaInfo,
    bytes: seq<Byte>)

  predicate SupportedChannels(c: int) {
    c == 1 || c == 3 || c == 4
  }

  /** The validation and layout of `createCGImage`: the channel count must be
      1, 3 or 4, the buffer must hold at least width*height*channels samples,
      and it must be normalized, checked in that order. */
  function CreateImage(b: PixelBuffer): (r: Result<ImageLayout>)
    ensures r.Err? <==> !SupportedChannels(b.channels)
                        || |b.pixels| < b.width * b.height * b.channels
                        || !b.isNormalized
    ensures !SupportedChannels(b.channels) ==> r == Err(UnsupportedChannelCount(b.channels))
    ensures SupportedChannels(b.channels) && |b.pixels| < b.width * b.height * b.channels
            ==> r == Err(SizeMismatch(|b.pixels|, b.width * b.height * b.channels))
    ensures r.Ok? ==> r.value.width == b.width && r.value.height == b.height
    ensures r.Ok? ==> r.value.bitsPerComponent == 8 && r.value.bitsPerPixel == 8 * b.channels
    ensures r.Ok? ==> r.value.bytesPerRow == b.width * b.channels
    ensures r.Ok? ==> (r.value.space == DeviceGray <==> b.channels == 1)
    ensures r.Ok? ==> (r.value.alpha == PremultipliedLast <==> b.channels == 4)
    ensures r.Ok? ==> Ok(r.value.bytes) == ConvertTo8Bits(b)
  {
    if !SupportedChannels(b.channels) then Err(UnsupportedChannelCount(b.channels))
    else
      var count := b.width * b.height * b.channels;
      if |b.pixels| < count then Err(SizeMismatch(|b.pixels|, count))
      else
        var bytes :- ConvertTo8Bits(b);
        var bitsPerComponent := 8;
        var space := if b.channels == 1 then DeviceGray else DeviceRGB;
        var alpha := if b.channels == 4 then PremultipliedLast else NoAlpha;
        Ok(ImageLayout(b.width, b.height, bitsPerComponent, b.channels * bitsPerComponent,
                       b.width * b.channels, space, alpha, bytes))
  }

  /** The size guard is a lower bound, not an equality: extra samples are
      accepted and converted along with the rest. */
  lemma CreateImageAcceptsSurplus(b: PixelBuffer)
    requires SupportedChannels(b.channels) && b.isNormalized
    requires |b.pixels| > b.width * b.height * b.channels
    ensures CreateImage(b).Ok?
    ensures |CreateImage(b).value.bytes| == |b.pixels|
  {
  }
}

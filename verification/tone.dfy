/** `Processors.Stretch` and `Processors.CorrectGamma`
    (SwiftPixel/Processors/Stretch.swift, SwiftPixel/Processors/CorrectGamma.swift):
    transcendental curves applied sample by sample to a normalized buffer.
    The curves themselves (log, asinh, exp, pow) are parameters of the model;
    only the guard and the elementwise shape are stated. */
module ToneStages {
  import opened Outcomes
  import opened Buffers

  datatype Algorithm = Log(n: real) | Arcsinh(n: real) | Sigmoid(n1: real, n2: real)

  /** The effect of a stretch algorithm on one sample. */
  type StretchCurve = (Algorithm, real) -> real

  /** The effect of vvpow with exponent 1 / gamma on one sample, as a function
      of gamma and the sample; the division, which the source performs in
      IEEE arithmetic even for gamma = 0, belongs to this curve. */
  type GammaCurve = (real, real) -> real

  /** A curve applied to every sample of a normalized buffer; any other
      buffer is refused before anything changes. */
  function ApplyCurve(b: PixelBuffer, curve: real -> real): (r: Result<PixelBuffer>)
    ensures r.Err? <==> !b.isNormalized
    ensures r.Err? ==> r.error == MustBeNormalized
    ensures r.Ok? ==> r.value.width == b.width && r.value.height == b.height
    ensures r.Ok? ==> r.value.channels == b.channels && r.value.isNormalized
    ensures r.Ok? ==> |r.value.pixels| == |b.pixels|
    ensures r.Ok? ==> forall i :: 0 <= i < |b.pixels| ==> r.value.pixels[i] == curve(b.pixels[i])
  {
    if !b.isNormalized then Err(MustBeNormalized)
    else Ok(b.(pixels := seq(|b.pixels|, i requires 0 <= i < |b.pixels| => curve(b.pixels[i]))))
  }

  function Stretch(b: PixelBuffer, algorithm: Algorithm, stretch: StretchCurve): (r: Result<PixelBuffer>)
    ensures r.Err? <==> !b.isNormalized
    ensures r.Ok? ==> |r.value.pixels| == |b.pixels|
    ensures r.Ok? ==> forall i :: 0 <= i < |b.pixels| ==> r.value.pixels[i] == stretch(algorithm, b.pixels[i])
  {
    ApplyCurve(b, v => stretch(algorithm, v))
  }

  /** Each sample raised to 1 / gamma. */
  function CorrectGamma(b: PixelBuffer, gamma: real, power: GammaCurve): (r: Result<PixelBuffer>)
    ensures r.Err? <==> !b.isNormalized
    ensures r.Ok? ==> |r.value.pixels| == |b.pixels|
    ensures r.Ok? ==> forall i :: 0 <= i < |b.pixels| ==> r.value.pixels[i] == power(gamma, b.pixels[i])
  {
    ApplyCurve(b, v => power(gamma, v))
  }

  /** The identity curve leaves a normalized buffer unchanged. */
  lemma IdentityCurve(b: PixelBuffer)
    requires b.isNormalized
    ensures ApplyCurve(b, v => v) == Ok(b)
  {
    assert ApplyCurve(b, v => v).value.pixels == b.pixels;
  }

  /** Two curves in a row are one curve: their composition. */
  lemma CurvesCompose(b: PixelBuffer, f: real -> real, g: real -> real)
    requires b.isNormalized
    ensures ApplyCurve(ApplyCurve(b, f).value, g) == ApplyCurve(b, v => g(f(v)))
  {
    var lhs := ApplyCurve(ApplyCurve(b, f).value, g).value;
    var rhs := ApplyCurve(b, v => g(f(v))).value;
    assert lhs.pixels == rhs.pixels;
  }
}

/** `Processors.Scale` (SwiftPixel/Processors/Scale.swift): every sample
    multiplied by `scale` and then shifted by `offset`. */
module ScaleStage {
  import opened Buffers

  /** The affine map applied to each sample (vDSP_vsmulD, then vDSP_vsaddD). */
  function Affine(v: real, scale: real, offset: real): real {
    v * scale + offset
  }

  /** The stage has no precondition: any channel count, flag or length is
      accepted, and only the samples change. */
  function Process(b: PixelBuffer, scale: real, offset: real): (r: PixelBuffer)
    ensures r.width == b.width && r.height == b.height
    ensures r.channels == b.channels && r.isNormalized == b.isNormalized
    ensures |r.pixels| == |b.pixels|
    ensures forall i :: 0 <= i < |r.pixels| ==> r.pixels[i] == Affine(b.pixels[i], scale, offset)
  {
    b.(pixels := seq(|b.pixels|, i requires 0 <= i < |b.pixels| => Affine(b.pixels[i], scale, offset)))
  }

  /** Scale 1 and offset 0 leave the buffer as it was. */
  lemma Identity(b: PixelBuffer)
    ensures Process(b, 1.0, 0.0) == b
  {
    assert Process(b, 1.0, 0.0).pixels == b.pixels;
  }

  /** Scale 0 makes every sample equal to the offset. */
  lemma ZeroScale(b: PixelBuffer, offset: real)
    ensures forall i :: 0 <= i < |b.pixels| ==> Process(b, 0.0, offset).pixels[i] == offset
  {
  }

  /** Two scalings compose into one: first (s1, o1), then (s2, o2) is the
      single scaling (s1 * s2, o1 * s2 + o2). */
  lemma Compose(b: PixelBuffer, s1: real, o1: real, s2: real, o2: real)
    ensures Process(Process(b, s1, o1), s2, o2) == Process(b, s1 * s2, o1 * s2 + o2)
  {
    var lhs := Process(Process(b, s1, o1), s2, o2);
    var rhs := Process(b, s1 * s2, o1 * s2 + o2);
    forall i | 0 <= i < |b.pixels|
      ensures lhs.pixels[i] == rhs.pixels[i]
    {
      var v := b.pixels[i];
      assert (v * s1 + o1) * s2 + o2 == v * (s1 * s2) + (o1 * s2 + o2);
    }
    assert lhs.pixels == rhs.pixels;
  }

  /** A non-zero scaling is undone by scaling with (1/s, -o/s). */
  lemma Inverse(b: PixelBuffer, s: real, o: real)
    requires s != 0.0
    ensures Process(Process(b, s, o), 1.0 / s, -o / s) == b
  {
    var s2, o2 := 1.0 / s, -o / s;
    Compose(b, s, o, s2, o2);
    var s3, o3 := s * s2, o * s2 + o2;
    assert s3 == 1.0 && o3 == 0.0;
    Identity(b);
  }
}

/** Decoding of raw big-endian sample data into one real per pixel
    (`PixelUtilities.readRawPixels`), with the matching encoder for the
    integer formats so that decoding can be stated as an inverse. */
module RawPixels {
  import opened Outcomes
  import opened Formats
  import opened Sequences

  /** A reinterpretation of an IEEE-754 big-endian bit pattern (4 or 8 bytes)
      as a real. Floating-point decoding is supplied by the caller. */
  type FloatDecoder = seq<Byte> -> real

  function Pow256(k: nat): (r: nat)
    ensures r >= 1
  {
    if k == 0 then 1 else 256 * Pow256(k - 1)
  }

  lemma Pow256Even(k: nat)
    requires k >= 1
    ensures Pow256(k) == 2 * (Pow256(k) / 2)
  {
  }

  /** The unsigned value of a big-endian byte string. */
  function BigEndian(bs: seq<Byte>): (r: nat)
    ensures r < Pow256(|bs|)
  {
    if bs == [] then 0 else BigEndian(bs[..|bs| - 1]) * 256 + bs[|bs| - 1]
  }

  /** The sign-extended (two's-complement) value of a big-endian word: the
      value in the signed range that differs from the unsigned reading by a
      multiple of 256^|bs|. */
  function SignedBigEndian(bs: seq<Byte>): (v: int)
    requires |bs| > 0
    ensures -(Pow256(|bs|) / 2) <= v < Pow256(|bs|) / 2
    ensures v == BigEndian(bs) || v == BigEndian(bs) - Pow256(|bs|)
  {
    Pow256Even(|bs|);
    var u := BigEndian(bs);
    if u < Pow256(|bs|) / 2 then u else u - Pow256(|bs|)
  }

  lemma Pow256Values()
    ensures Pow256(1) == 256 && Pow256(2) == 65536 && Pow256(4) == 4294967296
  {
  }

  /** One sample of format `f` read from its bytes. */
  function DecodeSample(f: BitsPerPixel, word: seq<Byte>, ieee: FloatDecoder): real
    requires |word| == ByteWidth(f)
  {
    match f
    case UInt8 => word[0] as real
    case Int16 => SignedBigEndian(word) as real
    case Int32 => SignedBigEndian(word) as real
    case Float32 => ieee(word)
    case Float64 => ieee(word)
  }

  lemma BigEndian2(bs: seq<Byte>)
    requires |bs| == 2
    ensures BigEndian(bs) == (bs[0] as int) * 256 + bs[1] as int
  {
    assert bs[..1][..0] == [];
  }

  lemma BigEndian4(bs: seq<Byte>)
    requires |bs| == 4
    ensures BigEndian(bs)
            == (((bs[0] as int) * 256 + bs[1] as int) * 256 + bs[2] as int) * 256 + bs[3] as int
  {
    assert bs[..3][..2] == bs[..2];
    assert bs[..2][..1] == bs[..1];
    assert bs[..1][..0] == [];
    assert BigEndian(bs[..1]) == bs[0] as int;
    assert BigEndian(bs[..2]) == BigEndian(bs[..1]) * 256 + bs[1] as int;
    assert BigEndian(bs[..3]) == BigEndian(bs[..2]) * 256 + bs[2] as int;
  }

  /** `v` is the integer in [-half, half) that equals `u` or `u - 2 * half`,
      i.e. the two's-complement reading of an unsigned word `u`. */
  predicate IsTwosComplement(v: real, u: int, half: int) {
    && v == v.Floor as real
    && -half <= v.Floor < half
    && (v.Floor == u || v.Floor == u - 2 * half)
  }

  /** One sample per pixel, each read from its own `ByteWidth(f)` bytes. */
  function DecodeAll(data: seq<Byte>, count: nat, f: BitsPerPixel, ieee: FloatDecoder): (pixels: seq<real>)
    requires |data| == Size(f, count)
    ensures |pixels| == count
  {
    var k := ByteWidth(f);
    seq(count, i requires 0 <= i < count =>
          BlockInBounds(k, i, count);
          DecodeSample(f, Block(data, k, i), ieee))
  }

  lemma DecodeAllInt16(data: seq<Byte>, count: nat, ieee: FloatDecoder, i: nat)
    requires |data| == Size(Int16, count) && i < count
    ensures IsTwosComplement(DecodeAll(data, count, Int16, ieee)[i],
                             (data[2 * i] as int) * 256 + data[2 * i + 1] as int, 32768)
  {
    BlockInBounds(2, i, count);
    BigEndian2(Block(data, 2, i));
    Pow256Values();
  }

  lemma DecodeAllInt32(data: seq<Byte>, count: nat, ieee: FloatDecoder, i: nat)
    requires |data| == Size(Int32, count) && i < count
    ensures IsTwosComplement(DecodeAll(data, count, Int32, ieee)[i],
              (((data[4 * i] as int) * 256 + data[4 * i + 1] as int) * 256
                + data[4 * i + 2] as int) * 256 + data[4 * i + 3] as int,
              2147483648)
  {
    BlockInBounds(4, i, count);
    BigEndian4(Block(data, 4, i));
    Pow256Values();
  }

  /** Decoding a raw buffer: it fails exactly when the byte count differs from
      the footprint of width * height samples, and otherwise yields one sample
      per pixel, read big-endian from that pixel's own bytes. */
  function ReadRawPixels(data: seq<Byte>, width: nat, height: nat, f: BitsPerPixel, ieee: FloatDecoder)
    : (r: Result<seq<real>>)
    ensures r.Err? <==> |data| != Size(f, width * height)
    ensures r.Err? ==> r.error == SizeMismatch(|data|, Size(f, width * height))
    ensures r.Ok? ==> |r.value| == width * height
    ensures r.Ok? && f.UInt8? ==> |data| == |r.value|
    ensures r.Ok? && f.UInt8? ==>
      forall i :: 0 <= i < |r.value| ==> r.value[i] == data[i] as real
    ensures r.Ok? && f.Int16? ==> |data| == 2 * |r.value|
    ensures r.Ok? && f.Int16? ==>
      forall i :: 0 <= i < |r.value| ==>
        IsTwosComplement(r.value[i], (data[2 * i] as int) * 256 + data[2 * i + 1] as int, 32768)
    ensures r.Ok? && f.Int32? ==> |data| == 4 * |r.value|
    ensures r.Ok? && f.Int32? ==>
      forall i :: 0 <= i < |r.value| ==>
        IsTwosComplement(r.value[i],
          (((data[4 * i] as int) * 256 + data[4 * i + 1] as int) * 256
            + data[4 * i + 2] as int) * 256 + data[4 * i + 3] as int,
          2147483648)
    ensures r.Ok? && f.Float32? ==> |data| == 4 * |r.value|
    ensures r.Ok? && f.Float32? ==>
      forall i :: 0 <= i < |r.value| ==> r.value[i] == ieee(data[4 * i .. 4 * i + 4])
    ensures r.Ok? && f.Float64? ==> |data| == 8 * |r.value|
    ensures r.Ok? && f.Float64? ==>
      forall i :: 0 <= i < |r.value| ==> r.value[i] == ieee(data[8 * i .. 8 * i + 8])
  {
    var count := width * height;
    var size := Size(f, count);
    if |data| != size then
      Err(SizeMismatch(|data|, size))
    else
      var pixels := DecodeAll(data, count, f, ieee);
      assert f.Int16? ==> forall i :: 0 <= i < count ==>
        IsTwosComplement(pixels[i], (data[2 * i] as int) * 256 + data[2 * i + 1] as int, 32768) by {
        if f.Int16? {
          forall i | 0 <= i < count
            ensures IsTwosComplement(pixels[i], (data[2 * i] as int) * 256 + data[2 * i + 1] as int, 32768)
          {
            DecodeAllInt16(data, count, ieee, i);
          }
        }
      }
      assert f.Int32? ==> forall i :: 0 <= i < count ==>
        IsTwosComplement(pixels[i],
          (((data[4 * i] as int) * 256 + data[4 * i + 1] as int) * 256
            + data[4 * i + 2] as int) * 256 + data[4 * i + 3] as int,
          2147483648) by {
        if f.Int32? {
          forall i | 0 <= i < count
            ensures IsTwosComplement(pixels[i],
              (((data[4 * i] as int) * 256 + data[4 * i + 1] as int) * 256
                + data[4 * i + 2] as int) * 256 + data[4 * i + 3] as int,
              2147483648)
          {
            DecodeAllInt32(data, count, ieee, i);
          }
        }
      }
      Ok(pixels)
  }

  // ---------------------------------------------------------------------
  // Encoding, the inverse of decoding for the integer formats
  // ---------------------------------------------------------------------

  /** The k-byte big-endian representation of `u`. */
  function ToBigEndian(u: nat, k: nat): (bs: seq<Byte>)
    requires u < Pow256(k)
    ensures |bs| == k && BigEndian(bs) == u
  {
    if k == 0 then []
    else
      var bs := ToBigEndian(u / 256, k - 1) + [u % 256];
      assert bs[..|bs| - 1] == ToBigEndian(u / 256, k - 1);
      bs
  }

  /** The values a sample of an integer format can hold. */
  predicate InRange(f: BitsPerPixel, v: int)
    requires IsInteger(f)
  {
    match f
    case UInt8 => 0 <= v < 256
    case Int16 => -32768 <= v < 32768
    case Int32 => -2147483648 <= v < 2147483648
  }

  /** The big-endian two's-complement bytes of one integer sample. */
  function EncodeSample(f: BitsPerPixel, v: int): (word: seq<Byte>)
    requires IsInteger(f) && InRange(f, v)
    ensures |word| == ByteWidth(f)
  {
    var k := ByteWidth(f);
    Pow256Values();
    ToBigEndian(if v < 0 then v + Pow256(k) else v, k)
  }

  /** All samples encoded one after the other. */
  function EncodeAll(f: BitsPerPixel, vs: seq<int>): (data: seq<Byte>)
    requires IsInteger(f) && forall i :: 0 <= i < |vs| ==> InRange(f, vs[i])
  {
    Concat(seq(|vs|, i requires 0 <= i < |vs| => EncodeSample(f, vs[i])))
  }

  lemma DecodeEncodeSample(f: BitsPerPixel, v: int, ieee: FloatDecoder)
    requires IsInteger(f) && InRange(f, v)
    ensures DecodeSample(f, EncodeSample(f, v), ieee) == v as real
  {
    Pow256Values();
  }

  /** Round trip: integer samples encoded big-endian decode to exactly the
      original values. */
  lemma DecodeEncode(f: BitsPerPixel, vs: seq<int>, width: nat, height: nat, ieee: FloatDecoder)
    requires IsInteger(f) && forall i :: 0 <= i < |vs| ==> InRange(f, vs[i])
    requires width * height == |vs|
    ensures ReadRawPixels(EncodeAll(f, vs), width, height, f, ieee) == Ok(AsReals(vs))
  {
    DecodeAllEncodeAll(f, vs, ieee);
  }

  /** Decoding every word of an encoding gives back the encoded values. */
  lemma DecodeAllEncodeAll(f: BitsPerPixel, vs: seq<int>, ieee: FloatDecoder)
    requires IsInteger(f) && forall i :: 0 <= i < |vs| ==> InRange(f, vs[i])
    ensures |EncodeAll(f, vs)| == Size(f, |vs|)
    ensures DecodeAll(EncodeAll(f, vs), |vs|, f, ieee) == AsReals(vs)
  {
    var words := seq(|vs|, i requires 0 <= i < |vs| => EncodeSample(f, vs[i]));
    ConcatLength(words, ByteWidth(f));
    var data := EncodeAll(f, vs);
    assert data == Concat(words);
    var decoded := DecodeAll(data, |vs|, f, ieee);
    forall i | 0 <= i < |vs|
      ensures decoded[i] == AsReals(vs)[i]
    {
      ConcatBlock(words, ByteWidth(f), i);
      DecodeEncodeSample(f, vs[i], ieee);
    }
  }

  /** The integer samples as reals. */
  function AsReals(vs: seq<int>): (r: seq<real>)
    ensures |r| == |vs| && forall i :: 0 <= i < |vs| ==> r[i] == vs[i] as real
  {
    seq(|vs|, i requires 0 <= i < |vs| => vs[i] as real)
  }
}

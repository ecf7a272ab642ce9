/** The sample formats a raw image buffer may hold, and their byte footprint
    (`BitsPerPixel` in SwiftPixel/BitsPerPixel.swift). */
module Formats {
  import opened Outcomes

  /** An unsigned 8-bit value, as stored in raw input data or an 8-bit image. */
  type Byte = b: int | 0 <= b < 256

  datatype BitsPerPixel = UInt8 | Int16 | Int32 | Float32 | Float64

  /** The signed bit-width code that names each format: its width in bits,
      negated for the floating-point formats. */
  function Code(f: BitsPerPixel): int {
    match f
    case UInt8 => 8
    case Int16 => 16
    case Int32 => 32
    case Float32 => -32
    case Float64 => -64
  }

  predicate IsInteger(f: BitsPerPixel) {
    f.UInt8? || f.Int16? || f.Int32?
  }

  /** Format lookup from a bit-width code; every other code is rejected. */
  function From(code: int): (r: Option<BitsPerPixel>)
    ensures r.Some? <==> code in {8, 16, 32, -32, -64}
    ensures r.Some? ==> Code(r.value) == code
  {
    if code == 8 then Some(UInt8)
    else if code == 16 then Some(Int16)
    else if code == 32 then Some(Int32)
    else if code == -32 then Some(Float32)
    else if code == -64 then Some(Float64)
    else None
  }

  /** Every format is reachable from its own code. */
  lemma FromCode(f: BitsPerPixel)
    ensures From(Code(f)) == Some(f)
  {
  }

  /** Two codes that are both accepted name the same format only if they are equal. */
  lemma FromInjective(c1: int, c2: int)
    requires From(c1).Some? && From(c2).Some? && c1 != c2
    ensures From(c1).value != From(c2).value
  {
  }

  /** Bytes per sample. */
  function ByteWidth(f: BitsPerPixel): (w: nat)
    ensures w * 8 == if Code(f) < 0 then -Code(f) else Code(f)
  {
    match f
    case UInt8 => 1
    case Int16 => 2
    case Int32 => 4
    case Float32 => 4
    case Float64 => 8
  }

  /** Byte footprint of `numberOfPixels` samples: the pixel count times the
      code's bit width divided by eight. */
  function Size(f: BitsPerPixel, numberOfPixels: int): (r: int)
    ensures r * 8 == numberOfPixels * (if Code(f) < 0 then -Code(f) else Code(f))
  {
    match f
    case UInt8 => numberOfPixels * 1
    case Int16 => numberOfPixels * 2
    case Int32 => numberOfPixels * 4
    case Float32 => numberOfPixels * 4
    case Float64 => numberOfPixels * 8
  }

  /** No pixels take no bytes, and more pixels never take fewer bytes. */
  lemma SizeMonotone(f: BitsPerPixel, n: int, m: int)
    requires 0 <= n <= m
    ensures Size(f, 0) == 0
    ensures 0 <= Size(f, n) <= Size(f, m)
  {
  }
}

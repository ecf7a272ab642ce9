/** `Processors.Debayer` (SwiftPixel/Processors/Debayer.swift): a raw
    single-channel mosaic turned into interleaved (r, g, b) triples. Every
    pixel keeps its own sample in the channel of its filter colour and takes
    the two missing channels as means of fixed neighbour templates, read with
    coordinates clamped to the image. */
module DebayerStage {
  import opened Outcomes
  import opened Buffers
  import opened Vectors
  import opened Sequences
  import opened MonoToRgbStage

  /** The colour of the filter at the top-left corner of the image, then
      clockwise, as the pattern names spell it. */
  datatype Pattern = BGGR | RGBG | GRBG | RGGB

  datatype Color = Red | Green | Blue

  /** The filter colour at (x, y). Only the zero test of `x % 2` and `y % 2`
      is used, which gives the same answer for Swift's truncating remainder
      and Dafny's Euclidean one, negative coordinates included. */
  function ColorAt(x: int, y: int, pattern: Pattern): Color {
    TileColor(pattern, y % 2 == 0, x % 2 == 0)
  }

  /** The colour within the 2x2 tile, by row and column parity. */
  function TileColor(pattern: Pattern, evenRow: bool, evenCol: bool): Color {
    match pattern
    case BGGR =>
      if evenRow then (if evenCol then Blue else Green) else (if evenCol then Green else Red)
    case RGBG =>
      if evenRow then (if evenCol then Red else Green) else (if evenCol then Blue else Green)
    case GRBG =>
      if evenRow then (if evenCol then Green else Red) else (if evenCol then Blue else Green)
    case RGGB =>
      if evenRow then (if evenCol then Red else Green) else (if evenCol then Green else Blue)
  }

  /** The position of a colour within an (r, g, b) triple. */
  function Slot(c: Color): nat {
    match c
    case Red => 0
    case Green => 1
    case Blue => 2
  }

  /** Row-major position of (x, y). */
  function Index(x: int, y: int, width: int): (i: int)
    ensures 0 <= x && 0 <= y && 0 <= width ==> 0 <= i
  {
    y * width + x
  }

  lemma IndexInBounds(x: int, y: int, width: nat, height: nat)
    requires 0 <= x < width && 0 <= y < height
    ensures 0 <= Index(x, y, width) < width * height
    ensures 3 * Index(x, y, width) + 3 <= 3 * (width * height)
  {
    BlockInBounds(width, y, height);
    assert Index(x, y, width) == width * y + x;
  }

  lemma TripleArea(width: nat, height: nat)
    ensures 3 * width * height == 3 * (width * height)
  {
  }

  lemma TripleIndex(x: int, y: int, width: nat, k: int)
    ensures 3 * Index(x, y, width) + k == 3 * width * y + (3 * x + k)
  {
  }

  /** Every in-image position is the index of exactly one (x, y). */
  lemma IndexInjective(x1: int, y1: int, x2: int, y2: int, width: nat)
    requires 0 <= x1 < width && 0 <= x2 < width && 0 <= y1 && 0 <= y2
    requires Index(x1, y1, width) == Index(x2, y2, width)
    ensures x1 == x2 && y1 == y2
  {
    if y1 < y2 {
      BlockInBounds(width, y1, y2);
      assert false;
    } else if y2 < y1 {
      BlockInBounds(width, y2, y1);
      assert false;
    }
  }

  function ColorRows(width: nat, height: nat, pattern: Pattern): (rows: seq<seq<Color>>)
    ensures |rows| == height
    ensures forall y :: 0 <= y < height ==> |rows[y]| == width
  {
    seq(height, y requires 0 <= y < height => seq(width, x requires 0 <= x < width => ColorAt(x, y, pattern)))
  }

  /** The filter colour of every pixel, in row-major order. */
  function ColorMap(width: nat, height: nat, pattern: Pattern): (m: seq<Color>)
    ensures |m| == width * height
  {
    var rows := ColorRows(width, height, pattern);
    ConcatLength(rows, width);
    Concat(rows)
  }

  /** `min(max(v, 0), n - 1)`. */
  function Clamp(v: int, n: int): (c: int)
    requires n >= 1
    ensures 0 <= c < n
    ensures 0 <= v < n ==> c == v
    ensures v < 0 ==> c == 0
    ensures v >= n ==> c == n - 1
  {
    var low := if v > 0 then v else 0;
    if low < n - 1 then low else n - 1
  }

  /** A raw mosaic: one sample per pixel. */
  predicate Mosaic(pixels: seq<real>, width: nat, height: nat) {
    |pixels| == width * height
  }

  /** The sample at (x, y) with both coordinates clamped into the image:
      never out of bounds, and exact inside the image. */
  function SafeRead(pixels: seq<real>, width: nat, height: nat, x: int, y: int): (v: real)
    requires Mosaic(pixels, width, height) && 0 < width && 0 < height
    ensures v in pixels
    ensures 0 <= x < width && 0 <= y < height ==>
              Index(x, y, width) < |pixels| && v == pixels[Index(x, y, width)]
  {
    var cx, cy := Clamp(x, width), Clamp(y, height);
    IndexInBounds(cx, cy, width, height);
    pixels[Index(cx, cy, width)]
  }

  /** The four horizontal and vertical neighbours. */
  function Axis(pixels: seq<real>, width: nat, height: nat, x: int, y: int): (s: seq<real>)
    requires Mosaic(pixels, width, height) && 0 < width && 0 < height
    ensures |s| == 4
  {
    [SafeRead(pixels, width, height, x - 1, y), SafeRead(pixels, width, height, x + 1, y),
     SafeRead(pixels, width, height, x, y - 1), SafeRead(pixels, width, height, x, y + 1)]
  }

  /** The four diagonal neighbours. */
  function Diagonal(pixels: seq<real>, width: nat, height: nat, x: int, y: int): (s: seq<real>)
    requires Mosaic(pixels, width, height) && 0 < width && 0 < height
    ensures |s| == 4
  {
    [SafeRead(pixels, width, height, x - 1, y - 1), SafeRead(pixels, width, height, x + 1, y - 1),
     SafeRead(pixels, width, height, x - 1, y + 1), SafeRead(pixels, width, height, x + 1, y + 1)]
  }

  /** The left and right neighbours. */
  function Horizontal(pixels: seq<real>, width: nat, height: nat, x: int, y: int): (s: seq<real>)
    requires Mosaic(pixels, width, height) && 0 < width && 0 < height
    ensures |s| == 2
  {
    [SafeRead(pixels, width, height, x - 1, y), SafeRead(pixels, width, height, x + 1, y)]
  }

  /** The neighbours above and below. */
  function Vertical(pixels: seq<real>, width: nat, height: nat, x: int, y: int): (s: seq<real>)
    requires Mosaic(pixels, width, height) && 0 < width && 0 < height
    ensures |s| == 2
  {
    [SafeRead(pixels, width, height, x, y - 1), SafeRead(pixels, width, height, x, y + 1)]
  }

  /** The (r, g, b) of the pixel at (x, y) whose filter colour is `color`:
      its own sample in the slot of that colour, the others interpolated. A
      green pixel takes red from the left and right neighbours when one of
      them (unclamped) is red, and from above and below otherwise. */
  function Demosaic(pixels: seq<real>, width: nat, height: nat, pattern: Pattern,
                    x: nat, y: nat, color: Color): (rgb: seq<real>)
    requires Mosaic(pixels, width, height) && x < width && y < height
    ensures |rgb| == 3
    ensures Index(x, y, width) < |pixels| && rgb[Slot(color)] == pixels[Index(x, y, width)]
  {
    IndexInBounds(x, y, width, height);
    var val := pixels[Index(x, y, width)];
    match color
    case Red =>
      [val, Mean(Axis(pixels, width, height, x, y)), Mean(Diagonal(pixels, width, height, x, y))]
    case Green =>
      if ColorAt(x - 1, y, pattern) == Red || ColorAt(x + 1, y, pattern) == Red then
        [Mean(Horizontal(pixels, width, height, x, y)), val, Mean(Vertical(pixels, width, height, x, y))]
      else
        [Mean(Vertical(pixels, width, height, x, y)), val, Mean(Horizontal(pixels, width, height, x, y))]
    case Blue =>
      [Mean(Diagonal(pixels, width, height, x, y)), Mean(Axis(pixels, width, height, x, y)), val]
  }

  /** The triples of row y, left to right. */
  function Triples(pixels: seq<real>, width: nat, height: nat, pattern: Pattern, colors: seq<Color>, y: nat)
    : (ts: seq<seq<real>>)
    requires Mosaic(pixels, width, height) && |colors| == width * height && y < height
    ensures |ts| == width
    ensures forall x :: 0 <= x < width ==> |ts[x]| == 3
  {
    seq(width, x requires 0 <= x < width =>
      IndexInBounds(x, y, width, height);
      Demosaic(pixels, width, height, pattern, x, y, colors[Index(x, y, width)]))
  }

  /** Row y of the output: its triples laid end to end. */
  function Row(pixels: seq<real>, width: nat, height: nat, pattern: Pattern, colors: seq<Color>, y: nat): (row: seq<real>)
    requires Mosaic(pixels, width, height) && |colors| == width * height && y < height
    ensures |row| == 3 * width
  {
    var triples := Triples(pixels, width, height, pattern, colors, y);
    ConcatLength(triples, 3);
    Concat(triples)
  }

  /** The output rows, top to bottom, with each pixel's colour taken from
      the colour map. */
  function Rows(pixels: seq<real>, pattern: Pattern, width: nat, height: nat): (rows: seq<seq<real>>)
    requires Mosaic(pixels, width, height)
    ensures |rows| == height
    ensures forall y :: 0 <= y < height ==> |rows[y]| == 3 * width
  {
    var colors := ColorMap(width, height, pattern);
    seq(height, y requires 0 <= y < height => Row(pixels, width, height, pattern, colors, y))
  }

  /** The VNG interpolation: the rows of triples laid out top to bottom,
      with each pixel's colour taken from the colour map. */
  function Vng(pixels: seq<real>, pattern: Pattern, width: nat, height: nat): (out: seq<real>)
    requires Mosaic(pixels, width, height)
    ensures |out| == 3 * (width * height)
  {
    var rows := Rows(pixels, pattern, width, height);
    ConcatLength(rows, 3 * width);
    TripleArea(width, height);
    Concat(rows)
  }

  /** The guards of `MonoToRGB` (size, then channels, then the flag), then
      the interpolated samples. The channel count is left as it was: the
      result holds three samples per pixel while still claiming one. */
  function Process(b: PixelBuffer, pattern: Pattern): (r: Result<PixelBuffer>)
    ensures r.Err? <==> CheckRawMono(b).Some?
    ensures r.Err? ==> r.error == CheckRawMono(b).value
    ensures r.Ok? ==> r.value.width == b.width && r.value.height == b.height
    ensures r.Ok? ==> r.value.channels == b.channels == 1 && !r.value.isNormalized
    ensures r.Ok? ==> |r.value.pixels| == 3 * |b.pixels|
    ensures r.Ok? ==> Mosaic(b.pixels, b.width, b.height)
                      && r.value.pixels == Vng(b.pixels, pattern, b.width, b.height)
  {
    var failure := CheckRawMono(b);
    if failure.Some? then Err(failure.value)
    else Ok(b.(pixels := Vng(b.pixels, pattern, b.width, b.height)))
  }

  // Properties of the colour map

  /** The colour map records `ColorAt` for each pixel. */
  lemma ColorMapAt(width: nat, height: nat, pattern: Pattern, x: nat, y: nat)
    requires x < width && y < height
    ensures Index(x, y, width) < width * height
    ensures ColorMap(width, height, pattern)[Index(x, y, width)] == ColorAt(x, y, pattern)
  {
    ConcatElement(ColorRows(width, height, pattern), width, y, x);
    IndexInBounds(x, y, width, height);
    assert Index(x, y, width) == width * y + x;
  }

  /** The colour depends only on the parities of x and y. */
  lemma ColorPeriodic(x: int, y: int, pattern: Pattern)
    ensures ColorAt(x + 2, y, pattern) == ColorAt(x, y, pattern)
    ensures ColorAt(x, y + 2, pattern) == ColorAt(x, y, pattern)
    ensures ColorAt(x - 2, y, pattern) == ColorAt(x, y, pattern)
    ensures ColorAt(x, y - 2, pattern) == ColorAt(x, y, pattern)
  {
  }

  /** Every 2x2 tile, wherever it starts, holds one red, one blue and two
      green filters. */
  lemma TileColors(x: int, y: int, pattern: Pattern)
    ensures multiset{ColorAt(x, y, pattern), ColorAt(x + 1, y, pattern),
                     ColorAt(x, y + 1, pattern), ColorAt(x + 1, y + 1, pattern)}
         == multiset{Red, Green, Green, Blue}
  {
    NextParity(x);
    NextParity(y);
    TileMultiset(pattern, y % 2 == 0, x % 2 == 0);
  }

  lemma NextParity(a: int)
    ensures ((a + 1) % 2 == 0) == !(a % 2 == 0)
  {
  }

  /** The four cells of a 2x2 tile, whatever parity its corner has. */
  lemma TileMultiset(pattern: Pattern, evenRow: bool, evenCol: bool)
    ensures multiset{TileColor(pattern, evenRow, evenCol), TileColor(pattern, evenRow, !evenCol),
                     TileColor(pattern, !evenRow, evenCol), TileColor(pattern, !evenRow, !evenCol)}
         == multiset{Red, Green, Green, Blue}
  {
  }

  /** A green pixel's left and right neighbours share one colour, and it is
      red or blue. */
  lemma GreenNeighbours(x: int, y: int, pattern: Pattern)
    requires ColorAt(x, y, pattern) == Green
    ensures ColorAt(x - 1, y, pattern) == ColorAt(x + 1, y, pattern) != Green
  {
  }

  /** For BGGR, GRBG and RGGB the fixed templates read the right colours:
      the axis neighbours of a red or blue pixel are green and its diagonal
      neighbours have the opposite colour, and a green pixel's horizontal
      and vertical pairs hold the two other colours. */
  lemma TemplatesReadMatchingColors(x: int, y: int, pattern: Pattern)
    requires pattern != RGBG
    ensures ColorAt(x, y, pattern) != Green ==>
              ColorAt(x - 1, y, pattern) == Green && ColorAt(x + 1, y, pattern) == Green
              && ColorAt(x, y - 1, pattern) == Green && ColorAt(x, y + 1, pattern) == Green
    ensures ColorAt(x, y, pattern) == Red ==>
              ColorAt(x - 1, y - 1, pattern) == Blue && ColorAt(x + 1, y - 1, pattern) == Blue
              && ColorAt(x - 1, y + 1, pattern) == Blue && ColorAt(x + 1, y + 1, pattern) == Blue
    ensures ColorAt(x, y, pattern) == Blue ==>
              ColorAt(x - 1, y - 1, pattern) == Red && ColorAt(x + 1, y - 1, pattern) == Red
              && ColorAt(x - 1, y + 1, pattern) == Red && ColorAt(x + 1, y + 1, pattern) == Red
    ensures ColorAt(x, y, pattern) == Green && ColorAt(x - 1, y, pattern) == Red ==>
              ColorAt(x, y - 1, pattern) == Blue && ColorAt(x, y + 1, pattern) == Blue
    ensures ColorAt(x, y, pattern) == Green && ColorAt(x - 1, y, pattern) == Blue ==>
              ColorAt(x, y - 1, pattern) == Red && ColorAt(x, y + 1, pattern) == Red
  {
  }

  /** RGBG has whole columns of green, so the templates read green where
      they expect another colour. Every green pixel has green above and
      below, so its vertical pair reads green; its sides are red in even rows
      and blue in odd rows. A red or blue pixel has the other one of the two
      above and below it, and green on all four diagonals. */
  lemma RgbgTemplatesMisread(x: int, y: int)
    ensures ColorAt(x, y, RGBG) == Green ==>
              ColorAt(x, y - 1, RGBG) == Green && ColorAt(x, y + 1, RGBG) == Green
    ensures ColorAt(x, y, RGBG) == Green && y % 2 == 0 ==>
              ColorAt(x - 1, y, RGBG) == Red && ColorAt(x + 1, y, RGBG) == Red
    ensures ColorAt(x, y, RGBG) == Green && y % 2 != 0 ==>
              ColorAt(x - 1, y, RGBG) == Blue && ColorAt(x + 1, y, RGBG) == Blue
    ensures ColorAt(x, y, RGBG) == Red ==>
              ColorAt(x, y - 1, RGBG) == Blue && ColorAt(x, y + 1, RGBG) == Blue
    ensures ColorAt(x, y, RGBG) == Blue ==>
              ColorAt(x, y - 1, RGBG) == Red && ColorAt(x, y + 1, RGBG) == Red
    ensures ColorAt(x, y, RGBG) != Green ==>
              ColorAt(x - 1, y - 1, RGBG) == Green && ColorAt(x + 1, y - 1, RGBG) == Green
              && ColorAt(x - 1, y + 1, RGBG) == Green && ColorAt(x + 1, y + 1, RGBG) == Green
  {
  }

  // Properties of the interpolated samples

  /** Row y of the output starts at 3 * width * y. */
  lemma VngRow(pixels: seq<real>, pattern: Pattern, width: nat, height: nat, y: nat, j: nat, i: nat)
    requires Mosaic(pixels, width, height) && y < height && j < 3 * width
    requires i == 3 * width * y + j
    ensures i < |Vng(pixels, pattern, width, height)|
    ensures Vng(pixels, pattern, width, height)[i]
         == Row(pixels, width, height, pattern, ColorMap(width, height, pattern), y)[j]
  {
    RowsAt(pixels, pattern, width, height, y);
    ConcatElementOf(Rows(pixels, pattern, width, height), 3 * width, y, j, Vng(pixels, pattern, width, height),
                    Row(pixels, width, height, pattern, ColorMap(width, height, pattern), y), i);
  }

  lemma RowsAt(pixels: seq<real>, pattern: Pattern, width: nat, height: nat, y: nat)
    requires Mosaic(pixels, width, height) && y < height
    ensures Vng(pixels, pattern, width, height) == Concat(Rows(pixels, pattern, width, height))
    ensures Rows(pixels, pattern, width, height)[y] == Row(pixels, width, height, pattern, ColorMap(width, height, pattern), y)
  {
  }

  /** Within a row, the triple of pixel x starts at 3 * x. */
  lemma RowTriple(pixels: seq<real>, width: nat, height: nat, pattern: Pattern, colors: seq<Color>, x: nat, y: nat, k: nat)
    requires Mosaic(pixels, width, height) && |colors| == width * height
    requires x < width && y < height && k < 3
    ensures 3 * x + k < 3 * width
    ensures Index(x, y, width) < |colors|
    ensures Row(pixels, width, height, pattern, colors, y)[3 * x + k]
         == Demosaic(pixels, width, height, pattern, x, y, colors[Index(x, y, width)])[k]
  {
    IndexInBounds(x, y, width, height);
    var triples := Triples(pixels, width, height, pattern, colors, y);
    ConcatElement(triples, 3, x, k);
  }

  /** Sample k of pixel (x, y) sits at 3 * Index(x, y) + k and is channel k
      of that pixel's triple for its filter colour. */
  lemma VngAt(pixels: seq<real>, pattern: Pattern, width: nat, height: nat, x: nat, y: nat, k: nat)
    requires Mosaic(pixels, width, height) && x < width && y < height && k < 3
    ensures 3 * Index(x, y, width) + k < |Vng(pixels, pattern, width, height)|
            && Vng(pixels, pattern, width, height)[3 * Index(x, y, width) + k]
               == Demosaic(pixels, width, height, pattern, x, y, ColorAt(x, y, pattern))[k]
  {
    var colors := ColorMap(width, height, pattern);
    ColorMapAt(width, height, pattern, x, y);
    TripleIndex(x, y, width, k);
    VngRow(pixels, pattern, width, height, y, 3 * x + k, 3 * Index(x, y, width) + k);
    RowTriple(pixels, width, height, pattern, colors, x, y, k);
  }

  /** Every output sample is one of the pixel's (x, y) with a channel k. */
  lemma Locate(width: nat, height: nat, j: nat) returns (x: nat, y: nat, k: nat)
    requires j < 3 * (width * height)
    ensures x < width && y < height && k < 3
    ensures j == 3 * Index(x, y, width) + k
  {
    var i := j / 3;
    k := j % 3;
    assert i < width * height;
    assert width > 0;
    x := i % width;
    y := i / width;
    assert i == width * y + x;
    if y >= height {
      BlockInBounds(width, height, y + 1);
      assert false;
    }
  }

  /** The known sample: the channel of the filter colour at (x, y) holds the
      input sample at (x, y), for every pattern. */
  lemma KnownSample(pixels: seq<real>, pattern: Pattern, width: nat, height: nat, x: nat, y: nat)
    requires Mosaic(pixels, width, height) && x < width && y < height
    ensures Index(x, y, width) < |pixels|
            && 3 * Index(x, y, width) + Slot(ColorAt(x, y, pattern)) < |Vng(pixels, pattern, width, height)|
            && Vng(pixels, pattern, width, height)[3 * Index(x, y, width) + Slot(ColorAt(x, y, pattern))]
               == pixels[Index(x, y, width)]
  {
    IndexInBounds(x, y, width, height);
    VngAt(pixels, pattern, width, height, x, y, Slot(ColorAt(x, y, pattern)));
  }

  /** A red pixel takes green from the four axis neighbours and blue from
      the four diagonals. */
  lemma RedTemplate(pixels: seq<real>, pattern: Pattern, width: nat, height: nat, x: nat, y: nat)
    requires Mosaic(pixels, width, height) && x < width && y < height
    requires ColorAt(x, y, pattern) == Red
    ensures var out, i := Vng(pixels, pattern, width, height), 3 * Index(x, y, width);
            i + 3 <= |out|
            && out[i + 1] == Mean(Axis(pixels, width, height, x, y))
            && out[i + 2] == Mean(Diagonal(pixels, width, height, x, y))
  {
    VngAt(pixels, pattern, width, height, x, y, 1);
    VngAt(pixels, pattern, width, height, x, y, 2);
  }

  /** A blue pixel takes green from the four axis neighbours and red from
      the four diagonals. */
  lemma BlueTemplate(pixels: seq<real>, pattern: Pattern, width: nat, height: nat, x: nat, y: nat)
    requires Mosaic(pixels, width, height) && x < width && y < height
    requires ColorAt(x, y, pattern) == Blue
    ensures var out, i := Vng(pixels, pattern, width, height), 3 * Index(x, y, width);
            i + 3 <= |out|
            && out[i] == Mean(Diagonal(pixels, width, height, x, y))
            && out[i + 1] == Mean(Axis(pixels, width, height, x, y))
  {
    VngAt(pixels, pattern, width, height, x, y, 0);
    VngAt(pixels, pattern, width, height, x, y, 1);
  }

  /** A green pixel takes red from its left and right neighbours and blue
      from those above and below when one of the (unclamped) left and right
      neighbours is red, and the other way round otherwise. */
  lemma GreenTemplate(pixels: seq<real>, pattern: Pattern, width: nat, height: nat, x: nat, y: nat)
    requires Mosaic(pixels, width, height) && x < width && y < height
    requires ColorAt(x, y, pattern) == Green
    ensures var out, i := Vng(pixels, pattern, width, height), 3 * Index(x, y, width);
            var redAcross := ColorAt(x - 1, y, pattern) == Red || ColorAt(x + 1, y, pattern) == Red;
            var across, upDown := Mean(Horizontal(pixels, width, height, x, y)), Mean(Vertical(pixels, width, height, x, y));
            i + 3 <= |out|
            && out[i] == (if redAcross then across else upDown)
            && out[i + 2] == (if redAcross then upDown else across)
  {
    VngAt(pixels, pattern, width, height, x, y, 0);
    VngAt(pixels, pattern, width, height, x, y, 2);
  }

  /** A mean of samples read from the image lies within any bounds of the
      image's samples. */
  lemma MeanOfReadsWithin(pixels: seq<real>, s: seq<real>, lo: real, hi: real)
    requires |s| > 0
    requires forall i :: 0 <= i < |pixels| ==> lo <= pixels[i] <= hi
    requires forall i :: 0 <= i < |s| ==> s[i] in pixels
    ensures lo <= Mean(s) <= hi
  {
    MeanBounds(s, lo, hi);
  }

  /** Any bounds of the input samples bound every sample of a triple: both
      the own sample and the means of clamped reads respect them. */
  lemma DemosaicWithin(pixels: seq<real>, width: nat, height: nat, pattern: Pattern,
                       x: nat, y: nat, color: Color, lo: real, hi: real)
    requires Mosaic(pixels, width, height) && x < width && y < height
    requires forall i :: 0 <= i < |pixels| ==> lo <= pixels[i] <= hi
    ensures var rgb := Demosaic(pixels, width, height, pattern, x, y, color);
            lo <= rgb[0] <= hi && lo <= rgb[1] <= hi && lo <= rgb[2] <= hi
  {
    IndexInBounds(x, y, width, height);
    var v := pixels[Index(x, y, width)];
    var axis, diagonal := Mean(Axis(pixels, width, height, x, y)), Mean(Diagonal(pixels, width, height, x, y));
    var across, upDown := Mean(Horizontal(pixels, width, height, x, y)), Mean(Vertical(pixels, width, height, x, y));
    MeanOfReadsWithin(pixels, Axis(pixels, width, height, x, y), lo, hi);
    MeanOfReadsWithin(pixels, Diagonal(pixels, width, height, x, y), lo, hi);
    MeanOfReadsWithin(pixels, Horizontal(pixels, width, height, x, y), lo, hi);
    MeanOfReadsWithin(pixels, Vertical(pixels, width, height, x, y), lo, hi);
    var rgb := Demosaic(pixels, width, height, pattern, x, y, color);
    match color
    case Red => assert rgb == [v, axis, diagonal];
    case Blue => assert rgb == [diagonal, axis, v];
    case Green =>
      assert rgb == [across, v, upDown] || rgb == [upDown, v, across];
  }

  lemma SampleWithin(pixels: seq<real>, pattern: Pattern, width: nat, height: nat, lo: real, hi: real, j: nat)
    requires Mosaic(pixels, width, height)
    requires forall i :: 0 <= i < |pixels| ==> lo <= pixels[i] <= hi
    requires j < 3 * (width * height)
    ensures j < |Vng(pixels, pattern, width, height)| && lo <= Vng(pixels, pattern, width, height)[j] <= hi
  {
    var out := Vng(pixels, pattern, width, height);
    assert |out| == 3 * (width * height);
    var x, y, k := Locate(width, height, j);
    VngAt(pixels, pattern, width, height, x, y, k);
    var rgb := Demosaic(pixels, width, height, pattern, x, y, ColorAt(x, y, pattern));
    DemosaicWithin(pixels, width, height, pattern, x, y, ColorAt(x, y, pattern), lo, hi);
    ChannelWithin(rgb, k, lo, hi);
  }

  lemma ChannelWithin(rgb: seq<real>, k: nat, lo: real, hi: real)
    requires |rgb| == 3 && k < 3
    requires lo <= rgb[0] <= hi && lo <= rgb[1] <= hi && lo <= rgb[2] <= hi
    ensures lo <= rgb[k] <= hi
  {
    assert k == 0 || k == 1 || k == 2;
  }

  /** Any bounds of the input bound the output: the interpolation never
      leaves the range of the input. */
  lemma OutputWithin(pixels: seq<real>, pattern: Pattern, width: nat, height: nat, lo: real, hi: real)
    requires Mosaic(pixels, width, height)
    requires forall i :: 0 <= i < |pixels| ==> lo <= pixels[i] <= hi
    ensures forall j :: 0 <= j < |Vng(pixels, pattern, width, height)| ==>
              lo <= Vng(pixels, pattern, width, height)[j] <= hi
  {
    forall j | 0 <= j < |Vng(pixels, pattern, width, height)| {
      SampleWithin(pixels, pattern, width, height, lo, hi, j);
    }
  }

  lemma OutputWithinInputRange(pixels: seq<real>, pattern: Pattern, width: nat, height: nat)
    requires Mosaic(pixels, width, height) && |pixels| > 0
    ensures forall j :: 0 <= j < |Vng(pixels, pattern, width, height)| ==>
              Min(pixels) <= Vng(pixels, pattern, width, height)[j] <= Max(pixels)
  {
    OutputWithin(pixels, pattern, width, height, Min(pixels), Max(pixels));
  }

  /** Positive samples give positive output samples. */
  lemma PositiveInPositiveOut(pixels: seq<real>, pattern: Pattern, width: nat, height: nat)
    requires Mosaic(pixels, width, height)
    requires forall i :: 0 <= i < |pixels| ==> pixels[i] > 0.0
    ensures forall j :: 0 <= j < |Vng(pixels, pattern, width, height)| ==> Vng(pixels, pattern, width, height)[j] > 0.0
  {
    if |pixels| > 0 {
      OutputWithinInputRange(pixels, pattern, width, height);
    }
  }

  /** A uniform mosaic gives the same value in every channel of every pixel. */
  lemma UniformInput(pixels: seq<real>, pattern: Pattern, width: nat, height: nat, c: real)
    requires Mosaic(pixels, width, height)
    requires forall i :: 0 <= i < |pixels| ==> pixels[i] == c
    ensures forall j :: 0 <= j < |Vng(pixels, pattern, width, height)| ==> Vng(pixels, pattern, width, height)[j] == c
  {
    OutputWithin(pixels, pattern, width, height, c, c);
  }

  /** The 2x2 BGGR mosaic [10, 20, 30, 40] (blue, green / green, red): each
      pixel keeps its own sample, every output sample is positive, and the
      one-channel flag stays. */
  lemma Bggr2x2(pixels: seq<real>)
    requires pixels == [10.0, 20.0, 30.0, 40.0]
    ensures var r := Process(PixelBuffer(2, 2, 1, pixels, false), BGGR);
            r.Ok? && r.value.channels == 1 && |r.value.pixels| == 12
            && r.value.pixels[2] == 10.0 && r.value.pixels[4] == 20.0
            && r.value.pixels[7] == 30.0 && r.value.pixels[9] == 40.0
            && forall j :: 0 <= j < 12 ==> r.value.pixels[j] > 0.0
  {
    KnownSample(pixels, BGGR, 2, 2, 0, 0);
    KnownSample(pixels, BGGR, 2, 2, 1, 0);
    KnownSample(pixels, BGGR, 2, 2, 0, 1);
    KnownSample(pixels, BGGR, 2, 2, 1, 1);
    PositiveInPositiveOut(pixels, BGGR, 2, 2);
  }
}

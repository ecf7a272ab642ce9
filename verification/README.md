# SwiftPixel core in Dafny

A model of SwiftPixel's image pipeline core, with proofs about it. The core
covers:

- decoding raw big-endian sample bytes into a one-channel `PixelBuffer`;
- the processing stages (Scale, Debayer, MonoToRGB, Normalize, WhiteBalance,
  and the Stretch and CorrectGamma guards);
- percentile interpolation and histogram statistics;
- 8-bit output quantisation;
- the pipeline that turns a configuration into an ordered list of stages and
  folds a buffer through them.

## How the model is built

- `Double` is `real`.
- Each vDSP/Accelerate call is modelled by its arithmetic effect.
- Each `DispatchQueue.concurrentPerform` loop is a sequence comprehension.
- A stage is a pure function from `PixelBuffer` to `Result<PixelBuffer>`.
- A thrown `RuntimeError` is an `Err` that carries the kind of failure and
  the numbers in its message. The buffer is therefore "unchanged on failure"
  by construction.

| file | module | source |
|---|---|---|
| `outcomes.dfy` | `Outcomes` | `Option`, `Result` and the error kinds |
| `formats.dfy` | `Formats` | `BitsPerPixel` |
| `raw_pixels.dfy` | `RawPixels` | `PixelUtilities.readRawPixels` |
| `sorting.dfy` | `Sorting` | the ascending `vDSP.sort` |
| `percentiles.dfy` | `Percentiles` | `PixelUtilities.percentileBounds` |
| `vectors.dfy` | `Vectors` | clipping, minimum/maximum and means (`vDSP_vclipD`, `vDSP_minvD`, `vDSP_maxvD`, `vDSP_meanvD`) |
| `pixel_buffer.dfy` | `Buffers` | `PixelBuffer`, `convertTo8Bits`, and the checks and geometry of `createCGImage` |
| `histogram_statistics.dfy` | `HistogramStatistics` | `HistogramStatistics` |
| `scale.dfy` | `ScaleStage` | `Processors.Scale` |
| `mono_to_rgb.dfy` | `MonoToRgbStage` | `Processors.MonoToRGB` |
| `debayer.dfy` | `DebayerStage` | `Processors.Debayer` |
| `normalize.dfy` | `NormalizeStage` | `Processors.Normalize` |
| `tone.dfy` | `ToneStages` | `Processors.Stretch` and `Processors.CorrectGamma` (the guard, with the curve as a parameter) |
| `white_balance.dfy` | `WhiteBalanceStage` | `Processors.WhiteBalance` |
| `pixel_pipeline.dfy` | `Pipeline` | `PixelPipeline` |
| `sequences.dfy` | `Sequences` | helpers: concatenating rows and slicing fixed-width words |

### Behaviour of the code worth knowing

The model follows the code. Each case below has a lemma that makes the
behaviour explicit. Only the first one disagrees with a test.

- **Debayer leaves the channel count at 1.** `Processors.Debayer.process`
  replaces the samples with `3 * width * height` values but never sets
  `channels = 3`. The Debayer test expects 3.
  - `DebayerStage.Process` states that the output keeps channels at 1.
  - `Pipeline.BayerBlocksWhiteBalance` proves the consequence: any
    configuration with both a Bayer pattern and white balance fails, because
    white balance demands three channels.
- **A degenerate Normalize does not mark the buffer normalized.** When
  min == max, or when the two percentile bounds are equal, `Normalize.process`
  returns before it sets `isNormalized`. `NormalizeStage.Process` states that
  the buffer comes back exactly as it went in.
- **Median of a histogram with one count.** The median is the first bucket whose running total
  reaches `total / 2` in integer division. For a histogram with one count, that
  threshold is 0, so the median is bucket 0 even when bucket 0 is empty and
  the minimum is a later bucket. `HistogramStatistics.MedianOfSingleCount`
  exhibits this.
- **The RGBG pattern.** In RGBG, every pixel in an odd column is green, so the
  fixed averaging templates read green neighbours where they expect red or
  blue. A green pixel's vertical pair is green, and a red or blue pixel's
  diagonals are green. `DebayerStage.RgbgTemplatesMisread` states this for
  every pixel.
  `DebayerStage.TemplatesReadMatchingColors` proves the templates read the
  intended colours for the three other patterns.
- **The number of stages is 1 plus the settings other than `bayerPattern`.**
  The Bayer pattern only chooses Debayer instead of MonoToRGB, so it adds no
  stage of its own (`Pipeline.Stages`).

## Model

| member | source | states |
|---|---|---|
| `Formats.From` | SwiftPixel/BitsPerPixel.swift:35-46 | a code is accepted exactly when it is 8, 16, 32, -32 or -64, and the accepted format carries that code |
| `Formats.FromCode` | SwiftPixel/BitsPerPixel.swift:35-46 | every format is reached by its own code |
| `Formats.FromInjective` | SwiftPixel/BitsPerPixel.swift:35-46 | distinct accepted codes give distinct formats |
| `Formats.ByteWidth` | SwiftPixel/BitsPerPixel.swift:48-58 | each format's sample width in bytes is its code's magnitude divided by 8 |
| `Formats.Size` | SwiftPixel/BitsPerPixel.swift:48-58 | the byte footprint of n samples is n times the code's magnitude divided by 8, i.e. n times 1, 2, 4, 4 or 8 |
| `Formats.SizeMonotone` | SwiftPixel/BitsPerPixel.swift:48-58 | the footprint of 0 samples is 0 and the footprint grows with the sample count |
| `RawPixels.BigEndian` | SwiftPixel/PixelUtilities.swift:63-79 | the unsigned big-endian value of k bytes is below 256^k |
| `RawPixels.SignedBigEndian` | SwiftPixel/PixelUtilities.swift:63-79 | the two's-complement reading lies in [-256^k/2, 256^k/2) and differs from the unsigned reading by 0 or 256^k |
| `RawPixels.DecodeAll` | SwiftPixel/PixelUtilities.swift:42-101 | decoding count samples yields exactly count values |
| `RawPixels.DecodeAllInt16` | SwiftPixel/PixelUtilities.swift:63-70 | int16 sample i is the two's-complement value of data[2i]*256 + data[2i+1] |
| `RawPixels.DecodeAllInt32` | SwiftPixel/PixelUtilities.swift:72-79 | int32 sample i is the two's-complement value of the big-endian bytes 4i..4i+3 |
| `RawPixels.ReadRawPixels` | SwiftPixel/PixelUtilities.swift:31-102 | fails exactly when the byte count differs from the format's footprint for width*height, with that mismatch as the error; on success it yields width*height samples, each the byte (uint8), the two's-complement big-endian word (int16, int32), or the IEEE decoding of its word (float32, float64) |
| `RawPixels.ToBigEndian` | SwiftPixel/PixelUtilities.swift:63-79 | any value below 256^k has a k-byte big-endian encoding that reads back as it |
| `RawPixels.DecodeEncodeSample` | SwiftPixel/PixelUtilities.swift:54-79 | decoding the encoding of an in-range integer sample gives that sample back, for uint8, int16 and int32 |
| `RawPixels.DecodeAllEncodeAll` | SwiftPixel/PixelUtilities.swift:42-79 | encoding in-range integer samples yields exactly the format's footprint, and decoding it gives the samples back |
| `RawPixels.DecodeEncode` | SwiftPixel/PixelUtilities.swift:31-102 | round trip through `readRawPixels`: the encoded bytes of width*height integer samples decode to those samples |
| `Sorting.Insert` | SwiftPixel/PixelUtilities.swift:112-114 | inserting into a sorted list keeps it sorted and adds exactly that element |
| `Sorting.Sort` | SwiftPixel/PixelUtilities.swift:112-114 | the sort's result is ascending and a permutation of its input |
| `Sorting.SortedUnique` | SwiftPixel/PixelUtilities.swift:112-114 | two ascending lists with the same elements are equal |
| `Sorting.SortedSpan` | SwiftPixel/PixelUtilities.swift:112-114 | a sorted permutation starts at the minimum and ends at the maximum of the input |
| `Sorting.SortPermutationInvariant` | SwiftPixel/PixelUtilities.swift:112-114 | permutations of one another sort to the same list |
| `Percentiles.PercentInRange` | SwiftPixel/PixelUtilities.swift:116-123 | for a non-empty array, a percentile in [0, 100] gives a rank whose floor indexes the array |
| `Percentiles.PercentileBounds` | SwiftPixel/PixelUtilities.swift:104-126 | (0, 0) for an empty array, (x, x) for a single element, and otherwise both bounds within [min, max] of the input |
| `Percentiles.SortEnds` | SwiftPixel/PixelUtilities.swift:112-114 | the sorted copy keeps the length, with the minimum first and the maximum last |
| `Percentiles.InterpolateBetween` | SwiftPixel/PixelUtilities.swift:118-123 | the interpolated value lies between the sample at the rank's floor and its clamped successor |
| `Percentiles.InterpolateAtIndex` | SwiftPixel/PixelUtilities.swift:118-123 | at a whole rank, interpolation is the sample at that index |
| `Percentiles.InterpolateWithin` | SwiftPixel/PixelUtilities.swift:118-123 | interpolation on a sorted array stays between its first and last element |
| `Percentiles.InterpolateMonotone` | SwiftPixel/PixelUtilities.swift:118-123 | on a sorted array, a higher rank never interpolates lower |
| `Percentiles.RankMonotone` | SwiftPixel/PixelUtilities.swift:116-117 | a higher percentile never gives a lower rank |
| `Percentiles.ExtremePercentiles` | SwiftPixel/PixelUtilities.swift:104-126 | percentiles 0 and 100 are the minimum and the maximum |
| `Percentiles.BoundsOrdered` | SwiftPixel/PixelUtilities.swift:116-125 | a lower percentile no greater than the upper gives a lower bound no greater than the upper bound |
| `Percentiles.PermutationInvariant` | SwiftPixel/PixelUtilities.swift:104-126 | the bounds depend only on the multiset of samples |
| `Percentiles.TwoElementExample` | SwiftPixel/PixelUtilities.swift:116-125 | [10, 20] at percentiles 25 and 75 gives (12.5, 17.5) |
| `Vectors.Clip` | SwiftPixel/Processors/Normalize.swift:98 | with ordered limits the result lies between them, in-range values are kept, and values below or above go to the near limit |
| `Vectors.ClipMonotone` | SwiftPixel/Processors/Normalize.swift:107 | clipping preserves order |
| `Vectors.Min` | SwiftPixel/Processors/Normalize.swift:73 | `vDSP_minvD`: an element of the input no greater than any element |
| `Vectors.Max` | SwiftPixel/Processors/Normalize.swift:74 | `vDSP_maxvD`: an element of the input no smaller than any element |
| `Vectors.MinUnique` | SwiftPixel/Processors/Normalize.swift:73 | any element that is a lower bound of the input is its minimum |
| `Vectors.MaxUnique` | SwiftPixel/Processors/Normalize.swift:74 | any element that is an upper bound of the input is its maximum |
| `Vectors.MeanBounds` | SwiftPixel/Processors/Debayer.swift:315-322 | the mean of values in [lo, hi] lies in [lo, hi] |
| `Vectors.MeanPositive` | SwiftPixel/Processors/Debayer.swift:315-322 | the mean of positive values is positive |
| `Vectors.MeanScale` | SwiftPixel/Processors/WhiteBalance.swift:121-127 | scaling every value scales the mean by the same factor |
| `Buffers.RoundToNearest` | SwiftPixel/PixelBuffer.swift:56 | the rounded integer is within half a unit of the value, ties rounding up |
| `Buffers.Quantise` | SwiftPixel/PixelBuffer.swift:54-56 | samples at or below 0 give byte 0, at or above 1 give 255, and in between the byte is within half a unit of v*255 |
| `Buffers.QuantiseMonotone` | SwiftPixel/PixelBuffer.swift:54-56 | a larger sample never gives a smaller byte |
| `Buffers.QuantiseExamples` | SwiftPixel/PixelBuffer.swift:54-56 | 0.5 becomes 128 and 0.25 becomes 64 |
| `Buffers.ConvertTo8Bits` | SwiftPixel/PixelBuffer.swift:42-59 | fails exactly when the buffer is not normalized; otherwise one byte per sample, each the quantisation of its sample |
| `Buffers.ConvertTo8BitsError` | SwiftPixel/PixelBuffer.swift:54-56 | a sample in [0, 1] becomes a byte within half a unit of sample*255 |
| `Buffers.CreateImage` | SwiftPixel/PixelBuffer.swift:61-105 | fails exactly when the channel count is outside {1, 3, 4}, when there are fewer than width*height*channels samples, or when the buffer is not normalized, and the checks run in that order; on success it gives 8 bits per component, 8*channels bits per pixel, width*channels bytes per row, gray space exactly for one channel, premultiplied alpha exactly for four, and the `convertTo8Bits` bytes |
| `Buffers.CreateImageAcceptsSurplus` | SwiftPixel/PixelBuffer.swift:69-77 | more samples than width*height*channels are accepted, and every sample is converted |
| `HistogramStatistics.FirstReaching` | SwiftPixel/HistogramStatistics.swift:119-131 | the result is the first bucket whose running total reaches the threshold, or none when no bucket does |
| `HistogramStatistics.FirstPositive` | SwiftPixel/HistogramStatistics.swift:69-74 | the result is the first bucket with a positive count, or none |
| `HistogramStatistics.LastPositive` | SwiftPixel/HistogramStatistics.swift:69-77 | the result is the last bucket with a positive count, or none |
| `HistogramStatistics.Statistics` | SwiftPixel/HistogramStatistics.swift:38-109 | a non-positive total gives all zeros; otherwise `count` is the total and the two percentile fields are the threshold buckets |
| `HistogramStatistics.PercentileScan` | SwiftPixel/HistogramStatistics.swift:111-140 | the scan with its early exit returns, for each threshold, the first bucket whose running total reaches it, or 255 |
| `HistogramStatistics.Accumulate` | SwiftPixel/HistogramStatistics.swift:57-95 | the single pass yields the index-weighted sum, the first bucket reaching total/2 as the median, and the first and last positive buckets as min and max |
| `HistogramStatistics.ComputeStatistics` | SwiftPixel/HistogramStatistics.swift:38-109 | the imperative initialiser computes exactly the statistics the functional definition describes |
| `HistogramStatistics.FirstReachingUnique` | SwiftPixel/HistogramStatistics.swift:85-94 | a bucket that reaches the threshold with no earlier bucket reaching it is the result |
| `HistogramStatistics.SupportExists` | SwiftPixel/HistogramStatistics.swift:69-77 | with a positive total, a first and a last positive bucket exist, they are min and max (the 0/255 fallbacks never apply), and min <= max |
| `HistogramStatistics.MedianWithinSupport` | SwiftPixel/HistogramStatistics.swift:85-94 | with a positive total the median exists and is at most max, and at least min when the total is at least 2 |
| `HistogramStatistics.MedianOfSingleCount` | SwiftPixel/HistogramStatistics.swift:85-94 | for the histogram [0, 1] the median is 0 while the minimum is 1 |
| `HistogramStatistics.WeightedBounds` | SwiftPixel/HistogramStatistics.swift:79-82 | with non-negative counts inside [lo, hi], the weighted sum lies between lo*total and hi*total |
| `HistogramStatistics.MeanWithinSupport` | SwiftPixel/HistogramStatistics.swift:79-97 | with non-negative counts and a positive total, the mean lies in [min, max] |
| `HistogramStatistics.BucketsOrdered` | SwiftPixel/HistogramStatistics.swift:111-139 | for at most 256 buckets, a lower threshold never gives a higher bucket |
| `HistogramStatistics.SpikeStatistics` | SwiftPixel/HistogramStatistics.swift:38-109 | a single spike of height v >= 2 at bucket k gives count v and mean = median = min = max = k, with both percentile buckets k |
| `HistogramStatistics.SpikeAt42` | SwiftPixel/HistogramStatistics.swift:38-109 | 100 counts at bucket 42 of 256 give count 100, with every index statistic 42 |
| `HistogramStatistics.AllZero` | SwiftPixel/HistogramStatistics.swift:40-55 | an all-zero histogram gives all-zero statistics, max included |
| `ScaleStage.Process` | SwiftPixel/Processors/Scale.swift:41-59 | never fails; every sample becomes v*scale + offset, and length, dimensions, channels and flag are kept |
| `ScaleStage.Identity` | SwiftPixel/Processors/Scale.swift:56-57 | scale 1 with offset 0 changes nothing |
| `ScaleStage.ZeroScale` | SwiftPixel/Processors/Scale.swift:56-57 | scale 0 makes every sample the offset |
| `ScaleStage.Compose` | SwiftPixel/Processors/Scale.swift:56-57 | two scalings are one scaling with the composed coefficients |
| `ScaleStage.Inverse` | SwiftPixel/Processors/Scale.swift:56-57 | a non-zero scaling is undone by scale 1/s and offset -o/s |
| `MonoToRgbStage.CheckRawMono` | SwiftPixel/Processors/MonoToRGB.swift:39-55 | the input check passes exactly for width*height samples, one channel and not normalized; otherwise it reports the first failed check in source order |
| `MonoToRgbStage.Replicate` | SwiftPixel/Processors/MonoToRGB.swift:65-77 | the interleaved replication holds three samples per input sample |
| `MonoToRgbStage.Process` | SwiftPixel/Processors/MonoToRGB.swift:37-78 | fails exactly when the input check fails, with its error; on success channels become 3, the dimensions are kept, the result is not normalized, and there are three samples per input sample |
| `MonoToRgbStage.PlanesAreInput` | SwiftPixel/Processors/MonoToRGB.swift:65-73 | each of the three interleaved planes of the output is the input |
| `MonoToRgbStage.Example` | SwiftPixel/Processors/MonoToRGB.swift:37-78 | [10, 20, 30, 40] in a 2x2 buffer becomes each value three times, with three channels |
| `DebayerStage.Index` | SwiftPixel/Processors/Debayer.swift:238-241 | non-negative coordinates give a non-negative index |
| `DebayerStage.IndexInBounds` | SwiftPixel/Processors/Debayer.swift:238-241 | in-range coordinates index inside width*height, and their RGB triple inside the output |
| `DebayerStage.IndexInjective` | SwiftPixel/Processors/Debayer.swift:238-241 | distinct in-range coordinates have distinct indices |
| `DebayerStage.ColorMap` | SwiftPixel/Processors/Debayer.swift:243-256 | the colour map holds width*height entries |
| `DebayerStage.ColorMapAt` | SwiftPixel/Processors/Debayer.swift:243-256 | the map entry at pixel (x, y) is `colorAt(x, y)` |
| `DebayerStage.ColorPeriodic` | SwiftPixel/Processors/Debayer.swift:258-305 | the colour depends only on the parities of x and y |
| `DebayerStage.TileColors` | SwiftPixel/Processors/Debayer.swift:258-305 | every 2x2 tile of every pattern holds one red, two greens and one blue |
| `DebayerStage.GreenNeighbours` | SwiftPixel/Processors/Debayer.swift:258-305 | a green pixel's left and right neighbours have the same colour, which is not green |
| `DebayerStage.TemplatesReadMatchingColors` | SwiftPixel/Processors/Debayer.swift:145-223 | except for RGBG, the axis neighbours of red and blue pixels are green, the diagonals have the opposite colour, and a green pixel's horizontal and vertical pairs have the two other colours |
| `DebayerStage.RgbgTemplatesMisread` | SwiftPixel/Processors/Debayer.swift:275-283 | in RGBG every green pixel has green above and below, with red on both sides in even rows and blue in odd rows; a red pixel has blue above and below, a blue pixel red, and both have green on all four diagonals, so the vertical and diagonal templates read green |
| `DebayerStage.Clamp` | SwiftPixel/Processors/Debayer.swift:309-310 | the clamped coordinate lies in [0, n-1], equals in-range coordinates, and is 0 below and n-1 above |
| `DebayerStage.SafeRead` | SwiftPixel/Processors/Debayer.swift:307-313 | every read returns an input sample, and an in-range read returns the sample at that pixel |
| `DebayerStage.Demosaic` | SwiftPixel/Processors/Debayer.swift:145-223 | a pixel's triple has three channels, and the channel of the pixel's own colour is its input sample |
| `DebayerStage.Vng` | SwiftPixel/Processors/Debayer.swift:106-236 | the output holds 3*width*height samples |
| `DebayerStage.VngAt` | SwiftPixel/Processors/Debayer.swift:131-229 | output slot 3*index(x, y) + k is channel k of pixel (x, y)'s demosaiced triple |
| `DebayerStage.KnownSample` | SwiftPixel/Processors/Debayer.swift:145-229 | the output channel named by `colorAt(x, y)` equals the input sample at (x, y) |
| `DebayerStage.RedTemplate` | SwiftPixel/Processors/Debayer.swift:147-165 | at a red pixel, green is the mean of the four axis reads and blue the mean of the four diagonal reads |
| `DebayerStage.BlueTemplate` | SwiftPixel/Processors/Debayer.swift:205-223 | at a blue pixel, red is the mean of the four diagonal reads and green the mean of the four axis reads |
| `DebayerStage.GreenTemplate` | SwiftPixel/Processors/Debayer.swift:167-203 | at a green pixel with red to the left or right, red is the horizontal mean and blue the vertical mean; otherwise the reverse |
| `DebayerStage.DemosaicWithin` | SwiftPixel/Processors/Debayer.swift:145-223 | with every input sample in [lo, hi], all three channels of every triple are in [lo, hi] |
| `DebayerStage.OutputWithin` | SwiftPixel/Processors/Debayer.swift:106-236 | with every input sample in [lo, hi], every output sample is in [lo, hi] |
| `DebayerStage.OutputWithinInputRange` | SwiftPixel/Processors/Debayer.swift:106-236 | every output sample lies between the input's minimum and maximum |
| `DebayerStage.PositiveInPositiveOut` | SwiftPixel/Processors/Debayer.swift:106-236 | positive input samples give positive output samples |
| `DebayerStage.UniformInput` | SwiftPixel/Processors/Debayer.swift:106-236 | a constant input gives the same constant everywhere in the output |
| `DebayerStage.Process` | SwiftPixel/Processors/Debayer.swift:73-97 | fails exactly when the size, channel or flag check fails, with the first failing check's error; on success the dimensions are kept, channels stay 1, the flag stays false, and the samples are the VNG output (three per input sample) |
| `DebayerStage.Bggr2x2` | SwiftPixel/Processors/Debayer.swift:73-97 | a 2x2 BGGR mosaic [10, 20, 30, 40] keeps each known sample in its channel, gives 12 positive samples, and leaves channels at 1 |
| `NormalizeStage.Rescale` | SwiftPixel/Processors/Normalize.swift:82-86 | the affine map with scale 1/range and offset -lo/range is (v - lo)/(hi - lo) |
| `NormalizeStage.RescaleWithin` | SwiftPixel/Processors/Normalize.swift:82-86 | values between the limits map into [0, 1] |
| `NormalizeStage.RescaleMonotone` | SwiftPixel/Processors/Normalize.swift:82-86 | the map preserves order |
| `NormalizeStage.Map` | SwiftPixel/Processors/Normalize.swift:66-107 | the mapped samples keep the length and lie in [0, 1] |
| `NormalizeStage.Process` | SwiftPixel/Processors/Normalize.swift:54-110 | never fails and keeps length, dimensions and channels; an empty buffer is only marked normalized, a degenerate one comes back unchanged with its flag, and otherwise every sample lands in [0, 1] and the buffer is marked normalized |
| `NormalizeStage.MinMaxExact` | SwiftPixel/Processors/Normalize.swift:68-86 | in min/max mode sample v becomes exactly (v - min)/(max - min): the minimum becomes 0 and the maximum 1 |
| `NormalizeStage.MinMaxMonotone` | SwiftPixel/Processors/Normalize.swift:82-86 | min/max mode preserves the order of samples |
| `NormalizeStage.MinMaxSpansUnit` | SwiftPixel/Processors/Normalize.swift:68-107 | after a non-degenerate min/max run the smallest sample is 0 and the largest 1 |
| `NormalizeStage.MinMaxOfUnitSpan` | SwiftPixel/Processors/Normalize.swift:68-107 | samples already spanning exactly [0, 1] are left as they are |
| `NormalizeStage.MinMaxIdempotent` | SwiftPixel/Processors/Normalize.swift:54-110 | normalizing twice in min/max mode equals normalizing once |
| `NormalizeStage.PercentileSample` | SwiftPixel/Processors/Normalize.swift:96-107 | with lo < hi, one sample at or below lo becomes 0, at or above hi becomes 1, and strictly between becomes (v - lo)/(hi - lo); with lo > hi every sample becomes 1 |
| `NormalizeStage.PercentileExact` | SwiftPixel/Processors/Normalize.swift:88-109 | in percentile mode, sample i is 0 at or below the lower bound, 1 at or above the upper, (v - lo)/(hi - lo) strictly between, and 1 when the lower bound exceeds the upper; with distinct bounds the buffer is marked normalized |
| `NormalizeStage.PercentileMonotone` | SwiftPixel/Processors/Normalize.swift:88-107 | percentile mode preserves the order of samples |
| `NormalizeStage.FullRangePercentileIsMinMax` | SwiftPixel/Processors/Normalize.swift:88-107 | percentile(0, 100) gives the same buffer as min/max mode |
| `NormalizeStage.FullRangeRanksValid` | SwiftPixel/Processors/Normalize.swift:88-90 | percentile(0, 100) is always in range |
| `ToneStages.ApplyCurve` | SwiftPixel/Processors/Stretch.swift:57-71 | fails exactly when the buffer is not normalized; on success every sample is the curve of its input, and dimensions, channels and flag are kept |
| `ToneStages.Stretch` | SwiftPixel/Processors/Stretch.swift:57-71 | the stretch fails exactly when not normalized, and otherwise applies the algorithm's curve to every sample |
| `ToneStages.CorrectGamma` | SwiftPixel/Processors/CorrectGamma.swift:40-62 | gamma correction fails exactly when not normalized, and otherwise applies the power curve to every sample |
| `ToneStages.IdentityCurve` | SwiftPixel/Processors/Stretch.swift:57-71 | the identity curve leaves a normalized buffer unchanged |
| `ToneStages.CurvesCompose` | SwiftPixel/Processors/Stretch.swift:57-71 | applying two curves in turn is applying their composition |
| `WhiteBalanceStage.ApplyGains` | SwiftPixel/Processors/WhiteBalance.swift:83-103 | the strided multiplications keep the number of samples |
| `WhiteBalanceStage.ComputeGains` | SwiftPixel/Processors/WhiteBalance.swift:105-135 | with no pixels or a gray level <= 0 every gain is 1; with a positive gray level each gain times its channel average is the gray level, and a zero average is an error |
| `WhiteBalanceStage.Process` | SwiftPixel/Processors/WhiteBalance.swift:55-81 | fails when not normalized, then when channels != 3, and in manual mode only then; on success dimensions, channels, flag and length are kept, and samples from 3*width*height on are untouched |
| `WhiteBalanceStage.ManualGains` | SwiftPixel/Processors/WhiteBalance.swift:77-101 | manual mode multiplies channels 0, 1 and 2 of every pixel below width*height by red, green and blue |
| `WhiteBalanceStage.UnitGainsIdentity` | SwiftPixel/Processors/WhiteBalance.swift:99-101 | gains of 1 change nothing |
| `WhiteBalanceStage.ChannelOfBalanced` | SwiftPixel/Processors/WhiteBalance.swift:99-101 | channel k of the result is channel k of the input scaled by gain k |
| `WhiteBalanceStage.AverageOfBalanced` | SwiftPixel/Processors/WhiteBalance.swift:99-127 | balancing scales each channel's average by its gain |
| `WhiteBalanceStage.GrayWorld` | SwiftPixel/Processors/WhiteBalance.swift:71-75 | with a positive gray level, the automatic gains bring every channel's average to the gray level |
| `WhiteBalanceStage.AutoAppliesComputedGains` | SwiftPixel/Processors/WhiteBalance.swift:71-75 | automatic mode succeeds exactly when the gains can be computed, and then applies them |
| `WhiteBalanceStage.BalancedInputUnchanged` | SwiftPixel/Processors/WhiteBalance.swift:125-131 | three equal positive channel averages leave the buffer unchanged in automatic mode |
| `Pipeline.Stages` | SwiftPixel/PixelPipeline.swift:51-90 | the list holds one stage per present setting besides the Bayer pattern, plus the colour stage |
| `Pipeline.StagesOrdered` | SwiftPixel/PixelPipeline.swift:53-90 | stage positions strictly increase along the list: Scale, then Debayer or MonoToRGB, Normalize, Stretch, CorrectGamma, WhiteBalance, BitsScale, with no kind twice |
| `Pipeline.ColorStage` | SwiftPixel/PixelPipeline.swift:58-65 | Debayer with pattern p is present exactly when the Bayer pattern is p, and MonoToRGB exactly when there is none |
| `Pipeline.SettingStages` | SwiftPixel/PixelPipeline.swift:53-90 | every other stage is present exactly when its setting is, and carries the setting's values |
| `Pipeline.StagesMember` | SwiftPixel/PixelPipeline.swift:53-90 | a stage is in the list exactly when it is the colour stage or the stage of one of the six optional settings |
| `Pipeline.Apply` | SwiftPixel/PixelPipeline.swift:94 | Scale and Normalize never fail; the colour stages fail exactly on their input check, Stretch and CorrectGamma exactly when not normalized, and WhiteBalance exactly when not normalized or channels != 3; every stage but BitsScale keeps the dimensions, every stage but MonoToRGB and BitsScale keeps the channel count, and MonoToRGB gives 3 |
| `Pipeline.RunStages` | SwiftPixel/PixelPipeline.swift:92-95 | no stages leave the buffer as it is, and one stage is that stage's outcome |
| `Pipeline.RunStagesAppend` | SwiftPixel/PixelPipeline.swift:92-95 | running s + t is running s, then t on its result |
| `Pipeline.FirstErrorAborts` | SwiftPixel/PixelPipeline.swift:92-95 | once a stage fails, whatever follows, the run's result is that failure |
| `Pipeline.ChannelsKept` | SwiftPixel/PixelPipeline.swift:92-95 | a run of stages other than MonoToRGB and BitsScale keeps the channel count |
| `Pipeline.Run` | SwiftPixel/PixelPipeline.swift:47-98 | a decoding failure is the result before any stage runs |
| `Pipeline.StoredConfigIgnored` | SwiftPixel/PixelPipeline.swift:40-47 | pipelines with different stored configurations give the same result for the same argument |
| `Pipeline.NoSettingsIsMonoToRgb` | SwiftPixel/PixelPipeline.swift:47-98 | with no settings only MonoToRGB runs: the result has channels 3, 3*width*height samples replicating the decoded ones, and is not normalized |
| `Pipeline.BayerBlocksWhiteBalance` | SwiftPixel/PixelPipeline.swift:58-94 | a configuration with a Bayer pattern and white balance always fails |

## Left out

- RawPixels.ReadRawPixels: the IEEE reinterpretation of float32 and float64
  words is a function parameter (`FloatDecoder`). The contract states only
  that each float sample is that function applied to its 4 or 8 big-endian
  bytes.
- Stretch and CorrectGamma: the transcendental curves (log, asinh, the
  sigmoid's exp, pow) are function parameters. `ToneStages` models each
  stage's guard and elementwise application.
- `Processors.BitsScale` is not part of this model; the pipeline takes its
  effect as a function parameter. The `Histogram` type is not part of this
  model either.
- Floating point: rounding, NaN and infinities of IEEE doubles are not
  modelled; samples are real numbers.
- WhiteBalanceStage.ComputeGains: a zero channel average with a positive
  gray level gives an infinite gain in the source; the model returns
  `NonFiniteGain` instead.
- WhiteBalanceStage.Process: requires that automatic mode read only samples
  that exist. The source reads 3*width*height samples without checking, and
  manual mode's out-of-bounds writes are confined to the samples that exist.
- Percentiles.PercentileBounds: requires both ranks to index the sorted
  array. The source traps on an out-of-range index.
- NormalizeStage.Process: requires valid percentile ranks, as
  `Percentiles.PercentileBounds` does.
- Pipeline.Run: requires percentile settings in [0, 100]. This is stronger
  than the source needs for some short buffers, where slightly larger bounds
  still give in-range ranks.
- Pipeline.Run: states only the decoding failure as a contract. Its other
  behaviour is stated by the lemmas about it
  (`Pipeline.NoSettingsIsMonoToRgb`, `Pipeline.BayerBlocksWhiteBalance`,
  `Pipeline.StoredConfigIgnored`) and by the fold lemmas.
- In the pipeline, `WhiteBalance(r:g:b:)` is modelled as manual white balance
  with those gains. `Processors.WhiteBalance` as shown has only a `mode`
  initialiser.
- HistogramStatistics.Statistics: `stdDev` (a square root) is not modelled.
  The two percentile thresholds `Int(Double(total) * p)` are passed in as
  integers.
- RawPixels.ReadRawPixels: the "Failed to access data buffer" error, thrown
  when `Data.withUnsafeBytes` yields no base address, is not modelled. The
  source text does not settle when that happens. It can matter only for
  empty data with width*height == 0, where the model returns `Ok([])` and
  the source may throw.
- The "Failed to access ... data buffer" errors of Scale, Debayer, Stretch,
  CorrectGamma and WhiteBalance are not modelled either. A non-empty Swift
  array always has a base address. For an empty sample array the source may
  throw where the model's stage succeeds on the empty buffer.
- Buffers.RoundToNearest: the tie rule of `vDSP_vfixru8D` is assumed to
  round halves up. The source text does not settle it, and 127.5 → 128 fits
  round-half-to-even too.
- Integer overflow: Swift's `Int` and `Int32` arithmetic traps on overflow.
  This affects `width * height` (PixelUtilities.swift:33), `numberOfPixels * 8`
  (BitsPerPixel.swift:52-56), `width * height * 3` (Debayer.swift:109),
  `count * 3` (MonoToRGB.swift:58), and `Int32(count)` for more than 2^31 - 1
  samples (Stretch.swift:89-134, CorrectGamma.swift:48). It also affects the
  histogram total `data.reduce(0, +)` (HistogramStatistics.swift:40). The
  model's `int` is unbounded, so those inputs give the model's ordinary
  result (for example `Err(SizeMismatch)` from `RawPixels.ReadRawPixels`, or
  `Ok` from `ToneStages.Stretch`) where the source crashes.
- CoreGraphics image construction in `createCGImage` is not modelled beyond its
  checks and geometry.
- Negative widths and heights are not modelled: dimensions are natural numbers.
- Names and descriptions of stages and formats are not modelled. Debayer's
  name "Debayering (VNG)" differs from the test's "Debayer (VNG BGGR)".
- Debayer's `Mode` has a single case, VNG, which is the only algorithm
  modelled.
- Concurrency: each `concurrentPerform` writes disjoint indices, so it is
  modelled as a sequence comprehension.

/** `PixelPipeline` (SwiftPixel/PixelPipeline.swift): decodes raw bytes into a
    one-channel buffer, turns a configuration of optional settings into an
    ordered list of stages, and runs the stages one after the other, stopping
    at the first failure. */
module Pipeline {
  import opened Outcomes
  import opened Formats
  import opened Buffers
  import opened RawPixels
  import ScaleStage
  import DebayerStage
  import MonoToRgbStage
  import NormalizeStage
  import ToneStages
  import WhiteBalanceStage
  import Percentiles

  datatype ScaleParams = ScaleParams(scale: real, offset: real)

  /** Every setting is optional; an absent one adds no stage, except that an
      absent Bayer pattern selects the mono-to-RGB stage. */
  datatype Config = Config(
    scale: Option<ScaleParams>,
    bayerPattern: Option<DebayerStage.Pattern>,
    normalize: Option<NormalizeStage.Mode>,
    stretch: Option<ToneStages.Algorithm>,
    correctGamma: Option<real>,
    whiteBalance: Option<WhiteBalanceStage.Gains>,
    bitsScale: Option<nat>)

  const NoSettings := Config(None, None, None, None, None, None, None)

  datatype Stage =
    | Scale(scale: real, offset: real)
    | Debayer(pattern: DebayerStage.Pattern)
    | MonoToRGB
    | Normalize(mode: NormalizeStage.Mode)
    | Stretch(algorithm: ToneStages.Algorithm)
    | CorrectGamma(gamma: real)
    | WhiteBalance(gains: WhiteBalanceStage.Gains)
    | BitsScale(bits: nat)

  /** What the model takes from outside: the IEEE reinterpretation of float
      samples, the two tone curves, and the bits-scale stage, whose source is
      not part of this model. */
  datatype Externals = Externals(
    ieee: FloatDecoder,
    stretch: ToneStages.StretchCurve,
    power: ToneStages.GammaCurve,
    bitsScale: (nat, PixelBuffer) -> Result<PixelBuffer>)

  /** The place of a stage kind in the fixed order; the two colour stages
      share a place. */
  function Position(s: Stage): nat {
    match s
    case Scale(_, _) => 0
    case Debayer(_) => 1
    case MonoToRGB => 1
    case Normalize(_) => 2
    case Stretch(_) => 3
    case CorrectGamma(_) => 4
    case WhiteBalance(_) => 5
    case BitsScale(_) => 6
  }

  /** The positions strictly increase along the list, starting above
      `floor`. */
  predicate Increasing(stages: seq<Stage>, floor: int)
    decreases |stages|
  {
    stages == [] || (floor < Position(stages[0]) && Increasing(stages[1..], Position(stages[0])))
  }

  /** The number of optional settings present besides the Bayer pattern,
      which only chooses between the two colour stages. */
  function Present(config: Config): nat {
    (if config.scale.Some? then 1 else 0)
    + (if config.normalize.Some? then 1 else 0)
    + (if config.stretch.Some? then 1 else 0)
    + (if config.correctGamma.Some? then 1 else 0)
    + (if config.whiteBalance.Some? then 1 else 0)
    + (if config.bitsScale.Some? then 1 else 0)
  }

  /** A stage when its setting is present, nothing otherwise. */
  function Part(o: Option<Stage>): seq<Stage> {
    if o.Some? then [o.value] else []
  }

  function ColorStageOf(config: Config): Stage {
    if config.bayerPattern.Some? then Debayer(config.bayerPattern.value) else MonoToRGB
  }

  /** The optional stages, one slot per setting, in the order `run` appends
      them. */
  function ScaleSlot(config: Config): Option<Stage> {
    if config.scale.Some? then Some(Scale(config.scale.value.scale, config.scale.value.offset)) else None
  }

  function NormalizeSlot(config: Config): Option<Stage> {
    if config.normalize.Some? then Some(Normalize(config.normalize.value)) else None
  }

  function StretchSlot(config: Config): Option<Stage> {
    if config.stretch.Some? then Some(Stretch(config.stretch.value)) else None
  }

  function GammaSlot(config: Config): Option<Stage> {
    if config.correctGamma.Some? then Some(CorrectGamma(config.correctGamma.value)) else None
  }

  function BalanceSlot(config: Config): Option<Stage> {
    if config.whiteBalance.Some? then Some(WhiteBalance(config.whiteBalance.value)) else None
  }

  function BitsSlot(config: Config): Option<Stage> {
    if config.bitsScale.Some? then Some(BitsScale(config.bitsScale.value)) else None
  }

  /** The tone stages: Normalize?, Stretch?, CorrectGamma?. */
  function TonePart(config: Config): seq<Stage> {
    Part(NormalizeSlot(config)) + (Part(StretchSlot(config)) + Part(GammaSlot(config)))
  }

  /** The stages from Normalize on. */
  function AfterColor(config: Config): seq<Stage> {
    TonePart(config) + (Part(BalanceSlot(config)) + Part(BitsSlot(config)))
  }

  /** The stage list `run` builds: Scale?, Debayer or MonoToRGB, Normalize?,
      Stretch?, CorrectGamma?, WhiteBalance?, BitsScale?: one stage per
      present setting, the Bayer pattern choosing the colour stage. */
  function Stages(config: Config): (stages: seq<Stage>)
    ensures |stages| == 1 + Present(config)
  {
    Part(ScaleSlot(config)) + ([ColorStageOf(config)] + AfterColor(config))
  }

  /** A list increasing above `p` is increasing above any lower floor. */
  lemma IncreasingLower(stages: seq<Stage>, f: int, p: int)
    requires f <= p && Increasing(stages, p)
    ensures Increasing(stages, f)
  {
  }

  /** Prepending the optional stage of slot position `p` keeps the list
      increasing. */
  lemma PrependPart(o: Option<Stage>, rest: seq<Stage>, f: int, p: int)
    requires o.Some? ==> Position(o.value) == p
    requires f < p && Increasing(rest, p)
    ensures Increasing(Part(o) + rest, f)
  {
    if o.Some? {
      assert (Part(o) + rest)[0] == o.value && (Part(o) + rest)[1..] == rest;
    } else {
      assert Part(o) + rest == rest;
      IncreasingLower(rest, f, p);
    }
  }

  /** The stages follow the fixed order: their positions strictly increase,
      so no kind appears twice and Debayer and MonoToRGB never both appear. */
  lemma StagesOrdered(config: Config)
    ensures Increasing(Stages(config), -1)
  {
    SlotsOrdered(ScaleSlot(config), ColorStageOf(config), NormalizeSlot(config), StretchSlot(config),
                 GammaSlot(config), BalanceSlot(config), BitsSlot(config));
  }

  /** The ordering argument over the slots themselves: each slot holds only
      stages of its own position. */
  lemma SlotsOrdered(scale: Option<Stage>, color: Stage, normalize: Option<Stage>, stretch: Option<Stage>,
                     gamma: Option<Stage>, balance: Option<Stage>, bits: Option<Stage>)
    requires scale.Some? ==> Position(scale.value) == 0
    requires Position(color) == 1
    requires normalize.Some? ==> Position(normalize.value) == 2
    requires stretch.Some? ==> Position(stretch.value) == 3
    requires gamma.Some? ==> Position(gamma.value) == 4
    requires balance.Some? ==> Position(balance.value) == 5
    requires bits.Some? ==> Position(bits.value) == 6
    ensures Increasing(Part(scale) + ([color] + ((Part(normalize) + (Part(stretch) + Part(gamma)))
                         + (Part(balance) + Part(bits)))), -1)
  {
    var after := (Part(normalize) + (Part(stretch) + Part(gamma))) + (Part(balance) + Part(bits));
    AfterColorOrdered(normalize, stretch, gamma, balance, bits);
    PrependPart(Some(color), after, 0, 1);
    assert Part(Some(color)) == [color];
    PrependPart(scale, [color] + after, -1, 0);
  }

  lemma AfterColorOrdered(normalize: Option<Stage>, stretch: Option<Stage>, gamma: Option<Stage>,
                          balance: Option<Stage>, bits: Option<Stage>)
    requires normalize.Some? ==> Position(normalize.value) == 2
    requires stretch.Some? ==> Position(stretch.value) == 3
    requires gamma.Some? ==> Position(gamma.value) == 4
    requires balance.Some? ==> Position(balance.value) == 5
    requires bits.Some? ==> Position(bits.value) == 6
    ensures Increasing((Part(normalize) + (Part(stretch) + Part(gamma))) + (Part(balance) + Part(bits)), 1)
  {
    BalanceOrdered(balance, bits);
    ToneOrdered(normalize, stretch, gamma, Part(balance) + Part(bits));
  }

  lemma ToneOrdered(normalize: Option<Stage>, stretch: Option<Stage>, gamma: Option<Stage>, tail: seq<Stage>)
    requires normalize.Some? ==> Position(normalize.value) == 2
    requires stretch.Some? ==> Position(stretch.value) == 3
    requires gamma.Some? ==> Position(gamma.value) == 4
    requires Increasing(tail, 4)
    ensures Increasing((Part(normalize) + (Part(stretch) + Part(gamma))) + tail, 1)
  {
    PrependPart(gamma, tail, 3, 4);
    PrependPart(stretch, Part(gamma) + tail, 2, 3);
    PrependPart(normalize, Part(stretch) + (Part(gamma) + tail), 1, 2);
    Reassociate(Part(normalize), Part(stretch), Part(gamma), tail);
  }

  lemma Reassociate(a: seq<Stage>, b: seq<Stage>, c: seq<Stage>, d: seq<Stage>)
    ensures (a + (b + c)) + d == a + (b + (c + d))
  {
  }

  lemma BalanceOrdered(balance: Option<Stage>, bits: Option<Stage>)
    requires balance.Some? ==> Position(balance.value) == 5
    requires bits.Some? ==> Position(bits.value) == 6
    ensures Increasing(Part(balance) + Part(bits), 4)
  {
    PrependPart(bits, [], 5, 6);
    assert Part(bits) + [] == Part(bits);
    PrependPart(balance, Part(bits), 4, 5);
  }

  lemma PartMember(o: Option<Stage>, x: Stage)
    ensures x in Part(o) <==> o == Some(x)
  {
  }

  /** A stage is in the list exactly when it is the colour stage or fills
      one of the six optional slots. */
  lemma StagesMember(config: Config, x: Stage)
    ensures x in Stages(config) <==>
              || x == ColorStageOf(config)
              || ScaleSlot(config) == Some(x) || NormalizeSlot(config) == Some(x)
              || StretchSlot(config) == Some(x) || GammaSlot(config) == Some(x)
              || BalanceSlot(config) == Some(x) || BitsSlot(config) == Some(x)
  {
    PartMember(ScaleSlot(config), x);
    PartMember(NormalizeSlot(config), x);
    PartMember(StretchSlot(config), x);
    PartMember(GammaSlot(config), x);
    PartMember(BalanceSlot(config), x);
    PartMember(BitsSlot(config), x);
  }

  /** Exactly one colour stage: Debayer with the configured pattern when
      there is one, MonoToRGB otherwise. */
  lemma ColorStage(config: Config)
    ensures forall p :: Debayer(p) in Stages(config) <==> config.bayerPattern == Some(p)
    ensures MonoToRGB in Stages(config) <==> config.bayerPattern.None?
  {
    forall p ensures Debayer(p) in Stages(config) <==> config.bayerPattern == Some(p) {
      StagesMember(config, Debayer(p));
    }
    StagesMember(config, MonoToRGB);
  }

  /** Every other stage is present exactly when its setting is, and carries
      the setting's value. */
  lemma SettingStages(config: Config)
    ensures forall s, o :: Scale(s, o) in Stages(config) <==> config.scale == Some(ScaleParams(s, o))
    ensures forall m :: Normalize(m) in Stages(config) <==> config.normalize == Some(m)
    ensures forall a :: Stretch(a) in Stages(config) <==> config.stretch == Some(a)
    ensures forall g :: CorrectGamma(g) in Stages(config) <==> config.correctGamma == Some(g)
    ensures forall w :: WhiteBalance(w) in Stages(config) <==> config.whiteBalance == Some(w)
    ensures forall n: nat :: BitsScale(n) in Stages(config) <==> config.bitsScale == Some(n)
  {
    forall s, o ensures Scale(s, o) in Stages(config) <==> config.scale == Some(ScaleParams(s, o)) {
      StagesMember(config, Scale(s, o));
    }
    forall m ensures Normalize(m) in Stages(config) <==> config.normalize == Some(m) {
      StagesMember(config, Normalize(m));
    }
    forall a ensures Stretch(a) in Stages(config) <==> config.stretch == Some(a) {
      StagesMember(config, Stretch(a));
    }
    forall g ensures CorrectGamma(g) in Stages(config) <==> config.correctGamma == Some(g) {
      StagesMember(config, CorrectGamma(g));
    }
    forall w ensures WhiteBalance(w) in Stages(config) <==> config.whiteBalance == Some(w) {
      StagesMember(config, WhiteBalance(w));
    }
    forall n: nat ensures BitsScale(n) in Stages(config) <==> config.bitsScale == Some(n) {
      StagesMember(config, BitsScale(n));
    }
  }

  /** Percentile mode indexes the sorted samples at ranks that must be in
      range; percentiles in [0, 100] are in range for every buffer. */
  predicate Safe(stage: Stage) {
    stage.Normalize? && stage.mode.Percentile? ==>
      0.0 <= stage.mode.lower <= 100.0 && 0.0 <= stage.mode.upper <= 100.0
  }

  predicate SafeConfig(config: Config) {
    config.normalize.Some? ==> Safe(Normalize(config.normalize.value))
  }

  /** One stage's `process`. Scale and Normalize never fail; every stage but
      MonoToRGB and BitsScale keeps the channel count, and every stage but
      BitsScale keeps the dimensions. */
  function Apply(stage: Stage, b: PixelBuffer, ext: Externals): (r: Result<PixelBuffer>)
    requires Safe(stage)
    ensures stage.Scale? || stage.Normalize? ==> r.Ok?
    ensures stage.Debayer? || stage.MonoToRGB? ==> (r.Err? <==> MonoToRgbStage.CheckRawMono(b).Some?)
    ensures stage.Stretch? || stage.CorrectGamma? ==> (r.Err? <==> !b.isNormalized)
    ensures stage.WhiteBalance? ==> (r.Err? <==> !b.isNormalized || b.channels != 3)
    ensures r.Ok? && !stage.BitsScale? ==> r.value.width == b.width && r.value.height == b.height
    ensures r.Ok? && !stage.MonoToRGB? && !stage.BitsScale? ==> r.value.channels == b.channels
    ensures r.Ok? && stage.MonoToRGB? ==> r.value.channels == 3
  {
    match stage
    case Scale(s, o) => Ok(ScaleStage.Process(b, s, o))
    case Debayer(p) => DebayerStage.Process(b, p)
    case MonoToRGB => MonoToRgbStage.Process(b)
    case Normalize(mode) =>
      if mode.Percentile? && |b.pixels| > 0 then
        Percentiles.PercentInRange(|b.pixels|, mode.lower);
        Percentiles.PercentInRange(|b.pixels|, mode.upper);
        Ok(NormalizeStage.Process(b, mode))
      else
        Ok(NormalizeStage.Process(b, mode))
    case Stretch(a) => ToneStages.Stretch(b, a, ext.stretch)
    case CorrectGamma(g) => ToneStages.CorrectGamma(b, g, ext.power)
    case WhiteBalance(gains) => WhiteBalanceStage.Process(b, WhiteBalanceStage.Manual(gains.r, gains.g, gains.b))
    case BitsScale(bits) => ext.bitsScale(bits, b)
  }

  predicate AllSafe(stages: seq<Stage>) {
    forall i :: 0 <= i < |stages| ==> Safe(stages[i])
  }

  /** `forEach { try $0.process(buffer: &buffer) }`: the stages applied in
      order, the first failure ending the run. */
  function RunStages(stages: seq<Stage>, b: PixelBuffer, ext: Externals): (r: Result<PixelBuffer>)
    requires AllSafe(stages)
    ensures stages == [] ==> r == Ok(b)
    ensures |stages| == 1 ==> r == Apply(stages[0], b, ext)
    decreases |stages|
  {
    if stages == [] then Ok(b)
    else
      var next :- Apply(stages[0], b, ext);
      RunStages(stages[1..], next, ext)
  }

  /** The result of running `stages` after an earlier outcome. */
  function Continue(r: Result<PixelBuffer>, stages: seq<Stage>, ext: Externals): Result<PixelBuffer>
    requires AllSafe(stages)
  {
    match r
    case Err(e) => Err(e)
    case Ok(b) => RunStages(stages, b, ext)
  }

  /** The fold composes: running s + t is running s, then t on its result. */
  lemma {:induction false} RunStagesAppend(s: seq<Stage>, t: seq<Stage>, b: PixelBuffer, ext: Externals)
    requires AllSafe(s) && AllSafe(t)
    ensures AllSafe(s + t)
    ensures RunStages(s + t, b, ext) == Continue(RunStages(s, b, ext), t, ext)
    decreases |s|
  {
    assert AllSafe(s + t) by {
      forall i | 0 <= i < |s + t| ensures Safe((s + t)[i]) {
        if i < |s| {
          assert (s + t)[i] == s[i];
        } else {
          assert (s + t)[i] == t[i - |s|];
        }
      }
    }
    if s == [] {
      assert s + t == t;
    } else {
      assert (s + t)[0] == s[0];
      assert (s + t)[1..] == s[1..] + t;
      var first := Apply(s[0], b, ext);
      if first.Ok? {
        RunStagesAppend(s[1..], t, first.value, ext);
      }
    }
  }

  /** Once a stage fails, later stages do not run: whatever follows, the
      result is that failure. */
  lemma FirstErrorAborts(s: seq<Stage>, t: seq<Stage>, b: PixelBuffer, ext: Externals)
    requires AllSafe(s) && AllSafe(t) && RunStages(s, b, ext).Err?
    ensures AllSafe(s + t)
    ensures RunStages(s + t, b, ext) == RunStages(s, b, ext)
  {
    RunStagesAppend(s, t, b, ext);
  }

  lemma StagesSafe(config: Config)
    requires SafeConfig(config)
    ensures AllSafe(Stages(config))
  {
    var stages := Stages(config);
    SettingStages(config);
    forall i | 0 <= i < |stages|
      ensures Safe(stages[i])
    {
      if stages[i].Normalize? {
        assert Normalize(stages[i].mode) in stages;
      }
    }
  }

  /** The buffer the decoded samples start in: one channel, not normalized. */
  function Initial(width: nat, height: nat, pixels: seq<real>): PixelBuffer {
    PixelBuffer(width, height, 1, pixels, false)
  }

  /** `run(data:width:height:bitsPerPixel:config:)`: a decoding failure is the
      result before any stage runs; otherwise the stages of `config` run on
      the decoded one-channel buffer. */
  function Run(data: seq<Byte>, width: nat, height: nat, f: BitsPerPixel, config: Config, ext: Externals)
    : (r: Result<PixelBuffer>)
    requires SafeConfig(config)
    ensures ReadRawPixels(data, width, height, f, ext.ieee).Err? ==>
              r == Err(ReadRawPixels(data, width, height, f, ext.ieee).error)
  {
    var pixels :- ReadRawPixels(data, width, height, f, ext.ieee);
    StagesSafe(config);
    RunStages(Stages(config), Initial(width, height, pixels), ext)
  }

  /** The pipeline object keeps the configuration it was created with. */
  datatype PixelPipeline = PixelPipeline(config: Config)

  /** `run` as a method of the pipeline object: it takes the configuration as
      an argument and never reads the stored one. */
  function RunPipeline(p: PixelPipeline, data: seq<Byte>, width: nat, height: nat, f: BitsPerPixel,
                       config: Config, ext: Externals): Result<PixelBuffer>
    requires SafeConfig(config)
  {
    Run(data, width, height, f, config, ext)
  }

  /** Two pipelines with any stored configurations give the same result for
      the same argument. */
  lemma StoredConfigIgnored(p: PixelPipeline, q: PixelPipeline, data: seq<Byte>, width: nat, height: nat,
                            f: BitsPerPixel, config: Config, ext: Externals)
    requires SafeConfig(config)
    ensures RunPipeline(p, data, width, height, f, config, ext) == RunPipeline(q, data, width, height, f, config, ext)
  {
  }

  /** With no settings only MonoToRGB runs: every decoded sample is
      replicated into three channels, and the buffer stays unnormalized. */
  lemma NoSettingsIsMonoToRgb(data: seq<Byte>, width: nat, height: nat, f: BitsPerPixel, ext: Externals)
    requires ReadRawPixels(data, width, height, f, ext.ieee).Ok?
    ensures Stages(NoSettings) == [MonoToRGB]
    ensures var r := Run(data, width, height, f, NoSettings, ext);
            var pixels := ReadRawPixels(data, width, height, f, ext.ieee).value;
            && r.Ok?
            && r.value.width == width && r.value.height == height
            && r.value.channels == 3 && !r.value.isNormalized
            && |r.value.pixels| == 3 * (width * height)
            && r.value.pixels == MonoToRgbStage.Replicate(pixels)
  {
    var stages := Stages(NoSettings);
    ColorStage(NoSettings);
    assert |stages| == 1 && MonoToRGB in stages;
  }

  /** Channel-keeping stages (all but MonoToRGB and BitsScale) leave the
      channel count as it was. */
  lemma {:induction false} ChannelsKept(stages: seq<Stage>, b: PixelBuffer, ext: Externals)
    requires AllSafe(stages)
    requires forall i :: 0 <= i < |stages| ==> !stages[i].MonoToRGB? && !stages[i].BitsScale?
    ensures RunStages(stages, b, ext).Ok? ==> RunStages(stages, b, ext).value.channels == b.channels
    decreases |stages|
  {
    if stages != [] {
      var first := Apply(stages[0], b, ext);
      if first.Ok? {
        ChannelsKept(stages[1..], first.value, ext);
      }
    }
  }

  /** Debayering leaves the channel count at 1, so white balance, which needs
      three channels, refuses every buffer that reaches it: a configuration
      with both a Bayer pattern and white balance always fails. */
  lemma BayerBlocksWhiteBalance(data: seq<Byte>, width: nat, height: nat, f: BitsPerPixel,
                                config: Config, ext: Externals)
    requires SafeConfig(config)
    requires config.bayerPattern.Some? && config.whiteBalance.Some?
    ensures Run(data, width, height, f, config, ext).Err?
  {
    var decoded := ReadRawPixels(data, width, height, f, ext.ieee);
    if decoded.Ok? {
      var b := Initial(width, height, decoded.value);
      var front, back := BeforeBalance(config), [WhiteBalance(config.whiteBalance.value)] + Part(BitsSlot(config));
      StagesSafe(config);
      SplitAtBalance(config);
      SplitSafe(front, back);
      RunStagesAppend(front, back, b, ext);
      var mid := RunStages(front, b, ext);
      if mid.Ok? {
        BeforeBalanceKeepsChannels(config);
        ChannelsKept(front, b, ext);
        SplitSafe([back[0]], Part(BitsSlot(config)));
        RunStagesAppend([back[0]], Part(BitsSlot(config)), mid.value, ext);
      }
    }
  }

  /** The stages before white balance. */
  function BeforeBalance(config: Config): seq<Stage> {
    Part(ScaleSlot(config)) + ([ColorStageOf(config)] + TonePart(config))
  }

  lemma SplitAtBalance(config: Config)
    requires config.whiteBalance.Some?
    ensures Stages(config) == BeforeBalance(config) + ([WhiteBalance(config.whiteBalance.value)] + Part(BitsSlot(config)))
  {
    var scale, color, tone := Part(ScaleSlot(config)), [ColorStageOf(config)], TonePart(config);
    var tail := Part(BalanceSlot(config)) + Part(BitsSlot(config));
    assert Part(BalanceSlot(config)) == [WhiteBalance(config.whiteBalance.value)];
    assert color + (tone + tail) == (color + tone) + tail;
    assert scale + ((color + tone) + tail) == (scale + (color + tone)) + tail;
  }

  lemma SplitSafe(s: seq<Stage>, t: seq<Stage>)
    requires AllSafe(s + t)
    ensures AllSafe(s) && AllSafe(t)
  {
    forall i | 0 <= i < |s| ensures Safe(s[i]) {
      assert s[i] == (s + t)[i];
    }
    forall i | 0 <= i < |t| ensures Safe(t[i]) {
      assert t[i] == (s + t)[|s| + i];
    }
  }

  /** With a Bayer pattern no stage before white balance changes the channel
      count. */
  lemma BeforeBalanceKeepsChannels(config: Config)
    requires config.bayerPattern.Some?
    ensures forall i :: 0 <= i < |BeforeBalance(config)| ==>
              !BeforeBalance(config)[i].MonoToRGB? && !BeforeBalance(config)[i].BitsScale?
  {
    var front := BeforeBalance(config);
    forall i | 0 <= i < |front| ensures !front[i].MonoToRGB? && !front[i].BitsScale? {
      assert front[i] in front;
    }
  }
}

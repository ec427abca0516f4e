/**
  The built-in colour functions. A colour function receives the geometry of
  one triangle and the colour stream's `random`, and returns a colour. Here
  `random` is the stream's state: a call takes the state and returns the
  colour together with the state after its draws.
*/
module ColorFunctions {

  import opened Wrappers
  import opened Mulberry32
  import opened Geom
  import opened Chroma
  import opened Settings

  /** What the generator hands a colour function for one triangle (all of
      `ColorFunctionInput` but `random`, which is threaded separately). */
  datatype ColorInput = ColorInput(
    centroid: Point,
    xPercent: real,
    yPercent: real,
    vertexIndices: seq<nat>,
    vertices: seq<Point>,
    xScale: Scale,
    yScale: Scale,
    points: seq<Point>,
    opts: Settings)

  /** A colour function. The three built-ins carry their parameter. A user
      function is described by how many values it draws for an input and how
      it picks a colour from the input and the values drawn. */
  datatype ColorFunction =
    | InterpolateLinear(bias: real)
    | Sparkle(jitterFactor: real)
    | Shadows(shadowIntensity: real)
    | Custom(draws: ColorInput -> nat, pick: (ColorInput, seq<real>) -> Color)

  const DefaultBias: real := 0.5
  const DefaultJitterFactor: real := 0.15
  const DefaultShadowIntensity: real := 0.8

  /** The factories. An argument left out takes its JavaScript default:
      bias 0.5, jitter factor 0.15, shadow intensity 0.8. */
  function InterpolateLinearWith(bias: Option<real>): (f: ColorFunction)
    ensures f.InterpolateLinear?
    ensures bias.Some? ==> f.bias == bias.value
    ensures bias.None? ==> f.bias == 0.5
  {
    InterpolateLinear(bias.GetOr(DefaultBias))
  }

  function SparkleWith(jitterFactor: Option<real>): (f: ColorFunction)
    ensures f.Sparkle?
    ensures jitterFactor.Some? ==> f.jitterFactor == jitterFactor.value
    ensures jitterFactor.None? ==> f.jitterFactor == 0.15
  {
    Sparkle(jitterFactor.GetOr(DefaultJitterFactor))
  }

  function ShadowsWith(shadowIntensity: Option<real>): (f: ColorFunction)
    ensures f.Shadows?
    ensures shadowIntensity.Some? ==> f.shadowIntensity == shadowIntensity.value
    ensures shadowIntensity.None? ==> f.shadowIntensity == 0.8
  {
    Shadows(shadowIntensity.GetOr(DefaultShadowIntensity))
  }

  /** Calling a factory without an argument is calling it with the default
      value, and the built-ins draw 0, 2 and 1 values whatever the argument. */
  lemma FactoryDefaults(input: ColorInput, x: Option<real>)
    ensures InterpolateLinearWith(None) == InterpolateLinearWith(Some(DefaultBias))
    ensures SparkleWith(None) == SparkleWith(Some(DefaultJitterFactor))
    ensures ShadowsWith(None) == ShadowsWith(Some(DefaultShadowIntensity))
    ensures DrawCount(InterpolateLinearWith(x), input) == 0
    ensures DrawCount(SparkleWith(x), input) == 2
    ensures DrawCount(ShadowsWith(x), input) == 1
  {
  }

  /** How many values a call draws from the colour stream: the reference the
      colour functions are checked against. */
  function DrawCount(f: ColorFunction, input: ColorInput): nat {
    match f
    case InterpolateLinear(_) => 0
    case Sparkle(_) => 2
    case Shadows(_) => 1
    case Custom(draws, _) => draws(input)
  }

  /** The colour of a call and the stream state it leaves behind. */
  datatype Colored = Colored(color: Color, state: bv32)

  /** Calls `f` on `input` with the colour stream in state `a`. */
  function Apply(f: ColorFunction, input: ColorInput, a: bv32): (r: Colored)
    ensures r.state == Advance(a, DrawCount(f, input))
    ensures !f.Custom? ==> BuiltinShape(f, input, r.color)
  {
    match f
    case InterpolateLinear(bias) => Linear(input, bias, a)
    case Sparkle(jitterFactor) => SparkleColor(input, jitterFactor, a)
    case Shadows(shadowIntensity) => ShadowColor(input, shadowIntensity, a)
    case Custom(draws, pick) =>
      var n := draws(input);
      Colored(pick(input, Stream(a, n)), Advance(a, n))
  }

  /** `interpolateLinear(bias)`: mix the x scale at `xPercent` with the y
      scale at `yPercent`, weighted by `bias`. */
  function Linear(input: ColorInput, bias: real, a: bv32): Colored {
    Colored(Mix(Sample(input.xScale, input.xPercent), Sample(input.yScale, input.yPercent),
                bias, input.opts.colorSpace), a)
  }

  /** `sparkle(jitterFactor)`: the first draw moves `xPercent`, the second
      `yPercent`; the two samples are mixed half and half. */
  function SparkleColor(input: ColorInput, jitterFactor: real, a: bv32): Colored {
    var dx := Next(a);
    var dy := Next(dx.state);
    Colored(SparkleMix(input, jitterFactor, dx.value, dy.value), dy.state)
  }

  /** The colour `sparkle` makes from the draws `rx` (for x) and `ry` (for y). */
  function SparkleMix(input: ColorInput, jitterFactor: real, rx: real, ry: real): Color {
    Mix(Sample(input.xScale, input.xPercent + Centered(rx, jitterFactor)),
        Sample(input.yScale, input.yPercent + Centered(ry, jitterFactor)),
        0.5, input.opts.colorSpace)
  }

  /** `shadows(shadowIntensity)`: the half-and-half mix, darkened by the
      intensity times one draw. */
  function ShadowColor(input: ColorInput, shadowIntensity: real, a: bv32): Colored {
    var d := Next(a);
    Colored(ShadowMix(input, shadowIntensity, d.value), d.state)
  }

  /** The colour `shadows` makes from the draw `r`. */
  function ShadowMix(input: ColorInput, shadowIntensity: real, r: real): Color {
    Darken(Mix(Sample(input.xScale, input.xPercent), Sample(input.yScale, input.yPercent),
               0.5, input.opts.colorSpace),
           shadowIntensity * r)
  }

  /** The outline of a built-in's colour: a mix of a sample of the x scale
      and a sample of the y scale, in the pattern's colour space, possibly
      darkened (only by `shadows`). `interpolateLinear` mixes with its bias
      and samples exactly at the percentages; the other two mix half and
      half. */
  predicate BuiltinShape(f: ColorFunction, input: ColorInput, c: Color)
    requires !f.Custom?
  {
    var m := if f.Shadows? then (if c.Darken? then c.base else c) else c;
    (f.Shadows? <==> c.Darken?)
    && m.Mix? && m.mode == input.opts.colorSpace
    && m.left.Sample? && m.left.scale == input.xScale
    && m.right.Sample? && m.right.scale == input.yScale
    && m.weight == (if f.InterpolateLinear? then f.bias else 0.5)
    && (!f.Sparkle? ==> m.left.t == input.xPercent && m.right.t == input.yPercent)
  }

  // ---------------------------------------------------------------------
  // Properties
  // ---------------------------------------------------------------------

  /** `sparkle` takes the next two values of the colour stream, the first
      for x and the second for y. */
  lemma SparkleDraws(jitterFactor: real, input: ColorInput, a: bv32)
    ensures |Stream(a, 2)| == 2
    ensures Apply(Sparkle(jitterFactor), input, a).color
         == SparkleMix(input, jitterFactor, Stream(a, 2)[0], Stream(a, 2)[1])
  {
    StreamIndex(a, 2, 0);
    StreamIndex(a, 2, 1);
  }

  /** `shadows` takes the next value of the colour stream. */
  lemma ShadowsDraws(shadowIntensity: real, input: ColorInput, a: bv32)
    ensures |Stream(a, 1)| == 1
    ensures Apply(Shadows(shadowIntensity), input, a).color
         == ShadowMix(input, shadowIntensity, Stream(a, 1)[0])
  {
    StreamIndex(a, 1, 0);
  }

  /** For draws in [0, 1), `sparkle` moves each percentage by at least
      `-jitterFactor/2` and by less than `jitterFactor/2`; the moved value is
      not clamped. */
  lemma SparkleJitterBounds(input: ColorInput, jitterFactor: real, rx: real, ry: real)
    requires 0.0 <= rx < 1.0 && 0.0 <= ry < 1.0
    requires jitterFactor >= 0.0
    ensures var c := SparkleMix(input, jitterFactor, rx, ry);
      && -jitterFactor / 2.0 <= c.left.t - input.xPercent <= jitterFactor / 2.0
      && -jitterFactor / 2.0 <= c.right.t - input.yPercent <= jitterFactor / 2.0
      && (jitterFactor > 0.0 ==>
            c.left.t - input.xPercent < jitterFactor / 2.0 && c.right.t - input.yPercent < jitterFactor / 2.0)
  {
    CenteredBounds(rx, jitterFactor);
    CenteredBounds(ry, jitterFactor);
  }

  /** For a draw in [0, 1), `shadows` darkens by at least zero and by less
      than the intensity (exactly zero when the intensity is zero). */
  lemma ShadowsAmountBounds(input: ColorInput, shadowIntensity: real, r: real)
    requires 0.0 <= r < 1.0
    requires shadowIntensity >= 0.0
    ensures var c := ShadowMix(input, shadowIntensity, r);
      && 0.0 <= c.amount <= shadowIntensity
      && (shadowIntensity > 0.0 ==> c.amount < shadowIntensity)
  {
    ScaledUnit(r, shadowIntensity);
  }

  /** A draw scaled by a non-negative factor stays in [0, factor). */
  lemma ScaledUnit(r: real, k: real)
    requires 0.0 <= r < 1.0 && k >= 0.0
    ensures 0.0 <= k * r <= k
    ensures k > 0.0 ==> k * r < k
  {
    MulNonneg(r, k);
    MulNonneg(1.0 - r, k);
    if k > 0.0 {
      MulPos(1.0 - r, k);
    }
  }

  /** With no jitter, `sparkle` gives the colour `interpolateLinear(0.5)`
      gives, but still uses up two draws. */
  lemma SparkleWithoutJitter(input: ColorInput, a: bv32)
    ensures Apply(Sparkle(0.0), input, a).color == Apply(InterpolateLinear(0.5), input, a).color
    ensures Apply(Sparkle(0.0), input, a).state == Advance(a, 2)
    ensures Apply(InterpolateLinear(0.5), input, a).state == a
  {
  }

  /** A built-in's colour depends on the colour stream only through the
      values it draws: two states whose next draws agree give the same
      colour. */
  lemma BuiltinColorDependsOnlyOnDraws(f: ColorFunction, input: ColorInput, a: bv32, b: bv32)
    requires !f.Custom?
    requires Stream(a, DrawCount(f, input)) == Stream(b, DrawCount(f, input))
    ensures Apply(f, input, a).color == Apply(f, input, b).color
  {
    match f
    case InterpolateLinear(_) =>
    case Sparkle(j) =>
      SparkleDraws(j, input, a);
      SparkleDraws(j, input, b);
    case Shadows(k) =>
      ShadowsDraws(k, input, a);
      ShadowsDraws(k, input, b);
  }
}

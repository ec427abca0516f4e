/**
  The start of `trianglify`: checking the caller's option keys, merging the
  options over the defaults, rejecting bad sizes, and turning `xColors` and
  `yColors` into colour lists, drawing from the pattern's stream when a
  palette entry is picked at random.
*/
module Options {

  import opened Wrappers
  import opened Mulberry32
  import opened Geom
  import opened Chroma
  import opened Settings
  import opened ColorFunctions

  /** What a caller passes. `keys` is `Object.keys(_opts)` in order; each
      field is `None` when its option is absent (or, for `seed` and `points`,
      `null`). */
  datatype UserOptions = UserOptions(
    keys: seq<string>,
    width: Option<real>,
    height: Option<real>,
    cellSize: Option<real>,
    variance: Option<real>,
    seed: Option<CodeUnits>,
    xColors: Option<ColorOpt>,
    yColors: Option<ColorOpt>,
    palette: Option<Palette>,
    colorSpace: Option<ColorSpace>,
    colorFunction: Option<ColorFunction>,
    fill: Option<bool>,
    strokeWidth: Option<real>,
    points: Option<seq<Point>>)

  /** `RequiredOptions`: every option resolved. */
  datatype Options = Options(settings: Settings, colorFunction: ColorFunction)

  /** The keys of `defaultOptions`; all of them have a defined default. */
  const OptionNames: seq<string> := [
    "width", "height", "cellSize", "variance", "seed", "xColors", "yColors",
    "palette", "colorSpace", "colorFunction", "fill", "strokeWidth", "points"]

  /** `defaultOptions`; the default palette (colorbrewer) is data the model
      takes as a parameter. */
  function Defaults(palette: Palette): (d: Options)
    ensures d.settings.width > 0.0 && d.settings.height > 0.0 && d.settings.cellSize > 0.0
    ensures d.settings.width == 600.0 && d.settings.height == 400.0
    ensures d.settings.cellSize == 75.0 && d.settings.variance == 0.75
    ensures d.settings.seed.None? && d.settings.points.None?
    ensures d.settings.xColors == Keyword("random") && d.settings.yColors == Keyword("match")
    ensures d.settings.palette == palette && d.settings.colorSpace == Lab
    ensures d.settings.fill && d.settings.strokeWidth == 0.0
    ensures d.colorFunction == InterpolateLinearWith(None)
  {
    Options(
      Settings(600.0, 400.0, 75.0, 0.75, None, Keyword("random"), Keyword("match"),
               palette, Lab, true, 0.0, None),
      InterpolateLinear(0.5))
  }

  // ---------------------------------------------------------------------
  // Key check, merge, size checks
  // ---------------------------------------------------------------------

  /** The first key, in order, that is not an option name: the key the
      `forEach` throws on. */
  function FirstUnknownKey(keys: seq<string>): (r: Option<string>)
    ensures r.None? <==> forall i :: 0 <= i < |keys| ==> keys[i] in OptionNames
    ensures r.Some? ==> exists i :: 0 <= i < |keys| && keys[i] == r.value && r.value !in OptionNames
                                   && forall j :: 0 <= j < i ==> keys[j] in OptionNames
    decreases |keys|
  {
    if keys == [] then None
    else if keys[0] !in OptionNames then Some(keys[0])
    else
      var rest := FirstUnknownKey(keys[1..]);
      assert forall i :: 1 <= i < |keys| ==> keys[i] == keys[1..][i - 1];
      if rest.Some? then
        var i :| 0 <= i < |keys[1..]| && keys[1..][i] == rest.value && rest.value !in OptionNames
                 && forall j :: 0 <= j < i ==> keys[1..][j] in OptionNames;
        assert keys[i + 1] == rest.value;
        rest
      else rest
  }

  /** `{ ...defaultOptions, ..._opts }`: every option the caller gives wins;
      every other one keeps its default. `seed` and `points` default to
      `null`, so a missing one stays missing. */
  function Merge(u: UserOptions, defaultPalette: Palette): (r: Options)
    ensures var d := Defaults(defaultPalette).settings;
      && (u.width.Some? ==> r.settings.width == u.width.value)
      && (u.width.None? ==> r.settings.width == d.width)
      && (u.height.Some? ==> r.settings.height == u.height.value)
      && (u.height.None? ==> r.settings.height == d.height)
      && (u.cellSize.Some? ==> r.settings.cellSize == u.cellSize.value)
      && (u.cellSize.None? ==> r.settings.cellSize == d.cellSize)
      && (u.variance.Some? ==> r.settings.variance == u.variance.value)
      && (u.variance.None? ==> r.settings.variance == d.variance)
      && r.settings.seed == u.seed
      && (u.xColors.Some? ==> r.settings.xColors == u.xColors.value)
      && (u.xColors.None? ==> r.settings.xColors == d.xColors)
      && (u.yColors.Some? ==> r.settings.yColors == u.yColors.value)
      && (u.yColors.None? ==> r.settings.yColors == d.yColors)
      && (u.palette.Some? ==> r.settings.palette == u.palette.value)
      && (u.palette.None? ==> r.settings.palette == defaultPalette)
      && (u.colorSpace.Some? ==> r.settings.colorSpace == u.colorSpace.value)
      && (u.colorSpace.None? ==> r.settings.colorSpace == d.colorSpace)
      && (u.fill.Some? ==> r.settings.fill == u.fill.value)
      && (u.fill.None? ==> r.settings.fill == d.fill)
      && (u.strokeWidth.Some? ==> r.settings.strokeWidth == u.strokeWidth.value)
      && (u.strokeWidth.None? ==> r.settings.strokeWidth == d.strokeWidth)
      && r.settings.points == u.points
      && (u.colorFunction.Some? ==> r.colorFunction == u.colorFunction.value)
      && (u.colorFunction.None? ==> r.colorFunction == Defaults(defaultPalette).colorFunction)
  {
    var d := Defaults(defaultPalette);
    var s := d.settings;
    Options(
      Settings(
        u.width.GetOr(s.width), u.height.GetOr(s.height), u.cellSize.GetOr(s.cellSize),
        u.variance.GetOr(s.variance), u.seed, u.xColors.GetOr(s.xColors),
        u.yColors.GetOr(s.yColors), u.palette.GetOr(s.palette), u.colorSpace.GetOr(s.colorSpace),
        u.fill.GetOr(s.fill), u.strokeWidth.GetOr(s.strokeWidth), u.points),
      u.colorFunction.GetOr(d.colorFunction))
  }

  /** The checks before any random draw: an unknown key first, then the
      height, then the width. */
  function Resolve(u: UserOptions, defaultPalette: Palette): (r: Result<Options, Error>)
    ensures FirstUnknownKey(u.keys).Some? ==> r == Err(UnrecognizedOption(FirstUnknownKey(u.keys).value))
    ensures FirstUnknownKey(u.keys).None? ==>
      var h := u.height.GetOr(400.0);
      var w := u.width.GetOr(600.0);
      && (h <= 0.0 ==> r == Err(InvalidHeight(h)))
      && (h > 0.0 && w <= 0.0 ==> r == Err(InvalidWidth(w)))
      && (h > 0.0 && w > 0.0 <==> r.Ok?)
    ensures r.Ok? ==> r.value.settings.height > 0.0 && r.value.settings.width > 0.0
    ensures r.Ok? ==> r.value == Merge(u, defaultPalette)
  {
    match FirstUnknownKey(u.keys)
    case Some(k) => Err(UnrecognizedOption(k))
    case None =>
      var opts := Merge(u, defaultPalette);
      if !(opts.settings.height > 0.0) then Err(InvalidHeight(opts.settings.height))
      else if !(opts.settings.width > 0.0) then Err(InvalidWidth(opts.settings.width))
      else Ok(opts)
  }

  // ---------------------------------------------------------------------
  // Palettes and colour options
  // ---------------------------------------------------------------------

  /** `palette[key]` on an object palette: the list stored under `key`. */
  function Lookup(entries: seq<(string, seq<string>)>, key: string): (r: Option<seq<string>>)
    ensures r.None? <==> forall i :: 0 <= i < |entries| ==> entries[i].0 != key
    ensures r.Some? ==> exists i :: 0 <= i < |entries| && entries[i] == (key, r.value)
    decreases |entries|
  {
    if entries == [] then None
    else if entries[0].0 == key then Some(entries[0].1)
    else
      assert forall i :: 1 <= i < |entries| ==> entries[i] == entries[1..][i - 1];
      Lookup(entries[1..], key)
  }

  /** An object has each key once. */
  predicate DistinctKeys(entries: seq<(string, seq<string>)>) {
    forall i, j :: 0 <= i < j < |entries| ==> entries[i].0 != entries[j].0
  }

  function PaletteSize(p: Palette): nat {
    match p
    case ArrayPalette(lists) => |lists|
    case ObjectPalette(entries) => |entries|
  }

  /** `Math.floor(r * n)`. */
  function PickIndex(r: real, n: nat): int {
    (r * n as real).Floor
  }

  /** What `randomFromPalette` returns for the draw `r`. An index outside the
      array reads `undefined`; on an object the missing key is the string
      "undefined". */
  function PickFrom(p: Palette, r: real): Option<seq<string>> {
    var i := PickIndex(r, PaletteSize(p));
    match p
    case ArrayPalette(lists) =>
      if 0 <= i < |lists| then Some(lists[i]) else None
    case ObjectPalette(entries) =>
      Lookup(entries, if 0 <= i < |entries| then entries[i].0 else "undefined")
  }

  /** A resolved colour list (`None` for `undefined`) and the stream state
      after resolving it. */
  datatype Picked = Picked(colors: Option<seq<string>>, state: bv32)

  /** `randomFromPalette`: one draw picks an entry. */
  function RandomFromPalette(p: Palette, a: bv32): (r: Picked)
    ensures r.state == Advance(a, 1)
  {
    var d := Next(a);
    Picked(PickFrom(p, d.value), d.state)
  }

  /** Whether `processColorOpts` takes its palette-key branch for `opt`. */
  predicate IsPaletteKey(opt: ColorOpt, p: Palette) {
    opt.Keyword? && p.ObjectPalette? && Lookup(p.entries, opt.name).Some?
  }

  /** How many draws `processColorOpts` makes for `opt`: one for `'random'`
      unless an object palette has an entry of that name, none otherwise. */
  function ColorOptDraws(opt: ColorOpt, p: Palette): nat {
    if opt == Keyword("random") && !IsPaletteKey(opt, p) then 1 else 0
  }

  /** `processColorOpts`: an explicit list as it is; else the object
      palette's entry of that name; else `'random'`; else an error. */
  function ProcessColorOpt(opt: ColorOpt, p: Palette, a: bv32): (r: Result<Picked, Error>)
    ensures r.Err? <==> opt.Keyword? && !IsPaletteKey(opt, p) && opt.name != "random"
    ensures r.Err? ==> r.error == UnrecognizedColorOption(opt.name)
    ensures r.Ok? ==> r.value.state == Advance(a, ColorOptDraws(opt, p))
    ensures opt.Colors? ==> r == Ok(Picked(Some(opt.list), a))
    ensures IsPaletteKey(opt, p) ==> r == Ok(Picked(Lookup(p.entries, opt.name), a))
    ensures opt == Keyword("random") && !IsPaletteKey(opt, p) ==> r == Ok(RandomFromPalette(p, a))
  {
    match opt
    case Colors(list) => Ok(Picked(Some(list), a))
    case Keyword(name) =>
      if p.ObjectPalette? && Lookup(p.entries, name).Some? then Ok(Picked(Lookup(p.entries, name), a))
      else if name == "random" then Ok(RandomFromPalette(p, a))
      else Err(UnrecognizedColorOption(name))
  }

  /** The two resolved colour lists and the stream state after them. */
  datatype ColorLists = ColorLists(x: Option<seq<string>>, y: Option<seq<string>>, state: bv32)

  /** All palette draws of a pattern. */
  function PaletteDraws(s: Settings): nat {
    ColorOptDraws(s.xColors, s.palette)
      + (if s.yColors == Keyword("match") then 0 else ColorOptDraws(s.yColors, s.palette))
  }

  /** `xColors` first; then `yColors`, which `'match'` ties to the x list
      without a draw. */
  function ResolveColors(s: Settings, a: bv32): (r: Result<ColorLists, Error>)
    ensures r.Ok? ==> r.value.state == Advance(a, PaletteDraws(s))
    ensures r.Ok? && s.yColors == Keyword("match") ==> r.value.y == r.value.x
    ensures ProcessColorOpt(s.xColors, s.palette, a).Err? ==> r == ProcessColorOpt(s.xColors, s.palette, a).PropagateFailure()
    ensures r.Ok? <==> (ProcessColorOpt(s.xColors, s.palette, a).Ok?
                        && (s.yColors == Keyword("match") || ProcessColorOpt(s.yColors, s.palette, a).Ok?))
    ensures r.Ok? ==> r.value.x == ProcessColorOpt(s.xColors, s.palette, a).value.colors
    ensures r.Ok? && s.yColors != Keyword("match") ==>
      var afterX := ProcessColorOpt(s.xColors, s.palette, a).value.state;
      r.value.y == ProcessColorOpt(s.yColors, s.palette, afterX).value.colors
    ensures ProcessColorOpt(s.xColors, s.palette, a).Ok? && s.yColors != Keyword("match") ==>
      var afterX := ProcessColorOpt(s.xColors, s.palette, a).value.state;
      ProcessColorOpt(s.yColors, s.palette, afterX).Err? ==>
        r == ProcessColorOpt(s.yColors, s.palette, afterX).PropagateFailure()
  {
    var x :- ProcessColorOpt(s.xColors, s.palette, a);
    if s.yColors == Keyword("match") then
      Ok(ColorLists(x.colors, x.colors, x.state))
    else
      var y :- ProcessColorOpt(s.yColors, s.palette, x.state);
      AdvanceAdd(a, ColorOptDraws(s.xColors, s.palette), ColorOptDraws(s.yColors, s.palette));
      Ok(ColorLists(x.colors, y.colors, y.state))
  }

  // ---------------------------------------------------------------------
  // Properties
  // ---------------------------------------------------------------------

  /** No options at all resolve to the defaults: a 600 by 400 pattern. */
  lemma EmptyOptionsResolve(defaultPalette: Palette)
    ensures var r := Resolve(UserOptions([], None, None, None, None, None, None, None, None, None, None, None, None, None), defaultPalette);
      && r.Ok? && r.value.settings == Defaults(defaultPalette).settings
      && r.value.settings.width == 600.0 && r.value.settings.height == 400.0
      && r.value.settings.cellSize == 75.0 && r.value.settings.variance == 0.75
      && r.value.settings.fill && r.value.colorFunction == InterpolateLinear(0.5)
  {
  }

  /** The user options that name every option explicitly, with the values
      of `o` (a missing seed or point list stays missing). */
  function Explicit(o: Options): UserOptions {
    var s := o.settings;
    UserOptions(OptionNames, Some(s.width), Some(s.height), Some(s.cellSize), Some(s.variance), s.seed,
                Some(s.xColors), Some(s.yColors), Some(s.palette), Some(s.colorSpace), Some(o.colorFunction),
                Some(s.fill), Some(s.strokeWidth), s.points)
  }

  /** Passing every option explicitly gives back exactly those options,
      whatever the default palette: the merge loses no option. */
  lemma MergeExplicit(o: Options, defaultPalette: Palette)
    ensures Merge(Explicit(o), defaultPalette) == o
  {
  }

  /** Giving one more option changes that option and nothing else. */
  lemma MergeOneOption(u: UserOptions, defaultPalette: Palette, v: real, f: bool)
    ensures Merge(u.(variance := Some(v)), defaultPalette).settings
         == Merge(u, defaultPalette).settings.(variance := v)
    ensures Merge(u.(fill := Some(f)), defaultPalette).settings
         == Merge(u, defaultPalette).settings.(fill := f)
  {
  }

  /** An unknown key is reported even when the sizes are also invalid: the
      key check comes first. */
  lemma UnknownKeyBeforeSizes(u: UserOptions, defaultPalette: Palette, k: string)
    requires k !in OptionNames
    requires |u.keys| > 0 && u.keys[0] == k
    requires u.height == Some(-1.0) && u.width == Some(-1.0)
    ensures Resolve(u, defaultPalette) == Err(UnrecognizedOption(k))
  {
  }

  /** `randomFromPalette` uses the next value of the stream. */
  lemma RandomFromPaletteDraw(p: Palette, a: bv32)
    ensures |Stream(a, 1)| == 1
    ensures RandomFromPalette(p, a).colors == PickFrom(p, Stream(a, 1)[0])
  {
    StreamIndex(a, 1, 0);
  }

  /** With `'random'` for both axes (and no palette entry of that name), the
      x colours are picked by the first value of the pattern stream and the y
      colours by the second: x is resolved first, from the same stream. */
  lemma RandomColorsDraws(s: Settings, a: bv32)
    requires s.xColors == Keyword("random") && s.yColors == Keyword("random")
    requires !IsPaletteKey(Keyword("random"), s.palette)
    ensures ResolveColors(s, a).Ok?
    ensures |Stream(a, 2)| == 2
    ensures ResolveColors(s, a).value.x == PickFrom(s.palette, Stream(a, 2)[0])
    ensures ResolveColors(s, a).value.y == PickFrom(s.palette, Stream(a, 2)[1])
  {
    StreamIndex(a, 2, 0);
    StreamIndex(a, 2, 1);
    assert Advance(a, 1) == Next(a).state;
  }

  /** For a draw in [0, 1) the index `floor(r * n)` is in [0, n). */
  lemma PickIndexInRange(r: real, n: nat)
    requires 0.0 <= r < 1.0 && n > 0
    ensures 0 <= PickIndex(r, n) < n
  {
    MulNonneg(r, n as real);
    MulPos(1.0 - r, n as real);
  }

  /** For a draw in [0, 1), a non-empty palette yields the entry at
      `floor(r * n)` (in `Object.keys` order for an object palette); an
      empty one yields `undefined`. */
  lemma PickFromPalette(p: Palette, r: real)
    requires 0.0 <= r < 1.0
    requires p.ObjectPalette? ==> DistinctKeys(p.entries)
    ensures PaletteSize(p) == 0 ==> PickFrom(p, r).None?
    ensures PaletteSize(p) > 0 ==>
      var i := PickIndex(r, PaletteSize(p));
      && 0 <= i < PaletteSize(p)
      && PickFrom(p, r) == Some(if p.ArrayPalette? then p.lists[i] else p.entries[i].1)
  {
    if PaletteSize(p) > 0 {
      var i := PickIndex(r, PaletteSize(p));
      PickIndexInRange(r, PaletteSize(p));
      if p.ObjectPalette? {
        LookupDistinct(p.entries, i);
      }
    }
  }

  /** With distinct keys, looking up the key at position `i` finds the list
      at position `i`. */
  lemma LookupDistinct(entries: seq<(string, seq<string>)>, i: nat)
    requires DistinctKeys(entries) && i < |entries|
    ensures Lookup(entries, entries[i].0) == Some(entries[i].1)
  {
    var r := Lookup(entries, entries[i].0);
    var j :| 0 <= j < |entries| && entries[j] == (entries[i].0, r.value);
    assert j == i;
  }

  /** A palette entry named "random" wins over the `'random'` keyword: it is
      returned as is and nothing is drawn. */
  lemma PaletteKeyBeforeRandom(entries: seq<(string, seq<string>)>, list: seq<string>, a: bv32)
    requires Lookup(entries, "random") == Some(list)
    ensures ProcessColorOpt(Keyword("random"), ObjectPalette(entries), a) == Ok(Picked(Some(list), a))
  {
  }

  /** An array palette never matches a name: "0" is not looked up. */
  lemma ArrayPaletteHasNoKeys(lists: seq<seq<string>>, name: string, a: bv32)
    requires name != "random"
    ensures ProcessColorOpt(Keyword(name), ArrayPalette(lists), a) == Err(UnrecognizedColorOption(name))
  {
  }
}

/**
  `trianglify`: validate and merge the options, resolve the colour lists,
  make (or take) the points, triangulate them, and colour each triangle
  from a second, salted stream. The triangulator (Delaunator) is a
  parameter, and so are the two strings `Math.random()` would supply when
  no seed is given.
*/
module Trianglify {

  import opened Wrappers
  import opened Mulberry32
  import opened Geom
  import opened Chroma
  import opened Settings
  import opened ColorFunctions
  import opened Options
  import opened Grid

  /** One triangle of the pattern. */
  datatype Poly = Poly(vertexIndices: seq<nat>, centroid: Point, color: Color)

  /** `new Pattern(points, polys, opts)`. */
  datatype Pattern = Pattern(points: seq<Point>, polys: seq<Poly>, opts: Options)

  /** `norm`: `Math.max(0, Math.min(1, num))`. */
  function Clamp01(x: real): (r: real)
    ensures 0.0 <= r <= 1.0
    ensures 0.0 <= x <= 1.0 ==> r == x
    ensures x < 0.0 ==> r == 0.0
    ensures x > 1.0 ==> r == 1.0
  {
    var m := if x < 1.0 then x else 1.0;
    if m > 0.0 then m else 0.0
  }

  /** The string `"42"` the colour seed is salted with. */
  const Salt: CodeUnits := [0x34, 0x32]

  /** The colour stream's seed: `${seed}42` when a seed is given. */
  function ColorSeed(seed: Option<CodeUnits>): (r: Option<CodeUnits>)
    ensures r.Some? <==> seed.Some?
    ensures r.Some? ==> |r.value| == |seed.value| + 2
                        && r.value[..|seed.value|] == seed.value && r.value[|seed.value|..] == Salt
  {
    if seed.Some? then Some(seed.value + Salt) else None
  }

  /** What every triangle of one pattern shares. */
  datatype Scene = Scene(points: seq<Point>, settings: Settings, xScale: Scale, yScale: Scale)

  /** The triangulation groups into whole triangles of existing points. */
  predicate WellFormed(indices: seq<nat>, points: seq<Point>) {
    |indices| % 3 == 0 && forall i :: 0 <= i < |indices| ==> indices[i] < |points|
  }

  predicate TriangleIn(tri: seq<nat>, points: seq<Point>) {
    |tri| == 3 && tri[0] < |points| && tri[1] < |points| && tri[2] < |points|
  }

  /** What the colour function receives for the triangle `tri`: its
      vertices, centroid, and the centroid as fractions of the canvas size,
      clamped to [0, 1]. */
  function TriangleInput(scene: Scene, tri: seq<nat>): (input: ColorInput)
    requires TriangleIn(tri, scene.points)
    requires scene.settings.width > 0.0 && scene.settings.height > 0.0
    ensures 0.0 <= input.xPercent <= 1.0 && 0.0 <= input.yPercent <= 1.0
    ensures input.centroid == Centroid(scene.points[tri[0]], scene.points[tri[1]], scene.points[tri[2]])
    ensures 0.0 <= input.centroid.x <= scene.settings.width ==> input.xPercent * scene.settings.width == input.centroid.x
    ensures 0.0 <= input.centroid.y <= scene.settings.height ==> input.yPercent * scene.settings.height == input.centroid.y
    ensures input.centroid.x < 0.0 ==> input.xPercent == 0.0
    ensures input.centroid.x > scene.settings.width ==> input.xPercent == 1.0
    ensures input.centroid.y < 0.0 ==> input.yPercent == 0.0
    ensures input.centroid.y > scene.settings.height ==> input.yPercent == 1.0
    ensures input.vertexIndices == tri
    ensures input.vertices == [scene.points[tri[0]], scene.points[tri[1]], scene.points[tri[2]]]
    ensures input.xScale == scene.xScale && input.yScale == scene.yScale
    ensures input.points == scene.points && input.opts == scene.settings
  {
    var vertices := [scene.points[tri[0]], scene.points[tri[1]], scene.points[tri[2]]];
    var centroid := Centroid(vertices[0], vertices[1], vertices[2]);
    var w := scene.settings.width;
    var h := scene.settings.height;
    FractionOfSide(centroid.x, w);
    FractionOfSide(centroid.y, h);
    ColorInput(centroid, Clamp01(centroid.x / w), Clamp01(centroid.y / h), tri, vertices,
               scene.xScale, scene.yScale, scene.points, scene.settings)
  }

  /** A coordinate inside [0, side] is that fraction of the side. */
  lemma FractionOfSide(c: real, side: real)
    requires side > 0.0
    ensures 0.0 <= c <= side ==> 0.0 <= c / side <= 1.0 && (c / side) * side == c
    ensures c < 0.0 ==> c / side < 0.0
    ensures c > side ==> c / side > 1.0
  {
    assert (c / side) * side == c;
    if 0.0 <= c <= side {
      Grid.MulCancel(0.0, c / side, side);
      Grid.MulCancel(c / side, 1.0, side);
    } else if c < 0.0 {
      Grid.MulCancelStrict(c / side, 0.0, side);
    } else {
      Grid.MulCancelStrict(1.0, c / side, side);
    }
  }

  /** Polygons and the colour stream's state after them. */
  datatype Painted = Painted(polys: seq<Poly>, state: bv32)

  /** The triangle loop from flat position `offset` on: consecutive triples
      of `indices`, each coloured with the stream where the previous
      triangle left it. A missing third vertex or an index past the points
      makes `getCentroid` read a coordinate of `undefined`. */
  function BuildPolys(indices: seq<nat>, offset: nat, scene: Scene, f: ColorFunction, c: bv32): (r: Result<Painted, Error>)
    requires scene.settings.width > 0.0 && scene.settings.height > 0.0
    ensures r.Ok? <==> WellFormed(indices, scene.points)
    ensures r.Ok? ==> |r.value.polys| == |indices| / 3
    ensures r.Err? ==> r.error.MalformedTriangle?
    decreases |indices|
  {
    if indices == [] then Ok(Painted([], c))
    else if !TriangleIn(indices[..if |indices| < 3 then |indices| else 3], scene.points) then
      NotWellFormed(indices, scene.points);
      Err(MalformedTriangle(offset))
    else
      var tri := indices[..3];
      var input := TriangleInput(scene, tri);
      var painted := Apply(f, input, c);
      var rest := BuildPolys(indices[3..], offset + 3, scene, f, painted.state);
      WellFormedSplit(indices, scene.points);
      if rest.Err? then rest.PropagateFailure()
      else Ok(Painted([Poly(tri, input.centroid, painted.color)] + rest.value.polys, rest.value.state))
  }

  lemma NotWellFormed(indices: seq<nat>, points: seq<Point>)
    requires indices != []
    requires !TriangleIn(indices[..if |indices| < 3 then |indices| else 3], points)
    ensures !WellFormed(indices, points)
  {
  }

  lemma WellFormedSplit(indices: seq<nat>, points: seq<Point>)
    requires |indices| >= 3 && TriangleIn(indices[..3], points)
    ensures WellFormed(indices, points) <==> WellFormed(indices[3..], points)
  {
    if WellFormed(indices[3..], points) {
      forall i | 0 <= i < |indices| ensures indices[i] < |points| {
        if i < 3 {
          assert indices[i] == indices[..3][i];
        } else {
          assert indices[i] == indices[3..][i - 3];
        }
      }
    }
  }

  /** The vertex indices of triangle `k`. */
  function TriangleAt(indices: seq<nat>, k: nat): seq<nat>
    requires 3 * k + 3 <= |indices|
  {
    indices[3 * k .. 3 * k + 3]
  }

  /** The draws the colour function makes for the first `k` triangles. */
  function DrawsBefore(indices: seq<nat>, k: nat, scene: Scene, f: ColorFunction): nat
    requires WellFormed(indices, scene.points) && 3 * k <= |indices|
    requires scene.settings.width > 0.0 && scene.settings.height > 0.0
    decreases k
  {
    if k == 0 then 0
    else
      WellFormedTriangle(indices, scene.points, 0);
      WellFormedSplit(indices, scene.points);
      DrawCount(f, TriangleInput(scene, TriangleAt(indices, 0)))
        + DrawsBefore(indices[3..], k - 1, scene, f)
  }

  lemma WellFormedTriangle(indices: seq<nat>, points: seq<Point>, k: nat)
    requires WellFormed(indices, points) && 3 * k + 3 <= |indices|
    ensures TriangleIn(TriangleAt(indices, k), points)
  {
    assert TriangleAt(indices, k)[0] == indices[3 * k];
    assert TriangleAt(indices, k)[1] == indices[3 * k + 1];
    assert TriangleAt(indices, k)[2] == indices[3 * k + 2];
  }

  // ---------------------------------------------------------------------
  // The whole pipeline
  // ---------------------------------------------------------------------

  /** `opts.points ?? getPoints(opts, rand)`: the caller's points when
      given, without a draw; otherwise the jittered grid, or its error. */
  function PatternPoints(s: Settings, a: bv32): (r: Result<seq<Point>, Error>)
    ensures s.points.Some? ==> r == Ok(s.points.value)
    ensures s.points.None? ==>
      var g := GetPoints(s.width, s.height, s.cellSize, s.variance, a);
      && (r.Ok? <==> g.Ok?)
      && (r.Ok? ==> r.value == g.value.points && |r.value| == PointCount(Layout(s.width, s.height, s.cellSize, s.variance)))
      && (r.Err? ==> r.error == InvalidArrayLength)
  {
    if s.points.Some? then Ok(s.points.value)
    else
      var g :- GetPoints(s.width, s.height, s.cellSize, s.variance, a);
      Ok(g.points)
  }

  /** `trianglify(_opts)`. `entropy` and `colorEntropy` are the strings the
      two `mulberry32` calls make from `Math.random()` when there is no seed;
      `triangulate` is `Delaunator.from(points).triangles`. The pattern
      keeps the resolved options it was made with. */
  function Generate(u: UserOptions, defaultPalette: Palette, entropy: CodeUnits, colorEntropy: CodeUnits,
                    triangulate: seq<Point> -> seq<nat>): (r: Result<Pattern, Error>)
    ensures Resolve(u, defaultPalette).Err? ==> r.Err? && r.error == Resolve(u, defaultPalette).error
    ensures r.Ok? ==> Resolve(u, defaultPalette).Ok? && r.value.opts == Resolve(u, defaultPalette).value
    ensures r.Ok? ==> WellFormed(triangulate(r.value.points), r.value.points)
                      && |r.value.polys| == |triangulate(r.value.points)| / 3
    ensures r.Ok? <==>
      && Resolve(u, defaultPalette).Ok?
      && var opts := Resolve(u, defaultPalette).value;
         var seed := opts.settings.seed;
         Build(opts, InitialState(seed, entropy), InitialState(ColorSeed(seed), colorEntropy), triangulate).Ok?
  {
    var opts :- Resolve(u, defaultPalette);
    var seed := opts.settings.seed;
    Build(opts, InitialState(seed, entropy), InitialState(ColorSeed(seed), colorEntropy), triangulate)
  }

  /** Everything after the option checks, given the pattern stream's
      starting state `rand` and the colour stream's `cRand`. */
  function Build(opts: Options, rand: bv32, cRand: bv32, triangulate: seq<Point> -> seq<nat>): (r: Result<Pattern, Error>)
    requires opts.settings.width > 0.0 && opts.settings.height > 0.0
    ensures r.Ok? ==> r.value.opts == opts
    ensures r.Ok? ==> WellFormed(triangulate(r.value.points), r.value.points)
                      && |r.value.polys| == |triangulate(r.value.points)| / 3
    ensures var colors := ResolveColors(opts.settings, rand);
      colors.Err? ==> r == colors.PropagateFailure()
    ensures var colors := ResolveColors(opts.settings, rand);
      colors.Ok? ==>
        var points := PatternPoints(opts.settings, colors.value.state);
        && (points.Err? ==> r == points.PropagateFailure())
        && (points.Ok? ==> (r.Ok? <==> WellFormed(triangulate(points.value), points.value)))
        && (points.Ok? && r.Ok? ==> r.value.points == points.value)
        && (points.Ok? && r.Err? ==> r.error.MalformedTriangle?)
  {
    var s := opts.settings;
    var colors :- ResolveColors(s, rand);
    var scene0 := Scene([], s, Scale(colors.x, s.colorSpace), Scale(colors.y, s.colorSpace));
    var points :- PatternPoints(s, colors.state);
    var scene := scene0.(points := points);
    var painted :- BuildPolys(triangulate(points), 0, scene, opts.colorFunction, cRand);
    Ok(Pattern(points, painted.polys, opts))
  }

  // ---------------------------------------------------------------------
  // Properties
  // ---------------------------------------------------------------------

  /** A well-formed triangulation is coloured without error, and the
      colour stream ends advanced by the draws of all triangles. */
  lemma {:induction false} BuildPolysState(indices: seq<nat>, offset: nat, scene: Scene, f: ColorFunction, c: bv32)
    requires scene.settings.width > 0.0 && scene.settings.height > 0.0
    requires WellFormed(indices, scene.points)
    ensures var r := BuildPolys(indices, offset, scene, f, c);
      r.Ok? && r.value.state == Advance(c, DrawsBefore(indices, |indices| / 3, scene, f))
    decreases |indices|
  {
    if indices != [] {
      BuildPolysCons(indices, offset, scene, f, c);
      assert TriangleAt(indices, 0) == indices[..3];
      var painted := Apply(f, TriangleInput(scene, indices[..3]), c);
      BuildPolysState(indices[3..], offset + 3, scene, f, painted.state);
      assert |indices[3..]| / 3 == |indices| / 3 - 1;
      DrawsBeforeStep(indices, |indices| / 3, scene, f, c);
    }
  }

  /** Triangle `k` has the vertex indices at flat positions `3k` to `3k + 2`,
      its centroid is that of those points, and it is coloured with the
      colour stream advanced by the draws of all earlier triangles: one
      stream, shared by the triangles in order and never reset. */
  lemma {:induction false} BuildPolysPoly(indices: seq<nat>, offset: nat, scene: Scene, f: ColorFunction, c: bv32, k: nat)
    requires scene.settings.width > 0.0 && scene.settings.height > 0.0
    requires WellFormed(indices, scene.points)
    requires 3 * k + 3 <= |indices|
    ensures BuildPolys(indices, offset, scene, f, c).Ok?
    ensures BuildPolys(indices, offset, scene, f, c).value.polys[k] == PolyAt(indices, k, scene, f, c)
    decreases k, 1
  {
    if k == 0 {
      BuildPolysCons(indices, offset, scene, f, c);
      PolyAtFirst(indices, scene, f, c);
    } else {
      PolyStep(indices, offset, scene, f, c, k);
    }
  }

  /** The step of `BuildPolysPoly`: triangle `k` of the list is triangle
      `k - 1` of the rest, coloured from where the first triangle left the
      stream. */
  lemma {:induction false} PolyStep(indices: seq<nat>, offset: nat, scene: Scene, f: ColorFunction, c: bv32, k: nat)
    requires scene.settings.width > 0.0 && scene.settings.height > 0.0
    requires WellFormed(indices, scene.points) && 3 * k + 3 <= |indices| && k > 0
    ensures BuildPolys(indices, offset, scene, f, c).Ok?
    ensures BuildPolys(indices, offset, scene, f, c).value.polys[k] == PolyAt(indices, k, scene, f, c)
    decreases k, 0
  {
    WellFormedTriangle(indices, scene.points, 0);
    WellFormedSplit(indices, scene.points);
    assert TriangleAt(indices, 0) == indices[..3];
    var painted := Apply(f, TriangleInput(scene, indices[..3]), c);
    BuildPolysPoly(indices[3..], offset + 3, scene, f, painted.state, k - 1);
    PolyOfRest(indices, offset, scene, f, c, k);
    PolyAtShift(indices, k, scene, f, c);
  }

  /** Polygon `k` of the loop is polygon `k - 1` of the loop on the rest. */
  lemma PolyOfRest(indices: seq<nat>, offset: nat, scene: Scene, f: ColorFunction, c: bv32, k: nat)
    requires scene.settings.width > 0.0 && scene.settings.height > 0.0
    requires WellFormed(indices, scene.points) && 3 * k + 3 <= |indices| && k > 0
    requires TriangleIn(indices[..3], scene.points) && WellFormed(indices[3..], scene.points)
    ensures var rest := BuildPolys(indices[3..], offset + 3, scene, f, Apply(f, TriangleInput(scene, indices[..3]), c).state);
      && BuildPolys(indices, offset, scene, f, c).Ok? && rest.Ok?
      && BuildPolys(indices, offset, scene, f, c).value.polys[k] == rest.value.polys[k - 1]
  {
    BuildPolysCons(indices, offset, scene, f, c);
  }


  /** The first triangle is coloured from the stream as it starts. */
  lemma PolyAtFirst(indices: seq<nat>, scene: Scene, f: ColorFunction, c: bv32)
    requires WellFormed(indices, scene.points) && 3 <= |indices|
    requires scene.settings.width > 0.0 && scene.settings.height > 0.0
    ensures TriangleIn(indices[..3], scene.points)
    ensures var input := TriangleInput(scene, indices[..3]);
      PolyAt(indices, 0, scene, f, c) == Poly(indices[..3], input.centroid, Apply(f, input, c).color)
  {
    WellFormedTriangle(indices, scene.points, 0);
    assert TriangleAt(indices, 0) == indices[..3];
    assert DrawsBefore(indices, 0, scene, f) == 0;
    assert Advance(c, 0) == c;
  }

  /** One turn of the loop: the first triangle's polygon, then the loop on
      the rest from where the first triangle left the colour stream. */
  lemma BuildPolysCons(indices: seq<nat>, offset: nat, scene: Scene, f: ColorFunction, c: bv32)
    requires scene.settings.width > 0.0 && scene.settings.height > 0.0
    requires WellFormed(indices, scene.points) && |indices| >= 3
    ensures TriangleIn(indices[..3], scene.points) && WellFormed(indices[3..], scene.points)
    ensures var input := TriangleInput(scene, indices[..3]);
      var painted := Apply(f, input, c);
      var rest := BuildPolys(indices[3..], offset + 3, scene, f, painted.state);
      && BuildPolys(indices, offset, scene, f, c).Ok?
      && rest.Ok?
      && BuildPolys(indices, offset, scene, f, c).value.polys
         == [Poly(indices[..3], input.centroid, painted.color)] + rest.value.polys
      && BuildPolys(indices, offset, scene, f, c).value.state == rest.value.state
  {
    WellFormedTriangle(indices, scene.points, 0);
    assert TriangleAt(indices, 0) == indices[..3];
    WellFormedSplit(indices, scene.points);
  }

  /** Triangle `k` of a list is triangle `k - 1` of the list without its first
      triangle, coloured from where the first triangle left the stream. */
  lemma PolyAtShift(indices: seq<nat>, k: nat, scene: Scene, f: ColorFunction, c: bv32)
    requires WellFormed(indices, scene.points) && 3 * k + 3 <= |indices| && k > 0
    requires scene.settings.width > 0.0 && scene.settings.height > 0.0
    ensures WellFormed(indices[3..], scene.points)
    ensures TriangleIn(indices[..3], scene.points)
    ensures PolyAt(indices[3..], k - 1, scene, f, Apply(f, TriangleInput(scene, indices[..3]), c).state)
         == PolyAt(indices, k, scene, f, c)
  {
    WellFormedTriangle(indices, scene.points, 0);
    WellFormedSplit(indices, scene.points);
    assert TriangleAt(indices, 0) == indices[..3];
    assert TriangleAt(indices[3..], k - 1) == TriangleAt(indices, k);
    DrawsBeforeStep(indices, k, scene, f, c);
  }

  /** Advancing past the first triangle's draws and then the next `k - 1`
      triangles' is advancing past the first `k` triangles' draws. */
  lemma DrawsBeforeStep(indices: seq<nat>, k: nat, scene: Scene, f: ColorFunction, c: bv32)
    requires WellFormed(indices, scene.points) && 3 * k <= |indices| && k > 0
    requires scene.settings.width > 0.0 && scene.settings.height > 0.0
    ensures WellFormed(indices[3..], scene.points)
    ensures TriangleIn(TriangleAt(indices, 0), scene.points)
    ensures Advance(Apply(f, TriangleInput(scene, TriangleAt(indices, 0)), c).state, DrawsBefore(indices[3..], k - 1, scene, f))
         == Advance(c, DrawsBefore(indices, k, scene, f))
  {
    WellFormedTriangle(indices, scene.points, 0);
    WellFormedSplit(indices, scene.points);
    var d0 := DrawCount(f, TriangleInput(scene, TriangleAt(indices, 0)));
    AdvanceAdd(c, d0, DrawsBefore(indices[3..], k - 1, scene, f));
  }

  /** The polygon triangle `k` becomes, with the colour stream started at
      `c`: a reference definition of the loop. */
  function PolyAt(indices: seq<nat>, k: nat, scene: Scene, f: ColorFunction, c: bv32): Poly
    requires WellFormed(indices, scene.points) && 3 * k + 3 <= |indices|
    requires scene.settings.width > 0.0 && scene.settings.height > 0.0
  {
    WellFormedTriangle(indices, scene.points, k);
    var tri := TriangleAt(indices, k);
    var input := TriangleInput(scene, tri);
    Poly(tri, input.centroid, Apply(f, input, Advance(c, DrawsBefore(indices, k, scene, f))).color)
  }

  /** Every polygon of the reference definition has its three vertex
      indices among the points. */
  lemma PolyAtIn(indices: seq<nat>, k: nat, scene: Scene, f: ColorFunction, c: bv32)
    requires WellFormed(indices, scene.points) && 3 * k + 3 <= |indices|
    requires scene.settings.width > 0.0 && scene.settings.height > 0.0
    ensures TriangleIn(PolyAt(indices, k, scene, f, c).vertexIndices, scene.points)
  {
    WellFormedTriangle(indices, scene.points, k);
  }

  /** Where the points come from: the caller's points when given (no draw);
      otherwise `getPoints` on the pattern stream after exactly the palette
      draws, so the palette picks come first on the same stream. */
  lemma GeneratePoints(u: UserOptions, defaultPalette: Palette, entropy: CodeUnits, colorEntropy: CodeUnits,
                       triangulate: seq<Point> -> seq<nat>)
    requires Generate(u, defaultPalette, entropy, colorEntropy, triangulate).Ok?
    ensures Resolve(u, defaultPalette).Ok?
    ensures var s := Resolve(u, defaultPalette).value.settings;
      var after := Advance(InitialState(s.seed, entropy), PaletteDraws(s));
      var points := Generate(u, defaultPalette, entropy, colorEntropy, triangulate).value.points;
      && (s.points.Some? ==> points == s.points.value)
      && (s.points.None? ==>
            GetPoints(s.width, s.height, s.cellSize, s.variance, after).Ok?
            && points == GetPoints(s.width, s.height, s.cellSize, s.variance, after).value.points)
  {
    var opts := Resolve(u, defaultPalette).value;
    var seed := opts.settings.seed;
    var a := InitialState(seed, entropy);
    assert Generate(u, defaultPalette, entropy, colorEntropy, triangulate)
        == Build(opts, a, InitialState(ColorSeed(seed), colorEntropy), triangulate);
    BuildPointsOf(opts, a, InitialState(ColorSeed(seed), colorEntropy), triangulate);
  }

  /** `GeneratePoints` for given starting states. */
  lemma BuildPointsOf(opts: Options, rand: bv32, cRand: bv32, triangulate: seq<Point> -> seq<nat>)
    requires opts.settings.width > 0.0 && opts.settings.height > 0.0
    requires Build(opts, rand, cRand, triangulate).Ok?
    ensures var s := opts.settings;
      var after := Advance(rand, PaletteDraws(s));
      var points := Build(opts, rand, cRand, triangulate).value.points;
      && (s.points.Some? ==> points == s.points.value)
      && (s.points.None? ==>
            GetPoints(s.width, s.height, s.cellSize, s.variance, after).Ok?
            && points == GetPoints(s.width, s.height, s.cellSize, s.variance, after).value.points)
  {
  }

  /** The polygons: triangle `k` of the triangulation of the points, coloured
      from the colour stream seeded with the salted seed (or the second
      entropy string) after the draws of the triangles before it. */
  lemma GeneratePolys(u: UserOptions, defaultPalette: Palette, entropy: CodeUnits, colorEntropy: CodeUnits,
                      triangulate: seq<Point> -> seq<nat>)
    requires Generate(u, defaultPalette, entropy, colorEntropy, triangulate).Ok?
    ensures Resolve(u, defaultPalette).Ok?
    ensures var opts := Resolve(u, defaultPalette).value;
      var s := opts.settings;
      var p := Generate(u, defaultPalette, entropy, colorEntropy, triangulate).value;
      var indices := triangulate(p.points);
      && ResolveColors(s, InitialState(s.seed, entropy)).Ok?
      && s.width > 0.0 && s.height > 0.0
      && WellFormed(indices, p.points)
      && |p.polys| == |indices| / 3
      && var colors := ResolveColors(s, InitialState(s.seed, entropy)).value;
         var scene := Scene(p.points, s, Scale(colors.x, s.colorSpace), Scale(colors.y, s.colorSpace));
         forall k :: 0 <= k < |p.polys| ==>
           3 * k + 3 <= |indices|
           && p.polys[k] == PolyAt(indices, k, scene, opts.colorFunction, InitialState(ColorSeed(s.seed), colorEntropy))
  {
    var opts := Resolve(u, defaultPalette).value;
    var seed := opts.settings.seed;
    var a := InitialState(seed, entropy);
    var c := InitialState(ColorSeed(seed), colorEntropy);
    assert Generate(u, defaultPalette, entropy, colorEntropy, triangulate) == Build(opts, a, c, triangulate);
    BuildPolysOf(opts, a, c, triangulate);
  }

  /** `GeneratePolys` for given starting states. */
  lemma BuildPolysOf(opts: Options, rand: bv32, cRand: bv32, triangulate: seq<Point> -> seq<nat>)
    requires opts.settings.width > 0.0 && opts.settings.height > 0.0
    requires Build(opts, rand, cRand, triangulate).Ok?
    ensures var s := opts.settings;
      var p := Build(opts, rand, cRand, triangulate).value;
      var indices := triangulate(p.points);
      && ResolveColors(s, rand).Ok?
      && WellFormed(indices, p.points)
      && |p.polys| == |indices| / 3
      && var colors := ResolveColors(s, rand).value;
         var scene := Scene(p.points, s, Scale(colors.x, s.colorSpace), Scale(colors.y, s.colorSpace));
         forall k :: 0 <= k < |p.polys| ==>
           3 * k + 3 <= |indices|
           && p.polys[k] == PolyAt(indices, k, scene, opts.colorFunction, cRand)
  {
    var s := opts.settings;
    var p := Build(opts, rand, cRand, triangulate).value;
    var indices := triangulate(p.points);
    var colors := ResolveColors(s, rand).value;
    var scene := Scene(p.points, s, Scale(colors.x, s.colorSpace), Scale(colors.y, s.colorSpace));
    assert p.polys == BuildPolys(indices, 0, scene, opts.colorFunction, cRand).value.polys;
    forall k | 0 <= k < |p.polys|
      ensures 3 * k + 3 <= |indices|
      ensures p.polys[k] == PolyAt(indices, k, scene, opts.colorFunction, cRand)
    {
      BuildPolysPoly(indices, 0, scene, opts.colorFunction, cRand, k);
    }
  }

  /** With no options at all, and a triangulation that always groups the
      points into whole triangles (as Delaunator's does), a pattern is made:
      the 600 by 400 canvas gives 108 points, and there is one polygon per
      triangle. */
  lemma DefaultOptionsGenerate(defaultPalette: Palette, entropy: CodeUnits, colorEntropy: CodeUnits,
                               triangulate: seq<Point> -> seq<nat>)
    requires forall pts: seq<Point> :: WellFormed(triangulate(pts), pts)
    ensures var u := UserOptions([], None, None, None, None, None, None, None, None, None, None, None, None, None);
      var r := Generate(u, defaultPalette, entropy, colorEntropy, triangulate);
      && r.Ok?
      && |r.value.points| == 108
      && |r.value.polys| == |triangulate(r.value.points)| / 3
  {
    var u := UserOptions([], None, None, None, None, None, None, None, None, None, None, None, None, None);
    EmptyOptionsResolve(defaultPalette);
    var opts := Resolve(u, defaultPalette).value;
    var s := opts.settings;
    var a := InitialState(s.seed, entropy);
    var c := InitialState(ColorSeed(s.seed), colorEntropy);
    assert Generate(u, defaultPalette, entropy, colorEntropy, triangulate) == Build(opts, a, c, triangulate);
    assert ResolveColors(s, a).Ok?;
    var colors := ResolveColors(s, a).value;
    DefaultGridSize();
    assert GetPoints(s.width, s.height, s.cellSize, s.variance, colors.state).Ok?;
    var points := PatternPoints(s, colors.state);
    assert points.Ok? && |points.value| == 108;
    assert WellFormed(triangulate(points.value), points.value);
  }

  /** A seeded pattern does not depend on the entropy strings: the same seed
      gives the same points and polygons. */
  lemma SeededPatternDeterministic(u: UserOptions, defaultPalette: Palette, e1: CodeUnits, c1: CodeUnits,
                                   e2: CodeUnits, c2: CodeUnits, triangulate: seq<Point> -> seq<nat>)
    requires u.seed.Some?
    ensures var r1 := Generate(u, defaultPalette, e1, c1, triangulate);
      var r2 := Generate(u, defaultPalette, e2, c2, triangulate);
      && (r1.Ok? <==> r2.Ok?)
      && (r1.Ok? ==> r1.value.points == r2.value.points && r1.value.polys == r2.value.polys)
      && (r1.Err? ==> r1.error == r2.error)
  {
    var resolved := Resolve(u, defaultPalette);
    if resolved.Ok? {
      var opts := resolved.value;
      var seed := opts.settings.seed;
      assert seed == u.seed;
      assert seed.GetOr(e1) == seed.GetOr(e2);
      assert ColorSeed(seed).GetOr(c1) == ColorSeed(seed).GetOr(c2);
      var a := InitialState(seed, e1);
      var c := InitialState(ColorSeed(seed), c1);
      assert a == InitialState(seed, e2);
      assert c == InitialState(ColorSeed(seed), c2);
      assert Generate(u, defaultPalette, e1, c1, triangulate) == Build(opts, a, c, triangulate);
      assert Generate(u, defaultPalette, e2, c2, triangulate) == Build(opts, a, c, triangulate);
    }
  }

  /** Changing the colour function changes neither whether a pattern is made
      nor its points: the geometry comes from a stream the colour function
      never touches. */
  lemma GeometryIndependentOfColorFunction(u: UserOptions, f: ColorFunction, defaultPalette: Palette,
                                           entropy: CodeUnits, colorEntropy: CodeUnits,
                                           triangulate: seq<Point> -> seq<nat>)
    ensures var r1 := Generate(u, defaultPalette, entropy, colorEntropy, triangulate);
      var r2 := Generate(u.(colorFunction := Some(f)), defaultPalette, entropy, colorEntropy, triangulate);
      && (r1.Ok? <==> r2.Ok?)
      && (r1.Ok? ==> r1.value.points == r2.value.points && |r1.value.polys| == |r2.value.polys|)
  {
    var u' := u.(colorFunction := Some(f));
    assert Merge(u', defaultPalette).settings == Merge(u, defaultPalette).settings;
    var resolved := Resolve(u, defaultPalette);
    var resolved' := Resolve(u', defaultPalette);
    assert resolved.Ok? <==> resolved'.Ok?;
    if resolved.Ok? {
      var opts := resolved.value;
      var opts' := resolved'.value;
      var seed := opts.settings.seed;
      var a := InitialState(seed, entropy);
      var c := InitialState(ColorSeed(seed), colorEntropy);
      assert Generate(u, defaultPalette, entropy, colorEntropy, triangulate) == Build(opts, a, c, triangulate);
      assert Generate(u', defaultPalette, entropy, colorEntropy, triangulate) == Build(opts', a, c, triangulate);
      BuildGeometry(opts, opts', a, c, triangulate);
    }
  }

  /** `Build` takes its geometry from the settings and the pattern stream
      alone. */
  lemma BuildGeometry(o1: Options, o2: Options, rand: bv32, cRand: bv32, triangulate: seq<Point> -> seq<nat>)
    requires o1.settings == o2.settings
    requires o1.settings.width > 0.0 && o1.settings.height > 0.0
    ensures var r1 := Build(o1, rand, cRand, triangulate);
      var r2 := Build(o2, rand, cRand, triangulate);
      && (r1.Ok? <==> r2.Ok?)
      && (r1.Ok? ==> r1.value.points == r2.value.points && |r1.value.polys| == |r2.value.polys|)
  {
  }
}

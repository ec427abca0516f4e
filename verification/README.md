# Trianglify core in Dafny

This project models the core of Trianglify, a library that generates
low-poly triangle patterns. The core covers:

- the seeded random number generator: the `xmur3` string hash feeding the
  `mulberry32` generator;
- option validation and defaults;
- palette and colour-option resolution, including the random palette pick;
- the jittered point grid (`getPoints`);
- the loop that turns triangulation indices into coloured polygons with
  centroids;
- the three built-in colour functions;
- the geometry helpers;
- the serialisation of a pattern to a tree of minimal XML nodes (`sNode`)
  and its rendering to SVG text.

| module | file | models |
|---|---|---|
| `Wrappers` | `wrappers.dfy` | `Option` (JavaScript `undefined`/`null`) and `Result` (a thrown error) |
| `Mulberry32` | `mulberry32.dfy` | `xmur3` and `mulberry32` on `bv32`, with the generator state threaded explicitly |
| `Geom` | `geom.dfy` | `getCentroid`, `getTopmostVertexIndex` |
| `Chroma` | `chroma.dfy` | colour values as an uninterpreted term algebra (scale samples, mixes, darkening) |
| `Settings` | `settings.dfy` | the resolved option record, palettes, colour options, error values |
| `ColorFunctions` | `color_functions.dfy` | `interpolateLinear`, `sparkle`, `shadows`, and user colour functions |
| `Options` | `options.dfy` | `defaultOptions`, the unknown-key check, the merge, the size checks, `randomFromPalette`, `processColorOpts` |
| `Grid` | `grid.dfy` | `getPoints` |
| `Trianglify` | `trianglify.dfy` | `trianglify()`: the pipeline and the polygon loop |
| `PatternSvg` | `pattern_svg.dfy` | `serializeAttrs`, `sNode`, `Pattern.toSVGTree`, the non-browser `toSVG` |

The model rests on a few modelling choices:

- **Random draws.** A random draw is a pure function from a 32-bit state to
  a value and the next state. `Stream(a, n)` is the list of the next `n`
  values.
- **Two streams.** Points and palette picks come from one stream. Colours
  come from a second stream, seeded with the seed followed by `"42"`.
- **Where the properties live.** Most properties say which stream value
  each part of the pattern consumes. The rest give bounds on, or
  structural facts about, what is computed from those values.
- **Numbers.** JavaScript numbers are exact reals. 32-bit integer
  operations are `bv32`. `Math.floor(i / colCount)` is floor on real
  division.
- **Strings.** A string is its UTF-16 code units as `seq<bv16>`, where the
  hash reads it, and `seq<char>` elsewhere.

## Model

| member | source | states |
|---|---|---|
| `Mulberry32.Xmur3` | src/utils/mulberry32.ts:26-39 | the hash of any string is an unsigned 32-bit value, the word the hash loop and the avalanche finaliser leave |
| `Mulberry32.Xmur3Abc` | src/utils/mulberry32.ts:26-39 | the first hash output for "abc" is 0x6add916e |
| `Mulberry32.Xmur3Empty` | src/utils/mulberry32.ts:26-39 | the first hash output for the empty string is 0x09f45f69 |
| `Mulberry32.InitialState` | src/utils/mulberry32.ts:10-15 | the generator starts from the hash of the seed when there is one and of the entropy string otherwise |
| `Mulberry32.Next` | src/utils/mulberry32.ts:17-23 | one call advances the state by 0x6D2B79F5 modulo 2^32 and returns a value in [0, 1) computed from the new state only |
| `Mulberry32.OutputExample` | src/utils/mulberry32.ts:20-22 | the output mix turns the state 0xd8090b63 into the word 0xe2f7cbf5 |
| `Mulberry32.ToUnit` | src/utils/mulberry32.ts:22 | the unsigned 32-bit word divided by 2^32 is in [0, 1), and scaling it back by 2^32 recovers the word |
| `Mulberry32.RotL13Bijective` | src/utils/mulberry32.ts:31 | the shift-or step of the hash loop is a rotation left by 13, and the rotation right by 13 undoes it |
| `Mulberry32.FoldAppend` | src/utils/mulberry32.ts:29-32 | the hash loop over a concatenation continues from where the loop over the first part stopped |
| `Mulberry32.AdvanceAdd` | src/utils/mulberry32.ts:17-23 | m calls followed by n calls leave the same state as m + n calls |
| `Mulberry32.StreamAppend` | src/utils/mulberry32.ts:17-23 | the values of m + n calls are those of the first m calls followed by those of the next n |
| `Mulberry32.StreamIndex` | src/utils/mulberry32.ts:17-23 | the k-th value of a stream is one call made after k earlier calls |
| `Mulberry32.StreamInUnitInterval` | src/utils/mulberry32.ts:6 | every generated value is in [0, 1); 1 is never produced, which is tighter than the usage comment's [0, 1] |
| `Mulberry32.SeededStreamDeterministic` | src/utils/mulberry32.ts:10-15 | given a seed, the stream does not depend on the entropy fallback; seeds whose hash loops agree give the same stream |
| `Mulberry32.CenteredBounds` | src/utils/colorFunctions.ts:28 | `(r - 0.5) * spread` lies in [-spread/2, spread/2); it is exactly 0 for a zero spread |
| `Geom.Centroid` | src/utils/geom.ts:9-14 | the centroid lies inside the triangle's bounding box |
| `Geom.CentroidIsMean` | src/utils/geom.ts:11-12 | each centroid coordinate is one third of the sum of the vertex coordinates |
| `Geom.CentroidPermutationInvariant` | src/utils/geom.ts:9-14 | reordering the vertices does not move the centroid |
| `Geom.CentroidTranslation` | src/utils/geom.ts:9-14 | translating the triangle translates its centroid by the same offset |
| `Geom.TopmostVertexIndex` | src/utils/geom.ts:16-24 | no index for an empty list; otherwise an index from the list whose point has the least y, taking the earliest on ties |
| `Geom.ReduceTopmostCorrect` | src/utils/geom.ts:20-23 | the reduce step keeps the invariant "topmost of the prefix seen so far, earliest on ties" |
| `ColorFunctions.Apply` | src/utils/colorFunctions.ts:20-43 | a call consumes exactly its draw count (0, 2, 1, or what a user function declares); a built-in's colour mixes an x-scale sample with a y-scale sample in the pattern's colour space, with the bias (or 0.5) as weight, darkened only by `shadows`, and sampled at the exact percentages except under `sparkle` |
| `ColorFunctions.InterpolateLinearWith` | src/utils/colorFunctions.ts:20 | `interpolateLinear(bias)` uses the given bias, or 0.5 when none is given |
| `ColorFunctions.SparkleWith` | src/utils/colorFunctions.ts:26 | `sparkle(jitterFactor)` uses the given jitter factor, or 0.15 when none is given |
| `ColorFunctions.ShadowsWith` | src/utils/colorFunctions.ts:37 | `shadows(shadowIntensity)` uses the given intensity, or 0.8 when none is given |
| `ColorFunctions.FactoryDefaults` | src/utils/colorFunctions.ts:20-43 | omitting a factory argument is passing its default; `interpolateLinear` draws nothing, `sparkle` two values and `shadows` one |
| `ColorFunctions.SparkleDraws` | src/utils/colorFunctions.ts:26-32 | `sparkle` uses the next two values of the colour stream, the first for x and the second for y |
| `ColorFunctions.ShadowsDraws` | src/utils/colorFunctions.ts:37-43 | `shadows` uses the next value of the colour stream for the darkening amount |
| `ColorFunctions.SparkleJitterBounds` | src/utils/colorFunctions.ts:28-30 | each sampled position moves by at least -jitterFactor/2 and by less than jitterFactor/2, without clamping |
| `ColorFunctions.ShadowsAmountBounds` | src/utils/colorFunctions.ts:42 | the darkening amount lies in [0, shadowIntensity), and is 0 for a zero intensity |
| `ColorFunctions.SparkleWithoutJitter` | src/utils/colorFunctions.ts:20-32 | `sparkle(0)` gives the colour of `interpolateLinear(0.5)` but still consumes two draws |
| `ColorFunctions.BuiltinColorDependsOnlyOnDraws` | src/utils/colorFunctions.ts:20-43 | two states that yield the same draws yield the same built-in colour |
| `Options.FirstUnknownKey` | src/trianglify.ts:86-90 | no key is reported iff every key is an option name; a reported key occurs in the list and is not an option name |
| `Options.Defaults` | src/trianglify.ts:62-76 | the defaults: a 600 by 400 canvas, cell size 75, variance 0.75, no seed and no points, random x colours matched by y, the Lab colour space, `interpolateLinear(0.5)`, fill on, stroke width 0 |
| `Options.Merge` | src/trianglify.ts:91 | each option the caller gives wins, and each one left out takes its default |
| `Options.MergeExplicit` | src/trianglify.ts:91 | giving every option explicitly yields exactly those options: the defaults play no part |
| `Options.MergeOneOption` | src/trianglify.ts:91 | giving only the variance, or only `fill`, changes that setting and nothing else |
| `Options.Resolve` | src/trianglify.ts:86-98 | an unknown key is reported first, then a non-positive height, then a non-positive width; success iff there is no unknown key and both sizes are positive, and the options are then the merge of the caller's over the defaults |
| `Options.EmptyOptionsResolve` | src/trianglify.ts:62-76 | no options resolve to the defaults: a 600 by 400 pattern with cell size 75, variance 0.75, fill on and `interpolateLinear(0.5)` |
| `Options.UnknownKeyBeforeSizes` | src/trianglify.ts:86-98 | an unknown key is reported even when the height and width are invalid too |
| `Options.Lookup` | src/trianglify.ts:118-119 | a palette lookup finds nothing iff no entry has the key; what it finds is stored under that key |
| `Options.LookupDistinct` | src/trianglify.ts:108 | with distinct keys, looking up the i-th key returns the i-th list |
| `Options.RandomFromPalette` | src/trianglify.ts:103-109 | picking from the palette consumes exactly one value of the pattern stream |
| `Options.RandomFromPaletteDraw` | src/trianglify.ts:103-109 | the pick is determined by the next value of the pattern stream |
| `Options.PickIndexInRange` | src/trianglify.ts:105 | `Math.floor(r * n)` is a valid index for r in [0, 1) and n > 0 |
| `Options.PickFromPalette` | src/trianglify.ts:103-109 | an empty palette yields `undefined`; otherwise the entry at index floor(r * size) (for an object palette, the list under the key at that position) |
| `Options.ProcessColorOpt` | src/trianglify.ts:114-125 | an explicit list is returned as is; a palette key returns its list without drawing; otherwise 'random' is the palette pick made from the next value of the stream; any other name fails with an unrecognized-colour-option error naming it |
| `Options.PaletteKeyBeforeRandom` | src/trianglify.ts:118-121 | a palette entry named "random" wins over the 'random' keyword, and no value is drawn |
| `Options.ArrayPaletteHasNoKeys` | src/trianglify.ts:118 | an array palette never matches a name, so a name other than 'random' fails |
| `Options.ResolveColors` | src/trianglify.ts:127-130 | the x colours are the x option resolved on the given stream; 'match' gives the y colours equal to the x colours, otherwise the y option is resolved on the stream the x option left; an x error is reported before a y error; total draws are the palette draws of the options |
| `Options.RandomColorsDraws` | src/trianglify.ts:103-130 | with 'random' for both axes the x colours are picked with the first value of the stream and the y colours with the second |
| `Grid.Layout` | src/trianglify.ts:192-203 | four more columns and rows than whole cells fit on the canvas; the first and last column centres sit symmetrically about the canvas middle, and so do the rows; a positive cell size leaves more than one and a half and at most two cells of bleed on each side |
| `Grid.PointsFrom` | src/trianglify.ts:210-219 | mapping over points i..n-1 gives n - i points and consumes two values each |
| `Grid.GetPoints` | src/trianglify.ts:189-222 | fails iff the cell size is 0 or the point count is not a valid array length; otherwise gives exactly colCount * rowCount points and consumes two values per point |
| `Grid.PointsFromStream` | src/trianglify.ts:210-219 | point i + j is made from stream values 2j (x) and 2j + 1 (y) |
| `Grid.GetPointsDraws` | src/trianglify.ts:204-219 | point k is lattice point k jittered by stream values 2k and 2k + 1 |
| `Grid.RowMajor` | src/trianglify.ts:211-212 | point i lies in column i mod colCount and row i div colCount, in row-major order |
| `Grid.FloorOfQuotient` | src/trianglify.ts:212 | floor of the real quotient equals integer division for a positive divisor |
| `Grid.JitterBounds` | src/trianglify.ts:203-204 | each coordinate stays within half the cell jitter of its lattice position |
| `Grid.NoVarianceExactLattice` | src/trianglify.ts:203-219 | with zero variance every point is exactly its lattice position |
| `Grid.DefaultGridSize` | src/trianglify.ts:194-206 | the default 600 by 400 canvas with 75-pixel cells is a 12 by 9 grid of 108 points |
| `Trianglify.Clamp01` | src/trianglify.ts:161 | the result is in [0, 1]: the identity inside, 0 below and 1 above |
| `Trianglify.ColorSeed` | src/trianglify.ts:145-146 | a seed is salted by appending the characters "42"; no seed stays no seed |
| `Trianglify.TriangleInput` | src/trianglify.ts:151-177 | the colour function sees the triangle's indices, its vertices and their centroid, and percentages in [0, 1]: the exact fractions of the canvas when the centroid is inside it, 0 below it and 1 beyond it. It also sees the pattern's x scale as `xScale` and its y scale as `yScale`, all of the pattern's points, and the pattern's options |
| `Trianglify.BuildPolys` | src/trianglify.ts:149-184 | the loop succeeds iff the index list has a length divisible by 3 and only in-range indices; it then makes one polygon per triangle |
| `Trianglify.BuildPolysState` | src/trianglify.ts:149-184 | after the loop the colour stream is advanced by the sum of all triangles' draw counts |
| `Trianglify.BuildPolysPoly` | src/trianglify.ts:149-184 | polygon k has the indices at flat positions 3k..3k+2 and their centroid, and is coloured from the colour stream after the draws of polygons 0..k-1 |
| `Trianglify.PatternPoints` | src/trianglify.ts:137 | the caller's points are used as given; otherwise the points are those of `getPoints`, and its error is the pipeline's |
| `Trianglify.Generate` | src/trianglify.ts:85-187 | option errors pass through unchanged; a pattern is made iff the options resolve and the rest of the pipeline succeeds on the two seeded streams; a pattern keeps the resolved options; its triangulation is well formed and gives one polygon per three indices |
| `Trianglify.Build` | src/trianglify.ts:101-186 | a colour-option error is the result's error; after that, a `getPoints` error is. With both stages passed, a pattern is made iff the triangulation of the points is well formed, and otherwise the error is a malformed triangle. A pattern has those points, keeps its options, and has one polygon per three indices |
| `Trianglify.GeneratePoints` | src/trianglify.ts:101-137 | supplied points are used as is; otherwise the points come from the pattern stream right after the palette draws |
| `Trianglify.DefaultOptionsGenerate` | src/trianglify.ts:85-186 | with no options and a triangulation that always gives whole triangles of existing points, a pattern is made, with 108 points and one polygon per triangle |
| `Trianglify.GeneratePolys` | src/trianglify.ts:140-186 | polygon k is the k-th triangle of the triangulation, coloured from the salted colour stream after the earlier triangles' draws |
| `Trianglify.SeededPatternDeterministic` | src/trianglify.ts:101-146 | with a seed, points, polygons and errors do not depend on the entropy strings |
| `Trianglify.GeometryIndependentOfColorFunction` | src/trianglify.ts:143-146 | changing the colour function changes neither whether a pattern is made nor its points, nor its polygon count |
| `Trianglify.BuildGeometry` | src/trianglify.ts:127-140 | options with the same settings give the same points and the same polygon count, whatever their colour functions |
| `PatternSvg.SerializeAttrs` | src/pattern.ts:46-51 | the attribute text is empty iff every attribute value is undefined |
| `PatternSvg.Render` | src/pattern.ts:62 | a node's text starts with `<`, its tag name and a space, and ends with `</`, its tag name and `>` |
| `PatternSvg.RenderAll` | src/pattern.ts:62 | the children's text is empty iff there are no children, and otherwise starts with a tag |
| `PatternSvg.SerializeAttrsCons` | src/pattern.ts:46-51 | an undefined attribute contributes nothing; a defined one contributes `key='value'`, followed by one space when more attributes follow |
| `PatternSvg.RenderExample` | src/pattern.ts:46-63 | a node with attributes a='x', b undefined and c=2 renders as `<rect a='x' c='2'></rect>` |
| `PatternSvg.RenderNoChildren` | src/pattern.ts:62 | a missing children array renders like an empty one, as the opening tag with its space directly followed by the closing tag |
| `PatternSvg.RenderAllAppend` | src/pattern.ts:62 | children are written in order: rendering a concatenation concatenates the renderings |
| `PatternSvg.RenderChildren` | src/pattern.ts:62 | a node's text is its opening tag, its first child, the remaining children, then its closing tag |
| `PatternSvg.RoundPoints` | src/pattern.ts:89-93 | negative decimals keep the points; otherwise each coordinate is rounded to floor(decimals) digits; more than 100 digits throws iff there is a point to round |
| `PatternSvg.VertexStrings` | src/pattern.ts:96 | success iff every vertex index names a point; the i-th string is the i-th vertex's `x,y` |
| `PatternSvg.TrianglePath` | src/pattern.ts:96-97 | a triangle's path is `M`, vertex 0, `L`, vertex 1, `L`, vertex 2, `Z` |
| `PatternSvg.PathNode` | src/pattern.ts:95-109 | a path has the attributes d, fill, stroke, stroke-width, stroke-linejoin and shape-rendering in that order; fill and shape-rendering are defined exactly when fill is on, and the three stroke attributes exactly when the stroke width is positive, with the stated values |
| `PatternSvg.Paths` | src/pattern.ts:95-110 | one path per polygon in polygon order; fails iff some polygon's path fails |
| `PatternSvg.ToSvgTree` | src/pattern.ts:76-125 | the root is `svg` with the attributes xmlns, width and height in that order; the namespace is defined iff it is not switched off; it has one child per polygon |
| `PatternSvg.ToSvgTreeOk` | src/pattern.ts:82-110 | the tree is built iff rounding does not throw and every vertex exists; a rounding error takes precedence over a missing vertex |
| `PatternSvg.ToSvgTreeChildren` | src/pattern.ts:89-122 | the children are the polygons' paths over the rounded points, or over the unchanged points when decimals are negative |
| `PatternSvg.ToSvgTreeDefaults` | src/pattern.ts:82-83 | with no options the namespace is present and coordinates are rounded to one decimal |
| `PatternSvg.ToSvg` | src/pattern.ts:129-131 | outside a browser, `toSVG` gives an `svg` root with the pattern's width and height and one child per polygon, and succeeds iff the rounding does not throw and every vertex exists |
| `PatternSvg.ToSvgIgnoresDestination` | src/pattern.ts:131 | the destination element makes no difference outside a browser |
| `PatternSvg.GeneratedVerticesIn` | src/trianglify.ts:149-183 | every polygon of a generated pattern names existing points |
| `PatternSvg.GeneratedPatternRenders` | src/pattern.ts:127 | every generated pattern serialises with the default options, to one path per triangle |

## Left out

- The browser branch of `toSVG` and everything in `sDOM`. They need a DOM; only the non-browser `sNode` path is modelled.
- `src/pattern.js`. It is a separately written, untyped variant of `pattern.ts`: it interpolates values without `String`, joins children with `join('')` and uses `||` where `pattern.ts` uses `??`. Only `pattern.ts` is modelled.
- `debugRender.ts`. It draws the points into a browser SVG element for debugging.
- `getScalingRatio.ts`. It computes a device pixel ratio for canvas rendering, which the SVG path does not use.
- The build and test configuration. It is tooling.
- Number-to-string conversion, `color.css()` and `toFixed`. They are uninterpreted functions in a `Formatter`, because their exact digits depend on IEEE-754 formatting.
- chroma-js. Colours are symbolic terms: a scale sample, a mix or a darkening. The model checks which colours are combined and how, not the resulting RGB values.
- Delaunator. The triangulation is a parameter, `seq<Point> -> seq<nat>`. Its output is checked to be well formed before polygons are built; indices outside the points are reported as an error.
- `Math.random()`. The two fallback seed strings it would produce are the parameters `entropy` and `colorEntropy`.
- The colorbrewer palette data. The default palette is a parameter.
- Floating point. Reals are exact, so rounding, NaN, infinities and signed zero are not modelled. Options are assumed to be numbers, not NaN.
- The extra exports attached to `trianglify` (src/trianglify.ts:225-232). They are packaging.
- Options set explicitly to `undefined`. They are treated as absent. In trianglify, `{...defaults, ...opts}` would then overwrite a default with `undefined`.
- Inherited object properties such as `toString`. They count neither as option names nor as palette keys.
- Object key order. Palette key order is taken as given. JavaScript's integer-keys-first ordering is not modelled.
- The options a custom colour function sees. It receives the resolved options except `colorFunction` itself; this avoids a recursive datatype.
- Custom colour functions. Each declares how many values it draws from the colour stream and receives exactly those values. A function that decides how many to draw from the values it sees is outside the model.
- Mulberry32.AdvanceAdd: the closed form of `n` calls (`a + n * 0x6D2B79F5` modulo 2^32) is not stated. Only the composition law is, because relating an unbounded call count to a 32-bit multiplication needs conversions between `int` and `bv32` that the solver does not handle in reasonable time.
- Mulberry32.Xmur3: it only bounds the result. That the avalanche finaliser is a bijection of 32-bit words is not proved.
- ColorFunctions.SparkleJitterBounds: it is stated for abstract draws in [0, 1). It links to the colour stream through `SparkleDraws` and `StreamInUnitInterval`, to keep the 32-bit arithmetic out of real-valued proofs.
- ColorFunctions.ShadowsAmountBounds: it is stated for abstract draws, for the same reason, and linked to the stream by `ShadowsDraws`.
- Grid.JitterBounds: it is stated for abstract draws in [0, 1). It links to the stream through `GetPointsDraws` and `StreamInUnitInterval`.
- Geom.TopmostVertexIndex: it requires in-range indices. The JavaScript would read a property of `undefined` for an out-of-range index, which a triangulation never produces.

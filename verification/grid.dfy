/**
  `getPoints`: the jittered grid of points a pattern is triangulated from.
  The grid is two cells larger than the canvas on every side and centred on
  it; point `i` sits in column `i % colCount` and row
  `floor(i / colCount)`, moved by two centred draws, x first.
*/
module Grid {

  import opened Wrappers
  import opened Mulberry32
  import opened Geom
  import opened Settings

  /** The largest length `Array(n)` accepts. */
  const MaxArrayLength: int := 0xFFFF_FFFF

  /** The grid's derived quantities. */
  datatype Lattice = Lattice(
    colCount: int,
    rowCount: int,
    cellSize: real,
    bleedX: real,
    bleedY: real,
    cellJitter: real)

  /** The counts, bleeds and jitter `getPoints` computes before the map: four
      more columns and rows than whole cells fit on the canvas, centred on
      it, so a positive cell size leaves between one and a half and two
      cells of bleed on every side. A zero cell size has no lattice: the
      counts become infinite. */
  function Layout(width: real, height: real, cellSize: real, variance: real): (g: Lattice)
    requires cellSize != 0.0
    ensures g.cellSize == cellSize && g.cellJitter == cellSize * variance
    ensures g.colCount == (width / cellSize).Floor + 4 && g.rowCount == (height / cellSize).Floor + 4
    ensures 2.0 * g.bleedX == g.colCount as real * cellSize - width
    ensures 2.0 * g.bleedY == g.rowCount as real * cellSize - height
    ensures ColumnCentre(g, 0) + ColumnCentre(g, g.colCount - 1) == width
    ensures RowCentre(g, 0) + RowCentre(g, g.rowCount - 1) == height
    ensures cellSize > 0.0 ==> 1.5 * cellSize < g.bleedX <= 2.0 * cellSize
    ensures cellSize > 0.0 ==> 1.5 * cellSize < g.bleedY <= 2.0 * cellSize
  {
    var colCount := (width / cellSize).Floor + 4;
    var rowCount := (height / cellSize).Floor + 4;
    var g := Lattice(colCount, rowCount, cellSize,
                     ((colCount as real * cellSize) - width) / 2.0,
                     ((rowCount as real * cellSize) - height) / 2.0,
                     cellSize * variance);
    CentredSpan(g, colCount, width);
    CentredSpan(g, rowCount, height);
    BleedBounds(width, cellSize);
    BleedBounds(height, cellSize);
    g
  }

  /** Columns `0` and `count - 1` of a grid whose bleed is half its overhang
      sit symmetrically about the middle of `side`. */
  lemma CentredSpan(g: Lattice, count: int, side: real)
    ensures var bleed := (count as real * g.cellSize - side) / 2.0;
      (-bleed + 0 as real * g.cellSize + g.cellSize / 2.0)
      + (-bleed + (count - 1) as real * g.cellSize + g.cellSize / 2.0) == side
  {
    assert (count - 1) as real * g.cellSize == count as real * g.cellSize - g.cellSize;
  }

  /** For a positive cell, `floor(side / cell) + 4` cells overhang `side` by more than three cells
      and at most four. */
  lemma BleedBounds(side: real, cellSize: real)
    requires cellSize != 0.0
    ensures var count := (side / cellSize).Floor + 4;
      cellSize > 0.0 ==> 3.0 * cellSize < count as real * cellSize - side <= 4.0 * cellSize
  {
    if cellSize < 0.0 { return; }
    var x := side / cellSize;
    var f := x.Floor as real;
    assert x * cellSize == side;
    assert f <= x < f + 1.0;
    MulMono(f, x, cellSize);
    MulMonoStrict(x, f + 1.0, cellSize);
    assert ((x.Floor + 4) as real) * cellSize == f * cellSize + 4.0 * cellSize;
  }

  lemma MulMono(a: real, b: real, c: real)
    requires c > 0.0 && a <= b
    ensures a * c <= b * c
  {
  }

  lemma MulMonoStrict(a: real, b: real, c: real)
    requires c > 0.0 && a < b
    ensures a * c < b * c
  {
  }

  /** `i % colCount`. For `i >= 0` JavaScript's truncating remainder and
      Dafny's Euclidean one agree, also for a negative `colCount`. */
  function Col(g: Lattice, i: nat): int
    requires g.colCount != 0
  {
    i % g.colCount
  }

  /** `Math.floor(i / colCount)`, on real division. */
  function Row(g: Lattice, i: nat): int
    requires g.colCount != 0
  {
    ((i as real) / (g.colCount as real)).Floor
  }

  /** The centre of column `col`, before jitter: `-bleedX + col * cellSize +
      cellSize / 2`. */
  function ColumnCentre(g: Lattice, col: int): real {
    -g.bleedX + col as real * g.cellSize + g.cellSize / 2.0
  }

  function RowCentre(g: Lattice, row: int): real {
    -g.bleedY + row as real * g.cellSize + g.cellSize / 2.0
  }

  /** The position of point `i` with no jitter. */
  function Nominal(g: Lattice, i: nat): Point
    requires g.colCount != 0
  {
    Point(ColumnCentre(g, Col(g, i)), RowCentre(g, Row(g, i)))
  }

  /** Point `i` for the draws `rx` (x) and `ry` (y). */
  function JitteredPoint(g: Lattice, i: nat, rx: real, ry: real): Point
    requires g.colCount != 0
  {
    var p := Nominal(g, i);
    Point(p.x + Centered(rx, g.cellJitter), p.y + Centered(ry, g.cellJitter))
  }

  /** Points and the stream state after them. */
  datatype Generated = Generated(points: seq<Point>, state: bv32)

  /** Points `i` to `n - 1`, each made from the next two draws. */
  function PointsFrom(g: Lattice, i: nat, n: nat, a: bv32): (r: Generated)
    requires i <= n && (g.colCount != 0 || i == n)
    ensures |r.points| == n - i
    ensures r.state == Advance(a, 2 * (n - i))
    decreases n - i
  {
    if i == n then Generated([], a)
    else
      var dx := Next(a);
      var dy := Next(dx.state);
      var rest := PointsFrom(g, i + 1, n, dy.state);
      AdvanceAdd(a, 2, 2 * (n - i - 1));
      Generated([JitteredPoint(g, i, dx.value, dy.value)] + rest.points, rest.state)
  }

  /** `colCount * rowCount`, the length `getPoints` asks `Array` for. */
  function PointCount(g: Lattice): int {
    g.colCount * g.rowCount
  }

  /** `getPoints`. `Array(pointCount)` throws a RangeError unless the count
      is a length in [0, 2^32 - 1]. */
  function GetPoints(width: real, height: real, cellSize: real, variance: real, a: bv32): (r: Result<Generated, Error>)
    ensures r.Err? <==> cellSize == 0.0 || !(0 <= PointCount(Layout(width, height, cellSize, variance)) <= MaxArrayLength)
    ensures r.Err? ==> r.error == InvalidArrayLength
    ensures r.Ok? ==>
      var n := PointCount(Layout(width, height, cellSize, variance));
      |r.value.points| == n && r.value.state == Advance(a, 2 * n)
  {
    if cellSize == 0.0 then Err(InvalidArrayLength)
    else
      var g := Layout(width, height, cellSize, variance);
      var n := PointCount(g);
      if n < 0 || n > MaxArrayLength then Err(InvalidArrayLength)
      else Ok(PointsFrom(g, 0, n, a))
  }

  // ---------------------------------------------------------------------
  // Properties
  // ---------------------------------------------------------------------

  /** Point `i + j` is made from draws `2j` (x) and `2j + 1` (y) of the
      stream that starts at point `i`. */
  lemma {:induction false} PointsFromStream(g: Lattice, i: nat, n: nat, a: bv32)
    requires i <= n && (g.colCount != 0 || i == n)
    ensures |Stream(a, 2 * (n - i))| == 2 * (n - i)
    ensures forall j :: 0 <= j < n - i ==>
      PointsFrom(g, i, n, a).points[j]
        == JitteredPoint(g, i + j, Stream(a, 2 * (n - i))[2 * j], Stream(a, 2 * (n - i))[2 * j + 1])
    decreases n - i
  {
    StreamLength(a, 2 * (n - i));
    if i < n {
      var dx := Next(a);
      var dy := Next(dx.state);
      var s := Stream(a, 2 * (n - i));
      var t := Stream(dy.state, 2 * (n - i - 1));
      var ps := PointsFrom(g, i, n, a).points;
      var rest := PointsFrom(g, i + 1, n, dy.state).points;
      PointsFromStream(g, i + 1, n, dy.state);
      StreamPair(a, 2 * (n - i - 1));
      assert s == [dx.value, dy.value] + t;
      assert ps == [JitteredPoint(g, i, dx.value, dy.value)] + rest;
      PairsShift(g, i, ps, rest, s, t);
    }
  }

  /** One point made from the first two draws, followed by points made
      pairwise from the remaining draws, is made pairwise from all draws. */
  lemma PairsShift(g: Lattice, i: nat, ps: seq<Point>, rest: seq<Point>, s: seq<real>, t: seq<real>)
    requires g.colCount != 0
    requires |s| == 2 + |t| && |t| == 2 * |rest| && s[2..] == t
    requires ps == [JitteredPoint(g, i, s[0], s[1])] + rest
    requires forall j :: 0 <= j < |rest| ==> rest[j] == JitteredPoint(g, i + 1 + j, t[2 * j], t[2 * j + 1])
    ensures forall j :: 0 <= j < |ps| ==> ps[j] == JitteredPoint(g, i + j, s[2 * j], s[2 * j + 1])
  {
    forall j | 0 <= j < |ps|
      ensures ps[j] == JitteredPoint(g, i + j, s[2 * j], s[2 * j + 1])
    {
      if j > 0 {
        assert ps[j] == rest[j - 1];
        assert s[2 * j] == t[2 * (j - 1)];
        assert s[2 * j + 1] == t[2 * (j - 1) + 1];
      }
    }
  }

  /** The points of `getPoints` in row-major order, two draws each: point `k`
      is the nominal lattice point `k` moved by draws `2k` and `2k + 1`. */
  lemma GetPointsDraws(width: real, height: real, cellSize: real, variance: real, a: bv32)
    requires GetPoints(width, height, cellSize, variance, a).Ok?
    ensures var g := Layout(width, height, cellSize, variance);
      var n := PointCount(g);
      var s := Stream(a, 2 * n);
      && (g.colCount != 0 || n == 0)
      && |s| == 2 * n
      && forall k :: 0 <= k < n ==>
           GetPoints(width, height, cellSize, variance, a).value.points[k]
             == JitteredPoint(g, k, s[2 * k], s[2 * k + 1])
  {
    var g := Layout(width, height, cellSize, variance);
    PointsFromStream(g, 0, PointCount(g), a);
  }

  /** With a positive column count, point `i` sits in column `i mod colCount`
      and row `i div colCount`: the points run along rows. */
  lemma RowMajor(g: Lattice, i: nat)
    requires g.colCount > 0
    ensures 0 <= Col(g, i) < g.colCount
    ensures Row(g, i) == i / g.colCount
    ensures i == Row(g, i) * g.colCount + Col(g, i)
  {
    FloorOfQuotient(i, g.colCount);
  }

  /** Real division then `floor` is integer division for a positive divisor. */
  lemma FloorOfQuotient(i: nat, c: int)
    requires c > 0
    ensures ((i as real) / (c as real)).Floor == i / c
  {
    var q := i / c;
    assert q * c <= i < (q + 1) * c;
    CastMul(q, c);
    CastMul(q + 1, c);
    DivBounds(i as real, c as real, q as real);
  }

  lemma CastMul(a: int, b: int)
    ensures (a * b) as real == (a as real) * (b as real)
  {
  }

  lemma DivBounds(n: real, c: real, q: real)
    requires c > 0.0 && q * c <= n < (q + 1.0) * c
    ensures q <= n / c < q + 1.0
  {
    var x := n / c;
    assert x * c == n;
    MulCancel(q, x, c);
    MulCancelStrict(x, q + 1.0, c);
  }

  lemma MulCancel(a: real, b: real, c: real)
    requires c > 0.0 && a * c <= b * c
    ensures a <= b
  {
  }

  lemma MulCancelStrict(a: real, b: real, c: real)
    requires c > 0.0 && a * c < b * c
    ensures a < b
  {
  }

  /** For draws in [0, 1), each coordinate is within half the cell jitter
      (`cellSize * variance`, of either sign) of its lattice position. */
  lemma JitterBounds(g: Lattice, i: nat, rx: real, ry: real)
    requires g.colCount != 0
    requires 0.0 <= rx < 1.0 && 0.0 <= ry < 1.0
    ensures var p := JitteredPoint(g, i, rx, ry);
      var q := Nominal(g, i);
      var half := Abs(g.cellJitter) / 2.0;
      -half <= p.x - q.x <= half && -half <= p.y - q.y <= half
  {
    CenteredAbsBounds(rx, g.cellJitter);
    CenteredAbsBounds(ry, g.cellJitter);
  }

  function Abs(x: real): real {
    if x < 0.0 then -x else x
  }

  /** A centred draw is within half the spread of zero whatever the spread's
      sign. */
  lemma CenteredAbsBounds(r: real, spread: real)
    requires 0.0 <= r < 1.0
    ensures -Abs(spread) / 2.0 <= Centered(r, spread) <= Abs(spread) / 2.0
  {
    if spread >= 0.0 {
      CenteredBounds(r, spread);
    } else {
      CenteredBounds(r, -spread);
      assert Centered(r, spread) == -Centered(r, -spread);
    }
  }

  /** With zero variance the points are the lattice itself. */
  lemma NoVarianceExactLattice(width: real, height: real, cellSize: real, a: bv32)
    requires GetPoints(width, height, cellSize, 0.0, a).Ok?
    ensures var g := Layout(width, height, cellSize, 0.0);
      forall k :: 0 <= k < PointCount(g) ==>
        g.colCount != 0 && GetPoints(width, height, cellSize, 0.0, a).value.points[k] == Nominal(g, k)
  {
    var g := Layout(width, height, cellSize, 0.0);
    var s := Stream(a, 2 * PointCount(g));
    GetPointsDraws(width, height, cellSize, 0.0, a);
    forall k | 0 <= k < PointCount(g)
      ensures g.colCount != 0 && GetPoints(width, height, cellSize, 0.0, a).value.points[k] == Nominal(g, k)
    {
      NoJitter(g, k, s[2 * k], s[2 * k + 1]);
    }
  }

  /** A zero cell jitter leaves a point at its lattice position. */
  lemma NoJitter(g: Lattice, i: nat, rx: real, ry: real)
    requires g.colCount != 0 && g.cellJitter == 0.0
    ensures JitteredPoint(g, i, rx, ry) == Nominal(g, i)
  {
  }

  /** The default 600 by 400 canvas with 75-pixel cells is a 12 by 9 grid
      of 108 points. */
  lemma DefaultGridSize()
    ensures var g := Layout(600.0, 400.0, 75.0, 0.75);
      g.colCount == 12 && g.rowCount == 9 && PointCount(g) == 108
  {
    assert (600.0 / 75.0).Floor == 8;
    assert 5.0 <= 400.0 / 75.0 < 6.0;
  }
}

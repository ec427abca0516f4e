/** Geometry helpers: the centroid of a triangle and the topmost vertex of a
    polygon. Coordinates are reals; floating-point rounding is not modelled. */
module Geom {

  import opened Wrappers

  /** A point `[x, y]` in canvas space. It may lie outside the canvas. */
  datatype Point = Point(x: real, y: real)

  function Min3(a: real, b: real, c: real): real {
    if a <= b && a <= c then a else if b <= c then b else c
  }

  function Max3(a: real, b: real, c: real): real {
    if a >= b && a >= c then a else if b >= c then b else c
  }

  /** `getCentroid`: the arithmetic mean of the three vertices. It lies inside
      the axis-aligned bounding box of the triangle. */
  function Centroid(p0: Point, p1: Point, p2: Point): (c: Point)
    ensures Min3(p0.x, p1.x, p2.x) <= c.x <= Max3(p0.x, p1.x, p2.x)
    ensures Min3(p0.y, p1.y, p2.y) <= c.y <= Max3(p0.y, p1.y, p2.y)
  {
    Point((p0.x + p1.x + p2.x) / 3.0, (p0.y + p1.y + p2.y) / 3.0)
  }

  /** The centroid's coordinates are the coordinate sums divided by three. */
  lemma CentroidIsMean(p0: Point, p1: Point, p2: Point)
    ensures 3.0 * Centroid(p0, p1, p2).x == p0.x + p1.x + p2.x
    ensures 3.0 * Centroid(p0, p1, p2).y == p0.y + p1.y + p2.y
  {
  }

  /** The centroid of (0,0), (3,0), (0,3) is (1,1). */
  lemma CentroidExample()
    ensures Centroid(Point(0.0, 0.0), Point(3.0, 0.0), Point(0.0, 3.0)) == Point(1.0, 1.0)
  {
  }

  /** Listing the vertices in another order does not move the centroid: a
      rotation and a swap generate every permutation. */
  lemma CentroidPermutationInvariant(p0: Point, p1: Point, p2: Point)
    ensures Centroid(p0, p1, p2) == Centroid(p1, p2, p0)
    ensures Centroid(p0, p1, p2) == Centroid(p1, p0, p2)
  {
  }

  function Translate(p: Point, dx: real, dy: real): Point {
    Point(p.x + dx, p.y + dy)
  }

  /** Moving the triangle moves its centroid by the same offset. */
  lemma CentroidTranslation(p0: Point, p1: Point, p2: Point, dx: real, dy: real)
    ensures Centroid(Translate(p0, dx, dy), Translate(p1, dx, dy), Translate(p2, dx, dy))
         == Translate(Centroid(p0, p1, p2), dx, dy)
  {
  }

  // ---------------------------------------------------------------------
  // getTopmostVertexIndex
  // ---------------------------------------------------------------------

  predicate IndicesIn(indices: seq<nat>, points: seq<Point>) {
    forall k :: 0 <= k < |indices| ==> indices[k] < |points|
  }

  /** The callback of the `reduce`: keep `topmost` unless `i` lies strictly
      higher (smaller y). */
  function Higher(points: seq<Point>, topmost: nat, i: nat): nat
    requires topmost < |points| && i < |points|
  {
    if points[i].y < points[topmost].y then i else topmost
  }

  /** `indices.reduce(callback, topmost)`, from left to right. */
  function ReduceTopmost(indices: seq<nat>, points: seq<Point>, topmost: nat): nat
    requires IndicesIn(indices, points) && topmost < |points|
    decreases |indices|
  {
    if indices == [] then topmost
    else ReduceTopmost(indices[1..], points, Higher(points, topmost, indices[0]))
  }

  /** `t` is the topmost among `indices[..i]`, taking the earliest position
      on ties: it sits at some position `k < i`, nothing in the prefix is
      strictly higher, and everything before `k` is strictly lower. */
  predicate TopmostOfPrefix(indices: seq<nat>, points: seq<Point>, i: nat, t: nat)
    requires IndicesIn(indices, points) && i <= |indices|
  {
    exists k :: 0 <= k < i && indices[k] == t
      && (forall j :: 0 <= j < i ==> points[t].y <= points[indices[j]].y)
      && (forall j :: 0 <= j < k ==> points[indices[j]].y > points[t].y)
  }

  /** `getTopmostVertexIndex`: the `reduce` starts from the first index, so an
      empty list gives `undefined`; otherwise the result is the first listed
      index whose point has the least y (the comparison is a strict `<`). An
      index outside `points` would make the JavaScript read a property of
      `undefined`; polygon indices are always in range. */
  function TopmostVertexIndex(indices: seq<nat>, points: seq<Point>): (r: Option<nat>)
    requires IndicesIn(indices, points)
    ensures r.Some? <==> |indices| > 0
    ensures r.Some? ==> r.value in indices && TopmostOfPrefix(indices, points, |indices|, r.value)
  {
    if indices == [] then None
    else
      var t := indices[0];
      assert TopmostOfPrefix(indices, points, 1, t) by {
        assert indices[0] == t;
      }
      assert ReduceTopmost(indices, points, t) == ReduceTopmost(indices[1..], points, t);
      ReduceTopmostCorrect(indices, points, 1, t);
      Some(ReduceTopmost(indices, points, t))
  }

  /** Continuing the reduction from a running answer that is topmost of the
      prefix already seen yields the topmost of the whole list. */
  lemma {:induction false} ReduceTopmostCorrect(indices: seq<nat>, points: seq<Point>, i: nat, t: nat)
    requires IndicesIn(indices, points) && i <= |indices| && t < |points|
    requires TopmostOfPrefix(indices, points, i, t)
    ensures IndicesIn(indices[i..], points)
    ensures TopmostOfPrefix(indices, points, |indices|, ReduceTopmost(indices[i..], points, t))
    decreases |indices| - i
  {
    var rest := indices[i..];
    assert IndicesIn(rest, points) by {
      forall k | 0 <= k < |rest| ensures rest[k] < |points| {
        assert rest[k] == indices[i + k];
      }
    }
    if i == |indices| {
      assert rest == [];
    } else {
      var t' := Higher(points, t, indices[i]);
      var k :| 0 <= k < i && indices[k] == t
        && (forall j :: 0 <= j < i ==> points[t].y <= points[indices[j]].y)
        && (forall j :: 0 <= j < k ==> points[indices[j]].y > points[t].y);
      if points[indices[i]].y < points[t].y {
        assert indices[i] == t';
        assert forall j :: 0 <= j < i + 1 ==> points[t'].y <= points[indices[j]].y;
        assert forall j :: 0 <= j < i ==> points[indices[j]].y > points[t'].y;
        assert TopmostOfPrefix(indices, points, i + 1, t');
      } else {
        assert TopmostOfPrefix(indices, points, i + 1, t') by {
          assert indices[k] == t';
        }
      }
      assert rest[0] == indices[i];
      assert rest[1..] == indices[i + 1..];
      ReduceTopmostCorrect(indices, points, i + 1, t');
    }
  }
}

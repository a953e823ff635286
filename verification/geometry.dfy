/**
 Points, polygons and the foreign numeric primitives the needle simulation
 relies on.

 The engine calls shapely's `Polygon.contains`, `math.cos`/`math.sin` and
 numpy's `linalg.norm` of a point difference. None of these is reimplemented:
 they are fields of a `Primitives` record that every operation receives as a
 parameter, so the model is uninterpreted in them. The operations assume
 nothing about them; the path-length lemmas assume the two distance facts of
 `DistanceFacts`, and the whole-episode scenarios state their own hypotheses
 about containment.
 */
module Geometry {

  /** A point in environment coordinates. */
  datatype Point = Point(x: real, y: real)

  /** A polygon given by its ordered vertex list (closed implicitly). */
  type Polygon = seq<Point>

  /** The foreign calls of the engine, left uninterpreted. */
  datatype Primitives = Primitives(
    contains: (Polygon, Point) -> bool,  // shapely Polygon(p).contains(Point(q))
    cos: real -> real,                   // math.cos
    sin: real -> real,                   // math.sin
    dist: (Point, Point) -> real)        // np.linalg.norm(p - q)

  /** A norm is never negative and vanishes on a zero difference. */
  ghost predicate DistanceFacts(prim: Primitives) {
    && (forall p, q :: prim.dist(p, q) >= 0.0)
    && (forall p :: prim.dist(p, p) == 0.0)
  }

  /** The decimal value numpy prints for `np.pi`. */
  const Pi: real := 3.141592653589793

  function Abs(r: real): real {
    if r < 0.0 then -r else r
  }

  /** numpy's `np.sign` on a real: -1, 0 or 1. */
  function Sign(r: real): real {
    if r > 0.0 then 1.0 else if r < 0.0 then -1.0 else 0.0
  }
}

/**
 Gates (class `Gate`): three quadrilaterals — the pass box (`corners`) and the
 top and bottom violation boxes — and a status state machine.
 */
module Gates {
  import opened Geometry

  /**
   Gate status. `Pending` is the `None` status of `Gate`; `NextGate` is `'next_gate'`,
   the one gate currently eligible to be passed.
   */
  datatype Status = Pending | NextGate | Passed | Failed

  /** A gate that has been passed or failed. */
  predicate Resolved(s: Status) {
    s == Passed || s == Failed
  }

  /** A four-vertex polygon, the shape of every gate array. */
  type Quad = q: seq<Point> | |q| == 4
    witness [Point(0.0, 0.0), Point(0.0, 0.0), Point(0.0, 0.0), Point(0.0, 0.0)]

  /**
   A loaded gate: centre `(x, y)`, normalised angle `w`, the violation boxes
   `top` and `bottom`, the pass box `corners` and the status.
   */
  datatype Gate = Gate(x: real, y: real, w: real, top: Quad, bottom: Quad, corners: Quad, status: Status)

  /** A gate as parsed from a level file: `GatePos` and the three corner arrays. */
  datatype RawGate = RawGate(px: real, py: real, pw: real, corners: Quad, top: Quad, bottom: Quad)

  /** The `[2, 3, 0, 1]` vertex reorder, which swaps the front and back pairs. */
  function Reorder(q: Quad): Quad {
    [q[2], q[3], q[0], q[1]]
  }

  /** `np.mean` of the y column of a quad. */
  function MeanY(q: Quad): real {
    (q[0].y + q[1].y + q[2].y + q[3].y) / 4.0
  }

  /** Applying the reorder twice restores the original order. */
  lemma ReorderInvolution(q: Quad)
    ensures Reorder(Reorder(q)) == q
  {
  }

  /** The reorder is a permutation of the vertices, so it keeps the mean y. */
  lemma ReorderKeepsMean(q: Quad)
    ensures MeanY(Reorder(q)) == MeanY(q)
    ensures multiset(Reorder(q)) == multiset(q)
  {
    var front, back := [q[0], q[1]], [q[2], q[3]];
    assert Reorder(q) == back + front;
    assert q == front + back;
    assert multiset(back + front) == multiset(back) + multiset(front);
    assert multiset(front + back) == multiset(front) + multiset(back);
  }

  /** The first correction of `Gate.load`: negate, then add 2 pi if negative. */
  function WrapAngle(w: real): (a: real)
    ensures a == -w || a == -w + 2.0 * Pi
    ensures a == -w + 2.0 * Pi <==> w > 0.0
    ensures -2.0 * Pi < w <= 2.0 * Pi ==> 0.0 <= a < 2.0 * Pi
  {
    var a := -w;
    if a < 0.0 then a + 2.0 * Pi else a
  }

  /** The reorder applied when the wrapped angle exceeds pi, else nothing. */
  function Orient(q: Quad, flip: bool): Quad {
    if flip then Reorder(q) else q
  }

  /**
   The numeric part of `Gate.load`. The centre is scaled by the environment
   size. The angle is wrapped; when it exceeds pi, pi is taken off and all
   three quads get the same reorder; pi / 2 is then taken off. Finally top and
   bottom are exchanged when the top's mean y is below the bottom's, so the
   top box is always the upper one. A loaded gate is pending.
   */
  function LoadGate(envWidth: int, envHeight: int, raw: RawGate): (g: Gate)
    ensures g.status == Pending
    ensures g.x == envWidth as real * raw.px && g.y == envHeight as real * raw.py
    ensures var a := WrapAngle(raw.pw);
            g.w == (if a > Pi then a - Pi else a) - Pi / 2.0
    ensures MeanY(g.top) >= MeanY(g.bottom)
    ensures var flip := WrapAngle(raw.pw) > Pi;
            && g.corners == Orient(raw.corners, flip)
            && (if MeanY(raw.top) < MeanY(raw.bottom)
                then g.top == Orient(raw.bottom, flip) && g.bottom == Orient(raw.top, flip)
                else g.top == Orient(raw.top, flip) && g.bottom == Orient(raw.bottom, flip))
  {
    var a := WrapAngle(raw.pw);
    var flip := a > Pi;
    var w := (if flip then a - Pi else a) - Pi / 2.0;
    var top := Orient(raw.top, flip);
    var bottom := Orient(raw.bottom, flip);
    ReorderKeepsMean(raw.top);
    ReorderKeepsMean(raw.bottom);
    if MeanY(top) < MeanY(bottom) then
      Gate(envWidth as real * raw.px, envHeight as real * raw.py, w, bottom, top, Orient(raw.corners, flip), Pending)
    else
      Gate(envWidth as real * raw.px, envHeight as real * raw.py, w, top, bottom, Orient(raw.corners, flip), Pending)
  }

  /** A raw angle in (-2 pi, 2 pi] ends up in [-pi/2, pi/2] after loading. */
  lemma LoadGateAngleRange(envWidth: int, envHeight: int, raw: RawGate)
    requires -2.0 * Pi < raw.pw <= 2.0 * Pi
    ensures -Pi / 2.0 <= LoadGate(envWidth, envHeight, raw).w <= Pi / 2.0
  {
    var a := WrapAngle(raw.pw);
    assert 0.0 <= a < 2.0 * Pi;
  }

  /** The tip is inside a violation box of `g`. */
  predicate InViolation(prim: Primitives, g: Gate, pos: Point) {
    prim.contains(g.top, pos) || prim.contains(g.bottom, pos)
  }

  /**
   `Gate.update`: a tip in the top or bottom box fails any gate not yet
   passed, and this is checked first, so it wins over a pass; otherwise a tip
   in the pass box passes the gate when it is the next one. Nothing else moves.
   */
  function GateUpdate(prim: Primitives, g: Gate, pos: Point): (r: Gate)
    ensures r == g.(status := r.status)
    ensures g.status != Passed && InViolation(prim, g, pos) ==> r.status == Failed
    ensures g.status == Passed ==> r == g
    ensures g.status == Failed ==> r == g
    ensures r.status == Passed ==> g.status == Passed || g.status == NextGate
    ensures (r.status == Passed && g.status != Passed) <==>
              (g.status == NextGate && prim.contains(g.corners, pos) && !InViolation(prim, g, pos))
    ensures r.status != g.status ==> Resolved(r.status)
    ensures r.status == Failed && g.status != Failed ==> InViolation(prim, g, pos)
    ensures !InViolation(prim, g, pos) && !(g.status == NextGate && prim.contains(g.corners, pos)) ==> r == g
  {
    if g.status != Passed && InViolation(prim, g, pos) then
      g.(status := Failed)
    else if prim.contains(g.corners, pos) && g.status == NextGate then
      g.(status := Passed)
    else
      g
  }

  /** Updating twice at the same position changes nothing more. */
  lemma GateUpdateIdempotent(prim: Primitives, g: Gate, pos: Point)
    ensures GateUpdate(prim, GateUpdate(prim, g, pos), pos) == GateUpdate(prim, g, pos)
  {
  }

  /** Passed and failed are terminal: no position moves a resolved gate. */
  lemma ResolvedIsTerminal(prim: Primitives, g: Gate, pos: Point)
    requires Resolved(g.status)
    ensures GateUpdate(prim, g, pos) == g
  {
  }
}

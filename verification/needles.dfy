/**
 The needle: pose, kinematics and the recorded thread (class `Needle`).
 */
module Needles {
  import opened Geometry

  /**
   Position `(x, y)` in screen coordinates (y grows downward), heading `w` in
   radians, and `thread`, the position recorded after every move.
   */
  datatype Needle = Needle(x: real, y: real, w: real, thread: seq<Point>)

  /**
   Start pose read off saved demonstrations: heading pi, no thread, and the
   tip at (96, 108) in the tissue frame whatever the screen height.
   */
  function NewNeedle(envHeight: int): (n: Needle)
    ensures n.thread == [] && n.w == Pi
    ensures Point(n.x, envHeight as real - n.y) == Point(96.0, 108.0)
  {
    Needle(96.0, envHeight as real - 108.0, Pi, [])
  }

  /**
   The heading change `move` actually applies: out of tissue the requested
   `dw`; in tissue half of it, and when that half exceeds 0.01 in magnitude it
   is replaced by 0.02 with the same sign.
   */
  function AppliedTurn(dw: real, inTissue: bool): (a: real)
    ensures !inTissue ==> a == dw
    ensures inTissue ==> Abs(a) <= 0.02
    ensures inTissue && Abs(dw) <= 0.02 ==> a == dw / 2.0
    ensures inTissue && Abs(dw) > 0.02 ==> Abs(a) == 0.02
    ensures (a > 0.0 <==> dw > 0.0) && (a < 0.0 <==> dw < 0.0)
  {
    if inTissue then
      var half := 0.5 * dw;
      if Abs(half) > 0.01 then 0.02 * Sign(half) else half
    else
      dw
  }

  /**
   `Needle.move`: turn by the applied heading change (the heading is not
   wrapped), step `dX` along the new heading, and append the new position to
   the thread.
   */
  function Move(prim: Primitives, n: Needle, dX: real, dw: real, inTissue: bool): (r: Needle)
    ensures r.w - n.w == AppliedTurn(dw, inTissue)
    ensures r.x == n.x + dX * prim.cos(r.w) && r.y == n.y - dX * prim.sin(r.w)
    ensures dX == 0.0 ==> r.x == n.x && r.y == n.y
    ensures |r.thread| == |n.thread| + 1 && r.thread[..|n.thread|] == n.thread
    ensures r.thread[|n.thread|] == Point(r.x, r.y)
  {
    var w := n.w + AppliedTurn(dw, inTissue);
    var x := n.x + dX * prim.cos(w);
    var y := n.y - dX * prim.sin(w);
    Needle(x, y, w, n.thread + [Point(x, y)])
  }
}

/**
 The simulation driver (class `Environment`): one episode's gates, surfaces,
 needle, clock, total damage and gate cursor, and the per-step update.
 */
module Environment {
  import opened Geometry
  import opened Tissue
  import opened Needles
  import opened Gates

  /** The episode length, `max_time`. */
  const MaxTime: nat := 300

  /** The `next_gate` cursor: the index of the active gate, or `None` (`Exhausted`). */
  datatype Cursor = At(index: nat) | Exhausted

  /** A movement command: forward distance `dX` and heading change `dw`. */
  datatype Action = Action(dX: real, dw: real)

  /** A parsed surface block: corners as authored and the deep-tissue flag. */
  datatype RawSurface = RawSurface(corners: seq<Point>, deep: bool)

  datatype Env = Env(
    width: int,
    height: int,
    gates: seq<Gate>,
    surfaces: seq<Surface>,
    needle: Needle,
    t: nat,
    damage: real,
    nextGate: Cursor)

  /** The needle tip in the tissue frame: `(x, height - y)`. */
  function Tip(env: Env): Point {
    Point(env.needle.x, env.height as real - env.needle.y)
  }

  /** How far the cursor has gone: its index, or the gate count once exhausted. */
  function Rank(c: Cursor, n: nat): nat {
    match c
    case At(k) => k
    case Exhausted => n
  }

  /** The cursor names an existing gate, so indexing with it cannot fail. */
  predicate CursorInRange(gates: seq<Gate>, c: Cursor) {
    c.At? ==> c.index < |gates|
  }

  /**
   The sequential gate discipline: the active gate is `NextGate`, the gates
   before it are resolved and the gates after it are pending; once the cursor
   is exhausted every gate is resolved.
   */
  predicate GateInv(gates: seq<Gate>, c: Cursor) {
    match c
    case At(k) =>
      && k < |gates|
      && gates[k].status == NextGate
      && (forall i :: 0 <= i < k ==> Resolved(gates[i].status))
      && (forall i :: k < i < |gates| ==> gates[i].status == Pending)
    case Exhausted =>
      forall i :: 0 <= i < |gates| ==> Resolved(gates[i].status)
  }

  /** Under the discipline exactly the cursor's gate is `NextGate`. */
  lemma AtMostOneActive(gates: seq<Gate>, c: Cursor)
    requires GateInv(gates, c)
    ensures forall i, j :: 0 <= i < j < |gates| ==>
              !(gates[i].status == NextGate && gates[j].status == NextGate)
    ensures forall i :: 0 <= i < |gates| ==> (gates[i].status == NextGate <==> c == At(i))
  {
  }

  /** `needle_in_tissue`: some surface contains the tip. */
  function InTissue(prim: Primitives, ss: seq<Surface>, tip: Point): (b: bool)
    ensures b <==> exists i :: 0 <= i < |ss| && prim.contains(ss[i].poly, tip)
  {
    if |ss| == 0 then false
    else
      var rest := InTissue(prim, ss[1..], tip);
      assert rest <==> exists i :: 1 <= i < |ss| && prim.contains(ss[i].poly, tip) by {
        forall i | 1 <= i < |ss| ensures ss[1..][i - 1] == ss[i] { }
      }
      prim.contains(ss[0].poly, tip) || rest
  }

  /** `_deep_tissue_intersect`: some deep surface contains the tip. */
  function DeepIntersect(prim: Primitives, ss: seq<Surface>, tip: Point): (b: bool)
    ensures b <==> exists i :: 0 <= i < |ss| && ss[i].deep && prim.contains(ss[i].poly, tip)
  {
    if |ss| == 0 then false
    else if ss[0].deep && prim.contains(ss[0].poly, tip) then true
    else
      var rest := DeepIntersect(prim, ss[1..], tip);
      assert rest <==> exists i :: 1 <= i < |ss| && ss[i].deep && prim.contains(ss[i].poly, tip) by {
        forall i | 1 <= i < |ss| ensures ss[1..][i - 1] == ss[i] { }
      }
      rest
  }

  /** The loop body of `update_damage`: charge every surface that contains the tip. */
  function ChargeSurfaces(prim: Primitives, ss: seq<Surface>, tip: Point, dw: real): (r: seq<Surface>)
    ensures |r| == |ss|
    ensures forall i :: 0 <= i < |ss| ==>
              r[i] == (if prim.contains(ss[i].poly, tip) then CalcDamage(ss[i], dw) else ss[i])
  {
    if |ss| == 0 then []
    else
      var s := if prim.contains(ss[0].poly, tip) then CalcDamage(ss[0], dw) else ss[0];
      var rest := ChargeSurfaces(prim, ss[1..], tip, dw);
      assert forall i :: 1 <= i < |ss| ==> ss[1..][i - 1] == ss[i];
      [s] + rest
  }

  /**
   `update_damage`: every surface whose polygon contains the tip is charged
   with the requested heading change, the others are left alone, and the
   environment's damage becomes the sum over all surfaces.
   */
  function UpdateDamage(prim: Primitives, env: Env, dw: real): (r: Env)
    ensures r == env.(surfaces := r.surfaces, damage := r.damage)
    ensures |r.surfaces| == |env.surfaces|
    ensures r.damage == TotalDamage(r.surfaces)
    ensures forall i :: 0 <= i < |env.surfaces| && !prim.contains(env.surfaces[i].poly, Tip(env)) ==>
              r.surfaces[i] == env.surfaces[i]
    ensures forall i :: 0 <= i < |env.surfaces| && prim.contains(env.surfaces[i].poly, Tip(env)) ==>
              r.surfaces[i] == CalcDamage(env.surfaces[i], dw)
    ensures DamageInRange(env.surfaces) ==>
              && DamageInRange(r.surfaces)
              && (forall i :: 0 <= i < |env.surfaces| ==> env.surfaces[i].damage <= r.surfaces[i].damage)
  {
    var ss := ChargeSurfaces(prim, env.surfaces, Tip(env), dw);
    env.(surfaces := ss, damage := TotalDamage(ss))
  }

  /**
   The gate part of `check_status`: update only the active gate; when it has
   left `NextGate`, advance the cursor by one and make that gate `NextGate`,
   or exhaust the cursor after the last gate.
   */
  function ResolveGates(prim: Primitives, gates: seq<Gate>, c: Cursor, tip: Point): (r: (seq<Gate>, Cursor))
    requires CursorInRange(gates, c)
    ensures |r.0| == |gates| && CursorInRange(r.0, r.1)
    ensures c.Exhausted? ==> r == (gates, c)
    ensures c.At? ==>
              && r.0[c.index] == GateUpdate(prim, gates[c.index], tip)
              && (forall i :: 0 <= i < |gates| && i != c.index && i != c.index + 1 ==> r.0[i] == gates[i])
    ensures c.At? && c.index + 1 < |gates| ==>
              r.0[c.index + 1] == (if r.1 == At(c.index + 1) then gates[c.index + 1].(status := NextGate)
                                   else gates[c.index + 1])
    ensures Rank(c, |gates|) <= Rank(r.1, |gates|) <= Rank(c, |gates|) + 1
    ensures c.At? ==>
              (Rank(r.1, |gates|) == Rank(c, |gates|) + 1 <==>
               GateUpdate(prim, gates[c.index], tip).status != NextGate)
    ensures r.1 == Exhausted ==> c == Exhausted || c == At(|gates| - 1)
  {
    match c
    case Exhausted => (gates, c)
    case At(k) =>
      var gs := gates[k := GateUpdate(prim, gates[k], tip)];
      if gs[k].status != NextGate then
        if k + 1 < |gates| then (gs[k + 1 := gs[k + 1].(status := NextGate)], At(k + 1))
        else (gs, Exhausted)
      else
        (gs, c)
  }

  /** Resolving the active gate keeps the sequential discipline. */
  lemma ResolveGatesKeepsInv(prim: Primitives, gates: seq<Gate>, c: Cursor, tip: Point)
    requires GateInv(gates, c)
    ensures GateInv(ResolveGates(prim, gates, c, tip).0, ResolveGates(prim, gates, c, tip).1)
  {
    if c.At? {
      var k := c.index;
      var g := GateUpdate(prim, gates[k], tip);
      assert g.status != NextGate ==> Resolved(g.status);
    }
  }

  /** The termination test of `check_status`, inclusive at the edges. */
  predicate ValidPosition(env: Env) {
    && 0.0 <= env.needle.x <= env.width as real
    && 0.0 <= env.needle.y <= env.height as real
  }

  /**
   `check_status`: resolve the active gate, then report whether the episode
   may go on: the needle is inside the screen (edges included), no deep
   surface contains the tip, the damage is below 100 and time is left.
   */
  function CheckStatus(prim: Primitives, env: Env): (r: (Env, bool))
    requires CursorInRange(env.gates, env.nextGate)
    ensures r.0 == env.(gates := r.0.gates, nextGate := r.0.nextGate)
    ensures (r.0.gates, r.0.nextGate) == ResolveGates(prim, env.gates, env.nextGate, Tip(env))
    ensures r.1 <==>
              && 0.0 <= env.needle.x <= env.width as real
              && 0.0 <= env.needle.y <= env.height as real
              && (forall i :: 0 <= i < |env.surfaces| && env.surfaces[i].deep ==>
                    !prim.contains(env.surfaces[i].poly, Tip(env)))
              && env.damage < MaxDamage
              && env.t < MaxTime
  {
    var (gates, c) := ResolveGates(prim, env.gates, env.nextGate, Tip(env));
    var validDeep := !DeepIntersect(prim, env.surfaces, Tip(env));
    var validDamage := env.damage < MaxDamage;
    var validTime := env.t < MaxTime;
    (env.(gates := gates, nextGate := c), ValidPosition(env) && validDeep && validTime && validDamage)
  }

  /**
   `step`: test for tissue at the current tip, move the needle, charge the
   surfaces at the new tip with the requested (undamped) turn, check the
   status, then advance the clock by one. The flag is the status test's.
   */
  function Step(prim: Primitives, env: Env, a: Action): (r: (Env, bool))
    requires CursorInRange(env.gates, env.nextGate)
    ensures r.0.t == env.t + 1
    ensures r.0.width == env.width && r.0.height == env.height
    ensures |r.0.gates| == |env.gates| && |r.0.surfaces| == |env.surfaces|
    ensures CursorInRange(r.0.gates, r.0.nextGate)
    ensures r.0.needle == Move(prim, env.needle, a.dX, a.dw, InTissue(prim, env.surfaces, Tip(env)))
    ensures (r.0.gates, r.0.nextGate) == ResolveGates(prim, env.gates, env.nextGate, Tip(r.0))
    ensures r.0.damage == TotalDamage(r.0.surfaces)
    ensures forall i :: 0 <= i < |env.surfaces| ==>
              r.0.surfaces[i] == (if prim.contains(env.surfaces[i].poly, Tip(r.0))
                                  then CalcDamage(env.surfaces[i], a.dw) else env.surfaces[i])
    ensures r.1 <==>
              && 0.0 <= r.0.needle.x <= env.width as real
              && 0.0 <= r.0.needle.y <= env.height as real
              && (forall i :: 0 <= i < |r.0.surfaces| && r.0.surfaces[i].deep ==>
                    !prim.contains(r.0.surfaces[i].poly, Tip(r.0)))
              && r.0.damage < MaxDamage
              && env.t < MaxTime
  {
    var inTissue := InTissue(prim, env.surfaces, Tip(env));
    var moved := env.(needle := Move(prim, env.needle, a.dX, a.dw, inTissue));
    var damaged := UpdateDamage(prim, moved, a.dw);
    var (checked, running) := CheckStatus(prim, damaged);
    (checked.(t := checked.t + 1), running)
  }

  /** What every reachable environment satisfies. */
  predicate EnvInv(env: Env) {
    && GateInv(env.gates, env.nextGate)
    && DamageInRange(env.surfaces)
    && env.damage == TotalDamage(env.surfaces)
  }

  /**
   A step keeps the invariant, never lowers any damage, extends the thread by
   one point, and moves the gate cursor forward by at most one.
   */
  lemma StepKeepsInv(prim: Primitives, env: Env, a: Action)
    requires EnvInv(env)
    ensures var r := Step(prim, env, a).0;
            && EnvInv(r)
            && (forall i :: 0 <= i < |env.surfaces| ==> env.surfaces[i].damage <= r.surfaces[i].damage)
            && env.damage <= r.damage
            && r.needle.thread[..|env.needle.thread|] == env.needle.thread
            && Rank(env.nextGate, |env.gates|) <= Rank(r.nextGate, |r.gates|) <= Rank(env.nextGate, |env.gates|) + 1
  {
    var inTissue := InTissue(prim, env.surfaces, Tip(env));
    var moved := env.(needle := Move(prim, env.needle, a.dX, a.dw, inTissue));
    var damaged := UpdateDamage(prim, moved, a.dw);
    ResolveGatesKeepsInv(prim, damaged.gates, damaged.nextGate, Tip(damaged));
    TotalDamageMonotone(env.surfaces, damaged.surfaces);
  }

  /** Marks the first gate active when there is one (`load`, lines 123-125). */
  function InitCursor(gates: seq<Gate>): (r: (seq<Gate>, Cursor))
    ensures |r.0| == |gates|
    ensures forall i :: 0 <= i < |gates| ==> r.0[i] == gates[i].(status := r.0[i].status)
    ensures r.1 == (if |gates| > 0 then At(0) else Exhausted)
    ensures |gates| > 0 ==> r.0[0] == gates[0].(status := NextGate)
    ensures forall i :: 1 <= i < |gates| ==> r.0[i] == gates[i]
    ensures (forall i :: 0 <= i < |gates| ==> gates[i].status == Pending) ==> GateInv(r.0, r.1)
  {
    if |gates| > 0 then (gates[0 := gates[0].(status := NextGate)], At(0)) else (gates, Exhausted)
  }

  /**
   `reset` followed by `load` on already parsed level data: the gates and
   surfaces as loaded, the first gate active, a fresh needle, no damage and
   the clock at zero.
   */
  function LoadEnv(width: int, height: int, rawGates: seq<RawGate>, rawSurfaces: seq<RawSurface>): (r: Env)
    ensures EnvInv(r)
    ensures r.width == width && r.height == height
    ensures r.t == 0 && r.damage == 0.0 && r.needle == NewNeedle(height)
    ensures |r.gates| == |rawGates| && |r.surfaces| == |rawSurfaces|
    ensures forall i :: 0 <= i < |rawGates| ==>
              r.gates[i] == LoadGate(width, height, rawGates[i]).(status := r.gates[i].status)
    ensures forall i :: 0 <= i < |rawSurfaces| ==>
              r.surfaces[i] == LoadSurface(height, rawSurfaces[i].corners, rawSurfaces[i].deep)
    ensures r.nextGate == (if |rawGates| > 0 then At(0) else Exhausted)
  {
    var loaded := seq(|rawGates|, i requires 0 <= i < |rawGates| => LoadGate(width, height, rawGates[i]));
    var (gates, c) := InitCursor(loaded);
    var surfaces := seq(|rawSurfaces|, i requires 0 <= i < |rawSurfaces| =>
                          LoadSurface(height, rawSurfaces[i].corners, rawSurfaces[i].deep));
    TotalDamageOfFresh(surfaces);
    Env(width, height, gates, surfaces, NewNeedle(height), 0, 0.0, c)
  }

  /** Replays a sequence of commands, as a demonstration playback does. */
  function Run(prim: Primitives, env: Env, actions: seq<Action>): (r: Env)
    requires CursorInRange(env.gates, env.nextGate)
    ensures r.t == env.t + |actions|
    ensures r.width == env.width && r.height == env.height
    ensures |r.gates| == |env.gates| && |r.surfaces| == |env.surfaces|
    ensures |r.needle.thread| == |env.needle.thread| + |actions|
    ensures CursorInRange(r.gates, r.nextGate)
    decreases |actions|
  {
    if |actions| == 0 then env
    else Run(prim, Step(prim, env, actions[0]).0, actions[1..])
  }

  /**
   Over a whole replay the invariant holds, damage never decreases, the
   thread only grows and the gate cursor never moves back.
   */
  lemma {:induction false} RunKeepsInv(prim: Primitives, env: Env, actions: seq<Action>)
    requires EnvInv(env)
    ensures var r := Run(prim, env, actions);
            && EnvInv(r)
            && env.damage <= r.damage
            && r.needle.thread[..|env.needle.thread|] == env.needle.thread
            && Rank(env.nextGate, |env.gates|) <= Rank(r.nextGate, |r.gates|)
    decreases |actions|
  {
    if |actions| > 0 {
      var next := Step(prim, env, actions[0]).0;
      StepKeepsInv(prim, env, actions[0]);
      RunKeepsInv(prim, next, actions[1..]);
      var r := Run(prim, next, actions[1..]);
      assert r.needle.thread[..|next.needle.thread|] == next.needle.thread;
      assert r.needle.thread[..|env.needle.thread|] == next.needle.thread[..|env.needle.thread|];
    }
  }
}

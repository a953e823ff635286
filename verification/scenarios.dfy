/**
 Whole-episode scenarios of the simulation, proved for every choice of the
 foreign primitives that the scenario's hypotheses allow.
 */
module Scenarios {
  import opened Geometry
  import opened Tissue
  import opened Gates
  import opened Environment
  import opened Scoring

  /** `n` commands that neither move nor turn the needle. */
  function Still(n: nat): seq<Action> {
    seq(n, _ => Action(0.0, 0.0))
  }

  function Repeat(p: Point, n: nat): seq<Point> {
    seq(n, _ => p)
  }

  /**
   In an empty level a still needle only ticks the clock and records its
   unchanged position once per step.
   */
  lemma {:induction false} RunStill(prim: Primitives, env: Env, n: nat)
    requires env.gates == [] && env.surfaces == [] && env.nextGate == Exhausted && env.damage == 0.0
    ensures Run(prim, env, Still(n)) ==
              env.(t := env.t + n,
                   needle := env.needle.(thread := env.needle.thread + Repeat(Point(env.needle.x, env.needle.y), n)))
    decreases n
  {
    if n > 0 {
      var p := Point(env.needle.x, env.needle.y);
      var next := Step(prim, env, Action(0.0, 0.0)).0;
      assert next == env.(t := env.t + 1, needle := env.needle.(thread := env.needle.thread + [p]));
      assert Still(n)[1..] == Still(n - 1);
      RunStill(prim, next, n - 1);
      assert [p] + Repeat(p, n - 1) == Repeat(p, n);
      assert env.needle.thread + [p] + Repeat(p, n - 1) == env.needle.thread + Repeat(p, n);
    }
  }

  /**
   No gates, no surfaces, and a needle left still for the whole episode
   scores 1000: all of the gate score, none of the time score, and no path or
   damage penalty.
   */
  lemma StillEpisodeScore(prim: Primitives, width: int, height: int)
    requires width > 0 && DistanceFacts(prim)
    ensures var r := Run(prim, LoadEnv(width, height, [], []), Still(MaxTime));
            && r.t == MaxTime
            && Score(prim, r) == 1000.0
  {
    var env := LoadEnv(width, height, [], []);
    RunStill(prim, env, MaxTime);
    var r := Run(prim, env, Still(MaxTime));
    PathLengthStill(prim, r.needle.thread);
    assert TimeScore(MaxTime as real, MaxTime as real) == 0.0;
  }

  /**
   A single active gate whose pass box holds the new tip, and whose violation
   boxes do not, is passed on that step, which exhausts the cursor and earns
   the whole gate score.
   */
  lemma PassOnlyGate(prim: Primitives, env: Env, a: Action)
    requires EnvInv(env) && |env.gates| == 1 && env.gates[0].status == NextGate
    requires var tip := Tip(Step(prim, env, a).0);
             prim.contains(env.gates[0].corners, tip) && !InViolation(prim, env.gates[0], tip)
    ensures var r := Step(prim, env, a).0;
            && r.gates[0].status == Passed
            && r.nextGate == Exhausted
            && GateScore(r.gates) == 1000.0
  {
    var r := Step(prim, env, a).0;
    assert env.nextGate == At(0);
    assert r.gates[0].status == Passed;
  }

  /**
   A request to turn by 0.5 inside shallow tissue, with the surface holding
   the tip both before and after the move, turns the needle by only 0.02, yet
   the surface is charged for the full request: 24 points of damage.
   */
  lemma SharpTurnInTissue(prim: Primitives, env: Env, dX: real)
    requires CursorInRange(env.gates, env.nextGate)
    requires |env.surfaces| == 1 && !env.surfaces[0].deep && env.surfaces[0].damage <= 76.0
    requires prim.contains(env.surfaces[0].poly, Tip(env))
    requires prim.contains(env.surfaces[0].poly, Tip(Step(prim, env, Action(dX, 0.5)).0))
    ensures var r := Step(prim, env, Action(dX, 0.5)).0;
            && r.needle.w == env.needle.w + 0.02
            && r.surfaces[0].damage == env.surfaces[0].damage + 24.0
            && r.damage == env.surfaces[0].damage + 24.0
  {
    var r := Step(prim, env, Action(dX, 0.5)).0;
    assert InTissue(prim, env.surfaces, Tip(env));
    assert r.surfaces[0] == CalcDamage(env.surfaces[0], 0.5);
    assert r.surfaces[1..] == [];
    assert TotalDamage(r.surfaces) == r.surfaces[0].damage + TotalDamage(r.surfaces[1..]);
  }

  /**
   When the damage reaches its ceiling of 100 the step reports the episode
   over, and the damage score is -1000 (shallow tissue holding the new tip).
   */
  lemma DamageCeilingEndsEpisode(prim: Primitives, env: Env, dX: real)
    requires CursorInRange(env.gates, env.nextGate)
    requires |env.surfaces| == 1 && !env.surfaces[0].deep && 76.0 <= env.surfaces[0].damage <= MaxDamage
    requires prim.contains(env.surfaces[0].poly, Tip(Step(prim, env, Action(dX, 0.5)).0))
    ensures var (r, running) := Step(prim, env, Action(dX, 0.5));
            && r.damage == MaxDamage
            && !running
            && DamageScore(r.damage, DeepIntersect(prim, r.surfaces, Tip(r))) == -1000.0
  {
    var (r, running) := Step(prim, env, Action(dX, 0.5));
    assert r.surfaces[0] == CalcDamage(env.surfaces[0], 0.5);
    assert r.surfaces[1..] == [];
    assert TotalDamage(r.surfaces) == r.surfaces[0].damage + TotalDamage(r.surfaces[1..]);
    assert !DeepIntersect(prim, r.surfaces, Tip(r));
  }

  /**
   The environment damage is a sum over surfaces, so two surfaces are enough
   to exceed 100: one already at 90 that misses the new tip, the other holding
   it and charged 24 by a turn of 0.5.
   */
  lemma TwoSurfacesExceedCeiling(prim: Primitives, env: Env, dX: real)
    requires CursorInRange(env.gates, env.nextGate)
    requires |env.surfaces| == 2 && env.surfaces[0].damage == 90.0 && env.surfaces[1].damage == 0.0
    requires var tip := Tip(Step(prim, env, Action(dX, 0.5)).0);
             !prim.contains(env.surfaces[0].poly, tip) && prim.contains(env.surfaces[1].poly, tip)
    ensures Step(prim, env, Action(dX, 0.5)).0.damage == 114.0
  {
    var r := Step(prim, env, Action(dX, 0.5)).0;
    assert r.surfaces[0] == env.surfaces[0];
    assert r.surfaces[1] == CalcDamage(env.surfaces[1], 0.5);
    assert r.surfaces[1..][1..] == [];
    assert TotalDamage(r.surfaces) == r.surfaces[0].damage + TotalDamage(r.surfaces[1..]);
    assert TotalDamage(r.surfaces[1..]) == r.surfaces[1].damage + TotalDamage(r.surfaces[1..][1..]);
  }

  /**
   A step is not frozen once the episode is over: past the time limit it
   still reports the episode over, yet it advances the clock and records
   another thread point.
   */
  lemma StepAfterTimeout(prim: Primitives, env: Env, a: Action)
    requires CursorInRange(env.gates, env.nextGate) && env.t >= MaxTime
    ensures var (r, running) := Step(prim, env, a);
            && !running
            && r.t == env.t + 1
            && |r.needle.thread| == |env.needle.thread| + 1
  {
  }
}

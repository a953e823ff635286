/**
 Demonstration scoring: the four piecewise components of `Environment.score`
 and the thread's path length.
 */
module Scoring {
  import opened Geometry
  import opened Tissue
  import opened Gates
  import opened Environment

  /** `_compute_passed_gates`: how many gates are `Passed`. */
  function PassedCount(gates: seq<Gate>): (n: nat)
    ensures n <= |gates|
    ensures n == |gates| <==> forall i :: 0 <= i < |gates| ==> gates[i].status == Passed
    ensures n == 0 <==> forall i :: 0 <= i < |gates| ==> gates[i].status != Passed
  {
    if |gates| == 0 then 0
    else
      var rest := PassedCount(gates[1..]);
      assert forall i :: 1 <= i < |gates| ==> gates[1..][i - 1] == gates[i];
      (if gates[0].status == Passed then 1 else 0) + rest
  }

  /** The status of every gate, in order. */
  function Statuses(gates: seq<Gate>): seq<Status> {
    seq(|gates|, i requires 0 <= i < |gates| => gates[i].status)
  }

  /** The passed count is the number of occurrences of `Passed` among the statuses. */
  lemma {:induction false} PassedCountIsMultiplicity(gates: seq<Gate>)
    ensures PassedCount(gates) == multiset(Statuses(gates))[Passed]
    ensures |gates| > 0 ==>
              GateScore(gates) == 1000.0 * multiset(Statuses(gates))[Passed] as real / |gates| as real
  {
    if |gates| > 0 {
      assert Statuses(gates) == [gates[0].status] + Statuses(gates[1..]);
      PassedCountIsMultiplicity(gates[1..]);
    }
  }

  /**
   `_gate_score`: 1000 with no gates, otherwise 1000 times the passed
   fraction. It is 1000 exactly when every gate is passed.
   */
  function GateScore(gates: seq<Gate>): (r: real)
    ensures 0.0 <= r <= 1000.0
    ensures |gates| == 0 ==> r == 1000.0
    ensures r == 1000.0 <==> forall i :: 0 <= i < |gates| ==> gates[i].status == Passed
    ensures r == 0.0 <==> |gates| > 0 && forall i :: 0 <= i < |gates| ==> gates[i].status != Passed
  {
    if |gates| == 0 then 1000.0
    else
      var n := |gates| as real;
      var p := PassedCount(gates) as real;
      FractionBounds(p, n);
      1000.0 * p / n
  }

  /** 1000 p / n lies in [0, 1000], at the ends exactly when p is 0 or n. */
  lemma FractionBounds(p: real, n: real)
    requires 0.0 <= p <= n && n > 0.0
    ensures 0.0 <= 1000.0 * p / n <= 1000.0
    ensures 1000.0 * p / n == 1000.0 <==> p == n
    ensures 1000.0 * p / n == 0.0 <==> p == 0.0
  {
    var r := 1000.0 * p / n;
    assert r * n == 1000.0 * p;
    DivMonotone(1000.0 * p, 1000.0 * n, n);
    DivMonotone(0.0, 1000.0 * p, n);
  }

  /** The linear branch of `_time_score`: slope -1000 / (2T/3), intercept 1500. */
  function TimeLine(t: real, maxTime: real): real
    requires maxTime > 0.0
  {
    var m := -1000.0 / (2.0 * maxTime / 3.0);
    1500.0 + m * t
  }

  /** The slope of the linear branch is -1500 / T. */
  lemma TimeLineForm(t: real, maxTime: real)
    requires maxTime > 0.0
    ensures TimeLine(t, maxTime) == 1500.0 - 1500.0 * t / maxTime
  {
    var m := -1000.0 / (2.0 * maxTime / 3.0);
    assert m == -1500.0 / maxTime;
    assert m * t == -1500.0 * t / maxTime;
  }

  /**
   `_time_score`: 1000 while at most a third of the time has gone, then
   falling linearly to 0 at `maxTime`.
   */
  function TimeScore(t: real, maxTime: real): (r: real)
    requires maxTime > 0.0
    ensures t <= maxTime / 3.0 ==> r == 1000.0
    ensures r <= 1000.0
    ensures t == maxTime ==> r == 0.0
    ensures 0.0 <= t <= maxTime ==> 0.0 <= r <= 1000.0
  {
    TimeLineForm(t, maxTime);
    if t <= (1.0 / 3.0) * maxTime then 1000.0
    else
      assert 1500.0 * t / maxTime > 500.0 by {
        assert t / maxTime > 1.0 / 3.0;
        assert 1500.0 * t / maxTime == 1500.0 * (t / maxTime);
      }
      assert t <= maxTime ==> 1500.0 * t / maxTime <= 1500.0 by {
        assert 1500.0 * t / maxTime == 1500.0 * (t / maxTime);
      }
      TimeLine(t, maxTime)
  }

  /** The two branches of `_time_score` meet at a third of the time. */
  lemma TimeScoreContinuous(maxTime: real)
    requires maxTime > 0.0
    ensures TimeLine(maxTime / 3.0, maxTime) == 1000.0
    ensures TimeScore(maxTime / 3.0, maxTime) == 1000.0
  {
    TimeLineForm(maxTime / 3.0, maxTime);
  }

  /** A later time never scores more. */
  lemma TimeScoreMonotone(t1: real, t2: real, maxTime: real)
    requires maxTime > 0.0 && t1 <= t2
    ensures TimeScore(t2, maxTime) <= TimeScore(t1, maxTime)
  {
    TimeLineForm(t1, maxTime);
    TimeLineForm(t2, maxTime);
    DivMonotone(1500.0 * t1, 1500.0 * t2, maxTime);
  }

  /**
   Past a third of the time the score falls linearly: every extra unit of
   time costs 1500 / T.
   */
  lemma TimeScoreSlope(t1: real, t2: real, maxTime: real)
    requires maxTime > 0.0 && maxTime / 3.0 < t1 && maxTime / 3.0 < t2
    ensures TimeScore(t1, maxTime) - TimeScore(t2, maxTime) == 1500.0 * (t2 - t1) / maxTime
  {
    TimeLineForm(t1, maxTime);
    TimeLineForm(t2, maxTime);
  }

  lemma DivMonotone(a: real, b: real, c: real)
    requires c > 0.0 && a <= b
    ensures a / c <= b / c
  {
    assert b / c - a / c == (b - a) / c;
    assert (b - a) / c * c == b - a;
  }

  /** The linear penalty of `_path_score` for an (already limited) length. */
  function PathLine(len: real, width: real): real
    requires width > 0.0
  {
    -1000.0 / (2.0 * width) * (len - width)
  }

  /** The penalty line is -500 (len - W) / W, so it falls as the length grows. */
  lemma PathLineForm(len: real, width: real)
    requires width > 0.0
    ensures PathLine(len, width) == -500.0 * (len - width) / width
  {
  }

  lemma PathLineMonotone(l1: real, l2: real, width: real)
    requires width > 0.0 && l1 <= l2
    ensures PathLine(l2, width) <= PathLine(l1, width)
  {
    PathLineForm(l1, width);
    PathLineForm(l2, width);
    assert -500.0 * (l2 - width) <= -500.0 * (l1 - width);
  }

  lemma PathLineAt(width: real)
    requires width > 0.0
    ensures PathLine(width, width) == 0.0
    ensures PathLine(3.0 * width, width) == -1000.0
  {
    PathLineForm(3.0 * width, width);
  }

  function Max(a: real, b: real): real { if a >= b then a else b }

  function Min(a: real, b: real): real { if a <= b then a else b }

  /**
   `_path_score` as written: no penalty up to the screen width; beyond it the
   length is "limited" with `max(w, 3W)`, so every over-long path scores -1000
   or less, and exactly -1000 only up to three widths.
   */
  function PathScore(len: real, width: real): (r: real)
    requires width > 0.0
    ensures len <= width ==> r == 0.0
    ensures r <= 0.0
    ensures len > width ==> r <= -1000.0
    ensures len > width ==> (r == -1000.0 <==> len <= 3.0 * width)
  {
    if len <= width then 0.0
    else
      var w := Max(len, 3.0 * width);
      PathLineAt(width);
      PathLineMonotone(3.0 * width, w, width);
      PathLineForm(w, width);
      PathLineForm(3.0 * width, width);
      PathLine(w, width)
  }

  /** As written, a path of four widths scores -1500, below the documented floor of -1000. */
  lemma PathScoreBelowFloor()
    ensures PathScore(4.0, 1.0) == -1500.0
    ensures forall len, width :: width > 0.0 && len > 3.0 * width ==> PathScore(len, width) < -1000.0
  {
    forall len, width | width > 0.0 && len > 3.0 * width
      ensures PathScore(len, width) < -1000.0
    {
      PathLineForm(len, width);
      assert -500.0 * (len - width) < -1000.0 * width;
    }
  }

  /**
   As written, beyond three widths the score keeps falling by 500 / W per
   unit of length, without bound.
   */
  lemma PathScoreSlope(l1: real, l2: real, width: real)
    requires width > 0.0 && 3.0 * width <= l1 && 3.0 * width <= l2
    ensures PathScore(l1, width) - PathScore(l2, width) == 500.0 * (l2 - l1) / width
  {
    PathLineForm(l1, width);
    PathLineForm(l2, width);
  }

  /**
   `_path_score` as its comment intends: the length is limited to three
   widths with `min`, so the score falls linearly from 0 at one width to
   -1000 at three widths and stays there.
   */
  function IntendedPathScore(len: real, width: real): (r: real)
    requires width > 0.0
    ensures -1000.0 <= r <= 0.0
    ensures len <= width ==> r == 0.0
    ensures len >= 3.0 * width ==> r == -1000.0
    ensures width < len < 3.0 * width ==> -1000.0 < r < 0.0
  {
    if len <= width then 0.0
    else
      var w := Min(len, 3.0 * width);
      PathLineAt(width);
      PathLineMonotone(w, 3.0 * width, width);
      PathLineMonotone(width, w, width);
      PathLineForm(w, width);
      PathLineForm(3.0 * width, width);
      PathLine(w, width)
  }

  /**
   Between one and three widths the intended score falls linearly, by
   500 / W per unit of length.
   */
  lemma IntendedPathScoreSlope(l1: real, l2: real, width: real)
    requires width > 0.0 && width <= l1 <= 3.0 * width && width <= l2 <= 3.0 * width
    ensures IntendedPathScore(l1, width) - IntendedPathScore(l2, width) == 500.0 * (l2 - l1) / width
  {
    PathLineForm(l1, width);
    PathLineForm(l2, width);
  }

  /** A longer path never scores more under the intended rule. */
  lemma IntendedPathScoreMonotone(l1: real, l2: real, width: real)
    requires width > 0.0 && l1 <= l2
    ensures IntendedPathScore(l2, width) <= IntendedPathScore(l1, width)
  {
    if l1 > width {
      PathLineMonotone(Min(l1, 3.0 * width), Min(l2, 3.0 * width), width);
    }
  }

  /** The written and intended rules agree only up to one width and at exactly three. */
  lemma PathScoresAgree(len: real, width: real)
    requires width > 0.0
    ensures PathScore(len, width) == IntendedPathScore(len, width) <==> len <= width || len == 3.0 * width
  {
    if len > width && len != 3.0 * width {
      PathLineForm(Max(len, 3.0 * width), width);
      PathLineForm(Min(len, 3.0 * width), width);
      assert Max(len, 3.0 * width) != Min(len, 3.0 * width);
    }
  }

  /**
   `_damage_score`: -10 per unit of damage, and 1000 more off when the tip is
   in deep tissue. For damage in [0, 100] it lies in [-2000, 0].
   */
  function DamageScore(damage: real, deepHit: bool): (r: real)
    ensures damage >= 0.0 ==> r <= 0.0
    ensures 0.0 <= damage <= MaxDamage ==> -2000.0 <= r
    ensures damage >= 0.0 && deepHit ==> r <= -1000.0
    ensures 0.0 <= damage <= MaxDamage && !deepHit ==> -1000.0 <= r
    ensures damage == MaxDamage ==> r == (if deepHit then -2000.0 else -1000.0)
  {
    var d := -10.0 * damage;
    if deepHit then d - 1000.0 else d
  }

  /**
   The damage score falls by exactly 10 per unit of damage, and a deep hit
   costs exactly 1000 more.
   */
  lemma DamageScoreLinear(d1: real, d2: real, deepHit: bool)
    ensures DamageScore(d1, true) == DamageScore(d1, false) - 1000.0
    ensures DamageScore(d1, deepHit) - DamageScore(d2, deepHit) == -10.0 * (d1 - d2)
    ensures DamageScore(0.0, false) == 0.0
  {
  }

  /** `_get_path_len`: the summed distances between consecutive thread points. */
  function PathLength(prim: Primitives, pts: seq<Point>): (len: real)
    ensures DistanceFacts(prim) ==> len >= 0.0
  {
    if |pts| < 2 then 0.0 else prim.dist(pts[0], pts[1]) + PathLength(prim, pts[1..])
  }

  /** Appending a point adds the distance from the last point, as a move does. */
  lemma {:induction false} PathLengthAppend(prim: Primitives, pts: seq<Point>, p: Point)
    requires |pts| > 0
    ensures PathLength(prim, pts + [p]) == PathLength(prim, pts) + prim.dist(pts[|pts| - 1], p)
    decreases |pts|
  {
    if |pts| == 1 {
      assert (pts + [p])[1..] == [p];
    } else {
      assert (pts + [p])[1..] == pts[1..] + [p];
      PathLengthAppend(prim, pts[1..], p);
    }
  }

  /** A thread that never moved has no length. */
  lemma {:induction false} PathLengthStill(prim: Primitives, pts: seq<Point>)
    requires DistanceFacts(prim)
    requires forall i :: 0 <= i < |pts| ==> pts[i] == pts[0]
    ensures PathLength(prim, pts) == 0.0
    decreases |pts|
  {
    if |pts| >= 2 {
      assert pts[1] == pts[0];
      forall i | 0 <= i < |pts[1..]| ensures pts[1..][i] == pts[1..][0] {
        assert pts[1..][i] == pts[i + 1];
      }
      PathLengthStill(prim, pts[1..]);
    }
  }

  /** The loop of `_get_path_len`, summing segment by segment. */
  method ComputePathLength(prim: Primitives, pts: seq<Point>) returns (len: real)
    ensures len == PathLength(prim, pts)
  {
    len := 0.0;
    if |pts| == 0 {
      return;
    }
    var i := 0;
    while i + 1 < |pts|
      invariant 0 <= i < |pts|
      invariant len == PathLength(prim, pts[..i + 1])
    {
      PathLengthAppend(prim, pts[..i + 1], pts[i + 1]);
      assert pts[..i + 1] + [pts[i + 1]] == pts[..i + 2];
      len := len + prim.dist(pts[i], pts[i + 1]);
      i := i + 1;
    }
    assert pts[..i + 1] == pts;
  }

  /** A reachable environment's total damage is never negative. */
  lemma EnvDamageBounds(env: Env)
    ensures EnvInv(env) ==> 0.0 <= env.damage <= MaxDamage * |env.surfaces| as real
  {
    if EnvInv(env) {
      TotalDamageBounds(env.surfaces);
    }
  }

  /** `score` as written: the four components summed. It never exceeds 2000. */
  function Score(prim: Primitives, env: Env): (r: real)
    requires env.width > 0
    ensures EnvInv(env) ==> r <= 2000.0
  {
    EnvDamageBounds(env);
    GateScore(env.gates)
      + TimeScore(env.t as real, MaxTime as real)
      + PathScore(PathLength(prim, env.needle.thread), env.width as real)
      + DamageScore(env.damage, DeepIntersect(prim, env.surfaces, Tip(env)))
  }

  /**
   `score` with the intended path limit: within the episode's time and with
   damage at most 100 it lies in the documented range [-3000, 2000].
   */
  function IntendedScore(prim: Primitives, env: Env): (r: real)
    requires env.width > 0
    ensures EnvInv(env) ==> r <= 2000.0
    ensures EnvInv(env) && env.t <= MaxTime && env.damage <= MaxDamage ==> -3000.0 <= r
  {
    EnvDamageBounds(env);
    GateScore(env.gates)
      + TimeScore(env.t as real, MaxTime as real)
      + IntendedPathScore(PathLength(prim, env.needle.thread), env.width as real)
      + DamageScore(env.damage, DeepIntersect(prim, env.surfaces, Tip(env)))
  }
}

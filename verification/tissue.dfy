/**
 Tissue surfaces and their damage accumulators (class `Surface`).
 */
module Tissue {
  import opened Geometry

  /** A tissue region; `damage` is this surface's own accumulator. */
  datatype Surface = Surface(poly: Polygon, deep: bool, damage: real)

  /** Largest turn per step that does no harm to tissue. */
  const TurnTolerance: real := 0.02

  /** Ceiling of a surface's damage accumulator. */
  const MaxDamage: real := 100.0

  /** The amount a turn of `dw` radians adds to a surface's damage. */
  function DamageIncrement(dw: real): (inc: real)
    ensures Abs(dw) > TurnTolerance ==> inc > 0.0
    ensures Abs(dw) == TurnTolerance ==> inc == 0.0
  {
    (Abs(dw) / 2.0 - 0.01) * 100.0
  }

  /**
   `Surface.calc_damage`: a turn within tolerance leaves the surface alone;
   a sharper turn adds a strictly positive amount and then clamps at 100.
   */
  function CalcDamage(s: Surface, dw: real): (r: Surface)
    ensures r.poly == s.poly && r.deep == s.deep
    ensures Abs(dw) <= TurnTolerance ==> r == s
    ensures Abs(dw) > TurnTolerance ==> r.damage <= MaxDamage
    ensures Abs(dw) > TurnTolerance ==> r.damage <= s.damage + DamageIncrement(dw)
    ensures Abs(dw) > TurnTolerance && r.damage < MaxDamage ==>
              r.damage == s.damage + DamageIncrement(dw)
    ensures Abs(dw) > TurnTolerance && s.damage < MaxDamage ==> r.damage > s.damage
    ensures 0.0 <= s.damage <= MaxDamage ==> s.damage <= r.damage <= MaxDamage
  {
    if Abs(dw) > TurnTolerance then
      var d := s.damage + DamageIncrement(dw);
      s.(damage := if d > MaxDamage then MaxDamage else d)
    else
      s
  }

  /** Every accumulator of `ss` lies in [0, 100]. */
  predicate DamageInRange(ss: seq<Surface>) {
    forall i :: 0 <= i < |ss| ==> 0.0 <= ss[i].damage <= MaxDamage
  }

  /** The sum of all surfaces' damage, in order. */
  function TotalDamage(ss: seq<Surface>): real
  {
    if |ss| == 0 then 0.0 else ss[0].damage + TotalDamage(ss[1..])
  }

  /** The environment's total is bounded by 100 per surface. */
  lemma {:induction false} TotalDamageBounds(ss: seq<Surface>)
    requires DamageInRange(ss)
    ensures 0.0 <= TotalDamage(ss) <= MaxDamage * |ss| as real
  {
    if |ss| > 0 {
      assert DamageInRange(ss[1..]) by {
        forall i | 0 <= i < |ss[1..]| ensures 0.0 <= ss[1..][i].damage <= MaxDamage {
          assert ss[1..][i] == ss[i + 1];
        }
      }
      TotalDamageBounds(ss[1..]);
    }
  }

  /** Raising surfaces one by one never lowers the total. */
  lemma {:induction false} TotalDamageMonotone(ss: seq<Surface>, ts: seq<Surface>)
    requires |ss| == |ts|
    requires forall i :: 0 <= i < |ss| ==> ss[i].damage <= ts[i].damage
    ensures TotalDamage(ss) <= TotalDamage(ts)
  {
    if |ss| > 0 {
      assert ss[0].damage <= ts[0].damage;
      forall i | 0 <= i < |ss[1..]| ensures ss[1..][i].damage <= ts[1..][i].damage {
        assert ss[1..][i] == ss[i + 1] && ts[1..][i] == ts[i + 1];
      }
      TotalDamageMonotone(ss[1..], ts[1..]);
    }
  }

  /** Undamaged surfaces add up to nothing. */
  lemma {:induction false} TotalDamageOfFresh(ss: seq<Surface>)
    requires forall i :: 0 <= i < |ss| ==> ss[i].damage == 0.0
    ensures TotalDamage(ss) == 0.0
  {
    if |ss| > 0 {
      forall i | 0 <= i < |ss[1..]| ensures ss[1..][i].damage == 0.0 {
        assert ss[1..][i] == ss[i + 1];
      }
      TotalDamageOfFresh(ss[1..]);
    }
  }

  /**
   The y-flip of `Surface.load`: tissue corners are authored with y growing
   the other way, so each vertex's y becomes `envHeight - y`. A fresh surface
   has no damage.
   */
  function LoadSurface(envHeight: int, corners: seq<Point>, deep: bool): (s: Surface)
    ensures |s.poly| == |corners| && s.deep == deep && s.damage == 0.0
    ensures forall i :: 0 <= i < |corners| ==>
              s.poly[i].x == corners[i].x && s.poly[i].y + corners[i].y == envHeight as real
  {
    Surface(seq(|corners|, i requires 0 <= i < |corners| =>
                  Point(corners[i].x, envHeight as real - corners[i].y)), deep, 0.0)
  }
}

# Needle Master simulation core in Dafny

A model of the deterministic simulation engine of the Needle Master surgical
needle game: a needle is steered through a sequence of gates set in tissue
surfaces, tissue takes damage when the needle turns sharply inside it, and a
finished demonstration is scored on gates passed, time, path length and
damage. The model follows `Environment`, `Gate`, `Surface` and `Needle` in
`needlemaster/environment.py` as immutable datatypes over `real` with pure
functions:

- `geometry.dfy` (`Geometry`): points, polygons, `np.pi`, and the
  `Primitives` record holding the foreign calls (shapely containment,
  `math.cos`, `math.sin`, `np.linalg.norm` of a difference) as uninterpreted
  function values passed to every operation.
- `tissue.dfy` (`Tissue`): `Surface`, the damage rule `calc_damage`, the
  damage sum, the y-flip done when a surface is loaded.
- `needles.dfy` (`Needles`): `Needle`, the in-tissue turn damping and `move`.
- `gates.dfy` (`Gates`): gate status, the orientation normalisation of
  `Gate.load`, and `Gate.update`.
- `environment.dfy` (`Environment`): the environment record, the tissue and
  deep-tissue tests, `update_damage`, the gate cursor of `check_status`, the
  termination test, `step`, the gate set-up of `load`, replay of a command
  sequence, and the invariant every reachable environment keeps.
- `scoring.dfy` (`Scoring`): the four score components, path length, the
  total.
- `scenarios.dfy` (`Scenarios`): whole-episode scenarios.

Behaviours of the code the model keeps:
- `move` never wraps the heading into [0, 2 pi) (line 600).
- Damage is computed from the raw requested turn, not the damped one
  (line 143 passes `action`). It is charged to every surface whose polygon
  contains the new tip (lines 165-167), not only the first one.
- Damping uses the tip before the move. The surfaces to charge are found at
  the tip after it (lines 141-143).
- Position validity is inclusive at both edges, `<=` (lines 193-194).
- The thread records the raw `(x, y)` after every move, not flipped, whether
  or not the needle moved (line 606).
- `step` keeps going after the episode is over. It still moves the needle,
  charges damage, resolves gates and advances the clock
  (`Scenarios.StepAfterTimeout`).
- A requested turn of 0.5 inside shallow tissue turns the needle by 0.02 and
  costs 24 points of damage (`Scenarios.SharpTurnInTissue`).
- `_path_score` limits the length with `max` (line 275); see Findings.
- The status test only prints the causes of termination and returns a single
  flag.

The operations assume nothing about the foreign calls. The path-length
lemmas and the still-needle scenario assume the two norm facts of
`Geometry.DistanceFacts`: a norm is never negative, and it is 0 on a zero
difference. The other scenarios in `scenarios.dfy` state their own hypotheses
about containment, and only at the tip positions the step actually tests,
such as a pass box that holds the new tip.

## Model

| member | source | states |
|---|---|---|
| Tissue.DamageIncrement | build/lib.linux-x86_64-2.7/needlemaster/environment.py:495-496 | a turn sharper than 0.02 in magnitude adds a strictly positive amount of damage; exactly 0.02 would add none |
| Tissue.CalcDamage | build/lib.linux-x86_64-2.7/needlemaster/environment.py:493-498 | a turn with abs(dw) <= 0.02 leaves the surface unchanged; a sharper one adds the increment and clamps at 100, strictly raising any damage below 100; damage in [0, 100] stays in [0, 100] and never decreases; polygon and deep flag never change |
| Tissue.TotalDamageBounds | build/lib.linux-x86_64-2.7/needlemaster/environment.py:163-168 | the environment total, summed over surfaces each in [0, 100], lies in [0, 100 times the number of surfaces] |
| Tissue.TotalDamageMonotone | build/lib.linux-x86_64-2.7/needlemaster/environment.py:163-168 | raising surfaces pointwise never lowers the summed total |
| Tissue.TotalDamageOfFresh | build/lib.linux-x86_64-2.7/needlemaster/environment.py:56-57 | surfaces that have taken no damage sum to an environment damage of 0 |
| Tissue.LoadSurface | build/lib.linux-x86_64-2.7/needlemaster/environment.py:482-486 | a loaded surface keeps the vertex count and x values, flips every y to height - y, takes the deep flag as given and starts undamaged |
| Needles.NewNeedle | build/lib.linux-x86_64-2.7/needlemaster/environment.py:508-511 | a new needle starts with heading pi, an empty thread and its tip at (96, 108) in the tissue frame, whatever the screen height |
| Needles.AppliedTurn | build/lib.linux-x86_64-2.7/needlemaster/environment.py:592-598 | out of tissue the applied turn is exactly dw; in tissue its magnitude is at most 0.02, exactly dw/2 when abs(dw) <= 0.02 and exactly 0.02 otherwise; its sign is always that of dw |
| Needles.Move | build/lib.linux-x86_64-2.7/needlemaster/environment.py:592-606 | the heading changes by exactly the applied turn and is not wrapped; the position steps dX along the new heading; the thread keeps its old points and gains exactly one, the new position |
| Gates.ReorderInvolution | build/lib.linux-x86_64-2.7/needlemaster/environment.py:432-434 | the [2,3,0,1] reorder undoes itself |
| Gates.ReorderKeepsMean | build/lib.linux-x86_64-2.7/needlemaster/environment.py:432-442 | the reorder permutes the vertices (same multiset), so the mean y used for the top/bottom swap is unchanged by it |
| Gates.WrapAngle | build/lib.linux-x86_64-2.7/needlemaster/environment.py:427-429 | the negated angle gets 2 pi added exactly when the raw angle is positive; a raw angle in (-2 pi, 2 pi] lands in [0, 2 pi) |
| Gates.LoadGate | build/lib.linux-x86_64-2.7/needlemaster/environment.py:415-445 | a loaded gate is pending; the centre is scaled by the screen size; corners, top and bottom get the same [2,3,0,1] reorder exactly when the wrapped angle exceeds pi; top and bottom are exchanged exactly when the raw top's mean y is below the raw bottom's, so the top's mean y is at least the bottom's |
| Gates.LoadGateAngleRange | build/lib.linux-x86_64-2.7/needlemaster/environment.py:426-436 | for a raw angle in (-2 pi, 2 pi] the normalised gate angle lies in [-pi/2, pi/2] |
| Gates.GateUpdate | build/lib.linux-x86_64-2.7/needlemaster/environment.py:373-386 | a tip in the top or bottom box fails any gate not yet passed, even when it is also in the pass box; a gate fails only on such a hit; a passed or failed gate never changes; a gate becomes passed exactly when it was next, the tip is in the pass box and in neither violation box; with the tip in no violation box and not passing a next gate the gate is unchanged; any change is to passed or failed; the geometry never changes |
| Gates.GateUpdateIdempotent | build/lib.linux-x86_64-2.7/needlemaster/environment.py:373-386 | updating a gate twice at the same tip position gives the same gate as updating once |
| Gates.ResolvedIsTerminal | build/lib.linux-x86_64-2.7/needlemaster/environment.py:376-386 | passed and failed gates are fixed points of the update for every tip position |
| Environment.AtMostOneActive | build/lib.linux-x86_64-2.7/needlemaster/environment.py:180-190 | under the sequential gate discipline no two gates are next at once, and a gate is next exactly when the cursor names it |
| Environment.InTissue | build/lib.linux-x86_64-2.7/needlemaster/environment.py:148-161 | the needle is in tissue exactly when some surface's polygon contains the tip (x, height - y) |
| Environment.DeepIntersect | build/lib.linux-x86_64-2.7/needlemaster/environment.py:216-224 | deep tissue is hit exactly when some deep surface's polygon contains the tip |
| Environment.ChargeSurfaces | build/lib.linux-x86_64-2.7/needlemaster/environment.py:165-167 | every surface containing the tip is charged by the damage rule, not just the first one; every other surface is returned unchanged |
| Environment.UpdateDamage | build/lib.linux-x86_64-2.7/needlemaster/environment.py:163-168 | only surfaces whose polygon contains the tip change, each by the damage rule with the given turn; the environment damage equals the sum of all surfaces' damage; damage in [0, 100] stays there and never decreases; nothing else in the environment changes |
| Environment.ResolveGates | build/lib.linux-x86_64-2.7/needlemaster/environment.py:180-190 | only the active gate is updated; the cursor advances, by exactly one, exactly when that gate has left next; it is exhausted only after the last gate; the successor's status becomes next exactly when the cursor moves to it, and nothing else of it changes; every other gate is unchanged |
| Environment.ResolveGatesKeepsInv | build/lib.linux-x86_64-2.7/needlemaster/environment.py:180-190 | the sequential discipline (active gate next, earlier gates resolved, later gates pending, all resolved once exhausted) survives each gate resolution |
| Environment.CheckStatus | build/lib.linux-x86_64-2.7/needlemaster/environment.py:170-214 | the gate cursor is resolved and nothing else changes; the result is true exactly when 0 <= x <= width, 0 <= y <= height, no deep surface contains the tip, damage < 100 and t < 300 |
| Environment.Step | build/lib.linux-x86_64-2.7/needlemaster/environment.py:136-146 | the clock advances by exactly 1; the needle moves with damping decided by the tissue test at the old tip; surfaces containing the new tip are charged with the raw requested turn; the active gate is resolved at the new tip; the flag is true exactly when the new position is on screen (edges included), no deep surface holds the new tip, the new damage is below 100 and the old t is below 300 |
| Environment.StepKeepsInv | build/lib.linux-x86_64-2.7/needlemaster/environment.py:136-146 | a step keeps the gate discipline, damage bounds and damage sum; no surface's damage and not the total decreases; the thread only grows; the gate cursor moves forward by at most one |
| Environment.InitCursor | build/lib.linux-x86_64-2.7/needlemaster/environment.py:123-125 | with at least one gate the first becomes next and the cursor points at it, otherwise the cursor is none; every other gate and every other field is left unchanged; from all-pending gates this establishes the sequential discipline |
| Environment.LoadEnv | build/lib.linux-x86_64-2.7/needlemaster/environment.py:49-65 | a freshly loaded environment satisfies the invariant, has the loaded gates and surfaces, a new needle, t = 0, damage 0, and its cursor on gate 0 when there are gates |
| Environment.Run | build/lib.linux-x86_64-2.7/needlemaster/environment.py:136-146 | replaying n commands advances the clock by n and the thread by n points and keeps the cursor in range |
| Environment.RunKeepsInv | build/lib.linux-x86_64-2.7/needlemaster/environment.py:136-146 | over any replay the invariant holds, total damage never decreases, the thread only grows and the gate cursor never moves back |
| Scoring.PassedCount | build/lib.linux-x86_64-2.7/needlemaster/environment.py:226-233 | the passed count is at most the gate count, equals it exactly when every gate is passed, and is 0 exactly when none is |
| Scoring.PassedCountIsMultiplicity | build/lib.linux-x86_64-2.7/needlemaster/environment.py:226-247 | the passed count is the number of `Passed` entries in the gate statuses, and with gates the gate score is 1000 times that number over the gate count |
| Scoring.GateScore | build/lib.linux-x86_64-2.7/needlemaster/environment.py:235-247 | the gate score lies in [0, 1000]; it is 1000 with no gates and, in general, exactly when every gate is passed; it is 0 exactly when there are gates and none is passed |
| Scoring.TimeLineForm | build/lib.linux-x86_64-2.7/needlemaster/environment.py:260-261 | the linear branch has slope -1500/T: 1500 - 1500 t / T |
| Scoring.TimeScore | build/lib.linux-x86_64-2.7/needlemaster/environment.py:249-262 | 1000 up to a third of the time; never above 1000; exactly 0 at t = T; within [0, 1000] for t in [0, T] |
| Scoring.TimeScoreContinuous | build/lib.linux-x86_64-2.7/needlemaster/environment.py:257-261 | both branches give 1000 at t = T/3 |
| Scoring.TimeScoreMonotone | build/lib.linux-x86_64-2.7/needlemaster/environment.py:249-262 | a later time never scores more |
| Scoring.TimeScoreSlope | build/lib.linux-x86_64-2.7/needlemaster/environment.py:252-261 | past a third of the time the score falls linearly: two times t1, t2 differ in score by exactly 1500 (t2 - t1) / T |
| Scoring.PathLineAt | build/lib.linux-x86_64-2.7/needlemaster/environment.py:276 | the penalty line is 0 at one width and -1000 at three widths |
| Scoring.PathScore | build/lib.linux-x86_64-2.7/needlemaster/environment.py:264-277 | as written: 0 up to one screen width; never positive; every longer path scores at most -1000, and exactly -1000 only when it is at most three widths |
| Scoring.PathScoreSlope | build/lib.linux-x86_64-2.7/needlemaster/environment.py:275-276 | as written, beyond three widths the score keeps falling by exactly 500 / W per unit of length, with no floor |
| Scoring.PathScoreBelowFloor | build/lib.linux-x86_64-2.7/needlemaster/environment.py:275-276 | as written, a path of 4 on a width of 1 scores -1500, and every path beyond three widths scores below -1000 |
| Scoring.IntendedPathScore | build/lib.linux-x86_64-2.7/needlemaster/environment.py:264-277 | with the length limited by min: the score lies in [-1000, 0], is 0 up to one width, -1000 from three widths on, and strictly in between otherwise |
| Scoring.IntendedPathScoreSlope | build/lib.linux-x86_64-2.7/needlemaster/environment.py:267-276 | with the intended limit, between one and three widths the score falls linearly by exactly 500 / W per unit of length, from 0 to -1000 |
| Scoring.IntendedPathScoreMonotone | build/lib.linux-x86_64-2.7/needlemaster/environment.py:264-277 | with the intended limit a longer path never scores more |
| Scoring.PathScoresAgree | build/lib.linux-x86_64-2.7/needlemaster/environment.py:275 | the written and intended path scores agree exactly when the length is at most one width or exactly three |
| Scoring.DamageScore | build/lib.linux-x86_64-2.7/needlemaster/environment.py:294-305 | with damage in [0, 100] the damage score lies in [-2000, 0]; a deep hit makes it at most -1000; at damage 100 it is -1000, or -2000 with a deep hit |
| Scoring.DamageScoreLinear | build/lib.linux-x86_64-2.7/needlemaster/environment.py:299-302 | the damage score falls by exactly 10 per unit of damage, a deep hit costs exactly 1000 more, and no damage without a deep hit scores 0 |
| Scoring.PathLength | build/lib.linux-x86_64-2.7/needlemaster/environment.py:279-292 | the thread's length is never negative when the norm is never negative |
| Scoring.PathLengthAppend | build/lib.linux-x86_64-2.7/needlemaster/environment.py:285-290 | appending a point adds exactly the distance from the last point to it |
| Scoring.PathLengthStill | build/lib.linux-x86_64-2.7/needlemaster/environment.py:285-290 | a thread whose points are all equal has length 0 |
| Scoring.ComputePathLength | build/lib.linux-x86_64-2.7/needlemaster/environment.py:279-292 | the segment-by-segment loop computes the thread's path length |
| Scoring.EnvDamageBounds | build/lib.linux-x86_64-2.7/needlemaster/environment.py:163-168 | a reachable environment's damage lies in [0, 100 times the number of surfaces] |
| Scoring.Score | build/lib.linux-x86_64-2.7/needlemaster/environment.py:307-334 | the total as written never exceeds 2000 in a reachable environment |
| Scoring.IntendedScore | build/lib.linux-x86_64-2.7/needlemaster/environment.py:307-319 | with the intended path limit the total lies in [-3000, 2000] in a reachable environment with t <= 300 and damage <= 100 |
| Scenarios.RunStill | build/lib.linux-x86_64-2.7/needlemaster/environment.py:136-146 | in an empty level a still needle only ticks the clock and appends its unchanged position once per step |
| Scenarios.StillEpisodeScore | build/lib.linux-x86_64-2.7/needlemaster/environment.py:307-325 | an empty level with a needle left still for 300 steps ends at t = 300 with score exactly 1000 |
| Scenarios.PassOnlyGate | build/lib.linux-x86_64-2.7/needlemaster/environment.py:180-190 | a single next gate whose pass box holds the new tip and whose violation boxes do not is passed on that step, the cursor becomes none and the gate score is 1000 |
| Scenarios.SharpTurnInTissue | build/lib.linux-x86_64-2.7/needlemaster/environment.py:141-143 | a requested turn of 0.5 inside a shallow surface holding the tip before and after the move turns the needle by only 0.02 but charges 24 points of damage, computed from the raw request |
| Scenarios.DamageCeilingEndsEpisode | build/lib.linux-x86_64-2.7/needlemaster/environment.py:204-214 | when the damage reaches 100, in a shallow surface holding the new tip, the step reports the episode over and the damage score is -1000 |
| Scenarios.TwoSurfacesExceedCeiling | build/lib.linux-x86_64-2.7/needlemaster/environment.py:163-168 | with one surface at 90 that misses the new tip and one at 0 that holds it, a turn of 0.5 brings the environment damage to 114 |
| Scenarios.StepAfterTimeout | build/lib.linux-x86_64-2.7/needlemaster/environment.py:136-146 | past the time limit a step reports the episode over yet still advances the clock and the thread: the state is not frozen |

## Left out

- Rendering: `render`, every `draw`, `update_color`, the colour constants, `_compute_corners` and the needle outline polygon. They are plotting only and feed no core decision.
- Parsing: `safe_load_line`, the line reading of `Environment.load`, `Gate.load` and `Surface.load`, `parse_name`, and numpy's broadcasting of a one-value line. The model takes parsed values as inputs: `RawGate` holds the gate position and three four-vertex arrays, and `RawSurface` holds corners and the deep flag.
- shapely `Polygon.contains`, `math.cos`, `math.sin` and `np.linalg.norm` are foreign calls. They are uninterpreted fields of `Primitives`, not reimplemented.
- Floating point: all arithmetic is on exact reals, so IEEE rounding (for example in `(1/3.) * T`) is not modelled.
- The `woah()` debugger breakpoint in `_damage_score` and every `print` diagnostic are left out. They have no effect on the state.
- Fields the core never reads are left out: `done`, `passed_gates`, `nsurfaces`, `filename`, `partner`, the colour fields, and `max_dXY`, `length_const` and `scale`. The loaded gate count `ngates` is the length of the gate list.
- A `next_gate` index beyond the gate list (an `IndexError` in the code) cannot arise from `load`. `CheckStatus` and `Step` therefore require the cursor to be in range, and `Step` re-establishes it.
- `_path_score` with a screen width of 0 and a positive path length divides by zero; with a path length of 0 or less it returns 0 (line 271). `PathScore`, `IntendedPathScore`, `Score` and `IntendedScore` require a positive width.
- Scoring.DamageScore: the range [-2000, 0] is proved only for damage in [0, 100]. The environment damage is a sum over surfaces, so any two surfaces can take it past 100 (`Scenarios.TwoSurfacesExceedCeiling`: 90 plus 24 gives 114 in one step). `Scoring.EnvDamageBounds` gives the general bound of 100 per surface.
- `scripts/play.py` is a playback driver. It calls `Draw`, `Score`, `ParseDemoName` and `Demo`, none of which exists in the modelled code, and it calls `check_status` a second time after each `step`. `Environment.Run` models replay through `step` alone.

## Findings

| source | as written | input that shows it | evidently intended | confidence | as-written member | corrected member |
|---|---|---|---|---|---|---|
| build/lib.linux-x86_64-2.7/needlemaster/environment.py:275 | `w = max(w, 3*W)`, which raises every over-long path to at least three widths | width 1, path length 4: score -1500, below the documented floor of -1000; any length in (1, 3) scores -1000 instead of rising toward 0 | `min(w, 3*W)`, limiting the length to three widths as the comment says, so the score lies in [-1000, 0] | not executed | Scoring.PathScoreBelowFloor | Scoring.IntendedPathScore |

`Scoring.Score` keeps the code's `max`, because recorded demonstrations were
scored with it. `Scoring.IntendedScore` uses the corrected rule and has the
documented total range [-3000, 2000].

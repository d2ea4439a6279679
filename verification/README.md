# Tunnel game core in Dafny

This project models the gameplay rules of the tunnel-flying game. The player flies along a closed spline tube. Boxes are hazards: hitting one costs a point and a unit of health. Spheres are worth a point and ring gates are worth five. Scores past a threshold advance the stage.

Two versions of the game live side by side:
- `astro/src/Game.js` is the stage-aware game. It has a stage table, health, lasers, gates with a slab fallback, and drifting obstacles.
- `src/Game.js` is the earlier three-stage game.

The model is functional. Every entity is an immutable datatype, and every operation is a pure function or a short method over `seq`s.
- JavaScript numbers are `real`.
- Each `Math.random()` draw is a parameter in `[0, 1)`.
- Each `setTimeout` continuation is an explicit second step, for example `Game.CompleteStageTransition`.
- Every square root (`Math.sqrt`, `hypot`, `length`, `normalize`) goes through a `sqrt: real -> real` parameter. The parameter is constrained by `Numbers.IsSqrt`.
- The spline and the tube frames are parameters as well (`Placement`, `pointAt`, `tangentAt`).

Modules:
- `Numbers`: JavaScript numeric idioms (`x || d`, `% 1`, `randFloat`) and square-root facts.
- `Vectors`: the `Vector3` operations the logic uses.
- `Seqs`: filters, counts, `splice` and the backwards-loop sweep.
- `Hazards`: the obstacle field, covering spawn, density top-up, clearing and drift.
- `Collision`: the player-versus-ball test.
- `Gates` and `LegacyGates`: the two gate systems.
- `Slab`: the laser's segment-versus-box test.
- `Lasers`: the laser system.
- `Particles`: box bursts.
- `Kinematics`: speed easing and path position.
- `Stages`: the stage table.
- `Game`: the stage-aware game.
- `LegacyGame`: the earlier game.

## Model

| member | source | states |
|---|---|---|
| Numbers.Frac | astro/src/Game.js:608 | JavaScript `x % 1`: the result lies in `[0, 1)` for a non-negative `x`, in `(-1, 0]` for a negative one, and is `x` itself when `x` is already in `[0, 1)` |
| Numbers.RandFloatRange | astro/src/Game.js:1117 | `randFloat(lo, hi)` with a draw in `[0, 1)` lies in `[lo, hi]`, and strictly below `hi` when the range is not empty |
| Vectors.NormalizeUnit | astro/src/gates.js:37 | normalizing a non-zero vector gives a vector of length exactly 1 |
| Seqs.RemoveAt | astro/src/lasers.js:74-85 | `removeAt(i)`: out of range it changes nothing; in range the list loses one element, the elements before `i` stay where they are and those after shift down by one |
| Seqs.RemoveAtLosesOne | astro/src/lasers.js:74-85 | removing an index in range takes out exactly that element: the multiset of what is left plus the removed element is the original multiset |
| Seqs.PruneSweep | astro/src/lasers.js:40-49 | a backwards loop that updates each element and splices out the dead ones computes the order-preserving filter of the updated list |
| Seqs.FilterLength | astro/src/lasers.js:40-49 | a sweep keeps exactly the elements it does not remove: kept plus removed equals the original length |
| Seqs.FilterIdempotent | astro/src/gates.js:107-110 | a second sweep with the same test removes nothing more |
| Hazards.SpawnBox | astro/src/Game.js:1109-1131 | a spawned box is movable and not disintegrating |
| Hazards.SpawnSphere | astro/src/Game.js:1134-1151 | a spawned sphere is movable, not disintegrating, and has radius 0.02 |
| Hazards.SpawnedBoxes | astro/src/Game.js:1109-1132 | one box per loop index, each spawned from that index's draws |
| Hazards.SpawnedSpheres | astro/src/Game.js:1134-1152 | one sphere per loop index, each spawned from that index's draws |
| Hazards.SpawnObstacles | astro/src/Game.js:1102-1153 | exactly `max(0, N)` boxes and `max(0, M)` spheres are appended; the existing obstacles are kept as a prefix; every new one is movable and fresh; appended box `k` is the box built from draw `k` as item `k` of `N`, and likewise for spheres |
| Hazards.SpawnObstaclesInStratum | astro/src/Game.js:1109-1152 | appended box `k` of `N` lies in its own stratum `[startU + k/N (1-startU), startU + (k+1)/N (1-startU))`, likewise sphere `k` of `M`, and every appended obstacle lies in `[startU, 1)` |
| Hazards.SpawnedInStratum | astro/src/Game.js:1112 | item `i` of `N` lands in its own stratum `[startU + i/N (1-startU), startU + (i+1)/N (1-startU))`, which lies inside `[startU, 1)` |
| Hazards.SpawnedInsideTube | astro/src/Game.js:1117-1120 | a spawned obstacle's cross-section offset has length at most `0.9 * maxR`, which is strictly inside the drift bound |
| Hazards.EnsureObstacleDensity | astro/src/Game.js:1155-1161 | each list ends with at least its minimum, exactly `max(current, minimum)`, and the existing obstacles are kept as a prefix |
| Hazards.ClearField | astro/src/Game.js:464-484 | both obstacle lists end empty |
| Hazards.UpdateMovers | astro/src/Game.js:1163-1207 | nothing moves unless movers are enabled or the stage is 3 or more; list lengths are kept; non-movable hazards are untouched; movable ones keep their place along the path |
| Hazards.MoveStaysInTube | astro/src/Game.js:1180-1194 | after one step a movable hazard's offset lies within `0.95 * tubeRadius` |
| Hazards.BounceBounded | astro/src/Game.js:1185-1194 | whatever the drift, the boundary response leaves the offset within the bound |
| Hazards.BounceOntoBound | astro/src/Game.js:1186-1193 | a bounce puts the offset exactly on the bound, in the same direction |
| Hazards.BounceIsElastic | astro/src/Game.js:1187-1191 | a bounce keeps the length of the velocity `(vx, vy)` and reverses the velocity's component along the outward normal |
| Hazards.ReflectKeepsLength | astro/src/Game.js:1189-1191 | reflecting about a unit normal keeps the length of the velocity |
| Hazards.ReflectFlipsNormal | astro/src/Game.js:1189-1191 | reflecting about a unit normal negates the velocity's normal component |
| Hazards.DriftWithoutBounce | astro/src/Game.js:1183-1186 | inside the bound a step only moves the offset by `v * dt * scale` and keeps the velocity |
| Hazards.MoversStayInTube | astro/src/Game.js:1205-1206 | after the update every movable box and sphere lies within the drift bound |
| Collision.BallHitIsSegmentMeetsBall | astro/src/Game.js:1353-1390 | the game's two-stage hit test (the distance at the current position, then the anti-tunnelling quadratic) reports a hit exactly when some point of the move `prev -> cur` lies in the closed ball |
| Collision.MovingCase | astro/src/Game.js:1366-1389 | for a move that starts outside the ball, the quadratic root `tHit` lies in `[0, segLen]` exactly when the segment meets the ball |
| Collision.RootOnSegment | astro/src/Game.js:1381-1384 | the root the game computes gives a point of contact on the segment |
| Collision.RootBeforeContact | astro/src/Game.js:1381-1384 | any contact on the segment makes the discriminant non-negative and puts the first root in range |
| Gates.GateUAfterStart | astro/src/gates.js:35 | with a start in `[0, 1)`, a gate's path position lies in `[startU, 1)`, so the `% 1` never wraps |
| Gates.SpawnGate | astro/src/gates.js:35-63 | a gate has half-width 0.02, sits at the path point of its `u`, and carries the movers flag of its options |
| Gates.GateRadiusInRange | astro/src/gates.js:31-42 | a ring's radius lies between the two radius options, whichever order they come in |
| Gates.Spawn | astro/src/gates.js:21-69 | exactly `max(count, 0)` gates are appended after the existing ones, each built from its own draws |
| Gates.SpawnedAfterStart | astro/src/gates.js:34-35 | every spawned gate is live and sits in `[startU, 1)` |
| Gates.Clear | astro/src/gates.js:11-19 | the gate list ends empty |
| Gates.CheckPasses | astro/src/gates.js:72-149 | the backwards sweep leaves exactly the live, unpassed gates in their original order, and its count is the number of live gates passed |
| Gates.SweepSettles | astro/src/gates.js:107-110 | after a sweep every entry is live, and a second identical sweep removes and counts nothing |
| Gates.CrossedIsSignTest | astro/src/gates.js:84 | the three-part crossing condition is exactly `d0 * d1 <= 0` |
| Gates.CrossingTimeInRange | astro/src/gates.js:84-89 | when the signed distances change sign, `t = -d0 / denom` lies in `[0, 1]` |
| Gates.CrossingOnPlane | astro/src/gates.js:88-90 | the point at `t = -d0 / denom` lies on the ring's plane |
| Gates.RadialLength | astro/src/gates.js:91-93 | for a unit normal, the in-plane radial vector's squared length is the squared distance minus the squared normal component |
| Gates.PassMeaning | astro/src/gates.js:81-127 | a gate is passed exactly when either the move meets the plane within `ringRadius + halfWidth` of the centre (away from near-parallel moves), or both ends lie on one side and the current point is in the slab around the ring |
| Gates.CrossingPass | astro/src/gates.js:84-94 | a non-parallel move that crosses the plane within reach of the centre is a pass |
| Gates.SlabPass | astro/src/gates.js:120-126 | a same-side move whose current point is in the slab is a pass |
| Gates.SameSideMissesDisc | astro/src/gates.js:120 | a move that stays strictly on one side of the plane never meets it |
| LegacyGates.LegacySpawn | src/gates.js:21-46 | exactly `max(count, 0)` rings are appended, each with radius 0.25 and half-width 0.02, at a position drawn from `spawnStartU` |
| LegacyGates.LegacyCheckPasses | src/gates.js:49-81 | the sweep keeps the unpassed rings in order; its count is the number passed; kept plus counted is the original length |
| LegacyGates.LegacyPassIsPass | src/gates.js:55-70 | every pass the earlier test reports, the stage-aware test also reports |
| LegacyGates.LegacySameSideNeverPasses | src/gates.js:58-61 | with no slab fallback, a move that stays strictly on one side of a ring never passes it |
| LegacyGates.SlabOnlyInStageGame | astro/src/gates.js:120-126 | a same-side move in the slab is a pass in the stage-aware game and not in the earlier one |
| Slab.Axis | astro/src/lasers.js:93-99 | one corrected clip step keeps the parameter interval well-formed and never produces the NaN state |
| Slab.SegmentHitsBoxMeaning | astro/src/lasers.js:87-102 | the corrected segment-versus-box test holds exactly when some point of the segment at `t` in `[0, 1]` lies in the closed box |
| Slab.AxisAdmits | astro/src/lasers.js:93-99 | one clip step keeps exactly the parameters that were already admitted and put the point inside that axis's slab |
| Slab.AxisAgrees | astro/src/lasers.js:93-99 | unless the direction is zero and the start is exactly on a face, the written clip step equals the corrected one |
| Slab.AsWrittenAgrees | astro/src/lasers.js:87-102 | away from the NaN case the written test and the corrected test agree |
| Slab.PoisonedAccepts | astro/src/lasers.js:93-101 | once an axis with a zero direction and its start on a face produces NaN, the written test reports a hit whatever the other axes say |
| Slab.NaNFalseHit | astro/src/lasers.js:93-101 | a concrete segment that the written test reports as a hit while none of its points lies in the box |
| Lasers.Spawn | astro/src/lasers.js:17-37 | exactly `max(amount, 0)` lasers are appended after the existing ones; each starts at the origin, flies along the normalized aim direction, and has `traveled = 0` and `life = 0` |
| Lasers.SpawnOnTrack | astro/src/lasers.js:17-37 | spawned lasers have their mesh 0.1 ahead of the origin along a unit direction when the aim is not zero |
| Lasers.Advance | astro/src/lasers.js:43-46 | a laser keeps its origin and direction; it travels `6 dt` and ages `dt` |
| Lasers.AdvanceOnTrack | astro/src/lasers.js:43-46 | advancing keeps the mesh `0.1 + traveled` ahead of the origin along its direction |
| Lasers.Update | astro/src/lasers.js:39-51 | the survivors are the advanced lasers that have neither travelled 3.0 nor lived 0.4, in their original order |
| Lasers.UpdateOnTrack | astro/src/lasers.js:39-51 | lasers stay on their track across an update |
| Lasers.LifetimeDecides | astro/src/lasers.js:10-47 | for a laser on track the 0.4 s lifetime always expires before the 3.0 distance, so survival is decided by its age |
| Lasers.FindHitBox | astro/src/lasers.js:55-72 | the result is the first laser (ascending) that hits any live box, paired with the highest-indexed such box; nothing is found exactly when no laser hits any box |
| Lasers.HitsBoxMeaning | astro/src/lasers.js:62-66 | for a live box of non-negative size, a laser hits it exactly when some point of the segment from origin to mesh lies in the box of half-edge `(size or 0.05) / 2`, an absent size counting as 0.05 |
| Lasers.HitsBoxAgrees | astro/src/lasers.js:87-102 | unless the laser starts on a face plane along an axis it does not move on, the model's hit test decides exactly as the program's `_segmentAabbIntersect` on that box |
| Lasers.NaNLaserHit | astro/src/lasers.js:62-66 | a laser from `(0,0,5)` with its mesh at `(1,0,5)`, against a live box of size 2 at `(0,1,0)`: the program's test reports a hit, the model's does not |
| Particles.Age | astro/src/Game.js:833-842 | a burst's life grows by `dt`, and its opacity lies in `[0, 1]` exactly when its life is not negative |
| Particles.UpdateParticles | astro/src/Game.js:824-851 | the surviving bursts are the aged bursts that still have time left, in their original order |
| Particles.DisposedWhenFaded | src/Game.js:392-419 | a burst is disposed of exactly when its opacity has reached zero |
| Particles.SurvivorsVisible | src/Game.js:392-419 | after a frame with non-negative ages and step, each survivor has `0 <= life < 1` and `0 < opacity <= 1` |
| Particles.UpdateRemovesExpired | src/Game.js:392-419 | the survivors plus the expired bursts add up to the bursts there were |
| Kinematics.SpeedStep | astro/src/Game.js:606 | one frame of easing puts the speed between where it was and its target |
| Kinematics.SpeedGapShrinks | astro/src/Game.js:606 | each frame leaves 92% of the gap to the target speed |
| Kinematics.SpeedConverges | astro/src/Game.js:606 | after `n` frames the gap to the target is `0.92^n` of what it was |
| Kinematics.SpeedNeverOvershoots | astro/src/Game.js:606 | however many frames pass, the speed stays between its start and its target |
| Kinematics.PathStep | astro/src/Game.js:608 | with a non-negative advance, the path position stays in `[0, 1)` |
| Kinematics.PathStaysOnLoop | astro/src/Game.js:608 | moving forward at a non-negative speed keeps the path position in `[0, 1)` |
| Kinematics.LookAheadU | astro/src/Game.js:611 | the look-ahead position lies in `[0, 1)` |
| Stages.ConfigAt | astro/src/Game.js:861 | a table entry is found exactly when the index is in range, and it is an entry of the table |
| Stages.ConfigOrEmpty | astro/src/Game.js:861 | in range the entry itself, otherwise the empty configuration |
| Stages.DefaultThresholds | astro/src/Game.js:100-182 | the default table has five entries with thresholds 50, 100, 200, 400, 400, never decreasing |
| Game.InitialValid | astro/src/Game.js:78-97 | the constructed game is valid, with score 0, health 10, stage 1, laser amount 1, lasers off, not running and no transition |
| Game.ClearObstacles | astro/src/Game.js:464-484 | boxes, spheres and gates end empty and nothing else changes |
| Game.OnStageAdvance | astro/src/Game.js:853-911 | during a transition nothing changes; otherwise the transition starts at the target stage with the entry pending and the field and gates cleared; score, health and lasers stay; the player is not sent back, so speed and path position stay; validity is kept |
| Game.AddScore | astro/src/Game.js:717-745 | the score moves by `delta`; health, lasers and bursts stay; the field and gates either stay or are all cleared by an advance; validity is kept |
| Game.AddZero | astro/src/Game.js:717-720 | `addScore(0)` changes nothing |
| Game.AddScoreAdvances | astro/src/Game.js:738-744 | the stage moves to `stage + 1` exactly when the delta is non-zero, no transition is pending, the entry for the current stage exists and the new score reaches its threshold; otherwise the stage stays |
| Game.NoAdvancePastTable | astro/src/Game.js:738-744 | past the end of the table no score changes the stage |
| Game.LosingPointAdvances | astro/src/Game.js:738-744 | a negative delta is checked too: at stage 2 with 101 points, losing one still reaches 100 and enters stage 3 |
| Game.RepeatedThreshold | astro/src/Game.js:738-744 | with the repeated threshold of 400, the point that enters stage 5 leaves 400, so once that spawn completes the next point enters stage 6, and from there nothing advances |
| Game.TransitionGuard | astro/src/Game.js:853-855 | while a transition is pending a second advance is ignored, and scores still add up |
| Game.EnteringStage | astro/src/Game.js:876-890 | with a `speedDelta` the speed target becomes exactly `min(0.8, (speedTarget or 0.1) + speedDelta)`, and without one it is left alone; the movement scale becomes the entry's value when that is positive and is kept otherwise; lasers follow the entry; the laser amount is `max(1, laserAmount or 1)`; speed and path position are kept, since the reset to the start is commented out |
| Game.CompleteStageTransition | astro/src/Game.js:898-910 | the deferred step ends the transition and consumes the pending entry; with nothing pending it changes nothing; score, health and stage stay; movers once enabled stay enabled |
| Game.StageSpawnAfterSafeStart | astro/src/Game.js:892-903 | entering a stage and completing it leaves every box and sphere of the new stage in `[0.15, 1)` along the path, beyond the safe start |
| Game.CompletedAfterSafeStart | astro/src/Game.js:898-903 | the deferred spawn into a cleared field puts every box and sphere in `[0.15, 1)` along the path |
| Game.EnterThenComplete | astro/src/Game.js:853-911 | entering a stage and completing it leaves exactly the entry's boxes, spheres and gates in the target stage with the transition over; movers are on if they were or the entry enables them |
| Game.Pause | astro/src/Game.js:1071-1078 | the game stops running and nothing else changes |
| Game.Resume | astro/src/Game.js:1080-1087 | the game runs again and nothing else changes |
| Game.Start | astro/src/Game.js:1054-1069 | starting while running changes nothing; otherwise the game runs with an empty field; score, health and stage are kept |
| Game.CompleteStart | astro/src/Game.js:1064-1066 | the deferred start spawns 150 boxes and 170 spheres and changes nothing else |
| Game.GameOver | astro/src/Game.js:753-765 | the game pauses and health is refilled to 10; score and stage stay |
| Game.CheckHealth | astro/src/Game.js:747-751 | afterwards health is positive; a healthy game is untouched and a game still running was not changed; any change is a game over, leaving the game paused with health 10; score and stage are kept either way |
| Game.Penalize | astro/src/Game.js:772 | a penalised hit costs one point; a valid state stays valid with health at least 1 afterwards |
| Game.DisintegrateBox | astro/src/Game.js:768-822 | validity is kept, and at most one burst is added |
| Game.DisintegrateIdempotent | astro/src/Game.js:770-771 | disintegrating the same box twice is the same as once |
| Game.PenalizedHit | astro/src/Game.js:768-772 | a fresh box hit with a penalty costs exactly one point; health drops by one unless it reaches zero, in which case the game is over and health is back at 10; one burst is added |
| Game.LaserHitFree | astro/src/Game.js:768-772 | a fresh box destroyed without a penalty leaves score, health and stage as they were |
| Game.BoxStep | astro/src/Game.js:1350-1391 | one iteration of the box loop keeps the stage table and the lasers, and keeps validity |
| Game.SweepBoxes | astro/src/Game.js:1349-1392 | the whole box loop keeps the stage table and the lasers, and keeps validity |
| Game.SphereStep | astro/src/Game.js:1399-1441 | one iteration of the sphere loop keeps the table, lasers and bursts, and keeps validity |
| Game.SweepSpheres | astro/src/Game.js:1395-1442 | the sphere loop keeps the table, lasers and bursts, and keeps validity |
| Game.GateStep | astro/src/Game.js:1445-1456 | one gate iteration keeps the table, lasers and bursts, and keeps validity |
| Game.SweepGates | astro/src/Game.js:1445-1456 | the gate loop keeps the table, lasers and bursts, and keeps validity |
| Game.CheckCollisions | astro/src/Game.js:1342-1457 | with the hazards hidden nothing changes; otherwise the stage table and the lasers stay and validity is kept |
| Game.QuietAddScore | astro/src/Game.js:717-745 | a score change that cannot reach the next threshold only moves the score |
| Game.BoxStepQuiet | astro/src/Game.js:1350-1391 | with no advance possible, a hit box is removed and costs a point and a burst; a missed or disintegrating box stays |
| Game.SweepBoxesQuiet | astro/src/Game.js:1349-1392 | with no advance possible, the boxes left are exactly the unhit or already disintegrating ones, in order; the score drops by one and one burst is added per hit box |
| Game.SphereStepQuiet | astro/src/Game.js:1399-1441 | with no advance possible, a touched sphere is removed and scores one point |
| Game.SweepSpheresQuiet | astro/src/Game.js:1395-1442 | when one point per sphere cannot reach the threshold, the spheres left are exactly the untouched ones, in order, and the score rises by the number touched |
| Game.GateStepQuiet | astro/src/Game.js:1445-1447 | with no advance possible, a passed gate is removed and scores five points |
| Game.SweepGatesQuiet | astro/src/Game.js:1445-1456 | when five points per gate cannot reach the threshold, the gates left are the live unpassed ones, in order, and the score rises by five per gate passed |
| Game.FanSize | astro/src/Game.js:387 | at least one laser is fired per shot: `amount` when given, else the stage's laser amount |
| Game.FanSymmetric | astro/src/Game.js:402-412 | the fan's offsets are symmetric about the aim and evenly spaced by `spacing` |
| Game.FireLaser | astro/src/Game.js:378-413 | exactly `num` lasers are appended after the existing ones; laser `i` starts at the muzzle shifted by `-spacing (num-1)/2 + i spacing` along the right vector, flies toward the look-ahead point on the path (the normalized aim), with no distance or age; nothing else changes |
| Game.LaserStep | astro/src/Game.js:1002-1014 | with lasers disabled nothing changes; otherwise a box, a laser and a burst go exactly when some advanced laser hits some box, and the boxes stay exactly when none does; score, health and stage never change |
| Game.TravelForward | astro/src/Game.js:606-608 | with a non-negative position, speed, target and step, the path position stays in `[0, 1)` and the speed between its start and target |
| Game.Travel | astro/src/Game.js:606-608 | with non-negative inputs, the path position stays in `[0, 1)`; only speed and position change |
| Game.MoveObstacles | astro/src/Game.js:998 | the movers step changes only the field |
| Game.Frame | astro/src/Game.js:986-1020 | one frame of the loop keeps the stage table and keeps validity |
| LegacyGame.Target | src/Game.js:325-332 | an advance happens exactly from stage 1 at `stage2score` (default 50) or from stage 2 at `stage3score` (default 200), and it targets the next stage |
| LegacyGame.ResetToStart | src/Game.js:250-295 | the path position is 0 and speed and target are the base speed 0.1; nothing else changes |
| LegacyGame.LegacyOnStageAdvance | src/Game.js:421-460 | ignored during a transition; otherwise the transition starts at the target stage; score and bursts stay; validity is kept |
| LegacyGame.LegacyAddScore | src/Game.js:298-333 | the score moves by `delta`; the field and rings either stay or are cleared by an advance; validity is kept |
| LegacyGame.LegacyAddZero | src/Game.js:310-313 | `addScore(0)` changes nothing |
| LegacyGame.LegacyAdvances | src/Game.js:325-332 | the stage moves exactly when the delta is non-zero, no transition is pending and a threshold is reached |
| LegacyGame.LegacyStageCap | src/Game.js:325-332 | from stage 3 on no score changes the stage |
| LegacyGame.LegacyDefaultThresholds | src/Game.js:325-332 | without host thresholds, stage 2 starts at 50 points and stage 3 at 200 |
| LegacyGame.LegacyAdvanceSpeed | src/Game.js:434-442 | every advance puts the player back at the start at speed 0.1; only entering stage 2 raises the target, to `min(0.2, 0.1 + 0.03) = 0.13` |
| LegacyGame.LegacyBox | src/Game.js:503-521 | a box of the earlier spawn is movable and fresh |
| LegacyGame.LegacySphere | src/Game.js:524-541 | a sphere of the earlier spawn is movable, fresh, and of radius 0.02 |
| LegacyGame.LegacySpawnObstacles | src/Game.js:496-543 | exactly `max(0, N)` boxes and `max(0, M)` spheres are appended after the existing ones, each from its own draws |
| LegacyGame.LegacySpawnedAfterStart | src/Game.js:496-543 | every obstacle the earlier spawn adds lies in `[startU, 1)` along the path |
| LegacyGame.LegacyCompleteTransition | src/Game.js:446-458 | the deferred step ends the transition and consumes the pending stage; with nothing pending it changes nothing; score and stage stay |
| LegacyGame.LegacyEnterThenComplete | src/Game.js:446-456 | entering stage 2 and completing leaves 220 boxes, 220 spheres and 16 rings; entering stage 3 leaves 260, 260 and 20 with movers on; the transition is over either way |
| LegacyGame.LegacyDisintegrateBox | src/Game.js:336-390 | validity is kept |
| LegacyGame.LegacyPenalty | src/Game.js:336-340 | a penalised hit on a fresh box costs exactly one point, a laser-free hit costs nothing, and a second call on the same box does nothing |

## Left out

- Rendering, materials, bloom, ship tint and flash, particle positions and velocities: these are scene-graph calls with no game state behind them.
- Audio, music metrics and light colour: these are Web Audio I/O and colour math.
- Preloader and asset counting, `GameLoop` scheduling and `countDown`: these are timers. Each deferred continuation is an explicit step instead (`Game.CompleteStageTransition`, `Game.CompleteStart`, `LegacyGame.LegacyCompleteTransition`).
- The rest of `updateCamera`: the spring, banking and look-at smoothing are trigonometric float numerics. Only the speed easing and the path advance are modelled. The player's positions reach the model as the `Move` input, and the on-screen scale as the `worldPerPixel` input.
- `GateSystem.update`: moving gates (`movers`, set by every default stage entry except stage 3) drift their collision centre by up to `moveAmplitude` around the spawn point in the program, every frame; the model keeps every gate at its spawn centre, so pass results for moving gates can differ. The motion is trigonometric in the clock, which the model does not carry.
- Clouds and the preview ship: these are visual motion.
- `setHazardsShown` and the countdown overlay: the collision step takes whether the hazards are shown as its `shown` input.
- The host's score display and `startNewGame`: the game reports the score to the host and takes none back.
- The stage table's music tracks: they only feed the audio.
- `Math.sqrt`, `hypot` and `normalize` are a `sqrt` parameter that is a square root on the non-negative reals. Trigonometry is left out: a spawn draw supplies the unit direction `(cos a, sin a)` and the radius directly.
- `Math.random()` is a draw parameter. Where the source draws a value the model does not keep (the gate phase, sizes on screen), the draw is dropped.
- Floating-point rounding is not modelled: numbers are exact reals. The one float effect that changes behaviour, the NaN of the slab test, is modelled in `Slab` and recorded as the finding below; the laser system and the game use the corrected test, as the next three lines say.
- The earlier game's gate check (src/Game.js:758-760) is guarded by `typeof addScore === 'function'`. No free `addScore` exists, only the method at src/Game.js:298, so the guard is false and `checkPasses` is never called: rings in the earlier game are never scored and never removed, and the model awards them nothing. `LegacyGates.LegacyCheckPasses` models the gate system's pass sweep as written, which the earlier game never reaches.
- The earlier game's `checkCollisions` and `updateMovers` are not part of this model. The stage-aware versions are modelled.
- Game.DisintegrateBox: the burst's particle geometry is left out, so the contract speaks only of the burst count and the state's validity.
- Game.CheckCollisions: the sweeps' exact effect on the lists is stated by the quiet-sweep lemmas (`Game.SweepBoxesQuiet` and the others), which cover the case where no stage advance can happen mid-sweep. When an advance happens mid-sweep, the clear empties the lists and the remaining indices fall off the end. The model keeps that re-entrancy, but its contract only states the frame and validity facts.
- Game.BoxStep, Game.SweepBoxes: the contract states only the frame and validity facts, because a hit's `addScore(-1)` can advance the stage and clear the lists mid-loop. The exact list and score effect when no advance is possible is stated by `Game.BoxStepQuiet` and `Game.SweepBoxesQuiet`.
- Game.SphereStep, Game.SweepSpheres: weaker for the same reason; the exact effect is in `Game.SphereStepQuiet` and `Game.SweepSpheresQuiet`.
- Game.GateStep, Game.SweepGates: weaker for the same reason; the exact effect is in `Game.GateStepQuiet` and `Game.SweepGatesQuiet`.
- LegacyGame.LegacyDisintegrateBox: the contract states validity only. The score effect and idempotence are in `LegacyGame.LegacyPenalty`.
- Lasers.HitsBoxMeaning: the meaning is proved for the corrected hit test. The program's test also accepts a segment that starts on a face plane along an axis it does not move on, even with no point in the box; `Lasers.HitsBoxAgrees` proves the two agree everywhere else and `Lasers.NaNLaserHit` exhibits the difference.
- Lasers.FindHitBox: it searches with the corrected test, so for the laser of `Lasers.NaNLaserHit` it finds nothing where the program's `findHitBox` returns that box.
- Game.LaserStep: it uses `Lasers.FindHitBox`, so it keeps the box of `Lasers.NaNLaserHit` where the program destroys it and removes the laser; on every other input the two agree by `Lasers.HitsBoxAgrees`.
- Game.Frame: the frame's contract is stated as the frame and validity facts of its parts. The per-part meaning is in `Game.LaserStep`, `Game.Travel`, `Game.MoveObstacles` and the collision lemmas.

## Findings

| source | as written | input that shows it | evidently intended | confidence | as-written member | corrected member |
|---|---|---|---|---|---|---|
| astro/src/lasers.js:93-101 | on an axis with zero direction, the inverse direction is `Infinity`, and `(min - p0) * Infinity` is `0 * Infinity = NaN` when `p0` lies on a face; every later comparison with NaN is false, so the test reports a hit | segment `(0,0,5) -> (1,0,5)` against the box `[-1,0,-1]..[1,1,1]`: the x-slab clips nothing, the y-direction is 0 with `p0.y` on the face, and no point of the segment is in the box (z is 5) | a zero-direction axis hits exactly when `min <= p0 <= max` on that axis, so this segment misses | not executed | Slab.NaNFalseHit | Slab.SegmentHitsBoxMeaning |

/** The earlier, three-stage game: two score thresholds, a reset to the start
    of the path on every advance, fixed stage spawns, and box hits that cost a
    point but no health. */
module LegacyGame {
  import opened Numbers
  import opened Vectors
  import opened Hazards
  import opened Gates
  import opened LegacyGates
  import opened Particles
  import opened Kinematics

  const DefaultStage2Score: int := 50
  const DefaultStage3Score: int := 200
  /** The cap a stage-2 entry puts on the speed target. */
  const Stage2SpeedCap: real := 0.2
  const Stage2SpeedStep: real := 0.03
  /** Where along the path a stage's obstacles start. */
  const LegacySafeStartU: real := 0.25

  /** The earlier game's state. Score and stage live behind the host's
      `getScore`/`setScore` and `getStage`/`setStage`; the two thresholds are
      the host's `stage2score` and `stage3score`, absent when not numbers.
      `pendingStage` is the stage whose spawn is scheduled. */
  datatype LegacyState = LegacyState(
    score: int,
    stage: int,
    transition: bool,
    pendingStage: Option<int>,
    stage2score: Option<int>,
    stage3score: Option<int>,
    speed: real,
    speedTarget: real,
    pathU: real,
    moversEnabled: bool,
    field: Field,
    rings: seq<Ring>,
    gateStartU: real,
    bursts: seq<Burst>)

  predicate LegacyValid(g: LegacyState) {
    1 <= g.stage && (g.transition <==> g.pendingStage.Some?)
  }

  function GetInt(o: Option<int>, d: int): int { if o.Some? then o.value else d }

  /** The stage this score change would advance into, if any. */
  function Target(g: LegacyState, next: int): (t: Option<int>)
    ensures t.Some? ==> t.value == OrInt(g.stage, 1) + 1
    ensures t.Some? <==> (OrInt(g.stage, 1) == 1 && next >= GetInt(g.stage2score, DefaultStage2Score))
                         || (OrInt(g.stage, 1) == 2 && next >= GetInt(g.stage3score, DefaultStage3Score))
  {
    var cur := OrInt(g.stage, 1);
    if cur == 1 && next >= GetInt(g.stage2score, DefaultStage2Score) then Some(2)
    else if cur == 2 && next >= GetInt(g.stage3score, DefaultStage3Score) then Some(3)
    else None
  }

  /** `resetToStart()`: back to the start of the path at the base speed. */
  function ResetToStart(g: LegacyState): (r: LegacyState)
    ensures r.pathU == 0.0 && r.speed == BaseSpeed && r.speedTarget == BaseSpeed
    ensures r == g.(pathU := r.pathU, speed := r.speed, speedTarget := r.speedTarget)
  {
    g.(pathU := 0.0, speed := BaseSpeed, speedTarget := BaseSpeed)
  }

  /** `onStageAdvance(targetStage)`: ignored during a transition; otherwise
      the stage is recorded, the player goes back to the start, the obstacles
      are cleared, stage 2 gets a faster target, and the spawn is scheduled. */
  function LegacyOnStageAdvance(g: LegacyState, target: int): (r: LegacyState)
    ensures g.transition ==> r == g
    ensures !g.transition ==> (r.transition && r.stage == target && r.pendingStage == Some(target)
              && |r.field.boxes| == 0 && |r.field.spheres| == 0 && |r.rings| == 0)
    ensures r.score == g.score && r.bursts == g.bursts
    ensures LegacyValid(g) && target >= 1 ==> LegacyValid(r)
  {
    if g.transition then g
    else
      var reset := ResetToStart(g);
      var cleared := reset.(field := ClearField(reset.field), rings := []);
      var faster := if target == 2
                    then cleared.(speedTarget := Min(Stage2SpeedCap, OrReal(cleared.speedTarget, BaseSpeed) + Stage2SpeedStep))
                    else cleared;
      faster.(transition := true, pendingStage := Some(target), stage := target)
  }

  /** `addScore(delta)` of the earlier game. */
  function LegacyAddScore(g: LegacyState, delta: int): (r: LegacyState)
    ensures r.score == g.score + delta
    ensures r.bursts == g.bursts
    ensures (r.field == g.field && r.rings == g.rings)
            || (|r.field.boxes| == 0 && |r.field.spheres| == 0 && |r.rings| == 0)
    ensures LegacyValid(g) ==> LegacyValid(r)
  {
    if delta == 0 then g
    else
      var next := g.score + delta;
      var scored := g.(score := next);
      match Target(g, next)
      case Some(t) => LegacyOnStageAdvance(scored, t)
      case None => scored
  }

  /** A box of the earlier spawn: as in the stage-aware game, except that its
      place along the path is drawn over the whole remaining path. */
  function LegacyBox(d: ObstacleDraw, startU: real, place: Placement): (h: Hazard)
    ensures h.movable && !h.disintegrated
  {
    var size := d.size * (0.1 - 0.01) + 0.01;
    var u := RandFloat(startU, 1.0, d.along);
    var r := RandFloat(0.05, SpawnMaxR * 0.9, d.radial);
    Hazard(size, u, d.cosA * r, d.sinA * r, RandFloatSpread(0.4, d.vx), RandFloatSpread(0.4, d.vy),
           true, false, place(u, d.cosA * r, d.sinA * r))
  }

  function LegacySphere(d: ObstacleDraw, startU: real, place: Placement): (h: Hazard)
    ensures h.movable && !h.disintegrated && h.size == SphereRadius
  {
    var u := RandFloat(startU, 1.0, d.along);
    var r := RandFloat(0.05, SpawnMaxR * 0.9, d.radial);
    Hazard(SphereRadius, u, d.cosA * r, d.sinA * r, RandFloatSpread(0.4, d.vx), RandFloatSpread(0.4, d.vy),
           true, false, place(u, d.cosA * r, d.sinA * r))
  }

  /** `spawnObstacles(boxCount, sphereCount, startU)` of the earlier game. */
  function LegacySpawnObstacles(f: Field, boxCount: int, sphereCount: int, startU: real,
                                boxDraw: nat -> ObstacleDraw, sphereDraw: nat -> ObstacleDraw,
                                place: Placement): (r: Field)
    ensures |r.boxes| == |f.boxes| + MaxInt(0, boxCount)
    ensures |r.spheres| == |f.spheres| + MaxInt(0, sphereCount)
    ensures r.boxes[..|f.boxes|] == f.boxes && r.spheres[..|f.spheres|] == f.spheres
    ensures forall i :: |f.boxes| <= i < |r.boxes| ==> r.boxes[i] == LegacyBox(boxDraw(i - |f.boxes|), startU, place)
    ensures forall i :: |f.spheres| <= i < |r.spheres| ==> r.spheres[i] == LegacySphere(sphereDraw(i - |f.spheres|), startU, place)
  {
    var boxes := seq(MaxInt(0, boxCount), i requires 0 <= i => LegacyBox(boxDraw(i), startU, place));
    var spheres := seq(MaxInt(0, sphereCount), i requires 0 <= i => LegacySphere(sphereDraw(i), startU, place));
    Field(f.boxes + boxes, f.spheres + spheres)
  }

  /** Every obstacle the earlier spawn adds lies in `[startU, 1)` along the
      path, when the start lies in `[0, 1)` and the draws in `[0, 1)`. */
  lemma LegacySpawnedAfterStart(f: Field, boxCount: int, sphereCount: int, startU: real,
                                boxDraw: nat -> ObstacleDraw, sphereDraw: nat -> ObstacleDraw,
                                place: Placement)
    requires 0.0 <= startU < 1.0
    requires forall i :: 0 <= i < boxCount ==> UnitDraw(boxDraw(i).along)
    requires forall i :: 0 <= i < sphereCount ==> UnitDraw(sphereDraw(i).along)
    ensures var r := LegacySpawnObstacles(f, boxCount, sphereCount, startU, boxDraw, sphereDraw, place);
            (forall i :: |f.boxes| <= i < |r.boxes| ==> startU <= r.boxes[i].u < 1.0)
            && (forall i :: |f.spheres| <= i < |r.spheres| ==> startU <= r.spheres[i].u < 1.0)
  {
    var r := LegacySpawnObstacles(f, boxCount, sphereCount, startU, boxDraw, sphereDraw, place);
    forall i | |f.boxes| <= i < |r.boxes|
      ensures startU <= r.boxes[i].u < 1.0
    {
      RandFloatRange(startU, 1.0, boxDraw(i - |f.boxes|).along);
    }
    forall i | |f.spheres| <= i < |r.spheres|
      ensures startU <= r.spheres[i].u < 1.0
    {
      RandFloatRange(startU, 1.0, sphereDraw(i - |f.spheres|).along);
    }
  }

  /** The random draws of one stage spawn. */
  datatype LegacyDraws = LegacyDraws(boxes: nat -> ObstacleDraw, spheres: nat -> ObstacleDraw, rings: nat -> real)

  /** The deferred part of `onStageAdvance`: stage 2 gets 220 boxes, 220
      spheres and 16 rings; stage 3 gets 260, 260 and 20 and turns movers on.
      The rings are placed from the gate system's own start, not `SafeStartU`,
      which the earlier `spawn(count)` does not take. */
  function LegacyCompleteTransition(g: LegacyState, d: LegacyDraws, place: Placement,
                                    pointAt: real -> Vec3, tangentAt: real -> Vec3, sqrt: real -> real): (r: LegacyState)
    requires IsSqrt(sqrt)
    ensures g.pendingStage.Some? ==> !r.transition && r.pendingStage.None?
    ensures g.pendingStage.None? ==> r == g
    ensures r.score == g.score && r.stage == g.stage
    ensures LegacyValid(g) ==> LegacyValid(r)
  {
    match g.pendingStage
    case None => g
    case Some(t) =>
      var done := g.(transition := false, pendingStage := None);
      if t == 2 then
        done.(field := LegacySpawnObstacles(g.field, 220, 220, LegacySafeStartU, d.boxes, d.spheres, place),
              rings := LegacySpawn(g.rings, 16, g.gateStartU, d.rings, pointAt, tangentAt, sqrt))
      else if t == 3 then
        done.(field := LegacySpawnObstacles(g.field, 260, 260, LegacySafeStartU, d.boxes, d.spheres, place),
              rings := LegacySpawn(g.rings, 20, g.gateStartU, d.rings, pointAt, tangentAt, sqrt),
              moversEnabled := true)
      else done
  }

  /** `disintegrateBox(boxes[i], penalize)` of the earlier game: a point is
      lost on a penalised hit, health is not involved. */
  function LegacyDisintegrateBox(g: LegacyState, i: int, penalize: bool): (r: LegacyState)
    ensures LegacyValid(g) ==> LegacyValid(r)
  {
    if !(0 <= i < |g.field.boxes|) || g.field.boxes[i].disintegrated then g
    else
      var boxes := g.field.boxes[i := g.field.boxes[i].(disintegrated := true)];
      var marked := g.(field := g.field.(boxes := boxes));
      var hit := if penalize then LegacyAddScore(marked, -1) else marked;
      hit.(bursts := hit.bursts + [NewBurst])
  }

  // ------------------------------------------------------------------ facts

  lemma LegacyAddZero(g: LegacyState)
    ensures LegacyAddScore(g, 0) == g
  {
  }

  /** The stage moves exactly when a non-zero delta reaches the threshold of
      stage 2 (from stage 1) or of stage 3 (from stage 2) outside a transition. */
  lemma LegacyAdvances(g: LegacyState, delta: int)
    requires LegacyValid(g)
    ensures var r := LegacyAddScore(g, delta);
            (r.stage != g.stage <==> delta != 0 && !g.transition && Target(g, g.score + delta).Some?)
            && (r.stage != g.stage ==> r.stage == g.stage + 1)
  {
  }

  /** Stage 3 is the last: from there on no score advances the stage. */
  lemma LegacyStageCap(g: LegacyState, delta: int)
    requires LegacyValid(g) && g.stage >= 3
    ensures LegacyAddScore(g, delta).stage == g.stage
  {
  }

  /** With the host giving no thresholds, stage 2 begins at 50 points and
      stage 3 at 200. */
  lemma LegacyDefaultThresholds(g: LegacyState, delta: int)
    requires LegacyValid(g) && !g.transition && g.stage2score.None? && g.stage3score.None? && delta != 0
    ensures g.stage == 1 ==> (LegacyAddScore(g, delta).stage == 2 <==> g.score + delta >= 50)
    ensures g.stage == 2 ==> (LegacyAddScore(g, delta).stage == 3 <==> g.score + delta >= 200)
  {
  }

  /** Every advance puts the player back at the start at the base speed; only
      entering stage 2 raises the target, and then to 0.13. */
  lemma LegacyAdvanceSpeed(g: LegacyState, target: int)
    requires !g.transition
    ensures var r := LegacyOnStageAdvance(g, target);
            r.pathU == 0.0 && r.speed == BaseSpeed
            && r.speedTarget == (if target == 2 then 0.13 else BaseSpeed)
  {
  }

  /** Entering a stage and completing it leaves the stage's fixed spawn. */
  lemma LegacyEnterThenComplete(g: LegacyState, target: int, d: LegacyDraws, place: Placement,
                                pointAt: real -> Vec3, tangentAt: real -> Vec3, sqrt: real -> real)
    requires IsSqrt(sqrt) && !g.transition
    ensures var r := LegacyCompleteTransition(LegacyOnStageAdvance(g, target), d, place, pointAt, tangentAt, sqrt);
            !r.transition && r.stage == target
            && (target == 2 ==> |r.field.boxes| == 220 && |r.field.spheres| == 220 && |r.rings| == 16
                                && r.moversEnabled == g.moversEnabled)
            && (target == 3 ==> |r.field.boxes| == 260 && |r.field.spheres| == 260 && |r.rings| == 20
                                && r.moversEnabled)
  {
  }

  /** A penalised box hit costs exactly one point; a second hit on the same
      box does nothing. */
  lemma LegacyPenalty(g: LegacyState, i: int, p: bool)
    requires 0 <= i < |g.field.boxes| && !g.field.boxes[i].disintegrated
    ensures LegacyDisintegrateBox(g, i, true).score == g.score - 1
    ensures LegacyDisintegrateBox(g, i, false).score == g.score
    ensures LegacyDisintegrateBox(LegacyDisintegrateBox(g, i, p), i, p) == LegacyDisintegrateBox(g, i, p)
  {
  }
}

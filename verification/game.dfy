/** The stage-aware game as a state machine: score and stage progression,
    the health economy, the collision sweep with its side effects, the laser
    step and the laser fan. Every `setTimeout` continuation is a step of its
    own (`CompleteStageTransition`, `CompleteStart`). */
module Game {
  import opened Numbers
  import opened Vectors
  import opened Seqs
  import opened Hazards
  import opened Collision
  import opened Gates
  import opened Lasers
  import opened Particles
  import opened Kinematics
  import opened Stages

  const MaxHealth: int := 10
  /** Speed targets are capped here when a stage raises them. */
  const MaxSpeedTarget: real := 0.8
  /** Where along the path a stage's obstacles and gates start. */
  const SafeStartU: real := 0.15
  const StartBoxes: int := 150
  const StartSpheres: int := 170
  const StartU: real := 0.12
  const GatePoints: int := 5
  const DefaultPlayerRadius: real := 0.03
  /** What a sphere's radius is widened by for the contact test. */
  const SphereReach: real := 0.1
  /** On-screen spacing of the laser fan, in pixels. */
  const FanPixels: real := 50.0

  /** The game's state. `transition` is `_stageTransition`; `pending` is the
      configuration the scheduled stage completion will apply. */
  datatype State = State(
    score: int,
    health: int,
    stage: int,
    transition: bool,
    pending: Option<StageConfig>,
    stages: seq<StageConfig>,
    speed: real,
    speedTarget: real,
    pathU: real,
    movementSpeedScale: real,
    lasersEnabled: bool,
    laserAmount: int,
    moversEnabled: bool,
    running: bool,
    field: Field,
    gates: seq<GateEntry>,
    lasers: seq<Laser>,
    bursts: seq<Burst>)

  /** The state the constructor leaves. */
  const Initial: State := State(0, MaxHealth, 1, false, None, DefaultStages,
                                BaseSpeed, BaseSpeed, 0.0, 1.0, false, 1, false, false,
                                Field([], []), [], [], [])

  /** What the game reads from the world: `sqrt` for every square root and
      vector length, the tube's placement of obstacles, and the path's points
      and tangents. */
  datatype World = World(sqrt: real -> real, place: Placement, pointAt: real -> Vec3, tangentAt: real -> Vec3)

  ghost predicate ValidWorld(w: World) { IsSqrt(w.sqrt) }

  /** The random draws a spawn consumes, item by item. */
  datatype Draws = Draws(boxes: nat -> ObstacleDraw, spheres: nat -> ObstacleDraw, gates: nat -> GateDraw)

  /** This frame's move of the player, and the player's radius as configured. */
  datatype Move = Move(prev: Vec3, cur: Vec3, playerRadius: real)

  /** What every reachable state satisfies. */
  predicate Valid(g: State) {
    0 <= g.health <= MaxHealth && 1 <= g.stage && 1 <= g.laserAmount
    && (g.transition <==> g.pending.Some?)
  }

  lemma InitialValid()
    ensures Valid(Initial)
    ensures Initial.health == MaxHealth && Initial.stage == 1 && Initial.laserAmount == 1
    ensures Initial.score == 0 && !Initial.transition && !Initial.running && !Initial.lasersEnabled
  {
  }

  // ------------------------------------------------------------ progression

  /** `Number(this.currentStage) || 1`. */
  function CurrentStage(g: State): int { OrInt(g.stage, 1) }

  /** The entry for advancing out of the current stage. */
  function NextConfig(g: State): Option<StageConfig> { ConfigAt(g.stages, CurrentStage(g) - 1) }

  /** A new score of `next` reaches the threshold of the entry for the next stage. */
  predicate Reaches(g: State, next: int) {
    NextConfig(g).Some? && next >= NextConfig(g).value.threshold
  }

  /** `clearObstacles()`: boxes, spheres and gates are removed. */
  function ClearObstacles(g: State): (r: State)
    ensures |r.field.boxes| == 0 && |r.field.spheres| == 0 && |r.gates| == 0
    ensures r == g.(field := r.field, gates := r.gates)
  {
    g.(field := ClearField(g.field), gates := Gates.Clear(g.gates))
  }

  /** The speed target after entering a stage with this configuration. */
  function RaisedSpeedTarget(cfg: StageConfig, speedTarget: real): real {
    if cfg.speedDelta.Some? then Min(MaxSpeedTarget, OrReal(speedTarget, BaseSpeed) + cfg.speedDelta.value)
    else speedTarget
  }

  /** The synchronous part of `onStageAdvance(targetStage)`: ignored during a
      transition; otherwise it records the new stage, clears the obstacles,
      applies the difficulty settings and schedules the completion. */
  function OnStageAdvance(g: State, target: int): (r: State)
    ensures g.transition ==> r == g
    ensures !g.transition ==> (r.transition && r.stage == target
              && |r.field.boxes| == 0 && |r.field.spheres| == 0 && |r.gates| == 0
              && r.pending == Some(ConfigOrEmpty(g.stages, target - 2)))
    ensures r.score == g.score && r.health == g.health && r.running == g.running
    ensures r.stages == g.stages && r.lasers == g.lasers && r.bursts == g.bursts
    ensures r.speed == g.speed && r.pathU == g.pathU
    ensures Valid(g) && target >= 1 ==> Valid(r)
  {
    if g.transition then g
    else
      var cfg := ConfigOrEmpty(g.stages, target - 2);
      ClearObstacles(g).(
        transition := true,
        pending := Some(cfg),
        stage := target,
        speedTarget := RaisedSpeedTarget(cfg, g.speedTarget),
        movementSpeedScale :=
          if cfg.movementSpeedScale.Some? && cfg.movementSpeedScale.value > 0.0
          then cfg.movementSpeedScale.value else g.movementSpeedScale,
        lasersEnabled := cfg.lasers,
        laserAmount := MaxInt(1, OrInt(cfg.laserAmount, 1)))
  }

  /** `addScore(delta)`: a zero delta is ignored; otherwise the score moves by
      `delta` and the stage advances when the new score reaches the threshold
      of the next entry of the table, whatever the sign of `delta`. */
  function AddScore(g: State, delta: int): (r: State)
    ensures r.score == g.score + delta
    ensures r.health == g.health && r.running == g.running
    ensures r.stages == g.stages && r.lasers == g.lasers && r.bursts == g.bursts
    ensures (r.field == g.field && r.gates == g.gates)
            || (|r.field.boxes| == 0 && |r.field.spheres| == 0 && |r.gates| == 0)
    ensures Valid(g) ==> Valid(r)
  {
    if delta == 0 then g
    else
      var next := g.score + delta;
      var scored := g.(score := next);
      if Reaches(g, next) then OnStageAdvance(scored, CurrentStage(g) + 1) else scored
  }

  /** The deferred part of `onStageAdvance`: spawns the stage's obstacles and
      gates from `SafeStartU`, enables movers when the stage asks for them,
      and ends the transition. Without a scheduled completion it does nothing. */
  function CompleteStageTransition(g: State, w: World, d: Draws): (r: State)
    requires ValidWorld(w)
    ensures g.pending.Some? ==> !r.transition && r.pending.None?
    ensures g.pending.None? ==> r == g
    ensures r.score == g.score && r.health == g.health && r.stage == g.stage && r.stages == g.stages
    ensures g.moversEnabled ==> r.moversEnabled
    ensures Valid(g) ==> Valid(r)
  {
    match g.pending
    case None => g
    case Some(cfg) =>
      var f := if cfg.boxes != 0 || cfg.spheres != 0
               then SpawnObstacles(g.field, cfg.boxes, cfg.spheres, SafeStartU, d.boxes, d.spheres, w.place)
               else g.field;
      var gates := if cfg.gates != 0
                   then Gates.Spawn(g.gates, cfg.gates, SafeStartU, cfg.gateOptions, d.gates, w.pointAt, w.tangentAt, w.sqrt)
                   else g.gates;
      g.(field := f, gates := gates, moversEnabled := g.moversEnabled || cfg.enableMovers,
         transition := false, pending := None)
  }

  // ---------------------------------------------------------------- running

  /** `pause()`. */
  function Pause(g: State): (r: State)
    ensures !r.running && r == g.(running := false)
  {
    if !g.running then g else g.(running := false)
  }

  /** `resume()`. */
  function Resume(g: State): (r: State)
    ensures r.running && r == g.(running := true)
  {
    if g.running then g else g.(running := true)
  }

  /** `start()`: ignored while running; otherwise the game runs with the
      obstacles cleared, and the spawn follows as `CompleteStart`. */
  function Start(g: State): (r: State)
    ensures g.running ==> r == g
    ensures r.running
    ensures !g.running ==> |r.field.boxes| == 0 && |r.field.spheres| == 0 && |r.gates| == 0
    ensures r.score == g.score && r.health == g.health && r.stage == g.stage && r.transition == g.transition
  {
    if g.running then g else ClearObstacles(g).(running := true)
  }

  /** The deferred part of `start()`: `spawnObstacles()` with its defaults. */
  function CompleteStart(g: State, w: World, d: Draws): (r: State)
    ensures |r.field.boxes| == |g.field.boxes| + StartBoxes
    ensures |r.field.spheres| == |g.field.spheres| + StartSpheres
    ensures r == g.(field := r.field)
  {
    g.(field := SpawnObstacles(g.field, StartBoxes, StartSpheres, StartU, d.boxes, d.spheres, w.place))
  }

  /** `gameOver()`: the game pauses and health is refilled; score and stage stay. */
  function GameOver(g: State): (r: State)
    ensures r.health == MaxHealth && !r.running
    ensures r.score == g.score && r.stage == g.stage
    ensures r == g.(health := r.health, running := r.running)
  {
    Pause(g).(running := false, health := MaxHealth)
  }

  /** `checkHealth()`: afterwards health is positive; a game that is still
      running, or was healthy, is untouched; otherwise it is over with full
      health, and score and stage are kept either way. */
  function CheckHealth(g: State): (r: State)
    ensures 0 < r.health
    ensures r.running ==> r == g
    ensures 0 < g.health ==> r == g
    ensures r != g ==> !r.running && r.health == MaxHealth
    ensures r.score == g.score && r.stage == g.stage
    ensures r == g.(health := r.health, running := r.running)
  {
    if g.health <= 0 then GameOver(g) else g
  }

  // ----------------------------------------------------------------- health

  /** The penalty of a box hit by the player: a point and a unit of health,
      health floored at 0, then the health check. */
  function Penalize(g: State): (r: State)
    ensures r.score == g.score - 1
    ensures r.stages == g.stages && r.lasers == g.lasers && r.bursts == g.bursts
    ensures (r.field == g.field && r.gates == g.gates)
            || (|r.field.boxes| == 0 && |r.field.spheres| == 0 && |r.gates| == 0)
    ensures Valid(g) ==> Valid(r) && 1 <= r.health
  {
    var scored := AddScore(g, -1);
    CheckHealth(scored.(health := MaxInt(0, OrInt(scored.health, 0) - 1)))
  }

  /** `disintegrateBox(boxes[i], penalize)`: a box already disintegrating (or
      missing) is ignored; otherwise it is marked, the penalty applies when
      asked for, and a particle burst starts. */
  function DisintegrateBox(g: State, i: int, penalize: bool): (r: State)
    ensures r.stages == g.stages && r.lasers == g.lasers
    ensures |r.bursts| == |g.bursts| || |r.bursts| == |g.bursts| + 1
    ensures Valid(g) ==> Valid(r)
  {
    if !(0 <= i < |g.field.boxes|) || g.field.boxes[i].disintegrated then g
    else
      var boxes := g.field.boxes[i := g.field.boxes[i].(disintegrated := true)];
      var marked := g.(field := g.field.(boxes := boxes));
      var hit := if penalize then Penalize(marked) else marked;
      hit.(bursts := hit.bursts + [NewBurst])
  }

  /** A box is fresh when it is in the list and not yet disintegrating. */
  predicate Fresh(g: State, i: int) {
    0 <= i < |g.field.boxes| && !g.field.boxes[i].disintegrated
  }

  /** Disintegrating the same box again does nothing: either it is marked, or
      the penalty advanced the stage and the list is empty. */
  lemma DisintegrateIdempotent(g: State, i: int, p: bool, q: bool)
    ensures DisintegrateBox(DisintegrateBox(g, i, p), i, q) == DisintegrateBox(g, i, p)
  {
  }

  /** The health economy of a box the player flies into: a point and a unit of
      health are lost, and when health runs out the game is over, which
      refills it and stops the game. A burst starts either way. */
  lemma PenalizedHit(g: State, i: int)
    requires Valid(g) && Fresh(g, i)
    ensures var r := DisintegrateBox(g, i, true);
            r.score == g.score - 1
            && r.health == (if g.health <= 1 then MaxHealth else g.health - 1)
            && r.running == (g.running && g.health > 1)
            && r.bursts == g.bursts + [NewBurst]
  {
  }

  /** A box a laser destroys costs nothing: score, health and stage stay. */
  lemma LaserHitFree(g: State, i: int)
    requires Fresh(g, i)
    ensures var r := DisintegrateBox(g, i, false);
            r.score == g.score && r.health == g.health && r.stage == g.stage && r.running == g.running
            && r.bursts == g.bursts + [NewBurst]
            && r.field.spheres == g.field.spheres && r.gates == g.gates
            && |r.field.boxes| == |g.field.boxes| && r.field.boxes[i].disintegrated
  {
  }

  // ------------------------------------------------------------ stage facts

  /** `addScore(0)` changes nothing. */
  lemma AddZero(g: State)
    ensures AddScore(g, 0) == g
  {
  }

  /** The stage moves exactly when a non-zero delta brings the score to the
      next threshold outside a transition, and then by one. */
  lemma AddScoreAdvances(g: State, delta: int)
    requires Valid(g)
    ensures var r := AddScore(g, delta);
            (r.stage != g.stage <==> delta != 0 && !g.transition && Reaches(g, g.score + delta))
            && (r.stage != g.stage ==> r.stage == g.stage + 1 && r.transition)
  {
  }

  /** Past the end of the table no score advances the stage. */
  lemma NoAdvancePastTable(g: State, delta: int)
    requires Valid(g) && g.stage > |g.stages|
    ensures AddScore(g, delta).stage == g.stage
  {
  }

  /** While a transition is pending a second advance changes nothing, and a
      score change moves only the score. */
  lemma TransitionGuard(g: State, target: int, delta: int)
    requires g.transition
    ensures OnStageAdvance(g, target) == g
    ensures AddScore(g, delta) == g.(score := g.score + delta)
  {
  }

  /** Entering a stage: with a `speedDelta` the speed target becomes
      `min(0.8, (speedTarget || 0.1) + speedDelta)`, without one it stays; the
      movement scale becomes the entry's when that is positive and stays
      otherwise; lasers follow the entry; the laser amount is
      `max(1, laserAmount || 1)`. The player is not sent back to the start:
      speed and path position stay. */
  lemma EnteringStage(g: State, target: int)
    requires !g.transition
    ensures var r := OnStageAdvance(g, target);
            var cfg := ConfigOrEmpty(g.stages, target - 2);
            (cfg.speedDelta.None? ==> r.speedTarget == g.speedTarget)
            && r.lasersEnabled == cfg.lasers
            && (cfg.speedDelta.Some? ==>
                  r.speedTarget == Min(MaxSpeedTarget, OrReal(g.speedTarget, BaseSpeed) + cfg.speedDelta.value))
            && (cfg.movementSpeedScale.Some? && cfg.movementSpeedScale.value > 0.0
                ==> r.movementSpeedScale == cfg.movementSpeedScale.value)
            && (!(cfg.movementSpeedScale.Some? && cfg.movementSpeedScale.value > 0.0)
                ==> r.movementSpeedScale == g.movementSpeedScale)
            && r.laserAmount == MaxInt(1, OrInt(cfg.laserAmount, 1))
            && r.speed == g.speed && r.pathU == g.pathU
  {
  }

  /** Entering a stage and then completing it leaves exactly the stage's
      obstacles and gates, and ends the transition in the new stage. */
  lemma EnterThenComplete(g: State, target: int, w: World, d: Draws)
    requires ValidWorld(w) && !g.transition
    ensures var cfg := ConfigOrEmpty(g.stages, target - 2);
            var r := CompleteStageTransition(OnStageAdvance(g, target), w, d);
            !r.transition && r.stage == target
            && |r.field.boxes| == MaxInt(0, cfg.boxes) && |r.field.spheres| == MaxInt(0, cfg.spheres)
            && |r.gates| == MaxInt(0, cfg.gates)
            && r.moversEnabled == (g.moversEnabled || cfg.enableMovers)
  {
  }

  /** The safe start: entering a stage and completing it puts every obstacle
      of the new stage at or beyond `SafeStartU` along the path (each in its
      own stratum, by `Hazards.SpawnObstaclesInStratum`). */
  lemma StageSpawnAfterSafeStart(g: State, target: int, w: World, d: Draws)
    requires ValidWorld(w) && !g.transition
    requires forall k: nat :: UnitDraw(d.boxes(k).along)
    requires forall k: nat :: UnitDraw(d.spheres(k).along)
    ensures var r := CompleteStageTransition(OnStageAdvance(g, target), w, d);
            (forall k :: 0 <= k < |r.field.boxes| ==> SafeStartU <= r.field.boxes[k].u < 1.0)
            && (forall k :: 0 <= k < |r.field.spheres| ==> SafeStartU <= r.field.spheres[k].u < 1.0)
  {
    var entered := OnStageAdvance(g, target);
    CompletedAfterSafeStart(entered, w, d);
  }

  /** The deferred spawn into a cleared field places its obstacles beyond `SafeStartU`. */
  lemma CompletedAfterSafeStart(e: State, w: World, d: Draws)
    requires ValidWorld(w) && e.pending.Some?
    requires |e.field.boxes| == 0 && |e.field.spheres| == 0
    requires forall k: nat :: UnitDraw(d.boxes(k).along)
    requires forall k: nat :: UnitDraw(d.spheres(k).along)
    ensures var r := CompleteStageTransition(e, w, d);
            (forall k :: 0 <= k < |r.field.boxes| ==> SafeStartU <= r.field.boxes[k].u < 1.0)
            && (forall k :: 0 <= k < |r.field.spheres| ==> SafeStartU <= r.field.spheres[k].u < 1.0)
  {
    var cfg := e.pending.value;
    var r := CompleteStageTransition(e, w, d);
    if cfg.boxes != 0 || cfg.spheres != 0 {
      var f := SpawnObstacles(e.field, cfg.boxes, cfg.spheres, SafeStartU, d.boxes, d.spheres, w.place);
      assert r.field == f;
      SpawnObstaclesInStratum(e.field, cfg.boxes, cfg.spheres, SafeStartU, d.boxes, d.spheres, w.place);
    } else {
      assert r.field == e.field;
    }
  }

  /** A negative delta can advance too: at stage 2 with 101 points, losing a
      point still leaves 100, the threshold of stage 3. */
  lemma LosingPointAdvances(g: State)
    requires Valid(g) && g.stages == DefaultStages && g.stage == 2 && g.score == 101 && !g.transition
    ensures AddScore(g, -1).stage == 3
  {
  }

  /** The repeated threshold of 400: the point that reaches stage 5 leaves the
      score at 400, so once that stage's spawn completes the very next point
      enters stage 6, after which nothing advances. */
  lemma RepeatedThreshold(g: State, w: World, d: Draws, delta: int)
    requires ValidWorld(w) && Valid(g)
    requires g.stages == DefaultStages && g.stage == 4 && g.score == 399 && !g.transition
    ensures var s5 := AddScore(g, 1);
            var ready := CompleteStageTransition(s5, w, d);
            var s6 := AddScore(ready, 1);
            s5.stage == 5 && s5.score == 400 && ready.stage == 5 && !ready.transition
            && s6.stage == 6
            && AddScore(CompleteStageTransition(s6, w, d), delta).stage == 6
  {
    DefaultThresholds();
  }

  // ------------------------------------------------------------- collisions

  /** The radius a box is hit within: half its diagonal plus the player's radius. */
  function BoxReach(w: World, m: Move, b: Hazard): real {
    w.sqrt(3.0) * (OrReal(b.size, DefaultBoxSize) * 0.5) + OrReal(m.playerRadius, DefaultPlayerRadius)
  }

  predicate BoxHit(w: World, m: Move, b: Hazard)
    requires ValidWorld(w)
  {
    BallHit(w.sqrt, m.prev, m.cur, b.pos, BoxReach(w, m, b))
  }

  predicate SphereHit(w: World, m: Move, s: Hazard)
    requires ValidWorld(w)
  {
    BallHit(w.sqrt, m.prev, m.cur, s.pos, s.size + SphereReach)
  }

  /** The boxes the sweep keeps: those already disintegrating, and those not hit. */
  function KeepBox(w: World, m: Move): Hazard -> bool
    requires ValidWorld(w)
  { (b: Hazard) => b.disintegrated || !BoxHit(w, m, b) }
  function HitBox(w: World, m: Move): Hazard -> bool
    requires ValidWorld(w)
  { (b: Hazard) => !b.disintegrated && BoxHit(w, m, b) }
  function KeepSphere(w: World, m: Move): Hazard -> bool
    requires ValidWorld(w)
  { s => !SphereHit(w, m, s) }
  function HitSphere(w: World, m: Move): Hazard -> bool
    requires ValidWorld(w)
  { s => SphereHit(w, m, s) }
  function KeepGate(w: World, m: Move): GateEntry -> bool { e => Kept(w.sqrt, m.prev, m.cur, e) }
  function PassGate(w: World, m: Move): GateEntry -> bool { e => Passed(w.sqrt, m.prev, m.cur, e) }

  /** One iteration of the box loop at index `i`. The index can have fallen off
      the list if an earlier hit advanced the stage and cleared it. */
  function BoxStep(g: State, i: int, w: World, m: Move): (r: State)
    requires ValidWorld(w)
    ensures r.stages == g.stages && r.lasers == g.lasers
    ensures Valid(g) ==> Valid(r)
  {
    if Fresh(g, i) && BoxHit(w, m, g.field.boxes[i]) then
      var hit := DisintegrateBox(g, i, true);
      hit.(field := hit.field.(boxes := RemoveAt(hit.field.boxes, i)))
    else g
  }

  /** The box loop of `checkCollisions` from index `i` down to 0. */
  function SweepBoxes(g: State, i: int, w: World, m: Move): (r: State)
    requires ValidWorld(w)
    ensures r.stages == g.stages && r.lasers == g.lasers
    ensures Valid(g) ==> Valid(r)
    decreases i + 1
  {
    if i < 0 then g else SweepBoxes(BoxStep(g, i, w, m), i - 1, w, m)
  }

  /** One iteration of the sphere loop: a touched sphere scores a point and is removed. */
  function SphereStep(g: State, i: int, w: World, m: Move): (r: State)
    requires ValidWorld(w)
    ensures r.stages == g.stages && r.lasers == g.lasers && r.bursts == g.bursts
    ensures Valid(g) ==> Valid(r)
  {
    if 0 <= i < |g.field.spheres| && SphereHit(w, m, g.field.spheres[i]) then
      var scored := AddScore(g, 1);
      scored.(field := scored.field.(spheres := RemoveAt(scored.field.spheres, i)))
    else g
  }

  function SweepSpheres(g: State, i: int, w: World, m: Move): (r: State)
    requires ValidWorld(w)
    ensures r.stages == g.stages && r.lasers == g.lasers && r.bursts == g.bursts
    ensures Valid(g) ==> Valid(r)
    decreases i + 1
  {
    if i < 0 then g else SweepSpheres(SphereStep(g, i, w, m), i - 1, w, m)
  }

  /** One iteration of `checkPasses` with the game's callback: an entry
      without data is dropped; a passed gate scores 5 and is removed. */
  function GateStep(g: State, i: int, w: World, m: Move): (r: State)
    requires ValidWorld(w)
    ensures r.stages == g.stages && r.lasers == g.lasers && r.bursts == g.bursts
    ensures Valid(g) ==> Valid(r)
  {
    if !(0 <= i < |g.gates|) then g
    else if g.gates[i].Blank? then g.(gates := RemoveAt(g.gates, i))
    else if Passes(w.sqrt, m.prev, m.cur, g.gates[i].gate) then
      var scored := AddScore(g, GatePoints);
      scored.(gates := RemoveAt(scored.gates, i))
    else g
  }

  function SweepGates(g: State, i: int, w: World, m: Move): (r: State)
    requires ValidWorld(w)
    ensures r.stages == g.stages && r.lasers == g.lasers && r.bursts == g.bursts
    ensures Valid(g) ==> Valid(r)
    decreases i + 1
  {
    if i < 0 then g else SweepGates(GateStep(g, i, w, m), i - 1, w, m)
  }

  /** `checkCollisions(hazardsShown)`: nothing while the hazards are hidden;
      otherwise the boxes, then the spheres, then the gates. */
  function CheckCollisions(g: State, shown: bool, w: World, m: Move): (r: State)
    requires ValidWorld(w)
    ensures !shown ==> r == g
    ensures r.stages == g.stages && r.lasers == g.lasers
    ensures Valid(g) ==> Valid(r)
  {
    if !shown then g
    else
      var afterBoxes := SweepBoxes(g, |g.field.boxes| - 1, w, m);
      var afterSpheres := SweepSpheres(afterBoxes, |afterBoxes.field.spheres| - 1, w, m);
      SweepGates(afterSpheres, |afterSpheres.gates| - 1, w, m)
  }

  // ----------------------------------------------- sweeps without an advance

  /** No score change of up to `gain` points can advance the stage: a
      transition is pending, the table has no next entry, or the threshold is
      out of reach. */
  predicate Room(g: State, gain: int) {
    g.transition || NextConfig(g).None? || g.score + gain < NextConfig(g).value.threshold
  }

  lemma QuietAddScore(g: State, delta: int)
    requires Room(g, delta)
    ensures AddScore(g, delta) == g.(score := g.score + delta)
  {
  }

  lemma RemoveAtMarked(s: seq<Hazard>, i: nat, x: Hazard)
    requires i < |s|
    ensures RemoveAt(s[i := x], i) == RemoveAt(s, i)
  {
  }

  /** A box hit with no advance possible: exactly that box leaves the list,
      one point is lost and one burst starts. */
  lemma BoxStepQuiet(g: State, i: int, w: World, m: Move)
    requires ValidWorld(w)
    requires Room(g, 0) && 0 <= i < |g.field.boxes|
    ensures var r := BoxStep(g, i, w, m);
            var hit := HitBox(w, m)(g.field.boxes[i]);
            r.field.boxes == (if hit then RemoveAt(g.field.boxes, i) else g.field.boxes)
            && r.score == g.score - (if hit then 1 else 0)
            && |r.bursts| == |g.bursts| + (if hit then 1 else 0)
            && r.field.spheres == g.field.spheres && r.gates == g.gates
            && r.stage == g.stage && r.transition == g.transition && Room(r, 0)
  {
    if HitBox(w, m)(g.field.boxes[i]) {
      var marked := g.(field := g.field.(boxes := g.field.boxes[i := g.field.boxes[i].(disintegrated := true)]));
      QuietAddScore(marked, -1);
      RemoveAtMarked(g.field.boxes, i, g.field.boxes[i].(disintegrated := true));
    }
  }

  /** The box loop from index `i` down, started on a list whose part above `i`
      has already been swept. */
  lemma {:induction false} SweepBoxesFrom(g0: State, g: State, i: int, w: World, m: Move)
    requires ValidWorld(w)
    requires -1 <= i < |g0.field.boxes|
    requires g.field.boxes == g0.field.boxes[..i + 1] + Filter(g0.field.boxes[i + 1..], KeepBox(w, m))
    requires g.score == g0.score - Count(g0.field.boxes[i + 1..], HitBox(w, m))
    requires |g.bursts| == |g0.bursts| + Count(g0.field.boxes[i + 1..], HitBox(w, m))
    requires g.field.spheres == g0.field.spheres && g.gates == g0.gates && g.stage == g0.stage
    requires Room(g, 0)
    ensures var r := SweepBoxes(g, i, w, m);
            r.field.boxes == Filter(g0.field.boxes, KeepBox(w, m))
            && r.score == g0.score - Count(g0.field.boxes, HitBox(w, m))
            && |r.bursts| == |g0.bursts| + Count(g0.field.boxes, HitBox(w, m))
            && r.field.spheres == g0.field.spheres && r.gates == g0.gates && r.stage == g0.stage
            && Room(r, 0)
    decreases i + 1
  {
    var s := g0.field.boxes;
    if i < 0 {
      assert s[0..] == s;
      assert s[..0] == [];
    } else {
      SweepStep(s, g.field.boxes, i, KeepBox(w, m));
      CountAt(s, i, HitBox(w, m));
      BoxStepQuiet(g, i, w, m);
      SweepBoxesFrom(g0, BoxStep(g, i, w, m), i - 1, w, m);
    }
  }

  /** With no advance possible, the box loop is a filter: the boxes left are
      exactly those not hit (in order), one point is lost and one burst starts
      per hit box, and nothing else in the field changes. */
  lemma SweepBoxesQuiet(g: State, w: World, m: Move)
    requires ValidWorld(w)
    requires Room(g, 0)
    ensures var r := SweepBoxes(g, |g.field.boxes| - 1, w, m);
            r.field.boxes == Filter(g.field.boxes, KeepBox(w, m))
            && r.score == g.score - Count(g.field.boxes, HitBox(w, m))
            && |r.bursts| == |g.bursts| + Count(g.field.boxes, HitBox(w, m))
            && r.field.spheres == g.field.spheres && r.gates == g.gates && r.stage == g.stage
  {
    var s := g.field.boxes;
    assert s[..|s|] == s;
    assert s[|s|..] == [];
    SweepBoxesFrom(g, g, |s| - 1, w, m);
  }

  lemma SphereStepQuiet(g: State, i: int, w: World, m: Move)
    requires ValidWorld(w)
    requires Room(g, 1) && 0 <= i < |g.field.spheres|
    ensures var r := SphereStep(g, i, w, m);
            var hit := HitSphere(w, m)(g.field.spheres[i]);
            r.field.spheres == (if hit then RemoveAt(g.field.spheres, i) else g.field.spheres)
            && r.score == g.score + (if hit then 1 else 0)
            && r.field.boxes == g.field.boxes && r.gates == g.gates
            && r.stage == g.stage && r.transition == g.transition
  {
    if HitSphere(w, m)(g.field.spheres[i]) {
      QuietAddScore(g, 1);
    }
  }

  lemma {:induction false} SweepSpheresFrom(g0: State, g: State, i: int, w: World, m: Move)
    requires ValidWorld(w)
    requires -1 <= i < |g0.field.spheres|
    requires g.field.spheres == g0.field.spheres[..i + 1] + Filter(g0.field.spheres[i + 1..], KeepSphere(w, m))
    requires g.score == g0.score + Count(g0.field.spheres[i + 1..], HitSphere(w, m))
    requires g.field.boxes == g0.field.boxes && g.gates == g0.gates && g.stage == g0.stage
    requires Room(g, i + 1)
    ensures var r := SweepSpheres(g, i, w, m);
            r.field.spheres == Filter(g0.field.spheres, KeepSphere(w, m))
            && r.score == g0.score + Count(g0.field.spheres, HitSphere(w, m))
            && r.field.boxes == g0.field.boxes && r.gates == g0.gates && r.stage == g0.stage
    decreases i + 1
  {
    var s := g0.field.spheres;
    if i < 0 {
      assert s[0..] == s;
      assert s[..0] == [];
    } else {
      SweepStep(s, g.field.spheres, i, KeepSphere(w, m));
      CountAt(s, i, HitSphere(w, m));
      SphereStepQuiet(g, i, w, m);
      SweepSpheresFrom(g0, SphereStep(g, i, w, m), i - 1, w, m);
    }
  }

  /** With the threshold out of reach of one point per sphere, the sphere loop
      is a filter: the spheres left are exactly those not touched, and the
      score rises by exactly the number touched. */
  lemma SweepSpheresQuiet(g: State, w: World, m: Move)
    requires ValidWorld(w)
    requires Room(g, |g.field.spheres|)
    ensures var r := SweepSpheres(g, |g.field.spheres| - 1, w, m);
            r.field.spheres == Filter(g.field.spheres, KeepSphere(w, m))
            && r.score == g.score + Count(g.field.spheres, HitSphere(w, m))
            && r.field.boxes == g.field.boxes && r.gates == g.gates && r.stage == g.stage
  {
    var s := g.field.spheres;
    assert s[..|s|] == s;
    assert s[|s|..] == [];
    SweepSpheresFrom(g, g, |s| - 1, w, m);
  }

  lemma GateStepQuiet(g: State, i: int, w: World, m: Move)
    requires ValidWorld(w)
    requires Room(g, GatePoints) && 0 <= i < |g.gates|
    ensures var r := GateStep(g, i, w, m);
            r.gates == (if KeepGate(w, m)(g.gates[i]) then g.gates else RemoveAt(g.gates, i))
            && r.score == g.score + (if PassGate(w, m)(g.gates[i]) then GatePoints else 0)
            && r.field == g.field && r.stage == g.stage && r.transition == g.transition
  {
    if g.gates[i].Live? && Passes(w.sqrt, m.prev, m.cur, g.gates[i].gate) {
      QuietAddScore(g, GatePoints);
    }
  }

  lemma {:induction false} SweepGatesFrom(g0: State, g: State, i: int, w: World, m: Move)
    requires ValidWorld(w)
    requires -1 <= i < |g0.gates|
    requires g.gates == g0.gates[..i + 1] + Filter(g0.gates[i + 1..], KeepGate(w, m))
    requires g.score == g0.score + GatePoints * Count(g0.gates[i + 1..], PassGate(w, m))
    requires g.field == g0.field && g.stage == g0.stage
    requires Room(g, GatePoints * (i + 1))
    ensures var r := SweepGates(g, i, w, m);
            r.gates == Filter(g0.gates, KeepGate(w, m))
            && r.score == g0.score + GatePoints * Count(g0.gates, PassGate(w, m))
            && r.field == g0.field && r.stage == g0.stage
    decreases i + 1
  {
    var s := g0.gates;
    if i < 0 {
      assert s[0..] == s;
      assert s[..0] == [];
    } else {
      SweepStep(s, g.gates, i, KeepGate(w, m));
      CountAt(s, i, PassGate(w, m));
      GateStepQuiet(g, i, w, m);
      SweepGatesFrom(g0, GateStep(g, i, w, m), i - 1, w, m);
    }
  }

  /** With the threshold out of reach of five points per gate, the game's gate
      sweep removes exactly the passed gates and the entries without data,
      keeps the others in order, and scores five points per passed gate. */
  lemma SweepGatesQuiet(g: State, w: World, m: Move)
    requires ValidWorld(w)
    requires Room(g, GatePoints * |g.gates|)
    ensures var r := SweepGates(g, |g.gates| - 1, w, m);
            r.gates == Filter(g.gates, KeepGate(w, m))
            && r.score == g.score + GatePoints * Count(g.gates, PassGate(w, m))
            && r.field == g.field && r.stage == g.stage
  {
    var s := g.gates;
    assert s[..|s|] == s;
    assert s[|s|..] == [];
    SweepGatesFrom(g, g, |s| - 1, w, m);
  }

  // ----------------------------------------------------------------- lasers

  /** The lateral offset of laser `i` of a fan of `num`: `-spacing*(num-1)/2 + i*spacing`. */
  function FanOffset(num: int, spacing: real, i: int): real {
    -(spacing * (num - 1) as real) / 2.0 + i as real * spacing
  }

  /** `num = max(1, amount || laserAmount || 1)`, with 0 for an absent `amount`. */
  function FanSize(amount: int, laserAmount: int): (n: int)
    ensures 1 <= n
    ensures amount >= 1 ==> n == amount
    ensures amount == 0 && laserAmount >= 1 ==> n == laserAmount
  {
    MaxInt(1, OrInt(OrInt(amount, laserAmount), 1))
  }

  /** The fan is evenly spaced and symmetric about the aim. */
  lemma FanSymmetric(num: int, spacing: real, i: int)
    ensures FanOffset(num, spacing, i) + FanOffset(num, spacing, num - 1 - i) == 0.0
    ensures FanOffset(num, spacing, i + 1) - FanOffset(num, spacing, i) == spacing
  {
    var a := spacing * (num - 1) as real;
    assert i as real * spacing + (num - 1 - i) as real * spacing == a;
    assert (i + 1) as real * spacing == i as real * spacing + spacing;
  }

  /** `fireLaser(system, color, amount)`: aims from the player at the path a
      little ahead, and fires `num` single lasers from points spread sideways
      by `FanOffset`, `worldPerPixel` being the camera's scale at the origin. */
  method FireLaser(g: State, amount: int, playerPos: Vec3, up: Vec3, worldPerPixel: real, w: World)
    returns (r: State)
    requires ValidWorld(w)
    ensures var dir := Normalize(w.sqrt, Sub(w.pointAt(LookAheadU(g.pathU)), playerPos));
            var origin := Add(playerPos, Scale(dir, SpawnOffset));
            var right := Normalize(w.sqrt, Cross(dir, up));
            var num := FanSize(amount, g.laserAmount);
            |r.lasers| == |g.lasers| + num
            && r.lasers[..|g.lasers|] == g.lasers
            && forall k :: |g.lasers| <= k < |r.lasers| ==>
                 r.lasers[k].start == Add(origin, Scale(right, FanOffset(num, FanPixels * worldPerPixel, k - |g.lasers|)))
                 && r.lasers[k].dir == Normalize(w.sqrt, dir)
                 && r.lasers[k].traveled == 0.0 && r.lasers[k].life == 0.0
    ensures r == g.(lasers := r.lasers)
  {
    var lookAt := w.pointAt(LookAheadU(g.pathU));
    var dir := Normalize(w.sqrt, Sub(lookAt, playerPos));
    var origin := Add(playerPos, Scale(dir, SpawnOffset));
    var num := FanSize(amount, g.laserAmount);
    var spacing := FanPixels * worldPerPixel;
    var right := Normalize(w.sqrt, Cross(dir, up));
    var lasers := g.lasers;
    var i := 0;
    while i < num
      invariant 0 <= i <= num
      invariant |lasers| == |g.lasers| + i
      invariant lasers[..|g.lasers|] == g.lasers
      invariant forall k :: |g.lasers| <= k < |lasers| ==>
                  lasers[k].start == Add(origin, Scale(right, FanOffset(num, spacing, k - |g.lasers|)))
                  && lasers[k].dir == Normalize(w.sqrt, dir)
                  && lasers[k].traveled == 0.0 && lasers[k].life == 0.0
    {
      var off := FanOffset(num, spacing, i);
      lasers := Lasers.Spawn(lasers, Add(origin, Scale(right, off)), dir, 1, w.sqrt);
      i := i + 1;
    }
    r := g.(lasers := lasers);
  }

  /** The laser part of a frame: when lasers are enabled they advance, and the
      first laser that hits a box destroys it (without a penalty) and is
      removed with it. */
  method LaserStep(g: State, dt: real) returns (r: State)
    ensures !g.lasersEnabled ==> r == g
    ensures r.score == g.score && r.health == g.health && r.stage == g.stage
    ensures r.transition == g.transition && r.running == g.running && r.stages == g.stages
    ensures r.field.spheres == g.field.spheres && r.gates == g.gates
    ensures g.lasersEnabled ==>
              var moved := Filter(Map(g.lasers, Advancer(dt)), Alive);
              (|r.field.boxes| == |g.field.boxes| - 1 && |r.lasers| == |moved| - 1 && |r.bursts| == |g.bursts| + 1
               <==> exists j, c :: 0 <= j < |moved| && 0 <= c < |g.field.boxes| && HitsBox(moved[j], g.field.boxes[c]))
              && (r.field.boxes == g.field.boxes <==>
                  forall j, c :: 0 <= j < |moved| && 0 <= c < |g.field.boxes| ==> !HitsBox(moved[j], g.field.boxes[c]))
    ensures Valid(g) ==> Valid(r)
  {
    if !g.lasersEnabled {
      return g;
    }
    var moved := Lasers.Update(g.lasers, dt);
    var hit := FindHitBox(moved, g.field.boxes);
    match hit {
      case None =>
        r := g.(lasers := moved);
      case Some(pair) =>
        var li := pair.0;
        var bi := pair.1;
        var d := DisintegrateBox(g.(lasers := moved), bi, false);
        r := d.(field := d.field.(boxes := RemoveAt(d.field.boxes, bi)), lasers := RemoveAt(d.lasers, li));
        assert |r.field.boxes| == |g.field.boxes| - 1;
        assert r.field.boxes != g.field.boxes;
    }
  }

  // ------------------------------------------------------------------ frame

  /** The camera step's two scalar updates: the speed eases toward its target,
      then the path position advances with the new speed. */
  function Travel(g: State, dt: real): (r: State)
    ensures 0.0 <= g.pathU && 0.0 <= g.speed && 0.0 <= g.speedTarget && 0.0 <= dt
            ==> 0.0 <= r.pathU < 1.0 && 0.0 <= r.speed
    ensures r == g.(speed := r.speed, pathU := r.pathU)
  {
    var speed := SpeedStep(g.speed, g.speedTarget);
    TravelForward(g.pathU, g.speed, g.speedTarget, dt);
    g.(speed := speed, pathU := PathStep(g.pathU, speed, dt))
  }

  lemma TravelForward(pathU: real, speed: real, target: real, dt: real)
    ensures 0.0 <= pathU && 0.0 <= speed && 0.0 <= target && 0.0 <= dt
            ==> 0.0 <= SpeedStep(speed, target) && 0.0 <= PathStep(pathU, SpeedStep(speed, target), dt) < 1.0
  {
    if 0.0 <= pathU && 0.0 <= speed && 0.0 <= target && 0.0 <= dt {
      SpeedStaysNonNegative(speed, target);
      PathStaysOnLoop(pathU, SpeedStep(speed, target), dt);
    }
  }

  /** `updateMovers(dt, () => this.currentStage)` on the game's field. */
  function MoveObstacles(g: State, dt: real, w: World): (r: State)
    ensures r == g.(field := r.field)
  {
    g.(field := UpdateMovers(g.field, dt, g.moversEnabled, g.stage, g.movementSpeedScale, w.sqrt, w.place))
  }

  /** One frame of the game loop: travel, collisions, movers, lasers and
      particles. Clouds, music and rendering are left out, and so is the gate
      system's per-frame update: the program moves each moving gate's
      collision centre around its spawn point every frame, while here every
      gate keeps its spawn centre, so pass results for moving gates can differ. */
  method Frame(g: State, dt: real, shown: bool, w: World, m: Move) returns (r: State)
    requires ValidWorld(w)
    ensures Valid(g) ==> Valid(r)
    ensures r.stages == g.stages
  {
    var s := Travel(g, dt);
    s := CheckCollisions(s, shown, w, m);
    s := MoveObstacles(s, dt, w);
    s := LaserStep(s, dt);
    var bursts := UpdateParticles(s.bursts, dt);
    r := s.(bursts := bursts);
  }
}

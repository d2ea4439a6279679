/** The stage table of the stage-aware game: entry `k` is the configuration
    applied when advancing into stage `k + 2`. */
module Stages {
  import opened Numbers
  import opened Gates

  /** One stage's configuration. Counts, the threshold and the laser amount
      use 0 for an absent key, which the game treats exactly like 0; the two
      keys the game tests with `typeof ... === 'number'` are options. */
  datatype StageConfig = StageConfig(
    threshold: int,
    boxes: int,
    spheres: int,
    gates: int,
    speedDelta: Option<real>,
    enableMovers: bool,
    movementSpeedScale: Option<real>,
    lasers: bool,
    laserAmount: int,
    gateOptions: GateOptions)

  const NoGateOptions: GateOptions := GateOptions(None, None, false, None, None)

  /** `{}`: what the game uses when the table has no entry for a stage. */
  const EmptyConfig: StageConfig := StageConfig(0, 0, 0, 0, None, false, None, false, 0, NoGateOptions)

  /** The table the game is constructed with (music tracks left out). */
  const DefaultStages: seq<StageConfig> := [
    StageConfig(50, 220, 220, 16, Some(0.03), false, Some(1.0), false, 0,
                GateOptions(Some(0.22), Some(0.28), true, Some(0.6), Some(0.18))),
    StageConfig(100, 260, 260, 20, Some(0.0), true, Some(1.2), true, 0,
                GateOptions(Some(0.10), Some(0.20), false, Some(0.6), Some(0.18))),
    StageConfig(200, 300, 300, 24, Some(0.06), true, Some(1.4), true, 2,
                GateOptions(Some(0.18), Some(0.24), true, Some(0.9), Some(0.22))),
    StageConfig(400, 400, 300, 24, Some(0.06), true, Some(1.4), true, 3,
                GateOptions(Some(0.16), Some(0.22), true, Some(0.9), Some(0.22))),
    StageConfig(400, 500, 320, 30, Some(0.06), true, Some(1.4), true, 4,
                GateOptions(Some(0.16), Some(0.22), true, Some(0.9), Some(0.22)))
  ]

  /** `this.stages[index]`: nothing outside the table, including a negative index. */
  function ConfigAt(stages: seq<StageConfig>, index: int): (r: Option<StageConfig>)
    ensures r.Some? <==> 0 <= index < |stages|
    ensures r.Some? ==> r.value in stages
  {
    if 0 <= index < |stages| then Some(stages[index]) else None
  }

  /** `(this.stages && this.stages[index]) || {}`. */
  function ConfigOrEmpty(stages: seq<StageConfig>, index: int): (r: StageConfig)
    ensures 0 <= index < |stages| ==> r == stages[index]
    ensures !(0 <= index < |stages|) ==> r == EmptyConfig
  {
    match ConfigAt(stages, index)
    case Some(c) => c
    case None => EmptyConfig
  }

  /** The default thresholds: 50, 100, 200, 400 and again 400, never decreasing. */
  lemma DefaultThresholds()
    ensures |DefaultStages| == 5
    ensures forall k :: 0 <= k < |DefaultStages| ==>
              DefaultStages[k].threshold == [50, 100, 200, 400, 400][k]
    ensures forall j, k :: 0 <= j <= k < |DefaultStages| ==>
              DefaultStages[j].threshold <= DefaultStages[k].threshold
  {
  }
}

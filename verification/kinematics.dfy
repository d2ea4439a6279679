/** The two scalar updates of the camera step that drive the game: the speed
    easing toward its target, and the position along the closed path. */
module Kinematics {
  import opened Numbers

  /** The base speed the game starts with and resets to. */
  const BaseSpeed: real := 0.1
  /** The fraction of the gap to the target speed closed every frame. */
  const Easing: real := 0.08
  /** How far ahead along the path the camera looks and lasers aim. */
  const LookAhead: real := 0.03

  /** `speed += (speedTarget - speed) * 0.08`. */
  function SpeedStep(speed: real, target: real): (r: real)
    ensures Min(speed, target) <= r <= Max(speed, target)
  {
    speed + (target - speed) * Easing
  }

  /** `pathU = (pathU + speed * dt * 0.1) % 1`, with the remainder of JavaScript. */
  function PathStep(pathU: real, speed: real, dt: real): (r: real)
    ensures 0.0 <= pathU + speed * dt * 0.1 ==> 0.0 <= r < 1.0
  {
    Frac(pathU + speed * dt * 0.1)
  }

  /** The path parameter a little ahead of `pathU`, wrapped around the loop. */
  function LookAheadU(pathU: real): (r: real)
    ensures 0.0 <= pathU ==> 0.0 <= r < 1.0
  {
    Frac(pathU + LookAhead)
  }

  /** `n` frames of easing. */
  function SpeedSteps(speed: real, target: real, n: nat): real
    decreases n
  {
    if n == 0 then speed else SpeedSteps(SpeedStep(speed, target), target, n - 1)
  }

  function Pow(x: real, n: nat): real
    decreases n
  {
    if n == 0 then 1.0 else x * Pow(x, n - 1)
  }

  /** The share of the gap to the target speed a frame leaves. */
  const Keep: real := 1.0 - Easing

  /** Each frame leaves 92% of the gap to the target speed. */
  lemma SpeedGapShrinks(speed: real, target: real)
    ensures target - SpeedStep(speed, target) == Keep * (target - speed)
  {
  }

  lemma Regroup(p: real, k: real, g: real)
    ensures p * (k * g) == (k * p) * g
  {
  }

  /** After `n` frames the gap to the target is `0.92^n` of what it was. */
  lemma {:induction false} SpeedConverges(speed: real, target: real, n: nat)
    ensures target - SpeedSteps(speed, target, n) == Pow(Keep, n) * (target - speed)
    decreases n
  {
    if n > 0 {
      var next := SpeedStep(speed, target);
      SpeedConverges(next, target, n - 1);
      SpeedGapShrinks(speed, target);
      var p := Pow(Keep, n - 1);
      assert Pow(Keep, n) == Keep * p;
      Regroup(p, Keep, target - speed);
    }
  }

  /** However many frames pass, the speed stays between where it started and
      its target: the easing never overshoots. */
  lemma {:induction false} SpeedNeverOvershoots(speed: real, target: real, n: nat)
    ensures Min(speed, target) <= SpeedSteps(speed, target, n) <= Max(speed, target)
    decreases n
  {
    if n > 0 {
      SpeedNeverOvershoots(SpeedStep(speed, target), target, n - 1);
    }
  }

  /** Moving forward at a non-negative speed keeps the player on the path: the
      parameter stays in `[0, 1)`. */
  lemma PathStaysOnLoop(pathU: real, speed: real, dt: real)
    requires 0.0 <= pathU && 0.0 <= speed && 0.0 <= dt
    ensures 0.0 <= PathStep(pathU, speed, dt) < 1.0
  {
    MulLe(0.0, speed, dt);
  }

  /** A speed and a target that are both non-negative keep the speed non-negative. */
  lemma SpeedStaysNonNegative(speed: real, target: real)
    requires 0.0 <= speed && 0.0 <= target
    ensures 0.0 <= SpeedStep(speed, target)
  {
  }
}

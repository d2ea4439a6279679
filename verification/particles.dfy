/** The particle bursts a disintegrating box leaves behind: each ages every
    frame, fades out linearly, and is disposed of once its time is up. */
module Particles {
  import opened Numbers
  import opened Seqs

  /** Every burst the game creates lasts one second. */
  const BurstDuration: real := 1.0
  /** The opacity a burst's material is created with. */
  const BurstOpacity: real := 0.2

  /** A burst: how long it has lived and its material's current opacity.
      (Particle positions and velocities are rendering state.) */
  datatype Burst = Burst(life: real, opacity: real)

  /** The burst `disintegrateBox` creates. */
  const NewBurst: Burst := Burst(0.0, BurstOpacity)

  /** One frame of `updateParticles(dt)` for one burst: it ages by `dt` and
      its opacity is `1 - min(life / duration, 1)`. */
  function Age(b: Burst, dt: real): (r: Burst)
    ensures r.life - b.life == dt
    ensures 0.0 <= r.opacity <= 1.0 <==> 0.0 <= r.life
  {
    var life := b.life + dt;
    Burst(life, 1.0 - Min(life / BurstDuration, 1.0))
  }

  /** A burst stays while it has time left. */
  predicate Fading(b: Burst) { b.life < BurstDuration }

  /** `updateParticles(dt)`: a backwards loop that ages every burst and
      disposes of those whose time is up, keeping the others in order. */
  method UpdateParticles(bursts: seq<Burst>, dt: real) returns (r: seq<Burst>)
    ensures r == Filter(Map(bursts, b => Age(b, dt)), Fading)
    ensures forall b :: b in r ==> b.life < BurstDuration
  {
    r := PruneSweep(bursts, b => Age(b, dt), Fading);
  }

  /** A burst is disposed of exactly when its fade has reached zero opacity. */
  lemma DisposedWhenFaded(b: Burst, dt: real)
    ensures Fading(Age(b, dt)) <==> Age(b, dt).opacity > 0.0
  {
  }

  /** The bursts that survive a frame, with non-negative ages and step, are
      still visible and no more opaque than fully: `0 < opacity <= 1`. */
  lemma SurvivorsVisible(bursts: seq<Burst>, dt: real)
    requires 0.0 <= dt
    requires forall b :: b in bursts ==> 0.0 <= b.life
    ensures forall b :: b in Filter(Map(bursts, x => Age(x, dt)), Fading) ==>
              0.0 <= b.life < BurstDuration && 0.0 < b.opacity <= 1.0
  {
    var aged := Map(bursts, x => Age(x, dt));
    forall b | b in Filter(aged, Fading)
      ensures 0.0 <= b.life < BurstDuration && 0.0 < b.opacity <= 1.0
    {
      var i :| 0 <= i < |aged| && aged[i] == b;
      assert b == Age(bursts[i], dt);
      DisposedWhenFaded(bursts[i], dt);
    }
  }

  /** A frame removes exactly the bursts it ages past their duration. */
  lemma UpdateRemovesExpired(bursts: seq<Burst>, dt: real)
    ensures |Filter(Map(bursts, x => Age(x, dt)), Fading)|
            + Count(Map(bursts, x => Age(x, dt)), b => !Fading(b)) == |bursts|
  {
    FilterLength(Map(bursts, x => Age(x, dt)), Fading, b => !Fading(b));
  }
}

/** The gates of the earlier, three-stage game: fixed-size rings and a pass
    test without the slab fallback. */
module LegacyGates {
  import opened Numbers
  import opened Vectors
  import opened Seqs
  import opened Gates

  /** `spawn(count)`: appends `count` rings of radius 0.25 placed from the
      system's own start position; ring `i` uses draw `i` for its place. */
  function LegacySpawn(rings: seq<Ring>, count: int, spawnStartU: real, draw: nat -> real,
                       pointAt: real -> Vec3, tangentAt: real -> Vec3, sqrt: real -> real): (r: seq<Ring>)
    requires IsSqrt(sqrt)
    ensures |r| == |rings| + MaxInt(count, 0)
    ensures r[..|rings|] == rings
    ensures forall i :: |rings| <= i < |r| ==>
              r[i].ringRadius == DefaultRingRadius && r[i].halfWidth == DefaultHalfWidth
              && r[i].center == pointAt(GateU(spawnStartU, draw(i - |rings|)))
  {
    rings + seq(MaxInt(count, 0), i requires 0 <= i =>
      var u := GateU(spawnStartU, draw(i));
      Ring(pointAt(u), Normalize(sqrt, tangentAt(u)), DefaultRingRadius, DefaultHalfWidth))
  }

  /** The earlier pass test: a move lying in the plane is skipped, and only a
      move that changes sides (or touches the plane) can pass. */
  predicate LegacyPasses(sqrt: real -> real, prev: Vec3, cur: Vec3, ring: Ring) {
    var center := ring.center;
    var n := ring.normal;
    var hw := OrReal(ring.halfWidth, DefaultHalfWidth);
    var d0 := Dot(Sub(prev, center), n);
    var d1 := Dot(Sub(cur, center), n);
    if d0 == 0.0 && d1 == 0.0 then false
    else if d0 * d1 <= 0.0 then
      var denom := Dot(Sub(cur, prev), n);
      if Abs(denom) < ParallelEpsilon then false
      else
        var t := -d0 / denom;
        if t < 0.0 || t > 1.0 then false
        else sqrt(LenSq(Radial(Sub(Lerp(prev, cur, t), center), n))) <= ring.ringRadius + hw
    else false
  }

  /** `checkPasses(prev, cur)` without a pass callback: a backwards sweep that
      splices out the passed rings and counts them. */
  method LegacyCheckPasses(sqrt: real -> real, rings: seq<Ring>, prev: Vec3, cur: Vec3)
    returns (r: seq<Ring>, count: nat)
    ensures r == Filter(rings, g => !LegacyPasses(sqrt, prev, cur, g))
    ensures count == Count(rings, g => LegacyPasses(sqrt, prev, cur, g))
    ensures |r| + count == |rings|
  {
    var keep := g => !LegacyPasses(sqrt, prev, cur, g);
    var passed := g => LegacyPasses(sqrt, prev, cur, g);
    r := rings;
    count := 0;
    var i := |rings|;
    while i > 0
      invariant 0 <= i <= |rings|
      invariant r == rings[..i] + Filter(rings[i..], keep)
      invariant count == Count(rings[i..], passed)
    {
      i := i - 1;
      SweepStep(rings, r, i, keep);
      CountAt(rings, i, passed);
      if LegacyPasses(sqrt, prev, cur, r[i]) {
        r := RemoveAt(r, i);
        count := count + 1;
      }
    }
    assert rings[0..] == rings;
    FilterLength(rings, keep, passed);
  }

  /** Every pass the earlier test reports, the stage-aware test reports too. */
  lemma LegacyPassIsPass(sqrt: real -> real, prev: Vec3, cur: Vec3, g: Gate)
    requires LegacyPasses(sqrt, prev, cur, g.ring)
    ensures Passes(sqrt, prev, cur, g)
  {
    var d0 := Dot(Sub(prev, g.ring.center), g.ring.normal);
    var d1 := Dot(Sub(cur, g.ring.center), g.ring.normal);
    assert Crossed(d0, d1);
  }

  /** A move that stays strictly on one side of a ring never passes it in the earlier game. */
  lemma LegacySameSideNeverPasses(sqrt: real -> real, prev: Vec3, cur: Vec3, ring: Ring)
    requires Dot(Sub(prev, ring.center), ring.normal) * Dot(Sub(cur, ring.center), ring.normal) > 0.0
    ensures !LegacyPasses(sqrt, prev, cur, ring)
  {
  }

  /** Where the two tests differ: a move that stays on one side of a ring
      (unit normal) and ends inside its slab passes in the stage-aware game
      and never in the earlier one. */
  lemma SlabOnlyInStageGame(sqrt: real -> real, prev: Vec3, cur: Vec3, g: Gate)
    requires IsSqrt(sqrt) && LenSq(g.ring.normal) == 1.0
    requires Dot(Sub(prev, g.ring.center), g.ring.normal) * Dot(Sub(cur, g.ring.center), g.ring.normal) > 0.0
    requires InSlab(cur, g.ring.center, g.ring.normal, OrReal(g.ring.halfWidth, DefaultHalfWidth),
                    g.ring.ringRadius + OrReal(g.ring.halfWidth, DefaultHalfWidth))
    ensures Passes(sqrt, prev, cur, g)
    ensures !LegacyPasses(sqrt, prev, cur, g.ring)
  {
    SlabPass(sqrt, prev, cur, g);
    LegacySameSideNeverPasses(sqrt, prev, cur, g.ring);
  }
}

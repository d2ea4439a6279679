/** The ring gates of the stage-aware game: spawning rings along the path and
    detecting, once per frame, which rings the player flew through. */
module Gates {
  import opened Numbers
  import opened Vectors
  import opened Seqs

  /** A ring in space: its centre, the normal of its plane (the path's unit
      tangent where it was placed), its radius and the half width of the
      band around the plane that still counts as the ring. */
  datatype Ring = Ring(center: Vec3, normal: Vec3, ringRadius: real, halfWidth: real)

  /** A gate: the ring plus where on the path it sits and its movement settings. */
  datatype Gate = Gate(ring: Ring, u: real, movers: bool, moveSpeed: real, moveAmplitude: real)

  /** An entry of the gate list. `Blank` is a missing entry or one without
      user data; the sweep discards such entries. */
  datatype GateEntry = Blank | Live(gate: Gate)

  /** The per-stage gate options; an absent key takes its default. */
  datatype GateOptions = GateOptions(
    radiusMin: Option<real>,
    radiusMax: Option<real>,
    movers: bool,
    moveSpeed: Option<real>,
    moveAmplitude: Option<real>)

  /** The two `Math.random()` draws used for one gate: its place along the
      remaining path and its radius within the allowed range. */
  datatype GateDraw = GateDraw(along: real, radius: real)

  predicate ValidGateDraw(d: GateDraw) { UnitDraw(d.along) && UnitDraw(d.radius) }

  const DefaultRingRadius: real := 0.25
  const DefaultHalfWidth: real := 0.02
  /** A move whose component along the normal is below this is treated as parallel to the ring. */
  const ParallelEpsilon: real := 0.000001

  function Get(o: Option<real>, d: real): real { if o.Some? then o.value else d }

  // ---------------------------------------------------------------- spawning

  /** The place along the path of a new gate, `(startU + draw * (1 - startU)) % 1`. */
  function GateU(startU: real, along: real): real {
    Frac(RandFloat(startU, 1.0, along))
  }

  /** With a start in `[0, 1)`, a gate lands in `[startU, 1)`: the `% 1` never wraps. */
  lemma GateUAfterStart(startU: real, along: real)
    requires 0.0 <= startU < 1.0 && UnitDraw(along)
    ensures startU <= GateU(startU, along) < 1.0
  {
    RandFloatRange(startU, 1.0, along);
  }

  /** One gate as spawned at path position `GateU`, with centre and unit
      tangent taken from the path. */
  function SpawnGate(startU: real, opts: GateOptions, d: GateDraw, pointAt: real -> Vec3,
                     tangentAt: real -> Vec3, sqrt: real -> real): (g: Gate)
    requires IsSqrt(sqrt)
    ensures g.ring.halfWidth == DefaultHalfWidth
    ensures g.ring.center == pointAt(g.u)
    ensures g.movers == opts.movers
  {
    var a := Get(opts.radiusMin, DefaultRingRadius);
    var b := Get(opts.radiusMax, DefaultRingRadius);
    var rMin := Min(a, b);
    var rMax := Max(a, b);
    var u := GateU(startU, d.along);
    var radius := RandFloat(rMin, rMax, d.radius);
    Gate(Ring(pointAt(u), Normalize(sqrt, tangentAt(u)), radius, DefaultHalfWidth),
         u, opts.movers, Get(opts.moveSpeed, 0.0), Get(opts.moveAmplitude, 0.0))
  }

  /** A spawned ring's radius lies between the two radius options, whichever
      order they are given in; without options every ring has radius 0.25. */
  lemma GateRadiusInRange(startU: real, opts: GateOptions, d: GateDraw, pointAt: real -> Vec3,
                          tangentAt: real -> Vec3, sqrt: real -> real)
    requires IsSqrt(sqrt) && ValidGateDraw(d)
    ensures var r := SpawnGate(startU, opts, d, pointAt, tangentAt, sqrt).ring.ringRadius;
            var a := Get(opts.radiusMin, DefaultRingRadius);
            var b := Get(opts.radiusMax, DefaultRingRadius);
            Min(a, b) <= r <= Max(a, b)
            && (opts.radiusMin.None? && opts.radiusMax.None? ==> r == DefaultRingRadius)
  {
    var a := Get(opts.radiusMin, DefaultRingRadius);
    var b := Get(opts.radiusMax, DefaultRingRadius);
    RandFloatRange(Min(a, b), Max(a, b), d.radius);
  }

  /** `spawn(count, startU, options)`: appends `count` gates (none when `count`
      is not positive); gate `i` uses draw `i`. */
  function Spawn(gates: seq<GateEntry>, count: int, startU: real, opts: GateOptions,
                 draw: nat -> GateDraw, pointAt: real -> Vec3, tangentAt: real -> Vec3,
                 sqrt: real -> real): (r: seq<GateEntry>)
    requires IsSqrt(sqrt)
    ensures |r| == |gates| + MaxInt(count, 0)
    ensures r[..|gates|] == gates
    ensures forall i :: |gates| <= i < |r| ==>
              r[i] == Live(SpawnGate(startU, opts, draw(i - |gates|), pointAt, tangentAt, sqrt))
  {
    gates + seq(MaxInt(count, 0), i requires 0 <= i => Live(SpawnGate(startU, opts, draw(i), pointAt, tangentAt, sqrt)))
  }

  /** Every spawned gate sits at a path position in `[startU, 1)`, when the
      start lies in `[0, 1)`. */
  lemma SpawnedAfterStart(gates: seq<GateEntry>, count: int, startU: real, opts: GateOptions,
                          draw: nat -> GateDraw, pointAt: real -> Vec3, tangentAt: real -> Vec3,
                          sqrt: real -> real)
    requires IsSqrt(sqrt) && 0.0 <= startU < 1.0
    requires forall i :: 0 <= i < count ==> ValidGateDraw(draw(i))
    ensures var r := Spawn(gates, count, startU, opts, draw, pointAt, tangentAt, sqrt);
            forall i :: |gates| <= i < |r| ==> r[i].Live? && startU <= r[i].gate.u < 1.0
  {
    var r := Spawn(gates, count, startU, opts, draw, pointAt, tangentAt, sqrt);
    forall i | |gates| <= i < |r|
      ensures r[i].Live? && startU <= r[i].gate.u < 1.0
    {
      GateUAfterStart(startU, draw(i - |gates|).along);
    }
  }

  /** `clear()`: every gate is removed. */
  function Clear(gates: seq<GateEntry>): (r: seq<GateEntry>)
    ensures |r| == 0
  {
    []
  }

  // ------------------------------------------------------------- pass test

  /** The crossing test of `checkPasses`, with `d0` and `d1` the signed
      distances of the previous and current positions from the ring's plane. */
  predicate Crossed(d0: real, d1: real) {
    (d0 == 0.0 && d1 != 0.0) || (d1 == 0.0 && d0 != 0.0) || d0 * d1 <= 0.0
  }

  /** The part of `v` orthogonal to `n` (for a unit `n`): `v - n (v . n)`. */
  function Radial(v: Vec3, n: Vec3): Vec3 { Sub(v, Scale(n, Dot(v, n))) }

  /** Whether one gate is passed by the move from `prev` to `cur`. */
  predicate Passes(sqrt: real -> real, prev: Vec3, cur: Vec3, g: Gate) {
    var center := g.ring.center;
    var n := g.ring.normal;
    var hw := OrReal(g.ring.halfWidth, DefaultHalfWidth);
    var d0 := Dot(Sub(prev, center), n);
    var d1 := Dot(Sub(cur, center), n);
    if Crossed(d0, d1) then
      var denom := Dot(Sub(cur, prev), n);
      if Abs(denom) < ParallelEpsilon then false
      else
        var t := -d0 / denom;
        if t < 0.0 || t > 1.0 then false
        else sqrt(LenSq(Radial(Sub(Lerp(prev, cur, t), center), n))) <= g.ring.ringRadius + hw
    else
      Abs(d1) <= hw * 2.0 && sqrt(LenSq(Radial(Sub(cur, center), n))) <= g.ring.ringRadius + hw
  }

  predicate Kept(sqrt: real -> real, prev: Vec3, cur: Vec3, e: GateEntry) {
    e.Live? && !Passes(sqrt, prev, cur, e.gate)
  }

  predicate Passed(sqrt: real -> real, prev: Vec3, cur: Vec3, e: GateEntry) {
    e.Live? && Passes(sqrt, prev, cur, e.gate)
  }

  /** `checkPasses(prev, cur)` without a pass callback: a backwards sweep that
      splices out blank entries and passed gates, and counts the passes. */
  method CheckPasses(sqrt: real -> real, gates: seq<GateEntry>, prev: Vec3, cur: Vec3)
    returns (r: seq<GateEntry>, count: nat)
    ensures r == Filter(gates, e => Kept(sqrt, prev, cur, e))
    ensures count == Count(gates, e => Passed(sqrt, prev, cur, e))
  {
    var keep := e => Kept(sqrt, prev, cur, e);
    var passed := e => Passed(sqrt, prev, cur, e);
    r := gates;
    count := 0;
    var i := |gates|;
    while i > 0
      invariant 0 <= i <= |gates|
      invariant r == gates[..i] + Filter(gates[i..], keep)
      invariant count == Count(gates[i..], passed)
    {
      i := i - 1;
      assert gates[..i + 1] + Filter(gates[i + 1..], keep) == r;
      SweepStep(gates, r, i, keep);
      CountAt(gates, i, passed);
      var e := r[i];
      if e.Blank? {
        r := RemoveAt(r, i);
      } else if Passes(sqrt, prev, cur, e.gate) {
        r := RemoveAt(r, i);
        count := count + 1;
      }
    }
    assert gates[0..] == gates;
  }

  /** A sweep leaves only live gates that the same move does not pass, so
      repeating it removes nothing and counts nothing. */
  lemma SweepSettles(sqrt: real -> real, gates: seq<GateEntry>, prev: Vec3, cur: Vec3)
    ensures var r := Filter(gates, e => Kept(sqrt, prev, cur, e));
            Filter(r, e => Kept(sqrt, prev, cur, e)) == r
            && Count(r, e => Passed(sqrt, prev, cur, e)) == 0
  {
    var keep := e => Kept(sqrt, prev, cur, e);
    var r := Filter(gates, keep);
    FilterIdempotent(gates, keep);
    CountNone(r, e => Passed(sqrt, prev, cur, e));
  }

  /** The crossing test is the sign test `d0 * d1 <= 0`: its first two
      clauses are already covered by the third. */
  lemma CrossedIsSignTest(d0: real, d1: real)
    ensures Crossed(d0, d1) <==> d0 * d1 <= 0.0
  {
  }

  /** The move's component along the normal is the change of signed distance. */
  lemma SegmentAlongNormal(prev: Vec3, cur: Vec3, center: Vec3, n: Vec3)
    ensures Dot(Sub(cur, prev), n) == Dot(Sub(cur, center), n) - Dot(Sub(prev, center), n)
  {
  }

  /** The signed distance from the plane grows linearly along the move. */
  lemma SignedDistanceAlong(prev: Vec3, cur: Vec3, center: Vec3, n: Vec3, t: real)
    ensures Dot(Sub(Lerp(prev, cur, t), center), n)
         == Dot(Sub(prev, center), n) + t * Dot(Sub(cur, prev), n)
  {
    var m := Sub(prev, center);
    var s := Sub(cur, prev);
    assert Sub(Lerp(prev, cur, t), center) == Add(m, Scale(s, t));
    calc {
      Dot(Add(m, Scale(s, t)), n);
      m.x * n.x + m.y * n.y + m.z * n.z + ((s.x * t) * n.x + (s.y * t) * n.y + (s.z * t) * n.z);
      { Reassociate(s.x, t, n.x); Reassociate(s.y, t, n.y); Reassociate(s.z, t, n.z); }
      Dot(m, n) + (t * (s.x * n.x) + t * (s.y * n.y) + t * (s.z * n.z));
      Dot(m, n) + t * Dot(s, n);
    }
  }

  lemma Reassociate(a: real, t: real, b: real)
    ensures (a * t) * b == t * (a * b)
  {
  }

  /** When the signs of `d0` and `d1` differ (or one is zero) and the move is
      not parallel to the plane, `t = -d0 / (d1 - d0)` lies in `[0, 1]`: the
      range check after it never rejects a crossing. */
  lemma CrossingTimeInRange(d0: real, d1: real)
    requires d0 * d1 <= 0.0 && d1 - d0 != 0.0
    ensures 0.0 <= -d0 / (d1 - d0) <= 1.0
  {
    var t := -d0 / (d1 - d0);
    DivCancel(-d0, d1 - d0);
    if d0 > 0.0 {
      assert d1 <= 0.0 by {
        if d1 > 0.0 { MulPositive(d0, d1); }
      }
      FractionInUnit(d0, d0 - d1);
      assert t == d0 / (d0 - d1);
    } else if d0 < 0.0 {
      assert d1 >= 0.0 by {
        if d1 < 0.0 { MulPositive(-d0, -d1); }
      }
      FractionInUnit(-d0, d1 - d0);
    }
  }

  lemma FractionInUnit(a: real, b: real)
    requires 0.0 <= a <= b && 0.0 < b
    ensures 0.0 <= a / b <= 1.0
  {
  }

  /** At the crossing time the point lies on the ring's plane, and it is the
      only time on the line that does. */
  lemma CrossingOnPlane(prev: Vec3, cur: Vec3, center: Vec3, n: Vec3, t: real)
    requires Dot(Sub(cur, prev), n) != 0.0
    ensures Dot(Sub(Lerp(prev, cur, t), center), n) == 0.0
        <==> t == -Dot(Sub(prev, center), n) / Dot(Sub(cur, prev), n)
  {
    var d0 := Dot(Sub(prev, center), n);
    var denom := Dot(Sub(cur, prev), n);
    SignedDistanceAlong(prev, cur, center, n, t);
    DivCancel(-d0, denom);
    if d0 + t * denom == 0.0 {
      MulCancel(t, -d0 / denom, denom);
    }
  }

  lemma MulCancel(a: real, b: real, k: real)
    requires k != 0.0 && a * k == b * k
    ensures a == b
  {
  }

  /** For a unit normal, the orthogonal part's squared length is the squared
      length less the squared normal component. */
  lemma RadialLength(v: Vec3, n: Vec3)
    requires LenSq(n) == 1.0
    ensures LenSq(Radial(v, n)) == LenSq(v) - Sq(Dot(v, n))
  {
    RadialIsShift(v, n);
    UnitShiftLength(v, n, Dot(v, n));
  }

  lemma RadialIsShift(v: Vec3, n: Vec3)
    ensures Radial(v, n) == Add(v, Scale(n, -Dot(v, n)))
  {
  }

  lemma UnitShiftLength(v: Vec3, n: Vec3, k: real)
    requires LenSq(n) == 1.0 && k == Dot(v, n)
    ensures LenSq(Add(v, Scale(n, -k))) == LenSq(v) - Sq(k)
  {
    LenSqShift(v, n, -k);
    assert Sq(-k) == Sq(k);
    assert 2.0 * -k * k == -2.0 * Sq(k);
  }

  /** A point on the plane is its own orthogonal part. */
  lemma RadialOnPlane(v: Vec3, n: Vec3)
    requires Dot(v, n) == 0.0
    ensures Radial(v, n) == v
  {
  }

  /** Some point of the segment lies on the ring's plane within `reach` of its centre. */
  ghost predicate ThroughDisc(prev: Vec3, cur: Vec3, center: Vec3, n: Vec3, reach: real) {
    exists t :: 0.0 <= t <= 1.0
      && Dot(Sub(Lerp(prev, cur, t), center), n) == 0.0
      && LenSq(Sub(Lerp(prev, cur, t), center)) <= Sq(reach)
  }

  /** The current position lies within `2 hw` of the plane and within `reach`
      of the ring's axis. */
  predicate InSlab(cur: Vec3, center: Vec3, n: Vec3, hw: real, reach: real) {
    var v := Sub(cur, center);
    Abs(Dot(v, n)) <= hw * 2.0 && 0.0 <= reach && LenSq(v) - Sq(Dot(v, n)) <= Sq(reach)
  }

  /** What a pass means, for a ring with a unit normal and a non-negative
      reach: a move that changes sides (or touches the plane) and is not
      nearly parallel passes exactly when it goes through the disc of the ring;
      a move that stays strictly on one side passes exactly when it ends in
      the slab around the ring. */
  lemma PassMeaning(sqrt: real -> real, prev: Vec3, cur: Vec3, g: Gate)
    requires IsSqrt(sqrt) && LenSq(g.ring.normal) == 1.0
    requires g.ring.ringRadius + OrReal(g.ring.halfWidth, DefaultHalfWidth) >= 0.0
    ensures var center := g.ring.center;
            var n := g.ring.normal;
            var reach := g.ring.ringRadius + OrReal(g.ring.halfWidth, DefaultHalfWidth);
            var d0 := Dot(Sub(prev, center), n);
            var d1 := Dot(Sub(cur, center), n);
            (d0 * d1 <= 0.0 && Abs(d1 - d0) >= ParallelEpsilon ==>
               (Passes(sqrt, prev, cur, g) <==> ThroughDisc(prev, cur, center, n, reach)))
            && (d0 * d1 > 0.0 ==>
               (Passes(sqrt, prev, cur, g) <==> InSlab(cur, center, n, OrReal(g.ring.halfWidth, DefaultHalfWidth), reach))
               && !ThroughDisc(prev, cur, center, n, reach))
  {
    var center := g.ring.center;
    var n := g.ring.normal;
    var reach := g.ring.ringRadius + OrReal(g.ring.halfWidth, DefaultHalfWidth);
    var d0 := Dot(Sub(prev, center), n);
    var d1 := Dot(Sub(cur, center), n);
    SegmentAlongNormal(prev, cur, center, n);
    if d0 * d1 <= 0.0 && Abs(d1 - d0) >= ParallelEpsilon {
      CrossingPass(sqrt, prev, cur, g);
    }
    if d0 * d1 > 0.0 {
      SlabPass(sqrt, prev, cur, g);
      SameSideMissesDisc(prev, cur, center, n, reach);
    }
  }

  lemma CrossingPass(sqrt: real -> real, prev: Vec3, cur: Vec3, g: Gate)
    requires IsSqrt(sqrt) && LenSq(g.ring.normal) == 1.0
    requires g.ring.ringRadius + OrReal(g.ring.halfWidth, DefaultHalfWidth) >= 0.0
    requires var d0 := Dot(Sub(prev, g.ring.center), g.ring.normal);
             var d1 := Dot(Sub(cur, g.ring.center), g.ring.normal);
             d0 * d1 <= 0.0 && Abs(d1 - d0) >= ParallelEpsilon
    ensures Passes(sqrt, prev, cur, g)
        <==> ThroughDisc(prev, cur, g.ring.center, g.ring.normal,
                         g.ring.ringRadius + OrReal(g.ring.halfWidth, DefaultHalfWidth))
  {
    var center := g.ring.center;
    var n := g.ring.normal;
    var reach := g.ring.ringRadius + OrReal(g.ring.halfWidth, DefaultHalfWidth);
    var d0 := Dot(Sub(prev, center), n);
    var d1 := Dot(Sub(cur, center), n);
    var denom := Dot(Sub(cur, prev), n);
    SegmentAlongNormal(prev, cur, center, n);
    assert denom == d1 - d0;
    var t := -d0 / denom;
    CrossingTimeInRange(d0, d1);
    CrossingOnPlane(prev, cur, center, n, t);
    var v := Sub(Lerp(prev, cur, t), center);
    RadialOnPlane(v, n);
    LenSqNonNegative(v);
    SqrtAtMost(sqrt, LenSq(v), reach);
    assert Passes(sqrt, prev, cur, g) <==> LenSq(v) <= Sq(reach);
    if ThroughDisc(prev, cur, center, n, reach) {
      var s :| 0.0 <= s <= 1.0
        && Dot(Sub(Lerp(prev, cur, s), center), n) == 0.0
        && LenSq(Sub(Lerp(prev, cur, s), center)) <= Sq(reach);
      CrossingOnPlane(prev, cur, center, n, s);
    }
  }

  lemma SlabPass(sqrt: real -> real, prev: Vec3, cur: Vec3, g: Gate)
    requires IsSqrt(sqrt) && LenSq(g.ring.normal) == 1.0
    requires Dot(Sub(prev, g.ring.center), g.ring.normal) * Dot(Sub(cur, g.ring.center), g.ring.normal) > 0.0
    ensures Passes(sqrt, prev, cur, g)
        <==> InSlab(cur, g.ring.center, g.ring.normal, OrReal(g.ring.halfWidth, DefaultHalfWidth),
                    g.ring.ringRadius + OrReal(g.ring.halfWidth, DefaultHalfWidth))
  {
    var v := Sub(cur, g.ring.center);
    var reach := g.ring.ringRadius + OrReal(g.ring.halfWidth, DefaultHalfWidth);
    RadialLength(v, g.ring.normal);
    LenSqNonNegative(Radial(v, g.ring.normal));
    SqrtAtMost(sqrt, LenSq(Radial(v, g.ring.normal)), reach);
  }

  /** A move that stays strictly on one side of the plane never meets it. */
  lemma SameSideMissesDisc(prev: Vec3, cur: Vec3, center: Vec3, n: Vec3, reach: real)
    requires Dot(Sub(prev, center), n) * Dot(Sub(cur, center), n) > 0.0
    ensures !ThroughDisc(prev, cur, center, n, reach)
  {
    var d0 := Dot(Sub(prev, center), n);
    var d1 := Dot(Sub(cur, center), n);
    SegmentAlongNormal(prev, cur, center, n);
    forall t | 0.0 <= t <= 1.0
      ensures Dot(Sub(Lerp(prev, cur, t), center), n) != 0.0
    {
      SignedDistanceAlong(prev, cur, center, n, t);
      SameSign(d0, d1, t);
    }
  }

  /** Between two values of the same strict sign, every convex combination keeps that sign. */
  lemma SameSign(d0: real, d1: real, t: real)
    requires d0 * d1 > 0.0 && 0.0 <= t <= 1.0
    ensures d0 + t * (d1 - d0) != 0.0
  {
    var x := d0 + t * (d1 - d0);
    assert x == (1.0 - t) * d0 + t * d1;
    if d0 > 0.0 {
      assert d1 > 0.0 by {
        if d1 <= 0.0 { MulLe(d1, 0.0, d0); }
      }
      MulLe(0.0, 1.0 - t, d0);
      MulPositive(d0, 1.0);
      if t == 0.0 {
        assert x == d0;
      } else {
        MulPositive(t, d1);
        assert 0.0 <= (1.0 - t) * d0 && 0.0 < t * d1;
      }
    } else {
      assert d0 < 0.0;
      assert d1 < 0.0 by {
        if d1 >= 0.0 { MulLe(0.0, d1, -d0); }
      }
      MulLe(0.0, 1.0 - t, -d0);
      if t == 0.0 {
        assert x == d0;
      } else {
        MulPositive(t, -d1);
        assert 0.0 <= (1.0 - t) * -d0 && 0.0 < t * -d1;
      }
    }
  }
}

/** The laser's segment-versus-box test: a Liang-Barsky clip of the segment's
    parameter interval `[0, 1]` against the three slabs of an axis-aligned box.

    The source divides by each direction coordinate through `1 / d`, using
    `Infinity` when `d` is zero. With a zero coordinate and the start exactly
    on one of that axis's faces, `0 * Infinity` yields NaN; every later
    comparison with NaN is false, so the test can no longer fail. The clip
    state `Poisoned` models that. `SegmentHitsBox` is the corrected test that
    the rest of the model uses. */
module Slab {
  import opened Numbers
  import opened Vectors

  /** The clip state: the surviving parameter interval, the NaN state, or a rejection. */
  datatype Clip = Live(tmin: real, tmax: real) | Poisoned | Rejected

  const Start: Clip := Live(0.0, 1.0)

  /** Clipping a non-zero direction coordinate: the slab's entry and exit
      parameters, sorted, narrow the interval. */
  function ClipMoving(tmin: real, tmax: real, p: real, d: real, lo: real, hi: real): Clip
    requires d != 0.0
  {
    var t1 := (lo - p) / d;
    var t2 := (hi - p) / d;
    var a := Max(tmin, Min(t1, t2));
    var b := Min(tmax, Max(t1, t2));
    if b < a then Rejected else Live(a, b)
  }

  /** One axis of the test as written. With `d == 0` the two parameters are
      infinities of the signs of `lo - p` and `hi - p`: opposite signs keep
      the interval, equal signs reject, and a zero makes a NaN. */
  function AxisAsWritten(c: Clip, p: real, d: real, lo: real, hi: real): Clip {
    if !c.Live? then c
    else if d != 0.0 then ClipMoving(c.tmin, c.tmax, p, d, lo, hi)
    else if lo - p == 0.0 || hi - p == 0.0 then Poisoned
    else if (lo < p && p < hi) || (hi < p && p < lo) then c
    else Rejected
  }

  /** The test as written: the segment is taken to hit unless some axis rejects it. */
  function SegmentHitsBoxAsWritten(p0: Vec3, p1: Vec3, lo: Vec3, hi: Vec3): bool {
    var d := Sub(p1, p0);
    var cx := AxisAsWritten(Start, p0.x, d.x, lo.x, hi.x);
    var cy := AxisAsWritten(cx, p0.y, d.y, lo.y, hi.y);
    var cz := AxisAsWritten(cy, p0.z, d.z, lo.z, hi.z);
    !cz.Rejected?
  }

  /** One axis of the corrected test: a segment parallel to the slab is
      inside it for every parameter or for none. */
  function Axis(c: Clip, p: real, d: real, lo: real, hi: real): (r: Clip)
    ensures c.Live? && c.tmin <= c.tmax && r.Live? ==> r.tmin <= r.tmax
    ensures !r.Poisoned? || c.Poisoned?
  {
    if !c.Live? then c
    else if d != 0.0 then ClipMoving(c.tmin, c.tmax, p, d, lo, hi)
    else if lo <= p <= hi then c
    else Rejected
  }

  function ClipAll(p0: Vec3, p1: Vec3, lo: Vec3, hi: Vec3): Clip {
    var d := Sub(p1, p0);
    Axis(Axis(Axis(Start, p0.x, d.x, lo.x, hi.x), p0.y, d.y, lo.y, hi.y), p0.z, d.z, lo.z, hi.z)
  }

  /** `_segmentAabbIntersect(p0, p1, min, max)`, corrected. */
  function SegmentHitsBox(p0: Vec3, p1: Vec3, lo: Vec3, hi: Vec3): bool {
    !ClipAll(p0, p1, lo, hi).Rejected?
  }

  // --------------------------------------------------------------- meaning

  predicate InBox(v: Vec3, lo: Vec3, hi: Vec3) {
    lo.x <= v.x <= hi.x && lo.y <= v.y <= hi.y && lo.z <= v.z <= hi.z
  }

  predicate Ordered(lo: Vec3, hi: Vec3) { lo.x <= hi.x && lo.y <= hi.y && lo.z <= hi.z }

  /** Parameter `t` survives the clip state `c`. */
  predicate Admits(c: Clip, t: real) { c.Live? && c.tmin <= t <= c.tmax }

  /** The point at parameter `t` of the line `p + t d` lies in the slab `[lo, hi]`. */
  predicate InSlabAt(p: real, d: real, lo: real, hi: real, t: real) { lo <= p + t * d <= hi }

  /** The corrected test detects exactly the segments that have a point inside the box. */
  lemma SegmentHitsBoxMeaning(p0: Vec3, p1: Vec3, lo: Vec3, hi: Vec3)
    requires Ordered(lo, hi)
    ensures SegmentHitsBox(p0, p1, lo, hi)
        <==> exists t :: 0.0 <= t <= 1.0 && InBox(Lerp(p0, p1, t), lo, hi)
  {
    var d := Sub(p1, p0);
    var cx := Axis(Start, p0.x, d.x, lo.x, hi.x);
    var cy := Axis(cx, p0.y, d.y, lo.y, hi.y);
    var cz := Axis(cy, p0.z, d.z, lo.z, hi.z);
    forall t
      ensures Admits(cz, t) <==> 0.0 <= t <= 1.0 && InBox(Lerp(p0, p1, t), lo, hi)
    {
      AxisAdmits(Start, p0.x, d.x, lo.x, hi.x, t);
      AxisAdmits(cx, p0.y, d.y, lo.y, hi.y, t);
      AxisAdmits(cy, p0.z, d.z, lo.z, hi.z, t);
      LerpInBox(p0, p1, lo, hi, t);
    }
    if cz.Live? {
      assert Admits(cz, cz.tmin);
    }
  }

  /** A point of the segment is in the box exactly when it is in all three slabs. */
  lemma LerpInBox(p0: Vec3, p1: Vec3, lo: Vec3, hi: Vec3, t: real)
    ensures InBox(Lerp(p0, p1, t), lo, hi)
        <==> InSlabAt(p0.x, p1.x - p0.x, lo.x, hi.x, t)
             && InSlabAt(p0.y, p1.y - p0.y, lo.y, hi.y, t)
             && InSlabAt(p0.z, p1.z - p0.z, lo.z, hi.z, t)
  {
    var v := Lerp(p0, p1, t);
    LerpCoord(p0, p1, t, 0);
    LerpCoord(p0, p1, t, 1);
    LerpCoord(p0, p1, t, 2);
    assert v.x == p0.x + t * (p1.x - p0.x);
    assert v.y == p0.y + t * (p1.y - p0.y);
    assert v.z == p0.z + t * (p1.z - p0.z);
  }

  /** One clip step keeps exactly the parameters that were admitted and lie in the slab. */
  lemma AxisAdmits(c: Clip, p: real, d: real, lo: real, hi: real, t: real)
    requires lo <= hi && !c.Poisoned?
    ensures Admits(Axis(c, p, d, lo, hi), t) <==> Admits(c, t) && InSlabAt(p, d, lo, hi, t)
  {
    if c.Live? && d != 0.0 {
      SlabInterval(p, d, lo, hi, t);
    }
  }

  /** For a non-zero direction coordinate, the parameters inside the slab
      form the interval between the two crossing parameters. */
  lemma SlabInterval(p: real, d: real, lo: real, hi: real, t: real)
    requires lo <= hi && d != 0.0
    ensures InSlabAt(p, d, lo, hi, t)
        <==> Min((lo - p) / d, (hi - p) / d) <= t <= Max((lo - p) / d, (hi - p) / d)
  {
    if d > 0.0 {
      AtLeastDiv(lo - p, d, t);
      AtMostDiv(hi - p, d, t);
      DivMonotone(lo - p, hi - p, d);
      assert InSlabAt(p, d, lo, hi, t) <==> lo - p <= t * d && t * d <= hi - p;
      assert Min((lo - p) / d, (hi - p) / d) == (lo - p) / d;
      assert Max((lo - p) / d, (hi - p) / d) == (hi - p) / d;
    } else {
      var e := -d;
      assert t * e == -(t * d);
      AtMostDiv(p - lo, e, t);
      AtLeastDiv(p - hi, e, t);
      DivMonotone(p - hi, p - lo, e);
      assert (lo - p) / d == (p - lo) / e by { NegDiv(lo - p, d); }
      assert (hi - p) / d == (p - hi) / e by { NegDiv(hi - p, d); }
      assert InSlabAt(p, d, lo, hi, t) <==> t * e <= p - lo && p - hi <= t * e;
      assert Min((lo - p) / d, (hi - p) / d) == (hi - p) / d;
      assert Max((lo - p) / d, (hi - p) / d) == (lo - p) / d;
    }
  }

  lemma AtLeastDiv(a: real, d: real, t: real)
    requires d > 0.0
    ensures a <= t * d <==> a / d <= t
  {
    DivCancel(a, d);
    if a / d <= t {
      MulLe(a / d, t, d);
    } else {
      MulLt(t, a / d, d);
    }
  }

  lemma AtMostDiv(a: real, d: real, t: real)
    requires d > 0.0
    ensures t * d <= a <==> t <= a / d
  {
    DivCancel(a, d);
    if t <= a / d {
      MulLe(t, a / d, d);
    } else {
      MulLt(a / d, t, d);
    }
  }

  lemma DivMonotone(a: real, b: real, d: real)
    requires a <= b && d > 0.0
    ensures a / d <= b / d
  {
  }

  lemma NegDiv(a: real, d: real)
    requires d != 0.0
    ensures a / d == (-a) / (-d)
  {
  }

  // -------------------------------------------------------------- the finding

  /** On a zero-direction axis whose start is not on a face, the written test
      makes the same decision as the corrected one. */
  lemma AxisAgrees(c: Clip, p: real, d: real, lo: real, hi: real)
    requires lo <= hi && !c.Poisoned?
    requires d == 0.0 ==> p != lo && p != hi
    ensures AxisAsWritten(c, p, d, lo, hi) == Axis(c, p, d, lo, hi)
  {
  }

  /** Away from the NaN case the written test is the corrected one. */
  lemma AsWrittenAgrees(p0: Vec3, p1: Vec3, lo: Vec3, hi: Vec3)
    requires Ordered(lo, hi)
    requires p1.x == p0.x ==> p0.x != lo.x && p0.x != hi.x
    requires p1.y == p0.y ==> p0.y != lo.y && p0.y != hi.y
    requires p1.z == p0.z ==> p0.z != lo.z && p0.z != hi.z
    ensures SegmentHitsBoxAsWritten(p0, p1, lo, hi) == SegmentHitsBox(p0, p1, lo, hi)
  {
    var d := Sub(p1, p0);
    AxisAgrees(Start, p0.x, d.x, lo.x, hi.x);
    var cx := Axis(Start, p0.x, d.x, lo.x, hi.x);
    AxisAgrees(cx, p0.y, d.y, lo.y, hi.y);
    var cy := Axis(cx, p0.y, d.y, lo.y, hi.y);
    AxisAgrees(cy, p0.z, d.z, lo.z, hi.z);
  }

  /** Once a NaN has appeared the written test accepts, whatever the later axes say. */
  lemma PoisonedAccepts(p0: Vec3, p1: Vec3, lo: Vec3, hi: Vec3)
    requires p1.x == p0.x && (p0.x == lo.x || p0.x == hi.x)
    ensures SegmentHitsBoxAsWritten(p0, p1, lo, hi)
  {
  }

  /** A laser moving along x at height z = 5, starting on the bottom face
      plane y = 0 of a box spanning z in [-1, 1]: the written test reports a
      hit although no point of the segment is in the box. */
  lemma NaNFalseHit()
    ensures SegmentHitsBoxAsWritten(Vec3(0.0, 0.0, 5.0), Vec3(1.0, 0.0, 5.0),
                                    Vec3(-1.0, 0.0, -1.0), Vec3(1.0, 1.0, 1.0))
    ensures !SegmentHitsBox(Vec3(0.0, 0.0, 5.0), Vec3(1.0, 0.0, 5.0),
                            Vec3(-1.0, 0.0, -1.0), Vec3(1.0, 1.0, 1.0))
    ensures forall t :: 0.0 <= t <= 1.0 ==>
              !InBox(Lerp(Vec3(0.0, 0.0, 5.0), Vec3(1.0, 0.0, 5.0), t), Vec3(-1.0, 0.0, -1.0), Vec3(1.0, 1.0, 1.0))
  {
    var p0 := Vec3(0.0, 0.0, 5.0);
    var p1 := Vec3(1.0, 0.0, 5.0);
    var lo := Vec3(-1.0, 0.0, -1.0);
    var hi := Vec3(1.0, 1.0, 1.0);
    PoisonedY(p0, p1, lo, hi);
    forall t | 0.0 <= t <= 1.0
      ensures !InBox(Lerp(p0, p1, t), lo, hi)
    {
      LerpCoord(p0, p1, t, 2);
    }
    SegmentHitsBoxMeaning(p0, p1, lo, hi);
  }

  lemma PoisonedY(p0: Vec3, p1: Vec3, lo: Vec3, hi: Vec3)
    requires p1.x - p0.x != 0.0 && lo.x < hi.x
    requires (lo.x - p0.x) / (p1.x - p0.x) <= 0.0 && (hi.x - p0.x) / (p1.x - p0.x) >= 1.0
    requires p1.y == p0.y && p0.y == lo.y
    ensures SegmentHitsBoxAsWritten(p0, p1, lo, hi)
  {
  }
}

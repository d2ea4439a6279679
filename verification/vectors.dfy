/** Three-dimensional real vectors: the part of three.js `Vector3` the game's logic uses. */
module Vectors {
  import opened Numbers

  datatype Vec3 = Vec3(x: real, y: real, z: real)

  function Add(a: Vec3, b: Vec3): Vec3 { Vec3(a.x + b.x, a.y + b.y, a.z + b.z) }
  function Sub(a: Vec3, b: Vec3): Vec3 { Vec3(a.x - b.x, a.y - b.y, a.z - b.z) }
  function Scale(a: Vec3, k: real): Vec3 { Vec3(a.x * k, a.y * k, a.z * k) }
  function Dot(a: Vec3, b: Vec3): real { a.x * b.x + a.y * b.y + a.z * b.z }
  function LenSq(a: Vec3): real { Sq(a.x) + Sq(a.y) + Sq(a.z) }

  /** The point a fraction `t` of the way from `p` to `q`. */
  function Lerp(p: Vec3, q: Vec3, t: real): Vec3 { Add(p, Scale(Sub(q, p), t)) }

  /** `v.normalize()`: divides by the length, or by 1 when the length is 0. */
  function Normalize(sqrt: real -> real, v: Vec3): Vec3
    requires IsSqrt(sqrt)
  {
    Scale(v, 1.0 / OrReal(sqrt(LenSq(v)), 1.0))
  }

  /** The cross product (`crossVectors`). */
  function Cross(a: Vec3, b: Vec3): Vec3 {
    Vec3(a.y * b.z - a.z * b.y, a.z * b.x - a.x * b.z, a.x * b.y - a.y * b.x)
  }

  /** Adds the same scalar to every coordinate (`addScalar`). */
  function AddScalar(a: Vec3, k: real): Vec3 { Vec3(a.x + k, a.y + k, a.z + k) }

  /** Coordinate 0, 1 or 2 of a vector. */
  function Coord(v: Vec3, axis: nat): real
    requires axis < 3
  {
    if axis == 0 then v.x else if axis == 1 then v.y else v.z
  }

  lemma LenSqNonNegative(a: Vec3)
    ensures 0.0 <= LenSq(a)
  {
    SquareNonNegative(a.x);
    SquareNonNegative(a.y);
    SquareNonNegative(a.z);
  }

  /** A zero squared length means the zero vector. */
  lemma LenSqZero(a: Vec3)
    ensures LenSq(a) == 0.0 <==> a == Vec3(0.0, 0.0, 0.0)
  {
    SquareNonNegative(a.x);
    SquareNonNegative(a.y);
    SquareNonNegative(a.z);
    if LenSq(a) == 0.0 {
      SquareZero(a.x);
      SquareZero(a.y);
      SquareZero(a.z);
    }
  }

  /** Coordinates of a point on the segment. */
  lemma LerpCoord(p: Vec3, q: Vec3, t: real, axis: nat)
    requires axis < 3
    ensures Coord(Lerp(p, q, t), axis) == Coord(p, axis) + t * (Coord(q, axis) - Coord(p, axis))
  {
  }

  /** `(m + t d)^2` expanded, for one coordinate. */
  lemma SquareExpand(m: real, d: real, t: real)
    ensures Sq(m + d * t) == Sq(m) + 2.0 * t * (m * d) + Sq(t) * Sq(d)
  {
  }

  /** The squared distance from a point on the segment p->q to c, as a polynomial in t. */
  lemma LerpDistance(p: Vec3, q: Vec3, c: Vec3, t: real)
    ensures LenSq(Sub(Lerp(p, q, t), c))
         == LenSq(Sub(p, c)) + 2.0 * t * Dot(Sub(p, c), Sub(q, p)) + Sq(t) * LenSq(Sub(q, p))
  {
    var m := Sub(p, c);
    var d := Sub(q, p);
    assert Sub(Lerp(p, q, t), c) == Add(m, Scale(d, t));
    LenSqShift(m, d, t);
  }

  /** The squared length of `m + t d`, as a polynomial in `t`. */
  lemma LenSqShift(m: Vec3, d: Vec3, t: real)
    ensures LenSq(Add(m, Scale(d, t))) == LenSq(m) + 2.0 * t * Dot(m, d) + Sq(t) * LenSq(d)
  {
    var r := Add(m, Scale(d, t));
    assert r.x == m.x + d.x * t && r.y == m.y + d.y * t && r.z == m.z + d.z * t;
    SquareExpand(m.x, d.x, t);
    SquareExpand(m.y, d.y, t);
    SquareExpand(m.z, d.z, t);
    Distribute(2.0 * t, m.x * d.x, m.y * d.y, m.z * d.z);
    Distribute(Sq(t), Sq(d.x), Sq(d.y), Sq(d.z));
  }

  lemma Distribute(k: real, a: real, b: real, c: real)
    ensures k * a + k * b + k * c == k * (a + b + c)
  {
  }

  lemma DotScale(a: Vec3, v: Vec3, k: real)
    ensures Dot(a, Scale(v, k)) == k * Dot(a, v)
  {
  }

  lemma LerpEnds(p: Vec3, q: Vec3)
    ensures Lerp(p, q, 0.0) == p && Lerp(p, q, 1.0) == q
  {
  }

  lemma LenSqSubSymmetric(a: Vec3, b: Vec3)
    ensures LenSq(Sub(a, b)) == LenSq(Sub(b, a))
  {
    assert Sq(a.x - b.x) == Sq(b.x - a.x);
    assert Sq(a.y - b.y) == Sq(b.y - a.y);
    assert Sq(a.z - b.z) == Sq(b.z - a.z);
  }

  /** A segment of zero length has its two ends at the same point. */
  lemma LerpStill(p: Vec3, q: Vec3)
    requires LenSq(Sub(q, p)) == 0.0
    ensures q == p
  {
    ZeroLength(Sub(q, p));
  }

  lemma ZeroLength(a: Vec3)
    requires LenSq(a) == 0.0
    ensures a == Vec3(0.0, 0.0, 0.0)
  {
    LenSqZero(a);
  }

  /** Scaling multiplies the squared length by the square of the factor. */
  lemma LenSqScale(v: Vec3, k: real)
    ensures LenSq(Scale(v, k)) == Sq(k) * LenSq(v)
  {
    SqMul(v.x, k);
    SqMul(v.y, k);
    SqMul(v.z, k);
  }

  /** A non-zero vector normalizes to unit length. */
  lemma NormalizeUnit(sqrt: real -> real, v: Vec3)
    requires IsSqrt(sqrt) && v != Vec3(0.0, 0.0, 0.0)
    ensures LenSq(Normalize(sqrt, v)) == 1.0
  {
    LenSqZero(v);
    LenSqNonNegative(v);
    var len := sqrt(LenSq(v));
    SqrtPositive(sqrt, LenSq(v));
    assert OrReal(len, 1.0) == len;
    LenSqScale(v, 1.0 / len);
    SqDiv(1.0, len);
    assert Sq(len) == LenSq(v);
  }

  /** Interpolating between a point and itself stays put. */
  lemma LerpSame(p: Vec3, t: real)
    ensures Lerp(p, p, t) == p
  {
  }

}

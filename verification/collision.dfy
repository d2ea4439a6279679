/** The player-versus-obstacle test of checkCollisions: a distance test at the
    current position, then an "anti-tunnelling" test of the segment the player
    travelled this frame against the obstacle's bounding ball. */
module Collision {
  import opened Numbers
  import opened Vectors

  /** The test as the game computes it, for a ball of `radius` around `center`,
      with the player moving from `prev` to `cur`. `sqrt` stands for every
      `Math.sqrt` and `distanceTo` of the computation. */
  function BallHit(sqrt: real -> real, prev: Vec3, cur: Vec3, center: Vec3, radius: real): bool
    requires IsSqrt(sqrt)
  {
    sqrt(LenSq(Sub(center, cur))) <= radius || SweepHit(sqrt, prev, cur, center, radius)
  }

  /** The anti-tunnelling part: with `m = prev - center` and `segDir` the unit
      direction of travel, the ball is entered within `segLen` when
      `|m|^2 <= radius^2` or the smaller root `-b - sqrt(b^2 - c)` of
      `s^2 + 2 b s + c` lies in `[0, segLen]`. */
  function SweepHit(sqrt: real -> real, prev: Vec3, cur: Vec3, center: Vec3, radius: real): bool
    requires IsSqrt(sqrt)
  {
    var movement := Sub(cur, prev);
    var lenSq := LenSq(movement);
    if lenSq > 0.0 then
      var segLen := sqrt(lenSq);
      var b := Along(sqrt, prev, cur, center);
      var c := LenSq(Sub(prev, center)) - Sq(radius);
      c <= 0.0 || RootInRange(sqrt, b, c, segLen)
    else
      false
  }

  /** `b = m . segDir`: how far along the unit direction of travel the
      start sits past the centre, with `m = prev - center`. */
  function Along(sqrt: real -> real, prev: Vec3, cur: Vec3, center: Vec3): real
    requires IsSqrt(sqrt) && LenSq(Sub(cur, prev)) > 0.0
  {
    SqrtPositive(sqrt, LenSq(Sub(cur, prev)));
    var segDir := Scale(Sub(cur, prev), 1.0 / sqrt(LenSq(Sub(cur, prev))));
    Dot(Sub(prev, center), segDir)
  }

  /** The smaller root `-b - sqrt(b^2 - c)` of `s^2 + 2 b s + c` exists and lies in `[0, L]`. */
  predicate RootInRange(sqrt: real -> real, b: real, c: real, L: real) {
    Sq(b) - c >= 0.0 && -b - sqrt(Sq(b) - c) >= 0.0 && -b - sqrt(Sq(b) - c) <= L
  }

  /** The point a fraction `t` along the move lies in the closed ball. */
  ghost predicate TouchesAt(prev: Vec3, cur: Vec3, center: Vec3, radius: real, t: real) {
    LenSq(Sub(Lerp(prev, cur, t), center)) <= Sq(radius)
  }

  /** Some point of the closed segment `prev -> cur` lies in the closed ball. */
  ghost predicate SegmentMeetsBall(prev: Vec3, cur: Vec3, center: Vec3, radius: real) {
    exists t :: 0.0 <= t <= 1.0 && TouchesAt(prev, cur, center, radius, t)
  }

  /** The game's test detects a hit exactly when the travelled segment meets
      the ball: no obstacle is tunnelled through, and no hit is invented. */
  lemma BallHitIsSegmentMeetsBall(sqrt: real -> real, prev: Vec3, cur: Vec3, center: Vec3, radius: real)
    requires IsSqrt(sqrt) && 0.0 <= radius
    ensures BallHit(sqrt, prev, cur, center, radius) <==> SegmentMeetsBall(prev, cur, center, radius)
  {
    LerpEnds(prev, cur);
    LenSqSubSymmetric(center, cur);
    LenSqNonNegative(Sub(center, cur));
    SqrtAtMost(sqrt, LenSq(Sub(center, cur)), radius);
    if sqrt(LenSq(Sub(center, cur))) <= radius {
      assert TouchesAt(prev, cur, center, radius, 1.0);
    } else {
      var movement := Sub(cur, prev);
      LenSqNonNegative(movement);
      if LenSq(movement) > 0.0 {
        if LenSq(Sub(prev, center)) - Sq(radius) <= 0.0 {
          assert TouchesAt(prev, cur, center, radius, 0.0);
        } else {
          MovingCase(sqrt, prev, cur, center, radius);
        }
      } else {
        forall t | 0.0 <= t <= 1.0
          ensures !TouchesAt(prev, cur, center, radius, t)
        {
          LerpStill(prev, cur);
          LerpSame(prev, t);
        }
      }
    }
  }

  /** The squared distance along the move, as the quadratic `c + 2 t k + t^2 L2`. */
  lemma TouchesAtPolynomial(prev: Vec3, cur: Vec3, center: Vec3, radius: real, t: real)
    ensures TouchesAt(prev, cur, center, radius, t)
        <==> (LenSq(Sub(prev, center)) - Sq(radius))
             + 2.0 * t * Dot(Sub(prev, center), Sub(cur, prev)) + Sq(t) * LenSq(Sub(cur, prev)) <= 0.0
  {
    LerpDistance(prev, cur, center, t);
  }

  /** The moving case with the start outside the ball: the quadratic's smaller
      root lies in `[0, segLen]` exactly when the segment enters the ball. */
  lemma MovingCase(sqrt: real -> real, prev: Vec3, cur: Vec3, center: Vec3, radius: real)
    requires IsSqrt(sqrt) && 0.0 <= radius
    requires LenSq(Sub(cur, prev)) > 0.0
    requires LenSq(Sub(prev, center)) - Sq(radius) > 0.0
    ensures SweepHit(sqrt, prev, cur, center, radius) <==> SegmentMeetsBall(prev, cur, center, radius)
  {
    var L := sqrt(LenSq(Sub(cur, prev)));
    var b := Along(sqrt, prev, cur, center);
    var c := LenSq(Sub(prev, center)) - Sq(radius);
    assert SweepHit(sqrt, prev, cur, center, radius) == RootInRange(sqrt, b, c, L);
    if RootInRange(sqrt, b, c, L) {
      MovingForward(sqrt, prev, cur, center, radius);
    }
    if SegmentMeetsBall(prev, cur, center, radius) {
      MovingBackward(sqrt, prev, cur, center, radius);
    }
  }

  /** The scalars of the moving case: `b = k / L` with `k = m . movement`. */
  lemma AlongIsScaled(sqrt: real -> real, prev: Vec3, cur: Vec3, center: Vec3)
    requires IsSqrt(sqrt) && LenSq(Sub(cur, prev)) > 0.0
    ensures 0.0 < sqrt(LenSq(Sub(cur, prev)))
    ensures Sq(sqrt(LenSq(Sub(cur, prev)))) == LenSq(Sub(cur, prev))
    ensures Along(sqrt, prev, cur, center)
         == (1.0 / sqrt(LenSq(Sub(cur, prev)))) * Dot(Sub(prev, center), Sub(cur, prev))
  {
    SqrtPositive(sqrt, LenSq(Sub(cur, prev)));
    DotScale(Sub(prev, center), Sub(cur, prev), 1.0 / sqrt(LenSq(Sub(cur, prev))));
  }

  lemma MovingForward(sqrt: real -> real, prev: Vec3, cur: Vec3, center: Vec3, radius: real)
    requires IsSqrt(sqrt) && LenSq(Sub(cur, prev)) > 0.0
    requires RootInRange(sqrt, Along(sqrt, prev, cur, center),
                         LenSq(Sub(prev, center)) - Sq(radius), sqrt(LenSq(Sub(cur, prev))))
    ensures SegmentMeetsBall(prev, cur, center, radius)
  {
    AlongIsScaled(sqrt, prev, cur, center);
    var t := RootOnSegment(sqrt, LenSq(Sub(prev, center)) - Sq(radius), Dot(Sub(prev, center), Sub(cur, prev)),
                           LenSq(Sub(cur, prev)), sqrt(LenSq(Sub(cur, prev))), Along(sqrt, prev, cur, center));
    TouchesAtPolynomial(prev, cur, center, radius, t);
  }

  lemma MovingBackward(sqrt: real -> real, prev: Vec3, cur: Vec3, center: Vec3, radius: real)
    requires IsSqrt(sqrt) && LenSq(Sub(cur, prev)) > 0.0
    requires LenSq(Sub(prev, center)) - Sq(radius) > 0.0
    requires SegmentMeetsBall(prev, cur, center, radius)
    ensures RootInRange(sqrt, Along(sqrt, prev, cur, center),
                        LenSq(Sub(prev, center)) - Sq(radius), sqrt(LenSq(Sub(cur, prev))))
  {
    AlongIsScaled(sqrt, prev, cur, center);
    var t0 :| 0.0 <= t0 <= 1.0 && TouchesAt(prev, cur, center, radius, t0);
    TouchesAtPolynomial(prev, cur, center, radius, t0);
    RootBeforeContact(sqrt, LenSq(Sub(prev, center)) - Sq(radius), Dot(Sub(prev, center), Sub(cur, prev)),
                      LenSq(Sub(cur, prev)), sqrt(LenSq(Sub(cur, prev))), Along(sqrt, prev, cur, center), t0);
  }

  /** `c + 2 t k + t^2 L^2`, rewritten in the arc-length parameter `s = t L`. */
  lemma ArcLength(c: real, k: real, L: real, b: real, t: real)
    requires L > 0.0 && b == (1.0 / L) * k
    ensures c + 2.0 * t * k + Sq(t) * Sq(L) == Sq(t * L + b) - (Sq(b) - c)
  {
    assert k == b * L;
    SqMul(t, L);
  }

  /** Direction ⇒: the root the game computes is a point of contact on the segment. */
  lemma RootOnSegment(sqrt: real -> real, c: real, k: real, L2: real, L: real, b: real) returns (t: real)
    requires IsSqrt(sqrt) && L > 0.0 && Sq(L) == L2 && b == (1.0 / L) * k
    requires RootInRange(sqrt, b, c, L)
    ensures 0.0 <= t <= 1.0 && c + 2.0 * t * k + Sq(t) * L2 <= 0.0
  {
    var q := sqrt(Sq(b) - c);
    assert Sq(q) == Sq(b) - c;
    var s := -b - q;
    t := s / L;
    DivCancel(s, L);
    assert t * L == s;
    DivNonNegative(s, L);
    DivAtMostOne(s, L);
    ArcLength(c, k, L, b, t);
    assert t * L + b == -q;
    assert Sq(-q) == Sq(q);
  }

  lemma DivNonNegative(s: real, L: real)
    requires 0.0 <= s && 0.0 < L
    ensures 0.0 <= s / L
  {
  }

  lemma DivAtMostOne(s: real, L: real)
    requires s <= L && 0.0 < L
    ensures s / L <= 1.0
  {
  }

  /** Direction ⇐: a point of contact at `t0` makes the discriminant
      non-negative and puts the smaller root between 0 and `t0 L`. */
  lemma RootBeforeContact(sqrt: real -> real, c: real, k: real, L2: real, L: real, b: real, t0: real)
    requires IsSqrt(sqrt) && L > 0.0 && Sq(L) == L2 && b == (1.0 / L) * k
    requires c > 0.0 && 0.0 <= t0 <= 1.0
    requires c + 2.0 * t0 * k + Sq(t0) * L2 <= 0.0
    ensures RootInRange(sqrt, b, c, L)
  {
    var s0 := t0 * L;
    ArcLength(c, k, L, b, t0);
    var discr := Sq(b) - c;
    SquareNonNegative(s0 + b);
    var q := sqrt(discr);
    assert 0.0 <= q && Sq(q) == discr;
    AbsBelowRoot(s0 + b, q);
    MulLe(t0, 1.0, L);
    MulLe(0.0, t0, L);
    StartOutside(s0, b, c);
    HeadingInward(s0, b, c);
    RootPositive(b, c, q);
  }

  /** `x^2 <= q^2` with `q >= 0` bounds `x` by `q` on both sides. */
  lemma AbsBelowRoot(x: real, q: real)
    requires 0.0 <= q && Sq(x) <= Sq(q)
    ensures -q <= x <= q
  {
    if x > q {
      SquareStrict(q, x);
    } else if x < -q {
      SquareStrict(q, -x);
    }
  }

  /** The contact point is not the start, which is outside the ball. */
  lemma StartOutside(s0: real, b: real, c: real)
    requires 0.0 <= s0 && c > 0.0 && Sq(s0 + b) - (Sq(b) - c) <= 0.0
    ensures s0 > 0.0
  {
  }

  /** Reaching the ball from outside, the path starts heading inward. */
  lemma HeadingInward(s0: real, b: real, c: real)
    requires s0 > 0.0 && c > 0.0 && Sq(s0 + b) - (Sq(b) - c) <= 0.0
    ensures b < 0.0
  {
    calc {
      Sq(s0 + b) - (Sq(b) - c);
      s0 * (s0 + 2.0 * b) + c;
    }
    if s0 + 2.0 * b >= 0.0 {
      MulLe(0.0, s0 + 2.0 * b, s0);
    }
  }

  lemma RootPositive(b: real, c: real, q: real)
    requires b < 0.0 && c > 0.0 && 0.0 <= q && Sq(q) == Sq(b) - c
    ensures 0.0 <= -b - q
  {
    if q > -b {
      SquareStrict(-b, q);
    }
  }
}

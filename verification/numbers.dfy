/** Numeric idioms of the game's JavaScript, written out over Dafny's unbounded reals and ints. */
module Numbers {

  datatype Option<+T> = None | Some(value: T)

  function Min(a: real, b: real): real { if a <= b then a else b }
  function Max(a: real, b: real): real { if a >= b then a else b }
  function MaxInt(a: int, b: int): int { if a >= b then a else b }
  function Abs(a: real): real { if a < 0.0 then -a else a }

  /** `x || d` on a number: zero is falsy and falls back to `d`. */
  function OrReal(x: real, d: real): real { if x == 0.0 then d else x }
  function OrInt(x: int, d: int): int { if x == 0 then d else x }

  /** `Math.max(lo, Math.min(hi, x))`. */
  function Clamp(x: real, lo: real, hi: real): real { Max(lo, Min(hi, x)) }

  /** Truncation toward zero, as JavaScript's `%` uses it. */
  function Trunc(x: real): int { if x >= 0.0 then x.Floor else -((-x).Floor) }

  /** JavaScript's `x % 1` on a number: the remainder keeps the sign of `x`. */
  function Frac(x: real): (r: real)
    ensures 0.0 <= x ==> 0.0 <= r < 1.0
    ensures x < 0.0 ==> -1.0 < r <= 0.0
    ensures 0.0 <= x < 1.0 ==> r == x
  {
    x - Trunc(x) as real
  }

  /** A draw of `Math.random()`: a number in [0, 1). */
  predicate UnitDraw(d: real) { 0.0 <= d < 1.0 }

  /** `lo + Math.random() * (hi - lo)`, also spelled `THREE.MathUtils.randFloat(lo, hi)`. */
  function RandFloat(lo: real, hi: real, d: real): real { lo + d * (hi - lo) }

  /** A draw stretched over `[lo, hi]` stays inside it, and below `hi` when the range is not empty. */
  lemma RandFloatRange(lo: real, hi: real, d: real)
    requires UnitDraw(d) && lo <= hi
    ensures lo <= RandFloat(lo, hi, d) <= hi
    ensures lo < hi ==> RandFloat(lo, hi, d) < hi
  {
    var w := hi - lo;
    var x := d * w;
    MulLe(0.0, d, w);
    MulLe(d, 1.0, w);
    if lo < hi {
      MulLt(d, 1.0, w);
      assert x < w;
    }
    assert RandFloat(lo, hi, d) == lo + x;
  }

  /** The square of a number. Kept as a function of its own so that the
      solver treats squares as terms, not as products it rewrites. */
  function Sq(x: real): real { x * x }

  /** `sqrt` is a square root on the non-negative reals. Every `Math.sqrt`,
      `Math.hypot`, `length()` and `distanceTo()` of the game goes through
      such a function, passed in as a parameter. */
  ghost predicate IsSqrt(sqrt: real -> real) {
    forall x: real :: 0.0 <= x ==> 0.0 <= sqrt(x) && Sq(sqrt(x)) == x
  }

  lemma MulPositive(a: real, b: real)
    requires 0.0 < a && 0.0 < b
    ensures 0.0 < a * b
  {
  }

  lemma MulLe(a: real, b: real, c: real)
    requires 0.0 <= c && a <= b
    ensures a * c <= b * c
  {
  }

  lemma MulLt(a: real, b: real, c: real)
    requires 0.0 < c && a < b
    ensures a * c < b * c
  {
  }

  /** A non-zero number has a positive square. */
  lemma SquarePositive(v: real)
    requires v != 0.0
    ensures 0.0 < Sq(v)
  {
    var w := Abs(v);
    calc {
      Sq(v);
      v * v;
      w * w;
    >  { MulPositive(w, w); }
      0.0;
    }
  }

  lemma SquareNonNegative(v: real)
    ensures 0.0 <= Sq(v)
  {
    if v != 0.0 {
      SquarePositive(v);
    }
  }

  /** Only zero squares to zero. */
  lemma SquareZero(v: real)
    requires Sq(v) == 0.0
    ensures v == 0.0
  {
    if v != 0.0 {
      SquarePositive(v);
    }
  }

  /** Squaring is strictly monotone on the non-negative reals. */
  lemma SquareStrict(a: real, b: real)
    requires 0.0 <= a < b
    ensures Sq(a) < Sq(b)
  {
    calc {
      Sq(a);
      a * a;
    <= { MulLe(a, b, a); }
      b * a;
      a * b;
    <  { MulLt(a, b, b); }
      b * b;
      Sq(b);
    }
  }

  /** Comparing a square root against a bound is comparing the squares. */
  lemma SqrtAtMost(sqrt: real -> real, x: real, bound: real)
    requires IsSqrt(sqrt) && 0.0 <= x
    ensures sqrt(x) <= bound <==> 0.0 <= bound && x <= Sq(bound)
  {
    var s := sqrt(x);
    assert 0.0 <= s && Sq(s) == x;
    if s < bound {
      SquareStrict(s, bound);
    } else if s > bound && 0.0 <= bound {
      SquareStrict(bound, s);
    }
  }

  /** The square root is determined by its square. */
  lemma SqrtOf(sqrt: real -> real, x: real, s: real)
    requires IsSqrt(sqrt) && 0.0 <= s && Sq(s) == x
    ensures sqrt(x) == s
  {
    var r := sqrt(x);
    assert 0.0 <= r && Sq(r) == x;
    if r < s {
      SquareStrict(r, s);
    } else if s < r {
      SquareStrict(s, r);
    }
  }

  /** The square root of a positive number is positive. */
  lemma SqrtPositive(sqrt: real -> real, x: real)
    requires IsSqrt(sqrt) && 0.0 < x
    ensures 0.0 < sqrt(x)
  {
    assert Sq(sqrt(x)) == x;
  }

  lemma SqMul(a: real, b: real)
    ensures Sq(a * b) == Sq(a) * Sq(b)
  {
  }

  lemma DivCancel(a: real, r: real)
    requires r != 0.0
    ensures r * (a / r) == a
  {
  }

  /** Scaling by `1/r` divides the square by `r^2`. */
  lemma SqDiv(a: real, r: real)
    requires r != 0.0
    ensures Sq(a / r) * Sq(r) == Sq(a)
  {
    calc {
      Sq(a / r) * Sq(r);
      { SqMul(a / r, r); }
      Sq((a / r) * r);
      { DivCancel(a, r); }
      Sq(a);
    }
  }
}

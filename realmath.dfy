/**
 * Real-number helpers shared by every module.  The square root, sine, cosine and
 * arc tangent of the browser's `Math` object have no definition in Dafny; members that
 * need them take them as function-valued parameters, and the lemmas that depend on
 * their meaning carry a hypothesis such as `IsSqrt(sqrt)`.
 */
module RealMath {
  /** `Math.abs`. */
  function Abs(x: real): (r: real)
    ensures 0.0 <= r
    ensures r == x || r == -x
  {
    if x < 0.0 then -x else x
  }

  /** `Math.min` and `Math.max` on two finite numbers. */
  function Min(a: real, b: real): (r: real)
    ensures r <= a && r <= b && (r == a || r == b)
  {
    if a <= b then a else b
  }

  function Max(a: real, b: real): (r: real)
    ensures a <= r && b <= r && (r == a || r == b)
  {
    if a >= b then a else b
  }

  /** `Math.sign` of a number. */
  function Sign(x: real): (r: int)
    ensures x > 0.0 <==> r == 1
    ensures x < 0.0 <==> r == -1
    ensures x == 0.0 <==> r == 0
  {
    if x > 0.0 then 1 else if x < 0.0 then -1 else 0
  }

  /**
   * The square of a number.  Squares are written through this function throughout the
   * model: the arithmetic solver reasons about `Sq(s)` as one term, where it loses track
   * of a literal product `s * s`.
   */
  function Sq(x: real): (r: real)
    ensures 0.0 <= r
  {
    x * x
  }

  /** Only zero squares to zero. */
  lemma SqZero(x: real)
    ensures Sq(x) == 0.0 <==> x == 0.0
  {
    if x < 0.0 {
      assert Sq(x) == Sq(-x);
      SquareMonotone(0.0, -x);
    } else if 0.0 < x {
      SquareMonotone(0.0, x);
    }
  }

  /** `sqrt` is the non-negative square root on the non-negative reals. */
  ghost predicate IsSqrt(sqrt: real -> real)
  {
    forall x :: 0.0 <= x ==> 0.0 <= sqrt(x) && Sq(sqrt(x)) == x
  }

  /** A non-negative number whose square is `x` is the square root of `x`. */
  lemma SqrtUnique(sqrt: real -> real, x: real, r: real)
    requires IsSqrt(sqrt)
    requires 0.0 <= r && Sq(r) == x
    ensures sqrt(x) == r
  {
    var s := sqrt(x);
    assert 0.0 <= s && Sq(s) == x;
    if s < r {
      SquareMonotone(s, r);
    } else if r < s {
      SquareMonotone(r, s);
    }
  }

  /** Squaring is strictly increasing on the non-negative reals. */
  lemma SquareMonotone(a: real, b: real)
    requires 0.0 <= a < b
    ensures Sq(a) < Sq(b)
  {
    var p, q, t := a * a, a * b, b * b;
    assert p <= q;
    assert q < t;
  }

  /** Comparing a square root with a non-negative bound is comparing squares. */
  lemma SqrtLess(sqrt: real -> real, x: real, c: real)
    requires IsSqrt(sqrt)
    requires 0.0 <= x && 0.0 <= c
    ensures sqrt(x) < c <==> x < Sq(c)
  {
    var s := sqrt(x);
    assert 0.0 <= s && Sq(s) == x;
    if s < c {
      SquareMonotone(s, c);
    } else if c < s {
      SquareMonotone(c, s);
    }
  }

  lemma SqrtGreater(sqrt: real -> real, x: real, c: real)
    requires IsSqrt(sqrt)
    requires 0.0 <= x && 0.0 <= c
    ensures c < sqrt(x) <==> Sq(c) < x
  {
    var s := sqrt(x);
    assert 0.0 <= s && Sq(s) == x;
    if s < c {
      SquareMonotone(s, c);
    } else if c < s {
      SquareMonotone(c, s);
    }
  }

  /** The square root is positive exactly on the positive reals. */
  lemma SqrtPositive(sqrt: real -> real, x: real)
    requires IsSqrt(sqrt)
    requires 0.0 <= x
    ensures 0.0 < sqrt(x) <==> 0.0 < x
  {
    assert 0.0 <= sqrt(x) && Sq(sqrt(x)) == x;
    SqZero(sqrt(x));
  }

  /** A product is zero only when one factor is. */
  lemma ZeroProduct(a: real, b: real)
    requires a * b == 0.0
    ensures a == 0.0 || b == 0.0
  {
  }
}

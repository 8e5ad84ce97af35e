/**
 * The parts of java.lang.Math the simulation relies on, over the reals.
 *
 * The transcendental functions are left uninterpreted: each is a constant of
 * arrow type with no definition. Whatever a property needs of them is a law
 * (a ghost predicate) that the property takes as a precondition, so nothing
 * about them is assumed anywhere.
 */
module RealMath {

  /** Math.sqrt */
  const Sqrt: real -> real
  /** Math.sin */
  const Sin: real -> real
  /** Math.cos */
  const Cos: real -> real
  /** Math.tan */
  const Tan: real -> real
  /** Math.asin */
  const Asin: real -> real
  /** Math.atan2(y, x) */
  const Atan2: (real, real) -> real
  /** Math.toDegrees */
  const ToDegrees: real -> real

  /** The squared length of the vector (dx, dy). */
  function SumSq(dx: real, dy: real): real
  {
    dx * dx + dy * dy
  }

  /** Math.hypot(dx, dy): the length of the vector (dx, dy). */
  function Hypot(dx: real, dy: real): real
  {
    Sqrt(SumSq(dx, dy))
  }

  /** The value Sqrt gives at x is the non-negative square root of x. */
  predicate IsSqrtAt(x: real)
  {
    Sqrt(x) >= 0.0 && Sqrt(x) * Sqrt(x) == x
  }

  /** Sqrt is the square root on every non-negative argument. */
  ghost predicate SqrtLaw()
  {
    forall x: real :: 0.0 <= x ==> IsSqrtAt(x)
  }

  predicate CosSinAt(a: real)
  {
    Cos(a) * Cos(a) + Sin(a) * Sin(a) == 1.0
  }

  /** cos²(a) + sin²(a) = 1 for every angle a. */
  ghost predicate PythagorasLaw()
  {
    forall a: real :: CosSinAt(a)
  }

  /** 1 − u², the squared cosine of asin u. */
  function OneMinusSquare(u: real): real
  {
    1.0 - u * u
  }

  predicate TanAsinAt(u: real)
  {
    Tan(Asin(u)) * Sqrt(OneMinusSquare(u)) == u
  }

  /** tan(asin u) = u / √(1 − u²) on the open interval (−1, 1). */
  ghost predicate AsinTanLaw()
  {
    forall u: real :: -1.0 < u < 1.0 ==> TanAsinAt(u)
  }

  predicate Atan2At(y: real, x: real)
  {
    Cos(Atan2(y, x)) * Hypot(x, y) == x && Sin(Atan2(y, x)) * Hypot(x, y) == y
  }

  /** atan2(y, x) is the direction of the vector (x, y): moving a distance
      hypot(x, y) along it from the origin ends at (x, y). */
  ghost predicate Atan2Law()
  {
    forall y: real, x: real :: Atan2At(y, x)
  }

  lemma SqrtAt(x: real)
    requires SqrtLaw() && 0.0 <= x
    ensures Sqrt(x) >= 0.0 && Sqrt(x) * Sqrt(x) == x
  {
    assert IsSqrtAt(x);
  }

  /** A non-negative r whose square is x is Sqrt(x). */
  lemma SqrtUnique(x: real, r: real)
    requires SqrtLaw()
    requires 0.0 <= r && r * r == x
    ensures Sqrt(x) == r
  {
    SqrtAt(x);
    var s := Sqrt(x);
    assert (s - r) * (s + r) == s * s - r * r == 0.0;
    ZeroProduct(s - r, s + r);
  }

  lemma ZeroProduct(p: real, q: real)
    requires p * q == 0.0
    ensures p == 0.0 || q == 0.0
  {
    if p != 0.0 {
      assert q == (p * q) / p;
    }
  }

  lemma NonZeroProduct(p: real, q: real)
    requires p != 0.0 && q != 0.0
    ensures p * q != 0.0
  {
    if p * q == 0.0 {
      ZeroProduct(p, q);
    }
  }

  lemma CancelFactor(x: real, y: real, k: real)
    requires k != 0.0 && x * k == y * k
    ensures x == y
  {
    assert (x - y) * k == 0.0;
    ZeroProduct(x - y, k);
  }

  lemma SquarePositive(x: real)
    requires x != 0.0
    ensures x * x > 0.0
  {
    if x < 0.0 {
      assert (-x) * (-x) == x * x;
      MulPositive(-x, -x);
    } else {
      MulPositive(x, x);
    }
  }

  lemma SquareNonNegative(x: real)
    ensures x * x >= 0.0
  {
    if x != 0.0 {
      SquarePositive(x);
    }
  }

  /** A sum of two squares is positive unless both terms vanish. */
  lemma SumSqPositive(dx: real, dy: real)
    ensures dx != 0.0 || dy != 0.0 ==> SumSq(dx, dy) > 0.0
    ensures dx == 0.0 && dy == 0.0 ==> SumSq(dx, dy) == 0.0
    ensures SumSq(dx, dy) >= 0.0
  {
    if dx != 0.0 || dy != 0.0 {
      calc {
        SumSq(dx, dy);
      ==
        dx * dx + dy * dy;
      >
        0.0;
      }
    }
  }

  lemma MulPositive(a: real, b: real)
    requires 0.0 < a && 0.0 < b
    ensures 0.0 < a * b
  {
  }

  lemma MulNonNegative(a: real, b: real)
    requires 0.0 <= a && 0.0 <= b
    ensures 0.0 <= a * b
  {
    if a > 0.0 && b > 0.0 {
      MulPositive(a, b);
    }
  }

  /** Below a positive bound, comparing square roots is comparing squares. */
  lemma SqrtBelow(x: real, bound: real)
    requires SqrtLaw()
    requires 0.0 <= x && 0.0 < bound
    ensures Sqrt(x) < bound <==> x < bound * bound
  {
    SqrtAt(x);
    var s := Sqrt(x);
    if s < bound {
      SquareBelow(s, bound);
    } else {
      SquareAtMost(bound, s);
    }
  }

  lemma SquareBelow(a: real, b: real)
    requires 0.0 <= a < b
    ensures a * a < b * b
  {
    MulPositive(b - a, b + a);
    assert b * b - a * a == (b - a) * (b + a);
  }

  lemma SquareAtMost(a: real, b: real)
    requires 0.0 <= a <= b
    ensures a * a <= b * b
  {
    if a < b {
      SquareBelow(a, b);
    }
  }

  /** Sqrt(x) is zero exactly when x is. */
  lemma SqrtZero(x: real)
    requires SqrtLaw() && 0.0 <= x
    ensures Sqrt(x) == 0.0 <==> x == 0.0
  {
    SqrtAt(x);
    if x == 0.0 {
      SqrtUnique(x, 0.0);
    }
  }

  const IntMin: int := -0x8000_0000
  const IntMax: int := 0x7fff_ffff

  function Abs(x: real): real
  {
    if x < 0.0 then -x else x
  }

  /**
   * Java's narrowing cast `(int) x` of a double: the value is rounded toward
   * zero, and values outside the range of int saturate at its bounds.
   */
  function IntCast(x: real): (r: int)
    ensures IntMin <= r <= IntMax
    ensures Abs(r as real) <= Abs(x)
    ensures 0.0 <= x ==> 0.0 <= r as real <= x
    ensures x <= 0.0 ==> x <= r as real <= 0.0
    ensures IntMin as real <= x <= IntMax as real ==> Abs(r as real - x) < 1.0
  {
    if x >= IntMax as real then IntMax
    else if x <= IntMin as real then IntMin
    else if x >= 0.0 then x.Floor
    else -((-x).Floor)
  }
}

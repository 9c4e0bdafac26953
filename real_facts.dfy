/** Sign and order facts about products of reals, stated once so that the
    proofs about the models can use them by name. */
module RealFacts {

  lemma PositiveProduct(x: real, y: real)
    requires x > 0.0 && y > 0.0
    ensures x * y > 0.0
  {
  }

  lemma NonNegativeProduct(x: real, y: real)
    requires x >= 0.0 && y >= 0.0
    ensures x * y >= 0.0
  {
  }

  /** A product is zero exactly when one of its factors is. */
  lemma ZeroProduct(a: real, b: real)
    ensures a * b == 0.0 <==> a == 0.0 || b == 0.0
  {
    if a != 0.0 && b != 0.0 {
      NonZeroProduct(a, b);
    }
  }

  lemma NonZeroProduct(a: real, b: real)
    requires a != 0.0 && b != 0.0
    ensures a * b != 0.0
  {
  }

  /** x / |x| is the sign of x. */
  lemma SignQuotient(x: real)
    requires x != 0.0
    ensures x > 0.0 ==> x / Abs(x) == 1.0
    ensures x < 0.0 ==> x / Abs(x) == -1.0
  {
    if x > 0.0 {
      assert Abs(x) == x;
      QuotientOne(x, x);
    } else {
      assert Abs(x) == -x;
      assert x / -x == -1.0;
    }
  }

  lemma ScaleMonotone(c: real, x: real, y: real)
    requires c >= 0.0 && x <= y
    ensures c * x <= c * y
  {
  }

  lemma SquareStrict(a: real, b: real)
    requires 0.0 <= b < a
    ensures b * b < a * a
  {
    PositiveProduct(a - b, a + b);
  }

  /** Among non-negative reals, squaring preserves and reflects order. */
  lemma SquareMonotone(a: real, b: real)
    requires 0.0 <= a && 0.0 <= b && a * a <= b * b
    ensures a <= b
  {
    if b < a {
      SquareStrict(a, b);
    }
  }

  function Abs(x: real): (r: real)
    ensures r >= 0.0 && (r == x || r == -x)
  {
    if x >= 0.0 then x else -x
  }

  /** A factor of magnitude at most 1 does not increase a magnitude. */
  lemma ScaledByUnit(c: real, u: real)
    requires -1.0 <= u <= 1.0
    ensures -Abs(c) <= c * u <= Abs(c)
  {
    if c >= 0.0 {
      ScaledByUnitNonNegative(c, u);
    } else {
      ScaledByUnitNegative(c, u);
    }
  }

  lemma ScaledByUnitNonNegative(c: real, u: real)
    requires -1.0 <= u <= 1.0 && c >= 0.0
    ensures -Abs(c) <= c * u <= Abs(c)
  {
    assert Abs(c) == c;
    AtMostOneNonNegative(c, u);
    AtLeastMinusOneNonNegative(c, u);
  }

  lemma ScaledByUnitNegative(c: real, u: real)
    requires -1.0 <= u <= 1.0 && c < 0.0
    ensures -Abs(c) <= c * u <= Abs(c)
  {
    AtMostOneNegative(c, u);
    AtLeastMinusOneNegative(c, u);
  }

  lemma AtMostOneNonNegative(c: real, u: real)
    requires c >= 0.0 && u <= 1.0
    ensures c * u <= c
  {
  }

  lemma AtLeastMinusOneNonNegative(c: real, u: real)
    requires c >= 0.0 && -1.0 <= u
    ensures -c <= c * u
  {
  }

  lemma AtMostOneNegative(c: real, u: real)
    requires c <= 0.0 && u <= 1.0
    ensures c <= c * u
  {
  }

  lemma AtLeastMinusOneNegative(c: real, u: real)
    requires c <= 0.0 && -1.0 <= u
    ensures c * u <= -c
  {
  }

  /** The square of a real is never negative. */
  lemma SquareNonNegative(x: real)
    ensures x * x >= 0.0
  {
    if x < 0.0 {
      PositiveProduct(-x, -x);
    }
  }

  /** |c * u| <= |c| when |u| <= 1. */
  lemma AbsScaledByUnit(c: real, u: real)
    requires -1.0 <= u <= 1.0
    ensures Abs(c * u) <= Abs(c)
  {
    ScaledByUnit(c, u);
  }

  /** A non-negative numerator over a positive denominator gives a
      non-negative quotient, and it is zero exactly when the numerator is. */
  lemma NonNegativeQuotient(x: real, y: real)
    requires x >= 0.0 && y > 0.0
    ensures x / y >= 0.0
    ensures x / y == 0.0 <==> x == 0.0
  {
  }

  /** A non-negative c scaled by a factor in [0, 1] stays within [0, c]. */
  lemma ScaledIntoUnit(c: real, u: real)
    requires c >= 0.0 && 0.0 <= u <= 1.0
    ensures 0.0 <= c * u <= c
  {
  }

  /** A sum of five weighted unit-bounded terms is bounded by the sum of the
      weights' magnitudes. */
  lemma WeightedSumBounded(sum: real, c0: real, u0: real, c1: real, u1: real, c2: real, u2: real,
                           c3: real, u3: real, c4: real, u4: real)
    requires -1.0 <= u0 <= 1.0 && -1.0 <= u1 <= 1.0 && -1.0 <= u2 <= 1.0
    requires -1.0 <= u3 <= 1.0 && -1.0 <= u4 <= 1.0
    requires sum == c0 * u0 + c1 * u1 + c2 * u2 + c3 * u3 + c4 * u4
    ensures Abs(sum) <= Abs(c0) + Abs(c1) + Abs(c2) + Abs(c3) + Abs(c4)
  {
    ScaledByUnit(c0, u0);
    ScaledByUnit(c1, u1);
    ScaledByUnit(c2, u2);
    ScaledByUnit(c3, u3);
    ScaledByUnit(c4, u4);
  }

  lemma NegativeProduct(x: real, y: real)
    requires x < 0.0 && y < 0.0
    ensures x * y > 0.0
  {
  }

  /** The product of two equal reals is never negative, and it is zero only
      when they are. The factors are separate parameters so that callers can
      pass a value twice instead of a product. */
  lemma ProductOfEquals(a: real, b: real)
    requires a == b
    ensures a * b >= 0.0
    ensures a * b != 0.0 <==> a != 0.0
  {
    if a > 0.0 {
      PositiveProduct(a, b);
    } else if a < 0.0 {
      NegativeProduct(a, b);
    }
  }

  /** Minus a non-negative a*b over twice a positive u*v is never positive,
      and it is zero exactly when a*b is. */
  lemma NegatedHalfQuotient(a: real, b: real, u: real, v: real)
    requires a * b >= 0.0 && u * v > 0.0
    ensures -(a * b / (2.0 * (u * v))) <= 0.0
    ensures -(a * b / (2.0 * (u * v))) != 0.0 <==> a * b != 0.0
  {
  }

  /** The Gaussian exponent -d^2 / (2 w^2) of a positive width w is never
      positive and is zero exactly at d = 0. */
  lemma GaussianExponent(d: real, w: real)
    requires w > 0.0
    ensures -(d * d / (2.0 * (w * w))) <= 0.0
    ensures -(d * d / (2.0 * (w * w))) == 0.0 <==> d == 0.0
  {
    ProductOfEquals(d, d);
    PositiveProduct(w, w);
    NegatedHalfQuotient(d, d, w, w);
  }

  /** One plus two terms, each within its own bound of zero, lies within the
      sum of the bounds of one. */
  lemma AroundOne(sum: real, a: real, b: real, boundA: real, boundB: real)
    requires sum == 1.0 + a + b
    requires -boundA <= a <= boundA && -boundB <= b <= boundB
    ensures 1.0 - boundA - boundB <= sum <= 1.0 + boundA + boundB
  {
  }

  /** Two reals of opposite sign have the same square. */
  lemma SquareOfNegation(a: real, b: real, c: real, d: real)
    requires c == -a && d == -b && a == b
    ensures a * b == c * d
  {
  }

  /** A factor above 1 enlarges a positive y, one below 1 shrinks it. */
  lemma ScaledAroundOne(q: real, y: real)
    requires y > 0.0
    ensures q > 1.0 ==> q * y > y
    ensures q < 1.0 ==> q * y < y
  {
  }

  lemma QuotientTimesDivisor(x: real, y: real)
    requires y != 0.0
    ensures x / y * y == x
  {
  }

  /** x / y <= 1 for 0 < y and x <= y. */
  lemma QuotientAtMostOne(x: real, y: real)
    requires x <= y && y > 0.0
    ensures x / y <= 1.0
  {
    QuotientTimesDivisor(x, y);
    ScaledAroundOne(x / y, y);
  }

  /** x / y is 1 exactly when x is y. */
  lemma QuotientOne(x: real, y: real)
    requires y > 0.0
    ensures x / y == 1.0 <==> x == y
  {
    QuotientTimesDivisor(x, y);
    ScaledAroundOne(x / y, y);
  }
}

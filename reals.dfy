/** Facts about exact real arithmetic that the probability and score computations share. */
module Reals {

  /** Real multiplication behind a function, so that the solver keeps products of a value with
      itself as one term. */
  function Mul(x: real, y: real): real {
    x * y
  }

  lemma ProductPositive(x: real, y: real)
    requires (x > 0.0 && y > 0.0) || (x < 0.0 && y < 0.0)
    ensures Mul(x, y) > 0.0
  {
    if x < 0.0 {
      assert (-x) * (-y) > 0.0;
    }
  }

  lemma SquareSign(x: real)
    ensures Mul(x, x) >= 0.0
    ensures x != 0.0 ==> Mul(x, x) > 0.0
  {
    if x != 0.0 {
      ProductPositive(x, x);
    }
  }

  lemma MulNonNegative(x: real, y: real)
    requires x >= 0.0 && y >= 0.0
    ensures Mul(x, y) >= 0.0
  {
    if x > 0.0 && y > 0.0 {
      ProductPositive(x, y);
    }
  }

  /** Multiplying by a non-negative factor keeps a weak comparison. */
  lemma MulMonotone(x: real, y: real, c: real)
    requires x <= y && c >= 0.0
    ensures Mul(x, c) <= Mul(y, c) && Mul(c, x) <= Mul(c, y)
  {
    MulNonNegative(y - x, c);
    assert Mul(y - x, c) == Mul(y, c) - Mul(x, c);
  }

  lemma MulAssociative(x: real, y: real, z: real)
    ensures Mul(x, Mul(y, z)) == Mul(Mul(x, y), z)
  {
  }

  lemma MulZero(x: real)
    ensures Mul(0.0, x) == 0.0
  {
  }

  /** Fractions over one denominator add up numerator by numerator. */
  lemma FractionSum(a: real, b: real, d: real)
    requires d != 0.0
    ensures a / d + b / d == (a + b) / d
  {
  }

  /** Scaling by a positive factor keeps a strict comparison. */
  lemma ScaleKeepsOrder(s: real, h: real, q: real)
    requires q > 0.0
    ensures Mul(s, q) > Mul(h, q) <==> s > h
  {
    if s > h {
      assert (s - h) * q > 0.0;
    } else {
      assert (h - s) * q >= 0.0;
    }
  }

  /** Dividing numerator and denominator by the same value leaves a ratio unchanged. */
  lemma CommonDivisor(x: real, s: real, t: real)
    requires s != 0.0 && t != 0.0
    ensures (x / s) / (t / s) == x / t
  {
  }

  lemma SelfRatio(d: real)
    requires d != 0.0
    ensures d / d == 1.0
  {
  }

  /** A count over a larger positive count is a probability. */
  lemma RatioInUnit(p: real, q: real)
    requires 0.0 <= p <= q && q > 0.0
    ensures 0.0 <= p / q <= 1.0
  {
  }
}

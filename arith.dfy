/**
 * Facts about products and quotients of reals that the solver does not
 * find on its own.
 */
module RealArith {

  lemma MulNonNegative(a: real, b: real)
    requires 0.0 <= a && 0.0 <= b
    ensures 0.0 <= a * b
  {
  }

  lemma DivideOut(a: real, k: real)
    requires a != 0.0
    ensures (a * k) / a == k
  {
  }

  /** Dividing out a known factor. */
  lemma Quotient(a: real, d: real, q: real)
    requires d != 0.0 && a == q * d
    ensures a / d == q
  {
  }

  /** A product of two positive numbers is positive. */
  lemma PositiveProduct(x: real, y: real, p: real)
    requires x > 0.0 && y > 0.0 && p == x * y
    ensures p > 0.0
  {
    MulNonNegative(x, y);
    DivideOut(x, y);
    assert p != 0.0 by { assert p / x == y; }
  }

  /** A product of two numbers in [0, 1] is in [0, 1] and at most either factor. */
  lemma UnitProduct(a: real, b: real, p: real)
    requires 0.0 <= a <= 1.0 && 0.0 <= b <= 1.0 && p == a * b
    ensures 0.0 <= p <= a && p <= b
  {
    MulNonNegative(a, b);
    MulNonNegative(a, 1.0 - b);
    assert a * (1.0 - b) == a - p;
    MulNonNegative(1.0 - a, b);
    assert (1.0 - a) * b == b - p;
  }

  /** Products of non-negative numbers grow with their factors. */
  lemma MulMonotone(a: real, b: real, c: real, d: real, p: real, q: real)
    requires 0.0 <= a <= c && 0.0 <= b <= d && p == a * b && q == c * d
    ensures p <= q
  {
    MulNonNegative(c - a, b);
    assert (c - a) * b == c * b - p;
    MulNonNegative(c, d - b);
    assert c * (d - b) == q - c * b;
  }
}

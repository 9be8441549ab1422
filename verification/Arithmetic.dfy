/** Facts about products and quotients of reals that the solver is better told. */
module Arithmetic {

  lemma MulMonotone(a: real, b: real, factor: real)
    requires a <= b && factor >= 0.0
    ensures a * factor <= b * factor
  {
    var gap := b - a;
    assert gap * factor >= 0.0;
    assert b * factor == (a + gap) * factor == a * factor + gap * factor;
  }

  lemma Unscaled(a: real, b: real, factor: real)
    requires factor > 0.0 && a * factor <= b * factor
    ensures a <= b
  {
    var gap := b - a;
    assert gap * factor == b * factor - a * factor;
    NotNegative(gap, factor);
  }

  lemma NotNegative(x: real, y: real)
    requires y > 0.0 && x * y >= 0.0
    ensures x >= 0.0
  {
  }

  lemma NotPositive(x: real, y: real)
    requires y > 0.0 && x * y <= 0.0
    ensures x <= 0.0
  {
  }

  lemma Positive(x: real, y: real)
    requires y > 0.0 && x * y > 0.0
    ensures x > 0.0
  {
  }

  lemma NotZero(x: real, y: real)
    requires x != 0.0 && y != 0.0
    ensures x * y != 0.0
  {
  }

  lemma Quotient(q: real, numerator: real, divisor: real)
    requires divisor > 0.0 && q * divisor == numerator
    ensures numerator / divisor == q
  {
  }

  lemma QuotientMonotone(a: real, b: real, divisor: real)
    requires a <= b && divisor > 0.0
    ensures a / divisor <= b / divisor
  {
    var x, y := a / divisor, b / divisor;
    assert x * divisor == a && y * divisor == b;
    Unscaled(x, y, divisor);
  }
}

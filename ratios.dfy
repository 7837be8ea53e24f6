// Facts about quotients and products of reals that the percentages, rates
// and heat-map shades rely on, each stated over plain variables.
module Ratios {
  /** The quotient by a positive number multiplies back to the dividend. */
  lemma QuotientTimes(x: real, m: real)
    requires m > 0.0
    ensures (x / m) * m == x
  {
  }

  /** Multiplying both sides by a positive number keeps their order. */
  lemma ScaleOrder(a: real, b: real, m: real)
    requires m > 0.0
    ensures a < b <==> a * m < b * m
    ensures a == b <==> a * m == b * m
  {
    if a < b {
      assert (b - a) * m > 0.0;
    } else if b < a {
      assert (a - b) * m > 0.0;
    }
  }
}

/** Small facts on products and quotients of reals. */
module Reals {

  lemma ProductPositive(a: real, b: real)
    requires a > 0.0 && b > 0.0
    ensures a * b > 0.0
  {
  }

  lemma ProductNonNegative(a: real, b: real)
    requires a >= 0.0 && b >= 0.0
    ensures a * b >= 0.0
  {
  }

  /** Multiplication by a positive factor keeps the order. */
  lemma ProductOrder(a: real, b: real, factor: real)
    requires factor > 0.0
    ensures a <= b <==> a * factor <= b * factor
    ensures a == b <==> a * factor == b * factor
  {
    assert (b - a) * factor == b * factor - a * factor;
    if b > a {
      ProductPositive(b - a, factor);
    } else if a > b {
      ProductPositive(a - b, factor);
      assert (a - b) * factor == a * factor - b * factor;
    }
  }

  lemma QuotientTimes(a: real, b: real)
    requires b != 0.0
    ensures (a / b) * b == a
  {
  }

  lemma QuotientIs(a: real, b: real, q: real)
    requires b != 0.0 && q * b == a
    ensures a / b == q
  {
    var d := a / b - q;
    QuotientTimes(a, b);
    assert d * b == (a / b) * b - q * b;
    ProductNonZero(d, b);
  }

  lemma ProductNonZero(a: real, b: real)
    ensures a != 0.0 && b != 0.0 ==> a * b != 0.0
  {
    if a > 0.0 && b > 0.0 {
      ProductPositive(a, b);
    } else if a > 0.0 && b < 0.0 {
      ProductPositive(a, -b);
      assert a * -b == -(a * b);
    } else if a < 0.0 && b > 0.0 {
      ProductPositive(-a, b);
      assert -a * b == -(a * b);
    } else if a < 0.0 && b < 0.0 {
      ProductPositive(-a, -b);
      assert -a * -b == a * b;
    }
  }

  /** Comparing quotients of one numerator. */
  lemma LargerDivisor(a: real, low: real, high: real)
    requires a >= 0.0 && 0.0 < low <= high
    ensures a / high <= a / low
  {
    var p, q := a / high, a / low;
    QuotientTimes(a, high);
    QuotientTimes(a, low);
    ProductOrder(0.0, q, low);
    ProductNonNegative(q, high - low);
    assert q * (high - low) == q * high - q * low;
    ProductOrder(p, q, high);
  }

  lemma QuotientZero(a: real, b: real)
    requires b != 0.0
    ensures a / b == 0.0 <==> a == 0.0
  {
    QuotientTimes(a, b);
    if a == 0.0 {
      QuotientIs(a, b, 0.0);
    }
  }
}

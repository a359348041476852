/** Fractions: the exact values of decimal numbers and of their sums, products, and quotients. */
module Fractions {
  import opened Sequences
  import opened Reals

  ghost predicate IsFractionOf(x: real, numerator: int, denominator: int) {
    denominator > 0 && x * denominator as real == numerator as real
  }

  ghost predicate IsFraction(x: real) {
    exists numerator, denominator :: IsFractionOf(x, numerator, denominator)
  }

  lemma IntIsFraction(x: int)
    ensures IsFraction(x as real)
  {
    assert IsFractionOf(x as real, x, 1);
  }

  lemma ProductAsReal(a: int, b: int)
    ensures (a * b) as real == a as real * b as real
  {
  }

  lemma SumIsFraction(x: real, y: real)
    requires IsFraction(x) && IsFraction(y)
    ensures IsFraction(x + y)
  {
    var a, b :| IsFractionOf(x, a, b);
    var c, d :| IsFractionOf(y, c, d);
    SumOfFractions(x, a, b, y, c, d);
    assert IsFractionOf(x + y, a * d + c * b, b * d);
  }

  lemma SumOfFractions(x: real, a: int, b: int, y: real, c: int, d: int)
    requires IsFractionOf(x, a, b) && IsFractionOf(y, c, d)
    ensures IsFractionOf(x + y, a * d + c * b, b * d)
  {
    ProductAsReal(a, d);
    ProductAsReal(c, b);
    ProductAsReal(b, d);
    PositiveProduct(b, d);
    CommonDenominator(x, a as real, b as real, y, c as real, d as real);
  }

  lemma PositiveProduct(b: int, d: int)
    requires b > 0 && d > 0
    ensures b * d > 0
  {
  }

  lemma CommonDenominator(x: real, a: real, b: real, y: real, c: real, d: real)
    requires x * b == a && y * d == c
    ensures (x + y) * (b * d) == a * d + c * b
  {
    assert (x + y) * (b * d) == (x * b) * d + (y * d) * b;
  }

  lemma ProductIsFraction(x: real, y: real, product: real)
    requires IsFraction(x) && IsFraction(y) && product == x * y
    ensures IsFraction(product)
  {
    var a, b :| IsFractionOf(x, a, b);
    var c, d :| IsFractionOf(y, c, d);
    ProductAsReal(a, c);
    ProductAsReal(b, d);
    PositiveProduct(b, d);
    assert (x * y) * (b as real * d as real) == (x * b as real) * (y * d as real);
    assert IsFractionOf(product, a * c, b * d);
  }

  lemma Reassociate(a: real, b: real, c: real)
    ensures a * (b * c) == (a * b) * c
  {
  }

  lemma InverseIsFraction(x: real)
    requires IsFraction(x) && x != 0.0
    ensures IsFraction(1.0 / x)
  {
    var a, b :| IsFractionOf(x, a, b);
    QuotientTimes(1.0, x);
    var inverse := 1.0 / x;
    Reassociate(inverse, x, b as real);
    assert inverse * a as real == b as real;
    ProductNonZero(x, b as real);
    if a > 0 {
      assert IsFractionOf(inverse, b, a);
    } else {
      assert inverse * (-a) as real == -(inverse * a as real);
      assert IsFractionOf(inverse, -b, -a);
    }
  }

  lemma QuotientIsFraction(x: real, y: real)
    requires IsFraction(x) && IsFraction(y) && y != 0.0
    ensures IsFraction(x / y)
  {
    var inverse := 1.0 / y;
    InverseIsFraction(y);
    QuotientTimes(1.0, y);
    Reassociate(x, inverse, y);
    QuotientIs(x, y, x * inverse);
    ProductIsFraction(x, inverse, x / y);
  }

  lemma DifferenceIsFraction(x: real, y: real)
    requires IsFraction(x) && IsFraction(y)
    ensures IsFraction(x - y)
  {
    var a, b :| IsFractionOf(y, a, b);
    assert IsFractionOf(-y, -a, b);
    SumIsFraction(x, -y);
  }

  lemma {:induction false} SumByIsFraction(values: seq<real>, f: real -> real)
    requires forall i :: 0 <= i < |values| ==> IsFraction(f(values[i]))
    ensures IsFraction(SumBy(values, f))
  {
    if values == [] {
      IntIsFraction(0);
    } else {
      SumByIsFraction(values[..|values| - 1], f);
      SumIsFraction(SumBy(values[..|values| - 1], f), f(values[|values| - 1]));
    }
  }

  // ---------------------------------------------------------------- n (n - 1) is not the square of a fraction

  lemma SquareOrder(x: int, y: int)
    requires x >= 0 && y >= 0 && x * x < y * y
    ensures x < y
  {
    if x >= y {
      SquareGrows(x, y);
    }
  }

  lemma SquareGrows(x: int, y: int)
    requires x >= y >= 0
    ensures x * x >= y * y
  {
    assert x * x >= x * y;
    assert x * y >= y * y;
  }

  lemma RatioIdentity(n: int, k: int, a: int, c: int)
    ensures n * ((c - k * a) * (c - k * a)) - k * ((n * a - c) * (n * a - c)) == (n - k) * (c * c - n * k * a * a)
  {
  }

  lemma SmallerRatio(n: int, k: int, a: int, c: int)
    requires n * k * a * a == c * c
    ensures n * k * (c - k * a) * (c - k * a) == (k * (n * a - c)) * (k * (n * a - c))
  {
    RatioIdentity(n, k, a, c);
    var p, q := c - k * a, n * a - c;
    assert n * (p * p) == k * (q * q);
    assert n * k * p * p == k * (n * (p * p));
    assert (k * q) * (k * q) == k * (k * (q * q));
  }

  /** From a solution, a smaller one follows, so there is none. */
  lemma {:induction false} NeighboursAreNoSquareRatio(n: int, a: int, c: int)
    requires n >= 2 && a > 0 && c > 0 && n * (n - 1) * a * a == c * c
    ensures false
    decreases a
  {
    var k := n - 1;
    assert (k * a) * (k * a) < c * c by { RatioBounds(n, a, c); }
    SquareOrder(k * a, c);
    assert c * c < (n * a) * (n * a) by { RatioBounds(n, a, c); }
    SquareOrder(c, n * a);
    SmallerRatio(n, k, a, c);
    PositiveProduct(k, n * a - c);
    NeighboursAreNoSquareRatio(n, c - k * a, k * (n * a - c));
  }

  lemma RatioBounds(n: int, a: int, c: int)
    requires n >= 2 && a > 0 && n * (n - 1) * a * a == c * c
    ensures ((n - 1) * a) * ((n - 1) * a) < c * c < (n * a) * (n * a)
  {
    var k := n - 1;
    PositiveProduct(a, a);
    PositiveProduct(k, a * a);
    PositiveProduct(n, a * a);
    assert c * c == n * k * a * a;
    assert (k * a) * (k * a) == k * k * a * a;
    assert n * k * a * a - k * k * a * a == k * (a * a);
    assert (n * a) * (n * a) - n * k * a * a == n * (a * a);
  }

  /** The equation t^2 (n - 1) == 4 n has no fraction t. */
  lemma NoFractionSolves(n: int, count: real, t: real)
    requires n >= 2 && count == n as real && IsFraction(t)
    ensures (t * t) * (count - 1.0) != 4.0 * count
  {
    if (t * t) * (count - 1.0) == 4.0 * count {
      var u, v :| IsFractionOf(t, u, v);
      ClearDenominator(count, t, u as real, v as real);
      var c := 2 * n * v;
      IntEquation(n, u, v);
      PositiveProduct(2 * n, v);
      if u == 0 {
        PositiveProduct(c, c);
      }
      NeighboursAreNoSquareRatio(n, if u > 0 then u else -u, c);
    }
  }

  lemma ClearDenominator(n: real, t: real, u: real, v: real)
    requires t * v == u && (t * t) * (n - 1.0) == 4.0 * n
    ensures n * (n - 1.0) * u * u == (2.0 * n * v) * (2.0 * n * v)
  {
    assert u * u == (t * t) * (v * v);
    assert n * (n - 1.0) * u * u == n * (v * v) * ((t * t) * (n - 1.0));
  }

  lemma IntEquation(n: int, u: int, v: int)
    requires n as real * (n as real - 1.0) * u as real * u as real
         == (2.0 * n as real * v as real) * (2.0 * n as real * v as real)
    ensures n * (n - 1) * u * u == (2 * n * v) * (2 * n * v)
  {
    assert (n * (n - 1) * u * u) as real == n as real * (n as real - 1.0) * u as real * u as real;
    assert ((2 * n * v) * (2 * n * v)) as real == (2.0 * n as real * v as real) * (2.0 * n as real * v as real);
  }
}

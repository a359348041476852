/**
 * The daily Sharpe ratio and the variance factor of the probabilistic Sharpe ratio. A
 * square root is a witness: a number that is not negative and whose square is the argument.
 */
module SharpeProbability {
  import opened Sequences
  import opened Reals
  import opened Fractions

  const MIN_DAILY_RETURNS := 60

  function Identity(x: real): real { x }

  function Square(x: real): real { x * x }

  function Cube(x: real): real { x * x * x }

  function Fourth(x: real): real { Square(Square(x)) }

  function Count(values: seq<real>): real { |values| as real }

  function Mean(values: seq<real>): real
    requires values != []
  {
    SumBy(values, Identity) / Count(values)
  }

  function Deviations(values: seq<real>): (deviations: seq<real>)
    requires values != []
    ensures |deviations| == |values|
    ensures forall i :: 0 <= i < |values| ==> deviations[i] == values[i] - Mean(values)
  {
    seq(|values|, i requires 0 <= i < |values| => values[i] - Mean(values))
  }

  /** A population moment of the returns around their mean. */
  function Moment(values: seq<real>, power: real -> real): real
    requires values != []
  {
    SumBy(Deviations(values), power) / Count(values)
  }

  function SampleVariance(values: seq<real>): real
    requires |values| >= 2
  {
    SumBy(Deviations(values), Square) / (Count(values) - 1.0)
  }

  predicate IsRoot(root: real, x: real) { root >= 0.0 && root * root == x }

  /** `deviation` is the sample standard deviation. */
  function CalculateDailySharpe(values: seq<real>, deviation: real): Option<real>
    requires |values| >= 2 ==> IsRoot(deviation, SampleVariance(values))
  {
    if |values| < 2 || deviation == 0.0 then None else Some(Mean(values) / deviation)
  }

  /** `m2 ** 1.5` is `m2 * root` with the root of `m2`. */
  function Skewness(values: seq<real>, root: real): real
    requires values != [] && Moment(values, Square) * root != 0.0
  {
    Moment(values, Cube) / (Moment(values, Square) * root)
  }

  function Kurtosis(values: seq<real>): real
    requires values != [] && Square(Moment(values, Square)) != 0.0
  {
    Moment(values, Fourth) / Square(Moment(values, Square))
  }

  function VarianceFactor(skewness: real, kurtosis: real, sharpe: real): real {
    1.0 - skewness * sharpe + (kurtosis - 1.0) / 4.0 * Square(sharpe)
  }

  // ---------------------------------------------------------------- sums of powers

  lemma Distribute(factor: real, a: real, b: real)
    ensures factor * (a + b) == factor * a + factor * b
  {
  }

  lemma {:induction false} SumNonNegative(values: seq<real>, f: real -> real)
    requires forall i :: 0 <= i < |values| ==> f(values[i]) >= 0.0
    ensures SumBy(values, f) >= 0.0
    ensures SumBy(values, f) == 0.0 ==> forall i :: 0 <= i < |values| ==> f(values[i]) == 0.0
  {
    if values != [] {
      SumNonNegative(values[..|values| - 1], f);
    }
  }

  lemma {:induction false} SumOfDifferences(values: seq<real>, shifted: seq<real>, shift: real)
    requires |shifted| == |values| && forall i :: 0 <= i < |values| ==> shifted[i] == values[i] - shift
    ensures SumBy(shifted, Identity) == SumBy(values, Identity) - Count(values) * shift
  {
    if values != [] {
      SumOfDifferences(values[..|values| - 1], shifted[..|values| - 1], shift);
      Distribute(shift, Count(values[..|values| - 1]), 1.0);
    }
  }

  lemma DeviationsSumToZero(values: seq<real>)
    requires values != []
    ensures SumBy(Deviations(values), Identity) == 0.0
  {
    SumOfDifferences(values, Deviations(values), Mean(values));
    QuotientTimes(SumBy(values, Identity), Count(values));
  }

  lemma SameSignProduct(a: real, b: real, product: real)
    requires product == a * b && ((a > 0.0 && b > 0.0) || (a < 0.0 && b < 0.0))
    ensures product > 0.0
    decreases a < 0.0
  {
    if a < 0.0 {
      SameSignProduct(-a, -b, product);
    }
  }

  lemma SquareIsZero(x: real)
    ensures Square(x) >= 0.0 && (Square(x) == 0.0 <==> x == 0.0)
  {
    if x != 0.0 {
      SameSignProduct(x, x, Square(x));
    }
  }

  lemma NoSquaresMeansEqualReturns(values: seq<real>)
    requires values != [] && SumBy(Deviations(values), Square) == 0.0
    ensures forall i :: 0 <= i < |values| ==> values[i] == Mean(values)
  {
    var deviations := Deviations(values);
    SumNonNegative(deviations, Square);
    forall i | 0 <= i < |values| ensures values[i] == Mean(values) {
      assert Square(deviations[i]) == 0.0;
      SquareIsZero(deviations[i]);
    }
  }

  lemma MomentIsZeroWithDeviation(values: seq<real>, deviation: real)
    requires |values| >= 2 && IsRoot(deviation, SampleVariance(values))
    ensures Moment(values, Square) >= 0.0
    ensures deviation == 0.0 <==> SumBy(Deviations(values), Square) == 0.0
    ensures deviation == 0.0 <==> Moment(values, Square) == 0.0
  {
    var sum := SumBy(Deviations(values), Square);
    SumNonNegative(Deviations(values), Square);
    QuotientSign(sum, Count(values));
    QuotientSign(sum, Count(values) - 1.0);
    SquareIsZero(deviation);
    assert Square(deviation) == sum / (Count(values) - 1.0);
  }

  /** There is no daily Sharpe ratio exactly with fewer than 2 returns or when all returns are equal. */
  lemma SharpeIsMissingForEqualReturns(values: seq<real>, deviation: real)
    requires |values| >= 2 ==> IsRoot(deviation, SampleVariance(values))
    ensures CalculateDailySharpe(values, deviation).None?
       <==> |values| < 2 || forall i, j :: 0 <= i < j < |values| ==> values[i] == values[j]
  {
    if |values| >= 2 {
      MomentIsZeroWithDeviation(values, deviation);
      if deviation == 0.0 {
        NoSquaresMeansEqualReturns(values);
      } else if forall i, j :: 0 <= i < j < |values| ==> values[i] == values[j] {
        EqualReturnsHaveNoDeviation(values);
      }
    }
  }

  lemma EqualReturnsHaveNoDeviation(values: seq<real>)
    requires values != [] && forall i, j :: 0 <= i < j < |values| ==> values[i] == values[j]
    ensures SumBy(Deviations(values), Square) == 0.0
  {
    SumOfDifferences(values, seq(|values|, _ => 0.0), values[0]);
    SumZero(seq(|values|, _ => 0.0), Identity);
    QuotientIs(SumBy(values, Identity), Count(values), values[0]);
    SumZero(Deviations(values), Square);
  }

  lemma QuotientSign(a: real, b: real)
    requires a >= 0.0 && b > 0.0
    ensures a / b >= 0.0 && (a / b == 0.0 <==> a == 0.0)
  {
    QuotientTimes(a, b);
    ProductOrder(0.0, a / b, b);
  }

  // ---------------------------------------------------------------- Pearson's moment inequality

  function Product(u: real -> real, v: real -> real): real -> real { x => u(x) * v(x) }

  function Combination(p: real, v: real -> real, r: real, u: real -> real): real -> real {
    x => (p * v(x) - r * u(x)) * (p * v(x) - r * u(x))
  }

  lemma SquareOfTwo(p: real, v: real, r: real, u: real)
    ensures (p * v - r * u) * (p * v - r * u) == (p * p) * (v * v) - (2.0 * p * r) * (u * v) + (r * r) * (u * u)
  {
  }

  function Scaled(factor: real, f: real -> real): real -> real { x => factor * f(x) }

  lemma {:induction false} SumOfScaled(values: seq<real>, factor: real, f: real -> real)
    ensures SumBy(values, Scaled(factor, f)) == factor * SumBy(values, f)
  {
    if values != [] {
      var init, x := values[..|values| - 1], values[|values| - 1];
      SumOfScaled(init, factor, f);
      Distribute(factor, SumBy(init, f), f(x));
    }
  }

  lemma {:induction false} SumOfThree(values: seq<real>, k: real -> real, f: real -> real,
                                      g: real -> real, h: real -> real)
    requires forall i :: 0 <= i < |values| ==> k(values[i]) == f(values[i]) - g(values[i]) + h(values[i])
    ensures SumBy(values, k) == SumBy(values, f) - SumBy(values, g) + SumBy(values, h)
  {
    if values != [] {
      SumOfThree(values[..|values| - 1], k, f, g, h);
    }
  }

  lemma SumOfCombination(values: seq<real>, p: real, v: real -> real, r: real, u: real -> real)
    ensures SumBy(values, Combination(p, v, r, u))
         == (p * p) * SumBy(values, Product(v, v)) - (2.0 * p * r) * SumBy(values, Product(u, v))
            + (r * r) * SumBy(values, Product(u, u))
  {
    SumOfScaled(values, p * p, Product(v, v));
    SumOfScaled(values, 2.0 * p * r, Product(u, v));
    SumOfScaled(values, r * r, Product(u, u));
    CombinationSplits(values, p, v, r, u, p * p, 2.0 * p * r, r * r);
  }

  lemma CombinationSplits(values: seq<real>, p: real, v: real -> real, r: real, u: real -> real,
                          a: real, b: real, c: real)
    requires a == p * p && b == 2.0 * p * r && c == r * r
    ensures SumBy(values, Combination(p, v, r, u))
         == SumBy(values, Scaled(a, Product(v, v))) - SumBy(values, Scaled(b, Product(u, v)))
            + SumBy(values, Scaled(c, Product(u, u)))
  {
    var f, g, h := Scaled(a, Product(v, v)), Scaled(b, Product(u, v)), Scaled(c, Product(u, u));
    forall i | 0 <= i < |values|
      ensures Combination(p, v, r, u)(values[i]) == f(values[i]) - g(values[i]) + h(values[i])
    {
      SquareOfTwo(p, v(values[i]), r, u(values[i]));
    }
    SumOfThree(values, Combination(p, v, r, u), f, g, h);
  }

  lemma CombinationNonNegative(values: seq<real>, p: real, v: real -> real, r: real, u: real -> real)
    ensures SumBy(values, Combination(p, v, r, u)) >= 0.0
  {
    forall i | 0 <= i < |values| ensures Combination(p, v, r, u)(values[i]) >= 0.0 {
      SquareIsZero(p * v(values[i]) - r * u(values[i]));
    }
    SumNonNegative(values, Combination(p, v, r, u));
  }

  lemma CauchySchwarz(values: seq<real>, u: real -> real, v: real -> real, uu: real, uv: real, vv: real)
    requires uu == SumBy(values, Product(u, u)) > 0.0 && uv == SumBy(values, Product(u, v))
    requires vv == SumBy(values, Product(v, v))
    ensures Square(uv) <= uu * vv
  {
    SumOfCombination(values, uu, v, uv, u);
    CombinationNonNegative(values, uu, v, uv, u);
    Factor(uu, uv, vv);
  }

  lemma Factor(uu: real, uv: real, vv: real)
    requires uu > 0.0 && (uu * uu) * vv - (2.0 * uu * uv) * uv + (uv * uv) * uu >= 0.0
    ensures Square(uv) <= uu * vv
  {
    assert (uu * uu) * vv - (2.0 * uu * uv) * uv + (uv * uv) * uu == (uu * vv - uv * uv) * uu;
    ProductOrder(0.0, uu * vv - uv * uv, uu);
  }

  function Excess(y: real -> real, m: real): real -> real { x => y(x) - m }

  /** 1 value more: `gx`, `hx` are the values of it. */
  lemma AddLinear(a: real, c: real, g: real, h: real, n: real, gx: real, hx: real)
    ensures (g - a * h + c * n) + (gx - a * hx + c) == (g + gx) - a * (h + hx) + c * (n + 1.0)
  {
    Distribute(a, h, hx);
    Distribute(c, n, 1.0);
  }

  lemma {:induction false} SumIsLinear(values: seq<real>, f: real -> real, g: real -> real,
                                       h: real -> real, a: real, c: real)
    requires forall i :: 0 <= i < |values| ==> f(values[i]) == g(values[i]) - a * h(values[i]) + c
    ensures SumBy(values, f) == SumBy(values, g) - a * SumBy(values, h) + c * Count(values)
  {
    if values != [] {
      var init, x := values[..|values| - 1], values[|values| - 1];
      SumIsLinear(init, f, g, h, a, c);
      AddLinear(a, c, SumBy(init, g), SumBy(init, h), Count(init), g(x), h(x));
    }
  }

  lemma SumOfThird(values: seq<real>, u: real -> real, y: real -> real, m: real)
    ensures SumBy(values, Product(u, Excess(y, m))) == SumBy(values, Product(u, y)) - m * SumBy(values, u)
  {
    forall i | 0 <= i < |values|
      ensures Product(u, Excess(y, m))(values[i]) == Product(u, y)(values[i]) - m * u(values[i]) + 0.0
    {
      Distribute(u(values[i]), y(values[i]), -m);
    }
    SumIsLinear(values, Product(u, Excess(y, m)), Product(u, y), u, m, 0.0);
  }

  /** `f` is the square of `y` less `m`, and `g` the square of `y`. */
  lemma SumOfExcess(values: seq<real>, f: real -> real, g: real -> real, y: real -> real, m: real, a: real, c: real)
    requires a == 2.0 * m && c == m * m
    requires forall i :: 0 <= i < |values| ==> f(values[i]) == (y(values[i]) - m) * (y(values[i]) - m)
    requires forall i :: 0 <= i < |values| ==> g(values[i]) == y(values[i]) * y(values[i])
    ensures SumBy(values, f) == SumBy(values, g) - a * SumBy(values, y) + c * Count(values)
  {
    forall i | 0 <= i < |values| ensures f(values[i]) == g(values[i]) - a * y(values[i]) + c {
      SquareOfDifference(y(values[i]), m);
    }
    SumIsLinear(values, f, g, y, a, c);
  }

  lemma SumOfFourth(values: seq<real>, y: real -> real, m: real)
    ensures SumBy(values, Product(Excess(y, m), Excess(y, m)))
         == SumBy(values, Product(y, y)) - (2.0 * m) * SumBy(values, y) + (m * m) * Count(values)
  {
    SumOfExcess(values, Product(Excess(y, m), Excess(y, m)), Product(y, y), y, m, 2.0 * m, m * m);
  }

  lemma SquareOfDifference(a: real, b: real)
    ensures (a - b) * (a - b) == a * a - (2.0 * b) * a + b * b
  {
  }

  lemma TripleProduct(x: real, same: real, square: real, cube: real)
    requires same == x && square == x * x && cube == x * x * x
    ensures same * square == cube
  {
  }

  lemma SumOfCubes(values: seq<real>)
    ensures SumBy(values, Product(Identity, Square)) == SumBy(values, Cube)
  {
    forall i | 0 <= i < |values| ensures Product(Identity, Square)(values[i]) == Cube(values[i]) {
      TripleProduct(values[i], Identity(values[i]), Square(values[i]), Cube(values[i]));
    }
    SumCongruence(values, Product(Identity, Square), Cube);
  }

  lemma SumOfSquares(values: seq<real>)
    ensures SumBy(values, Product(Identity, Identity)) == SumBy(values, Square)
  {
    SumCongruence(values, Product(Identity, Identity), Square);
  }

  lemma SumOfFourths(values: seq<real>)
    ensures SumBy(values, Product(Square, Square)) == SumBy(values, Fourth)
  {
    SumCongruence(values, Product(Square, Square), Fourth);
  }

  /** `moment` is the mean of the powers, without a division. */
  ghost predicate IsMoment(d: seq<real>, power: real -> real, moment: real) {
    SumBy(d, power) == moment * Count(d)
  }

  lemma MomentIsMoment(values: seq<real>, power: real -> real)
    requires values != []
    ensures IsMoment(Deviations(values), power, Moment(values, power))
  {
    MomentSum(values, power);
  }

  lemma MomentSum(values: seq<real>, power: real -> real)
    requires values != []
    ensures SumBy(Deviations(values), power) == Moment(values, power) * Count(values)
  {
    QuotientTimes(SumBy(Deviations(values), power), Count(values));
  }

  lemma ZeroProduct(a: real, b: real)
    requires b == 0.0
    ensures a * b == 0.0
  {
  }

  lemma ThirdSum(d: seq<real>, m2: real)
    requires SumBy(d, Identity) == 0.0
    ensures SumBy(d, Product(Identity, Excess(Square, m2))) == SumBy(d, Cube)
  {
    SumOfThird(d, Identity, Square, m2);
    SumOfCubes(d);
    ZeroProduct(m2, SumBy(d, Identity));
  }

  lemma FourthSum(d: seq<real>, m2: real)
    ensures SumBy(d, Product(Excess(Square, m2), Excess(Square, m2)))
         == SumBy(d, Fourth) - (2.0 * m2) * SumBy(d, Square) + (m2 * m2) * Count(d)
  {
    SumOfFourth(d, Square, m2);
    SumOfFourths(d);
  }

  lemma CubesAreBounded(d: seq<real>, m2: real, squares: real, cubes: real, excess: real)
    requires SumBy(d, Identity) == 0.0 && squares == SumBy(d, Square) > 0.0 && cubes == SumBy(d, Cube)
    requires excess == SumBy(d, Product(Excess(Square, m2), Excess(Square, m2)))
    ensures Square(cubes) <= squares * excess
  {
    ThirdSum(d, m2);
    SumOfSquares(d);
    CauchySchwarz(d, Identity, Excess(Square, m2), squares, cubes, excess);
  }

  /** The sum of the squares of the second powers less `m2`. */
  lemma ExcessOf(d: seq<real>, n: real, m2: real, squares: real, cubes: real, fourths: real) returns (excess: real)
    requires n == Count(d) && squares > 0.0 && SumBy(d, Identity) == 0.0
    requires squares == SumBy(d, Square) && cubes == SumBy(d, Cube) && fourths == SumBy(d, Fourth)
    ensures Square(cubes) <= squares * excess
    ensures excess == fourths - (2.0 * m2) * squares + (m2 * m2) * n
  {
    excess := SumBy(d, Product(Excess(Square, m2), Excess(Square, m2)));
    CubesAreBounded(d, m2, squares, cubes, excess);
    FourthSum(d, m2);
  }

  /** m3^2 + m2^3 <= m2 m4 for numbers with the sum 0. */
  lemma PearsonOfSums(d: seq<real>, n: real, m2: real, m3: real, m4: real, squares: real, cubes: real, fourths: real)
    requires n == Count(d) && n > 0.0 && m2 > 0.0 && SumBy(d, Identity) == 0.0
    requires squares == SumBy(d, Square) && cubes == SumBy(d, Cube) && fourths == SumBy(d, Fourth)
    requires squares == m2 * n && cubes == m3 * n && fourths == m4 * n
    ensures Square(m3) + Cube(m2) <= m2 * m4
  {
    ProductPositive(m2, n);
    var excess := ExcessOf(d, n, m2, squares, cubes, fourths);
    MomentsFromSums(n, m2, m3, m4, squares, cubes, excess, squares, fourths);
  }

  /** m3^2 + m2^3 <= m2 m4 */
  lemma PearsonInequality(d: seq<real>, m2: real, m3: real, m4: real)
    requires d != [] && SumBy(d, Identity) == 0.0 && m2 > 0.0
    requires IsMoment(d, Square, m2) && IsMoment(d, Cube, m3) && IsMoment(d, Fourth, m4)
    ensures Square(m3) + Cube(m2) <= m2 * m4
  {
    PearsonOfSums(d, Count(d), m2, m3, m4, SumBy(d, Square), SumBy(d, Cube), SumBy(d, Fourth));
  }

  lemma MomentsFromSums(n: real, m2: real, m3: real, m4: real, uu: real, uv: real, vv: real,
                        squares: real, fourths: real)
    requires n > 0.0 && uu == m2 * n && uv == m3 * n && squares == m2 * n && fourths == m4 * n
    requires vv == fourths - (2.0 * m2) * squares + (m2 * m2) * n
    requires Square(uv) <= uu * vv
    ensures Square(m3) + Cube(m2) <= m2 * m4
  {
    DivideByCount(n, m2, m3, m4);
  }

  lemma DivideByCount(n: real, m2: real, m3: real, m4: real)
    requires n > 0.0
    requires Square(m3 * n) <= (m2 * n) * (m4 * n - (2.0 * m2) * (m2 * n) + (m2 * m2) * n)
    ensures Square(m3) + Cube(m2) <= m2 * m4
  {
    SquareIsZero(n);
    SquaresByCount(n, m2, m3, m4);
    ProductOrder(m3 * m3, m2 * m4 - m2 * m2 * m2, Square(n));
  }

  lemma SquaresByCount(n: real, m2: real, m3: real, m4: real)
    ensures (m3 * n) * (m3 * n) == (m3 * m3) * (n * n)
    ensures (m2 * n) * (m4 * n - (2.0 * m2) * (m2 * n) + (m2 * m2) * n) == (m2 * m4 - m2 * m2 * m2) * (n * n)
  {
  }

  // ---------------------------------------------------------------- the variance factor

  /** The second moment is positive and `root` is its root. */
  ghost predicate HasMoments(values: seq<real>, root: real) {
    values != [] && Moment(values, Square) > 0.0 && root > 0.0 && root * root == Moment(values, Square)
  }

  /** The skewness and the kurtosis are defined. */
  lemma DivisorsAreNotZero(values: seq<real>, root: real)
    requires HasMoments(values, root)
    ensures Moment(values, Square) * root > 0.0 && Square(Moment(values, Square)) > 0.0
  {
    SameSignProduct(Moment(values, Square), root, Moment(values, Square) * root);
    SquareIsZero(Moment(values, Square));
  }

  function VarianceFactorOf(values: seq<real>, root: real, sharpe: real): real
    requires HasMoments(values, root)
  {
    DivisorsAreNotZero(values, root);
    VarianceFactor(Skewness(values, root), Kurtosis(values), sharpe)
  }

  predicate IsOnLine(skewness: real, sharpe: real) { skewness * sharpe == 2.0 }

  /** (skewness sharpe / 2 - 1)^2 */
  function LeastFactor(skewness: real, sharpe: real): real { Square(skewness * sharpe / 2.0 - 1.0) }

  lemma MomentsArePearson(values: seq<real>)
    requires values != [] && Moment(values, Square) > 0.0
    ensures Square(Moment(values, Cube)) + Cube(Moment(values, Square))
         <= Moment(values, Square) * Moment(values, Fourth)
  {
    DeviationsSumToZero(values);
    MomentIsMoment(values, Square);
    MomentIsMoment(values, Cube);
    MomentIsMoment(values, Fourth);
    PearsonInequality(Deviations(values), Moment(values, Square), Moment(values, Cube), Moment(values, Fourth));
  }

  lemma CubeOfRoot(m2: real, root: real, m3: real, skewness: real)
    requires root * root == m2 && skewness * (m2 * root) == m3
    ensures Square(m3) == Square(skewness) * Cube(m2)
  {
    assert (skewness * (m2 * root)) * (skewness * (m2 * root)) == (skewness * skewness) * (m2 * m2 * (root * root));
  }

  /** The kurtosis is at least 1 plus the square of the skewness. */
  lemma KurtosisBound(values: seq<real>, root: real)
    requires HasMoments(values, root)
    ensures Moment(values, Square) * root > 0.0 && Square(Moment(values, Square)) > 0.0
    ensures Kurtosis(values) >= 1.0 + Square(Skewness(values, root))
  {
    DivisorsAreNotZero(values, root);
    var m2, m3, m4 := Moment(values, Square), Moment(values, Cube), Moment(values, Fourth);
    QuotientTimes(m3, m2 * root);
    QuotientTimes(m4, Square(m2));
    MomentsArePearson(values);
    CubeOfRoot(m2, root, m3, Skewness(values, root));
    CompareWithCube(m2, m4, Kurtosis(values), Square(Skewness(values, root)));
  }

  lemma CompareWithCube(m2: real, m4: real, kurtosis: real, square: real)
    requires m2 > 0.0 && kurtosis * Square(m2) == m4 && square * Cube(m2) + Cube(m2) <= m2 * m4
    ensures kurtosis >= 1.0 + square
  {
    SquareIsZero(m2);
    SameSignProduct(m2, m2 * m2, Cube(m2));
    assert m2 * (kurtosis * (m2 * m2)) == kurtosis * (m2 * m2 * m2);
    ProductOrder(1.0 + square, kurtosis, Cube(m2));
  }

  lemma FactorIsSumOfSquares(skewness: real, kurtosis: real, sharpe: real)
    ensures VarianceFactor(skewness, kurtosis, sharpe)
         == Square(skewness * sharpe / 2.0 - 1.0) + (kurtosis - 1.0 - Square(skewness)) / 4.0 * Square(sharpe)
  {
    assert Square(skewness * sharpe / 2.0 - 1.0)
         == 1.0 - skewness * sharpe + (skewness * sharpe) * (skewness * sharpe) / 4.0;
    assert (skewness * sharpe) * (skewness * sharpe) == (skewness * skewness) * (sharpe * sharpe);
    assert (kurtosis - 1.0 - Square(skewness)) / 4.0 * Square(sharpe)
        == (kurtosis - 1.0) / 4.0 * Square(sharpe) - (skewness * skewness) * (sharpe * sharpe) / 4.0;
  }

  /**
   * The variance factor is never negative, and it is 0 only on
   * one line of skewness and Sharpe ratio at the least kurtosis.
   */
  lemma VarianceFactorBound(values: seq<real>, root: real, sharpe: real)
    requires HasMoments(values, root)
    ensures Moment(values, Square) * root > 0.0 && Square(Moment(values, Square)) > 0.0
    ensures var skewness := Skewness(values, root);
      && VarianceFactorOf(values, root, sharpe) >= LeastFactor(skewness, sharpe) >= 0.0
      && (VarianceFactorOf(values, root, sharpe) <= 0.0
          <==> IsOnLine(skewness, sharpe) && Kurtosis(values) == 1.0 + Square(skewness))
  {
    KurtosisBound(values, root);
    var skewness, kurtosis := Skewness(values, root), Kurtosis(values);
    assert VarianceFactorOf(values, root, sharpe) == VarianceFactor(skewness, kurtosis, sharpe);
    FactorBound(skewness, kurtosis, sharpe);
  }

  lemma FactorBound(skewness: real, kurtosis: real, sharpe: real)
    requires kurtosis >= 1.0 + Square(skewness)
    ensures VarianceFactor(skewness, kurtosis, sharpe) >= LeastFactor(skewness, sharpe) >= 0.0
    ensures VarianceFactor(skewness, kurtosis, sharpe) <= 0.0
       <==> IsOnLine(skewness, sharpe) && kurtosis == 1.0 + Square(skewness)
  {
    FactorIsSumOfSquares(skewness, kurtosis, sharpe);
    SquareIsZero(skewness * sharpe / 2.0 - 1.0);
    SquareIsZero(sharpe);
    var excess := (kurtosis - 1.0 - Square(skewness)) / 4.0;
    ProductNonNegative(excess, Square(sharpe));
    if excess > 0.0 && Square(sharpe) > 0.0 {
      SameSignProduct(excess, Square(sharpe), excess * Square(sharpe));
    }
  }

  // ---------------------------------------------------------------- decimal returns

  ghost predicate AreRoots(values: seq<real>, deviation: real, root: real) {
    && (|values| >= 2 ==> IsRoot(deviation, SampleVariance(values)))
    && (values != [] ==> IsRoot(root, Moment(values, Square)))
  }

  datatype NoProbability = FewerThan60DailyReturns | NoStandardDeviation

  /** The reason why there is no probability. */
  function FindReason(values: seq<real>, deviation: real): Option<NoProbability>
    requires |values| >= 2 ==> IsRoot(deviation, SampleVariance(values))
  {
    if |values| < MIN_DAILY_RETURNS then Some(FewerThan60DailyReturns)
    else if CalculateDailySharpe(values, deviation).None? then Some(NoStandardDeviation)
    else None
  }

  lemma SharpeHasMoments(values: seq<real>, deviation: real, root: real)
    requires AreRoots(values, deviation, root) && |values| >= 2 && deviation != 0.0
    ensures HasMoments(values, root)
  {
    MomentIsZeroWithDeviation(values, deviation);
    SquareIsZero(root);
    assert Square(root) == Moment(values, Square);
  }

  /** The variance factor that the probability divides by, or no value where the probability is None. */
  function FindVarianceFactor(values: seq<real>, deviation: real, root: real): Option<real>
    requires AreRoots(values, deviation, root)
  {
    var sharpe := CalculateDailySharpe(values, deviation);
    if |values| < MIN_DAILY_RETURNS || sharpe.None? then
      None
    else
      SharpeHasMoments(values, deviation, root);
      var factor := VarianceFactorOf(values, root, sharpe.value);
      if factor <= 0.0 then None else Some(factor)
  }

  lemma {:induction false} PowersOfFraction(x: real)
    requires IsFraction(x)
    ensures IsFraction(Square(x)) && IsFraction(Cube(x))
  {
    ProductIsFraction(x, x, Square(x));
    ProductIsFraction(Square(x), x, Cube(x));
  }

  lemma MomentsOfFractions(values: seq<real>)
    requires values != [] && forall i :: 0 <= i < |values| ==> IsFraction(values[i])
    ensures IsFraction(Mean(values)) && IsFraction(Moment(values, Square)) && IsFraction(Moment(values, Cube))
  {
    IntIsFraction(|values|);
    SumByIsFraction(values, Identity);
    QuotientIsFraction(SumBy(values, Identity), Count(values));
    var d := Deviations(values);
    forall i | 0 <= i < |values| ensures IsFraction(Square(d[i])) && IsFraction(Cube(d[i])) {
      DifferenceIsFraction(values[i], Mean(values));
      PowersOfFraction(d[i]);
    }
    SumByIsFraction(d, Square);
    SumByIsFraction(d, Cube);
    QuotientIsFraction(SumBy(d, Square), Count(values));
    QuotientIsFraction(SumBy(d, Cube), Count(values));
  }

  /** The skewness times the Sharpe ratio is 2 only if t == m3 mean / m2^2 solves t^2 (n - 1) == 4 n. */
  lemma LineGivesEquation(n: real, mean: real, m2: real, m3: real, root: real, deviation: real, skewness: real,
                          sharpe: real, t: real)
    requires m2 > 0.0 && root * root == m2 && (deviation * deviation) * (n - 1.0) == m2 * n
    requires skewness * (m2 * root) == m3 && sharpe * deviation == mean && t * (m2 * m2) == m3 * mean
    requires skewness * sharpe == 2.0
    ensures (t * t) * (n - 1.0) == 4.0 * n
  {
    assert m3 * mean == (skewness * sharpe) * (m2 * (root * deviation));
    assert (t * m2) * m2 == (2.0 * (root * deviation)) * m2;
    ProductOrder(t * m2, 2.0 * (root * deviation), m2);
    assert t * m2 == 2.0 * (root * deviation);
    EquationOfSquares(n, m2, root, deviation, t);
  }

  lemma EquationOfSquares(n: real, m2: real, root: real, deviation: real, t: real)
    requires m2 > 0.0 && root * root == m2 && (deviation * deviation) * (n - 1.0) == m2 * n
    requires t * m2 == 2.0 * (root * deviation)
    ensures (t * t) * (n - 1.0) == 4.0 * n
  {
    assert (t * m2) * (t * m2) == 4.0 * ((root * root) * (deviation * deviation));
    assert ((t * t) * m2) * m2 == (4.0 * (deviation * deviation)) * m2;
    ProductOrder((t * t) * m2, 4.0 * (deviation * deviation), m2);
    assert ((t * t) * (n - 1.0)) * m2 == ((t * t) * m2) * (n - 1.0) == (4.0 * n) * m2;
    ProductOrder((t * t) * (n - 1.0), 4.0 * n, m2);
  }

  /** t == m3 mean / m2^2 is a fraction. */
  lemma LineRatio(values: seq<real>) returns (t: real)
    requires values != [] && Moment(values, Square) > 0.0 && forall i :: 0 <= i < |values| ==> IsFraction(values[i])
    ensures IsFraction(t)
    ensures t * (Moment(values, Square) * Moment(values, Square)) == Moment(values, Cube) * Mean(values)
  {
    var mean, m2, m3 := Mean(values), Moment(values, Square), Moment(values, Cube);
    MomentsOfFractions(values);
    SquareIsZero(m2);
    ProductIsFraction(m3, mean, m3 * mean);
    ProductIsFraction(m2, m2, Square(m2));
    QuotientIsFraction(m3 * mean, Square(m2));
    t := m3 * mean / Square(m2);
    QuotientTimes(m3 * mean, Square(m2));
  }

  lemma DeviationAndMoment(values: seq<real>, deviation: real)
    requires |values| >= 2 && IsRoot(deviation, SampleVariance(values))
    ensures (deviation * deviation) * (Count(values) - 1.0) == Moment(values, Square) * Count(values)
  {
    QuotientTimes(SumBy(Deviations(values), Square), Count(values) - 1.0);
    MomentSum(values, Square);
  }

  lemma DecimalsAreOffTheLine(values: seq<real>, deviation: real, root: real)
    requires AreRoots(values, deviation, root) && |values| >= 2 && deviation != 0.0
    requires forall i :: 0 <= i < |values| ==> IsFraction(values[i])
    ensures HasMoments(values, root) && Moment(values, Square) * root > 0.0
    ensures !IsOnLine(Skewness(values, root), Mean(values) / deviation)
  {
    SharpeHasMoments(values, deviation, root);
    DivisorsAreNotZero(values, root);
    var t := LineRatio(values);
    NoFractionSolves(|values|, Count(values), t);
    DeviationAndMoment(values, deviation);
    QuotientTimes(Moment(values, Cube), Moment(values, Square) * root);
    QuotientTimes(Mean(values), deviation);
    OffTheLine(Count(values), Mean(values), Moment(values, Square), Moment(values, Cube), root, deviation,
               Skewness(values, root), Mean(values) / deviation, t);
  }

  lemma OffTheLine(n: real, mean: real, m2: real, m3: real, root: real, deviation: real, skewness: real,
                   sharpe: real, t: real)
    requires m2 > 0.0 && root * root == m2 && (deviation * deviation) * (n - 1.0) == m2 * n
    requires skewness * (m2 * root) == m3 && sharpe * deviation == mean && t * (m2 * m2) == m3 * mean
    requires (t * t) * (n - 1.0) != 4.0 * n
    ensures !IsOnLine(skewness, sharpe)
  {
    if IsOnLine(skewness, sharpe) {
      LineGivesEquation(n, mean, m2, m3, root, deviation, skewness, sharpe, t);
    }
  }

  /**
   * With decimal returns, the reason tells exactly whether there is a probability: the factor of 0 is never reached.
   */
  lemma ReasonTellsProbability(values: seq<real>, deviation: real, root: real)
    requires AreRoots(values, deviation, root)
    requires forall i :: 0 <= i < |values| ==> IsFraction(values[i])
    ensures FindVarianceFactor(values, deviation, root).Some? <==> FindReason(values, deviation).None?
  {
    if FindReason(values, deviation).None? {
      SharpeHasMoments(values, deviation, root);
      VarianceFactorBound(values, root, Mean(values) / deviation);
      DecimalsAreOffTheLine(values, deviation, root);
    }
  }

  // ---------------------------------------------------------------- the values

  /** The daily Sharpe ratio is the number that gives the mean of the returns for each unit of their deviation. */
  lemma SharpeIsQuotient(values: seq<real>, deviation: real, sharpe: real)
    requires |values| >= 2 ==> IsRoot(deviation, SampleVariance(values))
    ensures CalculateDailySharpe(values, deviation) == Some(sharpe)
       <==> |values| >= 2 && deviation > 0.0 && sharpe * deviation == Mean(values)
  {
    if |values| >= 2 && deviation > 0.0 {
      QuotientTimes(Mean(values), deviation);
      if sharpe * deviation == Mean(values) {
        ProductOrder(sharpe, Mean(values) / deviation, deviation);
      }
    }
  }

  /** Fewer than 60 returns are the first reason, and else equal returns. */
  lemma ReasonMeaning(values: seq<real>, deviation: real)
    requires |values| >= 2 ==> IsRoot(deviation, SampleVariance(values))
    ensures FindReason(values, deviation) == Some(FewerThan60DailyReturns) <==> |values| < 60
    ensures FindReason(values, deviation) == Some(NoStandardDeviation)
       <==> |values| >= 60 && forall i, j :: 0 <= i < j < |values| ==> values[i] == values[j]
  {
    SharpeIsMissingForEqualReturns(values, deviation);
  }

  /** The factor of the probability is the one of the Sharpe ratio of the returns, and it has its lower bound. */
  lemma FactorIsOfSharpe(values: seq<real>, deviation: real, root: real, sharpe: real, factor: real)
    requires AreRoots(values, deviation, root) && FindVarianceFactor(values, deviation, root) == Some(factor)
    requires sharpe * deviation == Mean(values)
    ensures HasMoments(values, root) && Moment(values, Square) * root > 0.0
    ensures factor == VarianceFactorOf(values, root, sharpe)
    ensures factor > 0.0 && factor >= LeastFactor(Skewness(values, root), sharpe)
  {
    SharpeIsQuotient(values, deviation, sharpe);
    SharpeHasMoments(values, deviation, root);
    VarianceFactorBound(values, root, sharpe);
  }

  /** The roots of the factor and of the number of returns less 1. */
  ghost predicate AreScoreRoots(values: seq<real>, factor: real, factorRoot: real, countRoot: real) {
    IsRoot(factorRoot, factor) && (values != [] ==> IsRoot(countRoot, Count(values) - 1.0))
  }

  /** The argument of the normal distribution, for a variance factor above 0. */
  function Score(sharpe: real, threshold: real, factorRoot: real, countRoot: real): real
    requires factorRoot != 0.0
  {
    (sharpe - threshold) * countRoot / factorRoot
  }

  /** The score has the sign of the Sharpe ratio less the threshold, and its square is the square over the factor. */
  lemma ScoreMeaning(values: seq<real>, deviation: real, root: real, sharpe: real, threshold: real, factor: real,
                     factorRoot: real, countRoot: real)
    requires AreRoots(values, deviation, root) && FindVarianceFactor(values, deviation, root) == Some(factor)
    requires sharpe * deviation == Mean(values) && AreScoreRoots(values, factor, factorRoot, countRoot)
    ensures factorRoot > 0.0 && countRoot > 0.0
    ensures Score(sharpe, threshold, factorRoot, countRoot) > 0.0 <==> sharpe > threshold
    ensures Square(Score(sharpe, threshold, factorRoot, countRoot)) * factor
         == Square(sharpe - threshold) * (Count(values) - 1.0)
  {
    FactorIsOfSharpe(values, deviation, root, sharpe, factor);
    SquareIsZero(factorRoot);
    SquareIsZero(countRoot);
    QuotientTimes((sharpe - threshold) * countRoot, factorRoot);
    ScoreOfRoots(sharpe - threshold, countRoot, factorRoot, Score(sharpe, threshold, factorRoot, countRoot));
  }

  lemma ScoreOfRoots(distance: real, countRoot: real, factorRoot: real, score: real)
    requires countRoot > 0.0 && factorRoot > 0.0 && score * factorRoot == distance * countRoot
    ensures score > 0.0 <==> distance > 0.0
    ensures Square(score) * (factorRoot * factorRoot) == Square(distance) * (countRoot * countRoot)
  {
    SignOfProduct(score, factorRoot);
    SignOfProduct(distance, countRoot);
    assert (score * factorRoot) * (score * factorRoot) == (distance * countRoot) * (distance * countRoot);
  }

  lemma SignOfProduct(x: real, y: real)
    requires y > 0.0
    ensures x * y > 0.0 <==> x > 0.0
  {
  }
}

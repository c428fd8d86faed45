/**
 * The numeric side of the test. scipy's `ttest_ind` and numpy's `mean` and
 * `std` are foreign primitives, supplied as function values and never
 * interpreted. Their results are `Float`s: a real, or NaN (numpy signals an
 * undefined result with NaN, not with an exception). The Welch–Satterthwaite
 * degrees of freedom are written out over the reals.
 */
module Numerics {
  /** A floating-point result: a real number or NaN. Rounding is not modelled. */
  datatype Float = Num(value: real) | NaN

  /**
   * The foreign numeric code: `ttest_ind(control, test, equal_var=False)` giving
   * (t, p), and `np.mean`, `np.std(ddof=1)` on two or more observations.
   */
  datatype Primitives = Primitives(
    ttest: (seq<real>, seq<real>) -> (Float, Float),
    mean: seq<real> -> Float,
    std: seq<real> -> Float)

  function Min(a: int, b: int): int
  {
    if a <= b then a else b
  }

  /** Float subtraction `a - b`; NaN in gives NaN out. */
  function Minus(a: Float, b: Float): (r: Float)
    ensures r.Num? <==> a.Num? && b.Num?
    ensures r.Num? ==> b.value + r.value == a.value
  {
    if a.Num? && b.Num? then Num(a.value - b.value) else NaN
  }

  /** `np.std(xs, ddof=1)`: NaN for fewer than two observations (its divisor n - 1 is then 0). */
  function SampleStd(p: Primitives, xs: seq<real>): (r: Float)
    ensures |xs| < 2 ==> r == NaN
    ensures |xs| >= 2 ==> r == p.std(xs)
  {
    if |xs| < 2 then NaN else p.std(xs)
  }

  /** s² / n, the squared standard error of one group's mean. */
  function SquaredError(s: real, n: nat): (r: real)
    requires n >= 1
    ensures r >= 0.0
    ensures r == 0.0 <==> s == 0.0
  {
    SquareOverPositive(s, n as real);
    s * s / n as real
  }

  /**
   * (a + b)² / (a²/k1 + b²/k2) for squared standard errors a, b and divisors k1, k2.
   * A zero denominator makes numpy's division 0/0, which is NaN.
   */
  function WelchRatio(a: real, b: real, k1: real, k2: real): Float
    requires k1 > 0.0 && k2 > 0.0
  {
    var den := a * a / k1 + b * b / k2;
    if den == 0.0 then NaN else Num((a + b) * (a + b) / den)
  }

  /**
   * Welch–Satterthwaite: (s1²/n1 + s2²/n2)² / ((s1²/n1)²/(n1-1) + (s2²/n2)²/(n2-1)).
   * Its divisors n - 1 are nonzero because both groups have at least two observations.
   */
  function WelchDf(s1: real, s2: real, n1: nat, n2: nat): Float
    requires n1 >= 2 && n2 >= 2
  {
    WelchRatio(SquaredError(s1, n1), SquaredError(s2, n2), (n1 - 1) as real, (n2 - 1) as real)
  }

  /** The degrees of freedom from the two standard deviations: NaN in gives NaN out. */
  function DegreesOfFreedom(sc: Float, st: Float, n1: nat, n2: nat): Float
    requires sc.Num? && st.Num? ==> n1 >= 2 && n2 >= 2
  {
    if sc.Num? && st.Num? then WelchDf(sc.value, st.value, n1, n2) else NaN
  }

  lemma SquarePositive(x: real)
    requires x != 0.0
    ensures x * x > 0.0
  {
    if x < 0.0 {
      NegativeSquare(x);
    }
  }

  lemma NegativeSquare(x: real)
    requires x < 0.0
    ensures x * x > 0.0
  {
    var y := -x;
    assert y * y > 0.0;
    assert x * x == y * y;
  }

  /** Dividing by a positive k keeps the sign and zero-ness of sq. */
  lemma QuotientSign(sq: real, k: real)
    requires k > 0.0
    ensures sq >= 0.0 ==> sq / k >= 0.0
    ensures sq / k == 0.0 <==> sq == 0.0
  {
    assert (sq / k) * k == sq;
    if sq / k == 0.0 {
      assert sq == 0.0 * k;
    }
    if sq / k < 0.0 {
      assert (sq / k) * k < 0.0 * k;
    }
  }

  lemma ProductNonzero(x: real, y: real)
    requires x != 0.0 && y != 0.0
    ensures x * y != 0.0
  {
  }

  lemma QuotientNonzero(p: real, k: real)
    requires p != 0.0 && k > 0.0
    ensures p / k != 0.0
  {
    assert (p / k) * k == p;
  }

  lemma ProductQuotientNonzero(x: real, y: real, k: real)
    requires x != 0.0 && y != 0.0 && k > 0.0
    ensures x * y / k != 0.0
  {
    ProductNonzero(x, y);
    QuotientNonzero(x * y, k);
  }

  /** x² / k for a positive k is nonnegative, and zero exactly when x is. */
  lemma SquareOverPositive(x: real, k: real)
    requires k > 0.0
    ensures x * x / k >= 0.0
    ensures x * x / k == 0.0 <==> x == 0.0
  {
    if x != 0.0 {
      SquarePositive(x);
      QuotientSign(x * x, k);
      ProductQuotientNonzero(x, x, k);
    } else {
      assert x * x == 0.0;
      QuotientSign(x * x, k);
    }
  }

  /** Dividing both sides of an inequality by a positive d. */
  lemma DivideBounded(x: real, y: real, d: real)
    requires d > 0.0
    ensures x <= y * d ==> x / d <= y
    ensures y * d <= x ==> y <= x / d
  {
    assert (x / d) * d == x;
    if x / d > y {
      assert (x / d) * d > y * d;
    }
    if x / d < y {
      assert (x / d) * d < y * d;
    }
  }

  /** Cancelling a positive factor p from p * x >= p * y. */
  lemma CancelPositive(p: real, x: real, y: real)
    requires p > 0.0 && p * x >= p * y
    ensures x >= y
  {
  }

  lemma DivideByLarger(x: real, k: real, m: real)
    requires x >= 0.0 && k >= m > 0.0
    ensures x / k <= x / m
  {
    var q := x / m;
    assert q * m == x;
    assert q >= 0.0;
    assert q * k >= q * m;
    DivideBounded(x, q, k);
  }

  /** The degrees of freedom are undefined exactly when both groups have zero variance. */
  lemma WelchDfUndefinedIff(s1: real, s2: real, n1: nat, n2: nat)
    requires n1 >= 2 && n2 >= 2
    ensures WelchDf(s1, s2, n1, n2).NaN? <==> s1 == 0.0 && s2 == 0.0
  {
    var a, b := SquaredError(s1, n1), SquaredError(s2, n2);
    SquareOverPositive(s1, n1 as real);
    SquareOverPositive(s2, n2 as real);
    SquareOverPositive(a, (n1 - 1) as real);
    SquareOverPositive(b, (n2 - 1) as real);
  }

  /** Cauchy–Schwarz step of the upper bound: (a + b)² <= (k1 + k2) * (a²/k1 + b²/k2). */
  lemma UpperBoundStep(a: real, b: real, k1: real, k2: real, num: real, d: real)
    requires k1 >= 1.0 && k2 >= 1.0
    requires num == (a + b) * (a + b) && d == a * a / k1 + b * b / k2
    ensures num <= (k1 + k2) * d
  {
    var qa, qb := a * a / k1, b * b / k2;
    assert qa * k1 == a * a && qb * k2 == b * b;
    var e := a * k2 - b * k1;
    SquareOverPositive(e, 1.0);
    assert e * e == a * a * (k2 * k2) - 2.0 * a * b * (k1 * k2) + b * b * (k1 * k1);
    assert k1 * k2 * (k2 * qa + k1 * qb) == k2 * k2 * (qa * k1) + k1 * k1 * (qb * k2);
    assert k1 * k2 * (k2 * qa + k1 * qb) >= k1 * k2 * (2.0 * a * b);
    CancelPositive(k1 * k2, k2 * qa + k1 * qb, 2.0 * a * b);
    assert (k1 + k2) * (qa + qb) - (a + b) * (a + b) == k2 * qa + k1 * qb - 2.0 * a * b;
  }

  /** Step of the lower bound: m * (a²/k1 + b²/k2) <= (a + b)² for a, b >= 0 and m = min(k1, k2). */
  lemma LowerBoundStep(a: real, b: real, k1: real, k2: real, num: real, d: real)
    requires a >= 0.0 && b >= 0.0 && k1 >= 1.0 && k2 >= 1.0
    requires num == (a + b) * (a + b) && d == a * a / k1 + b * b / k2
    ensures (if k1 <= k2 then k1 else k2) * d <= num
  {
    var m := if k1 <= k2 then k1 else k2;
    var qa, qb := a * a / k1, b * b / k2;
    DivideByLarger(a * a, k1, m);
    DivideByLarger(b * b, k2, m);
    assert qa * m <= a * a by {
      assert (a * a / m) * m == a * a;
    }
    assert qb * m <= b * b by {
      assert (b * b / m) * m == b * b;
    }
    assert m * (qa + qb) == qa * m + qb * m;
    assert a * b >= 0.0;
  }

  /** The two bounds on the ratio (a + b)² / (a²/k1 + b²/k2) for a, b >= 0. */
  lemma RatioBounds(a: real, b: real, k1: real, k2: real)
    requires a >= 0.0 && b >= 0.0 && k1 >= 1.0 && k2 >= 1.0
    ensures WelchRatio(a, b, k1, k2).Num? ==>
      (if k1 <= k2 then k1 else k2) <= WelchRatio(a, b, k1, k2).value <= k1 + k2
  {
    var d := a * a / k1 + b * b / k2;
    var num := (a + b) * (a + b);
    if d != 0.0 {
      SquareOverPositive(a, k1);
      SquareOverPositive(b, k2);
      assert d > 0.0;
      assert WelchRatio(a, b, k1, k2) == Num(num / d);
      UpperBoundStep(a, b, k1, k2, num, d);
      DivideBounded(num, k1 + k2, d);
      LowerBoundStep(a, b, k1, k2, num, d);
      DivideBounded(num, if k1 <= k2 then k1 else k2, d);
    }
  }

  /** Welch's df lies between min(n1, n2) - 1 and n1 + n2 - 2 whenever it is defined. */
  lemma WelchDfBounds(s1: real, s2: real, n1: nat, n2: nat)
    requires n1 >= 2 && n2 >= 2
    ensures WelchDf(s1, s2, n1, n2).Num? ==>
      (Min(n1, n2) - 1) as real <= WelchDf(s1, s2, n1, n2).value <= (n1 + n2 - 2) as real
  {
    RatioBounds(SquaredError(s1, n1), SquaredError(s2, n2), (n1 - 1) as real, (n2 - 1) as real);
  }
}

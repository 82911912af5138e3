/** Folds over a series of samples: the sums that `std::accumulate` and
  * `std::inner_product` compute, the mean, and the sums of squared and of
  * crossed deviations from a centre. Floating point is idealised as `real`. */
module Sums {

  /** Every element of `s` equals every other (vacuously when |s| < 2). */
  predicate Constant(s: seq<real>) {
    forall i, j :: 0 <= i < |s| && 0 <= j < |s| ==> s[i] == s[j]
  }

  /** Σ s[i], accumulated from the front. */
  function Sum(s: seq<real>): real
    decreases |s|
  {
    if |s| == 0 then 0.0 else Sum(s[..|s| - 1]) + s[|s| - 1]
  }

  /** x². Every square in this model goes through `Sq`, so that facts about
    * one square are facts about one term. */
  function Sq(x: real): real {
    x * x
  }

  /** x·y. Products of sums go through `Mul`, for the same reason: a product
    * of equal factors is then one term however the factors are written. */
  function Mul(x: real, y: real): real {
    x * y
  }

  /** Σ s[i]². */
  function SumSquares(s: seq<real>): real
    decreases |s|
  {
    if |s| == 0 then 0.0 else SumSquares(s[..|s| - 1]) + Sq(s[|s| - 1])
  }

  /** Σ xs[i]·ys[i] over the first |xs| pairs: `std::inner_product` reads
    * `ys` only as far as `xs` goes. */
  function SumProducts(xs: seq<real>, ys: seq<real>): real
    requires |xs| <= |ys|
    decreases |xs|
  {
    if |xs| == 0 then 0.0 else SumProducts(xs[..|xs| - 1], ys) + xs[|xs| - 1] * ys[|xs| - 1]
  }

  /** The arithmetic mean, and 0 for an empty series. */
  function Average(s: seq<real>): real
  {
    if |s| == 0 then 0.0 else Sum(s) / (|s| as real)
  }

  /** Σ (s[i] - m)². */
  function SquaredDeviations(s: seq<real>, m: real): real
    decreases |s|
  {
    if |s| == 0 then 0.0
    else SquaredDeviations(s[..|s| - 1], m) + Sq(s[|s| - 1] - m)
  }

  /** Σ (xs[i] - mx)·(ys[i] - my) over the first |xs| pairs. */
  function CrossDeviations(xs: seq<real>, ys: seq<real>, mx: real, my: real): real
    requires |xs| <= |ys|
    decreases |xs|
  {
    if |xs| == 0 then 0.0
    else CrossDeviations(xs[..|xs| - 1], ys, mx, my) + (xs[|xs| - 1] - mx) * (ys[|xs| - 1] - my)
  }

  /** x·y is positive when x and y are non-zero with the same sign. */
  lemma ProductPositive(x: real, y: real, p: real)
    requires (x > 0.0 && y > 0.0) || (x < 0.0 && y < 0.0)
    requires p == x * y
    ensures p > 0.0
  {
  }

  /** x² is positive for x ≠ 0. */
  lemma SquarePositive(x: real)
    requires x != 0.0
    ensures Sq(x) > 0.0
  {
    ProductPositive(x, x, Sq(x));
  }

  /** x² is never negative. */
  lemma SquareNonNegative(x: real)
    ensures Sq(x) >= 0.0
  {
    if x != 0.0 {
      SquarePositive(x);
    }
  }

  /** A sum of squares is never negative. */
  lemma {:induction false} SquaredDeviationsNonNegative(s: seq<real>, m: real)
    ensures SquaredDeviations(s, m) >= 0.0
    decreases |s|
  {
    if |s| > 0 {
      SquaredDeviationsNonNegative(s[..|s| - 1], m);
      SquareNonNegative(s[|s| - 1] - m);
    }
  }

  lemma {:induction false} SumOfConstant(s: seq<real>, c: real)
    requires forall i :: 0 <= i < |s| ==> s[i] == c
    ensures Sum(s) == (|s| as real) * c
    decreases |s|
  {
    if |s| > 0 {
      SumOfConstant(s[..|s| - 1], c);
    }
  }

  /** The mean of no samples is 0; otherwise the mean times the number of
    * samples gives back the total. */
  lemma AverageScaled(s: seq<real>)
    ensures |s| == 0 ==> Average(s) == 0.0
    ensures Mul(Average(s), |s| as real) == Sum(s)
  {
  }

  /** The mean of a non-empty constant series is its value. */
  lemma AverageOfConstant(s: seq<real>)
    requires |s| > 0 && Constant(s)
    ensures Average(s) == s[0]
  {
    SumOfConstant(s, s[0]);
    AverageScaled(s);
    CancelPositive(Average(s), s[0], |s| as real);
  }

  /** m·n == c·n with n > 0 gives m == c. */
  lemma CancelPositive(m: real, c: real, n: real)
    requires n > 0.0 && m * n == c * n
    ensures m == c
  {
    assert (m - c) * n == 0.0;
  }

  /** A sum of squares vanishes exactly when every term does. */
  lemma {:induction false} SquaredDeviationsZero(s: seq<real>, m: real)
    ensures SquaredDeviations(s, m) == 0.0 <==> forall i :: 0 <= i < |s| ==> s[i] == m
    decreases |s|
  {
    if |s| > 0 {
      SquaredDeviationsZero(s[..|s| - 1], m);
      SquaredDeviationsNonNegative(s[..|s| - 1], m);
      if s[|s| - 1] != m {
        SquarePositive(s[|s| - 1] - m);
      } else {
        assert Sq(s[|s| - 1] - m) == 0.0;
      }
    }
  }

  lemma {:induction false} SquaredDeviationsExpand(s: seq<real>, m: real)
    ensures SquaredDeviations(s, m) == SumSquares(s) - 2.0 * Mul(m, Sum(s)) + Mul(Sq(m), |s| as real)
    decreases |s|
  {
    if |s| > 0 {
      var init, x := s[..|s| - 1], s[|s| - 1];
      SquaredDeviationsExpand(init, m);
      SquareOfDifference(x, m);
      assert Sum(s) == Sum(init) + x;
      assert |s| as real == (|init| as real) + 1.0;
      MulAdd(m, Sum(init), x);
      MulAdd(Sq(m), |init| as real, 1.0);
    } else {
      MulByZero(Sq(m), |s| as real);
    }
  }

  /** A product with a zero factor is zero. */
  lemma MulByZero(x: real, y: real)
    requires x == 0.0 || y == 0.0
    ensures Mul(x, y) == 0.0
  {
  }

  /** (x - m)² = x² - 2mx + m². */
  lemma SquareOfDifference(x: real, m: real)
    ensures Sq(x - m) == Sq(x) - 2.0 * Mul(m, x) + Sq(m)
  {
  }

  /** Σ(s[i] - mean)²·|s| = Σs[i]²·|s| - (Σs[i])². */
  lemma SpreadAtMean(s: seq<real>)
    ensures Mul(SquaredDeviations(s, Average(s)), |s| as real) == Mul(SumSquares(s), |s| as real) - Mul(Sum(s), Sum(s))
  {
    AverageScaled(s);
    SpreadAbout(s, Average(s));
  }

  lemma SpreadAbout(s: seq<real>, m: real)
    requires Mul(m, |s| as real) == Sum(s)
    ensures Mul(SquaredDeviations(s, m), |s| as real) == Mul(SumSquares(s), |s| as real) - Mul(Sum(s), Sum(s))
  {
    SquaredDeviationsExpand(s, m);
    ScaledSpread(SquaredDeviations(s, m), SumSquares(s), Sum(s), |s| as real, m);
  }

  /** k·(p + q) = k·p + k·q. */
  lemma MulAdd(k: real, p: real, q: real)
    ensures Mul(k, p + q) == Mul(k, p) + Mul(k, q)
  {
  }

  /** (ss - 2·m·t + n·m²)·n = ss·n - t² when m·n = t. */
  lemma ScaledSpread(d: real, ss: real, t: real, n: real, m: real)
    requires d == ss - 2.0 * Mul(m, t) + Mul(Sq(m), n)
    requires Mul(m, n) == t
    ensures Mul(d, n) == Mul(ss, n) - Mul(t, t)
  {
  }

  /** The spread about the mean is zero exactly for a constant series. */
  lemma SpreadAtMeanZeroIff(s: seq<real>)
    ensures SquaredDeviations(s, Average(s)) == 0.0 <==> Constant(s)
  {
    SquaredDeviationsZero(s, Average(s));
    if Constant(s) && |s| > 0 {
      AverageOfConstant(s);
    }
  }
}

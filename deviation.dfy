/** The residual sums S = Σ(φ(x_i) - y_i)² of the polynomial families, and the
  * three sums behind Pearson's correlation coefficient. Every routine here
  * first fills a vector and then accumulates over it, so each is a method
  * whose loops are proved against a recursive specification function. */
module Deviation {
  import opened Results
  import opened Sums

  /** An approximating curve φ with its coefficients. `Lineal(a, b)` is
    * a·x + b; the others list their coefficients from the constant term up. */
  datatype Curve =
    | Lineal(a: real, b: real)
    | Quadratic(a0: real, a1: real, a2: real)
    | Qube(a0: real, a1: real, a2: real, a3: real)

  /** φ(x). `std::pow(x, 0)` is 1 for every x, 0 included. */
  function Phi(c: Curve, x: real): real {
    match c
    case Lineal(a, b) => a * x + b
    case Quadratic(a0, a1, a2) => a2 * (x * x) + a1 * x + a0
    case Qube(a0, a1, a2, a3) => a3 * (x * x * x) + a2 * (x * x) + a1 * x + a0
  }

  /** Σ (φ(xs[i]) - ys[i])² over the first |xs| pairs. */
  function SquaredResiduals(c: Curve, xs: seq<real>, ys: seq<real>): real
    requires |xs| <= |ys|
    decreases |xs|
  {
    if |xs| == 0 then 0.0
    else SquaredResiduals(c, xs[..|xs| - 1], ys) + Sq(Phi(c, xs[|xs| - 1]) - ys[|xs| - 1])
  }

  /** Every one of the first |xs| points lies on the curve. */
  predicate Fits(c: Curve, xs: seq<real>, ys: seq<real>)
    requires |xs| <= |ys|
  {
    forall i :: 0 <= i < |xs| ==> Phi(c, xs[i]) == ys[i]
  }

  /** The body shared by `deviation_lineal`, `deviation_quadratic` and
    * `deviation_qube`: push φ(x) for every x, then add up the squared
    * differences to the matching y. */
  method SumSquaredResiduals(c: Curve, xs: seq<real>, ys: seq<real>) returns (s: real)
    requires |xs| <= |ys|
    ensures s == SquaredResiduals(c, xs, ys)
    ensures s >= 0.0
    ensures s == 0.0 <==> Fits(c, xs, ys)
  {
    var yPhi: seq<real> := [];
    for i := 0 to |xs|
      invariant |yPhi| == i
      invariant forall k :: 0 <= k < i ==> yPhi[k] == Phi(c, xs[k])
    {
      yPhi := yPhi + [Phi(c, xs[i])];
    }
    s := 0.0;
    for i := 0 to |yPhi|
      invariant s == SquaredResiduals(c, xs[..i], ys)
    {
      assert xs[..i + 1][..i] == xs[..i];
      s := s + Sq(yPhi[i] - ys[i]);
    }
    assert xs[..|xs|] == xs;
    SquaredResidualsNonNegative(c, xs, ys);
    SquaredResidualsZero(c, xs, ys);
  }

  /** `deviation_lineal(a, b, xs, ys)`. */
  method DeviationLineal(a: real, b: real, xs: seq<real>, ys: seq<real>) returns (s: real)
    requires |xs| <= |ys|
    ensures s == SquaredResiduals(Lineal(a, b), xs, ys)
    ensures s >= 0.0
    ensures s == 0.0 <==> Fits(Lineal(a, b), xs, ys)
  {
    s := SumSquaredResiduals(Lineal(a, b), xs, ys);
  }

  /** `deviation_quadratic(a0, a1, a2, xs, ys)`. */
  method DeviationQuadratic(a0: real, a1: real, a2: real, xs: seq<real>, ys: seq<real>) returns (s: real)
    requires |xs| <= |ys|
    ensures s == SquaredResiduals(Quadratic(a0, a1, a2), xs, ys)
    ensures s >= 0.0
    ensures s == 0.0 <==> Fits(Quadratic(a0, a1, a2), xs, ys)
  {
    s := SumSquaredResiduals(Quadratic(a0, a1, a2), xs, ys);
  }

  /** `deviation_qube(a0, a1, a2, a3, xs, ys)`. */
  method DeviationQube(a0: real, a1: real, a2: real, a3: real, xs: seq<real>, ys: seq<real>) returns (s: real)
    requires |xs| <= |ys|
    ensures s == SquaredResiduals(Qube(a0, a1, a2, a3), xs, ys)
    ensures s >= 0.0
    ensures s == 0.0 <==> Fits(Qube(a0, a1, a2, a3), xs, ys)
  {
    s := SumSquaredResiduals(Qube(a0, a1, a2, a3), xs, ys);
  }

  /** A sum of squared residuals is never negative. */
  lemma {:induction false} SquaredResidualsNonNegative(c: Curve, xs: seq<real>, ys: seq<real>)
    requires |xs| <= |ys|
    ensures SquaredResiduals(c, xs, ys) >= 0.0
    decreases |xs|
  {
    if |xs| > 0 {
      SquaredResidualsNonNegative(c, xs[..|xs| - 1], ys);
      SquareNonNegative(Phi(c, xs[|xs| - 1]) - ys[|xs| - 1]);
    }
  }

  /** The residual sum is 0 exactly when every point lies on the curve. */
  lemma {:induction false} SquaredResidualsZero(c: Curve, xs: seq<real>, ys: seq<real>)
    requires |xs| <= |ys|
    ensures SquaredResiduals(c, xs, ys) == 0.0 <==> Fits(c, xs, ys)
    decreases |xs|
  {
    if |xs| > 0 {
      var init := xs[..|xs| - 1];
      SquaredResidualsZero(c, init, ys);
      SquaredResidualsNonNegative(c, init, ys);
      var r := Phi(c, xs[|xs| - 1]) - ys[|xs| - 1];
      if r != 0.0 {
        SquarePositive(r);
      } else {
        assert Sq(r) == 0.0;
        assert Fits(c, xs, ys) <==> Fits(c, init, ys) by {
          if Fits(c, init, ys) {
            forall i | 0 <= i < |xs|
              ensures Phi(c, xs[i]) == ys[i]
            {
              if i < |init| {
                assert xs[i] == init[i];
              }
            }
          }
        }
      }
    }
  }

  /** Two curves that agree on every x give the same residual sum. */
  lemma {:induction false} SquaredResidualsAgree(c: Curve, d: Curve, xs: seq<real>, ys: seq<real>)
    requires |xs| <= |ys|
    requires forall i :: 0 <= i < |xs| ==> Phi(c, xs[i]) == Phi(d, xs[i])
    ensures SquaredResiduals(c, xs, ys) == SquaredResiduals(d, xs, ys)
    decreases |xs|
  {
    if |xs| > 0 {
      SquaredResidualsAgree(c, d, xs[..|xs| - 1], ys);
    }
  }

  /** A quadratic whose x² coefficient is 0 is the line a1·x + a0. */
  lemma QuadraticWithoutSquareTerm(a0: real, a1: real, xs: seq<real>, ys: seq<real>)
    requires |xs| <= |ys|
    ensures SquaredResiduals(Quadratic(a0, a1, 0.0), xs, ys) == SquaredResiduals(Lineal(a1, a0), xs, ys)
  {
    SquaredResidualsAgree(Quadratic(a0, a1, 0.0), Lineal(a1, a0), xs, ys);
  }

  /** A cubic whose x³ coefficient is 0 is the quadratic with the same
    * remaining coefficients. */
  lemma QubeWithoutCubeTerm(a0: real, a1: real, a2: real, xs: seq<real>, ys: seq<real>)
    requires |xs| <= |ys|
    ensures SquaredResiduals(Qube(a0, a1, a2, 0.0), xs, ys) == SquaredResiduals(Quadratic(a0, a1, a2), xs, ys)
  {
    SquaredResidualsAgree(Qube(a0, a1, a2, 0.0), Quadratic(a0, a1, a2), xs, ys);
  }

  /** What `correlation_coefficient` has computed when it reaches the final
    * division: Σ(x - x̄)(y - ȳ), Σ(x - x̄)² and Σ(y - ȳ)². */
  datatype PearsonTerms = PearsonTerms(numerator: real, leftSum: real, rightSum: real)

  /** The `runtime_error` thrown when the denominator √(leftSum·rightSum) is 0. */
  datatype PearsonError = ZeroDenominator

  /** `correlation_coefficient` up to, but not including, the final
    * numerator / √(leftSum·rightSum). */
  method CorrelationTerms(xs: seq<real>, ys: seq<real>) returns (r: Result<PearsonTerms, PearsonError>)
    requires |xs| <= |ys|
    ensures r.Failure? <==> Constant(xs) || Constant(ys)
    ensures r.Success? ==> r.value == PearsonTerms(CrossDeviations(xs, ys, Average(xs), Average(ys)),
                                                   SquaredDeviations(xs, Average(xs)),
                                                   SquaredDeviations(ys, Average(ys)))
    ensures r.Success? ==> r.value.leftSum > 0.0 && r.value.rightSum > 0.0
  {
    var xAverage := Average(xs);
    var yAverage := Average(ys);

    var numerator := CrossDeviationSum(xs, ys, xAverage, yAverage);
    var leftSum := SquaredDeviationSum(xs, xAverage);
    var rightSum := SquaredDeviationSum(ys, yAverage);

    SpreadAtMeanZeroIff(xs);
    SpreadAtMeanZeroIff(ys);
    ProductZeroIff(leftSum, rightSum);
    if leftSum * rightSum == 0.0 {
      r := Failure(ZeroDenominator);
    } else {
      r := Success(PearsonTerms(numerator, leftSum, rightSum));
    }
  }

  /** The numerator loop of `correlation_coefficient`. */
  method CrossDeviationSum(xs: seq<real>, ys: seq<real>, mx: real, my: real) returns (numerator: real)
    requires |xs| <= |ys|
    ensures numerator == CrossDeviations(xs, ys, mx, my)
  {
    numerator := 0.0;
    for i := 0 to |xs|
      invariant numerator == CrossDeviations(xs[..i], ys, mx, my)
    {
      assert xs[..i + 1][..i] == xs[..i];
      numerator := numerator + (xs[i] - mx) * (ys[i] - my);
    }
    assert xs[..|xs|] == xs;
  }

  /** The `leftSum` and `rightSum` loops of `correlation_coefficient`. */
  method SquaredDeviationSum(s: seq<real>, m: real) returns (total: real)
    ensures total == SquaredDeviations(s, m)
    ensures total >= 0.0
  {
    total := 0.0;
    for k := 0 to |s|
      invariant total == SquaredDeviations(s[..k], m)
    {
      assert s[..k + 1][..k] == s[..k];
      total := total + Sq(s[k] - m);
    }
    assert s[..|s|] == s;
    SquaredDeviationsNonNegative(s, m);
  }

  /** leftSum·rightSum is 0 exactly when one series is constant; otherwise
    * both sums are positive. */
  lemma DenominatorZeroIff(xs: seq<real>, ys: seq<real>)
    ensures SquaredDeviations(xs, Average(xs)) * SquaredDeviations(ys, Average(ys)) == 0.0
        <==> Constant(xs) || Constant(ys)
    ensures !Constant(xs) ==> SquaredDeviations(xs, Average(xs)) > 0.0
    ensures !Constant(ys) ==> SquaredDeviations(ys, Average(ys)) > 0.0
  {
    SpreadAtMeanZeroIff(xs);
    SpreadAtMeanZeroIff(ys);
    SquaredDeviationsNonNegative(xs, Average(xs));
    SquaredDeviationsNonNegative(ys, Average(ys));
    ProductZeroIff(SquaredDeviations(xs, Average(xs)), SquaredDeviations(ys, Average(ys)));
  }

  /** For non-negative factors, the product is 0 exactly when a factor is. */
  lemma ProductZeroIff(a: real, b: real)
    requires a >= 0.0 && b >= 0.0
    ensures a * b == 0.0 <==> a == 0.0 || b == 0.0
  {
    if a > 0.0 && b > 0.0 {
      ProductPositive(a, b, a * b);
    }
  }
}

/** `approx_lineal`: the straight line a·x + b fitted to the samples by least
  * squares. The sufficient statistics are folds; the 2×2 normal equations
  * are solved by Cramer's rule; then two gradient sums are accumulated in
  * loops and compared with a tolerance before the line is returned. */
module Approximation {
  import opened Results
  import opened Sums
  import opened Deviation

  /** The pair (a, b) returned by `approx_lineal`. */
  datatype Coefficients = Coefficients(a: real, b: real)

  /** `LinearApproximationException`: "there is no minimum". */
  datatype FitError = NoMinimum

  /** The tolerance the gradient sums are compared with. */
  const Epsilon: real := 0.001

  /** `std::abs`. */
  function Abs(x: real): real {
    if x < 0.0 then -x else x
  }

  /** n = |xs|, sx = Σx, sxx = Σx², sy = Σy over all of ys, and sxy = Σx·y
    * over the first |xs| pairs (`std::inner_product` stops with xs). */
  datatype Statistics = Statistics(n: real, sx: real, sxx: real, sy: real, sxy: real)

  function StatisticsOf(xs: seq<real>, ys: seq<real>): Statistics
    requires |xs| <= |ys|
  {
    Statistics(|xs| as real, Sum(xs), SumSquares(xs), Sum(ys), SumProducts(xs, ys))
  }

  function Delta0(st: Statistics): real {
    Mul(st.sxx, st.n) - Mul(st.sx, st.sx)
  }

  function Delta1(st: Statistics): real {
    Mul(st.sxy, st.n) - Mul(st.sx, st.sy)
  }

  function Delta2(st: Statistics): real {
    Mul(st.sxx, st.sy) - Mul(st.sx, st.sxy)
  }

  /** The normal equations of S(a, b) = Σ(a·x + b - y)²:
    * a·Σx² + b·Σx = Σxy and a·Σx + b·n = Σy. */
  predicate SolvesNormalEquations(st: Statistics, c: Coefficients) {
    && Mul(c.a, st.sxx) + Mul(c.b, st.sx) == st.sxy
    && Mul(c.a, st.sx) + Mul(c.b, st.n) == st.sy
  }

  /** a = Δ1/Δ0, b = Δ2/Δ0. */
  function Cramer(st: Statistics): Coefficients
    requires Delta0(st) != 0.0
  {
    Coefficients(Delta1(st) / Delta0(st), Delta2(st) / Delta0(st))
  }

  /** Cramer's rule solves the normal equations whenever Δ0 ≠ 0. */
  lemma CramerSolvesNormalEquations(st: Statistics)
    requires Delta0(st) != 0.0
    ensures SolvesNormalEquations(st, Cramer(st))
  {
    var c := Cramer(st);
    CramerIdentities(st.n, st.sx, st.sxx, st.sy, st.sxy, c.a, c.b);
  }

  lemma CramerIdentities(n: real, sx: real, sxx: real, sy: real, sxy: real, a: real, b: real)
    requires sxx * n - sx * sx != 0.0
    requires a == (sxy * n - sx * sy) / (sxx * n - sx * sx)
    requires b == (sxx * sy - sx * sxy) / (sxx * n - sx * sx)
    ensures a * sxx + b * sx == sxy && a * sx + b * n == sy
  {
    var d := sxx * n - sx * sx;
    assert a * d == sxy * n - sx * sy;
    assert b * d == sxx * sy - sx * sxy;
    assert (a * sxx + b * sx) * d == sxy * d;
    assert (a * sx + b * n) * d == sy * d;
    CancelNonZero(a * sxx + b * sx, sxy, d);
    CancelNonZero(a * sx + b * n, sy, d);
  }

  /** u·d == v·d with d ≠ 0 gives u == v. */
  lemma CancelNonZero(u: real, v: real, d: real)
    requires d != 0.0 && u * d == v * d
    ensures u == v
  {
    assert (u - v) * d == 0.0;
  }

  /** When Δ0 ≠ 0 the normal equations have no other solution. */
  lemma NormalEquationsDetermineFit(st: Statistics, c: Coefficients)
    requires Delta0(st) != 0.0 && SolvesNormalEquations(st, c)
    ensures c == Cramer(st)
  {
    UniqueSolution(st.n, st.sx, st.sxx, st.sy, st.sxy, c.a, c.b);
  }

  lemma UniqueSolution(n: real, sx: real, sxx: real, sy: real, sxy: real, a: real, b: real)
    requires sxx * n - sx * sx != 0.0
    requires a * sxx + b * sx == sxy && a * sx + b * n == sy
    ensures a == (sxy * n - sx * sy) / (sxx * n - sx * sx)
    ensures b == (sxx * sy - sx * sxy) / (sxx * n - sx * sx)
  {
    var d := sxx * n - sx * sx;
    assert a * d == sxy * n - sx * sy;
    assert b * d == sxx * sy - sx * sxy;
  }

  /** Δ0 = 0 exactly when every x is the same (no x at all included): the
    * normal equations then have no unique solution. */
  lemma DegenerateIffConstant(xs: seq<real>, ys: seq<real>)
    requires |xs| <= |ys|
    ensures Delta0(StatisticsOf(xs, ys)) == 0.0 <==> Constant(xs)
  {
    DeltaIsScaledSpread(xs, ys);
    SpreadAtMeanZeroIff(xs);
    SquaredDeviationsNonNegative(xs, Average(xs));
    ProductZeroIff(SquaredDeviations(xs, Average(xs)), |xs| as real);
  }

  /** Δ0 = Σ(x - x̄)²·n. */
  lemma DeltaIsScaledSpread(xs: seq<real>, ys: seq<real>)
    requires |xs| <= |ys|
    ensures Delta0(StatisticsOf(xs, ys)) == Mul(SquaredDeviations(xs, Average(xs)), |xs| as real)
  {
    SpreadAtMean(xs);
  }

  /** Σ(a·x + b - y)·x over the first |xs| pairs: half the first gradient sum. */
  function ResidualMoment(c: Coefficients, xs: seq<real>, ys: seq<real>): real
    requires |xs| <= |ys|
    decreases |xs|
  {
    if |xs| == 0 then 0.0
    else ResidualMoment(c, xs[..|xs| - 1], ys) + (c.a * xs[|xs| - 1] + c.b - ys[|xs| - 1]) * xs[|xs| - 1]
  }

  /** Σ(a·x + b - y) over the first |xs| pairs: half the second gradient sum. */
  function ResidualSum(c: Coefficients, xs: seq<real>, ys: seq<real>): real
    requires |xs| <= |ys|
    decreases |xs|
  {
    if |xs| == 0 then 0.0
    else ResidualSum(c, xs[..|xs| - 1], ys) + (c.a * xs[|xs| - 1] + c.b - ys[|xs| - 1])
  }

  /** The test `approx_lineal` applies before returning (a, b). */
  predicate PassesGradientCheck(c: Coefficients, xs: seq<real>, ys: seq<real>)
    requires |xs| <= |ys|
  {
    Abs(2.0 * ResidualMoment(c, xs, ys)) < Epsilon && Abs(2.0 * ResidualSum(c, xs, ys)) < Epsilon
  }

  /** Σ(a·x + b - y)·x = a·Σx² + b·Σx - Σxy. */
  lemma {:induction false} ResidualMomentExpand(c: Coefficients, xs: seq<real>, ys: seq<real>)
    requires |xs| <= |ys|
    ensures ResidualMoment(c, xs, ys) == Mul(c.a, SumSquares(xs)) + Mul(c.b, Sum(xs)) - SumProducts(xs, ys)
    decreases |xs|
  {
    if |xs| > 0 {
      var init, x, y := xs[..|xs| - 1], xs[|xs| - 1], ys[|xs| - 1];
      ResidualMomentExpand(c, init, ys);
      assert SumSquares(xs) == SumSquares(init) + Sq(x);
      assert Sum(xs) == Sum(init) + x;
      MulAdd(c.a, SumSquares(init), Sq(x));
      MulAdd(c.b, Sum(init), x);
      MomentTerm(c.a, c.b, x, y);
    }
  }

  /** (a·x + b - y)·x = a·x² + b·x - x·y. */
  lemma MomentTerm(a: real, b: real, x: real, y: real)
    ensures (a * x + b - y) * x == Mul(a, Sq(x)) + Mul(b, x) - x * y
  {
  }

  /** Σ(a·x + b - y) = a·Σx + b·n - Σy, the last sum over the first |xs| ys. */
  lemma {:induction false} ResidualSumExpand(c: Coefficients, xs: seq<real>, ys: seq<real>)
    requires |xs| <= |ys|
    ensures ResidualSum(c, xs, ys) == Mul(c.a, Sum(xs)) + Mul(c.b, |xs| as real) - Sum(ys[..|xs|])
    decreases |xs|
  {
    if |xs| > 0 {
      var n := |xs|;
      ResidualSumExpand(c, xs[..n - 1], ys);
      assert ys[..n][..n - 1] == ys[..n - 1];
      assert Sum(xs) == Sum(xs[..n - 1]) + xs[n - 1];
      assert n as real == ((n - 1) as real) + 1.0;
      MulAdd(c.a, Sum(xs[..n - 1]), xs[n - 1]);
      MulAdd(c.b, (n - 1) as real, 1.0);
    }
  }

  /** For paired samples, both gradient sums vanish at any solution of the
    * normal equations: it is a stationary point of S(a, b). */
  lemma GradientsVanish(xs: seq<real>, ys: seq<real>, c: Coefficients)
    requires |xs| == |ys| && SolvesNormalEquations(StatisticsOf(xs, ys), c)
    ensures ResidualMoment(c, xs, ys) == 0.0 && ResidualSum(c, xs, ys) == 0.0
  {
    ResidualMomentExpand(c, xs, ys);
    ResidualSumExpand(c, xs, ys);
    assert ys[..|xs|] == ys;
  }

  /** n zeros: the targets of the line through the origin offset (da, db). */
  function Zeros(n: nat): seq<real> {
    seq(n, _ => 0.0)
  }

  /** The squared residuals of c, point by point. */
  function SquaredResidualTerms(c: Curve, xs: seq<real>, ys: seq<real>): seq<real>
    requires |xs| <= |ys|
  {
    seq(|xs|, i requires 0 <= i < |xs| => Sq(Phi(c, xs[i]) - ys[i]))
  }

  /** The terms of the first gradient sum, point by point. */
  function MomentTerms(c: Coefficients, xs: seq<real>, ys: seq<real>): seq<real>
    requires |xs| <= |ys|
  {
    seq(|xs|, i requires 0 <= i < |xs| => (c.a * xs[i] + c.b - ys[i]) * xs[i])
  }

  /** The terms of the second gradient sum, point by point. */
  function ResidualTerms(c: Coefficients, xs: seq<real>, ys: seq<real>): seq<real>
    requires |xs| <= |ys|
  {
    seq(|xs|, i requires 0 <= i < |xs| => c.a * xs[i] + c.b - ys[i])
  }

  lemma {:induction false} SquaredResidualsAsSum(c: Curve, xs: seq<real>, ys: seq<real>)
    requires |xs| <= |ys|
    ensures SquaredResiduals(c, xs, ys) == Sum(SquaredResidualTerms(c, xs, ys))
    decreases |xs|
  {
    if |xs| > 0 {
      var init := xs[..|xs| - 1];
      forall i | 0 <= i < |init|
        ensures SquaredResidualTerms(c, xs, ys)[i] == SquaredResidualTerms(c, init, ys)[i]
      {
        assert init[i] == xs[i];
      }
      assert SquaredResidualTerms(c, xs, ys)[..|xs| - 1] == SquaredResidualTerms(c, init, ys);
      SquaredResidualsAsSum(c, init, ys);
    }
  }

  lemma {:induction false} ResidualMomentAsSum(c: Coefficients, xs: seq<real>, ys: seq<real>)
    requires |xs| <= |ys|
    ensures ResidualMoment(c, xs, ys) == Sum(MomentTerms(c, xs, ys))
    decreases |xs|
  {
    if |xs| > 0 {
      var init := xs[..|xs| - 1];
      forall i | 0 <= i < |init|
        ensures MomentTerms(c, xs, ys)[i] == MomentTerms(c, init, ys)[i]
      {
        assert init[i] == xs[i];
      }
      assert MomentTerms(c, xs, ys)[..|xs| - 1] == MomentTerms(c, init, ys);
      ResidualMomentAsSum(c, init, ys);
    }
  }

  lemma {:induction false} ResidualSumAsSum(c: Coefficients, xs: seq<real>, ys: seq<real>)
    requires |xs| <= |ys|
    ensures ResidualSum(c, xs, ys) == Sum(ResidualTerms(c, xs, ys))
    decreases |xs|
  {
    if |xs| > 0 {
      var init := xs[..|xs| - 1];
      forall i | 0 <= i < |init|
        ensures ResidualTerms(c, xs, ys)[i] == ResidualTerms(c, init, ys)[i]
      {
        assert init[i] == xs[i];
      }
      assert ResidualTerms(c, xs, ys)[..|xs| - 1] == ResidualTerms(c, init, ys);
      ResidualSumAsSum(c, init, ys);
    }
  }

  /** Summing u[i] = v[i] + 2·da·w[i] + 2·db·z[i] + q[i] term by term. */
  lemma {:induction false} SumOfCombination(u: seq<real>, v: seq<real>, w: seq<real>, z: seq<real>, q: seq<real>,
                                            da: real, db: real)
    requires |u| == |v| == |w| == |z| == |q|
    requires forall i :: 0 <= i < |u| ==> u[i] == v[i] + 2.0 * Mul(da, w[i]) + 2.0 * Mul(db, z[i]) + q[i]
    ensures Sum(u) == Sum(v) + 2.0 * Mul(da, Sum(w)) + 2.0 * Mul(db, Sum(z)) + Sum(q)
    decreases |u|
  {
    if |u| > 0 {
      var n := |u|;
      SumOfCombination(u[..n - 1], v[..n - 1], w[..n - 1], z[..n - 1], q[..n - 1], da, db);
      MulAdd(da, Sum(w[..n - 1]), w[n - 1]);
      MulAdd(db, Sum(z[..n - 1]), z[n - 1]);
    } else {
      MulByZero(da, Sum(w));
      MulByZero(db, Sum(z));
    }
  }

  /** Moving the line from (a, b) to (a + da, b + db) changes S by the two
    * gradient sums weighted by da and db, plus Σ(da·x + db)². */
  lemma ShiftExpand(c: Coefficients, da: real, db: real, xs: seq<real>, ys: seq<real>)
    requires |xs| <= |ys|
    ensures SquaredResiduals(Lineal(c.a + da, c.b + db), xs, ys)
         == SquaredResiduals(Lineal(c.a, c.b), xs, ys)
            + 2.0 * Mul(da, ResidualMoment(c, xs, ys)) + 2.0 * Mul(db, ResidualSum(c, xs, ys))
            + SquaredResiduals(Lineal(da, db), xs, Zeros(|ys|))
  {
    var moved, fitted, offset := Lineal(c.a + da, c.b + db), Lineal(c.a, c.b), Lineal(da, db);
    var u, v := SquaredResidualTerms(moved, xs, ys), SquaredResidualTerms(fitted, xs, ys);
    var w, z := MomentTerms(c, xs, ys), ResidualTerms(c, xs, ys);
    var q := SquaredResidualTerms(offset, xs, Zeros(|ys|));
    ShiftPointwise(c, da, db, xs, ys);
    SumOfCombination(u, v, w, z, q, da, db);
    SquaredResidualsAsSum(moved, xs, ys);
    SquaredResidualsAsSum(fitted, xs, ys);
    SquaredResidualsAsSum(offset, xs, Zeros(|ys|));
    ResidualMomentAsSum(c, xs, ys);
    ResidualSumAsSum(c, xs, ys);
  }

  /** ShiftStep at every point. */
  lemma ShiftPointwise(c: Coefficients, da: real, db: real, xs: seq<real>, ys: seq<real>)
    requires |xs| <= |ys|
    ensures forall i :: 0 <= i < |xs| ==>
      SquaredResidualTerms(Lineal(c.a + da, c.b + db), xs, ys)[i]
        == SquaredResidualTerms(Lineal(c.a, c.b), xs, ys)[i]
           + 2.0 * Mul(da, MomentTerms(c, xs, ys)[i]) + 2.0 * Mul(db, ResidualTerms(c, xs, ys)[i])
           + SquaredResidualTerms(Lineal(da, db), xs, Zeros(|ys|))[i]
  {
    forall i | 0 <= i < |xs|
      ensures SquaredResidualTerms(Lineal(c.a + da, c.b + db), xs, ys)[i]
        == SquaredResidualTerms(Lineal(c.a, c.b), xs, ys)[i]
           + 2.0 * Mul(da, MomentTerms(c, xs, ys)[i]) + 2.0 * Mul(db, ResidualTerms(c, xs, ys)[i])
           + SquaredResidualTerms(Lineal(da, db), xs, Zeros(|ys|))[i]
    {
      assert Zeros(|ys|)[i] == 0.0;
      ShiftStep(c, da, db, xs[i], ys[i]);
    }
  }

  /** One point of ShiftExpand: the squared residual of the moved line. */
  lemma ShiftStep(c: Coefficients, da: real, db: real, x: real, y: real)
    ensures Sq(Phi(Lineal(c.a + da, c.b + db), x) - y)
         == Sq(Phi(Lineal(c.a, c.b), x) - y) + 2.0 * Mul(da, (c.a * x + c.b - y) * x)
            + 2.0 * Mul(db, c.a * x + c.b - y) + Sq(Phi(Lineal(da, db), x) - 0.0)
  {
    var r, e := c.a * x + c.b - y, da * x + db;
    assert Phi(Lineal(c.a + da, c.b + db), x) - y == r + e;
    assert Sq(r + e) == Sq(r) + 2.0 * (e * r) + Sq(e);
    assert e * r == Mul(da, r * x) + Mul(db, r);
  }

  /** For paired samples, a solution of the normal equations minimises
    * S(a, b) = Σ(a·x + b - y)² over all lines. */
  lemma NormalEquationsMinimise(xs: seq<real>, ys: seq<real>, c: Coefficients, a: real, b: real)
    requires |xs| == |ys| && SolvesNormalEquations(StatisticsOf(xs, ys), c)
    ensures SquaredResiduals(Lineal(c.a, c.b), xs, ys) <= SquaredResiduals(Lineal(a, b), xs, ys)
  {
    var da, db := a - c.a, b - c.b;
    ShiftExpand(c, da, db, xs, ys);
    assert Lineal(c.a + da, c.b + db) == Lineal(a, b);
    GradientsVanish(xs, ys, c);
    MulByZero(da, ResidualMoment(c, xs, ys));
    MulByZero(db, ResidualSum(c, xs, ys));
    SquaredResidualsNonNegative(Lineal(da, db), xs, Zeros(|ys|));
  }

  /** Cramer's line is the least-squares line: no line has a smaller
    * `deviation_lineal`. */
  lemma CramerIsLeastSquares(xs: seq<real>, ys: seq<real>, a: real, b: real)
    requires |xs| == |ys| && Delta0(StatisticsOf(xs, ys)) != 0.0
    ensures SquaredResiduals(Lineal(Cramer(StatisticsOf(xs, ys)).a, Cramer(StatisticsOf(xs, ys)).b), xs, ys)
         <= SquaredResiduals(Lineal(a, b), xs, ys)
  {
    CramerSolvesNormalEquations(StatisticsOf(xs, ys));
    NormalEquationsMinimise(xs, ys, Cramer(StatisticsOf(xs, ys)), a, b);
  }

  /** `approx_lineal(xs, ys)`. Over the reals the quotient Δ1/Δ0 does not
    * exist when Δ0 = 0, and the method reports the error there; otherwise it
    * runs the two gradient loops and the tolerance test as written. */
  method ApproxLineal(xs: seq<real>, ys: seq<real>) returns (r: Result<Coefficients, FitError>)
    requires |xs| <= |ys|
    ensures r.Success? <==> Delta0(StatisticsOf(xs, ys)) != 0.0
                            && PassesGradientCheck(Cramer(StatisticsOf(xs, ys)), xs, ys)
    ensures r.Success? ==> r.value == Cramer(StatisticsOf(xs, ys))
    ensures r.Failure? ==> r.error == NoMinimum
    ensures |xs| == |ys| ==> (r.Success? <==> !Constant(xs))
    ensures |xs| == |ys| && r.Success? ==>
      forall a: real, b: real :: SquaredResiduals(Lineal(r.value.a, r.value.b), xs, ys) <= SquaredResiduals(Lineal(a, b), xs, ys)
  {
    var st := StatisticsOf(xs, ys);
    var delta0, delta1, delta2 := Delta0(st), Delta1(st), Delta2(st);
    DegenerateIffConstant(xs, ys);
    if delta0 == 0.0 {
      return Failure(NoMinimum);
    }

    var fit := Coefficients(delta1 / delta0, delta2 / delta0);
    var sum1, sum2 := GradientSums(fit, xs, ys);

    if Abs(sum1) < Epsilon && Abs(sum2) < Epsilon {
      r := Success(fit);
    } else {
      r := Failure(NoMinimum);
    }
    if |xs| == |ys| {
      CramerSolvesNormalEquations(st);
      GradientsVanish(xs, ys, fit);
      forall a: real, b: real
        ensures SquaredResiduals(Lineal(fit.a, fit.b), xs, ys) <= SquaredResiduals(Lineal(a, b), xs, ys)
      {
        NormalEquationsMinimise(xs, ys, fit, a, b);
      }
    }
  }

  /** The two loops of `approx_lineal` and the doubling that follows them. */
  method GradientSums(c: Coefficients, xs: seq<real>, ys: seq<real>) returns (sum1: real, sum2: real)
    requires |xs| <= |ys|
    ensures sum1 == 2.0 * ResidualMoment(c, xs, ys)
    ensures sum2 == 2.0 * ResidualSum(c, xs, ys)
  {
    var n := |xs|;
    sum1 := 0.0;
    for i := 0 to n
      invariant sum1 == ResidualMoment(c, xs[..i], ys)
    {
      assert xs[..i + 1][..i] == xs[..i];
      sum1 := sum1 + (c.a * xs[i] + c.b - ys[i]) * xs[i];
    }
    sum2 := 0.0;
    for i := 0 to n
      invariant sum2 == ResidualSum(c, xs[..i], ys)
    {
      assert xs[..i + 1][..i] == xs[..i];
      sum2 := sum2 + (c.a * xs[i] + c.b - ys[i]);
    }
    assert xs[..n] == xs;
    sum1 := sum1 * 2.0;
    sum2 := sum2 * 2.0;
  }

  /** The intercept from the slope: (Σy - a·Σx)/n, the form
    * `approx_exponential` uses for its own intercept. */
  function InterceptFrom(st: Statistics, a: real): real
    requires st.n != 0.0
  {
    (st.sy - Mul(a, st.sx)) / st.n
  }

  /** Cramer's intercept Δ2/Δ0 is the intercept from Cramer's slope. */
  lemma InterceptForm(xs: seq<real>, ys: seq<real>)
    requires |xs| <= |ys| && Delta0(StatisticsOf(xs, ys)) != 0.0
    ensures |xs| > 0
    ensures Cramer(StatisticsOf(xs, ys)).b == InterceptFrom(StatisticsOf(xs, ys), Cramer(StatisticsOf(xs, ys)).a)
  {
    var st := StatisticsOf(xs, ys);
    DegenerateIffConstant(xs, ys);
    CramerSolvesNormalEquations(st);
    var c := Cramer(st);
    Intercept(st.n, st.sx, st.sy, c.a, c.b);
  }

  lemma Intercept(n: real, sx: real, sy: real, a: real, b: real)
    requires n > 0.0 && Mul(a, sx) + Mul(b, n) == sy
    ensures b == (sy - Mul(a, sx)) / n
  {
  }

  /** As written, an empty input passes the gradient test with any (a, b):
    * both loops run zero times, so the sums are 0, while Δ0 = 0 and the
    * returned quotients 0/0 are undefined. */
  lemma EmptyInputAcceptedAsWritten(ys: seq<real>, c: Coefficients)
    ensures Delta0(StatisticsOf([], ys)) == 0.0
    ensures PassesGradientCheck(c, [], ys)
  {
    var st := StatisticsOf([], ys);
    assert st.n == 0.0 && st.sx == 0.0;
    MulByZero(st.sxx, st.n);
    MulByZero(st.sx, st.sx);
  }
}

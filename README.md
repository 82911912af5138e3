# function_approximation — least-squares core in Dafny

The program reads paired samples (x, y), fits several curve families to them
by least squares, scores each fit, and announces the family with the
smallest score. This project models the exact, algebraic part of that
program, with `float` idealised as `real`:

- `approx_lineal` (module `Approximation`). It folds the samples into the
  sufficient statistics n, Σx, Σx², Σy and Σxy. It solves the 2×2 normal
  equations by Cramer's rule (a = Δ1/Δ0, b = Δ2/Δ0). Then it runs the two
  gradient loops and tests them against the tolerance 1e-3. The proofs show
  that over the reals the gradient sums at Cramer's solution are exactly 0
  for paired samples, so the fit fails exactly when Δ0 = 0. That happens
  exactly when all x are equal. They also show that Cramer's solution is the
  only solution of the normal equations and that no other line has a smaller
  sum of squared residuals. Its intercept is (Σy − a·Σx)/n.
- The residual sums `deviation_lineal`, `deviation_quadratic` and
  `deviation_qube` (module `Deviation`). Each is a method that fills φ(x)
  into a vector and accumulates Σ(φ(xᵢ) − yᵢ)². It is proved equal to a
  recursive specification function, which is never negative and is zero
  exactly when every point lies on the curve. The parts of
  `correlation_coefficient` before its final division are modelled too: the
  numerator, the two sums of squared deviations, and the zero-denominator
  error. That error occurs exactly when one series is constant.
- The folds shared by both (module `Sums`): sums, squares, the mean (0 for
  no samples), and the expansion Σ(x − x̄)²·n = n·Σx² − (Σx)².
- `hasNegativeNumber` (module `Util`). Its loop variable is an `int`, so each
  sample is truncated toward zero before the sign test. A series is
  therefore reported negative exactly when some sample is at most −1.
- `printTable` (module `Table`). The console is the sequence of lines
  written. Column widths are computed in place in an array by nested loops.
  A method builds the header line, the separator line and the row lines,
  and is proved equal to a specification function. Lemmas state the layout
  of that function.
- The selection in `main` (module `Selection`). It checks that the sizes
  match, then picks the list of families from the signs of the two series.
  It evaluates the families in order, where the first one that throws ends
  the run. The announced family is the first one whose score equals the
  minimum. What each family scores is a parameter, `process: Family ->
  Option<real>`, where `None` stands for a call that throws.

`deviation.cpp` repeats `average`, `correlation_coefficient` and
`deviation_lineal` from `approximation.cpp` line for line. Each is modelled
once, and the table cites both copies where a property comes from both.

## Model

| member | source | states |
|---|---|---|
| Sums.AverageScaled | approximation.cpp:10-17 | the mean of an empty vector is 0; otherwise mean·size = Σ, i.e. the mean is the sum divided by the size |
| Sums.AverageOfConstant | deviation.cpp:5-12 | the mean of a non-empty constant series is that constant |
| Sums.SumOfConstant | approximation.cpp:99 | the sum of n copies of c is n·c |
| Sums.SquaredDeviationsNonNegative | approximation.cpp:41-49 | Σ(sᵢ − m)² ≥ 0 for any centre m |
| Sums.SquaredDeviationsZero | approximation.cpp:41-49 | Σ(sᵢ − m)² = 0 exactly when every sample equals m |
| Sums.SquaredDeviationsExpand | approximation.cpp:41-49 | Σ(sᵢ − m)² = Σsᵢ² − 2m·Σsᵢ + n·m² |
| Sums.SpreadAtMean | approximation.cpp:41-44 | Σ(sᵢ − s̄)²·n = Σsᵢ²·n − (Σsᵢ)² |
| Sums.SpreadAtMeanZeroIff | deviation.cpp:36-44 | the spread about the mean is 0 exactly when the series is constant |
| Deviation.SumSquaredResiduals | deviation.cpp:74-85 | the push-back loop and the accumulation loop compute Σ(φ(xᵢ) − yᵢ)² over the paired samples; the result is ≥ 0 and is 0 exactly when every point lies on φ |
| Deviation.DeviationLineal | approximation.cpp:64-91 | `deviation_lineal(a, b)` is Σ(a·xᵢ + b − yᵢ)², ≥ 0, and 0 exactly when every point is on the line |
| Deviation.DeviationQuadratic | deviation.cpp:155-172 | `deviation_quadratic` is Σ(a₂xᵢ² + a₁xᵢ + a₀ − yᵢ)², ≥ 0, and 0 exactly when every point is on the parabola |
| Deviation.DeviationQube | deviation.cpp:174-191 | `deviation_qube` is Σ(a₃xᵢ³ + a₂xᵢ² + a₁xᵢ + a₀ − yᵢ)², ≥ 0, and 0 exactly when every point is on the cubic |
| Deviation.SquaredResidualsNonNegative | deviation.cpp:81-83 | a residual sum is never negative |
| Deviation.SquaredResidualsZero | deviation.cpp:163-171 | a residual sum is 0 exactly when φ(xᵢ) = yᵢ for every i |
| Deviation.SquaredResidualsAgree | deviation.cpp:77-83 | two curves that agree at every xᵢ have the same residual sum |
| Deviation.QuadraticWithoutSquareTerm | deviation.cpp:156-158 | `deviation_quadratic(a₀, a₁, 0)` equals `deviation_lineal(a₁, a₀)` |
| Deviation.QubeWithoutCubeTerm | deviation.cpp:175-177 | `deviation_qube(a₀, a₁, a₂, 0)` equals `deviation_quadratic(a₀, a₁, a₂)` |
| Deviation.CorrelationTerms | deviation.cpp:25-53 | `correlation_coefficient` up to its division: it throws exactly when xs or ys is constant; otherwise it yields Σ(xᵢ − x̄)(yᵢ − ȳ), Σ(xᵢ − x̄)² and Σ(yᵢ − ȳ)², both sums positive |
| Deviation.CrossDeviationSum | deviation.cpp:29-32 | the numerator loop computes Σ(xᵢ − x̄)(yᵢ − ȳ) over the paired samples |
| Deviation.SquaredDeviationSum | deviation.cpp:36-44 | the `leftSum`/`rightSum` loops compute Σ(sᵢ − s̄)², which is ≥ 0 |
| Deviation.DenominatorZeroIff | approximation.cpp:41-54 | leftSum·rightSum = 0 exactly when one series is constant; a non-constant series has a positive sum |
| Approximation.CramerSolvesNormalEquations | approximation.cpp:105-111 | when Δ0 ≠ 0, a = Δ1/Δ0 and b = Δ2/Δ0 satisfy a·Σx² + b·Σx = Σxy and a·Σx + b·n = Σy |
| Approximation.NormalEquationsDetermineFit | approximation.cpp:105-111 | when Δ0 ≠ 0, any solution of the normal equations is (Δ1/Δ0, Δ2/Δ0) |
| Approximation.DeltaIsScaledSpread | approximation.cpp:99-106 | Δ0 = n·Σx² − (Σx)² equals n·Σ(xᵢ − x̄)² |
| Approximation.DegenerateIffConstant | approximation.cpp:105-106 | Δ0 = 0 exactly when all x are equal (including no x at all) |
| Approximation.ResidualMomentExpand | approximation.cpp:114-117 | Σ(a·xᵢ + b − yᵢ)·xᵢ = a·Σx² + b·Σx − Σxy |
| Approximation.ResidualSumExpand | approximation.cpp:119-122 | Σ(a·xᵢ + b − yᵢ) = a·Σx + b·n − Σyᵢ over the first n ys |
| Approximation.GradientsVanish | approximation.cpp:113-125 | for paired samples, both gradient sums are exactly 0 at any solution of the normal equations |
| Approximation.GradientSums | approximation.cpp:114-125 | the two loops and the doubling compute 2·Σ(a·xᵢ + b − yᵢ)·xᵢ and 2·Σ(a·xᵢ + b − yᵢ) |
| Approximation.ApproxLineal | approximation.cpp:93-156 | returns (Δ1/Δ0, Δ2/Δ0) exactly when Δ0 ≠ 0 and both doubled gradient sums are below 1e-3 in absolute value, else `NoMinimum`; for paired samples it succeeds exactly when the xs are not all equal, and the returned line then minimises `deviation_lineal` over all lines |
| Approximation.ShiftExpand | approximation.cpp:71-72 | moving the line by (da, db) changes S = Σ(a·xᵢ + b − yᵢ)² by 2·da and 2·db times the two gradient sums, plus Σ(da·xᵢ + db)² |
| Approximation.NormalEquationsMinimise | approximation.cpp:113-125 | for paired samples, a line whose gradient sums vanish (a solution of the normal equations) has S no larger than any other line's |
| Approximation.CramerIsLeastSquares | approximation.cpp:105-113 | when Δ0 ≠ 0, the line (Δ1/Δ0, Δ2/Δ0) has the smallest `deviation_lineal` of all lines |
| Approximation.InterceptForm | approximation.cpp:108-111 | Cramer's intercept Δ2/Δ0 equals (Σy − a·Σx)/n with a = Δ1/Δ0, the intercept form of approximation.cpp:191-192 |
| Approximation.EmptyInputAcceptedAsWritten | approximation.cpp:114-151 | with no samples Δ0 = 0, yet both gradient sums are 0 and pass the tolerance test for any (a, b) |
| Util.TruncateToInt | util.cpp:5 | the conversion to `int` drops the fraction toward zero |
| Util.ReportedNegativeIff | util.cpp:5-6 | a sample fails the test `number < 0` exactly when it is ≤ −1 |
| Util.SmallNegativesNotReported | util.cpp:5-6 | samples in (−1, 0] truncate to 0 and are not reported |
| Util.HasNegativeNumber | util.cpp:4-11 | the loop returns true exactly when some truncated sample is negative, i.e. some sample is ≤ −1; an empty vector gives false |
| Util.HasNegativeAppend | util.cpp:5-11 | the answer for s + t is the answer for s or the answer for t, so appending never turns true into false |
| Util.HasNegativeSameElements | util.cpp:5-11 | the answer depends only on which values occur |
| Util.HasNegativePermutation | util.cpp:5-11 | reordering the samples does not change the answer |
| Table.SetWLayout | table.cpp:21 | `setw(w) << s` is max(w, length of s) wide, ends with s whole, and is padded on the left with spaces only |
| Table.ColumnWidthIsMax | table.cpp:11-17 | width i is at least the length of headers[i] and of row[i] for every row with more than i cells, malformed rows included, and equals one of them |
| Table.MaxCellWidthBounds | table.cpp:13-17 | the scan over the rows ends at the largest of the start width and the i-th cells, and at one of them |
| Table.ComputeColumnWidths | table.cpp:9-18 | the nested loops fill a fresh array with exactly those widths |
| Table.FormatLine | table.cpp:20-22 | the cell loop writes each cell padded to its width and followed by the cell separator (space, bar, space) |
| Table.FormatSeparator | table.cpp:25-27 | the separator loop writes, per column, width dashes followed by "-+-" |
| Table.FirstInvalidRowFrom | table.cpp:30-31 | finds the first row at or after a start index whose size differs from the header count, or the end |
| Table.FirstInvalidRow | table.cpp:30-31 | the first malformed row's index is within the data |
| Table.RowLinesIndex | table.cpp:30-38 | the row lines are the rows, formatted, one per row and in order |
| Table.PrintTable | table.cpp:3-40 | the method writes exactly the lines of the specification: the empty message, or header, separator and the rows up to the first malformed one, then the error message |
| Table.EmptyTable | table.cpp:4-7 | with no headers or no data the only output is "Table is empty." |
| Table.TableShape | table.cpp:20-39 | header line, separator line, then row k formatted at position 2 + k up to the first malformed row, which ends the output with "Invalid row size." |
| Table.FormatRowLength | table.cpp:20-22 | a line whose cells all fit their columns is Σ(widthᵢ + 3) long |
| Table.SeparatorLength | table.cpp:25-27 | the separator line is Σ(widthᵢ + 3) long |
| Table.HeaderFits | table.cpp:11-21 | the header line is Σ(widthᵢ + 3) long: no header is wider than its column |
| Table.RowFits | table.cpp:30-36 | every printed data row has the header's size and is Σ(widthᵢ + 3) long |
| Table.LinesAlign | table.cpp:20-38 | the header, the separator and every printed row have the same length |
| Selection.Plan | main.cpp:64-131 | linear, quadratic and cubic come first in that order; power is evaluated exactly when neither series is negative, exp exactly when ys are not, log exactly when xs are not; families appear in the order linear, quadratic, cubic, power, exp, log; no family twice |
| Selection.PlanBySamples | main.cpp:62-66 | in terms of the samples: power needs every x and y above −1, exp every y, log every x |
| Selection.Minimum | main.cpp:71 | `min_element` of a non-empty list is an element and is ≤ every element |
| Selection.FirstIndexOf | main.cpp:75-81 | the if/else-if chain stops at the first position holding the minimum |
| Selection.WinnerIsFirstMinimum | main.cpp:133-149 | the winner's score is ≤ every score and every earlier family scored strictly more, so ties go to the earlier family |
| Selection.WinnerIsBest | main.cpp:133-149 | exactly one family of the plan is announced, and it is the best of the plan as above |
| Selection.Evaluate | main.cpp:126-131 | the push-backs yield one score per planned family, in order, or stop at the first family that throws |
| Selection.ChooseApproximation | main.cpp:55-152 | unequal sizes fail before anything is evaluated; otherwise the run succeeds exactly when no planned family throws, and then announces the best family of the plan |

## Left out

- Floating point: rounding, overflow, infinities and NaN. Samples and sums are `real`. The 1e-3 tolerance is kept, but over the reals paired samples only fail it when Δ0 = 0.
- Approximation.ApproxLineal: returns `NoMinimum` as soon as Δ0 = 0, where the `float` code divides by zero. See Findings.
- Every member that reads ys by index requires |xs| ≤ |ys|: Approximation.ApproxLineal, Approximation.GradientSums, Deviation.SumSquaredResiduals, Deviation.DeviationLineal, Deviation.DeviationQuadratic, Deviation.DeviationQube, Deviation.CorrelationTerms and Deviation.CrossDeviationSum. The source reads ys[i] for every i < |xs|, and reading past the end of `ys` is undefined behaviour.
- `std::sqrt`, `std::exp`, `std::log` and non-integer `std::pow`: no real-number model. This leaves out the final division of `correlation_coefficient` and the bound |r| ≤ 1 on its result. It also leaves out `standard_deviation`, `deviation_exponential`, `deviation_power`, `deviation_log` and `approx_exponential`. Only the intercept form of `approx_exponential` is stated, as Approximation.InterceptForm.
- process.cpp is not part of this model: its console output and float formatting. Its scores enter the selection as the `process` parameter.
- graph.cpp and the `plotIf*`/`plotAllGraphs` calls: plotting through a foreign library.
- `readFunctionPointsFromFile` and `labInfo`: file and console I/O. The selection starts from the two sample lists.
- `quadratic_approximation`, `cube_approximation`, `approx_power` and `approx_log` are called but not shown, so they are not modelled.
- Table.PrintTable: lengths are counted in characters, where `std::string::length()` and `std::setw` count bytes. The two agree on ASCII cells, which are the only cells the program builds.
- Console output is modelled as the sequence of lines written. `std::endl` and the stream itself are not modelled. The "Best approx" line with its float formatting is left out of the selection, which returns the announced family and its score.
- Util.TruncateToInt: a `float` outside the `int` range makes the conversion undefined behaviour. The model truncates any real.
- Selection.Evaluate: one loop over the planned families. The source writes out the push-backs in each of its four branches.
- Some loops of the source are written as separate methods called from the method that models their function: the gradient loops, the correlation loops, the column-width loops and the line loops of `printTable`.

## Findings

| source | as written | input that shows it | evidently intended | confidence | as-written member | corrected member |
|---|---|---|---|---|---|---|
| approximation.cpp:93-155 | with no samples, Δ0 = 0 and a = b = 0/0, but both gradient loops run zero times, so the sums are 0 and pass the tolerance test; the undefined quotients are returned instead of throwing | xs = ys = [] | throw `LinearApproximationException` whenever there is no unique minimum, i.e. whenever Δ0 = 0 | not executed | Approximation.EmptyInputAcceptedAsWritten | Approximation.ApproxLineal |

/** The choice `main` makes once the samples are read: which curve families
  * to fit, given the signs of the samples, and which of them to announce as
  * the best approximation. What each family scores (`process_lineal`,
  * `process_quadratic`, ...) is a parameter: `Some(value)` when the call
  * returns, `None` when it throws. */
module Selection {
  import opened Results
  import opened Util

  datatype Family = Lineal | Quadratic | Qube | Power | Exp | Log

  /** Why `main` ends without an announcement: the two sample lists differ
    * in length, or a family's `process_*` call threw. */
  datatype SelectionError = SizeMismatch | ProcessFailed(family: Family)

  /** The announced family and its score. */
  datatype Announcement = Announcement(family: Family, score: real)

  /** A family's place in the order `main` evaluates the families in: linear,
    * quadratic, cubic, power, exp, log. */
  function Rank(f: Family): nat {
    match f
    case Lineal => 0
    case Quadratic => 1
    case Qube => 2
    case Power => 3
    case Exp => 4
    case Log => 5
  }

  /** The families `main` evaluates, in order. Power needs both series free of
    * negative values, exp needs the ys free of them and log the xs. */
  function Plan(isNegativeX: bool, isNegativeY: bool): (plan: seq<Family>)
    ensures |plan| >= 3 && plan[..3] == [Lineal, Quadratic, Qube]
    ensures Power in plan <==> !isNegativeX && !isNegativeY
    ensures Exp in plan <==> !isNegativeY
    ensures Log in plan <==> !isNegativeX
    ensures forall i, j :: 0 <= i < j < |plan| ==> Rank(plan[i]) < Rank(plan[j])
    ensures forall i, j :: 0 <= i < j < |plan| ==> plan[i] != plan[j]
  {
    if isNegativeX && isNegativeY then [Lineal, Quadratic, Qube]
    else if isNegativeX then [Lineal, Quadratic, Qube, Exp]
    else if isNegativeY then [Lineal, Quadratic, Qube, Log]
    else [Lineal, Quadratic, Qube, Power, Exp, Log]
  }

  /** In terms of the samples: because `hasNegativeNumber` truncates toward
    * zero, a series counts as negative only when some sample is at most -1. */
  lemma PlanBySamples(xs: seq<real>, ys: seq<real>)
    ensures Power in Plan(HasNegative(xs), HasNegative(ys)) <==>
      (forall i :: 0 <= i < |xs| ==> xs[i] > -1.0) && (forall i :: 0 <= i < |ys| ==> ys[i] > -1.0)
    ensures Exp in Plan(HasNegative(xs), HasNegative(ys)) <==> forall i :: 0 <= i < |ys| ==> ys[i] > -1.0
    ensures Log in Plan(HasNegative(xs), HasNegative(ys)) <==> forall i :: 0 <= i < |xs| ==> xs[i] > -1.0
  {
    forall i | 0 <= i < |xs|
      ensures ReportedNegative(xs[i]) <==> xs[i] <= -1.0
    {
      ReportedNegativeIff(xs[i]);
    }
    forall i | 0 <= i < |ys|
      ensures ReportedNegative(ys[i]) <==> ys[i] <= -1.0
    {
      ReportedNegativeIff(ys[i]);
    }
  }

  /** `*std::min_element(result.begin(), result.end())`. */
  function Minimum(values: seq<real>): (m: real)
    requires |values| > 0
    ensures m in values
    ensures forall i :: 0 <= i < |values| ==> m <= values[i]
    decreases |values|
  {
    if |values| == 1 then values[0]
    else
      var rest := Minimum(values[1..]);
      if values[0] <= rest then values[0] else rest
  }

  /** The if/else-if chain: the first position holding m. */
  function FirstIndexOf(values: seq<real>, m: real): (k: nat)
    requires m in values
    ensures k < |values| && values[k] == m
    ensures forall j :: 0 <= j < k ==> values[j] != m
    decreases |values|
  {
    if values[0] == m then 0 else 1 + FirstIndexOf(values[1..], m)
  }

  /** The position of the announced family in the result list. */
  function Winner(values: seq<real>): nat
    requires |values| > 0
  {
    FirstIndexOf(values, Minimum(values))
  }

  /** The winner holds the smallest value, and every earlier family scored
    * strictly more: ties go to the family evaluated first. */
  lemma WinnerIsFirstMinimum(values: seq<real>)
    requires |values| > 0
    ensures Winner(values) < |values|
    ensures forall i :: 0 <= i < |values| ==> values[Winner(values)] <= values[i]
    ensures forall j :: 0 <= j < Winner(values) ==> values[j] > values[Winner(values)]
  {
    var m := Minimum(values);
    var w := Winner(values);
    forall j | 0 <= j < w
      ensures values[j] > values[w]
    {
      assert values[j] >= m && values[j] != m;
    }
  }

  /** The `push_back`s of one branch of `main`: the families of the plan are
    * processed in order, and the first one that throws ends the program. */
  method Evaluate(plan: seq<Family>, process: Family -> Option<real>) returns (r: Result<seq<real>, Family>)
    ensures r.Success? <==> forall i :: 0 <= i < |plan| ==> process(plan[i]).Some?
    ensures r.Success? ==> |r.value| == |plan|
                           && forall i :: 0 <= i < |plan| ==> r.value[i] == process(plan[i]).value
    ensures r.Failure? ==> exists k :: 0 <= k < |plan| && plan[k] == r.error && process(plan[k]).None?
                                       && forall j :: 0 <= j < k ==> process(plan[j]).Some?
  {
    var result: seq<real> := [];
    for i := 0 to |plan|
      invariant |result| == i
      invariant forall k :: 0 <= k < i ==> process(plan[k]).Some? && result[k] == process(plan[k]).value
    {
      var score := process(plan[i]);
      if score.None? {
        return Failure(plan[i]);
      }
      result := result + [score.value];
    }
    return Success(result);
  }

  /** What the announcement promises about a plan whose families all
    * returned: the announced family is in the plan, its score is its own,
    * no family scored less, and every family before it scored more. */
  predicate IsBest(plan: seq<Family>, process: Family -> Option<real>, a: Announcement) {
    && a.family in plan
    && process(a.family) == Some(a.score)
    && (forall f :: f in plan ==> process(f).Some? && a.score <= process(f).value)
    && (forall i, j :: 0 <= i < j < |plan| && plan[j] == a.family ==> process(plan[i]).value > a.score)
  }

  /** The family at the winning position of the scores is the best of the plan. */
  lemma WinnerIsBest(plan: seq<Family>, process: Family -> Option<real>, result: seq<real>)
    requires |plan| > 0 && |result| == |plan|
    requires forall i, j :: 0 <= i < j < |plan| ==> plan[i] != plan[j]
    requires forall i :: 0 <= i < |plan| ==> process(plan[i]).Some? && result[i] == process(plan[i]).value
    ensures IsBest(plan, process, Announcement(plan[Winner(result)], Minimum(result)))
  {
    var w := Winner(result);
    WinnerIsFirstMinimum(result);
    forall f | f in plan
      ensures process(f).Some? && Minimum(result) <= process(f).value
    {
      var i :| 0 <= i < |plan| && plan[i] == f;
      assert result[i] == process(f).value;
    }
    forall i, j | 0 <= i < j < |plan| && plan[j] == plan[w]
      ensures process(plan[i]).value > Minimum(result)
    {
      assert j == w;
    }
  }

  /** `main` from the size check to the announcement. */
  method ChooseApproximation(xs: seq<real>, ys: seq<real>, process: Family -> Option<real>)
    returns (r: Result<Announcement, SelectionError>)
    ensures |xs| != |ys| ==> r == Failure(SizeMismatch)
    ensures r.Success? ==> IsBest(Plan(HasNegative(xs), HasNegative(ys)), process, r.value)
    ensures |xs| == |ys| && r.Failure? ==>
      && r.error.ProcessFailed?
      && r.error.family in Plan(HasNegative(xs), HasNegative(ys))
      && process(r.error.family).None?
    ensures |xs| == |ys| ==>
      (r.Success? <==> forall f :: f in Plan(HasNegative(xs), HasNegative(ys)) ==> process(f).Some?)
  {
    if |xs| != |ys| {
      return Failure(SizeMismatch);
    }

    var isNegativeX := HasNegativeNumber(xs);
    var isNegativeY := HasNegativeNumber(ys);
    var plan := Plan(isNegativeX, isNegativeY);

    var evaluated := Evaluate(plan, process);
    if evaluated.Failure? {
      return Failure(ProcessFailed(evaluated.error));
    }
    var result := evaluated.value;

    var minValue := Minimum(result);
    var winner := FirstIndexOf(result, minValue);
    WinnerIsBest(plan, process, result);
    r := Success(Announcement(plan[winner], minValue));
  }
}

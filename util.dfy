/** `hasNegativeNumber`: the range-for loop binds each sample to an `int`, so
  * the sign test is made on the sample truncated toward zero. */
module Util {

  /** The conversion of a `float` to `int`: the fractional part is dropped,
    * rounding toward zero. */
  function TruncateToInt(x: real): (k: int)
    ensures x >= 0.0 ==> 0 <= k && k as real <= x < k as real + 1.0
    ensures x < 0.0 ==> k <= 0 && k as real - 1.0 < x <= k as real
  {
    if x >= 0.0 then x.Floor else -((-x).Floor)
  }

  /** The loop's test on one sample. */
  predicate ReportedNegative(x: real) {
    TruncateToInt(x) < 0
  }

  /** Some sample passes the loop's test. */
  predicate HasNegative(s: seq<real>) {
    exists i :: 0 <= i < |s| && ReportedNegative(s[i])
  }

  /** A sample is reported exactly when it is at most -1. */
  lemma ReportedNegativeIff(x: real)
    ensures ReportedNegative(x) <==> x <= -1.0
  {
    var k := TruncateToInt(x);
    if x <= -1.0 {
      assert k as real >= x > k as real - 1.0;
      assert k < 0;
    }
  }

  /** Samples in (-1, 0] are truncated to 0 and so are not reported. */
  lemma SmallNegativesNotReported(x: real)
    requires -1.0 < x <= 0.0
    ensures TruncateToInt(x) == 0
    ensures !ReportedNegative(x)
  {
    ReportedNegativeIff(x);
  }

  /** `hasNegativeNumber(numbers)`: the loop returns true at the first sample
    * whose truncation is negative, and false once it has seen them all. */
  method HasNegativeNumber(numbers: seq<real>) returns (r: bool)
    ensures r <==> HasNegative(numbers)
    ensures r <==> exists i :: 0 <= i < |numbers| && numbers[i] <= -1.0
    ensures |numbers| == 0 ==> !r
  {
    for i := 0 to |numbers|
      invariant forall k :: 0 <= k < i ==> !ReportedNegative(numbers[k])
    {
      var number := TruncateToInt(numbers[i]);
      if number < 0 {
        ReportedNegativeIff(numbers[i]);
        return true;
      }
    }
    forall k | 0 <= k < |numbers|
      ensures numbers[k] > -1.0
    {
      ReportedNegativeIff(numbers[k]);
    }
    return false;
  }

  /** The answer for a concatenation is the disjunction of the answers for
    * its parts: appending samples never turns true into false. */
  lemma HasNegativeAppend(s: seq<real>, t: seq<real>)
    ensures HasNegative(s + t) <==> HasNegative(s) || HasNegative(t)
  {
    if HasNegative(s + t) {
      var i :| 0 <= i < |s + t| && ReportedNegative((s + t)[i]);
      if i >= |s| {
        assert t[i - |s|] == (s + t)[i];
      }
    }
    if HasNegative(t) {
      var j :| 0 <= j < |t| && ReportedNegative(t[j]);
      assert (s + t)[|s| + j] == t[j];
    }
    if HasNegative(s) {
      var j :| 0 <= j < |s| && ReportedNegative(s[j]);
      assert (s + t)[j] == s[j];
    }
  }

  /** The answer depends only on which samples occur, not on their order or
    * multiplicity. */
  lemma HasNegativeSameElements(s: seq<real>, t: seq<real>)
    requires forall x :: x in s <==> x in t
    ensures HasNegative(s) <==> HasNegative(t)
  {
    if HasNegative(s) {
      var i :| 0 <= i < |s| && ReportedNegative(s[i]);
      assert s[i] in t;
    }
    if HasNegative(t) {
      var j :| 0 <= j < |t| && ReportedNegative(t[j]);
      assert t[j] in s;
    }
  }

  /** In particular a permutation of the samples gives the same answer. */
  lemma HasNegativePermutation(s: seq<real>, t: seq<real>)
    requires multiset(s) == multiset(t)
    ensures HasNegative(s) <==> HasNegative(t)
  {
    forall x
      ensures x in s <==> x in t
    {
      assert x in s <==> x in multiset(s);
      assert x in t <==> x in multiset(t);
    }
    HasNegativeSameElements(s, t);
  }
}

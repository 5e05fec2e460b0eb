/** The weighted score: packages/evaluation/policy/score_calculator.py. */
module Score {
  import opened Wrappers
  import opened Sorting
  import opened Rounding
  import opened Evaluation

  datatype ScoreResult = ScoreResult(overall: Option<real>, eligibleCount: nat, eligibleWeight: int, isScoreable: bool)

  const NO_SCORE := ScoreResult(None, 0, 0, false)

  function Weight(r: CheckResult, checks: map<string, ResolvedCheck>): int {
    if r.checkId in checks then checks[r.checkId].weight else 10
  }

  predicate Eligible(r: CheckResult, checks: map<string, ResolvedCheck>) {
    r.score.Some? && (r.outcome == Pass || r.outcome == Fail || r.outcome == Ambiguous) && Weight(r, checks) > 0
  }

  /** The weight a result brings to the denominator, and its part of the numerator. */
  function Share(r: CheckResult, checks: map<string, ResolvedCheck>): nat {
    if Eligible(r, checks) then Weight(r, checks) else 0
  }

  function Points(r: CheckResult, checks: map<string, ResolvedCheck>): real {
    if Eligible(r, checks) then r.score.value * Weight(r, checks) as real else 0.0
  }

  function TotalWeight(results: seq<CheckResult>, checks: map<string, ResolvedCheck>): nat {
    if results == [] then 0 else TotalWeight(results[..|results| - 1], checks) + Share(results[|results| - 1], checks)
  }

  function WeightedSum(results: seq<CheckResult>, checks: map<string, ResolvedCheck>): real {
    if results == [] then 0.0 else WeightedSum(results[..|results| - 1], checks) + Points(results[|results| - 1], checks)
  }

  function EligibleCount(results: seq<CheckResult>, checks: map<string, ResolvedCheck>): nat {
    if results == [] then 0
    else EligibleCount(results[..|results| - 1], checks) + if Eligible(results[|results| - 1], checks) then 1 else 0
  }

  function Mean(results: seq<CheckResult>, checks: map<string, ResolvedCheck>): real
    requires TotalWeight(results, checks) > 0
  {
    WeightedSum(results, checks) / TotalWeight(results, checks) as real
  }

  function Scored(results: seq<CheckResult>, checks: map<string, ResolvedCheck>): ScoreResult {
    if TotalWeight(results, checks) == 0 then NO_SCORE
    else ScoreResult(Some(Round2(Mean(results, checks))), EligibleCount(results, checks), TotalWeight(results, checks), true)
  }

  method Calculate(results: seq<CheckResult>, checks: map<string, ResolvedCheck>) returns (s: ScoreResult)
    ensures s == Scored(results, checks)
    ensures s.overall.None? <==> forall r :: r in results ==> !Eligible(r, checks)
    ensures s.isScoreable <==> s.overall.Some?
  {
    NothingEligible(results, checks);
    var sum, weight, count := 0.0, 0, 0;
    for i := 0 to |results|
      invariant sum == WeightedSum(results[..i], checks)
      invariant weight == TotalWeight(results[..i], checks)
      invariant count == EligibleCount(results[..i], checks)
    {
      OneMore(results, i, checks);
      var r := results[i];
      var w := if r.checkId in checks then checks[r.checkId].weight else 10;
      if r.score.Some? && (r.outcome == Pass || r.outcome == Fail || r.outcome == Ambiguous) && w > 0 {
        sum := sum + r.score.value * w as real;
        weight := weight + w;
        count := count + 1;
      }
    }
    assert results[..|results|] == results;
    if weight == 0 || count == 0 { return NO_SCORE; }
    s := ScoreResult(Some(Round2(sum / weight as real)), count, weight, true);
  }

  lemma {:induction false} OneMore(results: seq<CheckResult>, i: nat, checks: map<string, ResolvedCheck>)
    requires i < |results|
    ensures WeightedSum(results[..i + 1], checks) == WeightedSum(results[..i], checks) + Points(results[i], checks)
    ensures TotalWeight(results[..i + 1], checks) == TotalWeight(results[..i], checks) + Share(results[i], checks)
    ensures EligibleCount(results[..i + 1], checks)
         == EligibleCount(results[..i], checks) + if Eligible(results[i], checks) then 1 else 0
  {
    assert results[..i + 1][..i] == results[..i];
  }

  // ---------------------------------------------------------------- properties

  lemma {:induction false} NothingEligible(results: seq<CheckResult>, checks: map<string, ResolvedCheck>)
    ensures TotalWeight(results, checks) == 0 <==> forall r :: r in results ==> !Eligible(r, checks)
    ensures TotalWeight(results, checks) == 0 <==> EligibleCount(results, checks) == 0
  {
    if results != [] {
      var n := |results| - 1;
      NothingEligible(results[..n], checks);
      assert results == results[..n] + [results[n]];
    }
  }

  ghost predicate ScoresWithin(results: seq<CheckResult>, checks: map<string, ResolvedCheck>, lo: real, hi: real) {
    forall r :: r in results && Eligible(r, checks) ==> lo <= r.score.value <= hi
  }

  /** n copies of c, added up: a product whose proofs stay linear. */
  function Times(c: real, n: nat): real { if n == 0 then 0.0 else Times(c, n - 1) + c }

  lemma {:induction false} TimesAdd(c: real, m: nat, n: nat)
    ensures Times(c, m + n) == Times(c, m) + Times(c, n)
  {
    if n > 0 { TimesAdd(c, m, n - 1); }
  }

  lemma {:induction false} TimesMonotone(x: real, y: real, n: nat)
    requires x <= y
    ensures Times(x, n) <= Times(y, n)
  {
    if n > 0 { TimesMonotone(x, y, n - 1); }
  }

  lemma {:induction false} TimesIsProduct(c: real, n: nat)
    ensures Times(c, n) == c * n as real
  {
    if n > 0 {
      TimesIsProduct(c, n - 1);
      assert c * (n - 1) as real + c == c * n as real;
    }
  }

  lemma PointsWithin(r: CheckResult, checks: map<string, ResolvedCheck>, lo: real, hi: real)
    requires Eligible(r, checks) ==> lo <= r.score.value <= hi
    ensures Times(lo, Share(r, checks)) <= Points(r, checks) <= Times(hi, Share(r, checks))
  {
    if Eligible(r, checks) {
      TimesIsProduct(r.score.value, Share(r, checks));
      TimesMonotone(lo, r.score.value, Share(r, checks));
      TimesMonotone(r.score.value, hi, Share(r, checks));
    }
  }

  lemma {:induction false} SumWithin(results: seq<CheckResult>, checks: map<string, ResolvedCheck>, lo: real, hi: real)
    requires ScoresWithin(results, checks, lo, hi)
    ensures Times(lo, TotalWeight(results, checks)) <= WeightedSum(results, checks)
    ensures WeightedSum(results, checks) <= Times(hi, TotalWeight(results, checks))
  {
    if results != [] {
      var n := |results| - 1;
      var r := results[n];
      assert r in results;
      SumWithin(results[..n], checks, lo, hi);
      PointsWithin(r, checks, lo, hi);
      TimesAdd(lo, TotalWeight(results[..n], checks), Share(r, checks));
      TimesAdd(hi, TotalWeight(results[..n], checks), Share(r, checks));
    }
  }

  lemma Quotient(a: real, b: real, c: real)
    requires b > 0.0
    ensures a <= c * b ==> a / b <= c
    ensures c * b <= a ==> c <= a / b
  {
    var q := a / b;
    assert q * b == a;
    if q > c { assert (q - c) * b > 0.0; }
    if q < c { assert (c - q) * b > 0.0; }
  }

  lemma QuotientMonotone(x: real, y: real, t: real)
    requires t > 0.0 && x <= y
    ensures x / t <= y / t
  {
    assert (y / t) * t == y;
    Quotient(x, t, y / t);
  }

  lemma QuotientWithin(sum: real, n: nat, lo: real, hi: real)
    requires n > 0 && Times(lo, n) <= sum <= Times(hi, n)
    ensures lo <= sum / n as real <= hi
  {
    TimesIsProduct(lo, n);
    TimesIsProduct(hi, n);
    Quotient(sum, n as real, lo);
    Quotient(sum, n as real, hi);
  }

  /** The score lies between the least and greatest eligible scores, up to its own rounding. */
  lemma ScoreWithin(results: seq<CheckResult>, checks: map<string, ResolvedCheck>, lo: real, hi: real)
    requires ScoresWithin(results, checks, lo, hi) && Scored(results, checks).overall.Some?
    ensures lo <= Mean(results, checks) <= hi
    ensures Round2(lo) <= Scored(results, checks).overall.value <= Round2(hi)
  {
    SumWithin(results, checks, lo, hi);
    QuotientWithin(WeightedSum(results, checks), TotalWeight(results, checks), lo, hi);
    Round2Facts(lo, Mean(results, checks));
    Round2Facts(Mean(results, checks), hi);
  }

  lemma {:induction false} SumsAppend(a: seq<CheckResult>, b: seq<CheckResult>, checks: map<string, ResolvedCheck>)
    ensures TotalWeight(a + b, checks) == TotalWeight(a, checks) + TotalWeight(b, checks)
    ensures WeightedSum(a + b, checks) == WeightedSum(a, checks) + WeightedSum(b, checks)
    ensures EligibleCount(a + b, checks) == EligibleCount(a, checks) + EligibleCount(b, checks)
  {
    if b == [] {
      assert a + b == a;
    } else {
      var n := |b| - 1;
      SumsAppend(a, b[..n], checks);
      assert (a + b)[..|a + b| - 1] == a + b[..n];
    }
  }

  /** Reordering the results never changes the score. */
  lemma {:induction false} ScoreIgnoresOrder(a: seq<CheckResult>, b: seq<CheckResult>, checks: map<string, ResolvedCheck>)
    requires multiset(a) == multiset(b)
    ensures TotalWeight(a, checks) == TotalWeight(b, checks)
    ensures WeightedSum(a, checks) == WeightedSum(b, checks)
    ensures EligibleCount(a, checks) == EligibleCount(b, checks)
    ensures Scored(a, checks) == Scored(b, checks)
  {
    if a == [] {
      assert |b| == |multiset(b)| == 0;
    } else {
      var j := RemoveHead(a, b);
      var l, m, r := b[..j], [b[j]], b[j + 1..];
      ScoreIgnoresOrder(a[1..], l + r, checks);
      assert a == m + a[1..] && b == l + (m + r);
      SumsAppend(m, a[1..], checks);
      SumsAppend(l, m + r, checks);
      SumsAppend(m, r, checks);
      SumsAppend(l, r, checks);
    }
  }

  /** b is a with some scores raised and nothing else changed. */
  ghost predicate Raised(a: seq<CheckResult>, b: seq<CheckResult>) {
    && |a| == |b|
    && forall i :: 0 <= i < |a| ==> RaisedOne(a[i], b[i])
  }

  predicate RaisedOne(r: CheckResult, q: CheckResult) {
    && q == r.(score := q.score)
    && (r.score.Some? <==> q.score.Some?)
    && (r.score.Some? ==> r.score.value <= q.score.value)
  }

  lemma PointsMonotone(r: CheckResult, q: CheckResult, checks: map<string, ResolvedCheck>)
    requires RaisedOne(r, q)
    ensures Share(r, checks) == Share(q, checks) && Points(r, checks) <= Points(q, checks)
  {
    if Eligible(r, checks) {
      TimesMonotone(r.score.value, q.score.value, Weight(r, checks));
      TimesIsProduct(r.score.value, Weight(r, checks));
      TimesIsProduct(q.score.value, Weight(q, checks));
    }
  }

  lemma {:induction false} SumMonotone(a: seq<CheckResult>, b: seq<CheckResult>, checks: map<string, ResolvedCheck>)
    requires Raised(a, b)
    ensures TotalWeight(a, checks) == TotalWeight(b, checks)
    ensures WeightedSum(a, checks) <= WeightedSum(b, checks)
  {
    if a != [] {
      var n := |a| - 1;
      SumMonotone(a[..n], b[..n], checks);
      PointsMonotone(a[n], b[n], checks);
    }
  }

  /** Raising any scores never lowers the overall score, nor makes it appear or disappear. */
  lemma ScoreMonotone(a: seq<CheckResult>, b: seq<CheckResult>, checks: map<string, ResolvedCheck>)
    requires Raised(a, b)
    ensures Scored(a, checks).overall.Some? <==> Scored(b, checks).overall.Some?
    ensures Scored(a, checks).overall.Some? ==> Scored(a, checks).overall.value <= Scored(b, checks).overall.value
  {
    SumMonotone(a, b, checks);
    if Scored(a, checks).overall.Some? {
      QuotientMonotone(WeightedSum(a, checks), WeightedSum(b, checks), TotalWeight(a, checks) as real);
      Round2Facts(Mean(a, checks), Mean(b, checks));
    }
  }

  function FailedWeight(results: seq<CheckResult>, checks: map<string, ResolvedCheck>): nat {
    if results == [] then 0
    else
      var r := results[|results| - 1];
      FailedWeight(results[..|results| - 1], checks) + if r.outcome == Fail then Share(r, checks) else 0
  }

  lemma {:induction false} FailuresCost(results: seq<CheckResult>, checks: map<string, ResolvedCheck>)
    requires ScoresWithin(results, checks, 0.0, 100.0)
    requires forall r :: r in results && r.outcome == Fail && r.score.Some? ==> r.score.value == 0.0
    ensures WeightedSum(results, checks) + Times(100.0, FailedWeight(results, checks))
         <= Times(100.0, TotalWeight(results, checks))
  {
    if results != [] {
      var n := |results| - 1;
      var r := results[n];
      assert r in results;
      FailuresCost(results[..n], checks);
      PointsWithin(r, checks, 0.0, if r.outcome == Fail then 0.0 else 100.0);
      TimesIsProduct(0.0, Share(r, checks));
      TimesAdd(100.0, TotalWeight(results[..n], checks), Share(r, checks));
      TimesAdd(100.0, FailedWeight(results[..n], checks), if r.outcome == Fail then Share(r, checks) else 0);
    }
  }

  /** In percent of the weight, with half a step of rounding. */
  predicate FailsAtMost(failed: nat, total: nat, threshold: real) {
    100.0 * failed as real <= (100.005 - threshold) * total as real
  }

  /** When failures score 0 and nothing scores above 100, a score of at least the threshold leaves
      failures at most the missing percentage of the weight, plus half a rounding step. */
  lemma {:induction false} PassingScoreBoundsFailures(results: seq<CheckResult>, checks: map<string, ResolvedCheck>, threshold: real)
    requires ScoresWithin(results, checks, 0.0, 100.0)
    requires forall r :: r in results && r.outcome == Fail && r.score.Some? ==> r.score.value == 0.0
    requires Scored(results, checks).overall.Some? && Scored(results, checks).overall.value >= threshold
    ensures FailsAtMost(FailedWeight(results, checks), TotalWeight(results, checks), threshold)
  {
    SumAtLeast(results, checks, threshold);
    FailedShare(results, checks, threshold);
  }

  lemma {:induction false} FailedShare(results: seq<CheckResult>, checks: map<string, ResolvedCheck>, threshold: real)
    requires ScoresWithin(results, checks, 0.0, 100.0)
    requires forall r :: r in results && r.outcome == Fail && r.score.Some? ==> r.score.value == 0.0
    requires WeightedSum(results, checks) >= Times(threshold - 0.005, TotalWeight(results, checks))
    ensures FailsAtMost(FailedWeight(results, checks), TotalWeight(results, checks), threshold)
  {
    FailuresCost(results, checks);
    FailedPart(FailedWeight(results, checks), TotalWeight(results, checks), threshold);
  }

  lemma {:induction false} SumAtLeast(results: seq<CheckResult>, checks: map<string, ResolvedCheck>, threshold: real)
    requires Scored(results, checks).overall.Some? && Scored(results, checks).overall.value >= threshold
    ensures WeightedSum(results, checks) >= Times(threshold - 0.005, TotalWeight(results, checks))
  {
    RoundedAtLeast(Mean(results, checks), threshold);
    AtLeastMean(WeightedSum(results, checks), TotalWeight(results, checks), threshold - 0.005);
  }

  lemma RoundedAtLeast(mean: real, threshold: real)
    requires Round2(mean) >= threshold
    ensures mean >= threshold - 0.005
  {
    Round2Facts(mean, mean);
  }

  lemma AtLeastMean(sum: real, t: nat, c: real)
    requires t > 0 && sum / t as real >= c
    ensures sum >= Times(c, t)
  {
    TimesMonotone(c, sum / t as real, t);
    TimesIsProduct(sum / t as real, t);
  }

  lemma {:induction false} FailedPart(failed: nat, total: nat, threshold: real)
    requires Times(threshold - 0.005, total) + Times(100.0, failed) <= Times(100.0, total)
    ensures FailsAtMost(failed, total, threshold)
  {
    TimesIsProduct(100.0, total);
    TimesIsProduct(100.0, failed);
    TimesIsProduct(threshold - 0.005, total);
  }
}

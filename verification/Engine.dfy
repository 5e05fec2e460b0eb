/** The evaluation pipeline, from checks to gate: packages/evaluation/engine.py, lines 141-248. */
module Engine {
  import opened Wrappers
  import opened Evaluation
  import opened Adjudication
  import opened Score
  import opened Gate
  import Rounding

  /** What an evaluator finds; it copies the check's id and criticality onto its result. */
  datatype Finding = Finding(outcome: Outcome, confidence: Option<real>, score: Option<real>, reasons: seq<string>)

  type Evaluator = ResolvedCheck -> Finding

  datatype Settings = Settings(policy: Policy, sampleRate: real)

  function ResultOf(check: ResolvedCheck, f: Finding): CheckResult {
    CheckResult(check.id, check.isCritical, f.outcome, f.confidence, f.score, f.reasons)
  }

  function Results(checks: seq<ResolvedCheck>, evaluate: Evaluator): seq<CheckResult> {
    seq(|checks|, i requires 0 <= i < |checks| => ResultOf(checks[i], evaluate(checks[i])))
  }

  /** Checks by id; a repeated id would keep its last check. */
  function ById(checks: seq<ResolvedCheck>): map<string, ResolvedCheck> {
    if checks == [] then map[]
    else ById(checks[..|checks| - 1])[checks[|checks| - 1].id := checks[|checks| - 1]]
  }

  /** The case the gate sees: adjudicated results and their score, or nothing if the transcript is bad. */
  function CaseFor(
      sale: string, version: string, valid: bool, checks: seq<ResolvedCheck>, evaluate: Evaluator,
      ai: Adjudicator, s: Settings): Case
  {
    if !valid then Case(sale, version, false, [], |checks|, NO_SCORE, PASSING_SCORE, CLEAN_CALL_SAMPLE_RATE)
    else
      var final := AdjudicatedAll(Results(checks, evaluate), ById(checks), ai, s.policy);
      Case(sale, version, true, final, |checks|, Scored(final, ById(checks)), PASSING_SCORE, s.sampleRate)
  }

  method ExecuteEvaluation(
      sale: string, version: string, valid: bool, checks: seq<ResolvedCheck>, evaluate: Evaluator,
      ai: Adjudicator, s: Settings, digest: Digest)
    returns (d: Decision, results: seq<CheckResult>, score: ScoreResult)
    ensures Decides(CaseFor(sale, version, valid, checks, evaluate, ai, s), digest, d)
    ensures results == CaseFor(sale, version, valid, checks, evaluate, ai, s).results
    ensures score == CaseFor(sale, version, valid, checks, evaluate, ai, s).score
  {
    if !valid {
      results, score := [], NO_SCORE;
      d := EvaluateGate(Case(sale, version, false, [], |checks|, score, PASSING_SCORE, CLEAN_CALL_SAMPLE_RATE), digest);
      return;
    }
    results := [];
    var byId := map[];
    for i := 0 to |checks|
      invariant results == Results(checks[..i], evaluate)
      invariant byId == ById(checks[..i])
    {
      assert checks[..i + 1][..i] == checks[..i];
      results := results + [ResultOf(checks[i], evaluate(checks[i]))];
      byId := byId[checks[i].id := checks[i]];
    }
    assert checks[..|checks|] == checks;
    results := AdjudicateResults(results, byId, ai, s.policy);
    score := Calculate(results, byId);
    d := EvaluateGate(Case(sale, version, true, results, |checks|, score, PASSING_SCORE, s.sampleRate), digest);
  }

  /** Check ids are the definitions' primary key; all that is needed here is that two checks with one
      id agree on being critical. */
  ghost predicate Consistent(checks: seq<ResolvedCheck>) {
    forall i, j :: 0 <= i < |checks| && 0 <= j < |checks| && checks[i].id == checks[j].id
                   ==> checks[i].isCritical == checks[j].isCritical
  }

  lemma {:induction false} ByIdFinds(checks: seq<ResolvedCheck>, i: nat)
    requires i < |checks|
    ensures checks[i].id in ById(checks)
    ensures exists j :: 0 <= j < |checks| && checks[j] == ById(checks)[checks[i].id] && checks[j].id == checks[i].id
  {
    var n := |checks| - 1;
    if checks[i].id == checks[n].id {
      assert checks[n] == ById(checks)[checks[i].id];
    } else {
      ByIdFinds(checks[..n], i);
      var j :| 0 <= j < n && checks[..n][j] == ById(checks[..n])[checks[i].id] && checks[..n][j].id == checks[i].id;
      assert checks[j] == ById(checks)[checks[i].id];
    }
  }

  /** AI proposes, policy decides: whatever the adjudicator answers, without the opt-in no sale passes
      the gate while any critical check was not already a PASS before adjudication. */
  lemma NoUnresolvedCriticalPasses(
      sale: string, version: string, valid: bool, checks: seq<ResolvedCheck>, evaluate: Evaluator,
      ai: Adjudicator, s: Settings, digest: Digest, d: Decision)
    requires Consistent(checks) && WithholdsOnCritical(s.policy)
    requires Decides(CaseFor(sale, version, valid, checks, evaluate, ai, s), digest, d)
    ensures d.status == Passed ==>
        valid && forall i :: 0 <= i < |checks| && checks[i].isCritical ==> evaluate(checks[i]).outcome == Pass
  {
    var c := CaseFor(sale, version, valid, checks, evaluate, ai, s);
    if d.status == Passed {
      PassedMeans(c, digest, d);
      forall i | 0 <= i < |checks| && checks[i].isCritical ensures evaluate(checks[i]).outcome == Pass {
        var r := Results(checks, evaluate)[i];
        ByIdFinds(checks, i);
        ProposalsAreBounded(r, ById(checks), ai, s.policy);
        assert c.results[i] == Adjudicated(r, ById(checks), ai, s.policy);
        assert c.results[i] in c.results;
      }
    }
  }

  /** The opt-in is what the promise rests on: with it, one confident answer is enough to pass a sale
      whose only critical check was unresolved. */
  lemma OptInLetsProposalPass(
      sale: string, version: string, check: ResolvedCheck, evaluate: Evaluator, ai: Adjudicator,
      s: Settings, digest: Digest, d: Decision)
    requires !WithholdsOnCritical(s.policy) && s.policy.resolvedConfidence >= CONFIDENCE_THRESHOLD
    requires s.sampleRate <= 0.0 && check.isCritical && check.weight > 0
    requires evaluate(check).outcome == Ambiguous
    requires ai(ResultOf(check, evaluate(check)), check).kind == Satisfied
    requires ai(ResultOf(check, evaluate(check)), check).confidence >= s.policy.minConfidence
    requires Decides(CaseFor(sale, version, true, [check], evaluate, ai, s), digest, d)
    ensures d.status == Passed && d.autoSubmitted
  {
    var c := CaseFor(sale, version, true, [check], evaluate, ai, s);
    assert [check][..0] == [];
    assert ById([check]) == map[check.id := check];
    var r := c.results[0];
    assert c.results == [r];
    assert r == Adjudicated(ResultOf(check, evaluate(check)), ById([check]), ai, s.policy);
    PerfectScore(r, ById([check]));
    PassedIffAllClear(c, digest, d);
    forall row | 1 <= row <= 10 ensures !Applies(row, c, digest) {
      assert forall x :: x in c.results ==> x == r;
    }
  }

  lemma PerfectScore(r: CheckResult, checks: map<string, ResolvedCheck>)
    requires r.outcome == Pass && r.score == Some(100.0) && r.checkId in checks && checks[r.checkId].weight > 0
    ensures Scored([r], checks).isScoreable && Scored([r], checks).overall == Some(100.0)
  {
    assert [r][..0] == [];
    assert TotalWeight([r], checks) == TotalWeight([], checks) + Share(r, checks);
    ScoreWithin([r], checks, 100.0, 100.0);
    HundredRounds();
  }

  lemma HundredRounds()
    ensures Rounding.Round2(100.0) == 100.0
  {
    Rounding.RoundInteger(10000);
  }

  /** A passed sale has failed at most 15.005% of its eligible weight, when failures score 0. */
  lemma PassedSaleFailsLittle(
      sale: string, version: string, checks: seq<ResolvedCheck>, evaluate: Evaluator,
      ai: Adjudicator, s: Settings, digest: Digest, d: Decision)
    requires Decides(CaseFor(sale, version, true, checks, evaluate, ai, s), digest, d) && d.status == Passed
    requires forall check :: check in checks ==> InRange(evaluate(check).outcome, evaluate(check).score)
    ensures
      var c := CaseFor(sale, version, true, checks, evaluate, ai, s);
      100.0 * FailedWeight(c.results, ById(checks)) as real <= 15.005 * TotalWeight(c.results, ById(checks)) as real
  {
    var c := CaseFor(sale, version, true, checks, evaluate, ai, s);
    PassedMeans(c, digest, d);
    ScoresStayInRange(checks, evaluate, ai, s);
    assert forall r :: r in c.results ==> InRange(r.outcome, r.score);
    PassingScoreBoundsFailures(c.results, ById(checks), PASSING_SCORE);
  }

  predicate InRange(outcome: Outcome, score: Option<real>) {
    score.Some? ==> 0.0 <= score.value <= 100.0 && (outcome == Fail ==> score.value == 0.0)
  }

  lemma ScoresStayInRange(checks: seq<ResolvedCheck>, evaluate: Evaluator, ai: Adjudicator, s: Settings)
    requires forall check :: check in checks ==> InRange(evaluate(check).outcome, evaluate(check).score)
    ensures
      var results := AdjudicatedAll(Results(checks, evaluate), ById(checks), ai, s.policy);
      forall r :: r in results ==> InRange(r.outcome, r.score)
  {
    var results := AdjudicatedAll(Results(checks, evaluate), ById(checks), ai, s.policy);
    forall r | r in results ensures InRange(r.outcome, r.score) {
      var i :| 0 <= i < |results| && results[i] == r;
      AdjudicationStaysInRange(ResultOf(checks[i], evaluate(checks[i])), ById(checks), ai, s.policy);
    }
  }

  lemma AdjudicationStaysInRange(r: CheckResult, checks: map<string, ResolvedCheck>, ai: Adjudicator, p: Policy)
    requires InRange(r.outcome, r.score)
    ensures InRange(Adjudicated(r, checks, ai, p).outcome, Adjudicated(r, checks, ai, p).score)
  {
  }
}

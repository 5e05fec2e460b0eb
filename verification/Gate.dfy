/** The deterministic gate: packages/evaluation/policy/gate_engine.py. */
module Gate {
  import opened Wrappers
  import opened Sorting
  import opened Rounding
  import opened Evaluation
  import opened Score

  const PASSING_SCORE := 85.0
  const CONFIDENCE_THRESHOLD := 0.80
  const CLEAN_CALL_SAMPLE_RATE := 0.05

  datatype Reason =
    | TranscriptIncomplete | CriticalCheckFailed | CriticalCheckExecutionError | UnsupportedCriticalCheck
    | LowConfidenceOrAmbiguous | NoApplicableChecks | NoScoreableChecks | ScoreBelowThreshold
    | ManualReviewRequested | SampledForCalibration | AllCriticalChecksPassed

  datatype Decision = Decision(
    status: GateStatus, reason: Reason, overallScore: Option<real>, autoSubmitted: bool, blocking: seq<string>)

  datatype Case = Case(
    saleId: string, policyVersion: string, integrityValid: bool, results: seq<CheckResult>, resolvedCount: nat,
    score: ScoreResult, threshold: real, sampleRate: real)

  /** The leading 32 bits of the digest of policy version and sale id. */
  type Digest = (string, string) -> nat

  function Bucket(saleId: string, policyVersion: string, digest: Digest): nat { digest(policyVersion, saleId) % 10000 }

  function IsSampled(saleId: string, policyVersion: string, rate: real, digest: Digest): bool {
    if rate <= 0.0 then false
    else if rate >= 1.0 then true
    else Bucket(saleId, policyVersion, digest) < Round(rate * 10000.0)
  }

  // ---------------------------------------------------------------- the truth table

  function CriticalWith(o: Outcome): CheckResult -> bool { (r: CheckResult) => r.isCritical && r.outcome == o }

  /** A critical result that is ambiguous, or passed without enough confidence. */
  predicate Doubtful(r: CheckResult) {
    r.isCritical && (r.outcome == Ambiguous
                     || (r.outcome == Pass && r.confidence.Some? && r.confidence.value < CONFIDENCE_THRESHOLD))
  }

  predicate OpenQuestion(r: CheckResult) { !r.isCritical && r.outcome == Ambiguous }

  function Ids(results: seq<CheckResult>): seq<string> {
    seq(|results|, i requires 0 <= i < |results| => results[i].checkId)
  }

  /** The eleven rows: when each applies, what it decides, and which checks it blames. */
  ghost predicate Applies(row: int, c: Case, digest: Digest) {
    (row == 1 && !c.integrityValid)
    || (row == 2 && exists r :: r in c.results && r.isCritical && r.outcome == Fail)
    || (row == 3 && exists r :: r in c.results && r.isCritical && r.outcome == NotEvaluable)
    || (row == 4 && exists r :: r in c.results && r.isCritical && r.outcome == Unsupported)
    || (row == 5 && exists r :: r in c.results && Doubtful(r))
    || (row == 6 && c.resolvedCount == 0)
    || (row == 7 && (!c.score.isScoreable || c.score.overall.None?))
    || (row == 8 && c.score.overall.Some? && c.score.overall.value < c.threshold)
    || (row == 9 && exists r :: r in c.results && OpenQuestion(r))
    || (row == 10 && IsSampled(c.saleId, c.policyVersion, c.sampleRate, digest))
    || row == 11
  }

  function ReasonOf(row: int): Reason {
    if row == 1 then TranscriptIncomplete else if row == 2 then CriticalCheckFailed
    else if row == 3 then CriticalCheckExecutionError else if row == 4 then UnsupportedCriticalCheck
    else if row == 5 then LowConfidenceOrAmbiguous else if row == 6 then NoApplicableChecks
    else if row == 7 then NoScoreableChecks else if row == 8 then ScoreBelowThreshold
    else if row == 9 then ManualReviewRequested else if row == 10 then SampledForCalibration
    else AllCriticalChecksPassed
  }

  function StatusOf(row: int): GateStatus {
    if row in {1, 2, 3, 4, 8} then Held else if row in {5, 6, 7, 9, 10} then ReviewRequired else Passed
  }

  function BlockingOf(row: int, results: seq<CheckResult>): seq<string> {
    if row == 2 then Ids(Filter(CriticalWith(Fail), results))
    else if row == 3 then Ids(Filter(CriticalWith(NotEvaluable), results))
    else if row == 4 then Ids(Filter(CriticalWith(Unsupported), results))
    else if row == 5 then Ids(Filter(Doubtful, results))
    else if row == 9 then Ids(Filter(OpenQuestion, results))
    else []
  }

  /** d is what the first applicable row of the table says. */
  ghost predicate DecidedBy(row: int, c: Case, digest: Digest, d: Decision) {
    && 1 <= row <= 11 && Applies(row, c, digest)
    && (forall earlier :: 1 <= earlier < row ==> !Applies(earlier, c, digest))
    && d == DecisionOf(row, c)
  }

  function DecisionOf(row: int, c: Case): Decision {
    Decision(StatusOf(row), ReasonOf(row), if row == 7 then None else c.score.overall, row == 11,
             BlockingOf(row, c.results))
  }

  ghost predicate Decides(c: Case, digest: Digest, d: Decision) {
    exists row :: DecidedBy(row, c, digest, d)
  }

  // ---------------------------------------------------------------- the engine

  method Categorize(results: seq<CheckResult>)
    returns (failed: seq<string>, error: seq<string>, unsupported: seq<string>, doubtful: seq<string>)
    ensures failed == Ids(Filter(CriticalWith(Fail), results))
    ensures error == Ids(Filter(CriticalWith(NotEvaluable), results))
    ensures unsupported == Ids(Filter(CriticalWith(Unsupported), results))
    ensures doubtful == Ids(Filter(Doubtful, results))
  {
    failed, error, unsupported, doubtful := [], [], [], [];
    for i := 0 to |results|
      invariant failed == Ids(Filter(CriticalWith(Fail), results[..i]))
      invariant error == Ids(Filter(CriticalWith(NotEvaluable), results[..i]))
      invariant unsupported == Ids(Filter(CriticalWith(Unsupported), results[..i]))
      invariant doubtful == Ids(Filter(Doubtful, results[..i]))
    {
      var r := results[i];
      IdsGrow(CriticalWith(Fail), results, i);
      IdsGrow(CriticalWith(NotEvaluable), results, i);
      IdsGrow(CriticalWith(Unsupported), results, i);
      IdsGrow(Doubtful, results, i);
      if r.isCritical {
        if r.outcome == Fail {
          failed := failed + [r.checkId];
        } else if r.outcome == NotEvaluable {
          error := error + [r.checkId];
        } else if r.outcome == Unsupported {
          unsupported := unsupported + [r.checkId];
        } else if r.outcome == Ambiguous {
          doubtful := doubtful + [r.checkId];
        } else if r.confidence.Some? && r.confidence.value < CONFIDENCE_THRESHOLD {
          doubtful := doubtful + [r.checkId];
        }
      }
    }
    assert results[..|results|] == results;
  }

  /** The rows that a critical result can trigger, first; the others once those are clear. */
  method EvaluateGate(c: Case, digest: Digest) returns (d: Decision)
    ensures Decides(c, digest, d)
  {
    BlockingEmptyIff(c.results);
    if !c.integrityValid {
      d := Decision(Held, TranscriptIncomplete, c.score.overall, false, []);
      Settles(1, c, digest);
      return;
    }
    var failed, error, unsupported, doubtful := Categorize(c.results);
    if failed != [] {
      d := Decision(Held, CriticalCheckFailed, c.score.overall, false, failed);
      Settles(2, c, digest);
    } else if error != [] {
      d := Decision(Held, CriticalCheckExecutionError, c.score.overall, false, error);
      Settles(3, c, digest);
    } else if unsupported != [] {
      d := Decision(Held, UnsupportedCriticalCheck, c.score.overall, false, unsupported);
      Settles(4, c, digest);
    } else if doubtful != [] {
      d := Decision(ReviewRequired, LowConfidenceOrAmbiguous, c.score.overall, false, doubtful);
      Settles(5, c, digest);
    } else {
      d := EvaluateScore(c, digest);
    }
  }

  method EvaluateScore(c: Case, digest: Digest) returns (d: Decision)
    requires forall row :: 1 <= row <= 5 ==> !Applies(row, c, digest)
    ensures Decides(c, digest, d)
  {
    SomeIff(OpenQuestion, c.results);
    var open := Ids(Filter(OpenQuestion, c.results));
    var row;
    if c.resolvedCount == 0 {
      d, row := Decision(ReviewRequired, NoApplicableChecks, c.score.overall, false, []), 6;
    } else if !c.score.isScoreable || c.score.overall.None? {
      d, row := Decision(ReviewRequired, NoScoreableChecks, None, false, []), 7;
    } else if c.score.overall.value < c.threshold {
      d, row := Decision(Held, ScoreBelowThreshold, c.score.overall, false, []), 8;
    } else if open != [] {
      d, row := Decision(ReviewRequired, ManualReviewRequested, c.score.overall, false, open), 9;
    } else if IsSampled(c.saleId, c.policyVersion, c.sampleRate, digest) {
      d, row := Decision(ReviewRequired, SampledForCalibration, c.score.overall, false, []), 10;
    } else {
      d, row := Decision(Passed, AllCriticalChecksPassed, c.score.overall, true, []), 11;
    }
    Settles(row, c, digest);
  }

  lemma Settles(row: int, c: Case, digest: Digest)
    requires 1 <= row <= 11 && Applies(row, c, digest)
    requires forall earlier :: 1 <= earlier < row ==> !Applies(earlier, c, digest)
    ensures Decides(c, digest, DecisionOf(row, c))
  {
    assert DecidedBy(row, c, digest, DecisionOf(row, c));
  }

  // ---------------------------------------------------------------- properties

  lemma {:induction false} IdsGrow(p: CheckResult -> bool, results: seq<CheckResult>, i: nat)
    requires i < |results|
    ensures Ids(Filter(p, results[..i + 1]))
         == if p(results[i]) then Ids(Filter(p, results[..i])) + [results[i].checkId] else Ids(Filter(p, results[..i]))
  {
    assert results[..i + 1] == results[..i] + [results[i]];
    FilterAppend(p, results[..i], [results[i]]);
    FilterCons(p, results[i], []);
    assert [results[i]] + [] == [results[i]];
  }

  lemma BlockingEmptyIff(results: seq<CheckResult>)
    ensures BlockingOf(2, results) != [] <==> exists r :: r in results && r.isCritical && r.outcome == Fail
    ensures BlockingOf(3, results) != [] <==> exists r :: r in results && r.isCritical && r.outcome == NotEvaluable
    ensures BlockingOf(4, results) != [] <==> exists r :: r in results && r.isCritical && r.outcome == Unsupported
    ensures BlockingOf(5, results) != [] <==> exists r :: r in results && Doubtful(r)
    ensures BlockingOf(9, results) != [] <==> exists r :: r in results && OpenQuestion(r)
  {
    SomeIff(CriticalWith(Fail), results);
    SomeIff(CriticalWith(NotEvaluable), results);
    SomeIff(CriticalWith(Unsupported), results);
    SomeIff(Doubtful, results);
    SomeIff(OpenQuestion, results);
  }

  lemma SomeIff(p: CheckResult -> bool, results: seq<CheckResult>)
    ensures Filter(p, results) != [] <==> exists r :: r in results && p(r)
  {
    FilterIn(p, results);
    if Filter(p, results) != [] {
      assert Filter(p, results)[0] in Filter(p, results);
    }
  }

  /** The gate opens exactly when every one of the ten blocking rows is clear, a sale is submitted
      automatically exactly when it opens, and the decision is unique. */
  lemma PassedIffAllClear(c: Case, digest: Digest, d: Decision)
    requires Decides(c, digest, d)
    ensures d.status == Passed <==> forall row :: 1 <= row <= 10 ==> !Applies(row, c, digest)
    ensures d.autoSubmitted <==> d.status == Passed
    ensures d.status == Passed || d.status == Held || d.status == ReviewRequired
    ensures forall e :: Decides(c, digest, e) ==> e == d
  {
    var row :| DecidedBy(row, c, digest, d);
    forall e | Decides(c, digest, e) ensures e == d {
      var other :| DecidedBy(other, c, digest, e);
      assert !(row < other) && !(other < row);
    }
  }

  /** In particular a passed sale has every critical check passed with confidence, at or above the
      threshold. */
  lemma PassedMeans(c: Case, digest: Digest, d: Decision)
    requires Decides(c, digest, d) && d.status == Passed
    ensures c.integrityValid && c.resolvedCount > 0
    ensures forall r :: r in c.results && r.isCritical ==>
        r.outcome == Pass && (r.confidence.Some? ==> r.confidence.value >= CONFIDENCE_THRESHOLD)
    ensures c.score.overall.Some? && c.score.overall.value >= c.threshold && d.overallScore == c.score.overall
    ensures !IsSampled(c.saleId, c.policyVersion, c.sampleRate, digest)
  {
    PassedIffAllClear(c, digest, d);
    assert !Applies(1, c, digest) && !Applies(2, c, digest) && !Applies(3, c, digest) && !Applies(4, c, digest);
    assert !Applies(5, c, digest) && !Applies(6, c, digest) && !Applies(7, c, digest) && !Applies(8, c, digest);
    assert !Applies(10, c, digest);
    forall r | r in c.results && r.isCritical
      ensures r.outcome == Pass && (r.confidence.Some? ==> r.confidence.value >= CONFIDENCE_THRESHOLD)
    {
      assert !Doubtful(r);
    }
  }

  /** Raising the rate only ever adds sales to the sample. */
  lemma SamplingIsNested(sale: string, policy: string, rate: real, higher: real, digest: Digest)
    requires rate <= higher && IsSampled(sale, policy, rate, digest)
    ensures IsSampled(sale, policy, higher, digest)
  {
    if rate < 1.0 && higher < 1.0 {
      RoundMonotone(rate * 10000.0, higher * 10000.0);
    }
  }

  /** Buckets are 1 in 10000, so a rate reaches anyone at all only from above half a bucket. */
  lemma SmallRatesSampleNobody(sale: string, policy: string, rate: real)
    ensures rate <= 0.00005 <==> forall digest: Digest :: !IsSampled(sale, policy, rate, digest)
  {
    if rate > 0.00005 {
      var first: Digest := (p: string, s: string) => 0;
      if rate < 1.0 {
        var x := rate * 10000.0;
        assert x > 0.5;
        assert Round(x) >= 1;
      }
      assert IsSampled(sale, policy, rate, first);
    }
  }
}

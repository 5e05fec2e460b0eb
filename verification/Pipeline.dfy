/** The whole decision path: transcript checks, evaluators, AI proposals, score, gate, the records a worker files,
    and any human reviews. */
module Pipeline {
  import opened Wrappers
  import opened Evaluation
  import opened Adjudication
  import opened Gate
  import opened Engine
  import HumanReview
  import TranscriptValidator
  import Jobs
  import WorkerTasks
  import WorkerRuns

  /** A sale ends up PASSED only if every critical check was found PASS by the deterministic
      evaluators, or a person overrode the gate as their last accepted review. Nothing the model
      says can substitute for either; and an automatic submission always is the first case. */
  lemma PassedMeansVerifiedOrOverridden(
      sale: string, version: string, valid: bool, checks: seq<ResolvedCheck>, evaluate: Evaluator,
      ai: Adjudicator, s: Settings, digest: Digest, d: Decision, gate: string, reviews: seq<HumanReview.Action>)
    requires Consistent(checks) && WithholdsOnCritical(s.policy)
    requires Decides(CaseFor(sale, version, valid, checks, evaluate, ai, s), digest, d)
    ensures
      var g := HumanReview.After(d.status, gate, reviews);
      var verified := valid && forall i :: 0 <= i < |checks| && checks[i].isCritical ==> evaluate(checks[i]).outcome == Pass;
      && (g.status == Passed ==>
            verified || (g.accepted != [] && g.accepted[|g.accepted| - 1] == HumanReview.OverrideToPass))
      && (d.autoSubmitted ==> verified && g.accepted == [])
      && (forall n :: 0 <= n < |reviews| ==>
            HumanReview.Legal(HumanReview.After(d.status, gate, reviews[..n]).status,
                              HumanReview.After(d.status, gate, reviews[..n + 1]).status))
  {
    var c := CaseFor(sale, version, valid, checks, evaluate, ai, s);
    PassedIffAllClear(c, digest, d);
    NoUnresolvedCriticalPasses(sale, version, valid, checks, evaluate, ai, s, digest, d);
    HumanReview.PassedIffOverridden(d.status, gate, reviews);
    HumanReview.ReviewsLegalIff(d.status, gate);
    assert HumanReview.AllLegal(d.status, gate, reviews);
  }

  /** One sale with everything its evaluation reads. */
  datatype Sale = Sale(
    id: string, version: string, transcript: TranscriptValidator.Transcript,
    segments: seq<TranscriptValidator.Segment>, recording: Option<TranscriptValidator.Recording>,
    checks: seq<ResolvedCheck>, evaluate: Evaluator, ai: Adjudicator, settings: Settings, digest: Digest)

  ghost predicate Acceptable(x: Sale) { TranscriptValidator.Acceptable(x.transcript, x.segments, x.recording) }

  ghost predicate Judged(x: Sale, d: Decision) {
    Decides(CaseFor(x.id, x.version, Acceptable(x), x.checks, x.evaluate, x.ai, x.settings), x.digest, d)
  }

  /** What the worker hands over for persistence: the gate's decision says which outbox event it will be. */
  ghost predicate PayloadOf(x: Sale, p: WorkerTasks.Payload) {
    exists d :: Judged(x, d) && (p.passed <==> d.status == Passed)
  }

  /** The conversation can be relied on, and every critical check was found PASS without the model's help. */
  ghost predicate Verified(x: Sale) {
    Acceptable(x) && forall i :: 0 <= i < |x.checks| && x.checks[i].isCritical ==> x.evaluate(x.checks[i]).outcome == Pass
  }

  ghost predicate ByDefaultPolicy(x: Sale) { Consistent(x.checks) && WithholdsOnCritical(x.settings.policy) }

  method EvaluateSale(x: Sale, run: string, decision: string) returns (d: Decision, p: WorkerTasks.Payload)
    ensures Judged(x, d) && PayloadOf(x, p)
    ensures p == WorkerTasks.Payload(run, decision, d.status == Passed)
    ensures d.status == Passed && ByDefaultPolicy(x) ==> Verified(x)
  {
    var integrity := TranscriptValidator.Validate(x.transcript, x.segments, x.recording);
    var results, score;
    d, results, score := ExecuteEvaluation(
      x.id, x.version, integrity.isValid, x.checks, x.evaluate, x.ai, x.settings, x.digest);
    p := WorkerTasks.Payload(run, decision, d.status == Passed);
    PassedIsVerified(x, d);
  }

  lemma PassedIsVerified(x: Sale, d: Decision)
    requires Judged(x, d)
    ensures d.status == Passed && ByDefaultPolicy(x) ==> Verified(x)
  {
    if ByDefaultPolicy(x) {
      NoUnresolvedCriticalPasses(x.id, x.version, Acceptable(x), x.checks, x.evaluate, x.ai, x.settings, x.digest, d);
    }
  }

  /** A worker that evaluates a sale and files what comes out of it: an Evaluate event with that sale's payload. */
  method ServeSale(
      u: WorkerTasks.UnitOfWork, x: Sale, run: string, decision: string, id: string, worker: string, lease: int,
      work: nat, now: int, ghost w: WorkerRuns.World, policy: Jobs.RetryPolicy)
    returns (outcome: WorkerTasks.Outcome, ghost c: WorkerRuns.Call, ghost w': WorkerRuns.World)
    requires WorkerRuns.Shows(u, w) && w.s.now == now && (id in w.s.rows ==> WorkerRuns.IsEvaluation(w.s.rows, id))
    modifies u, u.jobs
    ensures c.id == id && c.payload.Some? && PayloadOf(x, c.payload.value)
    ensures w' == WorkerRuns.After(w, WorkerRuns.Evaluate(c), policy) && WorkerRuns.Shows(u, w')
    ensures outcome == WorkerRuns.OutcomeOf(c, w.s)
  {
    var d, p := EvaluateSale(x, run, decision);
    var call := WorkerRuns.Call(id, worker, lease, true, Some(p), work);
    c := call;
    outcome, w' := WorkerRuns.Serve(u, call, now, w, policy);
  }

  /** What each attempt read: inputs[k] is the sale as the k-th event found it, the sale of that event's job, and its
      payload comes from evaluating it. The same job may read different data at different attempts. */
  ghost predicate Evaluated(
      events: seq<WorkerRuns.Event>, inputs: seq<Sale>, saleOf: map<string, string>, k: nat)
    requires k < |events| == |inputs|
  {
    events[k].Evaluate? && events[k].call.payload.Some? ==>
      && events[k].call.id in saleOf && inputs[k].id == saleOf[events[k].call.id]
      && ByDefaultPolicy(inputs[k]) && PayloadOf(inputs[k], events[k].call.payload.value)
  }

  /** From the call to the outbox, over any history of workers, crashes, recoveries and redeliveries: a SaleApproved
      event was filed for the sale of its job, by an attempt that found that sale with an acceptable transcript and
      every critical check passing on its own; and no job has a second event. */
  lemma ApprovalsAreEarned(
      events: seq<WorkerRuns.Event>, inputs: seq<Sale>, saleOf: map<string, string>, policy: Jobs.RetryPolicy, i: nat)
    requires |inputs| == |events| && forall k :: 0 <= k < |events| ==> Evaluated(events, inputs, saleOf, k)
    requires i < |WorkerRuns.History(events, policy).books.ledger|
    ensures
      var b := WorkerRuns.History(events, policy).books;
      && |b.outbox| == |b.decisions| == |b.ledger| && b.ledger[i] in saleOf
      && (forall j :: 0 <= j < |b.ledger| && b.ledger[j] == b.ledger[i] ==> j == i)
      && exists k :: 0 <= k < |events| && WorkerRuns.FilesAt(events, policy, k, i)
           && inputs[k].id == saleOf[b.ledger[i]] && (b.outbox[i].SaleApproved? ==> Verified(inputs[k]))
  {
    var b := WorkerRuns.History(events, policy).books;
    WorkerRuns.EachJobFilesOnce(events, policy, b.ledger[i]);
    var k := WorkerRuns.FiledByOne(events, policy, i);
    assert Evaluated(events, inputs, saleOf, k);
    if b.outbox[i].SaleApproved? {
      var d :| Judged(inputs[k], d) && (events[k].call.payload.value.passed <==> d.status == Passed);
      PassedIsVerified(inputs[k], d);
    }
  }

  /** In particular, when every attempt at a job reads the same sale, that sale is the one that was verified. */
  lemma ApprovedSaleIsVerified(
      events: seq<WorkerRuns.Event>, sales: map<string, Sale>, policy: Jobs.RetryPolicy, i: nat)
    requires forall e :: e in events && e.Evaluate? && e.call.payload.Some? ==>
      && e.call.id in sales && ByDefaultPolicy(sales[e.call.id])
      && PayloadOf(sales[e.call.id], e.call.payload.value)
    requires i < |WorkerRuns.History(events, policy).books.ledger|
    ensures
      var b := WorkerRuns.History(events, policy).books;
      && |b.outbox| == |b.ledger| && b.ledger[i] in sales
      && (b.outbox[i].SaleApproved? ==> Verified(sales[b.ledger[i]]))
  {
    var b := WorkerRuns.History(events, policy).books;
    WorkerRuns.HistoryHolds(events, policy);
    var k := WorkerRuns.FiledByOne(events, policy, i);
    assert events[k] in events;
    if b.outbox[i].SaleApproved? {
      var x := sales[b.ledger[i]];
      var d :| Judged(x, d) && (events[k].call.payload.value.passed <==> d.status == Passed);
      PassedIsVerified(x, d);
    }
  }
}

/** The worker's transactions as runs of the lease protocol, and what that makes of the records they file:
    apps/worker/tasks.py, lines 115-643. */
module WorkerRuns {
  import opened Wrappers
  import opened Jobs
  import opened JobProtocol
  import opened JobInvariant
  import opened JobSafety
  import opened JobRepository
  import opened WorkerTasks

  // ---------------------------------------------------------------- evaluations

  /** One evaluation attempt: it claims at once and tries to finish after some work. */
  datatype Call = Call(
    id: string, worker: string, lease: int, inputsFound: bool, payload: Option<Payload>, work: nat)

  function OutcomeOf(c: Call, s: State): Outcome {
    EvaluationOutcome(s.rows, c.id, s.now, c.lease, c.inputsFound, c.payload, s.now + c.work)
  }

  function TokenOf(id: string, worker: string, s: State): Token
    requires id in s.rows
  {
    Token(id, worker, s.rows[id].generation + 1)
  }

  function EvaluationSteps(c: Call, s: State): seq<Step> {
    if OutcomeOf(c, s) != Done then []
    else [ClaimJob(c.id, c.worker, c.lease), Tick(c.work), Finish(TokenOf(c.id, c.worker, s), "", "", false, "")]
  }

  lemma RunThree(s: State, a: Step, b: Step, c: Step, policy: RetryPolicy)
    ensures Run(s, [a, b, c], policy) == Apply(Apply(Apply(s, a, policy), b, policy), c, policy)
  {
    RunTwo(s, a, b, policy);
    assert [a, b, c][..2] == [a, b];
  }

  /** An evaluation that is done is a claim, some time, and a fenced commit; any other changes nothing. */
  lemma EvaluationIsRun(c: Call, s: State, policy: RetryPolicy)
    requires c.id in s.rows ==> s.rows[c.id].stage != TRANSCRIBING
    ensures
      var s' := Run(s, EvaluationSteps(c, s), policy);
      if OutcomeOf(c, s) == Done then
        var t := TokenOf(c.id, c.worker, s);
        && s'.rows == s.rows[c.id := FinishedRow(s.rows[c.id], c.worker, s.now, c.lease)]
        && s'.log == s.log + [Claimed(t)] + [Committed(t)]
        && s'.transcripts == s.transcripts && s'.dispatched == s.dispatched
      else s' == s
  {
    if OutcomeOf(c, s) == Done {
      var t := TokenOf(c.id, c.worker, s);
      RunThree(s, ClaimJob(c.id, c.worker, c.lease), Tick(c.work), Finish(t, "", "", false, ""), policy);
      ClaimAndWait(s, c.id, c.worker, c.lease, c.work, policy);
    }
  }

  function Waiting(s: State, id: string, worker: string, lease: int, work: nat): State
    requires id in s.rows
  {
    var t := TokenOf(id, worker, s);
    s.(rows := s.rows[id := Claim(s.rows[id], worker, s.now, lease)], now := s.now + work,
       outstanding := s.outstanding + {t}, log := s.log + [Claimed(t)])
  }

  lemma ClaimAndWait(s: State, id: string, worker: string, lease: int, work: nat, policy: RetryPolicy)
    requires id in s.rows && Claimable(s.rows[id], s.now)
    ensures Apply(Apply(s, ClaimJob(id, worker, lease), policy), Tick(work), policy) == Waiting(s, id, worker, lease, work)
    ensures work < lease ==> CanFinish(Waiting(s, id, worker, lease, work), TokenOf(id, worker, s))
  {
  }

  // ---------------------------------------------------------------- transcriptions

  /** A rival is another transaction inserting the same evaluation job. */
  ghost predicate RivalSubmits(s: State, id: string, a: Attempt)
    requires id in s.rows
  {
    var recording := s.rows[id].recording;
    a.rival.Some? && RequestedKey(s.transcripts, recording, a).Some? ==>
      a.rival.value.row == NewJob(recording, EVALUATING, RequestedKey(s.transcripts, recording, a).value, 3)
  }

  function ProducedKey(a: Attempt): string { if a.produced.Some? then a.produced.value.key else "" }

  function RequestedTranscript(s: State, recording: Name, a: Attempt): string {
    if Replaying(s.transcripts, recording) then s.transcripts[recording].key else ProducedKey(a)
  }

  /** What the rival does, if there is one. */
  function RivalSteps(s: State, id: string, a: Attempt): seq<Step>
    requires id in s.rows
  {
    if a.rival.None? then []
    else
      var recording := s.rows[id].recording;
      [Submit(a.rival.value.id, recording, EVALUATING, RequestedTranscript(s, recording, a), a.config, 3)]
  }

  function FinishStep(s: State, id: string, worker: string, a: Attempt): Step
    requires id in s.rows
  {
    Finish(TokenOf(id, worker, s), a.evalId, ProducedKey(a), a.produced.Some? && a.produced.value.available, a.config)
  }

  function TranscriptionSteps(s: State, id: string, worker: string, lease: int, work: nat, a: Attempt, outcome: Outcome): seq<Step>
    requires outcome.Done? || outcome.LeaseLost? ==> id in s.rows
  {
    if outcome.Done? then
      [ClaimJob(id, worker, lease), Tick(work)] + RivalSteps(s, id, a) + [FinishStep(s, id, worker, a)]
    else if outcome.LeaseLost? then RivalSteps(s, id, a)
    else []
  }

  lemma RivalIsRun(s: State, t: State, id: string, a: Attempt, policy: RetryPolicy)
    requires id in s.rows && RivalSubmits(s, id, a) && t.transcripts == s.transcripts
    requires RequestedKey(s.transcripts, s.rows[id].recording, a).Some?
    requires Resolves(t.rows, RequestedKey(s.transcripts, s.rows[id].recording, a).value, a.rival)
    requires a.rival.Some? ==> a.rival.value.id !in t.rows
    ensures Run(t, RivalSteps(s, id, a), policy)
         == t.(rows := WithRival(t.rows, RequestedKey(s.transcripts, s.rows[id].recording, a).value, a.rival))
  {
    if a.rival.Some? {
      RunOne(t, RivalSteps(s, id, a)[0], policy);
    }
  }

  lemma FinishEnsures(t: State, id: string, a: Attempt, step: Step, key: string, policy: RetryPolicy)
    requires step.Finish? && CanFinish(t, step.token) && step.token.job == id && t.rows[id].stage == TRANSCRIBING
    requires key == EvaluationKey(t.rows[id].recording, FinalKey(t, t.rows[id].recording, step), step.config)
    requires step.evalId !in t.rows
    ensures
      var t' := Apply(t, step, policy);
      && t'.rows == Ensured(t.rows, step.evalId, NewJob(t.rows[id].recording, EVALUATING, key, 3), None)
                      [id := Complete(t.rows[id])]
      && t'.log == t.log + [Committed(step.token)]
      && t'.transcripts == (if Replays(t, t.rows[id].recording) then t.transcripts
           else SaveTranscript(t.transcripts, t.rows[id].recording, Transcript(step.transcriptKey, step.available)))
  {
    var job := NewJob(t.rows[id].recording, EVALUATING, key, 3);
    if !KeyTaken(t.rows, key) {
      assert Insert(t.rows, step.evalId, job)[step.evalId].key == key;
    }
  }

  /** Ensuring after the rival has had its say is ensuring against the rival. */
  lemma RivalThenEnsure(rows: map<string, Row>, evalId: string, job: Row, rival: Option<Rival>)
    requires Resolves(rows, job.key, rival) && (rival.Some? ==> rival.value.row.key == job.key)
    ensures Ensured(WithRival(rows, job.key, rival), evalId, job, None) == Ensured(rows, evalId, job, rival)
  {
    if rival.Some? && !KeyTaken(rows, job.key) {
      assert WithRival(rows, job.key, rival)[rival.value.id].key == job.key;
    }
  }

  lemma WaitingEnsured(rows: map<string, Row>, id: string, claimed: Row, job: Row, rival: Option<Rival>, evalId: string)
    requires id in rows && claimed.key == rows[id].key && evalId !in rows && (rival.Some? ==> rival.value.id !in rows)
    ensures WithRival(rows[id := claimed], job.key, rival) == WithRival(rows, job.key, rival)[id := claimed]
    ensures Resolves(rows[id := claimed], job.key, rival) <==> Resolves(rows, job.key, rival)
    ensures Ensured(rows[id := claimed], evalId, job, rival) == Ensured(rows, evalId, job, rival)[id := claimed]
  {
    ClaimCommutes(rows, id, claimed, evalId, job, rival);
  }

  /** The circumstances of an attempt at a transcription job, with its outcome. */
  ghost predicate Attempts(s: State, id: string, lease: int, work: nat, a: Attempt, outcome: Outcome) {
    && outcome == TranscriptionOutcome(s.rows, s.transcripts, id, s.now, lease, a, s.now + work)
    && FreshIds(s.rows, s.transcripts, id, a)
    && (id in s.rows ==> s.rows[id].stage == TRANSCRIBING && RivalSubmits(s, id, a))
  }

  /** Up to the finish: the row is claimed, time has passed, and the rival has submitted. */
  lemma BeforeFinish(s: State, id: string, worker: string, lease: int, work: nat, a: Attempt, policy: RetryPolicy)
    requires Attempts(s, id, lease, work, a, Done)
    ensures
      var key := RequestedKey(s.transcripts, s.rows[id].recording, a).value;
      var t := Waiting(s, id, worker, lease, work);
      var ready := t.(rows := WithRival(s.rows, key, a.rival)[id := t.rows[id]]);
      && Run(s, [ClaimJob(id, worker, lease), Tick(work)] + RivalSteps(s, id, a), policy) == ready
      && CanFinish(ready, TokenOf(id, worker, s)) && a.evalId !in ready.rows
  {
    var key := RequestedKey(s.transcripts, s.rows[id].recording, a).value;
    var t := Waiting(s, id, worker, lease, work);
    RunTwo(s, ClaimJob(id, worker, lease), Tick(work), policy);
    ClaimAndWait(s, id, worker, lease, work, policy);
    RunConcat(s, [ClaimJob(id, worker, lease), Tick(work)], RivalSteps(s, id, a), policy);
    WaitingEnsured(s.rows, id, t.rows[id], NewJob(s.rows[id].recording, EVALUATING, key, 3), a.rival, a.evalId);
    RivalIsRun(s, t, id, a, policy);
  }

  /** The finish itself. */
  lemma FinishIsRun(s: State, ready: State, id: string, worker: string, lease: int, a: Attempt, policy: RetryPolicy)
    requires id in s.rows && s.rows[id].stage == TRANSCRIBING && FreshIds(s.rows, s.transcripts, id, a)
    requires RequestedKey(s.transcripts, s.rows[id].recording, a).Some?
    requires
      var key := RequestedKey(s.transcripts, s.rows[id].recording, a).value;
      && Resolves(s.rows, key, a.rival)
      && ready.rows == WithRival(s.rows, key, a.rival)[id := Claim(s.rows[id], worker, s.now, lease)]
    requires ready.transcripts == s.transcripts && a.evalId !in ready.rows && CanFinish(ready, TokenOf(id, worker, s))
    ensures
      var s' := Apply(ready, FinishStep(s, id, worker, a), policy);
      && s'.rows == TranscriptionRows(s.rows, s.transcripts, id, worker, s.now, lease, a, Done)
      && s'.transcripts == TranscriptionStore(s.transcripts, s.rows[id].recording, a)
      && s'.log == ready.log + [Committed(TokenOf(id, worker, s))]
  {
    var recording := s.rows[id].recording;
    var key := RequestedKey(s.transcripts, recording, a).value;
    var job := NewJob(recording, EVALUATING, key, 3);
    var rivalled := WithRival(s.rows, key, a.rival);
    FinishEnsures(ready, id, a, FinishStep(s, id, worker, a), key, policy);
    WaitingEnsured(rivalled, id, ready.rows[id], job, None, a.evalId);
    RivalThenEnsure(s.rows, a.evalId, job, a.rival);
  }

  /** A transcription that is done is a claim, some time, the rival's insert if it has one, and a finish; one that
      lost its lease leaves only the rival's insert; any other changes nothing. */
  lemma TranscriptionIsRun(
      s: State, id: string, worker: string, lease: int, work: nat, a: Attempt, outcome: Outcome, policy: RetryPolicy)
    requires Attempts(s, id, lease, work, a, outcome)
    ensures
      var s' := Run(s, TranscriptionSteps(s, id, worker, lease, work, a, outcome), policy);
      && s'.rows == TranscriptionRows(s.rows, s.transcripts, id, worker, s.now, lease, a, outcome)
      && s'.transcripts == (if outcome == Done then TranscriptionStore(s.transcripts, s.rows[id].recording, a) else s.transcripts)
      && s'.log == (if outcome == Done then s.log + [Claimed(TokenOf(id, worker, s))] + [Committed(TokenOf(id, worker, s))] else s.log)
  {
    if outcome == Done {
      var before := [ClaimJob(id, worker, lease), Tick(work)] + RivalSteps(s, id, a);
      BeforeFinish(s, id, worker, lease, work, a, policy);
      RunConcat(s, before, [FinishStep(s, id, worker, a)], policy);
      RunOne(Run(s, before, policy), FinishStep(s, id, worker, a), policy);
      FinishIsRun(s, Run(s, before, policy), id, worker, lease, a, policy);
    } else if outcome == LeaseLost {
      RivalIsRun(s, s, id, a, policy);
    }
  }

  // ---------------------------------------------------------------- what is filed

  /** The records evaluations file, with the job each was filed for. */
  datatype Books = Books(
    ledger: seq<string>, runs: seq<string>, decisions: seq<string>, outbox: seq<OutboxEvent>)

  function File(b: Books, job: string, p: Payload): Books {
    Books(b.ledger + [job], b.runs + [p.run], b.decisions + [p.decision], b.outbox + [OutboxFor(p)])
  }

  datatype World = World(s: State, books: Books)

  const BEGINNING := World(START, Books([], [], [], []))

  /** Evaluations by the worker, amid any other step of the protocol. A job goes to the worker's function for its
      stage, and an evaluation commits through ExecuteEvaluationJob only; anything else is ignored. */
  datatype Event = Evaluate(call: Call) | Other(step: Step)

  predicate IsEvaluation(rows: map<string, Row>, id: string) { id in rows && rows[id].stage != TRANSCRIBING }

  ghost function After(w: World, e: Event, policy: RetryPolicy): World {
    match e
    case Evaluate(c) =>
      if IsEvaluation(w.s.rows, c.id) && OutcomeOf(c, w.s) == Done
      then World(Run(w.s, EvaluationSteps(c, w.s), policy), File(w.books, c.id, c.payload.value))
      else w
    case Other(step) =>
      if step.Finish? && IsEvaluation(w.s.rows, step.token.job) then w else w.(s := Apply(w.s, step, policy))
  }

  ghost function History(events: seq<Event>, policy: RetryPolicy): World {
    if events == [] then BEGINNING else After(History(events[..|events| - 1], policy), events[|events| - 1], policy)
  }

  function Count(ledger: seq<string>, job: string): nat {
    if ledger == [] then 0
    else Count(ledger[..|ledger| - 1], job) + if ledger[|ledger| - 1] == job then 1 else 0
  }

  /** As many records as commits, for every evaluation job and for nothing else. */
  ghost predicate Balanced(w: World) {
    forall job :: Count(w.books.ledger, job) == if IsEvaluation(w.s.rows, job) then Commits(w.s.log, job) else 0
  }

  /** Everything filed came out of one evaluation, all of it together. */
  ghost predicate Traceable(events: seq<Event>, b: Books) {
    && |b.ledger| == |b.runs| == |b.decisions| == |b.outbox|
    && forall i :: 0 <= i < |b.ledger| ==> FiledBy(events, b, i)
  }

  ghost predicate FiledBy(events: seq<Event>, b: Books, i: nat)
    requires i < |b.ledger| && |b.ledger| == |b.runs| == |b.decisions| == |b.outbox|
  {
    exists k :: 0 <= k < |events| && events[k].Evaluate? && Files(events[k].call, b, i)
  }

  ghost predicate Files(c: Call, b: Books, i: nat)
    requires i < |b.ledger| && |b.ledger| == |b.runs| == |b.decisions| == |b.outbox|
  {
    && c.id == b.ledger[i] && c.payload.Some? && b.runs[i] == c.payload.value.run
    && b.decisions[i] == c.payload.value.decision && b.outbox[i] == OutboxFor(c.payload.value)
  }

  lemma CommitsElsewhere(s: State, step: Step, policy: RetryPolicy, job: string)
    requires !(step.Finish? && step.token.job == job && WillCommit(s, step))
    ensures Commits(Apply(s, step, policy).log, job) == Commits(s.log, job)
  {
    match step
    case ClaimJob(id, worker, lease) =>
      if id in s.rows && Claimable(s.rows[id], s.now) { LogGrows(s.log, Claimed(TokenOf(id, worker, s)), job); }
    case RecoverJob(id) =>
      LogGrows(s.log, Requeued(id), job);
      LogGrows(s.log, Buried(id), job);
    case Finish(token, _, _, _, _) =>
      FinishShape(s, step, policy);
      LogGrows(s.log, Committed(token), job);
    case _ =>
  }

  lemma NewJobsUncommitted(s: State, policy: RetryPolicy, job: string)
    requires Inv(s, policy) && job !in s.rows
    ensures Commits(s.log, job) == 0
  {
  }

  lemma OtherKeepsBalance(w: World, step: Step, policy: RetryPolicy)
    requires Balanced(w) && Inv(w.s, policy)
    ensures Balanced(After(w, Other(step), policy))
  {
    var w' := After(w, Other(step), policy);
    if !(step.Finish? && IsEvaluation(w.s.rows, step.token.job)) {
      StepAdvances(w.s, step, policy);
      forall job ensures Count(w'.books.ledger, job) == if IsEvaluation(w'.s.rows, job) then Commits(w'.s.log, job) else 0 {
        if IsEvaluation(w'.s.rows, job) {
          if job in w.s.rows {
            assert Advances(w.s.rows[job], w'.s.rows[job]);
          } else {
            NewJobsUncommitted(w.s, policy, job);
          }
          CommitsElsewhere(w.s, step, policy, job);
        } else if job in w.s.rows {
          assert job in w'.s.rows && Advances(w.s.rows[job], w'.s.rows[job]);
        }
      }
    }
  }

  lemma ClaimedAndCommitted(log: seq<JobProtocol.Event>, t: Token, job: string)
    ensures Commits(log + [Claimed(t)] + [Committed(t)], job) == Commits(log, job) + if t.job == job then 1 else 0
  {
    LogGrows(log, Claimed(t), job);
    LogGrows(log + [Claimed(t)], Committed(t), job);
  }

  lemma EvaluationKeepsBalance(w: World, c: Call, policy: RetryPolicy)
    requires Balanced(w)
    ensures Balanced(After(w, Evaluate(c), policy))
  {
    var w' := After(w, Evaluate(c), policy);
    if IsEvaluation(w.s.rows, c.id) && OutcomeOf(c, w.s) == Done {
      EvaluationIsRun(c, w.s, policy);
      var t := TokenOf(c.id, c.worker, w.s);
      assert w'.books.ledger[..|w.books.ledger|] == w.books.ledger;
      forall job ensures Count(w'.books.ledger, job) == if IsEvaluation(w'.s.rows, job) then Commits(w'.s.log, job) else 0 {
        ClaimedAndCommitted(w.s.log, t, job);
      }
    }
  }

  /** Every history is a run of the protocol with balanced, traceable books. */
  lemma {:induction false} HistoryHolds(events: seq<Event>, policy: RetryPolicy)
    ensures
      var w := History(events, policy);
      IsReachable(w.s, policy) && Balanced(w) && Traceable(events, w.books)
  {
    if events == [] {
      assert Run(START, [], policy) == START;
    } else {
      var before, e := events[..|events| - 1], events[|events| - 1];
      var w := History(before, policy);
      HistoryHolds(before, policy);
      ReachableInv(w.s, policy);
      StaysReachable(w, e, policy);
      StaysTraceable(before, w, e, policy);
      assert before + [e] == events;
      match e
      case Evaluate(c) => EvaluationKeepsBalance(w, c, policy);
      case Other(step) => OtherKeepsBalance(w, step, policy);
    }
  }

  lemma StaysReachable(w: World, e: Event, policy: RetryPolicy)
    requires IsReachable(w.s, policy)
    ensures IsReachable(After(w, e, policy).s, policy)
  {
    var steps :| w.s == Run(START, steps, policy);
    var more :=
      match e
      case Evaluate(c) => EvaluationSteps(c, w.s)
      case Other(step) => [step];
    RunConcat(START, steps, more, policy);
    if e.Other? { RunOne(w.s, e.step, policy); }
  }

  lemma StaysTraceable(before: seq<Event>, w: World, e: Event, policy: RetryPolicy)
    requires Traceable(before, w.books)
    ensures Traceable(before + [e], After(w, e, policy).books)
  {
    var events, b, b' := before + [e], w.books, After(w, e, policy).books;
    forall i | 0 <= i < |b'.ledger| ensures FiledBy(events, b', i) {
      if i < |b.ledger| {
        assert FiledBy(before, b, i);
        var k :| 0 <= k < |before| && before[k].Evaluate? && Files(before[k].call, b, i);
        assert events[k] == before[k] && Files(events[k].call, b', i);
      } else {
        assert events[|before|] == e && Files(e.call, b', i);
      }
    }
  }

  /** The event that filed record i: the only one after which the ledger first holds i + 1 records. */
  ghost predicate FilesAt(events: seq<Event>, policy: RetryPolicy, k: nat, i: nat) {
    && k < |events| && events[k].Evaluate? && events[k].call.payload.Some?
    && |History(events[..k], policy).books.ledger| == i && |History(events[..k + 1], policy).books.ledger| == i + 1
    && var b, c := History(events, policy).books, events[k].call;
       && i < |b.ledger| && i < |b.runs| && i < |b.decisions| && i < |b.outbox|
       && b.ledger[i] == c.id && b.runs[i] == c.payload.value.run
       && b.decisions[i] == c.payload.value.decision && b.outbox[i] == OutboxFor(c.payload.value)
  }

  lemma StaysFiled(before: seq<Event>, e: Event, policy: RetryPolicy, k: nat, i: nat)
    requires FilesAt(before, policy, k, i)
    ensures FilesAt(before + [e], policy, k, i)
  {
    var events := before + [e];
    assert events[..k] == before[..k] && events[..k + 1] == before[..k + 1];
    assert events[..|events| - 1] == before;
  }

  /** Every record has the event that filed it. */
  lemma {:induction false} FiledByOne(events: seq<Event>, policy: RetryPolicy, i: nat) returns (k: nat)
    requires i < |History(events, policy).books.ledger|
    ensures FilesAt(events, policy, k, i)
  {
    var before, e := events[..|events| - 1], events[|events| - 1];
    assert events == before + [e];
    HistoryHolds(before, policy);
    if i < |History(before, policy).books.ledger| {
      k := FiledByOne(before, policy, i);
      StaysFiled(before, e, policy, k, i);
    } else {
      k := |before|;
      assert events[..k] == before && events[..k + 1] == events;
    }
  }

  lemma {:induction false} CountedTwice(ledger: seq<string>, i: nat, j: nat)
    requires i < j < |ledger| && ledger[i] == ledger[j]
    ensures Count(ledger, ledger[i]) >= 2
  {
    var n := |ledger| - 1;
    if j < n {
      CountedTwice(ledger[..n], i, j);
    } else {
      CountedOnce(ledger[..n], i);
    }
  }

  lemma {:induction false} CountedOnce(ledger: seq<string>, i: nat)
    requires i < |ledger|
    ensures Count(ledger, ledger[i]) >= 1
  {
    var n := |ledger| - 1;
    if i < n { CountedOnce(ledger[..n], i); }
  }

  /** Whatever workers do, in any order and however often: an evaluation job files at most one run, one decision and
      one outbox event, all from the same evaluation, and it has filed them exactly when it reads COMPLETED. */
  lemma EachJobFilesOnce(events: seq<Event>, policy: RetryPolicy, job: string)
    ensures
      var w := History(events, policy);
      && Traceable(events, w.books)
      && (forall i, j :: 0 <= i < j < |w.books.ledger| ==> w.books.ledger[i] != w.books.ledger[j])
      && Count(w.books.ledger, job) <= 1
      && (Count(w.books.ledger, job) == 1 <==> IsEvaluation(w.s.rows, job) && w.s.rows[job].status == Completed)
  {
    HistoryHolds(events, policy);
    var w := History(events, policy);
    AtMostOneCommit(w.s, policy, job);
    forall i, j | 0 <= i < j < |w.books.ledger| ensures w.books.ledger[i] != w.books.ledger[j] {
      AtMostOneCommit(w.s, policy, w.books.ledger[i]);
      if w.books.ledger[i] == w.books.ledger[j] { CountedTwice(w.books.ledger, i, j); }
    }
  }

  /** The database shows the books and the job table of a history. */
  ghost predicate Shows(u: UnitOfWork, w: World)
    reads u, u.jobs
  {
    u.jobs.rows == w.s.rows && Books(u.ledger, u.runs, u.decisions, u.outbox) == w.books
  }

  /** ExecuteEvaluationJob is the Evaluate event: the program's transaction keeps showing the history. */
  method Serve(u: UnitOfWork, c: Call, now: int, ghost w: World, policy: RetryPolicy)
    returns (outcome: Outcome, ghost w': World)
    requires Shows(u, w) && w.s.now == now && (c.id in w.s.rows ==> IsEvaluation(w.s.rows, c.id))
    modifies u, u.jobs
    ensures w' == After(w, Evaluate(c), policy) && Shows(u, w') && outcome == OutcomeOf(c, w.s)
  {
    outcome := u.ExecuteEvaluationJob(c.id, c.worker, now, c.lease, c.inputsFound, c.payload, now + c.work);
    EvaluationIsRun(c, w.s, policy);
    w' := After(w, Evaluate(c), policy);
  }
}

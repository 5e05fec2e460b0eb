/** What every step of the lease protocol keeps, and how rows may move. */
module JobInvariant {
  import opened Wrappers
  import opened Jobs
  import opened JobProtocol

  // ---------------------------------------------------------------- the invariant

  ghost predicate UniqueKeys(rows: map<string, Row>) {
    forall i, j :: i in rows && j in rows && rows[i].key == rows[j].key ==> i == j
  }

  ghost predicate KeysFit(rows: map<string, Row>) {
    forall id :: id in rows ==>
      exists a, v :: rows[id].key == IdempotencyKey(rows[id].recording, rows[id].stage, a, v)
  }

  /** What a row says must agree with what the log says happened to its job. */
  ghost predicate RowMatchesLog(r: Row, id: string, log: seq<Event>, policy: RetryPolicy) {
    && (r.status == Running <==> r.leaseUntil.Some?)
    && (r.status == Running ==> r.worker.Some?)
    && r.generation == Claims(log, id)
    && r.retryCount == Requeues(log, id)
    && r.retryCount <= (if policy.maxRetries > 0 then policy.maxRetries else 0)
    && Commits(log, id) == (if r.status == Completed then 1 else 0)
    && Burials(log, id) == (if r.status == DeadLetter then 1 else 0)
  }

  ghost predicate RowsMatchLog(s: State, policy: RetryPolicy) {
    && (forall id :: id in s.rows ==> RowMatchesLog(s.rows[id], id, s.log, policy))
    && (forall id :: id !in s.rows ==>
          Claims(s.log, id) == Commits(s.log, id) == Requeues(s.log, id) == Burials(s.log, id) == 0)
  }

  /** A token names the attempt the log records; the current generation belongs to the row's worker. */
  ghost predicate TokenFits(t: Token, rows: map<string, Row>) {
    && t.job in rows
    && 0 < t.generation <= rows[t.job].generation
    && (t.generation == rows[t.job].generation ==> rows[t.job].worker == Some(t.worker))
  }

  ghost predicate TokensFit(s: State) {
    && (forall t :: t in s.outstanding ==> TokenFits(t, s.rows))
    && (forall i :: 0 <= i < |s.log| && (s.log[i].Claimed? || s.log[i].Committed?) ==> TokenFits(s.log[i].token, s.rows))
    && (forall i :: 0 <= i < |s.log| && s.log[i].Committed? ==>
          s.log[i].token.generation == s.rows[s.log[i].token.job].generation)
    && (forall i :: 0 <= i < |s.log| && s.log[i].Claimed? ==>
          s.log[i].token.generation == Claims(s.log[..i], s.log[i].token.job) + 1)
  }

  predicate Transcribed(r: Row) { r.stage == TRANSCRIBING && r.status == Completed }

  ghost predicate AnnouncedFor(rows: map<string, Row>, dispatched: map<string, Announcement>, id: string)
    requires id in rows
  {
    && id in dispatched
    && var a := dispatched[id];
       && a.job in rows && rows[a.job].stage == EVALUATING && rows[a.job].recording == rows[id].recording
       && rows[a.job].key == EvaluationKey(rows[id].recording, a.transcriptKey, a.config)
  }

  /** Every finished transcription announced an evaluation job that is really there. */
  ghost predicate Announced(s: State) {
    forall id :: id in s.rows && Transcribed(s.rows[id]) ==> AnnouncedFor(s.rows, s.dispatched, id)
  }

  ghost predicate Inv(s: State, policy: RetryPolicy) {
    UniqueKeys(s.rows) && KeysFit(s.rows) && RowsMatchLog(s, policy) && TokensFit(s) && Announced(s)
  }

  // ---------------------------------------------------------------- how rows may move

  /** Jobs never disappear or change identity, generations and retries never go back, a generation
      stays with its worker, and a finished job is frozen. */
  ghost predicate Advances(r: Row, r': Row) {
    && r'.key == r.key && r'.recording == r.recording && r'.stage == r.stage
    && r.generation <= r'.generation && r.retryCount <= r'.retryCount
    && (r.generation == r'.generation ==> r'.worker == r.worker)
    && (Terminal(r.status) ==> r' == r)
  }

  ghost predicate RowsAdvance(rows: map<string, Row>, rows': map<string, Row>) {
    forall id :: id in rows ==> id in rows' && Advances(rows[id], rows'[id])
  }

  lemma InsertAdvances(rows: map<string, Row>, id: string, job: Row)
    ensures RowsAdvance(rows, Insert(rows, id, job))
    ensures forall i :: i in Insert(rows, id, job) ==> i in rows || (i == id && Insert(rows, id, job)[i] == job)
  {
  }

  /** A finishing step in normal form: what it inserts before it completes the job. */
  ghost predicate WillCommit(s: State, step: Step) {
    && step.Finish? && CanFinish(s, step.token)
    && (s.rows[step.token.job].stage == TRANSCRIBING ==> Downstream(s, s.rows[step.token.job].recording, step).Some?)
  }

  ghost function Inserted(s: State, step: Step): map<string, Row>
    requires WillCommit(s, step)
  {
    var row := s.rows[step.token.job];
    if row.stage == TRANSCRIBING then Downstream(s, row.recording, step).value.1 else s.rows
  }

  lemma FinishShape(s: State, step: Step, policy: RetryPolicy)
    requires step.Finish?
    ensures WillCommit(s, step) ==>
        && Apply(s, step, policy).rows == Inserted(s, step)[step.token.job := Complete(s.rows[step.token.job])]
        && Apply(s, step, policy).log == s.log + [Committed(step.token)]
    ensures !WillCommit(s, step) ==> Apply(s, step, policy) == s.(outstanding := s.outstanding - {step.token})
    ensures Apply(s, step, policy).outstanding == s.outstanding - {step.token} && Apply(s, step, policy).now == s.now
    ensures WillCommit(s, step) ==> RowsAdvance(s.rows, Inserted(s, step)) && Inserted(s, step)[step.token.job] == s.rows[step.token.job]
  {
    if WillCommit(s, step) && s.rows[step.token.job].stage == TRANSCRIBING {
      InsertAdvances(s.rows, step.evalId, EvaluationJob(s, s.rows[step.token.job].recording, step));
    }
  }

  lemma StepAdvances(s: State, step: Step, policy: RetryPolicy)
    ensures RowsAdvance(s.rows, Apply(s, step, policy).rows)
    ensures s.now <= Apply(s, step, policy).now
  {
    match step
    case Tick(_) =>
    case Submit(id, recording, stage, artifact, version, maxRetries) =>
    case ClaimJob(id, worker, lease) =>
    case Finish(token, _, _, _, _) => FinishShape(s, step, policy);
    case Abandon(_) =>
    case RecoverJob(id) =>
  }

  lemma {:induction false} RunAdvances(s: State, steps: seq<Step>, policy: RetryPolicy)
    ensures RowsAdvance(s.rows, Run(s, steps, policy).rows)
    ensures s.now <= Run(s, steps, policy).now
  {
    if steps != [] {
      var before := steps[..|steps| - 1];
      RunAdvances(s, before, policy);
      StepAdvances(Run(s, before, policy), steps[|steps| - 1], policy);
    }
  }

  // ---------------------------------------------------------------- the invariant is kept

  function JobOf(e: Event): string {
    match e
    case Claimed(t) => t.job
    case Committed(t) => t.job
    case Requeued(j) => j
    case Buried(j) => j
  }

  lemma UpdateMatches(rows: map<string, Row>, log: seq<Event>, id: string, r: Row, e: Event, s: State, policy: RetryPolicy)
    requires RowsMatchLog(s, policy) && s.rows == rows && s.log == log
    requires id in rows && JobOf(e) == id && RowMatchesLog(r, id, log + [e], policy)
    ensures RowsMatchLog(s.(rows := rows[id := r], log := log + [e]), policy)
  {
    forall i ensures i != id ==>
        && Claims(log + [e], i) == Claims(log, i) && Commits(log + [e], i) == Commits(log, i)
        && Requeues(log + [e], i) == Requeues(log, i) && Burials(log + [e], i) == Burials(log, i)
    {
      LogGrows(log, e, i);
    }
  }

  lemma InsertMatches(s: State, id: string, job: Row, policy: RetryPolicy)
    requires RowsMatchLog(s, policy)
    requires job == NewJob(job.recording, job.stage, job.key, job.maxRetries)
    ensures RowsMatchLog(s.(rows := Insert(s.rows, id, job)), policy)
  {
  }

  lemma RowsMatchKept(s: State, step: Step, policy: RetryPolicy)
    requires RowsMatchLog(s, policy)
    ensures RowsMatchLog(Apply(s, step, policy), policy)
  {
    match step
    case Tick(_) =>
    case Abandon(_) =>
    case Submit(id, recording, stage, artifact, version, maxRetries) =>
      InsertMatches(s, id, NewJob(recording, stage, IdempotencyKey(recording, stage, artifact, version), maxRetries), policy);
    case ClaimJob(id, worker, lease) =>
      ClaimMatches(s, id, worker, lease, policy);
    case RecoverJob(id) =>
      RecoverMatches(s, id, policy);
    case Finish(token, _, _, _, _) =>
      FinishShape(s, step, policy);
      if WillCommit(s, step) {
        InsertedMatches(s, step, policy);
        CommitMatches(s.(rows := Inserted(s, step)), Apply(s, step, policy), step.token, policy);
      }
  }

  lemma ClaimMatches(s: State, id: string, worker: string, lease: int, policy: RetryPolicy)
    requires RowsMatchLog(s, policy)
    ensures RowsMatchLog(Apply(s, ClaimJob(id, worker, lease), policy), policy)
  {
    if id in s.rows && Claimable(s.rows[id], s.now) {
      var row := Claim(s.rows[id], worker, s.now, lease);
      var e := Claimed(Token(id, worker, row.generation));
      LogGrows(s.log, e, id);
      UpdateMatches(s.rows, s.log, id, row, e, s, policy);
    }
  }

  lemma {:induction false} RecoveredRowMatches(r: Row, id: string, log: seq<Event>, policy: RetryPolicy)
    requires RowMatchesLog(r, id, log, policy) && r.status == Running
    ensures
      var after := Recover(r, policy);
      RowMatchesLog(after, id, log + [if after.status == Queued then Requeued(id) else Buried(id)], policy)
  {
    LogGrows(log, Requeued(id), id);
    LogGrows(log, Buried(id), id);
  }

  lemma {:induction false} RecoverMatches(s: State, id: string, policy: RetryPolicy)
    requires RowsMatchLog(s, policy)
    ensures RowsMatchLog(Apply(s, RecoverJob(id), policy), policy)
  {
    if id in s.rows && Stale(s.rows[id], s.now) {
      var row := Recover(s.rows[id], policy);
      RecoveredRowMatches(s.rows[id], id, s.log, policy);
      UpdateMatches(s.rows, s.log, id, row, if row.status == Queued then Requeued(id) else Buried(id), s, policy);
    }
  }

  lemma InsertedMatches(s: State, step: Step, policy: RetryPolicy)
    requires RowsMatchLog(s, policy) && WillCommit(s, step)
    ensures RowsMatchLog(s.(rows := Inserted(s, step)), policy)
  {
    var row := s.rows[step.token.job];
    if row.stage == TRANSCRIBING {
      InsertMatches(s, step.evalId, EvaluationJob(s, row.recording, step), policy);
    }
  }

  lemma {:induction false} CommitMatches(s: State, s': State, token: Token, policy: RetryPolicy)
    requires RowsMatchLog(s, policy) && token.job in s.rows && s.rows[token.job].status == Running
    requires s'.rows == s.rows[token.job := Complete(s.rows[token.job])] && s'.log == s.log + [Committed(token)]
    ensures RowsMatchLog(s', policy)
  {
    var id := token.job;
    LogGrows(s.log, Committed(token), id);
    UpdateMatches(s.rows, s.log, id, Complete(s.rows[id]), Committed(token), s, policy);
  }

  lemma KeysKeptByInsert(rows: map<string, Row>, id: string, recording: Name, stage: Name, a: string, v: string, n: int)
    requires UniqueKeys(rows) && KeysFit(rows)
    ensures UniqueKeys(Insert(rows, id, NewJob(recording, stage, IdempotencyKey(recording, stage, a, v), n)))
    ensures KeysFit(Insert(rows, id, NewJob(recording, stage, IdempotencyKey(recording, stage, a, v), n)))
  {
  }

  lemma UpdateKeepsKeys(rows: map<string, Row>, id: string, r: Row)
    requires UniqueKeys(rows) && KeysFit(rows) && id in rows
    requires r.key == rows[id].key && r.recording == rows[id].recording && r.stage == rows[id].stage
    ensures UniqueKeys(rows[id := r]) && KeysFit(rows[id := r])
  {
  }

  lemma KeysKept(s: State, step: Step, policy: RetryPolicy)
    requires UniqueKeys(s.rows) && KeysFit(s.rows)
    ensures UniqueKeys(Apply(s, step, policy).rows) && KeysFit(Apply(s, step, policy).rows)
  {
    match step
    case Tick(_) =>
    case Abandon(_) =>
    case Submit(id, recording, stage, artifact, version, maxRetries) =>
      KeysKeptByInsert(s.rows, id, recording, stage, artifact, version, maxRetries);
    case ClaimJob(id, worker, lease) =>
      if id in s.rows { UpdateKeepsKeys(s.rows, id, Claim(s.rows[id], worker, s.now, lease)); }
    case RecoverJob(id) =>
      if id in s.rows { UpdateKeepsKeys(s.rows, id, Recover(s.rows[id], policy)); }
    case Finish(token, _, _, _, _) =>
      FinishShape(s, step, policy);
      if WillCommit(s, step) {
        InsertedKeys(s, step);
        UpdateKeepsKeys(Inserted(s, step), token.job, Complete(s.rows[token.job]));
      }
  }

  lemma InsertedKeys(s: State, step: Step)
    requires UniqueKeys(s.rows) && KeysFit(s.rows) && WillCommit(s, step)
    ensures UniqueKeys(Inserted(s, step)) && KeysFit(Inserted(s, step))
  {
    var row := s.rows[step.token.job];
    if row.stage == TRANSCRIBING {
      var key := FinalKey(s, row.recording, step);
      KeysKeptByInsert(s.rows, step.evalId, row.recording, EVALUATING, key, step.config, 3);
    }
  }

  lemma {:induction false} CommitCounted(log: seq<Event>, i: nat)
    requires i < |log| && log[i].Committed?
    ensures Commits(log, log[i].token.job) > 0
  {
    var n := |log| - 1;
    if i < n {
      CommitCounted(log[..n], i);
    }
  }

  /** Tokens stay valid while rows only advance; a new log entry must bring its own justification. */
  lemma TokensSurvive(s: State, s': State, policy: RetryPolicy)
    requires TokensFit(s) && RowsMatchLog(s, policy) && RowsAdvance(s.rows, s'.rows)
    requires forall t :: t in s'.outstanding ==> t in s.outstanding || TokenFits(t, s'.rows)
    requires s'.log == s.log || (|s'.log| == |s.log| + 1 && s'.log[..|s.log|] == s.log)
    requires |s'.log| > |s.log| ==>
        var e := s'.log[|s.log|];
        && (e.Claimed? || e.Committed? ==> TokenFits(e.token, s'.rows))
        && (e.Committed? ==> e.token.generation == s'.rows[e.token.job].generation)
        && (e.Claimed? ==> e.token.generation == Claims(s.log, e.token.job) + 1)
    ensures TokensFit(s')
  {
    forall t | t in s'.outstanding ensures TokenFits(t, s'.rows) {}
    forall i | 0 <= i < |s.log| && s.log[i].Committed?
      ensures s.log[i].token.generation == s'.rows[s.log[i].token.job].generation
    {
      CommitCounted(s.log, i);
      assert TokenFits(s.log[i].token, s.rows);
      assert RowMatchesLog(s.rows[s.log[i].token.job], s.log[i].token.job, s.log, policy);
    }
    forall i | 0 <= i < |s'.log| && s'.log[i].Claimed?
      ensures s'.log[i].token.generation == Claims(s'.log[..i], s'.log[i].token.job) + 1
    {
      assert i < |s.log| ==> s'.log[i] == s.log[i] && s'.log[..i] == s.log[..i];
    }
    forall i | 0 <= i < |s'.log| && (s'.log[i].Claimed? || s'.log[i].Committed?)
      ensures TokenFits(s'.log[i].token, s'.rows)
    {
      assert i < |s.log| ==> s'.log[i] == s.log[i] && TokenFits(s.log[i].token, s.rows);
    }
    forall i | 0 <= i < |s'.log| && s'.log[i].Committed?
      ensures s'.log[i].token.generation == s'.rows[s'.log[i].token.job].generation
    {
      assert i < |s.log| ==> s'.log[i] == s.log[i];
    }
  }

  lemma TokensKept(s: State, step: Step, policy: RetryPolicy)
    requires TokensFit(s) && RowsMatchLog(s, policy)
    ensures TokensFit(Apply(s, step, policy))
  {
    var s' := Apply(s, step, policy);
    StepAdvances(s, step, policy);
    match step
    case Tick(_) => TokensSurvive(s, s', policy);
    case Abandon(_) => TokensSurvive(s, s', policy);
    case Submit(_, _, _, _, _, _) => TokensSurvive(s, s', policy);
    case ClaimJob(id, worker, lease) =>
      if id in s.rows && Claimable(s.rows[id], s.now) {
        assert RowMatchesLog(s.rows[id], id, s.log, policy);
        assert s'.log[..|s.log|] == s.log;
        TokensSurvive(s, s', policy);
      }
    case RecoverJob(id) =>
      if id in s.rows && Stale(s.rows[id], s.now) {
        assert s'.log[..|s.log|] == s.log;
        TokensSurvive(s, s', policy);
      }
    case Finish(token, _, _, _, _) =>
      FinishShape(s, step, policy);
      if WillCommit(s, step) {
        assert TokenFits(token, s.rows);
        assert s'.log[..|s.log|] == s.log;
      }
      TokensSurvive(s, s', policy);
  }

  lemma AnnouncedKept(s: State, step: Step, policy: RetryPolicy)
    requires Announced(s) && UniqueKeys(s.rows) && KeysFit(s.rows)
    ensures Announced(Apply(s, step, policy))
  {
    StepAdvances(s, step, policy);
    if step.Finish? && WillCommit(s, step) && s.rows[step.token.job].stage == TRANSCRIBING {
      FinishAnnounces(s, step, policy);
    } else {
      NothingNewTranscribed(s, step, policy);
      StillAnnounced(s, Apply(s, step, policy));
    }
  }

  lemma NothingNewTranscribed(s: State, step: Step, policy: RetryPolicy)
    requires !(step.Finish? && WillCommit(s, step) && s.rows[step.token.job].stage == TRANSCRIBING)
    ensures Apply(s, step, policy).dispatched == s.dispatched
    ensures forall id :: id in Apply(s, step, policy).rows && Transcribed(Apply(s, step, policy).rows[id])
              ==> id in s.rows && Transcribed(s.rows[id])
  {
    if step.Finish? {
      FinishShape(s, step, policy);
    }
  }

  lemma StillAnnounced(s: State, s': State)
    requires Announced(s) && RowsAdvance(s.rows, s'.rows) && s'.dispatched == s.dispatched
    requires forall id :: id in s'.rows && Transcribed(s'.rows[id]) ==> id in s.rows && Transcribed(s.rows[id])
    ensures Announced(s')
  {
    forall id | id in s'.rows && Transcribed(s'.rows[id]) ensures AnnouncedFor(s'.rows, s'.dispatched, id) {
      AnnouncementLasts(s.rows, s'.rows, s.dispatched, id);
    }
  }

  lemma AnnouncementLasts(rows: map<string, Row>, rows': map<string, Row>, dispatched: map<string, Announcement>, id: string)
    requires id in rows && AnnouncedFor(rows, dispatched, id) && RowsAdvance(rows, rows')
    ensures AnnouncedFor(rows', dispatched, id)
  {
    assert Advances(rows[id], rows'[id]) && Advances(rows[dispatched[id].job], rows'[dispatched[id].job]);
  }

  lemma EvaluationJobIsThere(s: State, step: Step)
    requires UniqueKeys(s.rows) && KeysFit(s.rows)
    requires WillCommit(s, step) && s.rows[step.token.job].stage == TRANSCRIBING
    ensures
      var recording := s.rows[step.token.job].recording;
      var d := Downstream(s, recording, step).value;
      && d.2 in d.1 && d.1[d.2].stage == EVALUATING && d.1[d.2].recording == recording
      && d.1[d.2].key == EvaluationKey(recording, FinalKey(s, recording, step), step.config)
  {
    var recording := s.rows[step.token.job].recording;
    var d := Downstream(s, recording, step).value;
    var key := FinalKey(s, recording, step);
    KeysKeptByInsert(s.rows, step.evalId, recording, EVALUATING, key, step.config, 3);
    var a, v :| d.1[d.2].key == IdempotencyKey(d.1[d.2].recording, d.1[d.2].stage, a, v);
    KeyDeterminesJob(recording, EVALUATING, key, step.config, d.1[d.2].recording, d.1[d.2].stage, a, v);
  }

  lemma FinishAnnounces(s: State, step: Step, policy: RetryPolicy)
    requires Announced(s) && UniqueKeys(s.rows) && KeysFit(s.rows)
    requires WillCommit(s, step) && s.rows[step.token.job].stage == TRANSCRIBING
    ensures Announced(Apply(s, step, policy))
  {
    var s' := Apply(s, step, policy);
    var id := step.token.job;
    var recording := s.rows[id].recording;
    var d := Downstream(s, recording, step).value;
    FinishShape(s, step, policy);
    StepAdvances(s, step, policy);
    EvaluationJobIsThere(s, step);
    InsertAdvances(s.rows, step.evalId, EvaluationJob(s, recording, step));
    assert s'.rows == d.1[id := Complete(s.rows[id])] && s'.dispatched == s.dispatched[id :=
           Announcement(d.2, FinalKey(s, recording, step), step.config)];
    assert AnnouncedFor(s'.rows, s'.dispatched, id);
    forall j | j in s'.rows && Transcribed(s'.rows[j]) ensures AnnouncedFor(s'.rows, s'.dispatched, j) {
      if j != id {
        assert s'.rows[j] == d.1[j] && j in s.rows && d.1[j] == s.rows[j];
        AnnouncementLasts(s.rows, s'.rows, s.dispatched, j);
      }
    }
  }

  lemma InvKept(s: State, step: Step, policy: RetryPolicy)
    requires Inv(s, policy)
    ensures Inv(Apply(s, step, policy), policy)
  {
    KeysKept(s, step, policy);
    RowsMatchKept(s, step, policy);
    TokensKept(s, step, policy);
    AnnouncedKept(s, step, policy);
  }

  /** Every state reachable from the empty table satisfies the invariant. */
  lemma {:induction false} Reachable(steps: seq<Step>, policy: RetryPolicy)
    ensures Inv(Run(START, steps, policy), policy)
  {
    if steps != [] {
      Reachable(steps[..|steps| - 1], policy);
      InvKept(Run(START, steps[..|steps| - 1], policy), steps[|steps| - 1], policy);
    }
  }
}

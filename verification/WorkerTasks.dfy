/** The worker's two transactional tasks: apps/worker/tasks.py, lines 115-643. Each runs in one
    database transaction, so nothing is interleaved with its own rows between claim and commit. */
module WorkerTasks {
  import opened Wrappers
  import opened Jobs
  import opened JobProtocol
  import opened JobRepository

  datatype Outcome = Done | NotClaimable | InputMissing | WorkFailed | LeaseLost

  /** What one evaluation hands over for persistence. */
  datatype Payload = Payload(run: string, decision: string, passed: bool)

  datatype OutboxEvent = SaleApproved(decision: string) | SaleHeld(decision: string)

  function OutboxFor(p: Payload): OutboxEvent {
    if p.passed then SaleApproved(p.decision) else SaleHeld(p.decision)
  }

  predicate CanClaim(rows: map<string, Row>, id: string, now: int) { id in rows && Claimable(rows[id], now) }

  function FinishedRow(r: Row, worker: string, now: int, lease: int): Row { Complete(Claim(r, worker, now, lease)) }

  /** Which way an evaluation goes, read off its circumstances in the order it meets them. */
  function EvaluationOutcome(
      rows: map<string, Row>, id: string, claimAt: int, lease: int, inputsFound: bool,
      payload: Option<Payload>, finishAt: int): Outcome
  {
    if !CanClaim(rows, id, claimAt) then NotClaimable
    else if !inputsFound then InputMissing
    else if payload.None? then WorkFailed
    else if finishAt >= claimAt + lease then LeaseLost
    else Done
  }

  /** Get-or-create of a job, racing a rival for its key: whether it resolves in time, and the table it leaves. */
  ghost predicate Resolves(rows: map<string, Row>, key: string, rival: Option<Rival>) {
    KeyTaken(rows, key) || rival.None? || rival.value.visibleAfter <= POLLS
  }

  ghost function WithRival(rows: map<string, Row>, key: string, rival: Option<Rival>): map<string, Row> {
    if !KeyTaken(rows, key) && rival.Some? && rival.value.visibleAfter <= POLLS
    then rows[rival.value.id := rival.value.row] else rows
  }

  ghost function Ensured(rows: map<string, Row>, id: string, job: Row, rival: Option<Rival>): map<string, Row> {
    if !KeyTaken(rows, job.key) && rival.None? then rows[id := job] else WithRival(rows, job.key, rival)
  }

  /** A replay that found no evaluation job, built one, and lost the insert. */
  ghost predicate Raced(rows: map<string, Row>, key: string, replay: bool, rival: Option<Rival>) {
    replay && !KeyTaken(rows, key) && rival.Some?
  }

  /** The circumstances of one transcription attempt. */
  datatype Attempt = Attempt(
    recordingFound: bool, audioFound: bool, produced: Option<Transcript>, evalId: string, config: string,
    rival: Option<Rival>)

  predicate Replaying(transcripts: map<Name, Transcript>, recording: Name) {
    recording in transcripts && transcripts[recording].available
  }

  /** The evaluation an attempt asks for, if it gets that far. */
  function RequestedKey(transcripts: map<Name, Transcript>, recording: Name, a: Attempt): Option<string> {
    if Replaying(transcripts, recording) then
      Some(EvaluationKey(recording, transcripts[recording].key, a.config))
    else if a.produced.Some? then Some(EvaluationKey(recording, a.produced.value.key, a.config))
    else None
  }

  /** Which way a transcription goes. */
  ghost function TranscriptionOutcome(
      rows: map<string, Row>, transcripts: map<Name, Transcript>, id: string, claimAt: int, lease: int,
      a: Attempt, finishAt: int): Outcome
  {
    if !CanClaim(rows, id, claimAt) then NotClaimable
    else
      var recording := rows[id].recording;
      var key := RequestedKey(transcripts, recording, a);
      if !a.recordingFound || (!Replaying(transcripts, recording) && !a.audioFound) then InputMissing
      else if key.None? || !Resolves(rows, key.value, a.rival) then WorkFailed
      else if finishAt >= claimAt + lease then LeaseLost
      else Done
  }

  /** The job table a transcription leaves: the evaluation job ensured and its own row finished, or nothing of its
      own. A rival's row stays either way, since it belongs to the rival's transaction. */
  ghost function TranscriptionRows(
      rows: map<string, Row>, transcripts: map<Name, Transcript>, id: string, worker: string, claimAt: int, lease: int,
      a: Attempt, outcome: Outcome): map<string, Row>
    requires outcome.Done? || outcome.LeaseLost? ==>
      id in rows && RequestedKey(transcripts, rows[id].recording, a).Some?
  {
    if outcome.Done? then
      var key := RequestedKey(transcripts, rows[id].recording, a).value;
      Ensured(rows, a.evalId, NewJob(rows[id].recording, EVALUATING, key, 3), a.rival)
        [id := FinishedRow(rows[id], worker, claimAt, lease)]
    else if outcome.LeaseLost? then
      WithRival(rows, RequestedKey(transcripts, rows[id].recording, a).value, a.rival)
    else rows
  }

  ghost function TranscriptionStore(
      transcripts: map<Name, Transcript>, recording: Name, a: Attempt): map<Name, Transcript>
    requires RequestedKey(transcripts, recording, a).Some?
  {
    if Replaying(transcripts, recording) then transcripts else SaveTranscript(transcripts, recording, a.produced.value)
  }

  /** New ids are new, and a rival is after the same key. */
  ghost predicate FreshIds(
      rows: map<string, Row>, transcripts: map<Name, Transcript>, id: string, a: Attempt)
  {
    && a.evalId !in rows
    && (a.rival.Some? ==>
          && a.rival.value.id !in rows && a.rival.value.id != a.evalId
          && (id in rows && RequestedKey(transcripts, rows[id].recording, a).Some? ==>
                a.rival.value.row.key == RequestedKey(transcripts, rows[id].recording, a).value))
  }

  predicate Names(rows: map<string, Row>, announced: string, key: string) {
    announced in rows && rows[announced].key == key
  }

  class UnitOfWork {
    const jobs: Repository
    /** The job that each run, decision and outbox event was written for. */
    ghost var ledger: seq<string>
    var runs: seq<string>
    var decisions: seq<string>
    var audits: seq<string>
    var outbox: seq<OutboxEvent>
    var transcripts: map<Name, Transcript>
    var queue: seq<string>

    constructor (jobs: Repository)
      ensures this.jobs == jobs && runs == [] && decisions == [] && audits == [] && outbox == []
      ensures transcripts == map[] && queue == [] && ledger == []
    {
      this.jobs, ledger := jobs, [];
      runs, decisions, audits, outbox, transcripts, queue := [], [], [], [], map[], [];
    }

    /** All or nothing: the job is completed and exactly one run, decision, audit record and outbox
        event are added, or the database is as it was. */
    method ExecuteEvaluationJob(
        id: string, worker: string, claimAt: int, lease: int, inputsFound: bool,
        payload: Option<Payload>, finishAt: int) returns (outcome: Outcome)
      requires claimAt <= finishAt
      modifies this, jobs
      ensures outcome == EvaluationOutcome(old(jobs.rows), id, claimAt, lease, inputsFound, payload, finishAt)
      ensures outcome == Done ==>
          && jobs.rows == old(jobs.rows)[id := FinishedRow(old(jobs.rows)[id], worker, claimAt, lease)]
          && runs == old(runs) + [payload.value.run]
          && decisions == old(decisions) + [payload.value.decision]
          && audits == old(audits) + [payload.value.decision]
          && outbox == old(outbox) + [OutboxFor(payload.value)] && ledger == old(ledger) + [id]
      ensures outcome != Done ==>
          jobs.rows == old(jobs.rows) && runs == old(runs) && decisions == old(decisions)
          && audits == old(audits) && outbox == old(outbox) && ledger == old(ledger)
      ensures transcripts == old(transcripts) && queue == old(queue)
    {
      var savedRows, savedRuns, savedDecisions, savedAudits, savedOutbox := jobs.rows, runs, decisions, audits, outbox;
      var claimed := jobs.ClaimJobLeaseAtomic(id, worker, claimAt, lease);
      if claimed.None? { return NotClaimable; }
      if !inputsFound {
        jobs.rows := savedRows;
        return InputMissing;
      }
      if payload.None? {
        jobs.rows := savedRows;
        return WorkFailed;
      }
      FileRecords(payload.value);
      var fenced := jobs.CompleteJobWithLeaseFence(id, worker, claimed.value.generation, finishAt);
      if !fenced {
        jobs.rows := savedRows;
        runs, decisions, audits, outbox := savedRuns, savedDecisions, savedAudits, savedOutbox;
        return LeaseLost;
      }
      ledger := ledger + [id];
      return Done;
    }

    method FileRecords(p: Payload)
      modifies this`runs, this`decisions, this`audits, this`outbox
      ensures runs == old(runs) + [p.run] && decisions == old(decisions) + [p.decision]
      ensures audits == old(audits) + [p.decision] && outbox == old(outbox) + [OutboxFor(p)]
    {
      runs := runs + [p.run];
      decisions := decisions + [p.decision];
      audits := audits + [p.decision];
      outbox := outbox + [if p.passed then SaleApproved(p.decision) else SaleHeld(p.decision)];
    }

    method SaveTranscriptIdempotent(recording: Name, t: Transcript)
      modifies this`transcripts
      ensures transcripts == SaveTranscript(old(transcripts), recording, t)
    {
      var todo := transcripts.Keys;
      while todo != {}
        invariant todo <= transcripts.Keys && transcripts == old(transcripts)
        invariant forall r :: r in transcripts && r !in todo ==> transcripts[r].key != t.key
        decreases todo
      {
        var r :| r in todo;
        if transcripts[r].key == t.key { return; }
        todo := todo - {r};
      }
      if recording !in transcripts {
        transcripts := transcripts[recording := t];
      }
    }

    /** Get-or-create of the evaluation job, in the two forms the worker uses: a replay announces the
        job it built even if another writer's was kept; a fresh run announces the kept one. */
    method EnsureEvaluationJob(
        recording: Name, key: string, evalId: string, replay: bool, rival: Option<Rival>)
      returns (announced: Option<string>)
      requires evalId !in jobs.rows
      requires rival.Some? ==> rival.value.row.key == key && rival.value.id !in jobs.rows && rival.value.id != evalId
      modifies jobs
      ensures announced.Some? <==> old(Resolves(jobs.rows, key, rival))
      ensures jobs.rows == Ensured(old(jobs.rows), evalId, NewJob(recording, EVALUATING, key, 3), rival)
      ensures announced.Some? ==> KeyTaken(jobs.rows, key)
      ensures announced.Some? ==> (Names(jobs.rows, announced.value, key) <==> !old(Raced(jobs.rows, key, replay, rival)))
      ensures announced.Some? && old(Raced(jobs.rows, key, replay, rival)) ==> announced == Some(evalId)
    {
      if replay {
        var existing := jobs.GetByIdempotencyKey(key);
        if existing.Some? { return existing; }
      }
      var saved := jobs.SaveJobIdempotent(evalId, NewJob(recording, EVALUATING, key, 3), rival);
      if saved.Unresolved? { return None; }
      assert Names(jobs.rows, saved.id, key);
      return Some(if replay then evalId else saved.id);
    }

    /** The outcome, the job table and the transcript store of every attempt. A finished transcription leaves its
        evaluation job in the table, whichever path it took and whoever inserted it. The id it then announces on
        the queue names that job, except exactly when a replay lost the insert to a rival. */
    method ExecuteTranscriptionJob(
        id: string, worker: string, claimAt: int, lease: int, a: Attempt, finishAt: int)
      returns (outcome: Outcome)
      requires claimAt <= finishAt && FreshIds(jobs.rows, transcripts, id, a)
      modifies this, jobs
      ensures outcome == TranscriptionOutcome(old(jobs.rows), old(transcripts), id, claimAt, lease, a, finishAt)
      ensures jobs.rows == TranscriptionRows(old(jobs.rows), old(transcripts), id, worker, claimAt, lease, a, outcome)
      ensures outcome == Done ==>
          transcripts == TranscriptionStore(old(transcripts), old(jobs.rows)[id].recording, a)
      ensures outcome == Done ==>
          audits == old(audits) + if Replaying(old(transcripts), old(jobs.rows)[id].recording) then [] else [id]
      ensures outcome == Done ==>
          AnnouncedOnce(old(jobs.rows), jobs.rows, old(transcripts), old(queue), queue, id, a)
      ensures outcome == Done && RacedAttempt(old(jobs.rows), old(transcripts), id, a) ==>
          |queue| == |old(queue)| + 1 && queue[|old(queue)|] !in jobs.rows
      ensures outcome != Done ==> transcripts == old(transcripts) && queue == old(queue) && audits == old(audits)
      ensures runs == old(runs) && decisions == old(decisions) && outbox == old(outbox) && ledger == old(ledger)
    {
      var savedRows, savedTranscripts, savedAudits := jobs.rows, transcripts, audits;
      var claimed := jobs.ClaimJobLeaseAtomic(id, worker, claimAt, lease);
      if claimed.None? { return NotClaimable; }
      var recording := claimed.value.recording;
      var replay := recording in transcripts && transcripts[recording].available;
      if !a.recordingFound || (!replay && !a.audioFound) {
        jobs.rows := savedRows;
        return InputMissing;
      }
      if !replay && a.produced.None? {
        jobs.rows := savedRows;
        return WorkFailed;
      }
      var key := EvaluationKey(recording, if replay then transcripts[recording].key else a.produced.value.key, a.config);
      ghost var savedQueue := queue;
      outcome := StoreAndDispatch(id, claimed.value, worker, key, replay, a, finishAt);
      DispatchFits(savedRows, savedTranscripts, id, worker, claimAt, lease, a, finishAt, claimed.value, key,
                   jobs.rows, savedQueue, queue, outcome);
      if outcome != Done {
        jobs.rows := RolledBack(savedRows, jobs.rows, a.rival);
        transcripts, audits := savedTranscripts, savedAudits;
      } else if RacedAttempt(savedRows, savedTranscripts, id, a) {
        RacedReplayAnnouncesNothing(savedRows, savedTranscripts, id, worker, claimAt, lease, a, finishAt);
      }
    }

    /** A fresh transcript is stored and audited before the tail that both paths share. */
    method StoreAndDispatch(
        id: string, claimed: Row, worker: string, key: string, replay: bool, a: Attempt, finishAt: int)
      returns (outcome: Outcome)
      requires id in jobs.rows && jobs.rows[id] == claimed && a.evalId !in jobs.rows && (!replay ==> a.produced.Some?)
      requires claimed.worker == Some(worker) && claimed.status == Running && claimed.leaseUntil.Some?
      requires a.rival.Some? ==>
        a.rival.value.row.key == key && a.rival.value.id !in jobs.rows && a.rival.value.id != a.evalId
      modifies this`transcripts, this`audits, this`queue, jobs
      ensures transcripts == if replay then old(transcripts)
                             else SaveTranscript(old(transcripts), claimed.recording, a.produced.value)
      ensures audits == old(audits) + if replay then [] else [id]
      ensures Dispatched(old(jobs.rows), jobs.rows, old(queue), queue, id, claimed, key, replay, a, finishAt, outcome)
    {
      if !replay {
        SaveTranscriptIdempotent(claimed.recording, a.produced.value);
        audits := audits + [id];
      }
      outcome := DispatchAndComplete(id, claimed, worker, key, replay, a, finishAt);
    }

    /** The tail both paths share: make sure of the evaluation job, pass the fence, announce. */
    method DispatchAndComplete(
        id: string, claimed: Row, worker: string, key: string, replay: bool, a: Attempt, finishAt: int)
      returns (outcome: Outcome)
      requires id in jobs.rows && jobs.rows[id] == claimed && a.evalId !in jobs.rows
      requires claimed.worker == Some(worker) && claimed.status == Running && claimed.leaseUntil.Some?
      requires a.rival.Some? ==>
        a.rival.value.row.key == key && a.rival.value.id !in jobs.rows && a.rival.value.id != a.evalId
      modifies this`queue, jobs
      ensures Dispatched(old(jobs.rows), jobs.rows, old(queue), queue, id, claimed, key, replay, a, finishAt, outcome)
    {
      var announced := EnsureEvaluationJob(claimed.recording, key, a.evalId, replay, a.rival);
      if announced.None? { return WorkFailed; }
      ghost var inserted := jobs.rows;
      var fenced := jobs.CompleteJobWithLeaseFence(id, worker, claimed.generation, finishAt);
      if !fenced { return LeaseLost; }
      SameKeys(inserted, jobs.rows, id, key);
      queue := queue + [announced.value];
      return Done;
    }
  }

  /** What the tail does, from the claimed table on. */
  ghost predicate Dispatched(
      before: map<string, Row>, after: map<string, Row>, queue: seq<string>, queue': seq<string>,
      id: string, claimed: Row, key: string, replay: bool, a: Attempt, finishAt: int, outcome: Outcome)
    requires claimed.leaseUntil.Some?
  {
    var ensured := Ensured(before, a.evalId, NewJob(claimed.recording, EVALUATING, key, 3), a.rival);
    && outcome == (if !Resolves(before, key, a.rival) then WorkFailed
                   else if finishAt >= claimed.leaseUntil.value then LeaseLost else Done)
    && after == (if outcome == Done then ensured[id := Complete(claimed)] else ensured)
    && (outcome == Done ==> AnnouncedLast(before, after, queue, queue', key, replay, a))
    && (outcome != Done ==> queue' == queue)
  }

  /** One announcement: of the evaluation job, unless a raced replay announces the one that was not kept. */
  ghost predicate AnnouncedLast(
      before: map<string, Row>, after: map<string, Row>, queue: seq<string>, queue': seq<string>,
      key: string, replay: bool, a: Attempt)
  {
    && |queue'| == |queue| + 1 && queue'[..|queue|] == queue
    && KeyTaken(after, key)
    && (Names(after, queue'[|queue|], key) <==> !Raced(before, key, replay, a.rival))
    && (Raced(before, key, replay, a.rival) ==> queue'[|queue|] == a.evalId)
  }

  ghost predicate AnnouncedOnce(
      before: map<string, Row>, after: map<string, Row>, transcripts: map<Name, Transcript>,
      queue: seq<string>, queue': seq<string>, id: string, a: Attempt)
    requires id in before && RequestedKey(transcripts, before[id].recording, a).Some?
  {
    AnnouncedLast(before, after, queue, queue', RequestedKey(transcripts, before[id].recording, a).value,
                  Replaying(transcripts, before[id].recording), a)
  }

  /** The claimed row and the transcript are undone; a row that a rival has committed is not ours to undo. */
  function RolledBack(before: map<string, Row>, after: map<string, Row>, rival: Option<Rival>): map<string, Row> {
    if rival.Some? && rival.value.id in after then before[rival.value.id := rival.value.row] else before
  }

  lemma DispatchFits(
      rows: map<string, Row>, transcripts: map<Name, Transcript>, id: string, worker: string, claimAt: int, lease: int,
      a: Attempt, finishAt: int, claimed: Row, key: string,
      after: map<string, Row>, queue: seq<string>, queue': seq<string>, outcome: Outcome)
    requires FreshIds(rows, transcripts, id, a) && CanClaim(rows, id, claimAt)
    requires claimed == Claim(rows[id], worker, claimAt, lease)
    requires a.recordingFound && (Replaying(transcripts, claimed.recording) || a.audioFound)
    requires RequestedKey(transcripts, claimed.recording, a) == Some(key)
    requires Dispatched(rows[id := claimed], after, queue, queue', id, claimed, key,
                        Replaying(transcripts, claimed.recording), a, finishAt, outcome)
    ensures outcome == TranscriptionOutcome(rows, transcripts, id, claimAt, lease, a, finishAt)
    ensures outcome == Done ==>
      && after == TranscriptionRows(rows, transcripts, id, worker, claimAt, lease, a, outcome)
      && AnnouncedOnce(rows, after, transcripts, queue, queue', id, a)
    ensures outcome != Done ==>
      && queue' == queue
      && RolledBack(rows, after, a.rival) == TranscriptionRows(rows, transcripts, id, worker, claimAt, lease, a, outcome)
  {
    ClaimCommutes(rows, id, claimed, a.evalId, NewJob(claimed.recording, EVALUATING, key, 3), a.rival);
  }

  /** Claiming a row and ensuring another job do not disturb each other. */
  lemma ClaimCommutes(
      rows: map<string, Row>, id: string, claimed: Row, evalId: string, job: Row, rival: Option<Rival>)
    requires id in rows && claimed.key == rows[id].key && evalId !in rows
    requires rival.Some? ==> rival.value.id !in rows
    ensures KeyTaken(rows[id := claimed], job.key) <==> KeyTaken(rows, job.key)
    ensures Ensured(rows[id := claimed], evalId, job, rival) == Ensured(rows, evalId, job, rival)[id := claimed]
  {
    SameKeys(rows, rows[id := claimed], id, job.key);
  }

  lemma SameKeys(before: map<string, Row>, after: map<string, Row>, id: string, key: string)
    requires id in before && id in after && after == before[id := after[id]] && after[id].key == before[id].key
    ensures KeyTaken(before, key) <==> KeyTaken(after, key)
  {
    if k :| k in before && before[k].key == key {
      assert after[k].key == key;
    }
    if k :| k in after && after[k].key == key {
      assert before[k].key == key;
    }
  }

  /** Whenever a replay races a rival and still finishes in time, the job it built, which is the one it announces, does
      not exist; the rival's does. */
  lemma RacedReplayAnnouncesNothing(
      rows: map<string, Row>, transcripts: map<Name, Transcript>, id: string, worker: string, claimAt: int, lease: int,
      a: Attempt, finishAt: int)
    requires FreshIds(rows, transcripts, id, a) && CanClaim(rows, id, claimAt) && a.recordingFound
    requires RacedAttempt(rows, transcripts, id, a) && a.rival.value.visibleAfter <= POLLS && finishAt < claimAt + lease
    ensures TranscriptionOutcome(rows, transcripts, id, claimAt, lease, a, finishAt) == Done
    ensures
      var after := TranscriptionRows(rows, transcripts, id, worker, claimAt, lease, a, Done);
      a.evalId !in after && a.rival.value.id in after
  {
  }

  ghost predicate RacedAttempt(rows: map<string, Row>, transcripts: map<Name, Transcript>, id: string, a: Attempt) {
    && id in rows && Replaying(transcripts, rows[id].recording)
    && Raced(rows, RequestedKey(transcripts, rows[id].recording, a).value, true, a.rival)
  }

  /** And it does happen: one queued transcription, its transcript already stored, and a rival seen at the first poll. */
  lemma RacedReplayHappens(worker: string, config: string)
    ensures
      var rows := map["t" := NewJob("r", TRANSCRIBING, IdempotencyKey("r", TRANSCRIBING, "audio", "v1"), 3)];
      var transcripts: map<Name, Transcript> := map["r" := Transcript("words", true)];
      var key := EvaluationKey("r", "words", config);
      var rival := Rival("theirs", NewJob("r", EVALUATING, key, 3), 0);
      var a := Attempt(true, true, None, "ours", config, Some(rival));
      && FreshIds(rows, transcripts, "t", a)
      && TranscriptionOutcome(rows, transcripts, "t", 0, 60, a, 1) == Done
      && Raced(rows, key, true, a.rival)
      && "ours" !in TranscriptionRows(rows, transcripts, "t", worker, 0, 60, a, Done)
      && "theirs" in TranscriptionRows(rows, transcripts, "t", worker, 0, 60, a, Done)
  {
    var rows := map["t" := NewJob("r", TRANSCRIBING, IdempotencyKey("r", TRANSCRIBING, "audio", "v1"), 3)];
    var key := EvaluationKey("r", "words", config);
    assert TRANSCRIBING[0] != EVALUATING[0];
    if KeyTaken(rows, key) {
      KeyDeterminesJob("r", TRANSCRIBING, "audio", "v1", "r", EVALUATING, "words", config);
    }
  }
}

/** What the lease protocol guarantees over whole runs, starting from an empty job table. */
module JobSafety {
  import opened Wrappers
  import opened Jobs
  import opened JobProtocol
  import opened JobInvariant

  ghost predicate IsReachable(s: State, policy: RetryPolicy) {
    exists steps :: s == Run(START, steps, policy)
  }

  lemma ReachableInv(s: State, policy: RetryPolicy)
    requires IsReachable(s, policy)
    ensures Inv(s, policy)
  {
    var steps :| s == Run(START, steps, policy);
    Reachable(steps, policy);
  }

  lemma {:induction false} RunConcat(s: State, a: seq<Step>, b: seq<Step>, policy: RetryPolicy)
    ensures Run(s, a + b, policy) == Run(Run(s, a, policy), b, policy)
  {
    if b == [] {
      assert a + b == a;
    } else {
      var n := |b| - 1;
      RunConcat(s, a, b[..n], policy);
      assert (a + b)[..|a + b| - 1] == a + b[..n];
    }
  }

  /** A job's results are written at most once, and written exactly when the job reads COMPLETED. */
  lemma AtMostOneCommit(s: State, policy: RetryPolicy, job: string)
    requires IsReachable(s, policy)
    ensures Commits(s.log, job) <= 1
    ensures Commits(s.log, job) == 1 <==> job in s.rows && s.rows[job].status == Completed
  {
    ReachableInv(s, policy);
    if job in s.rows {
      assert RowMatchesLog(s.rows[job], job, s.log, policy);
    }
  }

  /** COMPLETED and DEAD_LETTER are never left, whatever happens afterwards; nor does any job lose
      its key, recording or stage to a later writer, or share its key with another job. */
  lemma FinishedStaysFinished(s: State, more: seq<Step>, policy: RetryPolicy, job: string)
    requires IsReachable(s, policy) && job in s.rows
    ensures
      var s' := Run(s, more, policy);
      && job in s'.rows
      && (Terminal(s.rows[job].status) ==> s'.rows[job] == s.rows[job])
      && s'.rows[job].key == s.rows[job].key && s'.rows[job].recording == s.rows[job].recording
      && s'.rows[job].stage == s.rows[job].stage
      && forall other :: other in s'.rows && s'.rows[other].key == s.rows[job].key ==> other == job
  {
    var steps :| s == Run(START, steps, policy);
    RunConcat(START, steps, more, policy);
    ReachableInv(Run(s, more, policy), policy);
    RunAdvances(s, more, policy);
    assert Advances(s.rows[job], Run(s, more, policy).rows[job]);
  }

  /** At most one outstanding attempt per job can pass the completion fence, and it is the latest
      one: an attempt that has been overtaken never passes again, even under the same worker id. */
  lemma OnlyLatestAttemptPasses(s: State, more: seq<Step>, policy: RetryPolicy, t: Token, u: Token)
    requires IsReachable(s, policy) && t in s.outstanding && t.job in s.rows
    ensures CanFinish(s, t) && CanFinish(s, u) && t.job == u.job ==> t == u
    ensures t.generation < s.rows[t.job].generation ==> !CanFinish(Run(s, more, policy), t)
  {
    RunAdvances(s, more, policy);
    assert Advances(s.rows[t.job], Run(s, more, policy).rows[t.job]);
  }

  /** A claim hands out a token no attempt ever held before. */
  lemma ClaimIsFresh(s: State, policy: RetryPolicy, id: string, worker: string)
    requires IsReachable(s, policy) && id in s.rows
    ensures
      var t := Token(id, worker, s.rows[id].generation + 1);
      t !in s.outstanding && forall i :: 0 <= i < |s.log| && s.log[i].Claimed? ==> s.log[i].token != t
  {
    ReachableInv(s, policy);
    var t := Token(id, worker, s.rows[id].generation + 1);
    assert !TokenFits(t, s.rows);
  }

  lemma {:induction false} ClaimsMonotone(log: seq<Event>, i: nat, j: nat, job: string)
    requires i <= j <= |log|
    ensures Claims(log[..i], job) <= Claims(log[..j], job)
    decreases j
  {
    if i < j {
      ClaimsMonotone(log, i, j - 1, job);
      assert log[..j][..j - 1] == log[..j - 1];
    }
  }

  /** Generations handed out for a job strictly increase, and the attempt that commits is the last
      one ever handed out. */
  lemma GenerationsIncrease(s: State, policy: RetryPolicy, i: nat, j: nat)
    requires IsReachable(s, policy) && i < |s.log| && j < |s.log|
    requires s.log[j].Claimed? && (s.log[i].Claimed? || s.log[i].Committed?) && s.log[i].token.job == s.log[j].token.job
    ensures s.log[i].Claimed? && i < j ==> s.log[i].token.generation < s.log[j].token.generation
    ensures s.log[i].Committed? ==> s.log[j].token.generation <= s.log[i].token.generation
  {
    ReachableInv(s, policy);
    assert TokenFits(s.log[j].token, s.rows);
    if s.log[i].Claimed? && i < j { LaterClaim(s, i, j); }
  }

  lemma {:induction false} LaterClaim(s: State, i: nat, j: nat)
    requires TokensFit(s) && i < j < |s.log| && s.log[i].Claimed? && s.log[j].Claimed?
    requires s.log[i].token.job == s.log[j].token.job
    ensures s.log[i].token.generation < s.log[j].token.generation
  {
    var job := s.log[i].token.job;
    ClaimsMonotone(s.log, i + 1, j, job);
    assert s.log[..i + 1] == s.log[..i] + [s.log[i]];
    LogGrows(s.log[..i], s.log[i], job);
  }

  /** Retries are exactly the recovery re-queues, never more than the policy allows, and a job is
      buried at most once: recovery touches a job at most maxRetries + 1 times in its life. */
  lemma RetriesBounded(s: State, policy: RetryPolicy, job: string)
    requires IsReachable(s, policy)
    ensures job in s.rows ==> s.rows[job].retryCount == Requeues(s.log, job)
    ensures Requeues(s.log, job) <= if policy.maxRetries > 0 then policy.maxRetries else 0
    ensures Burials(s.log, job) == 1 <==> job in s.rows && s.rows[job].status == DeadLetter
    ensures Burials(s.log, job) <= 1 && Burials(s.log, job) + Commits(s.log, job) <= 1
  {
    ReachableInv(s, policy);
    if job in s.rows {
      assert RowMatchesLog(s.rows[job], job, s.log, policy);
    }
  }

  /** A completed transcription, fresh or replayed, always leaves behind the evaluation job of the transcript
      and configuration it asked for, and no other job has that key. */
  lemma TranscriptionLeavesEvaluation(s: State, policy: RetryPolicy, job: string)
    requires IsReachable(s, policy) && job in s.rows
    requires s.rows[job].stage == TRANSCRIBING && s.rows[job].status == Completed
    ensures job in s.dispatched
    ensures
      var a := s.dispatched[job];
      && a.job in s.rows && s.rows[a.job].stage == EVALUATING && s.rows[a.job].recording == s.rows[job].recording
      && forall id :: id in s.rows ==>
           (s.rows[id].key == EvaluationKey(s.rows[job].recording, a.transcriptKey, a.config) <==> id == a.job)
  {
    ReachableInv(s, policy);
    assert AnnouncedFor(s.rows, s.dispatched, job);
  }

  /** What it asked for is the stored transcript of a replay or the one it produced, under its own configuration. */
  lemma AnnouncementIsRequested(s: State, policy: RetryPolicy, step: Step)
    requires IsReachable(s, policy) && WillCommit(s, step) && s.rows[step.token.job].stage == TRANSCRIBING
    ensures
      var recording := s.rows[step.token.job].recording;
      var s' := Apply(s, step, policy);
      && step.token.job in s'.dispatched
      && var a := s'.dispatched[step.token.job];
         && a.transcriptKey == (if Replays(s, recording) then s.transcripts[recording].key else step.transcriptKey)
         && a.config == step.config && a.job in s'.rows
         && s'.rows[a.job].key == IdempotencyKey(recording, EVALUATING, a.transcriptKey, a.config)
  {
    ReachableInv(s, policy);
    FinishAnnounces(s, step, policy);
    FinishShape(s, step, policy);
    assert AnnouncedFor(Apply(s, step, policy).rows, Apply(s, step, policy).dispatched, step.token.job);
  }

  /** And it stays what it was. */
  lemma {:induction false} AnnouncementsStay(s: State, more: seq<Step>, policy: RetryPolicy, job: string)
    requires IsReachable(s, policy) && job in s.rows && Transcribed(s.rows[job])
    ensures job in s.dispatched && job in Run(s, more, policy).dispatched
    ensures Run(s, more, policy).dispatched[job] == s.dispatched[job]
  {
    TranscriptionLeavesEvaluation(s, policy, job);
    if more != [] {
      var n := |more| - 1;
      AnnouncementsStay(s, more[..n], policy, job);
      RunAdvances(s, more[..n], policy);
      OnlyRunningDispatch(Run(s, more[..n], policy), more[n], policy, job);
    }
  }

  lemma OnlyRunningDispatch(s: State, step: Step, policy: RetryPolicy, job: string)
    requires job in s.rows && job in s.dispatched && Transcribed(s.rows[job])
    ensures job in Apply(s, step, policy).dispatched && Apply(s, step, policy).dispatched[job] == s.dispatched[job]
  {
  }

  // ---------------------------------------------------------------- progress

  lemma RunOne(s: State, a: Step, policy: RetryPolicy)
    ensures Run(s, [a], policy) == Apply(s, a, policy)
  {
    assert [a][..0] == [];
    assert Run(s, [], policy) == s;
  }

  lemma RunTwo(s: State, a: Step, b: Step, policy: RetryPolicy)
    ensures Run(s, [a, b], policy) == Apply(Apply(s, a, policy), b, policy)
  {
    RunOne(s, a, policy);
    assert [a, b][..1] == [a];
  }

  /** A claim followed at once by its own fenced commit completes the job. */
  lemma ClaimThenCommit(s: State, policy: RetryPolicy, id: string, worker: string, lease: nat, finish: Step)
    requires id in s.rows && Claimable(s.rows[id], s.now) && lease > 0
    requires finish.Finish? && finish.token == Token(id, worker, s.rows[id].generation + 1)
    requires finish.evalId !in s.rows || s.rows[id].stage != TRANSCRIBING
    ensures
      var s' := Run(s, [ClaimJob(id, worker, lease), finish], policy);
      && id in s'.rows && s'.rows[id] == Complete(Claim(s.rows[id], worker, s.now, lease)) && s'.now == s.now
      && s'.log == s.log + [Claimed(finish.token), Committed(finish.token)]
  {
    RunTwo(s, ClaimJob(id, worker, lease), finish, policy);
    var mid := Apply(s, ClaimJob(id, worker, lease), policy);
    assert CanFinish(mid, finish.token);
    if mid.rows[id].stage == TRANSCRIBING {
      var job := EvaluationJob(mid, mid.rows[id].recording, finish);
      assert KeyTaken(Insert(mid.rows, finish.evalId, job), job.key) by {
        if !KeyTaken(mid.rows, job.key) {
          assert finish.evalId in Insert(mid.rows, finish.evalId, job);
        }
      }
    }
    FinishShape(mid, finish, policy);
    assert s.log + [Claimed(finish.token)] + [Committed(finish.token)]
        == s.log + [Claimed(finish.token), Committed(finish.token)];
  }

  /** No dead ends: whatever crashed before, once the clock passes the lease any worker can still
      carry an unfinished job to completion. */
  lemma EveryJobCanFinish(s: State, policy: RetryPolicy, id: string, worker: string, lease: nat, finish: Step)
    requires IsReachable(s, policy) && id in s.rows && !Terminal(s.rows[id].status) && lease > 0
    requires finish.Finish? && finish.token == Token(id, worker, s.rows[id].generation + 1) && finish.evalId !in s.rows
    ensures exists wait: nat ::
      var s' := Run(s, [Tick(wait)] + [ClaimJob(id, worker, lease), finish], policy);
      id in s'.rows && s'.rows[id].status == Completed
  {
    var r := s.rows[id];
    var wait: nat := if r.leaseUntil.Some? && r.leaseUntil.value > s.now then r.leaseUntil.value - s.now else 0;
    RunOne(s, Tick(wait), policy);
    RunConcat(s, [Tick(wait)], [ClaimJob(id, worker, lease), finish], policy);
    ClaimThenCommit(Apply(s, Tick(wait), policy), policy, id, worker, lease, finish);
  }

  // ---------------------------------------------------------------- recovery's atomicity

  /** What recovery writes when its SELECT and its UPDATE are separated: the retry count, status and
      lease it computed from the row it saw, over whatever the row has become. */
  function WriteBack(current: Row, seen: Row, policy: RetryPolicy): Row {
    if policy.ShouldRetry(Transient, seen.retryCount)
    then current.(leaseUntil := None, retryCount := seen.retryCount + 1, status := Queued)
    else current.(leaseUntil := None, status := DeadLetter)
  }

  /** Separated, it breaks the protocol on every stale job that is stolen and completed in between. With retries
      left the completed job is queued again, and can be claimed and committed a second time; with none left
      the completed job is buried, for good. */
  lemma SplitRecoveryUndoesCompletion(
      s: State, policy: RetryPolicy, id: string, worker: string, lease: nat, first: Step, second: Step)
    requires IsReachable(s, policy) && id in s.rows && Stale(s.rows[id], s.now) && lease > 0
    requires first.Finish? && first.token == Token(id, worker, s.rows[id].generation + 1)
    requires second.Finish? && second.token == Token(id, worker, s.rows[id].generation + 2)
    requires s.rows[id].stage == TRANSCRIBING ==>
      first.evalId !in s.rows && second.evalId !in s.rows && first.evalId != second.evalId
    ensures
      var done := Run(s, [ClaimJob(id, worker, lease), first], policy);
      && id in done.rows && done.rows[id].status == Completed && Commits(done.log, id) == 1
      && var after := done.(rows := done.rows[id := WriteBack(done.rows[id], s.rows[id], policy)]);
         if policy.ShouldRetry(Transient, s.rows[id].retryCount)
         then Commits(Run(after, [ClaimJob(id, worker, lease), second], policy).log, id) == 2
         else after.rows[id].status == DeadLetter
  {
    AtMostOneCommit(s, policy, id);
    ClaimThenCommit(s, policy, id, worker, lease, first);
    FewNewRows(s, policy, id, worker, lease, first);
    var done := Run(s, [ClaimJob(id, worker, lease), first], policy);
    LogOfTwo(s.log, first.token, id);
    if policy.ShouldRetry(Transient, s.rows[id].retryCount) {
      var after := done.(rows := done.rows[id := WriteBack(done.rows[id], s.rows[id], policy)]);
      ClaimThenCommit(after, policy, id, worker, lease, second);
      LogOfTwo(done.log, second.token, id);
    }
  }

  lemma FewNewRows(s: State, policy: RetryPolicy, id: string, worker: string, lease: nat, finish: Step)
    requires finish.Finish?
    ensures forall i :: i in Run(s, [ClaimJob(id, worker, lease), finish], policy).rows ==> i in s.rows || i == finish.evalId
  {
    RunTwo(s, ClaimJob(id, worker, lease), finish, policy);
    var mid := Apply(s, ClaimJob(id, worker, lease), policy);
    OneNewRow(mid, finish, policy);
  }

  lemma OneNewRow(s: State, finish: Step, policy: RetryPolicy)
    requires finish.Finish?
    ensures forall i :: i in Apply(s, finish, policy).rows ==> i in s.rows || i == finish.evalId
  {
    FinishShape(s, finish, policy);
    if WillCommit(s, finish) && s.rows[finish.token.job].stage == TRANSCRIBING {
      InsertAdvances(s.rows, finish.evalId, EvaluationJob(s, s.rows[finish.token.job].recording, finish));
    }
  }

  lemma LogOfTwo(log: seq<Event>, t: Token, job: string)
    requires t.job == job
    ensures Commits(log + [Claimed(t), Committed(t)], job) == Commits(log, job) + 1
  {
    LogGrows(log, Claimed(t), job);
    LogGrows(log + [Claimed(t)], Committed(t), job);
    assert log + [Claimed(t)] + [Committed(t)] == log + [Claimed(t), Committed(t)];
  }

  /** What one atomic recovery would have done to the row that the write-back meets. */
  function Recovered(current: Row, now: int, policy: RetryPolicy): Row {
    if Stale(current, now) then Recover(current, policy) else current
  }

  /** A stale row of the same retry count, if a re-queue was computed; or a row that already is as written,
      because another recovery got there first. */
  predicate Harmless(current: Row, seen: Row, now: int, policy: RetryPolicy) {
    var retry := policy.ShouldRetry(Transient, seen.retryCount);
    if Stale(current, now) then (retry ==> current.retryCount == seen.retryCount)
    else if retry then
      current.leaseUntil.None? && current.status == Queued && current.retryCount == seen.retryCount + 1
    else
      current.leaseUntil.None? && current.status == DeadLetter
  }

  /** Exactly then does the write-back do what an atomic recovery would have done at that moment, whatever
      happened since the row was read. */
  lemma WriteBackHarmlessIff(s: State, more: seq<Step>, policy: RetryPolicy, id: string)
    requires id in s.rows && Stale(s.rows[id], s.now)
    ensures id in Run(s, more, policy).rows
    ensures
      var current, now := Run(s, more, policy).rows[id], Run(s, more, policy).now;
      WriteBack(current, s.rows[id], policy) == Recovered(current, now, policy)
      <==> Harmless(current, s.rows[id], now, policy)
  {
    RunAdvances(s, more, policy);
    assert Advances(s.rows[id], Run(s, more, policy).rows[id]);
  }

  /** Re-checking status and generation at the write implies that condition: if both still match, nothing
      happened to the job in between. */
  lemma GuardedWriteBackIsAtomic(s: State, more: seq<Step>, policy: RetryPolicy, id: string)
    requires id in s.rows && Stale(s.rows[id], s.now)
    requires id in Run(s, more, policy).rows
    requires Run(s, more, policy).rows[id].status == Running
    requires Run(s, more, policy).rows[id].generation == s.rows[id].generation
    ensures Run(s, more, policy).rows[id] == s.rows[id] && Stale(s.rows[id], Run(s, more, policy).now)
    ensures WriteBack(Run(s, more, policy).rows[id], s.rows[id], policy) == Recover(Run(s, more, policy).rows[id], policy)
  {
    UntouchedSince(s, more, policy, id);
    RunAdvances(s, more, policy);
  }

  lemma {:induction false} UntouchedSince(s: State, more: seq<Step>, policy: RetryPolicy, id: string)
    requires id in s.rows
    ensures id in Run(s, more, policy).rows
    ensures
      var r := Run(s, more, policy).rows[id];
      r.generation == s.rows[id].generation && r.status == Running ==> r == s.rows[id]
  {
    RunAdvances(s, more, policy);
    if more != [] {
      var n := |more| - 1;
      UntouchedSince(s, more[..n], policy, id);
      RunAdvances(s, more[..n], policy);
      StillRunning(Run(s, more[..n], policy), more[n], policy, id);
      assert Advances(s.rows[id], Run(s, more[..n], policy).rows[id]);
    }
  }

  lemma StillRunning(s: State, step: Step, policy: RetryPolicy, id: string)
    requires id in s.rows
    ensures id in Apply(s, step, policy).rows
    ensures
      var r := Apply(s, step, policy).rows[id];
      r.status == Running ==> r == s.rows[id] || r.generation > s.rows[id].generation
  {
    StepAdvances(s, step, policy);
    if step.Finish? {
      FinishShape(s, step, policy);
      if WillCommit(s, step) && s.rows[step.token.job].stage == TRANSCRIBING {
        InsertAdvances(s.rows, step.evalId, EvaluationJob(s, s.rows[step.token.job].recording, step));
      }
    }
  }
}

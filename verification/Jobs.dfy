/** Durable pipeline jobs: packages/domain/jobs.py, and the row updates that
    packages/infrastructure/database/repositories/job_repository.py and apps/worker/tasks.py apply to them. */
module Jobs {
  import opened Wrappers

  datatype Status = Queued | Running | Completed | Failed | DeadLetter

  datatype Category =
    | Transient | RateLimited | ProviderUnavailable | Permanent | InvalidInput | PolicyFailure | UnknownCause

  datatype RetryPolicy = RetryPolicy(maxRetries: int, nonRetryable: set<Category>) {
    predicate ShouldRetry(category: Category, current: int) {
      category !in nonRetryable && current < maxRetries
    }
  }

  const NON_RETRYABLE := {Permanent, InvalidInput, PolicyFailure}

  function DefaultPolicy(maxRetries: int): RetryPolicy { RetryPolicy(maxRetries, NON_RETRYABLE) }

  /** Identifiers and stage names: the key format separates them with colons. */
  type Name = s: string | ':' !in s witness ""

  datatype Row = Row(
    recording: Name, stage: Name, key: string, status: Status, retryCount: int, maxRetries: int,
    worker: Option<string>, leaseUntil: Option<int>, generation: int)

  function IdempotencyKey(recording: Name, stage: Name, artifact: string, version: string): string {
    recording + ":" + (stage + ":" + (artifact + ":" + version))
  }

  function NewJob(recording: Name, stage: Name, key: string, maxRetries: int): Row {
    Row(recording, stage, key, Queued, 0, maxRetries, None, None, 0)
  }

  predicate Terminal(status: Status) { status == Completed || status == DeadLetter }

  /** The guarded UPDATE statements, row by row. */
  predicate Claimable(r: Row, now: int) {
    !Terminal(r.status) && (r.leaseUntil.None? || r.leaseUntil.value <= now)
  }

  function Claim(r: Row, worker: string, now: int, lease: int): Row {
    r.(status := Running, worker := Some(worker), leaseUntil := Some(now + lease), generation := r.generation + 1)
  }

  predicate FenceHolds(r: Row, worker: string, generation: int, now: int) {
    && r.worker == Some(worker) && r.generation == generation
    && r.status == Running && r.leaseUntil.Some? && r.leaseUntil.value > now
  }

  function Complete(r: Row): Row { r.(status := Completed, leaseUntil := None) }

  predicate Stale(r: Row, now: int) {
    r.status == Running && r.leaseUntil.Some? && r.leaseUntil.value < now
  }

  function Fail(r: Row, category: Category, policy: RetryPolicy): Row {
    if policy.ShouldRetry(category, r.retryCount)
    then r.(leaseUntil := None, retryCount := r.retryCount + 1, status := Queued)
    else r.(leaseUntil := None, status := DeadLetter)
  }

  function Recover(r: Row, policy: RetryPolicy): Row { Fail(r, Transient, policy) }

  /** The in-memory entity. It and the SQL updates must move a job the same way. */
  class PipelineJob {
    var recording: Name
    var stage: Name
    var key: string
    var status: Status
    var retryCount: int
    var maxRetries: int
    var category: Option<Category>
    var worker: Option<string>
    var leaseUntil: Option<int>
    var generation: int

    function View(): Row
      reads this
    {
      Row(recording, stage, key, status, retryCount, maxRetries, worker, leaseUntil, generation)
    }

    constructor (recording: Name, stage: Name, artifact: string, version: string, maxRetries: int)
      ensures View() == NewJob(recording, stage, IdempotencyKey(recording, stage, artifact, version), maxRetries)
      ensures category == None
    {
      this.recording, this.stage, this.maxRetries := recording, stage, maxRetries;
      key := IdempotencyKey(recording, stage, artifact, version);
      status, retryCount, category, worker, leaseUntil, generation := Queued, 0, None, None, None, 0;
    }

    method AcquireLease(workerId: string, now: int, lease: int)
      modifies this
      ensures View() == Claim(old(View()), workerId, now, lease) && category == old(category)
    {
      status := Running;
      worker := Some(workerId);
      generation := generation + 1;
      leaseUntil := Some(now + lease);
    }

    method MarkCompleted()
      modifies this
      ensures View() == Complete(old(View())) && category == old(category)
    {
      status := Completed;
      leaseUntil := None;
    }

    method MarkFailed(cause: Category, policy: Option<RetryPolicy>)
      modifies this
      ensures View() == Fail(old(View()), cause, policy.GetOr(DefaultPolicy(old(maxRetries))))
      ensures category == Some(cause)
    {
      var active := policy.GetOr(DefaultPolicy(maxRetries));
      category := Some(cause);
      leaseUntil := None;
      if active.ShouldRetry(cause, retryCount) {
        retryCount := retryCount + 1;
        status := Queued;
      } else {
        status := DeadLetter;
      }
    }

    predicate IsLeaseExpired(now: int)
      reads this
    {
      if status != Running || leaseUntil.None? then false else now > leaseUntil.value
    }
  }

  /** The entity calls its lease expired exactly when recovery takes its row for stale. */
  lemma ExpiredIffStale(job: PipelineJob, now: int)
    ensures job.IsLeaseExpired(now) <==> Stale(job.View(), now)
  {
  }

  /** At no instant are a steal and a completion both possible; a held lease allows exactly one of
      them to the current holder and a claimant. */
  lemma StealAndCommitExclude(r: Row, worker: string, generation: int, now: int)
    ensures !(Claimable(r, now) && FenceHolds(r, worker, generation, now))
    ensures r.status == Running && r.leaseUntil.Some? && r.worker.Some?
        ==> (Claimable(r, now) <==> !FenceHolds(r, r.worker.value, r.generation, now))
    ensures Stale(r, now) ==> Claimable(r, now)
  {
  }

  lemma {:induction false} FirstColon(a: Name, x: string, b: Name, y: string)
    requires a + ":" + x == b + ":" + y
    ensures a == b && x == y
  {
    var whole := a + ":" + x;
    assert whole[|a|] == ':' && forall i :: 0 <= i < |a| ==> whole[i] != ':';
    assert whole == b + ":" + y;
    assert whole[|b|] == ':' && forall i :: 0 <= i < |b| ==> whole[i] != ':' by {
      assert forall i :: 0 <= i < |b| ==> whole[i] == b[i];
    }
    assert |a| == |b|;
    assert a == (a + ":" + x)[..|a|] == b;
    assert x == (a + ":" + x)[|a| + 1..] == y;
  }

  /** A key determines the recording and the stage it was built for. */
  lemma KeyDeterminesJob(r1: Name, s1: Name, a1: string, v1: string, r2: Name, s2: Name, a2: string, v2: string)
    requires IdempotencyKey(r1, s1, a1, v1) == IdempotencyKey(r2, s2, a2, v2)
    ensures r1 == r2 && s1 == s2
  {
    FirstColon(r1, s1 + ":" + (a1 + ":" + v1), r2, s2 + ":" + (a2 + ":" + v2));
    FirstColon(s1, a1 + ":" + v1, s2, a2 + ":" + v2);
  }
}

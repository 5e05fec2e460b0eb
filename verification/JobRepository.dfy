/** The job table's guarded updates: packages/infrastructure/database/repositories/job_repository.py,
    lines 56-195, and the recovery sweep of apps/worker/tasks.py, lines 646-687. */
module JobRepository {
  import opened Wrappers
  import opened Jobs
  import opened JobProtocol

  datatype SaveResult = Saved(id: string, inserted: bool) | Unresolved

  /** A transaction racing ours for the same unique key: it holds the key already, but its row can
      only be read after a number of polls. */
  datatype Rival = Rival(id: string, row: Row, visibleAfter: nat)

  const POLLS: nat := 30

  ghost function Swept(rows: map<string, Row>, now: int, policy: RetryPolicy): map<string, Row> {
    map id | id in rows :: if Stale(rows[id], now) then Recover(rows[id], policy) else rows[id]
  }

  ghost function StaleIds(rows: map<string, Row>, now: int): set<string> {
    set id | id in rows && Stale(rows[id], now)
  }

  class Repository {
    var rows: map<string, Row>

    constructor ()
      ensures rows == map[]
    {
      rows := map[];
    }

    method GetByIdempotencyKey(key: string) returns (found: Option<string>)
      ensures found.Some? ==> found.value in rows && rows[found.value].key == key
      ensures found.None? <==> !KeyTaken(rows, key)
    {
      var ids := rows.Keys;
      while ids != {}
        invariant ids <= rows.Keys
        invariant forall id :: id in rows && id !in ids ==> rows[id].key != key
        decreases ids
      {
        var id :| id in ids;
        if rows[id].key == key { return Some(id); }
        ids := ids - {id};
      }
      return None;
    }

    /** One unique key, one job: the first writer is kept and everyone else is handed its row. The
        only failure is a rival that holds the key for longer than the retry loop waits. */
    method SaveJobIdempotent(id: string, job: Row, rival: Option<Rival>) returns (r: SaveResult)
      requires rival.Some? ==> rival.value.row.key == job.key && rival.value.id !in rows && rival.value.id != id
      modifies this
      ensures old(KeyTaken(rows, job.key)) ==>
          r.Saved? && !r.inserted && r.id in rows && rows[r.id].key == job.key && rows == old(rows)
      ensures !old(KeyTaken(rows, job.key)) && rival.None? && id !in old(rows) ==>
          r == Saved(id, true) && rows == old(rows)[id := job]
      ensures !old(KeyTaken(rows, job.key)) && rival.None? && id in old(rows) ==>
          r == Unresolved && rows == old(rows)
      ensures !old(KeyTaken(rows, job.key)) && rival.Some? ==>
          if rival.value.visibleAfter <= POLLS
          then r == Saved(rival.value.id, false) && rows == old(rows)[rival.value.id := rival.value.row]
          else r == Unresolved && rows == old(rows)
      ensures rival.None? ==> rows == Insert(old(rows), id, job)
    {
      var existing := GetByIdempotencyKey(job.key);
      if existing.Some? { return Saved(existing.value, false); }
      if rival.None? && id !in rows {
        rows := rows[id := job];
        return Saved(id, true);
      }
      var poll := 0;
      while true
        invariant 0 <= poll <= POLLS && rows == old(rows)
        invariant rival.Some? ==> poll <= rival.value.visibleAfter
        decreases POLLS - poll
      {
        if rival.Some? && rival.value.visibleAfter == poll {
          rows := rows[rival.value.id := rival.value.row];
        }
        var winner := GetByIdempotencyKey(job.key);
        if winner.Some? {
          return Saved(winner.value, false);
        }
        if poll == POLLS { return Unresolved; }
        poll := poll + 1;
      }
    }

    method ClaimJobLeaseAtomic(id: string, worker: string, now: int, lease: int) returns (claimed: Option<Row>)
      modifies this
      ensures old(id in rows && Claimable(rows[id], now)) ==>
          claimed == Some(Claim(old(rows)[id], worker, now, lease)) && rows == old(rows)[id := claimed.value]
      ensures !old(id in rows && Claimable(rows[id], now)) ==> claimed == None && rows == old(rows)
    {
      if id !in rows { return None; }
      var r := rows[id];
      if r.status != Completed && r.status != DeadLetter && (r.leaseUntil.None? || r.leaseUntil.value <= now) {
        r := r.(status := Running, worker := Some(worker), leaseUntil := Some(now + lease), generation := r.generation + 1);
        rows := rows[id := r];
        return Some(r);
      }
      return None;
    }

    method CompleteJobWithLeaseFence(id: string, worker: string, generation: int, now: int) returns (done: bool)
      modifies this
      ensures done <==> old(id in rows && FenceHolds(rows[id], worker, generation, now))
      ensures done ==> rows == old(rows)[id := Complete(old(rows)[id])]
      ensures !done ==> rows == old(rows)
    {
      if id !in rows { return false; }
      var r := rows[id];
      done := r.worker == Some(worker) && r.generation == generation && r.status == Running
              && r.leaseUntil.Some? && r.leaseUntil.value > now;
      if done {
        rows := rows[id := r.(status := Completed, leaseUntil := None)];
      }
    }

    method RecoverStaleJobs(now: int, policy: RetryPolicy) returns (recovered: nat)
      modifies this
      ensures rows == Swept(old(rows), now, policy)
      ensures recovered == |StaleIds(old(rows), now)|
    {
      recovered := 0;
      var todo := set id | id in rows && Stale(rows[id], now);
      ghost var stale := todo;
      while todo != {}
        invariant todo <= stale && recovered == |stale| - |todo|
        invariant rows.Keys == old(rows).Keys
        invariant forall id :: id in rows ==>
            rows[id] == if id in stale && id !in todo then Recover(old(rows)[id], policy) else old(rows)[id]
        decreases todo
      {
        var id :| id in todo;
        var r := rows[id];
        if policy.ShouldRetry(Transient, r.retryCount) {
          r := r.(retryCount := r.retryCount + 1, status := Queued);
        } else {
          r := r.(status := DeadLetter);
        }
        rows := rows[id := r.(leaseUntil := None)];
        todo := todo - {id};
        recovered := recovered + 1;
      }
    }
  }

  /** Recovering some stale jobs one atomic step at a time. */
  ghost function Partly(rows: map<string, Row>, ids: set<string>, policy: RetryPolicy): map<string, Row> {
    map id | id in rows :: if id in ids then Recover(rows[id], policy) else rows[id]
  }

  lemma {:induction false} SweepOver(s: State, ids: set<string>, policy: RetryPolicy) returns (steps: seq<Step>)
    requires ids <= StaleIds(s.rows, s.now)
    ensures Run(s, steps, policy).rows == Partly(s.rows, ids, policy) && Run(s, steps, policy).now == s.now
    ensures |steps| == |ids| && forall i :: 0 <= i < |steps| ==> steps[i].RecoverJob?
    decreases ids
  {
    if ids == {} {
      steps := [];
    } else {
      var id :| id in ids;
      var before := SweepOver(s, ids - {id}, policy);
      steps := before + [RecoverJob(id)];
      assert steps[..|steps| - 1] == before;
      OneMoreSwept(s, Run(s, before, policy), ids, id, policy);
    }
  }

  lemma OneMoreSwept(s: State, mid: State, ids: set<string>, id: string, policy: RetryPolicy)
    requires ids <= StaleIds(s.rows, s.now) && id in ids
    requires mid.rows == Partly(s.rows, ids - {id}, policy) && mid.now == s.now
    ensures Apply(mid, RecoverJob(id), policy).rows == Partly(s.rows, ids, policy)
    ensures Apply(mid, RecoverJob(id), policy).now == s.now
  {
    assert mid.rows[id] == s.rows[id] && Stale(s.rows[id], s.now);
  }

  /** One recovery sweep is an interleaving of the protocol's atomic recovery steps, one per stale
      job, so everything proved of those steps holds of the sweep. */
  lemma SweepIsSteps(s: State, policy: RetryPolicy)
    ensures exists steps: seq<Step> ::
      && |steps| == |StaleIds(s.rows, s.now)| && (forall i :: 0 <= i < |steps| ==> steps[i].RecoverJob?)
      && Run(s, steps, policy).rows == Swept(s.rows, s.now, policy)
  {
    var steps := SweepOver(s, StaleIds(s.rows, s.now), policy);
    assert Partly(s.rows, StaleIds(s.rows, s.now), policy) == Swept(s.rows, s.now, policy);
  }
}

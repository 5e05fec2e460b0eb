/** The lease protocol as a state machine: every interleaving of claims, fenced commits, aborts,
    recoveries, submissions and clock ticks. Claim and commit are separate visible steps, which
    allows more interleavings than the single transaction of apps/worker/tasks.py, lines 489-643. */
module JobProtocol {
  import opened Wrappers
  import opened Jobs

  /** A worker's outstanding attempt: what it will present to the completion fence. */
  datatype Token = Token(job: string, worker: string, generation: int)

  /** What happened, in order. Committed stands for the whole set of results a transaction writes:
      evaluation run, gate decision, audit record and outbox event. */
  datatype Event = Claimed(token: Token) | Committed(token: Token) | Requeued(job: string) | Buried(job: string)

  datatype Transcript = Transcript(key: string, available: bool)

  datatype State = State(
    now: int, rows: map<string, Row>, outstanding: set<Token>, log: seq<Event>,
    transcripts: map<Name, Transcript>,
    dispatched: map<string, Announcement>)  // by transcription job

  /** The evaluation job a finished transcription leaves behind, and the transcript and configuration it asked for. */
  datatype Announcement = Announcement(job: string, transcriptKey: string, config: string)

  datatype Step =
    | Tick(elapsed: nat)
    | Submit(id: string, recording: Name, stage: Name, artifact: string, version: string, maxRetries: int)
    | ClaimJob(id: string, worker: string, lease: int)
    | Finish(token: Token, evalId: string, transcriptKey: string, available: bool, config: string)
    | Abandon(token: Token)
    | RecoverJob(id: string)

  const TRANSCRIBING: Name := "TRANSCRIBING"
  const EVALUATING: Name := "EVALUATING"

  const START := State(0, map[], {}, [], map[], map[])

  // ---------------------------------------------------------------- the job table

  ghost predicate KeyTaken(rows: map<string, Row>, key: string) {
    exists id :: id in rows && rows[id].key == key
  }

  ghost function JobWithKey(rows: map<string, Row>, key: string): (id: string)
    requires KeyTaken(rows, key)
    ensures id in rows && rows[id].key == key
  {
    var id :| id in rows && rows[id].key == key; id
  }

  /** save_job_idempotent: an existing key keeps its first writer; a taken id is refused. */
  ghost function Insert(rows: map<string, Row>, id: string, job: Row): map<string, Row> {
    if KeyTaken(rows, job.key) || id in rows then rows else rows[id := job]
  }

  /** save_transcript_idempotent: keyed by content, and one transcript id per recording. */
  ghost function SaveTranscript(ts: map<Name, Transcript>, recording: Name, t: Transcript): map<Name, Transcript> {
    if recording in ts || exists r :: r in ts && ts[r].key == t.key then ts else ts[recording := t]
  }

  // ---------------------------------------------------------------- steps

  predicate CanFinish(s: State, t: Token) {
    t in s.outstanding && t.job in s.rows && FenceHolds(s.rows[t.job], t.worker, t.generation, s.now)
  }

  predicate Replays(s: State, recording: Name) {
    recording in s.transcripts && s.transcripts[recording].available
  }

  /** The transcript an attempt ends up with. */
  function FinalKey(s: State, recording: Name, step: Step): string
    requires step.Finish?
  {
    if Replays(s, recording) then s.transcripts[recording].key else step.transcriptKey
  }

  function EvaluationKey(recording: Name, transcriptKey: string, config: string): string {
    IdempotencyKey(recording, EVALUATING, transcriptKey, config)
  }

  /** The evaluation job a finishing transcription asks for: keyed by the transcript it ends up with. */
  function EvaluationJob(s: State, recording: Name, step: Step): Row
    requires step.Finish?
  {
    NewJob(recording, EVALUATING, EvaluationKey(recording, FinalKey(s, recording, step), step.config), 3)
  }

  /** The transcription path: replay an available transcript or store a new one, then make sure
      the evaluation job exists. None when the insert cannot be resolved. */
  ghost function Downstream(s: State, recording: Name, step: Step): Option<(map<Name, Transcript>, map<string, Row>, string)>
    requires step.Finish?
  {
    var ts := if Replays(s, recording) then s.transcripts
              else SaveTranscript(s.transcripts, recording, Transcript(step.transcriptKey, step.available));
    var job := EvaluationJob(s, recording, step);
    var rows := Insert(s.rows, step.evalId, job);
    if KeyTaken(rows, job.key) then Some((ts, rows, JobWithKey(rows, job.key))) else None
  }

  ghost function Apply(s: State, step: Step, policy: RetryPolicy): State {
    match step
    case Tick(elapsed) => s.(now := s.now + elapsed)
    case Submit(id, recording, stage, artifact, version, maxRetries) =>
      s.(rows := Insert(s.rows, id, NewJob(recording, stage, IdempotencyKey(recording, stage, artifact, version), maxRetries)))
    case ClaimJob(id, worker, lease) =>
      if id in s.rows && Claimable(s.rows[id], s.now) then
        var row := Claim(s.rows[id], worker, s.now, lease);
        var token := Token(id, worker, row.generation);
        s.(rows := s.rows[id := row], outstanding := s.outstanding + {token}, log := s.log + [Claimed(token)])
      else s
    case Finish(token, _, _, _, _) =>
      var rolledBack := s.(outstanding := s.outstanding - {token});
      if !CanFinish(s, token) then rolledBack
      else
        var row := s.rows[token.job];
        var committed := rolledBack.(log := s.log + [Committed(token)]);
        if row.stage != TRANSCRIBING then committed.(rows := s.rows[token.job := Complete(row)])
        else
          var d := Downstream(s, row.recording, step);
          if d.None? then rolledBack
          else committed.(rows := d.value.1[token.job := Complete(row)], transcripts := d.value.0,
                          dispatched := s.dispatched[token.job :=
                            Announcement(d.value.2, FinalKey(s, row.recording, step), step.config)])
    case Abandon(token) => s.(outstanding := s.outstanding - {token})
    case RecoverJob(id) =>
      if id in s.rows && Stale(s.rows[id], s.now) then
        var row := Recover(s.rows[id], policy);
        s.(rows := s.rows[id := row], log := s.log + [if row.status == Queued then Requeued(id) else Buried(id)])
      else s
  }

  ghost function Run(s: State, steps: seq<Step>, policy: RetryPolicy): State {
    if steps == [] then s else Apply(Run(s, steps[..|steps| - 1], policy), steps[|steps| - 1], policy)
  }

  // ---------------------------------------------------------------- counting history

  function Claims(log: seq<Event>, job: string): nat {
    if log == [] then 0
    else Claims(log[..|log| - 1], job) + if log[|log| - 1].Claimed? && log[|log| - 1].token.job == job then 1 else 0
  }

  function Commits(log: seq<Event>, job: string): nat {
    if log == [] then 0
    else Commits(log[..|log| - 1], job) + if log[|log| - 1].Committed? && log[|log| - 1].token.job == job then 1 else 0
  }

  function Requeues(log: seq<Event>, job: string): nat {
    if log == [] then 0
    else Requeues(log[..|log| - 1], job) + if log[|log| - 1] == Requeued(job) then 1 else 0
  }

  function Burials(log: seq<Event>, job: string): nat {
    if log == [] then 0
    else Burials(log[..|log| - 1], job) + if log[|log| - 1] == Buried(job) then 1 else 0
  }

  lemma LogGrows(log: seq<Event>, e: Event, job: string)
    ensures Claims(log + [e], job) == Claims(log, job) + if e.Claimed? && e.token.job == job then 1 else 0
    ensures Commits(log + [e], job) == Commits(log, job) + if e.Committed? && e.token.job == job then 1 else 0
    ensures Requeues(log + [e], job) == Requeues(log, job) + if e == Requeued(job) then 1 else 0
    ensures Burials(log + [e], job) == Burials(log, job) + if e == Buried(job) then 1 else 0
  {
    assert (log + [e])[..|log|] == log;
  }
}

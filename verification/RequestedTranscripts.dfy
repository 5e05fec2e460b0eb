/** Whether the transcript an evaluation is keyed by is the one stored for its recording:
    apps/worker/tasks.py, lines 262-434, and save_transcript_idempotent of
    packages/infrastructure/database/repositories/transcript_repository.py, lines 220-263. */
module RequestedTranscripts {
  import opened Wrappers
  import opened Jobs
  import opened JobProtocol
  import opened JobInvariant
  import opened JobSafety

  /** Whether a finishing transcription leaves the transcript it asks to have evaluated stored for its recording: a
      replay does; a fresh one does if the recording has none yet and no other recording has the same, or if what
      the recording already has is the same. */
  ghost predicate KeepsRequested(s: State, recording: Name, step: Step)
    requires step.Finish?
  {
    if recording in s.transcripts then
      s.transcripts[recording].available || s.transcripts[recording].key == step.transcriptKey
    else
      forall r :: r in s.transcripts ==> s.transcripts[r].key != step.transcriptKey
  }

  /** The transcript stored for a job's recording is the one its evaluation was asked for. */
  predicate StoredAsRequested(s: State, job: string, recording: Name) {
    && job in s.dispatched && recording in s.transcripts
    && s.transcripts[recording].key == s.dispatched[job].transcriptKey
  }

  /** Any claimable transcription, finished at once: its evaluation is keyed by what is then stored exactly when the
      condition holds beforehand. */
  lemma DispatchMatchesStoreIff(s: State, policy: RetryPolicy, id: string, worker: string, lease: nat, finish: Step)
    requires id in s.rows && Claimable(s.rows[id], s.now) && s.rows[id].stage == TRANSCRIBING && lease > 0
    requires finish.Finish? && finish.token == Token(id, worker, s.rows[id].generation + 1) && finish.evalId !in s.rows
    ensures
      var s' := Run(s, [ClaimJob(id, worker, lease), finish], policy);
      && id in s'.rows && s'.rows[id].status == Completed && id in s'.dispatched
      && (StoredAsRequested(s', id, s.rows[id].recording) <==> KeepsRequested(s, s.rows[id].recording, finish))
  {
    RunTwo(s, ClaimJob(id, worker, lease), finish, policy);
    ClaimThenCommit(s, policy, id, worker, lease, finish);
    var mid := Apply(s, ClaimJob(id, worker, lease), policy);
    EvaluationCanBeEnsured(mid, mid.rows[id].recording, finish);
    MatchesOnFinish(mid, policy, finish);
  }

  lemma EvaluationCanBeEnsured(s: State, recording: Name, finish: Step)
    requires finish.Finish? && finish.evalId !in s.rows
    ensures Downstream(s, recording, finish).Some?
  {
    var job := EvaluationJob(s, recording, finish);
    if !KeyTaken(s.rows, job.key) {
      assert Insert(s.rows, finish.evalId, job)[finish.evalId].key == job.key;
    }
  }

  lemma MatchesOnFinish(s: State, policy: RetryPolicy, finish: Step)
    requires WillCommit(s, finish) && s.rows[finish.token.job].stage == TRANSCRIBING
    ensures
      var recording := s.rows[finish.token.job].recording;
      StoredAsRequested(Apply(s, finish, policy), finish.token.job, recording) <==> KeepsRequested(s, recording, finish)
  {
  }

  /** A queued transcription of recording "r" among stored transcripts. */
  function Queue(transcripts: map<Name, Transcript>): State {
    State(0, map["t" := NewJob("r", TRANSCRIBING, IdempotencyKey("r", TRANSCRIBING, "audio", "v2"), 3)],
          {}, [], transcripts, map[])
  }

  function Produced(key: string): Step { Finish(Token("t", "w", 1), "e", key, true, "") }

  /** An earlier, unavailable transcript of the recording stays: the evaluation asked for "new" finds "old". */
  lemma UnavailableTranscriptStays(policy: RetryPolicy)
    ensures
      var s := Run(Queue(map["r" := Transcript("old", false)]), [ClaimJob("t", "w", 60), Produced("new")], policy);
      && "t" in s.rows && s.rows["t"].status == Completed && !StoredAsRequested(s, "t", "r")
  {
    assert "new"[0] != "old"[0];
    DispatchMatchesStoreIff(Queue(map["r" := Transcript("old", false)]), policy, "t", "w", 60, Produced("new"));
  }

  /** A transcript of the same audio stored for another recording keeps this recording without one. */
  lemma SameAudioElsewhere(policy: RetryPolicy)
    ensures
      var s := Run(Queue(map["q" := Transcript("same", true)]), [ClaimJob("t", "w", 60), Produced("same")], policy);
      && "t" in s.rows && s.rows["t"].status == Completed && !StoredAsRequested(s, "t", "r")
  {
    var start := Queue(map["q" := Transcript("same", true)]);
    assert "q"[0] != "r"[0];
    assert start.transcripts["q"].key == "same";
    DispatchMatchesStoreIff(start, policy, "t", "w", 60, Produced("same"));
  }
}

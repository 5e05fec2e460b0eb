# Verified model of the sales-call compliance pipeline

The repository turns a recorded sales call into a compliance decision: workers claim jobs from a table, a
transcript is checked and measured, checks are evaluated, an AI may propose how to settle the doubtful ones, a
score and a gate decide, and a person may review what the gate held back. This project models the deterministic
parts of that pipeline in Dafny and proves what they promise.

`dafny verify dfyconfig.toml` checks everything.

## The parts

**Jobs** (`Jobs`, `JobProtocol`, `JobInvariant`, `JobSafety`, `JobRepository`, `WorkerTasks`, `WorkerRuns`,
`RequestedTranscripts`). A job row is claimed with a guarded update that hands out a new generation, and results are
committed only while that generation holds the lease. `JobProtocol` is a state machine over all interleavings of
clock ticks, submissions, claims, commits, abandoned attempts and recoveries, for any number of workers, who may all
share one worker id; `JobInvariant` is what every step keeps. A claim is a visible step of its own here, which allows
more interleavings than the program's single transaction. `JobSafety` states what holds of every run. The classes
carry the program's own guarded updates and transactions. `JobRepository` and `WorkerRuns` show that these are runs
of the protocol: a recovery sweep is a run of recovery steps, an evaluation that finishes is a claim, some time and a
fenced commit, a transcription that finishes is the same with a rival's insert in between, and an attempt that does
not finish changes nothing of its own. From there the guarantees reach the records: no job ever files more than one
run, decision and outbox event.

**Speech** (`Intervals`, `SpeechMetrics`, `BehaviorEvaluator`, `TranscriptValidator`). The meaning of a list of
intervals is the set of milliseconds it covers. Merging, talk time, dead air, shares and interruptions are all
proved against that set or against an all-pairs definition. `BehaviorEvaluator` says exactly when measuring once for
all checks is as good as measuring for each.

**Decision** (`CheckLibrary`, `Evaluation`, `Adjudication`, `Score`, `Gate`, `Engine`, `HumanReview`, `Pipeline`).
The adjudicator is an arbitrary function. `Pipeline` joins transcript checks, evaluation and gate to the records a
worker files and to any sequence of human reviews.

**Listening** (`FactualEvaluator`, `CorrectionRule`, `SpokenNumbers`). Answers to questions, corrections, the choice
of a matching value, and numbers said in words or digits. `CorrectionRule` compares what corrections are documented to
take back with what they do.

**Fast forms and canonical forms** (`RepeatOffences`, `Luhn`, `SnapshotSerializer`), over the helper modules
`Sorting`, `Rounding` and `Wrappers`.

## Where the code and its promises differ

Each of these is a lemma or a contract of the project; the model follows the code.

- Recovery selects stale rows and later writes them back. Treated as one atomic step per job, it is safe. As a
  separate read and write it can meet a job that was stolen and completed in between. If retries were left, the
  completed job is queued again and can commit a second time; if none were, the completed job is buried
  (`JobSafety.SplitRecoveryUndoesCompletion`). `JobSafety.WriteBackHarmlessIff` says exactly when such a write does
  what an atomic recovery would have done; re-checking status and generation is enough
  (`JobSafety.GuardedWriteBackIsAtomic`).
- A transcription that replays a stored transcript announces the evaluation job it built, not the one that was kept
  when a concurrent insert won, so the announced job does not exist (the contract of
  `WorkerTasks.UnitOfWork.ExecuteTranscriptionJob`, with `RacedReplayAnnouncesNothing` and `RacedReplayHappens`;
  apps/worker/tasks.py:166-193 against 391-434).
- An evaluation is keyed by the transcript its transcription produced, but that transcript is not always the one stored
  for the recording, which is the one the evaluation reads: an earlier, unavailable transcript of the recording stays,
  and one of the same audio stored for another recording keeps a new one from being stored at all
  (`RequestedTranscripts.DispatchMatchesStoreIff`, `UnavailableTranscriptStays`, `SameAudioElsewhere`).
- Interruption checks that leave the overlap tolerance unset filter at 300 ms what would have been measured at
  500 ms, so sharing one measurement changes their result (`BehaviorEvaluator.InterruptionReuseExact`).
- An accepted transcript may still not have an "active conversation", because ratios are rounded to four places
  (`TranscriptValidator.ActiveConversationIff`, `AcceptedWithoutConversation`).
- A correction is documented to retract what was said in the same breath or in the utterance immediately before it.
  The code retracts everything that ended within the window before the *latest* correction, so it may take back too
  much (`CorrectionRule.OneTooManyRetracted`), too little (`OneTooFewRetracted`), and give back what an earlier
  correction had retracted (`StaysRetractedIff`, `CorrectionReinstates`). `CorrectionRule.RulesAgreeIff` and
  `OneCorrectionAgreesIff` say when code and documentation agree.
- "Point twenty five" is documented as .25 and read as .205. A fraction is read as meant if and only if no tens word
  is followed by a unit (`SpokenNumbers.FractionUndershoots`, `PointTwentyFive`).
- A number in digits followed by "point" keeps at most six spoken digits; the rest become a quantity of their own
  (`SpokenNumbers.LongFractionsBreak`).
- The review service never reads the transition table it should obey. It obeys it exactly when reviewing does not
  start from a cancelled gate (`HumanReview.ReviewsLegalIff`).
- A list of versions that is accepted in one order is accepted in every order, and resolves alike, exactly when no
  period that ends before it starts shares its start date with a proper one (`CheckLibrary.OrderMattersIff`,
  `InvertedPeriodBreaksOrder`). Only versions built directly can be so: `create` refuses inverted periods, and so does
  the table's check constraint (packages/infrastructure/database/models/checks.py:79).
- The canonical form of a dictionary shows the order in which it was filled exactly when two of its keys print alike
  and hold different content (`SnapshotSerializer.OrderShowsIff`, `AlikeKeysLoseOrder`). The fields of a snapshot are
  declared with text keys, so a caller would have to pass keys such as 1 and "1" outside that type.

## Model

| member | source | states |
|---|---|---|
| Jobs.PipelineJob.constructor | packages/domain/jobs.py:86-118 | a new job is queued, unleased, at generation 0, and keyed by recording, stage, artifact and version |
| Jobs.PipelineJob.AcquireLease | packages/domain/jobs.py:127-136 | the entity makes exactly the transition the claim makes on the row |
| Jobs.PipelineJob.MarkCompleted | packages/domain/jobs.py:145-151 | the whole row after completion: COMPLETED without a lease, with worker, generation and retries as they were |
| Jobs.PipelineJob.MarkFailed | packages/domain/jobs.py:153-171 | a retryable failure below the limit re-queues and counts one retry; any other buries the job |
| Jobs.ExpiredIffStale | packages/domain/jobs.py:173-178 | the entity calls its lease expired exactly when recovery takes its row for stale |
| Jobs.StealAndCommitExclude | packages/infrastructure/database/repositories/job_repository.py:141-184 | at no instant are a steal and a fenced completion of the same row both enabled, and a held lease always allows exactly one of them |
| Jobs.KeyDeterminesJob | packages/domain/jobs.py:113-125 | equal idempotency keys mean the same recording and stage |
| JobInvariant.Reachable | apps/worker/tasks.py:471-687 | the invariant (rows agree with the log, tokens fit, keys unique, transcriptions announced) holds after every interleaving of steps |
| JobInvariant.InvKept | apps/worker/tasks.py:471-687 | every single step keeps that invariant |
| JobInvariant.RunAdvances | packages/infrastructure/database/repositories/job_repository.py:130-195 | over any run no row goes back: generations do not fall, finished rows and keys do not change, the clock does not run back |
| JobSafety.AtMostOneCommit | packages/infrastructure/database/repositories/job_repository.py:166-195 | on every run a job's results are committed at most once, and exactly once iff the job reads COMPLETED |
| JobSafety.FinishedStaysFinished | packages/infrastructure/database/repositories/job_repository.py:130-155 | COMPLETED and DEAD_LETTER rows never change again; a job never loses its key to, or shares it with, another job |
| JobSafety.OnlyLatestAttemptPasses | packages/infrastructure/database/repositories/job_repository.py:176-195 | at most one outstanding attempt per job passes the fence, and an overtaken one never does again even under the same worker id |
| JobSafety.ClaimIsFresh | packages/infrastructure/database/repositories/job_repository.py:146-154 | a claim hands out a token no attempt on any earlier run held |
| JobSafety.GenerationsIncrease | packages/infrastructure/database/repositories/job_repository.py:146-154 | generations handed out strictly increase, and nothing is handed out after the committing one |
| JobSafety.RetriesBounded | apps/worker/tasks.py:656-685 | the retry count is the number of re-queues and never passes the policy; a job is buried at most once and never both buried and committed |
| JobSafety.TranscriptionLeavesEvaluation | apps/worker/tasks.py:166-193 | in every reachable state a completed transcription has in the table the evaluation job keyed by the recording, transcript and configuration it asked for, and no other job has that key |
| JobSafety.AnnouncementIsRequested | apps/worker/tasks.py:171-183 | what it asked for is the stored transcript of a replay or the one it produced, under its own configuration |
| JobSafety.AnnouncementsStay | apps/worker/tasks.py:391-434 | nothing that happens later changes which evaluation a transcription left behind |
| RequestedTranscripts.DispatchMatchesStoreIff | apps/worker/tasks.py:262-434 | the transcript stored for the recording is the one the dispatched evaluation is keyed by iff it is replayed, or nothing was stored for the recording or under that key before, or what the recording had is the same |
| RequestedTranscripts.UnavailableTranscriptStays | packages/infrastructure/database/repositories/transcript_repository.py:220-263 | an input where an earlier, unavailable transcript stays and the evaluation asks for another |
| RequestedTranscripts.SameAudioElsewhere | packages/infrastructure/database/repositories/transcript_repository.py:226-230 | an input where nothing is stored for the recording, because another one has the same transcript |
| JobSafety.ClaimThenCommit | apps/worker/tasks.py:489-622 | a claim followed by its own fenced commit completes the job |
| JobSafety.EveryJobCanFinish | apps/worker/tasks.py:646-687 | from every reachable state, every unfinished job can still be completed by any worker after a finite wait |
| JobSafety.SplitRecoveryUndoesCompletion | apps/worker/tasks.py:650-685 | with recovery's read and write separated, every stale job that is stolen and completed in between is either re-queued and can commit twice, or buried although completed, by whether retries were left |
| JobSafety.WriteBackHarmlessIff | apps/worker/tasks.py:650-685 | after any steps, the separated write does what an atomic recovery would do iff the row is stale with the retry count that was read (when a re-queue was computed), or already is as written |
| JobSafety.GuardedWriteBackIsAtomic | apps/worker/tasks.py:650-685 | if status and generation still match at the write, nothing happened to the row and the write is the atomic recovery |
| JobRepository.Repository.GetByIdempotencyKey | packages/infrastructure/database/repositories/job_repository.py:56-66 | finds the job of a key, and finds nothing exactly when no row has it |
| JobRepository.Repository.SaveJobIdempotent | packages/infrastructure/database/repositories/job_repository.py:68-115 | the first writer of a key is kept and everybody is handed its row, also when a rival inserts in between; it fails exactly when the rival stays invisible for all polls, or the id is taken |
| JobRepository.Repository.ClaimJobLeaseAtomic | packages/infrastructure/database/repositories/job_repository.py:117-164 | claims iff the job is unfinished and its lease is absent or has run out, and changes that row only |
| JobRepository.Repository.CompleteJobWithLeaseFence | packages/infrastructure/database/repositories/job_repository.py:166-196 | completes iff worker, generation, status and lease all still hold, and otherwise changes nothing |
| JobRepository.Repository.RecoverStaleJobs | apps/worker/tasks.py:646-687 | exactly the stale rows are re-queued or buried, and their number is returned |
| JobRepository.SweepIsSteps | apps/worker/tasks.py:646-687 | one sweep is a run of recovery steps and nothing else, one per stale job |
| WorkerTasks.UnitOfWork.ExecuteEvaluationJob | apps/worker/tasks.py:471-643 | all or nothing: a completed row with one run, decision, audit record and outbox event, or an unchanged database |
| WorkerTasks.UnitOfWork.EnsureEvaluationJob | apps/worker/tasks.py:166-180 | succeeds iff the key is taken, nobody races, or the rival is seen in time; gives the exact table; the announced id is the kept job's except when a replay lost to a rival |
| WorkerTasks.UnitOfWork.ExecuteTranscriptionJob | apps/worker/tasks.py:115-468 | the exact outcome, job table, transcript store, audit and announcement of every attempt on both paths; a raced replay announces an id that is not in the table |
| WorkerTasks.RacedReplayAnnouncesNothing | apps/worker/tasks.py:171-193 | whenever a replay races a rival in time it finishes, and the job it built is not in the table it leaves |
| WorkerTasks.RacedReplayHappens | apps/worker/tasks.py:171-193 | an input on which that happens |
| WorkerRuns.EvaluationIsRun | apps/worker/tasks.py:471-643 | an evaluation that is done is the run of a claim, some time and a fenced commit; any other is the empty run |
| WorkerRuns.TranscriptionIsRun | apps/worker/tasks.py:115-468 | a transcription that is done is the run of a claim, some time, a rival's insert and a finish, with the same job table and transcripts; one that lost its lease is the rival's insert alone; any other is the empty run |
| WorkerRuns.EachJobFilesOnce | apps/worker/tasks.py:571-622 | over any history of evaluations amid any protocol steps, a job files at most one run, decision and outbox event, all from one evaluation, and has filed them iff it reads COMPLETED |
| WorkerRuns.Serve | apps/worker/tasks.py:471-643 | the transaction of ExecuteEvaluationJob keeps the database showing such a history |
| Intervals.UnionIntervals | packages/domain/speech_metrics.py:26-45 | merging in one pass gives a separated list covering exactly the same milliseconds |
| Intervals.TotalDurationMs | packages/domain/speech_metrics.py:48-50 | the total is the number of distinct covered milliseconds |
| Intervals.UnionCorrect | packages/domain/speech_metrics.py:26-45 | the same for the merge as a function, and positive lengths stay positive |
| Intervals.DurationIsCardinality | packages/domain/speech_metrics.py:48-50 | duration is the cardinality of the covered set |
| Intervals.DurationMonotone | packages/domain/speech_metrics.py:48-50 | order and repetition do not matter, and more intervals never mean less time |
| Intervals.DurationInclusionExclusion | packages/domain/speech_metrics.py:48-50 | inclusion and exclusion under concatenation, hence subadditivity |
| Intervals.UnionIsCanonical | packages/domain/speech_metrics.py:26-45 | two lists merge alike iff they cover the same milliseconds |
| SpeechMetrics.Analyze | packages/domain/speech_metrics.py:101-274 | every reported figure, words per minute included, is the specified one, with the accumulating loops and the early break |
| SpeechMetrics.ScanInterruptions | packages/domain/speech_metrics.py:221-256 | the scan with its break finds the sorted list of all interrupting pairs |
| SpeechMetrics.FindDeadAir | packages/domain/speech_metrics.py:209-219 | the gaps of at least the threshold between merged speech |
| SpeechMetrics.InterruptionsExact | packages/domain/speech_metrics.py:221-256 | an interruption is reported iff some two utterances interrupt in the all-pairs sense, whatever the input order |
| SpeechMetrics.BreakHarmlessIff | packages/domain/speech_metrics.py:230-240 | the break and the overlap minimum agree with a plain all-pairs comparison iff the minimum is positive |
| SpeechMetrics.DeadAirExact | packages/domain/speech_metrics.py:209-219 | dead air is exactly the maximal silences of at least the threshold |
| SpeechMetrics.TalkTimeBounds | packages/domain/speech_metrics.py:162-198 | no role talks longer than everybody, and the roles together account for all speech |
| SpeechMetrics.SharesBounded | packages/domain/speech_metrics.py:162-198 | no talk share passes 100% |
| SpeechMetrics.SpeechPlusSilence | packages/domain/speech_metrics.py:162-219 | speech plus all gaps is last end minus first start |
| SpeechMetrics.MetricsIgnoreOrder | packages/domain/speech_metrics.py:101-274 | talk time, words, dead air and interruptions do not depend on input order |
| BehaviorEvaluator.DeadAirVerdictExact | packages/evaluation/evaluators/behavior.py:103-134 | the check fails iff the call holds a maximal silence longer than allowed that the shared measurement can see |
| BehaviorEvaluator.InterruptionVerdictExact | packages/evaluation/evaluators/behavior.py:136-180 | the check fails iff, comparing every turn with every turn, agents break in more often than allowed with an overlap of at least the tolerance and one millisecond |
| BehaviorEvaluator.DeadAirReuseExact | packages/evaluation/engine.py:183-195 | sharing one measurement equals measuring per check on every call iff at least 999 ms are tolerated |
| BehaviorEvaluator.InterruptionReuseExact | packages/evaluation/evaluators/behavior.py:82-152 | the same for interruptions, iff the tolerance is set and at least 1 ms |
| BehaviorEvaluator.RaiseMinimum | packages/evaluation/evaluators/behavior.py:143-152 | filtering a permissive measurement equals measuring strictly, element by element |
| TranscriptValidator.Validate | packages/application/services/transcript_validator.py:37-146 | the one-pass validator accepts iff the declarative predicate holds, and reports exactly the specified reasons and ratios |
| TranscriptValidator.AcceptedIffNoReasons | packages/application/services/transcript_validator.py:46-136 | no reason is given iff orders run 1..n, segments fit the audio, no speaker overlaps an own earlier end by over a second, both parties are heard, and lineage and availability hold |
| TranscriptValidator.LastEndIsMaximum | packages/application/services/transcript_validator.py:102-109 | the running value per speaker is the greatest earlier end, so neighbours stand for all pairs |
| TranscriptValidator.AcceptedActiveBounded | packages/application/services/transcript_validator.py:112-136 | acceptance bounds each role's active time by the audio duration |
| TranscriptValidator.ActiveConversationIff | packages/application/services/transcript_validator.py:28-30 | an accepted transcript has an active conversation iff each party fills more than one part in 20000 |
| TranscriptValidator.AcceptedWithoutConversation | packages/application/services/transcript_validator.py:126-129 | an accepted transcript that has none |
| CheckLibrary.ValidateNonOverlapping | packages/domain/check_library.py:139-155 | accepts iff neighbours by start date do not touch |
| CheckLibrary.Resolve | packages/domain/check_library.py:157-183 | validation error, the version in force, or the specified error |
| CheckLibrary.ValidatedNeverTwo | packages/domain/check_library.py:139-155 | checking neighbours is enough: no date has two versions in force, whatever made them |
| CheckLibrary.ValidatedIffNeverTwo | packages/domain/check_library.py:111-155 | for versions made by create, validation accepts iff no date has two in force |
| CheckLibrary.ResolutionUnambiguous | packages/domain/check_library.py:157-183 | the multiple-matches error is unreachable, and a resolved version is the only one in force |
| CheckLibrary.ResolutionIgnoresOrder | packages/domain/check_library.py:138-183 | resolution does not depend on the order of versions made by create |
| CheckLibrary.OrderMattersIff | packages/domain/check_library.py:138-183 | versions accepted in one order resolve alike in every order iff no inverted period shares its start date with a proper one |
| CheckLibrary.InvertedPeriodBreaksOrder | packages/domain/check_library.py:138-183 | an accepted list for which order matters |
| CheckLibrary.CreateGuards | packages/domain/check_library.py:93-132 | create refuses exactly the periods that are never in force |
| Adjudication.AdjudicateResults | packages/evaluation/policy/adjudication_policy.py:57-85 | each result is adjudicated on its own, in order |
| Adjudication.ProposalsAreBounded | packages/evaluation/policy/adjudication_policy.py:135-186 | for every adjudicator: settled results and criticality survive, changes need a confident verdict of that kind, and no critical check becomes PASS without the opt-in |
| Score.Calculate | packages/evaluation/policy/score_calculator.py:30-71 | the rounded weighted mean over eligible results, absent iff nothing is eligible |
| Score.ScoreWithin | packages/evaluation/policy/score_calculator.py:35-71 | the score lies between the least and greatest eligible scores, up to its rounding |
| Score.ScoreIgnoresOrder | packages/evaluation/policy/score_calculator.py:35-71 | reordering results changes nothing |
| Score.ScoreMonotone | packages/evaluation/policy/score_calculator.py:35-71 | raising scores never lowers the overall score |
| Score.PassingScoreBoundsFailures | packages/evaluation/policy/score_calculator.py:35-71 | a score at the threshold bounds the failed share of the weight |
| Gate.EvaluateGate | packages/evaluation/policy/gate_engine.py:50-242 | the decision is that of the first applicable row of the precedence table |
| Gate.PassedIffAllClear | packages/evaluation/policy/gate_engine.py:64-242 | PASSED iff no blocking row applies, automatic submission iff PASSED, and the decision is unique |
| Gate.PassedMeans | packages/evaluation/policy/gate_engine.py:64-242 | a passed sale has every critical check passed with confidence, the score at the threshold, and is not sampled |
| Gate.SamplingIsNested | packages/evaluation/policy/gate_engine.py:31-48 | a higher rate samples every sale a lower one does |
| Gate.SmallRatesSampleNobody | packages/evaluation/policy/gate_engine.py:31-48 | a rate can reach some sale iff it is above half a bucket |
| Engine.ExecuteEvaluation | packages/evaluation/engine.py:141-248 | evaluate, adjudicate, score and gate in that order |
| Engine.NoUnresolvedCriticalPasses | packages/evaluation/engine.py:209-248 | for every adjudicator and without the opt-in, a sale passes only if every critical check was PASS before adjudication |
| Engine.OptInLetsProposalPass | packages/evaluation/policy/adjudication_policy.py:135-171 | with the opt-in one confident proposal can pass a sale, so the default is needed |
| Engine.PassedSaleFailsLittle | packages/evaluation/policy/gate_engine.py:183-195 | when scores stay in 0..100 and failures score 0, a passed sale has failed at most 15.005% of its eligible weight |
| HumanReview.ReviewDesk.ProcessReview | packages/application/services/human_review_service.py:16-130 | the whole new state of an accepted review, and no change on a refused one |
| HumanReview.ReviewsLegalIff | packages/domain/state.py:53-93 | every sequence of reviews is legal in the transition table iff it does not start from CANCELLED, which it then never reaches |
| HumanReview.PassedIffOverridden | packages/application/services/human_review_service.py:41-120 | a reviewed gate is PASSED iff its last accepted review is the only override |
| HumanReview.PassedAbsorbs | packages/application/services/human_review_service.py:41-60 | once PASSED, no sequence of reviews changes anything |
| HumanReview.RecordsInLockstep | packages/application/services/human_review_service.py:62-120 | reviews, audit records and outbox events correspond one to one and chain from status to status |
| Pipeline.EvaluateSale | packages/evaluation/engine.py:83-248 | transcript checks and evaluation together: a sale that passes has an acceptable transcript and every critical check PASS on its own, and the payload says so |
| Pipeline.ServeSale | apps/worker/tasks.py:571-643 | evaluating a sale and filing the result is one event of a history, with that sale's payload |
| Pipeline.ApprovalsAreEarned | apps/worker/tasks.py:571-622 | over any history, a SaleApproved event was filed for its job's sale, by an attempt that found that sale with an acceptable transcript and every critical check PASS on its own; and no job has a second event |
| Pipeline.ApprovedSaleIsVerified | apps/worker/tasks.py:571-622 | when all attempts at a job read the same sale, an approval means that this sale is verified |
| WorkerRuns.FiledByOne | apps/worker/tasks.py:571-622 | every record was filed by one event of the history, with the contents of its payload |
| Pipeline.PassedMeansVerifiedOrOverridden | packages/evaluation/engine.py:209-248 | over gate and reviews: PASSED only if every critical check was verified or a person overrode; automatic submission only in the first case |
| RepeatOffences.BusiestWindow | packages/infrastructure/database/repositories/analytics_repository.py:299-310 | the two-pointer pass finds the greatest number of failures in any closed window, a window holding exactly that many, and moves its start fewer times than there are failures |
| RepeatOffences.CollectOccurrences | packages/infrastructure/database/repositories/analytics_repository.py:284-294 | the buckets hold every failure of every agent and check, in row order |
| RepeatOffences.FindRepeatOffences | packages/infrastructure/database/repositories/analytics_repository.py:272-328 | an agent and check are flagged, once, iff enough failures fit in one window, each with its busiest window, most frequent first |
| RepeatOffences.WindowsBounded | packages/infrastructure/database/repositories/analytics_repository.py:299-310 | bounding every stretch of the sorted moments bounds every closed window in time, including those that start between moments |
| SpokenNumbers.WordsToInteger | packages/evaluation/comparators.py:75-103 | the loop computes the specified reading, or none when a word is no number |
| SpokenNumbers.SpokenFraction | packages/evaluation/comparators.py:106-120 | the digits and the number of words of the fraction |
| SpokenNumbers.ExtractSpokenNumbers | packages/evaluation/comparators.py:123-185 | the index loop ends and emits exactly the specified quantities, no token being read twice |
| SpokenNumbers.WordsRoundTrip | packages/evaluation/comparators.py:75-103 | every number below a million is read back from its English spelling, with "and" put in anywhere |
| SpokenNumbers.DigitsAreRead | packages/evaluation/comparators.py:106-120 | digits said one by one are read exactly, whatever follows |
| SpokenNumbers.FractionUndershoots | packages/evaluation/comparators.py:114-117 | a fraction is never read larger than meant, and as meant iff no tens word is followed by a unit |
| SpokenNumbers.PointTwentyFive | packages/evaluation/comparators.py:114-117 | "twenty five" after the point is read as 205, a value of .205, and meant as 25 |
| SpokenNumbers.ExtractSplits | packages/evaluation/comparators.py:129-185 | a word outside the vocabulary separates: extraction distributes over it |
| SpokenNumbers.SpokenIsRead | packages/evaluation/comparators.py:159-181 | a quantity said in words, with "point" and digit words or without, yields exactly that quantity |
| SpokenNumbers.WrittenIsRead | packages/evaluation/comparators.py:133-155 | so does one in digits, with a spoken or digit fraction |
| SpokenNumbers.EveryQuantityIsHeard | packages/evaluation/comparators.py:123-185 | any number of quantities said apart are extracted, exactly and in order |
| SpokenNumbers.LongFractionsBreak | packages/evaluation/comparators.py:141-150 | a digit form keeps its spoken digits iff there are at most six; otherwise the rest is summed into another quantity |
| SpokenNumbers.SpelledOutIsRead | packages/evaluation/comparators.py:60-72 | the same round trip from the words themselves, through the vocabulary |
| Luhn.IsLuhnValid | packages/domain/security/pci_redaction.py:9-25 | the left-indexed parity loop decides the right-to-left rule of Annex B of ISO/IEC 7812-1 |
| Luhn.MaskCardNumber | packages/domain/security/pci_redaction.py:28-37 | masks iff valid |
| Luhn.WrongDigitDetected | packages/domain/security/pci_redaction.py:9-25 | changing one digit of a valid number makes it invalid |
| Luhn.SwapDetected | packages/domain/security/pci_redaction.py:9-25 | exchanging two digits, adjacent or not, goes unnoticed iff they are equal, are 0 and 9, or stand an even distance apart |
| Luhn.TwinErrorDetected | packages/domain/security/pci_redaction.py:9-25 | a repeated digit misread twice goes unnoticed iff it is one of 22-55, 33-66, 44-77 |
| Luhn.OneCheckDigit | packages/domain/security/pci_redaction.py:9-25 | every 12 to 18 digit prefix has exactly one valid check digit |
| Luhn.MaskKeepsLastFour | packages/domain/security/pci_redaction.py:28-37 | of a valid number, however punctuated, only the last four digits remain |
| Luhn.MaskLeavesNoNumber | packages/domain/security/pci_redaction.py:28-37 | no output is a valid number, so masking is idempotent |
| Luhn.MaskHidesTheRest | packages/domain/security/pci_redaction.py:28-37 | two valid numbers mask alike iff they end alike |
| FactualEvaluator.AnswersToQuestions | packages/evaluation/evaluators/factual.py:256-287 | the nested scan with its breaks returns, for exactly the answered questions, the first reply that starts in time |
| FactualEvaluator.AnswersInOrder | packages/evaluation/evaluators/factual.py:256-287 | replies come back in transcript order and from the answering side only |
| FactualEvaluator.ScopeSegments | packages/evaluation/evaluators/factual.py:233-254 | the segments in scope, in transcript order |
| FactualEvaluator.ExtractCandidates | packages/evaluation/evaluators/factual.py:289-326 | the loop builds the specified candidates in transcript order |
| FactualEvaluator.CandidatesExact | packages/evaluation/evaluators/factual.py:289-326 | a value is a candidate, or a correction, iff it was said on that side of some scoped segment's last marker |
| FactualEvaluator.ApplyCorrections | packages/evaluation/evaluators/factual.py:328-365 | splits the candidates into those not retracted and those retracted, in order |
| FactualEvaluator.CorrectionsStand | packages/evaluation/evaluators/factual.py:328-365 | corrections are never retracted and something always stands, so the fallback is never taken |
| FactualEvaluator.CorrectionsConserve | packages/evaluation/evaluators/factual.py:328-365 | nothing is lost or counted twice by the split |
| FactualEvaluator.Choose | packages/evaluation/evaluators/factual.py:167-169 | the first match if there is one, otherwise the first of the most similar |
| FactualEvaluator.Judge | packages/evaluation/evaluators/factual.py:125-198 | the exact finding in every case: record unknown, nothing said, a standing match, or the first of the most similar deciding between near miss and failure |
| FactualEvaluator.Evaluate | packages/evaluation/evaluators/factual.py:117-198 | the same from the call's segments: scoping, extraction, corrections and the finding composed |
| FactualEvaluator.PassesIff | packages/evaluation/evaluators/factual.py:472-525 | PASS iff a standing value matches, or the check version lets the nearest miss pass; full score iff a standing value matches, and otherwise zero, or none when the record is unknown |
| FactualEvaluator.FullScoreIff | packages/evaluation/evaluators/factual.py:117-198 | in terms of the call: full score iff some scoped segment says a matching value that is not taken back |
| CorrectionRule.RulesAgreeIff | packages/evaluation/evaluators/factual.py:337-363 | code and documented rule retract the same statements iff the utterances that end within the window before the latest correction are those right before a correction |
| CorrectionRule.OneCorrectionAgreesIff | packages/evaluation/evaluators/factual.py:337-363 | with one correcting utterance: iff what was stated right before it ended within the window and nothing stated elsewhere did |
| CorrectionRule.OneTooManyRetracted | packages/evaluation/evaluators/factual.py:356-363 | two statements within the window are both retracted, where the documented rule retracts one |
| CorrectionRule.OneTooFewRetracted | packages/evaluation/evaluators/factual.py:356-363 | after a pause beyond the window, or across an overlap, the statement right before a correction is not retracted |
| CorrectionRule.StaysRetractedIff | packages/evaluation/evaluators/factual.py:349-363 | as more is said, a retracted statement stays retracted iff a correction shares its utterance or the latest still starts within the window after it |
| CorrectionRule.CorrectionReinstates | packages/evaluation/evaluators/factual.py:349-363 | an input where a second correction brings back what the first retracted |
| SnapshotSerializer.RefusedIffHoldsSet | packages/application/services/snapshot_serializer.py:14-45 | normalisation refuses a value iff a set occurs in it at any depth |
| SnapshotSerializer.SameFormIffSameContent | packages/application/services/snapshot_serializer.py:14-61 | two snapshots have the same canonical form iff they have the same content, whatever order dictionaries were filled in at any depth |
| SnapshotSerializer.NormalizeIsIdempotent | packages/application/services/snapshot_serializer.py:14-45 | a canonical form is its own canonical form |
| SnapshotSerializer.LastOneWins | packages/application/services/snapshot_serializer.py:39-40 | the form of a dictionary holds, for each printed key, the last entry filled in under it and nothing else |
| SnapshotSerializer.OrderShowsIff | packages/application/services/snapshot_serializer.py:39-40 | the form is the same in every filling order iff the dictionary is refused, or keys that print alike hold the same content |
| SnapshotSerializer.AlikeKeysLoseOrder | packages/application/services/snapshot_serializer.py:39-40 | a dictionary whose filling order shows |

## Left out

- Database sessions, queues, object storage, web handlers, providers and adapters: I/O. Rows are maps, histories are
  sequences, the clock is an integer.
- The smoke job, the outbox dispatcher and the claim query behind it: outside the fencing protocol.
- Heartbeats, back-off delays, and the timestamps and explanations of records. The claim keeps an existing start
  time in the program; start times are not modelled.
- `PipelineJob.is_lease_expired` with no clock given reads the current time; here the time is always given.
- Recovery is one atomic step per job in `JobProtocol`; what goes wrong otherwise is stated in `JobSafety`.
- In `WorkerTasks` a transcription that loses its lease may leave behind a row that a rival inserted, because that row
  belongs to the rival's own transaction.
- In `WorkerRuns` a job goes to the worker function of its stage, as the queues send it
  (apps/worker/worker.py:65-72), and a rival is another attempt at the same evaluation job.
- Recording ids and stage names contain no colon in the model, as the generated ids of the program do not.
- Floating point: shares, ratios, scores and confidences are exact reals, rounded as Python's `round` rounds,
  half to even.
- Talk-ratio, speech-rate and objection checks: expressions over the figures proved here. Words are counted by the
  caller: an utterance carries their number.
- The validator's check that a role is one of three: the model's role type has only those three.
- Regular expressions, tokenisation, lower-casing, similarity ratios, SHA-256 and JSON printing: token lists are
  inputs, similarity and the sampling digest are arbitrary functions, and the canonical form stops at the
  normalised value. A printed moment is not compared with a text that happens to read the same.
- Digits outside ASCII, which `str.isdigit` accepts.
- `redact_pci_text`: the search for candidate numbers in a text is a regular expression.
- Emails, dates, identifiers, booleans and free text in comparators.py: extraction and comparison are arbitrary
  functions in `FactualEvaluator`. So is the resolution of the expected value, and evidence lists are left out.
- The order of equally frequent repeat offences, which follows dictionary insertion in the program, and the agent
  and team-lead names in their report.
- The remaining analytics summaries: counts and rates over one list.
- Pipeline status transitions of `state.py`: a constant table that nothing modelled here drives.
- Evidence grounding in the engine, and skipped checks.

# Verified model of the consultation service's stateful core

This project models six stateful components of the consultation service and proves what
their runs keep. Transactions and sections under a lock are atomic steps; everything that
happens between two steps (other requests, crashes, timeouts, cancellations, clocks that go
back) is covered by quantifying over all sequences of steps. Each component that updates
state is a class whose methods are proved against functions on values; the theorems are
about those functions.

* **Bounded executor** (`Executor.dfy`): admission with two counters and a condition. Both
  counters obey an exact law in every run; the two windows in which a cancellation leaks a
  slot or loses a wake-up appear in the law as counts, and concrete runs show both. Without
  them every reachable state drains.
* **Deletion outbox** (`Deletion.dfy`, `DeletionEffects.dfy`, `ManifestNames.dfy`,
  `ManifestReading.dfy`): tombstone, upload, mark, complete, by any number of workers that may
  crash or hold stale intents. No tombstoned session disappears before its manifest is stored
  for good; recovery drains the outbox; nobody but the owner ever starts a deletion.
* **Commit with duplicate guard** (`Progression.dfy`, `DuplicateReports.dfy`,
  `ComparisonUnits.dfy`, `CommitGuard.dfy`, `Conversation.dfy`, `FollowUpChoice.dfy`,
  `FollowUps.dfy`): the many-branch duplicate test is exactly "no core unit is novel"; the
  units survive the trip through the command exactly when nothing is cut; concurrent
  consultations on one session keep every strict turn progressing and never repeat a
  question, and a counting law says what the stored round and the number of questions depend
  on.
* **Attachment lifecycle** (`Attachments.dfy`, `AttachmentRuns.dfy`,
  `AttachmentConsults.dfy`, `AttachmentEffects.dfy`, `AttachmentHistory.dfy`,
  `AttachmentStore.dfy`): all table constraints in every reachable state, where a stored text
  comes from, how a consultation may leave its attachments, and why the history reader never
  raises.
* **Account store, login and limiter** (`Accounts.dfy`, `AccountEffects.dfy`, `Logins.dfy`,
  `AuthStore.dfy`, `RateLimit.dfy`): capacity, the e-mail index, final states, tokens, revoked sessions, what
  a password reset promises while logins are under way, and the fixed window.
* **Companions** (`Routing.dfy`, `TopicChoice.dfy`, `Health.dfy`): the negation-aware scan
  and the topic it leads to, and provider health with hysteresis.

The modules named *Effects* and `FollowUpChoice` say of every account, token, session, outbox
row and attachment which events change it and how, in terms of the state before and the event
alone, and what follows for runs: they fix each operation independently of its definition.

Ids are numbers that stand for UUIDs, times are microseconds. Text similarity, Unicode
normalisation, digests and encryption are parameters, with the laws they need stated where
they are used (`Progression.Measures`, `ComparisonUnits.Normalizer`,
`ManifestNames.CollisionFree`, `Logins.Encodes`); UUID texts, dates and timestamps are computed.

Where the code does not do what its names or messages suggest, the model follows the code
and a lemma gives the exact condition: the counters of the executor
(`Execution.CountersExactIffNoHandOffCut`), the two commit rechecks
(`CommitGuard.RechecksAgreeIff`), truncated units (`ComparisonUnits.RoundTripIff`), commit
order (`Conversation.GuardSeesTurnIff`), a reset beside a login under way
(`Logins.ResetHoldsIff`), the stored round and the number of questions
(`FollowUps.CountsAgreeIff`, `FollowUps.RoundNeverFallsIff`), fractional rate windows
(`RateLimit.TwiceTheLimitIff`), phrases that overlap themselves (`Routing.ScanIsExactIff`)
and the sample limit (`Health.RaisesIff`).

Check everything with `dafny verify dfyconfig.toml`.

## Model

| member | source | states |
|---|---|---|
| `Execution.StepKeepsCounters` | app/execution/bounded.py:86-94 | every atomic section of `run` keeps running = slots held + leaked, waiting = callers queued - leaked, and both maxima |
| `Execution.StepKeepsListed` | app/execution/bounded.py:116-123 | the condition's list holds exactly the sleeping waiters, each once |
| `Execution.StepKeepsAwake` | app/execution/bounded.py:116-188 | while someone sleeps, running + notified + lost wake-ups covers all slots; one section keeps it |
| `Execution.RunKeeps` | app/execution/bounded.py:86-188 | the three laws above after every interleaving of arrivals, checks, timeouts, cancellations and failures |
| `Execution.CountersExactIffNoHandOffCut` | app/execution/bounded.py:122-188 | `_running` and `_waiting` count their callers exactly, and stay in range, if and only if no caller was cancelled between its waiter's success and its own resumption |
| `Execution.ConcurrencyBounded` | app/execution/bounded.py:86-123 | with or without cut hand-offs, no more callers run than slots remain |
| `Execution.EntryMeaning` | app/execution/bounded.py:86-94 | admission and `queue_full` in terms of the callers really inside |
| `Execution.LeakOnlyGrows` | app/execution/bounded.py:181-188 | a leaked slot is never recovered |
| `Execution.AllSlotsLeakedIsForever` | app/execution/bounded.py:86-188 | once every slot has leaked, no continuation of the run admits anyone |
| `Execution.IdleCounters` | app/execution/bounded.py:181-188 | when everyone has left, the counters hold nothing but the leak |
| `Execution.NoLostWakeup` | app/execution/bounded.py:116-188 | without a notified waiter dying before its recheck, a free slot beside a sleeper implies someone about to recheck, whatever newcomers barge in |
| `Execution.CancelWokenKeepsAwakeIff` | app/execution/bounded.py:131-143 | when one notified waiter dies, the guarantee survives exactly if nobody sleeps or the rest still covers the slots |
| `Execution.DeadlockFree` | app/execution/bounded.py:86-188 | while no wake-up was lost and a slot is left unleaked, a non-empty executor has a caller that can move by itself |
| `Execution.ResumeHandsOver` | app/execution/bounded.py:155-188 | a caller that has learnt of its slot can leave with it, and can neither learn of it again nor be cut off from it |
| `Execution.CancelIff` | app/execution/bounded.py:125-188 | a caller can be cancelled while its wait lasts or in the hand-off, and which sections are open to it where |
| `Execution.SectionsMoveOn` | app/execution/bounded.py:86-188 | no section but a refused arrival can be repeated: each moves its caller on |
| `Execution.OthersStay` | app/execution/bounded.py:185-188 | a section moves no other caller, but for the longest sleeper when someone leaves |
| `Execution.WokenInOrder` | app/execution/bounded.py:185-188 | sleepers are woken in the order in which they lay down |
| `Execution.Drains` | app/execution/bounded.py:86-188 | from every reachable state with no wake-up lost and a slot left, the callers inside can all leave by their own sections, after which nobody is inside and `_running` is the leak |
| `Execution.SleeperNotified` | app/execution/bounded.py:181-188 | a reachable run in which the leaving caller wakes the sleeper |
| `Execution.HandOffTrace` | app/execution/bounded.py:122-157 | the run in which a cancelled caller leaves `_running` at 1 and `_waiting` at -1 with nobody inside |
| `Execution.LostWakeupTrace` | app/execution/bounded.py:138-143 | the run in which a sleeper stays beside a free slot |
| `Execution.BoundedExecutor.constructor` | app/execution/bounded.py:60-62 | an empty executor |
| `Execution.BoundedExecutor.Enter` | app/execution/bounded.py:86-94 | the first section: admit, queue or refuse, equal to the step on values |
| `Execution.BoundedExecutor.WaiterCheck` | app/execution/bounded.py:116-123 | the waiter takes a slot or goes to sleep |
| `Execution.BoundedExecutor.CallerResume` | app/execution/bounded.py:155-157 | the caller learns of its slot |
| `Execution.BoundedExecutor.AbandonWait` | app/execution/bounded.py:131-143 | a waiter cancelled or timed out leaves the condition's list |
| `Execution.BoundedExecutor.AbandonGranted` | app/execution/bounded.py:131-137 | a caller cancelled in the hand-off window |
| `Execution.BoundedExecutor.LeaveQueue` | app/execution/bounded.py:181-184 | the decrement of a caller that never acquired |
| `Execution.BoundedExecutor.Release` | app/execution/bounded.py:185-188 | the slot given back and one sleeper notified |
| `Deletion.BeginKeepsSound` | app/db/postgres.py:253-314 | the tombstone transaction keeps tombstone and outbox row paired with equal `deleted_at` |
| `Deletion.MarkKeepsSound` | app/db/postgres.py:316-363 | marking keeps the protocol sound when the manifest is stored |
| `Deletion.CompleteKeepsSound` | app/db/postgres.py:365-413 | completion removes the session only behind an uploaded manifest |
| `Deletion.FailureKeepsSound` | app/db/postgres.py:415-441 | recording a failure changes no protocol fact |
| `Deletion.JobsKeepSound` | app/jobs/cleanup.py:164-180 | session creation, the expiry job, plain deletion and outbox retention keep the protocol sound |
| `Deletion.PutStores` | app/deletion/service.py:209-218 | when the run's intents have different keys, an upload stores its own manifest and damages no other, however often repeated |
| `Deletion.NextKeepsSafe` | app/deletion/service.py:191-268 | no step of any worker, crash, retry or job breaks the protocol or loses a stored manifest, given different keys for the intents created |
| `Deletion.RunSafe` | app/deletion/service.py:156-268 | the protocol is sound after every run of any number of workers on stale intents |
| `Deletion.VanishingNeedsUpload` | app/db/postgres.py:365-413 | the only step that removes a tombstoned session is a completion behind a stored manifest |
| `Deletion.RemovalNeedsManifest` | app/deletion/service.py:191-252 | in every run whose created intents have different keys, a session is removed by the outbox only when its manifest is in the object store under its one key, where it stays |
| `Deletion.RemovalHappens` | app/deletion/service.py:156-174 | a reachable run in which one worker removes a tombstoned session |
| `Deletion.ManifestsPersist` | app/deletion/service.py:209-218 | objects are never lost in a run |
| `Deletion.ProtocolFacts` | app/db/postgres.py:309-313 | completed implies uploaded, uploaded implies stored, and the incomplete-intent error is unreachable |
| `Deletion.AttemptOutcome` | app/deletion/service.py:191-252 | one attempt succeeds exactly when no call raises and the clock is not behind the tombstone; it then completes this intent and touches no other |
| `Deletion.ResumeOutcome` | app/deletion/service.py:176-189 | a pass completes exactly the intents whose attempts succeed and counts them |
| `Deletion.CleanPass` | app/deletion/service.py:176-189 | with working services a pass completes min(limit, pending) intents |
| `Deletion.PassesShrink` | app/deletion/service.py:176-189 | every clean pass shrinks the outbox |
| `Deletion.RecoveryDrains` | app/deletion/service.py:176-189 | after any run, repeated clean passes empty the outbox and no tombstoned session remains |
| `Deletion.AttemptIsWorkerRun` | app/deletion/service.py:191-252 | every attempt, with any fault and on any intent, is a sequence of one worker's steps with nobody in between |
| `Deletion.ResumeIsRun` | app/deletion/service.py:176-189 | a whole pass, whatever fails in it, is part of a run and creates no intent |
| `Deletion.ListingMeaning` | app/db/postgres.py:443-463 | the listing names `limit` of the open intents, or all, each once |
| `Deletion.ListingOrdered` | app/db/postgres.py:443-463 | the listing is ordered by (`deleted_at`, `session_id`) |
| `Deletion.ListingTakesFirst` | app/db/postgres.py:443-463 | no open intent left out comes before one listed |
| `Deletion.FirstOf` | app/db/postgres.py:455-461 | the least of the rows |
| `Deletion.ListFirst` | app/db/postgres.py:443-463 | ORDER BY and LIMIT as a loop |
| `Deletion.Repository.constructor` | app/db/tables.py:587-614 | empty tables |
| `Deletion.Repository.BeginSessionDeletion` | app/db/postgres.py:253-314 | tombstone and outbox row in one transaction; an existing tombstone returns its intent |
| `Deletion.Repository.MarkManifestUploaded` | app/db/postgres.py:316-363 | the upload mark, idempotent, refused by the CHECK when the clock went back |
| `Deletion.Repository.CompleteSessionDeletion` | app/db/postgres.py:365-413 | false without an upload mark, otherwise session gone and row completed, idempotent |
| `Deletion.Repository.RecordDeletionFailure` | app/db/postgres.py:415-441 | only open rows are touched |
| `Deletion.Repository.ListPendingDeletions` | app/db/postgres.py:443-463 | the first `limit` open intents in order |
| `Deletion.DeletionService.CompleteOne` | app/deletion/service.py:191-252 | `_complete_intent` with its failure paths, equal to the attempt on values |
| `Deletion.DeletionService.FinishOne` | app/deletion/service.py:230-252 | the completing half, entered directly for an intent already uploaded |
| `Deletion.DeletionService.ResumePending` | app/deletion/service.py:176-189 | limit check, listing failure, and the counted pass |
| `Deletion.DeletionService.CompleteEach` | app/deletion/service.py:183-189 | the loop: failed intents skipped, others counted |
| `Deletion.DeletionService.DeleteSession` | app/deletion/service.py:156-174 | tombstone then completion; false for an unknown session |
| `DeletionEffects.LiveEndsIff` | app/db/postgres.py:253-314 | a live session ends exactly by a job that drops it or by the first deletion request of its own owner |
| `DeletionEffects.LiveEndsInRuns` | app/db/postgres.py:269-276 | the same in every run |
| `DeletionEffects.OwnerTombstones` | app/db/postgres.py:278-303 | what the request leaves: the tombstone, an open outbox row of the same instant and a worker on it |
| `DeletionEffects.StrangerChangesNothing` | app/db/postgres.py:269-276 | a request by anyone but the owner changes neither database nor objects and leaves its worker idle, tombstoned or not |
| `DeletionEffects.SecondRequestResumes` | app/db/postgres.py:304-314 | a repeated request of the owner takes up the first one where it stands |
| `DeletionEffects.SessionArisesIff` | app/db/postgres.py:110-150 | a session comes into being by its creation alone |
| `DeletionEffects.TombstoneEndsIff` | app/db/postgres.py:365-413 | a tombstoned session goes exactly when its own open row is completed behind an upload mark |
| `DeletionEffects.RowChanges` | app/db/postgres.py:316-441 | every change of an outbox row: marked, completed, a failure recorded, or retired after completion |
| `DeletionEffects.RowArisesIff` | app/db/postgres.py:292-303 | an outbox row comes into being by the owner's first request alone |
| `DeletionEffects.ObjectChanges` | app/deletion/service.py:209-218 | an object is written by a worker that sealed it, under its intent's key, and by nobody else |
| `DeletionEffects.WorkerMoves` | app/deletion/service.py:219-252 | a worker gets on exactly when its call succeeds |
| `DeletionEffects.WorkerOrder` | app/deletion/service.py:191-252 | a worker takes up open rows only and goes through its program in order |
| `DeletionEffects.WorkerCanGoOn` | app/deletion/service.py:191-252 | and each of these steps is open to it |
| `DeletionEffects.AnswersMeaning` | app/db/postgres.py:316-413 | what the marking and the completing transaction answer |
| `DeletionEffects.FailureIsFiled` | app/deletion/service.py:199-268 | a failed attempt leaves the row open, with the category of the call that failed |
| `DeletionEffects.OthersUntouched` | app/deletion/service.py:191-252 | an attempt touches no other session, row or object |
| `DeletionEffects.CompletedIsDone` | app/deletion/service.py:191-195 | an intent that was completed before needs nothing more |
| `DeletionEffects.DeleteOutcome` | app/deletion/service.py:156-174 | `delete_session`: no for a stranger, with nothing changed; for the owner yes, with the session gone and its manifest stored, exactly when no call raises and the clock does not go back |
| `DeletionEffects.RepeatedRequest` | app/deletion/service.py:156-174 | the owner's repeated request finishes what is left |
| `ManifestNames.UuidInjective` | app/deletion/service.py:43-52 | the text of a UUID determines it |
| `ManifestNames.YearBelow` | app/deletion/service.py:285-291 | the days of the years 1 to 9999, which is what a `datetime` can hold |
| `ManifestNames.CivilInjective` | app/deletion/service.py:285-291 | date and second of the day determine the instant |
| `ManifestNames.ClockInjective` | app/deletion/service.py:285-291 | the ISO text to the second determines the second |
| `ManifestNames.StampInjective` | app/deletion/service.py:285-291 | the two timestamp formats never collide |
| `ManifestNames.ManifestInjective` | app/deletion/service.py:43-52 | different intents have different manifests |
| `ManifestNames.ObjectKeyInjective` | app/deletion/service.py:270-282 | among intents whose manifests have no colliding digests, each has one key and no two share one |
| `ManifestNames.NamesAreFaithful` | app/deletion/service.py:270-282 | the program's names then satisfy what the protocol proof assumes |
| `ManifestNames.RemovalNeedsManifestText` | app/deletion/service.py:191-252 | the removal theorem for the program's manifest text and key: all it needs is that SHA-256 does not collide on the manifests of the intents the run creates |
| `ManifestNames.SomeDigestIsCollisionFree` | app/deletion/service.py:275-277 | that need is consistent: some digest of 64 characters never collides on manifests |
| `ManifestReading.PaddedReads` | app/deletion/service.py:285-291 | digits read back, by position, to the number they were written for |
| `ManifestReading.UuidReadsBack` | app/deletion/service.py:43-52 | the text of a UUID without its hyphens is its number in base 16 |
| `ManifestReading.CivilIsTheDate` | app/deletion/service.py:285-291 | the date of an instant is the one with its day number, by the closed Gregorian formula, counted from 1970-01-01 |
| `ManifestReading.ClockReadsBack` | app/deletion/service.py:285-291 | a timestamp reads back to its second |
| `ManifestReading.StampReadsBack` | app/deletion/service.py:285-291 | and to its microsecond, whose digits are there exactly when it is not zero |
| `ManifestReading.KeyDay` | app/deletion/service.py:270-282 | the day in an object key is the day of the manifest's timestamp |
| `Progression.CheckDuplicate` | app/agent/progression.py:436-511 | `find_duplicate` with its loop and early returns, equal to the function on values |
| `Progression.UniqueInOrder` | app/agent/progression.py:852-853 | `_unique` keeps each unit once, in the order of first mention |
| `Progression.NovelMeaning` | app/agent/progression.py:440-467 | `novel_units` lists exactly the core units that no earlier turn says in the same field |
| `Progression.ScanVerdict` | app/agent/progression.py:469-511 | from any point of the loop on, the four branches decide nothing but novelty |
| `Progression.VerdictIsNovelty` | app/agent/progression.py:436-511 | a duplicate is reported if and only if no core unit is novel for its own field, for any reflexive similarity |
| `Progression.HistoryOnlyRejects` | app/agent/progression.py:436-511 | a longer history never turns a duplicate into a non-duplicate |
| `Progression.EqualTurnNotNovel` | app/agent/progression.py:479-483 | a turn equal to an earlier one has nothing novel, so the exact branch needs no novelty test |
| `Progression.FirstHit` | app/agent/progression.py:469-497 | the reported turn is the first that matches |
| `DuplicateReports.TestMeaning` | app/agent/progression.py:466-496 | the four tests on one earlier turn, and which of them is reported |
| `DuplicateReports.ReportMeaning` | app/agent/progression.py:436-511 | the whole report: the first turn that fires, the reason in order of precedence, and what is reported when no single turn accounts for a stale candidate |
| `DuplicateReports.EqualReport` | app/agent/progression.py:466-482 | an equal turn that asked something is reported as a repeated question, not as exact |
| `DuplicateReports.NewUnitsReported` | app/agent/progression.py:449-464 | the units named as new are those no earlier turn says in the same field |
| `ComparisonUnits.TagInto` | app/agent/progression.py:518-524 | the inner loop with its early return at 48 units |
| `ComparisonUnits.EncodeUnits` | app/agent/progression.py:514-525 | `comparison_units`, equal to the first 48 tagged units |
| `ComparisonUnits.DecodeUnits` | app/agent/progression.py:539-572 | `_content_from_comparison_units`, equal to the row-wise definition |
| `ComparisonUnits.DecodeEncode` | app/agent/progression.py:514-572 | for any candidate the decoded command is its first 48 units in field order, each cut at the bound |
| `ComparisonUnits.FittingRoundTrip` | app/agent/progression.py:514-572 | when nothing is dropped or cut all seven fields come back |
| `ComparisonUnits.RoundTripIff` | app/agent/progression.py:514-572 | all seven fields come back if and only if at most 48 units and none over its room |
| `ComparisonUnits.ParseTagged` | app/agent/progression.py:539-562 | prefix, separator and the 2000-character cut parse back to field and text |
| `ComparisonUnits.OldUnitsAreReplies` | app/agent/progression.py:548-563 | a unit without one of the seven tags counts as a reply as it stands |
| `ComparisonUnits.TextWireLawful` | app/agent/progression.py:214-226 | the text form satisfies what the round trip assumes of it |
| `CommitGuard.RechecksAgreeIff` | app/db/session.py:1636-1677 | the SQLite and PostgreSQL rechecks decide alike on every command and latest turn, except exactly for unparseable stored text with a changed latest turn and a candidate of notices only |
| `CommitGuard.VerdictAgainstNothing` | app/agent/progression.py:436-511 | against an empty response only a candidate without core units is a duplicate |
| `CommitGuard.RecheckMeaning` | app/db/postgres.py:1631-1663 | with the latest turn unchanged the recheck rejects exactly commands whose units say nothing new beside it |
| `CommitGuard.RecheckOutcome` | app/db/session.py:1636-1685 | the answer of either store in every case: unchecked, no progress, conflict or accepted, in terms of novelty and of the turn seen |
| `CommitGuard.CorruptOutcome` | app/db/session.py:1636-1685 | the answer of SQLite for stored text that does not parse |
| `CommitGuard.RechecksDiffer` | app/db/session.py:1648-1664 | a command and a stored text on which the two stores do decide differently |
| `CommitGuard.CoreSurvives` | app/agent/progression.py:514-572 | a candidate with a core unit still has one after encoding and decoding |
| `CommitGuard.RechecksAgreeOnCommits` | app/agent/pipeline.py:3291-3386 | the two stores decide alike on every command that `_persist_success` sends, whatever the latest turn |
| `CommitGuard.NovelIsAccepted` | app/db/postgres.py:1631-1663 | a candidate with a novel unit and no truncation is accepted by either store while the latest turn is unchanged |
| `CommitGuard.PrecheckCarriesOver` | app/agent/progression.py:528-536 | pre-check passed on the full history, empty or not, no truncation, latest turn unchanged: the recheck of either store accepts |
| `CommitGuard.TruncatedRecheckRejects` | app/agent/progression.py:514-525 | with a 49th unit cut off the recheck can reject a turn that does progress |
| `Conversation.FirstUnasked` | app/agent/pipeline.py:3105-3131 | the chosen question is not asked before, modulo normalisation, and None only when all were |
| `Conversation.RechecksGuard` | app/db/session.py:1636-1677 | both rechecks refuse a changed latest turn and accept what is new beside an unchanged one |
| `Conversation.ProgramGuards` | app/agent/pipeline.py:3291-3298 | pre-check and recheck of the program, with either store, are guards as the run theorems assume them |
| `Conversation.AcceptedSawAll` | app/db/session.py:822-840 | an accepted guarded commit saw the whole log |
| `Conversation.RunOrderly` | app/agent/pipeline.py:3273-3386 | with increasing commit times every run keeps ids distinct and every strict turn progressing |
| `Conversation.EveryStrictTurnProgresses` | app/agent/pipeline.py:3291-3298 | every turn committed with `allow_duplicate=False` saw exactly the turns before it and adds a unit not equivalent to any same-field unit before |
| `Conversation.GuardSeesTurnIff` | app/db/session.py:822-840 | a concurrent turn is noticed by the recheck exactly when it is filed last by (`created_at`, `id`) |
| `Conversation.ConversationStore.constructor` | app/db/session.py:394-437 | a new session, with the guards of either store |
| `Conversation.ConversationStore.PersistSessionTurn` | app/db/session.py:790-909 | round check, recheck, id clash, then row and turn in one transaction |
| `Conversation.ConversationStore.FileTurn` | app/db/session.py:829-836 | a new turn takes its place by (`created_at`, `id`) |
| `Conversation.ConversationStore.PersistSuccess` | app/agent/pipeline.py:3273-3386 | pre-check, units and commit of one draft, or the no-progress error |
| `Conversation.ConversationStore.CheckAndPersist` | app/agent/pipeline.py:3291-3386 | the same with the round and content already chosen |
| `FollowUpChoice.NoChoiceIff` | app/agent/pipeline.py:3108-3142 | no follow-up is left exactly when every question of every slot was asked as it stands and sharpened, or after two rounds when the limitation was served |
| `FollowUpChoice.LimitIff` | app/agent/pipeline.py:3133-3142 | the limitation is served exactly after two rounds, and once |
| `FollowUpChoice.AskIff` | app/agent/pipeline.py:3108-3128 | a question is asked exactly in the first two rounds: the first unasked one, or when all were asked the first unasked sharpened one |
| `FollowUpChoice.SharpenedMeaning` | app/agent/progression.py:718-735 | the sharpened question is the question without its closing marks, a question mark and a request |
| `FollowUpChoice.FollowUpGoesIff` | app/agent/pipeline.py:3108-3386 | a follow-up reaches the store exactly when something is left to say and its turn repeats none before it |
| `FollowUpChoice.PreparedFollowUp` | app/agent/pipeline.py:3104-3190 | what a follow-up turn carries: the next round, the chosen question or the limitation, and no other question |
| `FollowUpChoice.PreparedOther` | app/agent/pipeline.py:3273-3300 | any other draft is committed as it is, unless it repeats |
| `FollowUpChoice.PreparedCommand` | app/agent/pipeline.py:3273-3386 | the commit carries the last turn that was seen, and the units of a strict turn |
| `FollowUpChoice.StoreTakesIff` | app/db/session.py:790-909 | a commit is taken exactly when its round is one, the recheck accepts and its id is new |
| `FollowUpChoice.FiledInOrder` | app/db/session.py:944-966 | a turn is filed by (`created_at`, `id`) and nothing else moves |
| `FollowUps.AcceptedEffect` | app/db/session.py:841-909 | what an accepted commit does to the row and the log |
| `FollowUps.CountingStep` | app/agent/pipeline.py:3099-3137 | one event moves questions asked minus stored round by exactly how far the row moved on since the committing reader read it |
| `FollowUps.CountingLaw` | app/agent/pipeline.py:3099-3137 | in every run, whatever the clocks: questions asked = stored round + the lags of all accepted commits, and the round stays within 0 to 2 |
| `FollowUps.CountsAgreeIff` | app/agent/pipeline.py:3099-3137 | the round counts the questions throughout a run if and only if every accepted commit carried the row's current round |
| `FollowUps.RoundStepIff` | app/agent/pipeline.py:3354-3386 | one event lowers the round exactly when an accepted commit stores less than the row has |
| `FollowUps.RoundNeverFallsIff` | app/agent/pipeline.py:3354-3386 | the round never decreases in a run if and only if no accepted commit was behind |
| `FollowUps.AtMostTwoQuestionsIff` | app/agent/pipeline.py:3099-3137 | more than two questions exactly when the lags outweigh the rounds left; at most two when every commit is current |
| `FollowUps.AcceptedFollowUp` | app/db/session.py:822-840 | an accepted follow-up was chosen from the whole log |
| `FollowUps.QuestionsAndLimitation` | app/agent/pipeline.py:3105-3137 | in every run with increasing commit times, whatever was read when: no follow-up question repeats an earlier one and the limitation is served at most once |
| `FollowUps.CarefulIsCurrent` | app/agent/pipeline.py:3354-3386 | readers that see row and turns with no commit in between carry the current round |
| `FollowUps.FollowUpCommitsIff` | app/agent/pipeline.py:3273-3386 | a follow-up of a reader that saw the log is committed exactly when its turn says something new, if its units fit |
| `FollowUps.FirstQuestionIff` | app/agent/pipeline.py:3099-3137 | the first question of a session is committed exactly when its turn has a core unit |
| `FollowUps.RoundCanFall` | app/agent/pipeline.py:3354-3386 | runs in which the stored round falls |
| `FollowUps.ThreeQuestions` | app/agent/pipeline.py:3099-3137 | a run with increasing clocks and a round that never falls in which three questions are asked |
| `FollowUps.EmptyQuestionRepeats` | app/agent/pipeline.py:3105-3113 | a question whose normal form is empty leaves no trace |
| `Attachments.NormalizedTextIsGood` | app/attachments/models.py:67-75 | confirmed text is stored in a form that validates again, and passes the table's trim check exactly when it does not begin with NUL |
| `Attachments.GoodTextIff` | app/attachments/models.py:67-75 | exactly the texts that `confirm` stores are left unchanged by normalising |
| `Attachments.FirstComplaint` | app/attachments/store.py:386-399 | the first complaint in the caller's order, none exactly when every row can be reserved |
| `Attachments.RowReadsBack` | app/db/models.py:151-226 | every row that satisfies the table CHECKs and carries normalised text and a listed error code is accepted by `record_is_consistent` |
| `Attachments.FrameKeeps` | app/db/session.py:1260-1297 | statements that leave bound rows alone and reserve nothing keep all row and relation constraints |
| `AttachmentRuns.ReserveAllOrNothing` | app/attachments/store.py:355-428 | success takes exactly the listed rows, each confirmed, unreserved, unexpired and owned, to its place; failure changes nothing |
| `AttachmentRuns.ReserveKeeps` | app/attachments/store.py:355-428 | a reservation keeps all constraints, the unique (reservation, position) index included |
| `AttachmentRuns.ConfirmKeeps` | app/attachments/store.py:258-312 | confirming keeps all constraints |
| `AttachmentRuns.ExtractionKeeps` | app/attachments/store.py:129-192 | saving an extraction keeps all constraints |
| `AttachmentRuns.FailureKeeps` | app/attachments/store.py:194-256 | saving a failure keeps all constraints |
| `AttachmentRuns.ReleaseKeeps` | app/attachments/store.py:430-458 | releasing keeps all constraints |
| `AttachmentRuns.FailStaleKeeps` | app/attachments/store.py:561-599 | failing stale rows keeps all constraints: none of them is reserved or bound |
| `AttachmentRuns.CascadeKeeps` | app/db/session.py:270-279 | deleting sessions removes whole turns with all their rows and keeps all constraints |
| `AttachmentRuns.PurgeKeeps` | app/db/session.py:1260-1297 | a purge keeps all constraints and removes bound rows only with their session |
| `AttachmentRuns.BindTakes` | app/db/session.py:1317-1416 | a binding takes exactly the reservation's rows, each at its place, to a turn that had none |
| `AttachmentRuns.BindKeeps` | app/db/session.py:1317-1416 | binding keeps all constraints, unique and gapless places included |
| `AttachmentRuns.PersistKeeps` | app/db/session.py:790-909 | a commit with or without attachments keeps all constraints |
| `AttachmentRuns.PersistShape` | app/db/session.py:822-909 | a commit changes nothing, adds a turn, or adds a turn and binds to it |
| `AttachmentRuns.StepKeeps` | app/attachments/store.py:63-599 | one operation of any kind keeps all constraints, and bound rows stay as they are or go with their session |
| `AttachmentRuns.RunKeepsInv` | app/attachments/store.py:63-599 | all constraints hold in every reachable state |
| `AttachmentConsults.ForeignSpares` | app/attachments/store.py:355-599 | other requests and purges can only remove a consultation's reserved rows |
| `AttachmentConsults.OwnCommitTracked` | app/agent/pipeline.py:3300-3308 | the consultation's own commit binds all of its rows or none |
| `AttachmentConsults.RunStaysTracked` | app/agent/pipeline.py:443-457 | between reservation and release the rows are all waiting or all bound, and nothing else carries the reservation |
| `AttachmentConsults.ReleaseSettles` | app/attachments/store.py:430-458 | the release leaves no row with the reservation, and changes nothing after a binding |
| `AttachmentConsults.ConsultExit` | app/agent/pipeline.py:974-984 | however a consultation ends, its attachments still present are all bound to its turn or all confirmed and free |
| `AttachmentConsults.BoundForGood` | app/db/session.py:1317-1416 | in every run a bound attachment never changes again: it is never bound to another turn |
| `AttachmentEffects.NormalFormIff` | app/attachments/models.py:67-75 | the text that is stored is the text without the space around it, where that has an allowed length |
| `AttachmentEffects.RowChanges` | app/attachments/store.py:63-599 | every change of a row, column by column: extracted, failed, confirmed, reserved, released or bound, and unchanged otherwise |
| `AttachmentEffects.RowArisesIff` | app/attachments/store.py:63-127 | a row comes into being by an upload alone |
| `AttachmentEffects.RowGoes` | app/attachments/store.py:502-559 | a row goes when its owner discards it or deletes its session, or when it is due |
| `AttachmentEffects.DiscardRemoves` | app/attachments/store.py:502-526 | the owner's delete of a free row removes it and nothing else |
| `AttachmentEffects.SweepTakesAllDue` | app/db/session.py:1260-1297 | with at most a hundred of each, a purge leaves nothing that is due |
| `AttachmentEffects.GivenUpWasUnfinished` | app/attachments/store.py:561-600 | only the owner's unfinished rows are given up as stale |
| `AttachmentEffects.AllUnfinishedGivenUp` | app/attachments/store.py:561-600 | and all of them, when they are no more than the limit |
| `AttachmentEffects.ExtractionAnswers` | app/attachments/store.py:129-192 | which error an extraction is refused with |
| `AttachmentEffects.FailureAnswers` | app/attachments/store.py:194-256 | which error a failure report is refused with |
| `AttachmentEffects.ConfirmAnswers` | app/attachments/store.py:258-312 | which error a confirmation is refused with |
| `AttachmentEffects.DiscardAnswers` | app/attachments/store.py:502-526 | which error a delete is refused with |
| `AttachmentEffects.FirstTrouble` | app/attachments/store.py:386-399 | of the rows to reserve, the first in trouble is complained of |
| `AttachmentEffects.ReserveAnswers` | app/attachments/store.py:355-428 | the errors of a reservation, in order |
| `AttachmentEffects.ReserveOkIff` | app/attachments/store.py:355-428 | a reservation is taken exactly when all its rows can be and it is not in use |
| `AttachmentEffects.BindOkIff` | app/db/session.py:1317-1416 | a binding succeeds exactly for a whole reservation and an owned turn without attachments |
| `AttachmentEffects.CommitIff` | app/db/session.py:790-909 | a commit goes through exactly when session, recheck and turn allow it and its attachments can all be bound; it leaves its turn and an extended session, or nothing |
| `AttachmentEffects.BindRowsIff` | app/db/session.py:1317-1416 | a binding of its own goes through exactly when it can after the purge; refused, it leaves nothing |
| `AttachmentEffects.TurnArises` | app/db/session.py:790-909 | a turn comes into being by a commit alone, which extends its session |
| `AttachmentEffects.SessionGoes` | app/db/session.py:1260-1297 | a session goes by its owner's delete or when its time is over |
| `AttachmentEffects.TextOrigin` | app/attachments/store.py:258-312 | in every run a confirmed, reserved or bound attachment carries the normal form of the text last confirmed for it |
| `AttachmentHistory.PlaceOf` | app/db/session.py:588-600 | ordered rows of one turn stand at places 0, 1, 2 when no place is shared or skipped |
| `AttachmentHistory.HistoryReadable` | app/db/session.py:518-609 | in every state the writers keep, the reader accepts, and each turn gets exactly its bound rows at 0..n-1, n at most 3 |
| `AttachmentHistory.ReaderAcceptsIff` | app/db/session.py:540-603 | in any tables, valid or not, what the reader accepts and which rows it looks at |
| `AttachmentHistory.HistoryNeverRaises` | app/db/session.py:518-609 | no run of the writers ends in a state `get_session_history` refuses |
| `AttachmentHistory.ListingsExist` | app/db/session.py:530-575 | every state has the ordered row listing and the turn listing that the reader works on |
| `AttachmentHistory.EveryHistoryReads` | app/db/session.py:518-609 | the reader accepts every state that the writers reach, for every session and owner |
| `AttachmentStore.AttachmentDatabase.constructor` | app/db/session.py:157-281 | empty tables |
| `AttachmentStore.AttachmentDatabase.Upload` | app/attachments/store.py:63-127 | a new row in processing |
| `AttachmentStore.AttachmentDatabase.SaveExtraction` | app/attachments/store.py:129-192 | checks in order, then the row ready for review |
| `AttachmentStore.AttachmentDatabase.SaveFailure` | app/attachments/store.py:194-256 | checks in order, then the failed row |
| `AttachmentStore.AttachmentDatabase.Confirm` | app/attachments/store.py:258-312 | checks in order, then the confirmed row; text that begins with NUL fails the table's CHECK |
| `AttachmentStore.AttachmentDatabase.Complaint` | app/attachments/store.py:386-399 | the checking loop of `reserve` |
| `AttachmentStore.Place` | app/attachments/store.py:401-427 | the updating loop of `reserve`: places in order, or the unique index objects |
| `AttachmentStore.AttachmentDatabase.Reserve` | app/attachments/store.py:355-428 | the whole reservation transaction |
| `AttachmentStore.AttachmentDatabase.Release` | app/attachments/store.py:430-458 | rows freed and counted |
| `AttachmentStore.AttachmentDatabase.Delete` | app/attachments/store.py:502-526 | only unbound, unreserved rows go |
| `AttachmentStore.AttachmentDatabase.PurgeExpired` | app/attachments/store.py:528-559 | expired drafts of one owner, at most `limit` |
| `AttachmentStore.AttachmentDatabase.FailStaleProcessing` | app/attachments/store.py:561-599 | stale rows of one owner, at most `limit` |
| `AttachmentStore.AttachmentDatabase.OpenSession` | app/db/session.py:394-437 | a new session or an integrity error |
| `AttachmentStore.AttachmentDatabase.Purge` | app/db/session.py:1260-1297 | expired sessions with their cascades, then expired drafts |
| `AttachmentStore.AttachmentDatabase.Cascade` | app/db/session.py:270-279 | turns of the sessions, then everything that refers to either |
| `AttachmentStore.AttachmentDatabase.DeleteSession` | app/db/session.py:611-630 | purge, then the owner's session with its cascades |
| `AttachmentStore.AttachmentDatabase.BindReserved` | app/db/session.py:911-942 | binding in a transaction of its own, undone on any error |
| `AttachmentStore.AttachmentDatabase.PersistTurn` | app/db/session.py:790-909 | purge, session check, guard, turn, second purge and binding, undone on any error |
| `AttachmentStore.CascadeOver` | app/db/session.py:270-279 | the cascades computed step by step |
| `AttachmentStore.AttachmentDatabase.GetSessionHistory` | app/db/session.py:518-609 | the purge first, then nothing for a session that is gone, or each turn with its attachments |
| `AttachmentStore.AttachmentDatabase.ReadHistory` | app/db/session.py:547-609 | after the purge: accepts exactly the readable states and never raises in a valid one |
| `AttachmentStore.BindEach` | app/db/session.py:1375-1416 | the loop of the binding with its errors in order |
| `AttachmentStore.BindWithin` | app/db/session.py:1317-1416 | the binding inside a transaction |
| `AttachmentStore.GroupRows` | app/db/session.py:578-586 | the first loop of the history reader |
| `AttachmentStore.AllInPlace` | app/db/session.py:588-600 | the second loop of the history reader |
| `AttachmentStore.History` | app/db/session.py:570-605 | both loops of the history reader |
| `AttachmentStore.ReleaseChanges` | app/attachments/store.py:430-458 | the returned count is zero exactly when nothing changed |
| `Accounts.RegisterKeeps` | app/auth/store.py:209-250 | registration keeps capacity and index for any clock |
| `Accounts.AdmitKeeps` | app/auth/store.py:252-290 | so does creating a verified user |
| `Accounts.ExpireKeeps` | app/auth/store.py:665-685 | after the expiry the count equals the live accounts |
| `Accounts.RunKeepsInv` | app/auth/store.py:209-685 | in every run at most `capacity` accounts are not deleted, and the e-mail index is exactly their inverse |
| `Accounts.RefusedIffFull` | app/auth/store.py:219-232 | `capacity_full` exactly when that many accounts are live after the expiry and the address is free |
| `Accounts.RunForward` | app/auth/store.py:334-352 | status never goes back in a run; disabled and deleted are final |
| `Accounts.DisabledForever` | app/auth/store.py:631-650 | a disabled account never authenticates again on any session |
| `Accounts.VerifiedOnce` | app/auth/store.py:380-405 | no account is verified twice, even when codes repeat |
| `Accounts.OneLiveToken` | app/auth/store.py:354-378 | at most one unspent token per account and purpose in every run |
| `Accounts.ConsumedOnce` | app/auth/store.py:380-433 | a digest is accepted twice only if it was issued again in between |
| `Accounts.ClosesAll` | app/auth/store.py:652-663 | reset, disable, revocation and password change close every session the account has |
| `Accounts.OldSessionsStayClosed` | app/auth/store.py:407-433 | no session from before a consumed reset authenticates afterwards unless its digest is issued anew |
| `Accounts.ContextMeaning` | app/auth/store.py:471-518 | who authenticates, that asking again changes nothing, and that a stored CSRF digest validates exactly while the session does |
| `AccountEffects.StatusChanges` | app/auth/store.py:209-433 | every status an account may get, and the one event that gives it |
| `AccountEffects.FieldChanges` | app/auth/store.py:209-571 | role and birth never change, address and password are erased with the account, and the password is written by the events for it alone |
| `AccountEffects.InstantChanges` | app/auth/store.py:209-685 | the instants of an account say when it was verified, disabled and deleted |
| `AccountEffects.AccountArisesIff` | app/auth/store.py:209-290 | an account comes into being exactly when nobody standing has its address and there is room, with the fields given |
| `AccountEffects.DecisionMeaning` | app/auth/store.py:209-250 | what a registration answers |
| `AccountEffects.AdmissionMeaning` | app/auth/store.py:252-290 | what creating a verified user answers |
| `AccountEffects.TokenChanges` | app/auth/store.py:354-433 | a token is spent by its own use and superseded by a newer one, and never changes otherwise |
| `AccountEffects.TokenArisesIff` | app/auth/store.py:354-378 | a token comes into being by being issued |
| `AccountEffects.AcceptedMeaning` | app/auth/store.py:380-433 | a code is accepted for the one account it was issued to, in the status it is for |
| `AccountEffects.SessionClosesIff` | app/auth/store.py:520-547 | an open session is closed exactly by its own logout or with all sessions of its account |
| `AccountEffects.RevokedCount` | app/auth/store.py:534-547 | the sessions counted by a revocation of all are the ones it closes |
| `AccountEffects.SessionOpensIff` | app/auth/store.py:450-469 | a session comes into being by being opened |
| `AccountEffects.SessionUse` | app/auth/store.py:471-518 | a session is marked as seen and gets its CSRF digest only while it is current |
| `AccountEffects.AnswersMeaning` | app/auth/store.py:471-518 | what the three readers of a session answer |
| `AccountEffects.DisableIsForever` | app/auth/store.py:334-352 | after an account was disabled no session, old or new, authenticates as it and no login with any password passes for it |
| `AccountEffects.LogoutIsForever` | app/auth/store.py:520-532 | a session that was logged out never authenticates again unless its digest is opened anew |
| `AccountEffects.VerifiedStaysActive` | app/auth/store.py:380-405 | a verified account stays active until it is disabled |
| `AccountEffects.PendingWaits` | app/auth/store.py:665-685 | a pending account waits for its code as long as its time is not over |
| `AccountEffects.SignUpLeadsIn` | app/auth/service.py:146-201 | where there is room, register, verify and log in give a current session, and before the verification the login is refused |
| `Logins.LoginIsItsActs` | app/auth/service.py:333-378 | the three store sections of a login, taken one after the other, are the login |
| `Logins.LoginAloneMeaning` | app/auth/service.py:350-373 | a login alone succeeds exactly with the right password of an active account; its session authenticates until it expires, and an upgraded hash still belongs to the same password |
| `Logins.LoginsMoveOn` | app/auth/service.py:359-373 | a login writes its hash at most once and then opens its session once, unless its account is gone |
| `Logins.ForeignKeepsHash` | app/auth/store.py:209-685 | nothing but a reset, a change of password or a login writes the hash of an account that was once verified |
| `Logins.StepKeepsHeld` | app/auth/service.py:350-373 | one step of any login or other request keeps "only the new password works" unless a login from before the reset writes or opens |
| `Logins.ResetHoldsIff` | app/auth/service.py:350-373 | in every run, after a consumed reset only the new password opens sessions and passes new logins, if and only if no login that read before the reset, with another password, writes its hash or opens its session after it |
| `Logins.SettledLoginsKeepReset` | app/auth/store.py:407-433 | with no login under way when it is consumed, a reset holds whatever comes after |
| `Logins.OnlyNewPasswordGetsIn` | app/auth/store.py:407-433 | while no login is late, whoever authenticates after a reset does so on a session opened after it with the new password |
| `Logins.OldPasswordReturns` | app/auth/store.py:435-448 | the run in which the upgraded hash is written after the reset: a login begun later gets in with the old password and the new one is refused |
| `Logins.OutdatedIsReachable` | app/auth/store.py:252-290 | the state that run starts from is reached from an empty store |
| `Logins.SomeHasher` | app/auth/passwords.py:34-58 | and a hasher that such a run needs exists for any two passwords |
| `AuthStore.InMemoryAuthStore.constructor` | app/auth/store.py:197-207 | an empty store |
| `AuthStore.InMemoryAuthStore.ExpirePending` | app/auth/store.py:665-685 | overdue accounts erased and unlisted one by one, in any order |
| `AuthStore.InMemoryAuthStore.ExpireOne` | app/auth/store.py:672-685 | one account visited |
| `AuthStore.InMemoryAuthStore.CapacityUsed` | app/auth/store.py:292-307 | the count of occupying accounts |
| `AuthStore.InMemoryAuthStore.RegisterPending` | app/auth/store.py:209-250 | limit check, expiry, duplicate, capacity, creation |
| `AuthStore.InMemoryAuthStore.CreateVerifiedUser` | app/auth/store.py:252-290 | the same for a verified account |
| `AuthStore.InMemoryAuthStore.GetUserByEmail` | app/auth/store.py:309-312 | finds exactly the live account with the address |
| `AuthStore.InMemoryAuthStore.DisableUser` | app/auth/store.py:334-352 | disabled, and all sessions revoked |
| `AuthStore.InMemoryAuthStore.ReplaceToken` | app/auth/store.py:354-378 | older tokens of the purpose invalidated, the new one usable until it expires |
| `AuthStore.InMemoryAuthStore.Invalidate` | app/auth/store.py:363-370 | the loop of `replace_token` |
| `AuthStore.InMemoryAuthStore.ConsumeEmailVerification` | app/auth/store.py:380-405 | token spent and account active, or nothing |
| `AuthStore.InMemoryAuthStore.ConsumePasswordReset` | app/auth/store.py:407-433 | token spent, hash replaced, sessions revoked, or nothing |
| `AuthStore.InMemoryAuthStore.UpdatePasswordHash` | app/auth/store.py:435-448 | the hash replaced, or the KeyError |
| `AuthStore.InMemoryAuthStore.CreateSession` | app/auth/store.py:450-469 | a fresh session under its digest |
| `AuthStore.InMemoryAuthStore.GetAuthContext` | app/auth/store.py:631-650 | the account of an open session, marking it seen |
| `AuthStore.InMemoryAuthStore.SetCsrfDigest` | app/auth/store.py:480-499 | the digest stored in an open session |
| `AuthStore.InMemoryAuthStore.ValidateCsrfDigest` | app/auth/store.py:501-518 | the account when the digest matches; the session is marked seen either way |
| `AuthStore.InMemoryAuthStore.RevokeSession` | app/auth/store.py:520-532 | one session closed |
| `AuthStore.InMemoryAuthStore.RevokeUserSessions` | app/auth/store.py:534-547 | the number of sessions that were open, none afterwards |
| `AuthStore.InMemoryAuthStore.RevokeOwn` | app/auth/store.py:652-663 | the revoking loop |
| `AuthStore.InMemoryAuthStore.ChangePasswordAndCreateSession` | app/auth/store.py:549-571 | hash replaced, all sessions closed, a new one opened |
| `AuthStore.AuthService.Login` | app/auth/service.py:333-378 | the login as one call, equal to the login on values |
| `RateLimit.TwoWindows` | app/auth/service.py:600-605 | an interval of the limiter's whole seconds meets at most two aligned windows, around the epoch too |
| `RateLimit.UpsertAgrees` | app/auth/store.py:1293-1330 | upsert and in-memory counter give the same verdict for every limit, and the same table exactly for limit at least 1 or an existing row |
| `RateLimit.UpsertDiffersAfterZero` | app/auth/store.py:1293-1330 | with a limit of 0 followed by 1 the two differ |
| `RateLimit.ExactlyMin` | app/auth/service.py:587-618 | per aligned window and key exactly min(attempts, limit) pass |
| `RateLimit.VerdictMeaning` | app/auth/service.py:587-618 | an attempt passes exactly when its action has no limit or fewer attempts than the limit came before it in its window |
| `RateLimit.AtMostTwice` | app/auth/service.py:587-618 | at most twice the limit passes in any interval of the limiter's whole seconds |
| `RateLimit.TwiceIsReached` | app/auth/service.py:587-618 | that bound is reached within two microseconds |
| `RateLimit.TwiceTheLimitIff` | app/auth/service.py:600-605 | it holds for the configured window length exactly when that is whole seconds (give or take a microsecond); the fraction is dropped |
| `RateLimit.StoresAgree` | app/auth/service.py:587-618 | behind the service the two stores are indistinguishable in every run |
| `RateLimit.RateCounters.ConsumeRateLimit` | app/auth/store.py:595-611 | the in-memory counter |
| `RateLimit.Limiter.ConsumeRateLimit` | app/auth/service.py:587-618 | unlimited, refused, division by zero, or counted in the aligned window |
| `Routing.Find` | app/agent/routing.py:1157-1171 | what is found is an occurrence from the start on |
| `Routing.FindIsFirst` | app/agent/routing.py:1157-1171 | and it is the first: with any occurrence from the start on, one is found that is no later |
| `Routing.WindowSuffices` | app/agent/routing.py:1159-1169 | looking at six characters finds every listed negation |
| `Routing.ContainsAssertedPhrase` | app/agent/routing.py:1156-1172 | the scan terminates for every non-empty phrase and equals the scan on values |
| `Routing.ScanFromSound` | app/agent/routing.py:1156-1172 | what the scan finds is asserted, for every phrase |
| `Routing.ScanFromMeaning` | app/agent/routing.py:1156-1172 | for a safe phrase the scan finds exactly the asserted occurrences |
| `Routing.UnsafeIsMissed` | app/agent/routing.py:1171 | for any other phrase a text on which the jump misses an asserted occurrence |
| `Routing.ScanIsExactIff` | app/agent/routing.py:1156-1172 | the scan is exact on all texts if and only if the phrase overlaps itself only behind a negation of its own |
| `Routing.PlainPhrases` | app/agent/routing.py:1156-1172 | in particular it is exact for phrases that cannot overlap themselves |
| `TopicChoice.BestWeightMeaning` | app/agent/routing.py:108-127 | the score is positive exactly when the scan hits some signal group, and is the length of the longest that it hits |
| `TopicChoice.ScoreMeaning` | app/agent/routing.py:108-127 | for phrases that the scan reads exactly: the score is the length of the longest group the text asserts, positive exactly when there is one |
| `TopicChoice.MatchScore` | app/agent/routing.py:108-127 | `match_score` with its loops |
| `TopicChoice.AllAsserted` | app/agent/routing.py:118-121 | the all-test over the phrases of a group |
| `TopicChoice.InferredMeaning` | app/agent/routing.py:658-681 | the first of the considered topics with the highest positive score, or none |
| `TopicChoice.InferFromText` | app/agent/routing.py:658-681 | `_infer_from_text` with its loop |
| `TopicChoice.RouteTopic` | app/agent/routing.py:855-936 | the branch-by-branch reassignment settles on the topic of the closed form |
| `TopicChoice.FormalIff` | app/agent/routing.py:855-936 | exactly when a message enters the formal flow, in terms of the scores |
| `TopicChoice.FormalIffAsserted` | app/agent/routing.py:855-936 | the same in terms of what the text asserts |
| `TopicChoice.LowConfidenceNeverDecides` | app/agent/routing.py:868-874 | a candidate below the minimum confidence has no influence |
| `TopicChoice.SettleIff` | app/agent/routing.py:855-931 | every topic a message may settle on, verified or not, without the search: what the text names, else the topic under way, else a believed proposal |
| `TopicChoice.LengthMeaning` | app/agent/routing.py:108-127 | the weight of a group is the length of its phrases together |
| `TopicChoice.PhrasesMeaning` | app/agent/routing.py:108-127 | the phrases of a group are the normal forms of its members without the empty ones |
| `Health.RecentMeaning` | app/providers/health.py:85-103 | the newest windowed results, as many as the limit allows, newest first |
| `Health.RecoversIff` | app/health/service.py:100-122 | degraded becomes healthy exactly with three newest successes and failures under half or fewer than four samples |
| `Health.DegradesIff` | app/health/service.py:100-122 | when an undegraded provider becomes degraded |
| `Health.RaisesIff` | app/providers/health.py:44-54 | building the state fails exactly with a sample limit over ten and more than ten windowed results |
| `Health.EleventhCallRaises` | app/providers/health.py:44-54 | with a sample limit over ten, the eleventh call of a run raises, and a status query after it |
| `Health.SomeCallRun` | app/health/service.py:35-66 | there are such runs of any length |
| `Health.QueryIdempotent` | app/health/service.py:68-79 | a repeated status at the same instant answers the same and writes nothing |
| `Health.StepStatus` | app/health/service.py:35-79 | a call changes only its own provider's status, to the verdict on its results |
| `Health.DirectRecovery` | app/health/service.py:81-123 | every direct step from degraded to healthy is such a recovery |
| `Health.NoSilentRecovery` | app/health/service.py:81-123 | in every run healthy after degraded means a recovery step in between, unless the window ran empty |
| `Health.EmptyWindowForgets` | app/health/service.py:93-99 | an empty window makes the provider unknown, and one success then healthy |
| `Health.StateMeaning` | app/health/service.py:81-156 | a calculated state counts what it was calculated from: samples, failures, the two runs of the newest results and their instant; its status follows from the counts and the status before |
| `Health.StepWrites` | app/health/service.py:40-79 | a call adds its result once and no other provider's state changes |
| `Health.AnswerIsSaved` | app/health/service.py:64-79 | the state saved is the one answered |
| `Health.NewestCounts` | app/health/service.py:86-93 | a call is judged by results that begin with itself when it is the newest |
| `Health.ProviderHealth.Consecutive` | app/health/service.py:159-169 | the counting loop |
| `Health.ProviderHealth.CountFailures` | app/health/service.py:101 | the number of failures |
| `Health.ProviderHealth.CalculateState` | app/health/service.py:81-123 | `_calculate` with its branches |
| `Health.ProviderHealth.RecordCall` | app/health/service.py:35-66 | the result kept, then the state calculated and saved |
| `Health.ProviderHealth.CurrentStatus` | app/health/service.py:68-79 | the state calculated and saved only when it differs |

## Left out

- Executor: the event loop is the one of Python 3.11, where a waiter that is cancelled after `notify` does not pass the notification on; time budgets are not numbers, a timeout may strike at any suspension point.
- Executor: the operation's own result and exceptions; both end in the same `finally` block.
- Deletion: the turns, audit rows and attachments that go with a session through database cascades.
- Deletion: `age` encryption is a blob that keeps its plaintext; a recorded failure category is kept, the exception behind it is not.
- ManifestNames.CollisionFree: SHA-256 is a parameter, assumed to have 64 characters and no collision among the manifests of the intents a run creates; the day part of the key is written with four digits for every year.
- Progression: the ratio and trigram tests are arbitrary relations beside equality; `project_response`, which turns stored responses into units, is not part of this model.
- ComparisonUnits: raw units that are not strings cannot be expressed, the original skips them.
- CommitGuard.RecheckMeaning: stored responses are already projected; text that does not parse is one value (`Corrupt`).
- Conversation: session facts, scenario, jurisdiction, status and usage, which the commit writes without reading; purges of expired sessions; provider calls.
- FollowUps.QuestionsAndLimitation: for increasing commit times, without which a concurrent turn can be filed before one already seen (`GuardSeesTurnIff`); the two counting results need no such hypothesis.
- FollowUps.ThreeQuestions: the questions are bare, with pairwise inequivalent normal forms that fit into the command.
- Attachments: file name, size, SHA-256 and block structure, which no transition changes or tests after creation; the SQLite tables are modelled, not the PostgreSQL ones that keep unconfirmed blocks out of the database.
- Attachments: `update_session`, `_touch` and `add_turn`, which write neither attachments nor owners.
- AttachmentDatabase.Purge: the rows that `ORDER BY ... LIMIT` selects are a parameter constrained by `PurgeAllowed`, not computed; the same holds for `PurgeExpired` and `FailStaleProcessing`.
- AttachmentConsults.ConsultExit: reservation ids and uploaded ids are fresh UUIDs; a process that dies before the release leaves its rows reserved until they expire.
- Accounts: privacy acceptances, plain lookups by id and listings; ids are assumed never to repeat, digests are not.
- Logins.ResetHoldsIff: the hasher is a parameter whose hashes tell apart the passwords entered in the run, not all texts; between the reset and the end of the run the password is not reset or changed again.
- AuthStore.AuthService.Login: the rate limit and the normal form of the address come before it; `_hasher.verify` and `check_needs_rehash` are the two functions of the hasher.
- RateLimit: the digest of the client key is part of the attempt; expiry of counter rows by the cleanup job.
- Routing: the phrase and alias tables; `_normalize_alias` is a parameter, idempotent on the message where `RouteTopic` needs it.
- Routing.ContainsAssertedPhrase: for non-empty phrases only, because `match_score` drops empty ones before it calls the scan.
- TopicChoice: safety signals, labels, notices and the facts and slots that `route` passes on.
- Health: provider and model name limits, token counts and durations; the PostgreSQL store.
- Quotas, trial identity, the playbook evaluator, providers, statute retrieval, OCR, HTTP routes, mail and captcha: plumbing, or without an invariant that spans operations.

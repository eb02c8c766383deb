# AccessForge: the action protocol, the source pipeline and evidence retention

This project models three parts of AccessForge whose guarantees span several files, and proves those
guarantees for every run, every input or every interleaving.

**The desktop action protocol.** `Supervision` is the supervisor that gates an action, journals its
intent, flushes, and only then dispatches; `SupervisionRuns` is what every run of it guarantees, and
`SupervisionGate` what the gate decides, said of the journal and the events. `Runner` drives it in
lockstep with the one-shot network session of `Session`. `JournalFile` is the append-only journal on
disk, `CrashRecovery` what a restart reads after a crash at any point, and `JournalValidator` the
control plane's independent decision whether journal bytes are what a clean run writes, which
`JournalFields` says field by field. `RunnerAdapter` states what must be true before a keystroke,
`RunnerTrail` which answers came before it and in what order, `SessionOrder` which request may
follow which, `RunnerStop` when a clean stop can be finished, `RunnerAgreement` and `RunnerClock`
when producer and validator agree, and `RunnerWitness` that such runs exist, and some that go wrong.
`DesktopClaim` is the marker file that excludes other processes, and `ActionBridge` the private
socket in front of the runner; each has its theorems in the modules ending in `Runs` and `Causes`.

**The source pipeline.** `Process` drains a child process under one bound. `GitFraming` and
`GitWalk` decode batches of Git objects and walk a commit's tree level by level; `GitFlatten`
compares the walk with the recursive flattening of the tree, `GitRefusals` says when a level is
refused, `GitHonest` when a whole recovery is accepted, and `GitObjects` which bytes are taken for
an object. `SourcePaths`, `Snapshot` and `SnapshotArchive` are the snapshot type with its namespace
rules, archive and digest; `SnapshotTree` says when files and archives are accepted, by the tree
that they can be laid out in. `Candidate` applies a patch and, separately, shows it for review;
`CandidateAccepts` says when either is done, by the original files alone.

**Evidence retention.** `Bundle` validates the hash chain and divides it among its producers.
`Completion` is the resumable reserve, write, promote and finalize protocol with any number of
concurrent callers; `CompletionRuns`, `CompletionResume`, `CompletionSettled` and
`CompletionConverges` say what always holds, what the callers agree on, what a crash leaves, and
that one more call finishes; `CompletionCauses` says which events must have come before what is
found, and `CompletionClass` is such a call. `ArchiveLifecycle` is the retention, reading and
retirement of one candidate archive, with its theorems in `ArchiveRuns` and `ArchiveCauses`.
`CodexStream` recognises the event stream of one model turn.

## How it is modelled

A protocol is a state, a type of events, and a total step function; an event whose guard fails does
nothing, so every list of events is a run and theorems quantify over all of them. A step is one
uninterrupted piece of code: a method up to its next `await`, one committed transaction, one call of
the file system or object store. Every `await` is therefore a point at which anything else may
happen. Step functions are written one field at a time.

What a machine decides is stated twice: by its step function, and by theorems about what its runs
show. Those of `SupervisionGate`, `SessionOrder`, `RunnerTrail` and the modules ending in `Causes`
read every run backwards: whatever is found after it (an admission, an entry into the adapter, a
retirement, a promoted row, a released desktop) has an event of that run as its cause, in a state
that the theorem describes; and the lemmas ending in `Iff` say forwards which event does it.
Acceptance of data is likewise stated twice, by the predicate that the loop computes and by an
independent description of the accepted values.

Beside each machine a class holds the source's own fields, with methods for its uninterrupted pieces
whose contracts name the machine's step: `Supervisor`, `NativeExecutionSession`,
`NavigatorActionBridge` and `Archives` leave their state as the step does, `ExclusiveRunner` its
claimant and the marker, and `ExecutionArtifacts` reports the list of steps that a call took.
`AuthenticatedRunner` names a step or the change that the step makes, by the lemmas of `RunnerClass`
that end in `Advances`. `FileJournal` is proved against the bytes of its file. Where the source has
a loop, the model has a method with a loop, proved against an independent predicate or a recursive
function.

Digests, Git addresses, JSON encoders, the tar format, Unicode tables and the policy decisions of
other packages are parameters. Where a result needs a law of one of them (a digest is injective, an
encoder emits no newline, folding maps no other character to a slash), the law is a `Lawful`,
`Agreeing`, `Restores` or `CollisionFree` precondition. `Lawfulness` shows that each of them can be
met, by one simple instance: `CodecExists`, `WireExists`, `EnvExists`, `AddressExists`,
`HashingExists`, `DigestsExist`, `TarExists` and `UnicodeExists`. Bytes are strings of characters
below 256. Clocks, replies, write counts and signals arrive as event parameters, so nothing is
assumed about their order unless a precondition says so.

## What the code does not do

Five properties one might expect are false of the code. Each is stated with its failing case, its
exact condition, or both.

- A lease adopted while an action is in flight changes the sequence number the action is dispatched
  under (`AdoptionInFlightRenumbers`; `WriteAhead` has the condition).
- The supervisor does not compare its result-time clock reading with anything, so a run that passes
  every local check can be refused by the control plane (`LaggingClockRefused`;
  `ProducerMeetsValidator` is the equivalence, and `RisingClockAccepted` what a clock must do).
- Appending to a journal that ends in a torn line makes the new intent unreadable
  (`IntentReadableIffNoTornLine` is the equivalence). A runner accepts a file that holds only such a
  line, because it reads as empty. A crash of its session then hides a dispatched action
  (`TornStartHidesDispatch`, `BehindTornLine`), and without a crash its clean STOP cannot be finished
  (`TornStartCannotFinish`; `FinishPostsIff` is the equivalence).
- A journaled AMBIGUOUS result counts as resolved at a restart; only an intent without any result asks
  for quarantine (`AmbiguousNotReported`; `ReportExact` is the condition).
- The tree digest, which is all that ties a comparison and a preparation to the same base, leaves file
  modes open (`ModesUnbound`, `DigestLeavesModes`).

Comments in the source say otherwise in one place: `journal.ts` calls a truncated line harmless
because nothing was dispatched on its strength. That holds for the action of the truncated line, and
not for the action appended after it.

## Model

| member | source | states |
|---|---|---|
| SupervisionRuns.WriteAhead | apps/desktop-runner/src/supervisor.ts:318-339 | At every moment of every run, with any interleaving of cancellation, timeouts, failed flushes and lease adoptions, the k-th dispatched command is the k-th flushed intent: same identifier, action and work, and the same sequence number as long as the lease is the same. |
| SupervisionRuns.AtMostOnce | apps/desktop-runner/src/supervisor.ts:305-323 | Across all leases ever adopted no two dispatched commands have the same identifier. |
| SupervisionRuns.ActionIdInjective | apps/desktop-runner/src/supervisor.ts:305-306 | The text `lease:epoch:sequence` determines its three parts, even when the lease identifier itself contains colons and digits. |
| SupervisionRuns.BudgetAndDeadline | apps/desktop-runner/src/supervisor.ts:235-262 | Every admission was made before the deadline of the adopted lease whose epoch it carries, and all admissions together never exceed the largest adopted action budget. |
| SupervisionRuns.StopAcknowledgementSound | apps/desktop-runner/src/supervisor.ts:192-200 | Whenever a stop may be acknowledged, every journaled intent is directly followed by its own SUCCEEDED or FAILED result, and no later event journals or dispatches anything more. |
| SupervisionRuns.BlockedForever | apps/desktop-runner/src/supervisor.ts:214-255 | After a fence or a failed flush every later gate decision, for every action and clock reading, is a refusal, and nothing is admitted in any continuation. |
| SupervisionRuns.AdoptionInFlightRenumbers | apps/desktop-runner/src/supervisor.ts:326-328 | Witness: a lease adopted while an intent is being flushed makes the command go out under sequence 0 although its intent was journaled under 1; with `WriteAhead` this is the only way the numbers can differ. |
| SupervisionRuns.RunKeepsInv | apps/desktop-runner/src/supervisor.ts:284-374 | The whole invariant (paired journal, admissions, leases, dispatches, fences) is kept by every run. |
| SupervisionGate.GateDecides | apps/desktop-runner/src/supervisor.ts:214-274 | After every run the gate refuses for the first cause, in the code's order, that can be read off the events and the journal alone: a fault, a failed flush, no lease, a stop, the deadline, either budget, a clock that went back, an action in flight; and admits when there is none. |
| SupervisionGate.AdmittedIff | apps/desktop-runner/src/supervisor.ts:284-324 | After every run an action is admitted exactly when there is no such cause, under the lease held and as it was asked for; a refused one changes neither journal nor dispatches. |
| SupervisionGate.WallTimeExhausted | apps/desktop-runner/src/supervisor.ts:263-266 | After every run, when the last result in the journal was read at or after the wall-time budget of the lease held, no action is admitted or dispatched. |
| SupervisionGate.AdoptedIff | apps/desktop-runner/src/supervisor.ts:169-185 | After every run a lease is adopted exactly while nothing has fenced and only when its epoch is above that of every lease adopted before. |
| Supervision.Supervisor.Evaluate | apps/desktop-runner/src/supervisor.ts:214-274 | The gate method returns exactly the first refusal of the specification in its order and changes only the fence and the last clock reading. |
| Supervision.Supervisor.AdoptLease | apps/desktop-runner/src/supervisor.ts:169-185 | Refused exactly when fenced or when the epoch does not advance; otherwise the lease is replaced and only the sequence restarts. |
| Supervision.Supervisor.PerformAction | apps/desktop-runner/src/supervisor.ts:284-324 | Up to its first await: an admitted action is in flight, counted and numbered before anything is flushed. |
| Supervision.Supervisor.IntentFlushed | apps/desktop-runner/src/supervisor.ts:324-332 | The resolved or rejected append moves the machine as specified; a rejected one keeps the action in flight for ever. |
| Supervision.Supervisor.CallDispatch | apps/desktop-runner/src/supervisor.ts:326-341 | The command handed to the callback and the recorded dispatch are the same. |
| Supervision.Supervisor.DispatchSettled | apps/desktop-runner/src/supervisor.ts:334-357 | A callback answer gives SUCCEEDED or FAILED; a rejection or timeout gives AMBIGUOUS and fences, before the result is flushed. |
| Supervision.Supervisor.ResultFlushed | apps/desktop-runner/src/supervisor.ts:352-358 | The result is in the journal exactly when its append resolved. |
| Supervision.Supervisor.Return | apps/desktop-runner/src/supervisor.ts:358-373 | The action leaves flight only after its result is durable, and the caller gets the journaled status. |
| Supervision.Supervisor.MayAcknowledge | apps/desktop-runner/src/supervisor.ts:198-200 | The method computes the predicate that `StopAcknowledgementSound` is about. |
| JournalFile.FileJournal.AppendAndFlush | apps/desktop-runner/src/journal.ts:46-67 | The write loop: on success exactly the line was appended and everything is durable; on any failure some prefix of the line was appended and durability did not advance. |
| JournalFile.FileJournal.ReadEntries | apps/desktop-runner/src/journal.ts:69-87 | The reading loop returns what the line-splitting specification reads. |
| JournalFile.ReadLines | apps/desktop-runner/src/journal.ts:69-87 | Complete lines read back as exactly their entries, whatever follows them. |
| JournalFile.ReadTorn | apps/desktop-runner/src/journal.ts:73-84 | A line cut anywhere before the end of its text reads as nothing; whole but for its newline it already reads as its entry. |
| JournalFile.InspectAfterRestart | apps/desktop-runner/src/supervisor.ts:393-425 | The restart inspection loop over a map of latest entries returns the specified report. |
| JournalFile.ReportExact | apps/desktop-runner/src/supervisor.ts:395-401 | An entry is reported exactly when it is the last one of its action and has no result; quarantine is asked for exactly when something is reported. |
| CrashRecovery.RecoveryIsExact | apps/desktop-runner/src/supervisor.ts:393-425 | At every crash point of every run, with any prefix of the unconfirmed line surviving: every action whose dispatch began has its intent in the file, the report is exactly the last entry when that is an intent and empty otherwise, and quarantine is set in just that case. |
| CrashRecovery.RecoveredEntries | apps/desktop-runner/src/journal.ts:46-87 | What a restart reads is every confirmed entry and the unconfirmed one exactly when its text survived whole. |
| CrashRecovery.SurvivorShape | apps/desktop-runner/src/journal.ts:46-67 | Whatever a crash leaves of an append that did not resolve is the flushed content and a prefix of the new line. |
| CrashRecovery.IntentReadableIffNoTornLine | apps/desktop-runner/src/journal.ts:35-58 | An intent appended to an existing file can be read back if and only if the file was empty or ended in a newline, which the append does not check. |
| CrashRecovery.TornFirstLineHidesIntent | apps/desktop-runner/src/journal.ts:69-87 | A file holding only a torn first line reads as empty, and with one intent appended to it the report finds nothing unresolved. |
| CrashRecovery.AmbiguousNotReported | apps/desktop-runner/src/supervisor.ts:393-425 | Witness: a run whose dispatch timed out fences and flushes AMBIGUOUS, and after a restart the report is empty and asks for no quarantine. |
| JournalValidator.Validate | apps/orchestrator/src/accessforge_orchestrator/execution_artifacts.py:113-173 | The validator method accepts exactly the payloads of the independent predicate `CleanJournal`. |
| JournalValidator.ValidatePairs | apps/orchestrator/src/accessforge_orchestrator/execution_artifacts.py:124-173 | The loop over actions accepts exactly when every pair of records fits its action and its reading is not below the one before. |
| JournalValidator.ValidatePair | apps/orchestrator/src/accessforge_orchestrator/execution_artifacts.py:125-171 | One round accepts exactly a clean pair with a non-decreasing reading, and passes that reading on. |
| JournalValidator.LoadLines | apps/orchestrator/src/accessforge_orchestrator/execution_artifacts.py:114-121 | All lines load, or none is kept. |
| JournalValidator.SameDocIsExact | apps/orchestrator/src/accessforge_orchestrator/execution_artifacts.py:152-169 | For records of the expected shape, Python dictionary equality (with 1 == 1.0 == True) together with the four type checks is exact equality. |
| JournalFields.JournalIff | apps/orchestrator/src/accessforge_orchestrator/execution_artifacts.py:113-173 | A payload is accepted exactly when it has at most 32 MiB and ends in a newline, two lines for every retained action load as objects with exactly the stated fields, no reading is below an earlier one, and the last action is a successful STOP. |
| JournalFields.PairIff | apps/orchestrator/src/accessforge_orchestrator/execution_artifacts.py:125-171 | A pair is clean exactly when row, intent and result have their fields, named one by one, and no others. |
| JournalFields.LineBreaks | apps/orchestrator/src/accessforge_orchestrator/execution_artifacts.py:116-121 | The lines of a payload end at LF, CR LF or a CR that no LF follows, and nowhere else. |
| RunnerInv.AdvanceKeepsLockstep | apps/desktop-runner/src/authenticated-runner.ts:160-219 | While the runner is live, its sequence, its commands, the tagged journal, the acknowledged rows and the supervisor stay in lockstep through every step. |
| RunnerInv.EffectOf | apps/desktop-runner/src/authenticated-runner.ts:97-131 | Every step of runner, callback or supervisor has one of eight effects on the lockstep data. |
| RunnerInv.AdvanceKeepsPc | apps/desktop-runner/src/authenticated-runner.ts:160-247 | The suspended await of `perform` and the stage of the supervisor always fit together. |
| RunnerAdapter.AdapterEntriesBacked | apps/desktop-runner/src/authenticated-runner.ts:107-151 | Every command that ever entered the reader adapter has its intent durable in the journal, is committed by the control plane, has an all-TRUE preflight retained, and entered once only. |
| RunnerAdapter.AdapterEntry | apps/desktop-runner/src/authenticated-runner.ts:121-129 | A step can enter the adapter only from the last check, when all of that already holds and nothing is cancelled or fenced. |
| RunnerAdapter.NeverEnteredAgain | apps/desktop-runner/src/authenticated-runner.ts:107-130 | Once stopping or fenced, no continuation of any length enters the adapter again. |
| RunnerAdapter.CancelledNeverEnters | apps/desktop-runner/src/authenticated-runner.ts:153-158 | After `requestCancellation` no continuation, however late, enters the adapter. |
| RunnerAdapter.ReturnedNeverEnters | apps/desktop-runner/src/authenticated-runner.ts:190-218 | Once `perform` has returned, whatever enters the adapter later is a command committed later. |
| RunnerAdapter.Reachable | apps/desktop-runner/src/authenticated-runner.ts:57-133 | Every run from the constructor keeps all invariants used by these results. |
| RunnerAdapter.FencesStay | apps/desktop-runner/src/authenticated-runner.ts:153-211 | Neither the fence nor the stopping state is ever taken back. |
| RunnerTrail.EntersAfterChecks | apps/desktop-runner/src/authenticated-runner.ts:107-129 | At every entry into the adapter the callback has passed, in this order, an all-TRUE preflight, its retention, the approval and, where the action may submit a form, the form permit; and the origin just seen, in time, is the one seen before the intent was announced. |
| RunnerTrail.OriginRemembered | apps/desktop-runner/src/authenticated-runner.ts:170-173 | In every run the remembered origin is that of the last observation made while the runner was locating it. |
| RunnerTrail.CommittedAsAsked | apps/desktop-runner/src/authenticated-runner.ts:160-189 | In every run a command is registered only as the answer to the one request being performed, after its preflight, its origin and its intent, under the same identity, action and next number. |
| RunnerTrail.AnswerIsAdapters | apps/desktop-runner/src/authenticated-runner.ts:121-130 | In every run a SUCCEEDED or FAILED dispatch is the adapter's own answer, with every observation that it announced retained. |
| RunnerTrail.TakenOnIff | apps/desktop-runner/src/authenticated-runner.ts:160-169 | In every run a call of `perform` is taken on exactly while none is suspended, nothing has fenced and nobody asked to stop, and reads the journal exactly the first time. |
| RunnerTrail.JournaledIff | apps/desktop-runner/src/authenticated-runner.ts:99-106 | In every run the journal grows exactly by the appends that resolved, each under the identity of the command being performed. |
| RunnerTrail.TailIff | apps/desktop-runner/src/authenticated-runner.ts:228-244 | `finish` passes exactly a journal of one intent and one result for every committed command, in order and under its identity, ended by a successful STOP. |
| RunnerTrail.FencedIff | apps/desktop-runner/src/authenticated-runner.ts:107-211 | The runner is fenced by exactly the listed failures and by the beginning of `finish`. |
| RunnerTrail.StoppingIff | apps/desktop-runner/src/authenticated-runner.ts:153-201 | It is asked to stop by exactly a cancellation or the acknowledged result of a STOP. |
| RunnerTrail.ClosedStops | apps/desktop-runner/src/authenticated-runner.ts:107-151 | A callback of a runner that is stopping, fenced or not executing begins no check and no observation. |
| RunnerTrail.AbortedStops | apps/desktop-runner/src/authenticated-runner.ts:145-151 | Nor does one whose authority was withdrawn retain, approve or go on. |
| Runner.CheckTail | apps/desktop-runner/src/authenticated-runner.ts:228-244 | `finish`'s loop accepts exactly the journals of the independent predicate `TailChecks`. |
| RunnerStop.FinishPostsIff | apps/desktop-runner/src/authenticated-runner.ts:222-246 | In every run, from any journal file the runner starts on: after an unfenced successful STOP `finish` reaches the control plane if and only if what stood behind the file's last newline at the start was JSON white space. The first `perform` checks only that the file reads as empty. |
| RunnerStop.BehindTornLine | apps/desktop-runner/src/authenticated-runner.ts:166-169 | In every run, behind a torn line the first entry that the runner flushes is lost to any reader, and only that one. |
| RunnerStop.CleanTail | apps/desktop-runner/src/authenticated-runner.ts:228-244 | The entries of every unfenced successful STOP, when they alone are read, pass `finish`'s own check. |
| RunnerStop.FinishPostedOnce | apps/desktop-runner/src/authenticated-runner.ts:222-246 | No run posts `finish` more than once. |
| RunnerAgreement.ProducerMeetsValidator | apps/orchestrator/src/accessforge_orchestrator/execution_artifacts.py:113-173 | For every run that reaches an unfenced successful STOP, from any journal file: the local check passes if and only if only white space stood behind the file's last newline; and the server accepts the file's bytes against its committed rows if and only if the file held only what the JSON reader skips, the bytes fit the size limit, the stamps are RFC 3339, and the result-time readings start at -1 or later and never decrease. |
| RunnerAgreement.JournalAgrees | apps/orchestrator/src/accessforge_orchestrator/execution_artifacts.py:122-173 | The same equivalence for any journal whose pairs agree with the committed rows, behind any earlier content of the file. |
| RunnerAgreement.LoadsBack | apps/orchestrator/src/accessforge_orchestrator/execution_artifacts.py:116-121 | The validator's split into lines gives back the producer's records, none lost or split. |
| RunnerAgreement.LoadsBehind | apps/orchestrator/src/accessforge_orchestrator/execution_artifacts.py:116-121 | Behind an unbroken beginning of a line the records load if and only if that beginning is skipped. |
| RunnerClock.RisingClockAccepted | apps/desktop-runner/src/supervisor.ts:334-357 | If the readings a run is given never fall and start at zero or later, the journal of its clean stop is accepted subject only to what the file held before, its size and the stamps. |
| RunnerWitness.ActionRuns | apps/desktop-runner/src/authenticated-runner.ts:160-219 | Every admissible action has a fault-free run to its acknowledged end, whatever the clock reads at its result. |
| RunnerWitness.TwoActions | apps/desktop-runner/src/authenticated-runner.ts:160-247 | For any two result readings with the first below the wall-time budget there is a clean stop whose journal carries exactly those readings. |
| RunnerWitness.LaggingClockRefused | apps/desktop-runner/src/supervisor.ts:350-357 | Counterexample to agreement without a clock assumption: a clean stop that passes the local check and that the server refuses, because the supervisor does not compare its result-time reading with anything. |
| RunnerWitness.TornStartHidesDispatch | apps/desktop-runner/src/authenticated-runner.ts:166-169 | Counterexample to recovery across sessions: a run that starts on a file with a torn first line has a command in the reader adapter and its intent flushed, and a crash then leaves a report that finds nothing and asks for no quarantine. |
| RunnerWitness.TornStartCannotFinish | apps/desktop-runner/src/authenticated-runner.ts:228-230 | Without the crash that session reaches a clean STOP whose journal `finish` refuses. |
| RunnerClass.AuthenticatedRunner.Perform | apps/desktop-runner/src/authenticated-runner.ts:160-165 | Refused exactly when busy, fenced or stopping. |
| RunnerClass.AuthenticatedRunner.JournalWasRead | apps/desktop-runner/src/authenticated-runner.ts:166-169 | A journal file with any readable entry fences the first call; every other file is accepted. |
| RunnerClass.AuthenticatedRunner.OriginSeen | apps/desktop-runner/src/authenticated-runner.ts:171-173 | A cancellation that arrived before the intent closes the call without numbering it. |
| RunnerClass.AuthenticatedRunner.DispatchCommitted | apps/desktop-runner/src/authenticated-runner.ts:176-189 | A command that differs in identity, sequence or action is fenced; otherwise it is registered before the supervisor's gate decides. |
| RunnerClass.AuthenticatedRunner.IntentAppend | apps/desktop-runner/src/authenticated-runner.ts:99-106 | The journal wrapper passes an entry on, tagged with the server identity, only when its sequence is the current command's. |
| RunnerClass.AuthenticatedRunner.ResultAppend | apps/desktop-runner/src/authenticated-runner.ts:99-106 | The same for the result. |
| RunnerClass.AuthenticatedRunner.PreflightRetained | apps/desktop-runner/src/authenticated-runner.ts:145-150 | The callback goes on only if the retained preflight passed and nothing was closed meanwhile. |
| RunnerClass.AuthenticatedRunner.ReachAdapter | apps/desktop-runner/src/authenticated-runner.ts:121-129 | The last check before the adapter, state by state. |
| RunnerClass.AuthenticatedRunner.RaceSettles | apps/desktop-runner/src/authenticated-runner.ts:107-130 | The callback's own answer or failure settles the dispatch. |
| RunnerClass.AuthenticatedRunner.RaceTimesOut | apps/desktop-runner/src/authenticated-runner.ts:107-130 | The timeout wins the race and leaves the callback running. |
| RunnerClass.AuthenticatedRunner.Resume | apps/desktop-runner/src/authenticated-runner.ts:190-195 | A gate refusal after the commitment is reported AMBIGUOUS, and AMBIGUOUS fences before it is reported. |
| RunnerClass.AuthenticatedRunner.ActionCompleted | apps/desktop-runner/src/authenticated-runner.ts:195-201 | The acknowledged result settles the row; a STOP also closes the supervisor, and is remembered exactly when it SUCCEEDED. |
| RunnerClass.AuthenticatedRunner.Catch | apps/desktop-runner/src/authenticated-runner.ts:202-211 | A failure fences first and then reports AMBIGUOUS exactly when the action has an identity. |
| RunnerClass.AuthenticatedRunner.RequestCancellation | apps/desktop-runner/src/authenticated-runner.ts:153-158 | Cancellation closes execution, the authority and the supervisor at once. |
| RunnerClass.AuthenticatedRunner.Finish | apps/desktop-runner/src/authenticated-runner.ts:222-227 | Refused exactly without a clean STOP acknowledgement. |
| RunnerClass.AuthenticatedRunner.FinishChecks | apps/desktop-runner/src/authenticated-runner.ts:228-246 | After the journal was read the session is closed exactly when the journal passes the check. |
| RunnerClass.CancelAdvances | apps/desktop-runner/src/authenticated-runner.ts:153-158 | What `requestCancellation` changes is the step of the machine that all results above are about. |
| RunnerClass.OriginAdvances | apps/desktop-runner/src/authenticated-runner.ts:171-173 | The same for the observed origin. |
| RunnerClass.CommitAdvances | apps/desktop-runner/src/authenticated-runner.ts:176-189 | The same for the commitment and the gate. |
| RunnerClass.IntentAdvances | apps/desktop-runner/src/authenticated-runner.ts:99-106 | The same for the intent's append. |
| RunnerClass.ResultAdvances | apps/desktop-runner/src/authenticated-runner.ts:99-106 | The same for the result's append. |
| RunnerClass.RetainedAdvances | apps/desktop-runner/src/authenticated-runner.ts:145-150 | The same for the retained preflight. |
| RunnerClass.AdapterAdvances | apps/desktop-runner/src/authenticated-runner.ts:121-129 | The same for the last check before the adapter. |
| RunnerClass.RaceAdvances | apps/desktop-runner/src/authenticated-runner.ts:107-130 | The same for the end of the callback's race. |
| RunnerClass.ResumeAdvances | apps/desktop-runner/src/authenticated-runner.ts:190-195 | The same for the return from the supervisor. |
| RunnerClass.CompletionAdvances | apps/desktop-runner/src/authenticated-runner.ts:195-201 | The same for the acknowledged result. |
| RunnerClass.FinishAdvances | apps/desktop-runner/src/authenticated-runner.ts:222-227 | The same for `finish`'s guard. |
| RunnerClass.CheckAdvances | apps/desktop-runner/src/authenticated-runner.ts:228-246 | The same for its check. |
| SessionLog.OneOutstanding | apps/desktop-runner/src/dispatch-receiver.ts:378-400 | In every interleaving of replies, losses and timeouts at most one request is unanswered, and it is the last one sent. |
| SessionLog.OneUnresolved | apps/desktop-runner/src/dispatch-receiver.ts:337-376 | Intents sent less results acknowledged is always 0 or 1. |
| SessionLog.AmbiguousAfterLoss | apps/desktop-runner/src/dispatch-receiver.ts:396-456 | After any lost reply the only requests ever sent are AMBIGUOUS results, and after a lost intent none at all. |
| SessionLog.OncePerAction | apps/desktop-runner/src/dispatch-receiver.ts:402-433 | If the control plane never reuses an identity, no action is commit-posted, preflighted, permitted or observed twice. |
| SessionLog.FinishIsExact | apps/desktop-runner/src/dispatch-receiver.ts:563-580 | `finish` is posted at most once and is then the last request; everything before it was acknowledged; it names a STOP whose SUCCEEDED result was acknowledged with no intent since; and it carries exactly the number of acknowledged observations. |
| SessionOrder.RequestsFollow | apps/desktop-runner/src/dispatch-receiver.ts:337-580 | In every run each request is one that may follow what was sent and answered before it: an intent only when the one before is settled, a commitment, a preflight, a permit and an observation once each behind the one before, a result only behind its intent, and `finish` only behind an acknowledged STOP. |
| SessionOrder.WindowBeforeResult | apps/desktop-runner/src/dispatch-receiver.ts:430-493 | In every run without reused identities, an action whose form permit was acknowledged is reported SUCCEEDED or FAILED only directly after the answer that its form window is closed. |
| SessionOrder.CallAnswered | apps/desktop-runner/src/dispatch-receiver.ts:337-580 | After every run a call sends its request exactly when that request may follow the log and what it carries is in order, and otherwise sends nothing. |
| SessionOrder.ResultAsReported | apps/desktop-runner/src/dispatch-receiver.ts:430-451 | In every run the result that is sent carries the status that its caller reported, however long the window took to close. |
| SessionOrder.AnswersRecorded | apps/desktop-runner/src/dispatch-receiver.ts:382-400 | In every run the log keeps each answer as it came and never changes otherwise than by one more request. |
| SessionOrder.FencedIff | apps/desktop-runner/src/dispatch-receiver.ts:378-580 | After every run the session is fenced, for good, by exactly the listed events. |
| SessionLog.StepKeepsSession | apps/desktop-runner/src/dispatch-receiver.ts:246-581 | Every step keeps all of the session invariants together. |
| SessionInv.LostIntentStuck | apps/desktop-runner/src/dispatch-receiver.ts:352-376 | After a lost intent the session never changes again: nothing can be sent, retried or finished. |
| SessionInv.LoseFrame | apps/desktop-runner/src/dispatch-receiver.ts:396-399 | Losing a reply fences the session, except for an intent, whose reservation then stays for ever. |
| SessionClass.NativeExecutionSession.Request | apps/desktop-runner/src/dispatch-receiver.ts:382-400 | A request goes out exactly while time is left, and otherwise fences. |
| SessionClass.NativeExecutionSession.CheckAuthority | apps/desktop-runner/src/dispatch-receiver.ts:281-307 | Guard, reservation and request of the two startup checks. |
| SessionClass.NativeExecutionSession.RetainIntent | apps/desktop-runner/src/dispatch-receiver.ts:337-357 | The reservation is made before the request and survives its loss. |
| SessionClass.NativeExecutionSession.CommitDispatch | apps/desktop-runner/src/dispatch-receiver.ts:402-410 | One commitment per retained intent. |
| SessionClass.NativeExecutionSession.RetainPreflight | apps/desktop-runner/src/dispatch-receiver.ts:495-514 | One preflight per commitment. |
| SessionClass.NativeExecutionSession.AuthorizeForm | apps/desktop-runner/src/dispatch-receiver.ts:458-468 | One permit, after the preflight. |
| SessionClass.NativeExecutionSession.RetainObservation | apps/desktop-runner/src/dispatch-receiver.ts:526-551 | One observation per commitment; the producer number is consumed before the request. |
| SessionClass.NativeExecutionSession.CompleteAction | apps/desktop-runner/src/dispatch-receiver.ts:430-438 | AMBIGUOUS is admitted even when fenced; any other status waits for the form window first. |
| SessionClass.NativeExecutionSession.RequestFinish | apps/desktop-runner/src/dispatch-receiver.ts:563-570 | Closing requires an acknowledged STOP and nothing pending. |
| SessionClass.NativeExecutionSession.Replied | apps/desktop-runner/src/dispatch-receiver.ts:439-451 | Only the exact acknowledgement clears the pending gates. |
| SessionClass.NativeExecutionSession.ReplyLost | apps/desktop-runner/src/dispatch-receiver.ts:396-399 | A lost reply clears none of them. |
| SessionClass.NativeExecutionSession.WindowReplied | apps/desktop-runner/src/dispatch-receiver.ts:482-492 | One turn of the loop over the form window. |
| ActionBridgeRuns.CommandsNumbered | apps/desktop-runner/src/navigator-action-bridge.ts:110-124 | In every run the k-th command to reach `perform` carries sequence k, and there are never more than `maxActions`. |
| ActionBridgeRuns.OneAtATime | apps/desktop-runner/src/navigator-action-bridge.ts:111-138 | A command starts only while no other is being performed. |
| ActionBridgeRuns.NothingAfter | apps/desktop-runner/src/navigator-action-bridge.ts:66-80 | After a fence or a successful STOP no continuation hands another command to `perform`. |
| ActionBridgeRuns.FinishAfterReplies | apps/desktop-runner/src/navigator-action-bridge.ts:185-198 | When `runner.finish` is called, a STOP has succeeded, nothing is being performed, and every authenticated request ever accepted has had its reply flushed and its socket closed. |
| ActionBridgeRuns.FencedNeverFinishes | apps/desktop-runner/src/navigator-action-bridge.ts:185-195 | A fence before the final check keeps `runner.finish` from ever being called. |
| ActionBridgeRuns.RunKeeps | apps/desktop-runner/src/navigator-action-bridge.ts:81-141 | Numbering, single occupancy and the lost-reply fence are kept by every run. |
| ActionBridgeCauses.PerformedIff | apps/desktop-runner/src/navigator-action-bridge.ts:98-124 | In every run a request that is read is performed exactly when it is authentic, next in number, within the limit and nothing else is being performed; and an authentic one that is not performed closes the bridge. |
| ActionBridgeCauses.FinishCaused | apps/desktop-runner/src/navigator-action-bridge.ts:185-198 | In every run the runner's `finish` was begun by one call that found the STOP succeeded, nothing fenced and nothing being performed, and waited for every socket open then. |
| ActionBridgeCauses.ResultStep | apps/desktop-runner/src/navigator-action-bridge.ts:124-138 | A result is passed on or fences; a STOP counts exactly when it succeeded; every doubt closes the bridge. |
| ActionBridgeCauses.RepliedIff | apps/desktop-runner/src/navigator-action-bridge.ts:86-136 | A reply counts exactly when its flush succeeded, and a socket is closed exactly by its close event. |
| ActionBridgeCauses.ClosedIff | apps/desktop-runner/src/navigator-action-bridge.ts:66-90 | Outside requests and results the bridge is closed exactly by a doubt or by the runner's `finish`. |
| ActionBridgeCauses.OnlyRequestsPerform | apps/desktop-runner/src/navigator-action-bridge.ts:98-124 | Nothing but a request on a waiting socket is ever performed. |
| ActionBridgeCauses.OnlyResultsStop | apps/desktop-runner/src/navigator-action-bridge.ts:124-129 | Only the STOP's own result stops. |
| ActionBridgeCauses.Connects | apps/desktop-runner/src/navigator-action-bridge.ts:81-90 | A connection waits for a request unless it is refused or nothing more is wanted, and leaves the other sockets alone. |
| ActionBridgeCauses.OwnSocket | apps/desktop-runner/src/navigator-action-bridge.ts:81-141 | Only its own events change a socket; a reply is never unsaid and a closed socket stays closed. |
| ActionBridgeCauses.CanFinish | apps/desktop-runner/src/navigator-action-bridge.ts:81-198 | Witness: a navigator that asks only for the STOP gets it performed, replied to and finished. |
| ActionBridge.NavigatorActionBridge.DoFence | apps/desktop-runner/src/navigator-action-bridge.ts:66 | A fence closes the bridge and nothing else of it. |
| ActionBridge.NavigatorActionBridge.Receive | apps/desktop-runner/src/navigator-action-bridge.ts:98-124 | A request line reaches `perform` exactly when every check passes, and its number is consumed before anything is awaited. |
| ActionBridge.NavigatorActionBridge.Performed | apps/desktop-runner/src/navigator-action-bridge.ts:124-138 | What a result does to the bridge. |
| ActionBridge.NavigatorActionBridge.Closed | apps/desktop-runner/src/navigator-action-bridge.ts:86-89 | A socket that closes without a flushed reply fences. |
| ActionBridge.NavigatorActionBridge.BeginFinish | apps/desktop-runner/src/navigator-action-bridge.ts:185-192 | `finish` up to its wait for open sockets. |
| DesktopClaimRuns.OneHolder | apps/desktop-runner/src/desktop-claim.ts:56-102 | With any number of processes claiming, crashing and cancelling, at most one claimant can pass `assertHeld` at any moment, and it has not released. |
| DesktopClaimRuns.PassesSegregated | apps/desktop-runner/src/desktop-claim.ts:75-118 | Over a whole run passes of different claimants never interleave, the startup guard's and late calls of the adapter's guard included: the earlier one has finished, released, and never passes again. |
| DesktopClaimRuns.OnlyFinishedUnlink | apps/desktop-runner/src/desktop-claim.ts:224-237 | The marker disappears only by the unlink of its owner, whose inner `finish` returned while its state was still FINISHING. |
| DesktopClaimRuns.MarkerSurvives | apps/desktop-runner/src/desktop-claim.ts:67-73 | A claimant that crashed or was cancelled before its release leaves the marker in place in every continuation, and nobody else ever passes. |
| DesktopClaimRuns.CancelledClaimSurvives | apps/desktop-runner/src/desktop-claim.ts:154-160 | The same for a cancellation at any moment of any run at which it can come. |
| DesktopClaimRuns.CrashedClaimSurvives | apps/desktop-runner/src/desktop-claim.ts:67-73 | The same for a crash of the owner at any moment of any run. |
| DesktopClaimRuns.FailedReleaseSurvives | apps/desktop-runner/src/desktop-claim.ts:106-117 | A release whose unlink fails leaves the whole marker in every continuation, and nobody ever passes again. |
| DesktopClaimRuns.CancelledNeverPasses | apps/desktop-runner/src/desktop-claim.ts:154-189 | After a cancellation no guard of that claimant passes again, however late the startup hook or an adapter that was left running calls it. |
| DesktopClaimRuns.ClaimEnters | apps/desktop-runner/src/desktop-claim.ts:161-216 | A claimant that finds no marker takes it, passes and reaches its runner. |
| DesktopClaimRuns.HandOver | apps/desktop-runner/src/desktop-claim.ts:224-237 | After a clean finish the desktop is free and the next claimant takes it and passes. |
| DesktopClaimCauses.ReleaseCaused | apps/desktop-runner/src/desktop-claim.ts:224-237 | In every run a desktop is given back only by a claimant whose inner `finish` was begun active and held, returned while it was held, and whose claim was checked once more before the unlink. |
| DesktopClaimCauses.ClosedIff | apps/desktop-runner/src/desktop-claim.ts:75-237 | In every run a possible step closes its runner exactly when its check fails or it is a cancellation, an ambiguous outcome or the end of a release; it closes the claim exactly when it looks and does not hold, or releases; and it passes exactly when it looks and holds. |
| DesktopClaimCauses.HoldsIff | apps/desktop-runner/src/desktop-claim.ts:75-102 | In every run the check succeeds for exactly the claimant that is alive, created the marker that is there, wrote it whole and has not closed its claim. |
| DesktopClaimCauses.ActiveCaused | apps/desktop-runner/src/desktop-claim.ts:170-209 | In every run a claimant created with an initialisation becomes active only by one that began and ended held. |
| DesktopClaimCauses.PerformingCaused | apps/desktop-runner/src/desktop-claim.ts:211-222 | In every run the inner runner is entered only by an active claimant that holds the desktop. |
| DesktopClaimCauses.OthersUntouched | apps/desktop-runner/src/desktop-claim.ts:56-118 | No step touches another claimant, and the marker changes by exactly three file-system calls. |
| DesktopClaimCauses.CanInitialize | apps/desktop-runner/src/desktop-claim.ts:161-216 | Witness: a claimant on a free desktop can initialise, pass its guards and reach its runner. |
| DesktopClaim.ExclusiveRunner.constructor | apps/desktop-runner/src/desktop-claim.ts:56-60 | The marker is created exactly where there is none. |
| DesktopClaim.ExclusiveRunner.WritePayload | apps/desktop-runner/src/desktop-claim.ts:61-73 | The marker is whole exactly when the claim succeeded; a failed write leaves what was written. |
| DesktopClaim.ExclusiveRunner.AssertHeld | apps/desktop-runner/src/desktop-claim.ts:75-102 | A failed check closes the claim for good. |
| DesktopClaim.ExclusiveRunner.StartInitialization | apps/desktop-runner/src/desktop-claim.ts:170-193 | Initialisation begins exactly when the first startup check passes, and otherwise closes the runner. |
| DesktopClaim.ExclusiveRunner.StartupGuard | apps/desktop-runner/src/desktop-claim.ts:178-189 | The startup guard passes only while initialising, in time and with the claim held; a failed claim check closes the claim. |
| DesktopClaim.ExclusiveRunner.InitializationEnds | apps/desktop-runner/src/desktop-claim.ts:199-209 | Actions are admitted exactly after a startup that resolved, was not cancelled, and still holds the claim. |
| DesktopClaim.ExclusiveRunner.Guard | apps/desktop-runner/src/desktop-claim.ts:155-160 | The adapter's guard passes exactly in state ACTIVE with the claim held, and cancels wherever it throws. |
| DesktopClaim.ExclusiveRunner.StartPerform | apps/desktop-runner/src/desktop-claim.ts:211-216 | The guard is passed before the inner runner is entered. |
| DesktopClaim.ExclusiveRunner.PerformEnds | apps/desktop-runner/src/desktop-claim.ts:216-222 | An AMBIGUOUS outcome cancels. |
| DesktopClaim.ExclusiveRunner.StartFinish | apps/desktop-runner/src/desktop-claim.ts:224-230 | The guard is passed before the inner `finish`. |
| DesktopClaim.ExclusiveRunner.FinishEnds | apps/desktop-runner/src/desktop-claim.ts:230-236 | The release is entered exactly when the inner call returned in state FINISHING and the claim holds. |
| DesktopClaim.ExclusiveRunner.BeginRelease | apps/desktop-runner/src/desktop-claim.ts:106-111 | The claim is closed before the unlink, which is reached exactly when the claim holds once more. |
| DesktopClaim.ExclusiveRunner.EndRelease | apps/desktop-runner/src/desktop-claim.ts:112-117 | The marker goes exactly when the unlink took effect, and nothing is tried again. |
| GitFraming.DecodeIff | apps/build-worker/src/accessforge_build_worker/source_broker.py:96-129 | The decoder accepts a payload if and only if it is one well-formed frame per wanted object, in order, with its exact address and nothing trailing, and then returns the objects; leading zeros in sizes are the only freedom. |
| GitFraming.BatchRoundTrip | apps/build-worker/src/accessforge_build_worker/source_broker.py:96-129 | Encoding and decoding any objects of admissible size gives them back. |
| GitFraming.DecodeBatch | apps/build-worker/src/accessforge_build_worker/source_broker.py:96-129 | The offset loop computes the recursive decoder. |
| GitFraming.DecodeFrame | apps/build-worker/src/accessforge_build_worker/source_broker.py:101-126 | One turn of the loop. |
| GitFraming.TreeIff | apps/build-worker/src/accessforge_build_worker/source_broker.py:207-228 | The tree-entry loop accepts exactly the encodings `mode SP name NUL id` and inverts them, including names with spaces. |
| GitWalk.ReadCommitted | apps/build-worker/src/accessforge_build_worker/source_broker.py:132-254 | A source is returned exactly when the walk recovers files that form a snapshot with the persisted digest, and it is those files. |
| GitWalk.RecoverSource | apps/build-worker/src/accessforge_build_worker/source_broker.py:196-251 | The imperative recovery computes the specified one. |
| GitWalk.WalkLevels | apps/build-worker/src/accessforge_build_worker/source_broker.py:204-240 | The level loop computes the recursive walk. |
| GitWalk.ScanLevel | apps/build-worker/src/accessforge_build_worker/source_broker.py:207-239 | The loop over one level. |
| GitWalk.ScanEntries | apps/build-worker/src/accessforge_build_worker/source_broker.py:208-239 | The offset loop over one tree object. |
| GitWalk.CheckEntry | apps/build-worker/src/accessforge_build_worker/source_broker.py:216-239 | The checks of one entry, in the order of the code, accept exactly the specified entries. |
| GitWalk.FetchObjects | apps/build-worker/src/accessforge_build_worker/source_broker.py:156-194 | One batch is one drain of one process under what is left of the byte budget; the bytes it kept are counted also when it is refused. |
| GitWalk.RecoveryBudgets | apps/build-worker/src/accessforge_build_worker/source_broker.py:153-194 | On any object database, cyclic or hostile, whatever its processes print and whether the recovery is accepted or refused: at most `MAX_ARCHIVE_BYTES` bytes are kept, at most one process more is started than bytes were kept, and at most `MAX_MEMBERS` entries and the one refused are counted; an accepted one has one file per reference and stays within the member limit. |
| GitWalk.WalkBudget | apps/build-worker/src/accessforge_build_worker/source_broker.py:204-240 | Every walk, accepted or refused, stays within the byte budget. |
| GitWalk.WalkCalls | apps/build-worker/src/accessforge_build_worker/source_broker.py:204-240 | Between two batches of a walk every process started has cost at least one byte. |
| GitWalk.WalkCounts | apps/build-worker/src/accessforge_build_worker/source_broker.py:229-231 | Every walk counts at most `MAX_MEMBERS` entries and the one it refuses, and exactly those of an accepted walk. |
| GitObjects.FetchedIff | apps/build-worker/src/accessforge_build_worker/source_broker.py:156-194 | Objects are fetched exactly when the next process ends by itself with code 0 and within the bytes left, having printed one good frame for each and nothing else. |
| GitObjects.BoundIff | apps/build-worker/src/accessforge_build_worker/source_broker.py:244-254 | Against the digest of any snapshot, a recovery is accepted exactly when its files are a snapshot with the paths and contents of that one. |
| GitObjects.FrameIff | apps/build-worker/src/accessforge_build_worker/source_broker.py:101-126 | A frame is good exactly when its header names the object in fewer than 128 bytes with one to nine digits of size, the content has that size within the limit of its kind, and its address is the one wanted. |
| GitObjects.CommitIff | apps/build-worker/src/accessforge_build_worker/source_broker.py:196-200 | A commit names a tree exactly when its first line is `tree ` and forty lower-case hexadecimal digits. |
| GitObjects.InputNames | apps/build-worker/src/accessforge_build_worker/source_broker.py:156-176 | The input of a batch is the wanted addresses, one a line. |
| GitObjects.HexInjective | apps/build-worker/src/accessforge_build_worker/source_broker.py:227 | The hexadecimal text of an identifier determines its bytes. |
| GitFlatten.RecoversFlattening | apps/build-worker/src/accessforge_build_worker/source_broker.py:196-251 | Every accepted recovery is the recursive flattening of the commit's tree as a multiset of path, mode and address, and every file holds the content its address names. |
| GitFlatten.WalkFlattens | apps/build-worker/src/accessforge_build_worker/source_broker.py:204-240 | What the walk ends with is what it had and the flattening of what was pending. |
| GitFlatten.LevelSplit | apps/build-worker/src/accessforge_build_worker/source_broker.py:205-240 | One level: its own files and the flattening of the next level are together the flattening of its directories; nothing is lost, doubled or mispaired. |
| GitFlatten.FileModes | apps/build-worker/src/accessforge_build_worker/source_broker.py:232-238 | The mode of a recovered file is 0o755 for the entry mode 100755 and 0o644 for 100644, and that is the last three octal digits of the text; no other mode is accepted for a file. |
| GitRefusals.LevelAcceptedIff | apps/build-worker/src/accessforge_build_worker/source_broker.py:205-239 | A level is accepted if and only if every tree is a sequence of whole entries, every entry is a canonical UTF-8 path of a supported kind, no two paths of the walk so far fold alike, and the member limit holds, whatever the order of entries. |
| GitRefusals.LevelRecords | apps/build-worker/src/accessforge_build_worker/source_broker.py:224-231 | An accepted level records exactly the folds of its paths and counts exactly its entries. |
| GitRefusals.LevelIsPlaced | apps/build-worker/src/accessforge_build_worker/source_broker.py:205-239 | Reading a level tree by tree is reading all its entries, each with its directory, in one list. |
| GitHonest.HonestRecoveryIff | apps/build-worker/src/accessforge_build_worker/source_broker.py:196-243 | Against processes that answer honestly, the recovery accepts if and only if the commit and its trees are well formed and within their limits, every entry is acceptable, there is a file, no file is above its limit, and all that is printed fits the byte budget; and it then returns every file below the commit with its content. |
| GitHonest.HonestWalk | apps/build-worker/src/accessforge_build_worker/source_broker.py:204-240 | The same for the walk from any level. |
| GitHonest.HonestChild | apps/build-worker/src/accessforge_build_worker/process.py:25-104 | A process that ends undisturbed and successful after printing the answer and nothing else is such an honest one, under every bound. |
| Process.RunBounded | apps/build-worker/src/accessforge_build_worker/process.py:25-112 | It returns a result exactly when the child ended undisturbed with both pipes closed and all input taken within the bound, and then exactly its code and everything it printed; whatever the child did, it never keeps more than the bound. |
| Process.Pump | apps/build-worker/src/accessforge_build_worker/process.py:66-101 | The selector loop computes the recursive drain. |
| Process.DrainIff | apps/build-worker/src/accessforge_build_worker/process.py:66-104 | And that drain returns exactly what a child printed that ended undisturbed within the bound. |
| SourcePaths.CheckPath | apps/build-worker/src/accessforge_build_worker/snapshot.py:39-58 | The path checks accept exactly the specified canonical names. |
| SourcePaths.CutOfFold | apps/build-worker/src/accessforge_build_worker/snapshot.py:94-101 | Every directory of a case-folded path is the fold of a directory of the path. |
| SourcePaths.FoldOfCut | apps/build-worker/src/accessforge_build_worker/snapshot.py:94-101 | And conversely. |
| SourcePaths.PathOkIff | apps/build-worker/src/accessforge_build_worker/snapshot.py:39-58 | A name is canonical exactly when it is parts joined by slashes, each nonempty, not `.`, `..` or a spelling of `.git`, without control characters, backslash and colon, and the whole has at most 1024 bytes and is normalised. |
| Snapshot.Construct | apps/build-worker/src/accessforge_build_worker/snapshot.py:81-101 | The dictionary loops accept exactly the bounded file sets whose names are case-fold injective on every prefix and in which no file is above another. |
| Snapshot.FoldPaths | apps/build-worker/src/accessforge_build_worker/snapshot.py:88-91 | Distinct folds, by a set. |
| Snapshot.FillNamespace | apps/build-worker/src/accessforge_build_worker/snapshot.py:92-98 | The `setdefault` loop accepts exactly when any two names that fold alike are equal, at every directory level. |
| Snapshot.RecordNames | apps/build-worker/src/accessforge_build_worker/snapshot.py:95-98 | One path of that loop. |
| Snapshot.NoFileAbove | apps/build-worker/src/accessforge_build_worker/snapshot.py:99-101 | The test on folded names finds exactly a file above another. |
| SnapshotArchive.ReadArtifact | apps/build-worker/src/accessforge_build_worker/snapshot.py:149-186 | A payload is accepted exactly when it is within the archive limit, the tar format can be read, and its members are bounded, distinct, plain and form a snapshot; the result is exactly their files. |
| SnapshotArchive.ReadSnapshot | apps/build-worker/src/accessforge_build_worker/snapshot.py:141-146 | With the persisted digest checked as well, what is returned has the paths and contents of every snapshot with that digest. |
| SnapshotArchive.CollectMembers | apps/build-worker/src/accessforge_build_worker/snapshot.py:158-183 | The loop itself. |
| SnapshotArchive.ArchiveRoundTrip | apps/build-worker/src/accessforge_build_worker/snapshot.py:120-186 | A snapshot's archive is written exactly when it would be read, and reading it gives the snapshot back in canonical order. |
| SnapshotArchive.PermutationInvariant | apps/build-worker/src/accessforge_build_worker/snapshot.py:103-133 | Archive and canonical order do not depend on the order of the files. |
| SnapshotArchive.SortedSnapshot | apps/build-worker/src/accessforge_build_worker/snapshot.py:115-124 | The canonical order is itself a snapshot of the same files. |
| SnapshotArchive.TreeDigestDetermines | apps/build-worker/src/accessforge_build_worker/snapshot.py:103-118 | Two snapshots have one tree digest if and only if they have the same paths and contents. |
| SnapshotArchive.ModesUnbound | apps/build-worker/src/accessforge_build_worker/snapshot.py:103-138 | Changing a mode keeps the tree digest and changes the archive's bytes. |
| SnapshotTree.SnapshotIff | apps/build-worker/src/accessforge_build_worker/snapshot.py:61-101 | Files are a snapshot exactly when they are one to 4096 of at most 4 MiB each and 32 MiB together, with canonical paths and one of two modes, and one tree of files and directories under case-folded names holds them all. |
| SnapshotTree.NamespaceIff | apps/build-worker/src/accessforge_build_worker/snapshot.py:88-101 | The three namespace rules hold exactly when such a tree exists: what cannot be laid out without a clash is refused, and nothing else. |
| SnapshotTree.PayloadIff | apps/build-worker/src/accessforge_build_worker/snapshot.py:149-186 | An archive is accepted exactly when it has at most 40 MiB and 4096 members, each a directory or a bounded file with a canonical name, told apart by folded names, and its files are a snapshot. |
| SnapshotTree.WrittenIff | apps/build-worker/src/accessforge_build_worker/snapshot.py:120-138 | An archive is written exactly when it has at most 40 MiB, and is then the sorted files packed. |
| SnapshotTree.OrderIff | apps/build-worker/src/accessforge_build_worker/snapshot.py:115-124 | The canonical order compares paths part by part, and parts character by character. |
| Candidate.ReviewedEqualsBuilt | apps/build-worker/src/accessforge_build_worker/comparison.py:106-153 | When comparison and preparation both accept one base and patch: each shown before and after is the file of base and candidate at that path, every path not shown is unchanged, and the entries flagged changed are exactly the changed paths. |
| Candidate.ShownIsBuilt | apps/build-worker/src/accessforge_build_worker/comparison.py:129-151 | The reviewed text, encoded, and the reviewed mode are byte for byte the file that is built; a shown deletion is absent. |
| Candidate.DigestLeavesModes | apps/build-worker/src/accessforge_build_worker/snapshot.py:217-256 | Comparison and preparation are tied to one base by its tree digest only: the contents then agree, and the modes agree if and only if the change states one, the path is new, or the two bases agree on it. |
| CandidateAccepts.PreparedIff | apps/build-worker/src/accessforge_build_worker/snapshot.py:199-265 | A candidate is prepared exactly when the patch is approved, intact, allowed, of this base and within its bytes, every change can be made to the original file at its path, and what all of them leave is a snapshot; and the candidate is that, in whatever order the changes come. |
| CandidateAccepts.ComparedIff | apps/build-worker/src/accessforge_build_worker/comparison.py:80-153 | A comparison is made exactly when the patch is intact, acceptable, of this base, of 1 to 20 changes on paths that do not fold alike, and all sides are bounded text within the line and byte budgets. |
| CandidateAccepts.ComparedAs | apps/build-worker/src/accessforge_build_worker/comparison.py:110-153 | Each entry shows the text, size and mode of the original file and of what the change leaves, and flags a change exactly when they differ. |
| CandidateAccepts.LinesAre | apps/build-worker/src/accessforge_build_worker/comparison.py:28-31 | A text has a line for every LF and one for what follows the last. |
| Candidate.PrepareCandidate | apps/build-worker/src/accessforge_build_worker/snapshot.py:199-265 | The method computes the specified preparation, refusals included. |
| Candidate.ApplyChanges | apps/build-worker/src/accessforge_build_worker/snapshot.py:239-256 | The dictionary loop with its byte budget applies the changes in order. |
| Candidate.ChangedPathHolds | apps/build-worker/src/accessforge_build_worker/snapshot.py:241-256 | Each change decides what its path holds in the end, seeing the original file there. |
| Candidate.UntouchedPath | apps/build-worker/src/accessforge_build_worker/snapshot.py:239-257 | A path no change names keeps its file. |
| Candidate.CompareSource | apps/build-worker/src/accessforge_build_worker/comparison.py:80-153 | The method computes the specified comparison, refusals included. |
| Candidate.CompareChanges | apps/build-worker/src/accessforge_build_worker/comparison.py:110-153 | The loop with its running totals refuses exactly when some change is not comparable or the totals of the whole exceed a budget. |
| Candidate.CheckChange | apps/build-worker/src/accessforge_build_worker/comparison.py:113-143 | The checks of one change. |
| Candidate.CheckSide | apps/build-worker/src/accessforge_build_worker/comparison.py:34-43 | A side is shown exactly when it is bounded UTF-8 text without NUL and with few enough lines. |
| Bundle.Demultiplex | apps/orchestrator/src/accessforge_orchestrator/execution_artifacts.py:203-232 | The loop accepts exactly the chains from genesis that number every producer without gaps up to its closed tail, and returns exactly the groups. |
| Bundle.AcceptedIff | apps/orchestrator/src/accessforge_orchestrator/execution_artifacts.py:203-232 | A list is accepted exactly when every event is in its place (number, chain, digests, attempt, its producer's next number by a count) and every producer's count is its closed tail. |
| Bundle.MergeRestores | apps/orchestrator/src/accessforge_orchestrator/execution_artifacts.py:203-232 | The groups are a partition: each is numbered 1, 2, ... and ordering all entries by sequence gives the event list back, each record once. |
| Bundle.RecordPlaced | apps/orchestrator/src/accessforge_orchestrator/execution_artifacts.py:218-230 | Each record is in its producer's group at the place its own number says. |
| Bundle.HeadDetermines | apps/orchestrator/src/accessforge_orchestrator/execution_artifacts.py:222-229 | With a collision-free digest, equal chain heads imply equal length and equal chained fields of every event. |
| Bundle.HeadDeterminesBundle | apps/orchestrator/src/accessforge_orchestrator/execution_artifacts.py:205-229 | For accepted lists, everything but the event identifiers is equal. |
| CompletionRuns.RowsNeverMoveBack | apps/orchestrator/src/accessforge_orchestrator/execution_artifacts.py:304-398 | In every interleaving of calls, crashes, purges and rejections, an artifact row keeps what it names, leaves quarantine at most once, and never regains retention. |
| CompletionRuns.NoResurrection | apps/orchestrator/src/accessforge_orchestrator/execution_artifacts.py:373-391 | Once a row is promoted, rejected or no longer retained, no call ever writes an object for it again. |
| CompletionRuns.NeverOverwrites | packages/persistence/src/accessforge_persistence/evidence/objectstore.py:258-273 | Calls and late writes never replace or remove an object. |
| CompletionRuns.OneEvaluation | apps/orchestrator/src/accessforge_orchestrator/finalize_execution.py:312-373 | Any two calls that ever return, at whatever times, hold the same snapshot, and it is the recorded evaluation. |
| CompletionRuns.StepEvaluated | apps/orchestrator/src/accessforge_orchestrator/finalize_execution.py:313-320 | An evaluation is recorded once and closes the run, although the first read takes no lock. |
| CompletionRuns.KeyInjective | packages/persistence/src/accessforge_persistence/evidence/objectstore.py:89-112 | Kind and digest can be read off an object key, because a digest contains no slash. |
| CompletionRuns.ReservedIs | apps/orchestrator/src/accessforge_orchestrator/execution_artifacts.py:323-371 | A reservation keeps every row and adds exactly one row per new item. |
| CompletionResume.FirstJournalWins | apps/orchestrator/src/accessforge_orchestrator/execution_artifacts.py:329-354 | Two calls that ever pass the reservation write the same bytes under the same artifact for each kind: a call with another journal never gets past it. |
| CompletionResume.EvaluationComplete | apps/orchestrator/src/accessforge_orchestrator/finalize_execution.py:45-100 | Every evaluation, after any run, covers every item of the bundle recomputed from the stored journal by exactly one promoted, retained artifact whose stored object is the item. |
| CompletionResume.RunKeepsPlans | apps/orchestrator/src/accessforge_orchestrator/execution_artifacts.py:323-396 | At most one artifact per kind, and every plan in progress names the rows it was reserved for. |
| CompletionCauses.EvaluationCaused | apps/orchestrator/src/accessforge_orchestrator/finalize_execution.py:309-373 | In every run an evaluation is recorded only by a call that had written its whole plan, on an open run, with the verdict on exactly the promoted rows and their stored bytes. |
| CompletionCauses.PromotionCaused | apps/orchestrator/src/accessforge_orchestrator/execution_artifacts.py:364-397 | In every run a row is promoted only in the transaction that stored or compared its object, after the bytes were read back. |
| CompletionCauses.ObjectCaused | apps/orchestrator/src/accessforge_orchestrator/execution_artifacts.py:364-391 | In every run that nobody disturbs, each object was written by a call for the first item of its plan, with the run open and locked, the handoff unchanged since its reservation, and the row retained, quarantined and the item's own. |
| CompletionCauses.PlanCaused | apps/orchestrator/src/accessforge_orchestrator/execution_artifacts.py:304-371 | In every run a call with a plan was called with a journal and reserved exactly that plan for it. |
| CompletionCauses.HolderExcludes | apps/orchestrator/src/accessforge_orchestrator/execution_artifacts.py:364-397 | In every run, while one transaction is open nothing but its own end changes run, handoff or rows. |
| CompletionCauses.OpenIff | apps/orchestrator/src/accessforge_orchestrator/finalize_execution.py:309-373 | A run is open until it is evaluated or closed, and its handoff changes only by withdrawal; both wait for an open transaction. |
| CompletionCauses.LostReply | packages/persistence/src/accessforge_persistence/evidence/objectstore.py:258-273 | A write whose reply is lost ends its call and its transaction, and stays under way. |
| CompletionCauses.LandsIff | packages/persistence/src/accessforge_persistence/evidence/objectstore.py:258-273 | It lands only where nothing is. |
| CompletionSettled.QuietRunsSettled | apps/orchestrator/src/accessforge_orchestrator/complete_execution.py:25-40 | Every crash point of every interleaving of calls with one journal, lost writes that land late included, is a settled state, one from which a call can finish. |
| CompletionSettled.StartSettled | apps/orchestrator/src/accessforge_orchestrator/complete_execution.py:25-40 | The start is settled. |
| CompletionSettled.QuietVerdict | apps/orchestrator/src/accessforge_orchestrator/finalize_execution.py:45-100 | Whatever the interleaving, the terminal transaction succeeds only with every item uploadable, and with the verdict on exactly this journal's bundle and the stored rows. |
| CompletionConverges.CallsConverge | apps/orchestrator/src/accessforge_orchestrator/complete_execution.py:25-40 | Convergence: after any such interleaving, as soon as no transaction is open, one fresh call has a run that returns the evaluation there is, or else promotes the whole bundle, if it can be uploaded, and returns its verdict, if it has one. |
| CompletionConverges.CompletesFrom | apps/orchestrator/src/accessforge_orchestrator/complete_execution.py:25-40 | The same from any settled state. |
| CompletionClass.ExecutionArtifacts.Complete | apps/orchestrator/src/accessforge_orchestrator/complete_execution.py:18-40 | The call is a run of the machine, whose steps it reports. From every settled state it returns a snapshot exactly when the bundle can be uploaded and has a verdict, and returns that verdict; an earlier evaluation is returned unchanged; objects only grow and rows only move forward. |
| CompletionClass.ExecutionArtifacts.RetainBundle | apps/orchestrator/src/accessforge_orchestrator/execution_artifacts.py:304-398 | Retention is a run of the machine, whose steps it reports. From every settled state it succeeds exactly when the bundle can be uploaded, and leaves the whole plan promoted. |
| CompletionClass.ExecutionArtifacts.ReserveBundle | apps/orchestrator/src/accessforge_orchestrator/execution_artifacts.py:321-371 | One transaction: all rows are reserved exactly when every item finds its own row or none of its kind, and otherwise nothing changes. |
| CompletionClass.ExecutionArtifacts.PlaceObject | apps/orchestrator/src/accessforge_orchestrator/execution_artifacts.py:364-391 | The step before a promotion: the object is compared or written create-only exactly under the stated conditions; a crash can fall after it. |
| CompletionClass.ExecutionArtifacts.PromoteRow | apps/orchestrator/src/accessforge_orchestrator/execution_artifacts.py:392-397 | The promotion, after the stored bytes are read back. |
| CompletionClass.ExecutionArtifacts.WriteArtifact | apps/orchestrator/src/accessforge_orchestrator/execution_artifacts.py:364-397 | One object's transaction is those two steps of the machine, or changes nothing. |
| CompletionClass.ExecutionArtifacts.Finalize | apps/orchestrator/src/accessforge_orchestrator/finalize_execution.py:309-373 | The terminal transaction succeeds exactly on an open run with the complete promoted bundle and a verdict, and records that verdict. |
| CompletionConverges.ResumedVerdict | apps/orchestrator/src/accessforge_orchestrator/finalize_execution.py:45-100 | Once the plan is promoted the run can be evaluated exactly when the bundle has a verdict, and the verdict is the bundle's. |
| ArchiveRuns.ReadsMatch | apps/build-worker/src/accessforge_build_worker/artifacts.py:190-221 | Every successful read, under any interleaving and any corruption of the store, returned bytes of the recorded size and digest. |
| ArchiveRuns.ReadPrecedesIntent | apps/build-worker/src/accessforge_build_worker/artifacts.py:198-221 | A read completes only while no retirement intent exists and its archive is retained and built. |
| ArchiveRuns.IntentCloses | apps/build-worker/src/accessforge_build_worker/artifacts.py:233-294 | After the intent no read succeeds, nothing is promoted and no attempt is built, in any continuation. |
| ArchiveRuns.NothingAfterIntent | apps/build-worker/src/accessforge_build_worker/artifacts.py:233-294 | The same from any state that keeps the row invariants, with the archive row at most becoming deleted. |
| ArchiveRuns.TombstoneForever | apps/build-worker/src/accessforge_build_worker/artifacts.py:272-294 | Once a retirement is complete the key holds a tombstone for ever, whatever late create-only writes, other retirers or crashes follow. |
| ArchiveRuns.BuiltIsReadable | apps/build-worker/src/accessforge_build_worker/artifacts.py:164-187 | A built candidate that nobody has begun to retire can be read back by any idle worker. |
| ArchiveRuns.RetirementResumes | apps/build-worker/src/accessforge_build_worker/artifacts.py:224-294 | An intent left pending at any point can be finished by any later call, and then the payload is gone. |
| ArchiveCauses.RetirementCaused | apps/build-worker/src/accessforge_build_worker/artifacts.py:237-271 | In every run there is a retirement only by a call that found the archive retained, built and expired, with no retirement before it. |
| ArchiveCauses.UnexpiredUntouched | apps/build-worker/src/accessforge_build_worker/artifacts.py:224-294 | A run in which no sweep finds the archive expired ends exactly as the same run without its sweeps: no retirement, no retirer, no attempt closed by one. |
| ArchiveCauses.RetiredCaused | apps/build-worker/src/accessforge_build_worker/artifacts.py:237-294 | In every run a retirement is complete only after an expired archive was marked and a retirer saw the tombstone, with no reader left. |
| ArchiveCauses.TombstoneSent | apps/build-worker/src/accessforge_build_worker/artifacts.py:272-294 | In every run a tombstone is sent only by a retirer that had been marked. |
| ArchiveCauses.BuiltCaused | apps/build-worker/src/accessforge_build_worker/artifacts.py:108-187 | In every run an attempt is built only by a promotion whose worker had read its own upload back. |
| ArchiveCauses.ArchiveCaused | apps/build-worker/src/accessforge_build_worker/artifacts.py:108-162 | In every run an archive row exists only by such an intent and names the size and digest of its bytes. |
| ArchiveCauses.ReadCaused | apps/build-worker/src/accessforge_build_worker/artifacts.py:190-221 | In every run a successful read took its locks, then fetched exactly its bytes, and was still current at its end. |
| ArchiveCauses.DispatchCaused | packages/persistence/src/accessforge_persistence/candidate_builds.py:253-299 | In every run an attempt runs only once it was authorised, and the epoch advances exactly when it is closed. |
| ArchiveCauses.ReadersWaitedFor | apps/build-worker/src/accessforge_build_worker/artifacts.py:198-221 | Whatever locks the attempt for update waits for the readers. |
| ArchiveCauses.CanBeBuilt | apps/build-worker/src/accessforge_build_worker/artifacts.py:108-187 | Witness: from the start, any acceptable bytes can be retained and built by any worker. |
| ArchiveCauses.CanBeRetired | apps/build-worker/src/accessforge_build_worker/artifacts.py:237-271 | Witness: an expired archive can then be marked for retirement. |
| ArchiveLifecycle.Archives.IntendRetention | apps/build-worker/src/accessforge_build_worker/artifacts.py:108-162 | The upload intent is recorded once, by the owner of a dispatched attempt. |
| ArchiveLifecycle.Archives.Promote | apps/build-worker/src/accessforge_build_worker/artifacts.py:166-187 | Promotion and the build receipt are one transaction, refused after an intent. |
| ArchiveLifecycle.Archives.PutCreateOnly | packages/persistence/src/accessforge_persistence/evidence/objectstore.py:258-273 | A conditional write changes only an absent cell. |
| ArchiveLifecycle.Archives.BeginRead | apps/build-worker/src/accessforge_build_worker/artifacts.py:198-216 | The rows a read locks, and when it is refused. |
| ArchiveLifecycle.Archives.MarkRetirement | apps/build-worker/src/accessforge_build_worker/artifacts.py:237-271 | The intent fences a running attempt in the same transaction. |
| ArchiveLifecycle.Archives.CompleteRetirement | apps/build-worker/src/accessforge_build_worker/artifacts.py:273-294 | A completion by another worker is kept. |
| CodexStream.Read | apps/orchestrator/src/accessforge_orchestrator/codex_agent.py:236-304 | The recogniser accepts exactly the unfenced, byte-bounded streams of the specified language: every line within the reader's limit, one thread start, one turn start, items with exactly one completed message, and one in-limits completion as the last event; and then reports that message, thread and usage. |
| CodexStream.OneReport | apps/orchestrator/src/accessforge_orchestrator/codex_agent.py:236-304 | An accepted stream determines the reported turn. |
| CodexStream.GrammarIff | apps/orchestrator/src/accessforge_orchestrator/codex_agent.py:236-304 | A stream is accepted with a turn exactly when it spells, in lines of at most 512 KiB and 2 MiB in all, a thread start, a turn start, any items, the message, any items and a completion within the token limits. |

## Left out

- SupervisionRuns.BudgetAndDeadline: bounds the number of actions; the wall-time budget, which the code computes from the last result, is the subject of `WallTimeExhausted`.
- Supervision.Supervisor.Evaluate: clock readings are real numbers, so NaN and rounding are not modelled.
- CrashRecovery.RecoveryIsExact: assumes that each entry can be written as JSON (a finite clock reading) and that a crash keeps a prefix of the unflushed bytes; other corruption of the file is not modelled.
- JournalValidator.Validate: an integer too large for a float, which makes Python raise instead of refuse, is not distinguished from a refusal; JSON parsing is a parameter.
- RunnerAgreement.ProducerMeetsValidator: what the two JSON implementations must agree on is a precondition, and the control plane's rows are those the runner saw acknowledged. Its clean stop is any state that `finish` would accept up to its reading of the journal.
- Runner.CheckTail: the constructor's comparison of lease and reference, the focus observation and the content of observations are reduced to checks that pass or throw.
- SessionLog.OncePerAction: that the control plane never hands out an action identity twice is a precondition.
- SessionLog.FinishIsExact: deadlines and the shape of replies are reduced to a reply that is exact and in time, or lost.
- DesktopClaimRuns.OneHolder: assumes nonces do not repeat and that nobody outside the protocol touches the marker; the operator's reconciliation of a stale marker is not part of this model.
- DesktopClaim.ExclusiveRunner.StartupGuard: the clock comparisons before the claim check are one boolean, and the one after it is not modelled: a guard that only this last one refuses counts as passed.
- ActionBridgeRuns.FinishAfterReplies: framing, token and schema checks of a request are one boolean; socket identities and directories are another; the limit on open sockets is the outcome of a connection.
- GitFlatten.RecoversFlattening: addresses are taken to be collision-free.
- GitHonest.HonestRecoveryIff: an honest process has every object it is asked for; its answer about a missing object is not modelled.
- GitWalk.RecoveryBudgets: the one chunk that is read and refused for overflowing the bound counts as not kept; deadlines and cancellation are events of a process.
- SnapshotArchive.ArchiveRoundTrip: the tar byte format is a parameter; that it restores the members it was given is a precondition.
- SourcePaths.CheckPath: lone surrogates are not modelled; normalisation and folding are tables with stated laws.
- Candidate.ReviewedEqualsBuilt: patch policy, approval and digests of the patch are booleans shared by both functions; the unified diff text and the order of the changed paths are not modelled.
- Process.RunBounded: states the drain loop over whatever the selector reports; process groups and signals are not modelled.
- Bundle.Demultiplex: one table query is one list; the artifacts built from other tables are the `bundle` parameter of `Completion`.
- CompletionRuns.OneEvaluation: `evaluations.read` returns the stored snapshot; its integrity checks, the outbox and the run identities written beside it are not modelled.
- CompletionResume.EvaluationComplete: the store reads of the terminal transaction are one step.
- CompletionSettled.QuietRunsSettled: "one journal" means that every call brings the same bytes; `FirstJournalWins` says what happens otherwise, and a withdrawn, closed, purged or tampered run is outside this lemma, as the code refuses it.
- CompletionClass.ExecutionArtifacts.RetainBundle: `assess_completeness` and the verdict are one parameter, a function of context, bundle and artifact identities.
- ArchiveRuns.RetirementResumes: expiry, ownership, receipts and store location are booleans of the step; the legacy storage protocol is not part of this model.
- ArchiveRuns.TombstoneForever: excludes outside corruption of the store, which `ReadsMatch` allows.
- CodexStream.Read: how bytes arrive in pieces is not modelled; cancellation while a line is partly read is the same as before it; starting and killing the process is not modelled.
- One-shot reception of a dispatch (`receive`, `reserve`, `parseReference`): branch-by-branch validation with a create-only claim file like the one in `DesktopClaim`.
- `candidate-proof.ts`, `candidate-trace.ts`, `baseline_artifacts.py`, `baseline_coordinator.py` and the regression coordinators: variants of the protocols above.
- The API, the web interface, migrations, telemetry, probes and scripts: they would add only easy members.

# Samaktha verification

A Dafny model of the parts of Samaktha that carry its guarantees, and proofs of those
guarantees. `dafny verify dfyconfig.toml` checks everything.

| part | files | what is modelled |
|---|---|---|
| Execution lifecycle and crash recovery | `Retention`, `Lifecycle`, `LifecycleSafety`, `LifecycleRuns`, `LifecyclePerfect`, `LifecycleWitnesses`, `LifecycleRestore`, `LifecycleStuck`, `LifecycleDeadEnds`, `LifecycleOutcomes`, `Coordinator` | the coordinator as a state machine with one action per stretch of code between two `await` points, a durable store of the last checkpoint per execution, process death inside any action and restart; and the coordinator as a class whose methods are proved to be those actions |
| Evidence store | `Evidence`, `EvidenceRuns`, `EvidenceCleanup`, `EvidenceMeaning`, `EvidenceStore` | the two tables, transactions of any number of connections with the SQLite write reservation, commit and rollback; cleanup against appends; and the store as a class |
| Settings document | `Toml`, `TomlDocument`, `TomlText`, `TomlWriter`, `Merge`, `Settings`, `SettingsFile` | the TOML printer, a reader written from the String, Keys, Integer, Boolean, Array and Table sections of TOML v1.0.0, the deep merge, the refusal of secrets, load and save; saving as system calls that fail, with processes that die and power that goes out |
| Governance logs | `Ordering`, `Strings`, `HashChain`, `GovernanceLogs` | hash-chained records and audit entries, in memory and reloaded from a table |
| Governance decisions | `Governance`, `GovernanceRequests`, `GovernanceEngine` | first-match rules, risk, approval, permits, what requesting more can change, rollback, and the counters and audit trail of the engine |
| Capability contracts | `Contracts`, `ContractRegistry` | structural comparison, bump discipline, the sorted version registry |
| Signing key | `SigningKey` | racing calls that create or load the key file |
| Fetcher | `Fetcher` | the redirect loop with address pinning and header stripping |
| Retrieval ranking, rate limiting | `Ranking`, `RateLimit` | rank and dedupe; the fixed-window limiter over real time |

## What the lifecycle theorems assume

- Execution ids are new, and `recover_pending` is called once per process: `Lifecycle.Proper`.
  `SecondRecoverReplays` is a run that breaks the second promise and replays an execution.
- Any save may fail without notice; `ReplayOnlyFromSafeCheckpoints`, `DecisionAppliedOnce` and
  `ReachableStates` hold regardless. `PerfectStore` adds that saves succeed, and
  `LostSaveReplays` is a run in which a single lost save replays an execution.
- Process death inside an action (`DieDuring`) leaves any subset of that action's saves in the
  store. A restart may find any subset of the checkpoints readable.
- The evidence sink does not raise inside a transition.

## Findings

Each of these is a property that one might expect and that the code does not have, with a lemma
that gives an input or a run, and beside it the exact condition.

- An execution can wait for an approval that no decision can meet any more. Three runs lead
  there from the start of a process: a refusal whose resume raises (`RefusalRaises`; the status
  machine has no move from AWAITING_APPROVAL to FAILED, `RaisedResumeEnds`), a refusal recorded
  before the process dies (`RefusalOutlivesProcess`), and a second pause on the task already
  approved (`SecondPauseOnTheSameTask`). A waiting execution accepts a decision if and only if
  its pending approval is unresolved (`AcceptsExactly`); once it is resolved and no resume task
  is left, only a cancellation or a timeout ever changes the status (`StuckForGood`,
  `StuckInProcess`).
- Retention cleanup selects outside its transaction, so an execution that has ended
  again in between, at or after the cutoff, is removed although it is not due
  (`CleanupCanBeStale`). Only that, or a removal followed by a new beginning, makes a selection
  stale; an event that is not final does not (`DueAtDeletionExactly`, `CleanupIsSoundExactly`).
- A control character other than newline and tab in a key or string is printed as it is, and
  the saved settings file can then no longer be read (`RoundTrip` is exact;
  `EscapedReturnIsLost` starts from a file that loads).
- Secrets are refused exactly where tables alone lead to them (`LoadRefusesExactly`). A password
  in a list of tables loads, and what was loaded then cannot be saved (`ListHidesSecret`): saving
  is possible exactly without tables in lists and without dates (`SavableExactly`).
- The temporary settings file is one for each process, so two saves of one process can leave the
  settings file empty; saves of different processes cannot (`WholeExactly`).
- The exemption of names ending in `credential_id` from the secret check never decides anything
  (`ExemptionIsIdle`).
- The stored `previous_hash` takes no part in verification (`StoredPreviousIsNotChecked`), and a
  chain whose clock went back does not verify after a restart (`AuditReload`, `RecordsReload`).
- Compatibility of contracts is not transitive (`TransitivityCanFail`, `TransitiveExactly`), and
  an additive change under a major bump that resets the minor number is refused although the
  documentation asks for "at least a minor bump" (`AdditiveUnderMajorIsRefused`).
- With a policy, requesting more permissions can turn ASK_USER into ALLOW in three ways: a scoped
  risk rule for the extra permission, an approval rule that exempts what is risky enough, or a
  default risk above what writing counts as (`ScopedRiskRuleHelps`, `ExemptingRuleHelps`,
  `HighDefaultHelps`). `HelpsExactly` says for which requests, `NeverHelpsExactly` for which
  policies, and `RequestingMoreNeverHelps` gives conditions that can be read off a policy and
  covers the absence of one.
- The text at the head of app/governance/rollback.py lets only high and critical risk roll back
  by default; the code rolls back after a failure at any risk. `RollsBack` follows the code.

## Model

| member | source | states |
|---|---|---|
| Retention.PruneSound | app/core/execution_coordinator.py:90-106 | pruning keeps every unfinished entry and the preserved one, leaves exactly the limit of finished ones, and drops only entries older than every finished entry it keeps |
| LifecycleSafety.RunInv | app/core/execution_coordinator.py:62-901 | every action, death and restart keeps the invariant: generations never run ahead of memory, waiting records are complete, tasks fit their records, tables are bounded |
| LifecycleSafety.StepInv | app/core/execution_coordinator.py:813-876 | the same for one step |
| LifecycleSafety.RebootInv | app/core/execution_coordinator.py:108-195 | a restart from any readable subset of the store re-establishes the invariant |
| LifecycleRuns.ReachableStates | app/core/execution_coordinator.py:341-353 | in every reachable state finished records are within the retention limit, unfinished ones within the larger of the restored number and the capacity, and every AWAITING_APPROVAL has approval id, task id and pipeline, in memory and in the store |
| LifecycleRuns.ReplayOnlyFromSafeCheckpoints | app/core/execution_coordinator.py:373-380 | over every run, with any saves failing, two initial pipeline calls of one execution have a new safe checkpoint between them once the store had caught up with the first |
| LifecycleRuns.UnsafeWorkIsNeverRerun | app/core/execution_coordinator.py:168-195 | interrupted work whose last durable checkpoint is unsafe is failed by the restart and never given to the pipeline again, whatever happens later |
| LifecycleRuns.DecisionAppliedOnce | app/core/execution_coordinator.py:506-562 | one decision reaches `resume_pipeline` at most once, under any interleaving, unless it was never durably recorded and the process died in between |
| LifecyclePerfect.PerfectStore | app/core/execution_coordinator.py:853-876 | when saves succeed, calls of one execution are always separated by a safe checkpoint and no decision is applied twice, across restarts |
| LifecycleWitnesses.LostSaveReplays | app/core/execution_coordinator.py:871-874 | one silently failed save is enough to replay an execution without a safe checkpoint in between |
| LifecycleWitnesses.SecondRecoverReplays | app/core/execution_coordinator.py:197-206 | a second `recover_pending` in one process runs a recovering execution twice |
| LifecycleRestore.RestartNeverRaises | app/core/execution_coordinator.py:168-195 | over every run, no stored checkpoint makes the restore raise, and no record is APPROVED between two actions, the one status from which a safe restore has no legal move |
| LifecycleStuck.AcceptsExactly | app/core/execution_coordinator.py:506-534 | in every reachable state a listed execution awaiting approval accepts a decision if and only if its pending approval is not resolved |
| LifecycleStuck.RaisedResumeEnds | app/core/execution_coordinator.py:616-620 | a resume that raises ends its execution if and only if it is no longer AWAITING_APPROVAL or PAUSED |
| LifecycleStuck.StuckForGood | app/core/execution_coordinator.py:506-620 | from any reachable state in which the pending approval is resolved, in memory and in the store, and no resume task is left: over every later run without a cancellation or timeout of it, restarts included, the execution stays AWAITING_APPROVAL and accepts no decision |
| LifecycleStuck.StuckInProcess | app/core/execution_coordinator.py:506-620 | the same for as long as the process lives, whatever the store holds |
| LifecycleDeadEnds.RefusalRaises | app/core/execution_coordinator.py:604-620 | a run into that state: a refusal whose resume raises |
| LifecycleDeadEnds.RefusalOutlivesProcess | app/core/execution_coordinator.py:197-206 | a run into it: a refusal recorded, and the process dead before its resume ends |
| LifecycleDeadEnds.SecondPauseOnTheSameTask | app/core/execution_coordinator.py:449-458 | a run into it: an approved execution that pauses again on the same task |
| LifecycleOutcomes.MovesInto | app/core/contracts/state.py:24-83 | the status machine by where a move leads: for each status exactly the statuses it can be entered from, and which are final |
| LifecycleOutcomes.Prunes | app/core/execution_coordinator.py:90-106 | pruning leaves as many finished executions as there were but no more than are to be retained, at least one, drops no unfinished one and not the one to keep, and changes nothing but the list |
| LifecycleOutcomes.Starts | app/core/execution_coordinator.py:341-368 | refused, with nothing changed, exactly for a listed id or when as many unfinished executions are listed as may be active and pending; otherwise listed last, PLANNING, with a task, and safe to replay in the store when the saves are accepted |
| LifecycleOutcomes.Enters | app/core/execution_coordinator.py:373-380 | an execution that gets its slot is RUNNING, the store knows it is unsafe to replay, and a recovered pipeline with a workflow or plan is resumed instead of run; a cancelled one does not run |
| LifecycleOutcomes.EntersNothingFinished | app/core/execution_coordinator.py:376-377 | a task that finds its execution finished ends without a call |
| LifecycleOutcomes.Schedules | app/core/execution_coordinator.py:370-380 | a task that has not begun waits for its slot or, for a resume, calls the pipeline with its approval, unless it was cancelled, which ends it |
| LifecycleOutcomes.InitialSettles | app/core/execution_coordinator.py:449-485 | the pipeline of a running execution returns: paused leads to AWAITING_APPROVAL of that task, completed to COMPLETED, cancelled to CANCELLED, anything else or no result to FAILED, with nothing pending, and the store shows the same when the save is accepted |
| LifecycleOutcomes.ResumeSettles | app/core/execution_coordinator.py:580-603 | the same for the resume after an approval |
| LifecycleOutcomes.RefusalSettles | app/core/execution_coordinator.py:580-600 | the resume after a refusal ends the execution as DENIED whatever the pipeline returned, with nothing pending |
| LifecycleOutcomes.InitialEnds | app/core/execution_coordinator.py:381-398 | a cancelled, timed out or failed run ends in that status, one that had ended keeps its own, and the store shows it when the save is accepted |
| LifecycleOutcomes.QueuedEnds | app/core/execution_coordinator.py:381-386 | a task cancelled while it waits for its slot cancels the execution |
| LifecycleOutcomes.ResumeEnds | app/core/execution_coordinator.py:604-620 | the same for a resume, whose only save is that of the move |
| LifecycleOutcomes.Submits | app/core/execution_coordinator.py:506-560 | accepted exactly when the execution is listed, waits for this unresolved approval, the decision is known and task and pipeline are there; then the approval is resolved, in the store too, a task carries the decision, and an allowed execution runs while a refused one goes on waiting; otherwise nothing changes |
| LifecycleOutcomes.AsksCancel | app/core/execution_coordinator.py:667-681 | sets the flag and cancels the live task of an unfinished listed execution, and does nothing else |
| LifecycleOutcomes.EndsCancel | app/core/execution_coordinator.py:682-689 | after the wait the execution is CANCELLED unless it ended otherwise, and waits for nothing |
| LifecycleOutcomes.AsksTimeout | app/core/execution_coordinator.py:636-650 | an unfinished listed execution is TIMED_OUT at once, and its live task is cancelled |
| LifecycleOutcomes.EndsTimeout | app/core/execution_coordinator.py:651-654 | after the wait it waits for nothing |
| LifecycleOutcomes.NotAskedFor | app/core/execution_coordinator.py:636-689 | nothing is finished off that was not asked for |
| LifecycleOutcomes.Reports | app/core/execution_coordinator.py:878-901 | a runtime checkpoint changes nothing but the pipeline, the generation and the store |
| LifecycleOutcomes.Restarts | app/core/execution_coordinator.py:108-195 | a restart gives every readable checkpoint its record back field by field, but that work in flight is RECOVERING when safe and FAILED when not |
| LifecycleOutcomes.ReplayableExactly | app/core/execution_coordinator.py:165-195 | a restart offers an execution for replay if and only if its checkpoint is of work in flight and marked safe |
| LifecycleOutcomes.SavedComesBack | app/core/execution_coordinator.py:108-195 | a record that the store holds as it is comes back after death and restart |
| LifecycleOutcomes.Recovers | app/core/execution_coordinator.py:197-206 | every listed RECOVERING execution gets a new task, and nothing else changes |
| Coordinator.MergeTwice | app/core/execution_coordinator.py:844-851 | pruning in the middle of an action leaves what pruning at its end would |
| Coordinator.ExecutionCoordinator.PruneTerminalRecords | app/core/execution_coordinator.py:90-106 | the pop loop leaves exactly the pruned history of `Retention.PruneSound` |
| Coordinator.ExecutionCoordinator.SaveCheckpoint | app/core/execution_coordinator.py:853-876 | the generation advances whatever happens; the store changes only when the save is accepted |
| Coordinator.ExecutionCoordinator.Transition | app/core/execution_coordinator.py:813-851 | an illegal move raises and changes nothing; a legal one saves, safe only for PLANNING, and prunes when it ends the execution |
| Coordinator.ExecutionCoordinator.SettlePipeline | app/core/execution_coordinator.py:449-485 | settling is the state machine's settle, including the raising transition; a running execution ends AWAITING_APPROVAL, COMPLETED, CANCELLED or FAILED by the outcome, in the store too when the last save is accepted |
| Coordinator.ExecutionCoordinator.HandleFailure | app/core/execution_coordinator.py:382-398 | the exception handlers, with and without the final save |
| Coordinator.ExecutionCoordinator.constructor | app/core/execution_coordinator.py:65-195 | building a coordinator over the store is the restart step; the one kind of checkpoint on which the source would raise is never stored (`RestartNeverRaises`) |
| Coordinator.ExecutionCoordinator.StartExecution | app/core/execution_coordinator.py:341-368 | accepted exactly when the id is not listed and capacity is left; then the start step |
| Coordinator.ExecutionCoordinator.RecoverPending | app/core/execution_coordinator.py:197-206 | one new task for every listed record still RECOVERING |
| Coordinator.ExecutionCoordinator.RunInitial | app/core/execution_coordinator.py:373-380 | the step from the granted slot to the pipeline call, with what the store holds at that moment |
| Coordinator.ExecutionCoordinator.InitialReturns | app/core/execution_coordinator.py:444-447 | the step that settles a returned pipeline, as `InitialSettles` says |
| Coordinator.ExecutionCoordinator.InitialRaises | app/core/execution_coordinator.py:381-398 | the step of a cancelled, timed out or failed initial run |
| Coordinator.ExecutionCoordinator.SubmitApproval | app/core/execution_coordinator.py:506-560 | accepted exactly when the execution waits for this approval, it is unresolved, the decision is known and the pipeline is held; then the submit step |
| Coordinator.ExecutionCoordinator.RunResume | app/core/execution_coordinator.py:564-579 | the step to the resumed pipeline call |
| Coordinator.ExecutionCoordinator.ResumeReturns | app/core/execution_coordinator.py:580-603 | the step that applies a returned resume, as `ResumeSettles` and `RefusalSettles` say |
| Coordinator.ExecutionCoordinator.ResumeRaises | app/core/execution_coordinator.py:604-620 | the step of a cancelled or failed resume, which saves nothing afterwards |
| Coordinator.ExecutionCoordinator.CancelExecution | app/core/execution_coordinator.py:667-681 | refused exactly for an unlisted id; a finished execution stays as it is; otherwise the step up to the wait for the cancelled task |
| Coordinator.ExecutionCoordinator.FinishCancel | app/core/execution_coordinator.py:682-689 | the step after the wait, also when a decision has put a new task in place of the one waited for |
| Coordinator.ExecutionCoordinator.TimeoutExecution | app/core/execution_coordinator.py:636-650 | the same for a timeout, which also raises where the status machine has no such move |
| Coordinator.ExecutionCoordinator.FinishTimeout | app/core/execution_coordinator.py:651-654 | the step after the wait |
| Coordinator.ExecutionCoordinator.RuntimeCheckpoint | app/core/execution_coordinator.py:878-901 | a running pipeline's checkpoint, safe or not |
| Evidence.MaxIsCount | app/evidence/store.py:221-290 | with numbering 1..n the next number from the maximum is n + 1 |
| Evidence.SummarizeAppend | app/evidence/store.py:370-416 | one upsert of the summary row is one more event in the fold over the log, the insert branch starting every counter at zero; `AppendExactly` says what that changes |
| Evidence.InsertKeeps | app/evidence/store.py:208-290 | an accepted append takes the next number of its execution, leaves all others alone and keeps summaries equal to their logs |
| Evidence.InsertAllKeeps | app/evidence/store.py:292-368 | the same for a batch |
| Evidence.PurgeKeeps | app/evidence/store.py:593-634 | cleanup removes log and summary of an execution together and touches no other |
| EvidenceRuns.Serializable | app/evidence/store.py:174-202 | for every interleaving the committed tables are those of the committed transactions run alone in commit order; every execution is numbered 1..n; every summary is the fold of its log |
| EvidenceRuns.AllOrNothing | app/evidence/store.py:292-368 | a step changes the committed tables only by committing a whole batch in order or one purge of whole executions |
| EvidenceRuns.TakingTurns | app/evidence/store.py:292-368 | while one connection holds the write reservation no step of another touches its transaction or the tables; a free reservation goes to whoever begins; a rollback gives it back and leaves the tables; a cleanup deletes only after a selection of its own |
| EvidenceRuns.CleanupCanBeStale | app/evidence/store.py:593-634 | a purge can remove an execution that was no longer due when it committed |
| EvidenceCleanup.DueAtDeletionExactly | app/evidence/store.py:593-634 | over every run, a cleanup deletes what it selected, and a selected execution is still due when the deletion commits if and only if the last final event or removal committed for it since the selection, if any, is a final event from before the cutoff |
| EvidenceCleanup.CleanupIsSoundExactly | app/evidence/store.py:593-634 | so everything a cleanup removes is due if and only if none of it has ended again at or after the cutoff, or been removed and begun again, in the meantime |
| EvidenceCleanup.NumberReadEarlier | app/evidence/store.py:221-290 | an append whose number was read before the write reservation is refused if and only if its execution has grown to that number since, and otherwise keeps the numbering gapless if and only if its execution has neither grown nor shrunk |
| EvidenceCleanup.DeferredAppendersCollide | app/evidence/store.py:221-290 | without the reservation, two appenders that read before either writes take the same number, and the second is refused |
| EvidenceMeaning.AppendExactly | app/evidence/store.py:370-416 | one accepted append in full: which fields the first event sets; that exactly the five closing words set end, status and failure; and which kinds raise which counter |
| EvidenceMeaning.SummaryOfLog | app/evidence/store.py:370-416 | every summary is about its log: first and last time, the last event with a closing word, and how many events after the first are of each counted kind |
| EvidenceMeaning.CleanedExactly | app/evidence/store.py:593-634 | cleanup removes an execution if and only if its last event with a closing word is from before the cutoff, and leaves the logs of all others |
| EvidenceStoreClass.EvidenceStore.Append | app/evidence/store.py:208-290 | refused exactly for a known evidence id, with nothing changed; otherwise stored as number n + 1 |
| EvidenceStoreClass.EvidenceStore.AppendMany | app/evidence/store.py:292-368 | the whole batch, returned in order with the numbers it was stored under, or nothing |
| EvidenceStoreClass.EvidenceStore.CleanupRetention | app/evidence/store.py:593-634 | exactly the executions of `CleanedExactly` disappear, and the counts returned are theirs |
| Toml.EscapeIsCharwise | app/config/store.py:197-199 | the three replacements, one after the other, escape each character once |
| Toml.CleanExactly | app/config/store.py:197-199 | clean text has no control character but newline and tab |
| Toml.ReadQuoted | app/config/store.py:197-199 | a quoted string reads back as itself, or is refused exactly when it has a control character that is not escaped |
| Toml.ReadPrinted | app/config/store.py:202-215 | a printed boolean, integer, string or nested list reads back as itself, whatever follows it |
| Toml.NotTaken | app/config/store.py:90-90 | what the reader refuses as TOML does: numbers with a leading zero, words other than the two, items without a comma between them |
| TomlDocument.KeysExactly | app/config/store.py:193-194 | a key is printed as it is if and only if it is not empty and has only ASCII letters, digits, underscores and dashes; otherwise it is quoted |
| TomlDocument.ReadPrintedKey | app/config/store.py:193-194 | bare and quoted keys read back |
| TomlDocument.NotRead | app/config/store.py:90-90 | an assignment without its equals sign or with something after the value, and a key or table that is there already, are not read |
| TomlDocument.ReadBody | app/config/store.py:175-187 | the lines of a table, scalars first and child tables after, read into an empty table give its meaning |
| TomlText.PrintLines | app/config/store.py:190-190 | joining, stripping and splitting give back the lines: no line holds a newline and stripping removes nothing |
| TomlText.RoundTrip | app/config/store.py:172-215 | reading the printed text gives the document, for every nested document of values that have a form and with clean keys and strings, empty tables and quoted keys included; with other keys or strings the text does not read |
| TomlText.PrintedAlikeMeansAlike | app/config/store.py:172-190 | clean documents that print alike are equal dictionaries |
| TomlWriter.Writer.Emit | app/config/store.py:175-187 | `emit` raises exactly on a value without a form, and otherwise appends exactly the header and body lines to the shared list |
| TomlWriter.EncodeToml | app/config/store.py:172-215 | the running printer gives the printed text of `RoundTrip`, or raises exactly for a table in a list or a date |
| Merge.OverlayTwice | app/config/store.py:153-160 | merging the same overlay twice changes nothing |
| Merge.BaseAbsorbed | app/config/store.py:153-160 | merging over the base again changes nothing |
| Merge.CoversExactly | app/config/store.py:153-160 | a merge gives back the overlay if and only if the overlay has every key of the base in every common table |
| Merge.AssociativeExactly | app/config/store.py:153-160 | merging is associative if and only if no table lost in the middle comes back with fewer keys |
| Merge.KeepingTablesAssociates | app/config/store.py:153-160 | in particular when the middle document never replaces a table by a scalar |
| Merge.ScalarInTheMiddle | app/config/store.py:153-160 | documents for which it is not associative |
| Settings.DeepMerge | app/config/store.py:153-160 | the loop over the overlay computes the key-by-key merge |
| Settings.ExemptionIsIdle | app/config/store.py:166-166 | the `credential_id` exemption never decides |
| Settings.RefusedExactly | app/config/store.py:21-21 | a key is refused if and only if it ends with one of seven words, in any letter case and up to one final newline |
| Settings.RejectSecretFields | app/config/store.py:163-169 | passes exactly documents in which no secret name is reached through tables alone, and otherwise names an offending key with the tables above it |
| Settings.SecretFreeEverywhere | app/config/store.py:163-169 | free of secrets means no table at any path of tables has a refused key |
| Settings.SettingsStore.Load | app/config/store.py:85-96 | the dictionary read from the file over the defaults, or the error for text the reader refuses or a secret field |
| Settings.SettingsStore.Save | app/config/store.py:98-115 | secrets, values without a form and failed calls leave the file as it was; otherwise it holds the printed document; the temporary file is gone unless its removal fails, and then holds what was written |
| Settings.SavedLoads | app/config/store.py:85-115 | with any reader that reads printed text as TOML says, what was saved loads as itself over the defaults, or not at all if it is not clean |
| Settings.LoadSaveLoad | app/config/store.py:85-115 | whatever file was loaded, saving what was loaded, in any key order, loads as the same settings, or not at all if they are not clean |
| Settings.LoadRefusesExactly | app/config/store.py:85-96 | a file is refused for a secret if and only if tables alone lead to a secret name in it |
| Settings.LoadsNoSecretOutsideLists | app/config/store.py:85-96 | loaded settings have no secret name that tables alone lead to, and one inside a list exactly when the file does |
| Settings.MentionsExactly | app/config/store.py:163-169 | what it is to mention a secret: a refused key in a table, or in a table inside a table or a list |
| Settings.ListHidesSecret | app/config/store.py:163-169 | a list of tables with a password loads with the password in it, and cannot be saved |
| Settings.DateIsNotPrinted | app/config/store.py:202-215 | a date has no printed form either |
| Settings.SavableExactly | app/config/store.py:202-215 | what was loaded passes the secret check, and has a printed form if and only if the file holds no date and no table in a list |
| Settings.EscapedReturnIsLost | app/config/store.py:197-199 | a file that loads, and whose contents once saved do not |
| SettingsFile.WholeExactly | app/config/store.py:98-115 | for any saves, failures, process deaths and power losses in any order: the settings file always holds the old text or that of one save in full, if and only if no process runs two of the saves |
| SettingsFile.OneSave | app/config/store.py:98-115 | for one save, the file holds the new text when the save has ended well and the old text until then |
| SettingsFile.MishapsExactly | app/config/store.py:98-115 | what failing calls, dying processes and power losses do to the temporary file and to the saves, the settings file apart |
| HashChain.VerifyChain | app/governance/records.py:76-84 | the loop accepts exactly the chains whose every hash covers its fields and the hash before |
| HashChain.SameEnd | app/governance/models.py:162-213 | two verifying chains with the same last hash have the same length and agree on every hashed field |
| HashChain.AppendVerifies | app/governance/records.py:47-65 | appending neither breaks nor mends a chain |
| HashChain.RewritingIsDetected | app/governance/audit.py:84-92 | entries changed, added or removed under the same last hash never verify |
| HashChain.PrefixVerifies | app/governance/audit.py:84-92 | cutting off the newest entries goes unseen |
| HashChain.StoredPreviousIsNotChecked | app/governance/records.py:76-91 | changing a stored `previous_hash` never changes the verdict |
| HashChain.OneOrderVerifies | app/governance/records.py:76-84 | the same entries verify in one order only |
| HashChain.ReloadExactly | app/governance/records.py:32-41 | a sorted reload of a verifying chain verifies, and is the chain, if and only if the chain was in sorted order |
| Strings.LessExactly | app/governance/records.py:32-41 | texts compare by their first different character, and a text comes before its continuations |
| GovernanceLogs.ReloadSorts | app/governance/records.py:32-41 | rows in id order, stably sorted by time, are in order of time and id, and all there |
| GovernanceLogs.RecordsReload | app/governance/records.py:32-41 | a restart restores the record chain, and it verifies, if and only if records were appended in order of time and id |
| GovernanceLogs.IncreasingTimes | app/governance/records.py:32-41 | strictly increasing times are enough |
| GovernanceLogs.AuditReload | app/governance/audit.py:26-33 | a restart restores the audit trail, and it verifies, if and only if the clock never went back |
| GovernanceLogs.ExecutionRecordStore.constructor | app/governance/records.py:26-41 | memory holds the reloaded rows and knows their ids |
| GovernanceLogs.ExecutionRecordStore.Append | app/governance/records.py:47-65 | refused exactly for an id in memory or in the table; in the latter case memory has already changed |
| GovernanceLogs.GovernanceAuditLog.constructor | app/governance/audit.py:20-33 | memory holds the sorted rows, and the next number is one above the highest; a whole trail with a steady clock is restored as it was |
| GovernanceLogs.GovernanceAuditLog.Record | app/governance/audit.py:35-60 | one sealed entry with the next number, in memory and in the table; the verdict on the chain does not change |
| GovernanceLogs.PutRowExactly | app/governance/audit.py:58-59 | the table's row with the entry's number gives way to it; without one the entry comes last |
| Governance.ApprovalPrecedence | app/governance/approval.py:22-52 | the first matching approval rule decides, then the target's rule, then high risk or the default |
| Governance.RiskPrecedence | app/governance/risk.py:24-55 | the first matching risk rule decides, then the permissions by severity, then the default |
| Governance.RuleExactly | app/governance/models.py:120-130 | a target's own rule is the first for it among the rules of its type; an action has none |
| Governance.ApprovalMatchExactly | app/governance/approval.py:76-91 | an approval rule is for its target or "*", its type or any, and from its threshold upward or at any risk |
| Governance.RiskMatchExactly | app/governance/risk.py:38-43 | a risk rule is for its target or "*", its type or any, and any permissions or those that share one with its scopes |
| Governance.DecisionExactly | app/governance/engine.py:124-171 | DENY if and only if some declared or requested permission is not granted, by the rule or by the declaration, or a given permit is not intact, expired, no ALLOW or for another subject; ALLOW if and only if neither, and approval is not needed or a permit is given |
| Governance.PermitOnlyApproves | app/governance/engine.py:156-171 | with a permit the engine never asks, and allows if and only if the permit is intact, not expired, an ALLOW and for this subject, and the decision without it is not DENY |
| GovernanceRequests.HelpsExactly | app/governance/engine.py:124-171 | requesting more moves a decision toward ALLOW if and only if there is no permit, the rule grants everything involved, and the risks given by the first matching risk rules or the scopes before and after are such that the approval rules ask for the first and not for the second |
| GovernanceRequests.NeverHelpsExactly | app/governance/engine.py:124-155 | for a policy and target no request is ever helped if and only if, among the permissions its rule grants, the need for approval only grows |
| GovernanceRequests.RequestingMoreNeverHelps | app/governance/engine.py:124-155 | without a policy or rule, without approval rules that look at the risk, or with ones that only tighten over risks that only grow, requesting more never moves the decision toward ALLOW |
| GovernanceRequests.ScopedRiskRuleHelps | app/governance/risk.py:38-45 | a policy with which it can: a scoped risk rule comes first |
| GovernanceRequests.ExemptingRuleHelps | app/governance/approval.py:32-42 | another: an approval rule exempts high risk |
| GovernanceRequests.HighDefaultHelps | app/governance/risk.py:46-55 | another: the default risk is higher than that of writing |
| GovernanceEngineClass.Metrics.RecordEvaluation | app/governance/metrics.py:40-49 | exactly one decision counter moves with the evaluations |
| GovernanceEngineClass.GovernanceEngine.constructor | app/governance/engine.py:50-71 | the default engine starts balanced, with empty logs |
| GovernanceEngineClass.GovernanceEngine.Decide | app/governance/engine.py:105-207 | the decision of `DecisionExactly` and of `PermitOnlyApproves`, one audit entry with target, subject and result, balance kept |
| GovernanceEngineClass.GovernanceEngine.Enforce | app/governance/engine.py:213-244 | passes exactly on ALLOW, with a permit exactly when it stands and the decision without it is not DENY; one audit entry, one block otherwise, balance kept |
| GovernanceEngineClass.GovernanceEngine.EnforceCapability | app/governance/engine.py:246-300 | passes exactly on ALLOW with the rule's permissions declared, with the error that says which of the two failed; one block otherwise, balance kept |
| GovernanceEngineClass.GovernanceEngine.RecordExecution | app/governance/engine.py:338-379 | one record and one audit entry with target, subject and status or, exactly for a known id, an error and neither |
| GovernanceEngineClass.GovernanceEngine.Violate | app/governance/engine.py:381-398 | one violation, one audit entry with target and "blocked" |
| GovernanceEngineClass.GovernanceEngine.BlockedPayload | app/governance/violations.py:44-68 | one audit entry: audit length stays evaluations + records + violations + payloads, evaluations stay allow + ask + deny, blocks never exceed evaluations |
| GovernanceEngineClass.RollbackMatchExactly | app/governance/rollback.py:34-62 | a rollback rule is for its target or "*", its type or any, and for denials, failures or, with any other word, both |
| GovernanceEngineClass.RollsBack | app/governance/rollback.py:22-60 | the first rollback rule that matches target and outcome decides; without one, rolled back exactly when supported and failed, or denied at high or critical risk |
| GovernanceEngineClass.GovernanceEngine.ShouldRollback | app/governance/engine.py:400-421 | that decision, counted when it is to roll back; no other counter and no log moves |
| Contracts.DifferenceSorted | app/capabilities/compat.py:31-47 | the names reported are the set difference, ascending, each once |
| Contracts.SurfaceDeltas | app/capabilities/compat.py:24-48 | removals first and breaking, additions after and not |
| Contracts.CompareContracts | app/capabilities/compat.py:51-158 | defined exactly for contracts of one contribution; all changes in order |
| Contracts.CompatibleExactly | app/capabilities/compat.py:51-158 | compatible if and only if all five surfaces are kept, every required parameter was known, the version does not go down, and an equal version has an equal surface |
| Contracts.CompatibleInFull | app/capabilities/compat.py:51-158 | the same without any notion of the model: five inclusions of surfaces, required parameters known, and a version higher by major, minor or patch number, or equal with nothing added |
| Contracts.ReportedExactly | app/capabilities/compat.py:51-115 | which changes are reported: what is gone, breaking; what is new, not; and the parameters newly demanded |
| Contracts.VersionReported | app/capabilities/compat.py:117-152 | a downgrade, an unchanged version with a changed surface and a new major number are reported exactly when the numbers say so |
| Contracts.CompatibleReflexive | app/capabilities/compat.py:51-158 | a contract is always compatible with itself |
| Contracts.TransitiveExactly | app/capabilities/compat.py:106-115 | two compatible steps make a compatible upgrade if and only if no parameter introduced by the first is required by the second |
| Contracts.TransitivityCanFail | app/capabilities/compat.py:106-115 | three contracts for which it fails |
| Contracts.BumpExactly | app/capabilities/versioning.py:16-36 | which bump is recommended, in terms of compatibility and surface |
| Contracts.RespectsBumpExactly | app/capabilities/versioning.py:39-65 | which version steps are accepted |
| Contracts.BumpIsSound | app/capabilities/versioning.py:39-65 | an accepted change of surface has a version higher by major, minor or patch number in this order, a breaking one a higher major number (section 8 of Semantic Versioning 2.0.0) |
| Contracts.PatchAlwaysAccepted | app/capabilities/versioning.py:53-58 | the patch branch never rejects |
| Contracts.AdditiveUnderMajorIsRefused | app/capabilities/versioning.py:51-52 | an additive change refused under a major bump |
| ContractRegistry.Registry.Register | app/capabilities/registry.py:38-46 | refused exactly for a known version; otherwise the contract joins its history, which stays strictly ascending, and no other history changes |
| ContractRegistry.Registry.Get | app/capabilities/registry.py:48-62 | the newest, or one whose version is written exactly as asked, and nothing exactly when there is none |
| ContractRegistry.LatestIsGreatest | app/capabilities/registry.py:64-67 | no other registered contract of the key has a higher major number than the latest, or the same and a higher minor, or both the same and a patch number as high |
| ContractRegistry.RegisterAllExactly | app/capabilities/registry.py:25-32 | a list registers if and only if no version comes twice, and each history is the sorted list of its key |
| ContractRegistry.AnyOrderOfRegistration | app/capabilities/registry.py:38-46 | any order of registration gives the same registry, or fails alike |
| SigningKey.OneKey | app/core/app.py:541-661 | every call that returns gives the bytes of the file, at least 32; an existing key is never rewritten |
| SigningKey.WrittenOnce | app/core/app.py:568-590 | the file is created at most once and every byte of it was written once, by its creator |
| SigningKey.WrongIdentityChangesNothing | app/core/app.py:558-564 | on the canonical path under the wrong identity nothing is touched and nothing returned |
| SigningKey.ShortFileIsFinal | app/core/app.py:619-624 | a file shorter than 32 bytes is preserved and refused by every call |
| SigningKey.LoneCallReturns | app/core/app.py:541-661 | from its beginning, in every undisturbed schedule long enough, a call under the rightful identity returns the file's key, or a new one when there is no file |
| SigningKey.HardenedFirst | app/core/app.py:583-655 | over every run, a call returns a key only after it has hardened the key file itself, and a call that made the file hardened it before it read it back |
| SigningKey.FailuresExactly | app/core/app.py:558-660 | which failures end a call and which are passed over, and that a failing or dying step leaves the file as it was |
| SigningKey.RepairThenRecheck | app/core/app.py:592-660 | after a repair the file is read once more; an existing canonical key that may not be repaired is refused even when readable; any other existing key is hardened again before it is returned |
| Fetcher.Fetch | app/internet/fetcher.py:177-320 | the requests sent are those `RequestsSent` and `HeadersSent` describe, each following the reply before it after a resolution of its own and one more of each new host; at most max_redirects + 1; a page exactly when the last reply is 200; otherwise one of the listed reasons, with the URL reported for it |
| Fetcher.HeadersSent | app/internet/fetcher.py:440-450 | a caller's header is in the first request, with its value, unless it has one of seven names in any letter case that is not allowed; no other header is in any request; and none is from the first request to another host on |
| Fetcher.RequestsSent | app/internet/fetcher.py:322-394 | every request has an allowed scheme, no credentials and a host name of 1 to 253 characters; with DNS checks on it goes to the first address of a resolution of that host none of whose addresses, wrapped or not, is link-local, multicast, unspecified, reserved, a metadata address, or private or loopback if not allowed |
| Fetcher.AllowedExactly | app/internet/fetcher.py:396-438 | which addresses are allowed, with the five metadata addresses by name |
| Fetcher.RefusedExactly | app/internet/fetcher.py:322-394 | which URLs and which resolutions are refused |
| Fetcher.DefaultsStayPublic | app/internet/fetcher.py:396-438 | under the defaults no request of `Fetch` goes to a loopback, private, link-local or metadata address, wrapped ones included |
| Ranking.RankAndDedupe | app/intelligence/retrieval.py:443-474 | the loop keeps the first of each id of the sorted list |
| Ranking.RankedExactly | app/intelligence/retrieval.py:443-474 | unique ids in strictly ascending key order, one for every id of the input, and for each id its least item |
| Ranking.SourcesInOrder | app/intelligence/retrieval.py:482-500 | the eight sources in order, any other after them |
| Ranking.WithinOneSource | app/intelligence/retrieval.py:454-468 | within one source: more confidence first, then active, stale or unlisted, archived, deleted, then timestamp, turn and id |
| Ranking.AnyOrderRanksAlike | app/intelligence/retrieval.py:454-468 | when keys tell different items apart, every permutation of the input ranks alike |
| RateLimit.RateLimiter.constructor | app/api/limits.py:23-26 | the limit is at least one |
| RateLimit.RateLimiter.Allow | app/api/limits.py:28-40 | allowed exactly when the count of the current window is below the limit |
| RateLimit.AllowedExactly | app/api/limits.py:28-40 | that count is the number of calls of the key admitted in the aligned window so far |
| RateLimit.AdmissionBounds | app/api/limits.py:28-40 | with a clock that never goes back, an aligned window admits at most the limit and any 60 seconds at most twice the limit |
| RateLimit.RetryLandsInNextWindow | app/api/limits.py:36-38 | waiting the returned time lands in exactly the next window |
| RateLimit.TwiceTheLimit | app/api/limits.py:28-40 | twice the limit is reached |
| RateLimit.GoingBackForgets | app/api/limits.py:33-35 | a clock that goes back admits more than the limit in one window |

## Left out

- Lifecycle: principal ownership checks, sessions, published runtime events, results and error texts.
- Lifecycle: the capacity semaphore lets tasks through at any time here; a run of the code is one of the runs of the model.
- Lifecycle: a save either reaches the store or does not; exceptions other than `CheckpointError`, the file format, signatures and the integrity index are not modelled.
- Coordinator.ExecutionCoordinator.FinishCancel: may also run before the task it waited for has ended; the runs of the code are among these.
- Coordinator.ExecutionCoordinator.constructor: restores a safe APPROVED checkpoint where the source raises; `LifecycleRestore.RestartNeverRaises` shows that no run stores one.
- Lifecycle: operation outcomes, operation results, retry counts and task sets carried inside a checkpoint.
- Lifecycle: the scheduler's own moves (a task reaching the semaphore, a cancelled task that never ran) are actions of the state machine and not methods of the class.
- Evidence: queries, timelines, schema creation and the disabled store; the evidence payload beyond the columns the summary reads.
- Settings: floats and `None` (printed as an empty string); surrogate characters; a key that is not a string.
- Settings: the reader of `RoundTrip` covers what the printer writes and no more of TOML. `Load` takes any reader that agrees with it on printed text, so comments, dotted keys, inline tables and lists of tables are the reader's.
- Settings: the contents of the default document, setup completion and the translation into application settings.
- SettingsFile.WholeExactly: a rename is taken as atomic and, once done, as lasting through a power loss; the directory is not synced by the code.
- GovernanceLogs: SHA-256 over canonical JSON is a parameter, taken as injective and never empty where that matters; corrupt rows that the table skips are not modelled.
- Governance: reason texts, policy loading and resolution (the resolved policy is an input), permit cryptography.
- GovernanceEngineClass.GovernanceEngine.Enforce: one method stands for tools and providers; the message and the violation object are reduced to its code.
- Contracts: parsing of version strings, pre-release and build suffixes, descriptions and metadata, migration plans; details of changes are values and not sentences.
- ContractRegistry.Registry.Get: text and parsed version are two fields of a contract; that the one parses as the other is not modelled.
- SigningKey: path resolution, Windows identities and access control lists are outcomes of a step; they never touch key bytes. Deletion of the file by others is not modelled.
- Fetcher: URL parsing, address classification, joining of locations, DNS and the network are parameters, and an empty answer to a resolution is refused; body reading, extraction and the headers the client adds itself are left out.
- Ranking: the turn number is a field and not searched for in the reason text; timestamps are text.
- Routes, command line, user interface, providers, tools, parsers and adapters.

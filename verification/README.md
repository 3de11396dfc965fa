# The process manager, modelled and proved

The process manager runs BPMN processes. This project models its two hard parts in Dafny and proves
what they promise.

**External tasks.** A table of tasks (READY, LOCKED, COMPLETED, FAILED) is worked off by any number of
workers under leases. Completing a task and moving its token are separate steps, so a crash may fall between
them; an advisory lock, an `advanced_at` flag, a look at the token before and after the engine event, and a
reconciler put this right.

- `TaskTable` gives each SQL statement as a step on a table with a clock, and proves properties of every run.
- `TaskEffects` says what these statements mean without the step function: when a task can be taken, how long a lease
  lasts, what a failure and a reclaim give back.
- `TaskStore` is the store itself, a class updated in place; each method is proved to perform its step.
- `AdvanceProtocol` is the whole protocol as a transition system: completers, reconcilers, cancels, users and
  deletions interleave statement by statement, any caller may crash between two statements, and any two tasks
  may share a lock key.
- `AdvanceSafety` proves its invariant, `AdvanceOnce` that a marked task fired exactly once, `AdvanceRecovery` what
  a reconciler achieves, `AdvanceEffects` what single statements leave alone, `AdvanceCancel` what serialised cancels
  achieve, and `CancelRace` that the serialisation is needed, and exactly when a cancelled instance stays dead.
- `ProcessStore`, `CancelInstance` and `TimerService` are the instance tables, the cancel and the poll loop as
  imperative code, with results merged into variables. `TimerTypes` is the grammar of `timer:30s`.

**Decisions in the graph.** Before a definition is executed, a user task is put in front of every exclusive
gateway that branches on a variable.

- `DecisionTasks` is the rewrite with its loops, `DecisionMeaning` what it preserves, `DecisionExact` for exactly
  which definitions.
- `GatewayConditions` and `GatewayChoices` are the condition parser and the worklist search for what a user
  must be asked; `DecisionChoices` proves that rewrite and search together ask each decision at its own gateway.
- `ActiveMarker` maps a running instance back to one node of the drawn diagram.

`ProcessModel`, `Text` and `Wrappers` hold shared vocabulary.

## Assumptions

- The engine is not part of this model. An event either moves the token, adding tokens with new ids, or
  silently does nothing; an event for a token that is already gone may still add a second set of tokens.
- An edge without a condition that is the only edge of its node is followed (`FollowsPlainEdge`). Otherwise the
  choice of an edge is any function of the ordered conditions and the variables.
- An event is atomic against every other writer of the same instance. Otherwise two timers in parallel branches of
  one instance can lose updates through the engine's own load and save.
- The engine writes token rows through the store's own codecs.
- Token, instance and task ids are never reused. A task is created for a waiting token that had no task before;
  creation does not look at the state of the instance. An instance that ended does not run again.
- A user does not advance by hand a token whose task is not FAILED: that route takes no lock and checks neither
  status nor node type.
- A lock lives exactly as long as the caller that took it. One SQL statement or transaction is one step.
- In `AdvanceProtocol` completion results are empty, as the poll loop's always are
  (`app/src/timer.rs:63`). `TimerService` has results of any content, one attempt at a time; what contention, time
  and the engine do to an attempt is its `Luck`, which is arbitrary.
- Time is integer seconds and never runs backwards. Hash map iteration order is arbitrary.
- A node's id is its key in the definition's map.

## Where the code differs from its comments or from what one might expect

- `claim_token` takes any token that is not finished, not only a Ready one (`app/src/pg_process_store.rs:301-318`).
- `fail` does not look at the lease's expiry, and `complete` leaves the lease columns in place.
- `cancel_for_instance` is meant to keep workers from completing tasks of a cancelled instance. But the process row is
  written first, an advance that has already checked may still fire between, and `create` does not look at the
  instance, so a token that the cancel missed can get an open task after it. `CancelRace` gives the runs, and
  proves that this happens exactly when the cancel's first write fell between an advance's check and its event.
- That no node id ends in `__decide` is not enough for the rewrite to preserve meaning: a dangling edge that names a
  future decision task comes alive. With such clean ids, moves and journeys agree if and only if there is no such
  edge (`MovesExactly`, `JourneysExactly`), and paths correspond if and only if each stands beside a drawn edge to
  the same gate (`PathsExactly`). When node ids themselves clash, `MeaningKeptExactly` and `GuardedExactly` say
  which nodes lose their type or conditions, and when a gate can be entered without a decision.
- The versions of tokens guard swaps and claims against each other, not against saves: a snapshot that was read
  before a claim, and is saved after it, lets the same claim succeed again (`SaveRevivesExactly`).
- The marker names a drawn node unless a markable node carries a name ending in `__decide` that stands for no
  drawn node; `MarkerSoundExactly` proves this both ways.
- A condition rendered from a key and a value parses back exactly when the key is trimmed and free of `==`, and
  the value has no quote of either kind at its ends.

## Model

| member | source | states |
|---|---|---|
| `AdvanceSafety.AtMostOneEvent` | app/src/external_tasks.rs:48-116 | in every interleaving of any number of callers, with crashes between any two statements and colliding lock keys, at most one engine event per task takes effect |
| `AdvanceSafety.AdvancedMeansSettled` | app/src/external_tasks.rs:97-114 | in every reachable state a task marked advanced is COMPLETED and its instance is gone, not running, or without the token |
| `AdvanceOnce.AdvancedExactlyOnce` | app/src/external_tasks.rs:97-114 | in every reachable state a task marked advanced whose instance still runs has had its event take effect exactly once |
| `AdvanceOnce.LeftHasFired` | app/src/external_tasks.rs:66-96 | a task that is not FAILED, whose token has left its running instance, has fired exactly once, so no transition is lost |
| `AdvanceSafety.OneInsidePerTask` | app/src/external_tasks.rs:56-63 | two callers are never past the lock of the same task |
| `AdvanceSafety.CancelIsFinal` | app/src/routes/process/cancel.rs:28-43 | after a cancel has run to its end the instance does not run again on any continuation, serialised or not |
| `AdvanceSafety.StepSafe` | app/src/external_tasks.rs:50-116 | every statement of every caller, every engine event, crash and environment step keeps the invariant that the theorems rest on |
| `AdvanceSafety.EventKeepsDb` | app/src/external_tasks.rs:85-96 | an event by a caller that found the token waiting under the lock counts as the first and only one of its task, and disturbs no other task |
| `AdvanceSafety.LoadedTokensTell` | app/src/external_tasks.rs:66-77 | a token found waiting means no event has taken effect for its task; one not found waiting means nothing is owed |
| `AdvanceEffects.NothingToAdvance` | app/src/external_tasks.rs:56-63 | an attempt that finds the lock taken, the task gone or marked, or the token still there after the event, leaves everything as it is |
| `AdvanceEffects.CompletionDecides` | app/src/external_tasks.rs:37-38 | only a worker with a live lease goes on to the advance |
| `AdvanceEffects.FailedFiringComesBack` | app/src/timer.rs:61-75 | a timer whose completion was refused can be taken again exactly five seconds later |
| `AdvanceEffects.NothingToCancel` | app/src/routes/process/cancel.rs:18-26 | a cancel of an instance that is gone or was not running changes nothing |
| `AdvanceEffects.DeletionTakes` | app/src/routes/process/list.rs:143-166 | a deletion takes the instance and its tasks away, and nothing else |
| `AdvanceEffects.KilledTokens` | app/src/routes/process/cancel.rs:29-33 | a cancel ends exactly the tokens that have not ended |
| `AdvanceRecovery.ReconcilerSettles` | app/src/timer.rs:77-82 | from every reachable state, whatever run a reconciler takes to its end, with events that take effect and among steps of others that keep away from the lock, the task and its instance, a stale task whose lock is free is then marked, after one event if the transition was owed and after none otherwise |
| `AdvanceRecovery.ReconcilerFinishes` | app/src/external_tasks.rs:50-116 | from every point of such a run the reconciler can come to its end in at most ten steps of its own |
| `AdvanceCancel.RunKeepsClean` | app/src/routes/process/cancel.rs:28-43 | while cancels are serialised with advances, terminated instances hold only finished tokens and nobody is about to fire for one |
| `AdvanceCancel.CancelledIsDead` | app/src/routes/process/cancel.rs:28-38 | with serialised cancels, in every run a cancelled instance is gone or Terminated with every token terminal |
| `AdvanceCancel.NoEventAfterCancel` | app/src/external_tasks.rs:73-77 | from the first write of a serialised cancel on, no event takes effect for any of its tasks, including those completed between the two writes |
| `AdvanceCancel.CancelledStaysClosed` | app/src/pg_external_task_store.rs:124-136 | with serialised cancels, at every point of every run no task of an instance whose cancel has run to its end is READY or LOCKED |
| `CancelRace.CleanKeptExactly` | app/src/routes/process/cancel.rs:28-38 | the first write of a cancel keeps that invariant if and only if no advance stands between its check and its event on the same instance |
| `CancelRace.DeadExactly` | app/src/routes/process/cancel.rs:28-43 | after the first write of a cancel the instance stays dead on every serialised continuation if and only if no advance stood between its check and its event on it |
| `CancelRace.ClosedExactly` | app/src/routes/process/cancel.rs:28-43 | no task of the instance is READY or LOCKED on any serialised continuation that ends the cancel if and only if no advance stood between its check and its event on it at the first write |
| `CancelRace.UnserialisedCancelLeaks` | app/src/routes/process/cancel.rs:35-43 | wherever that fails, a continuation leaves a waiting token in the terminated instance |
| `CancelRace.UnserialisedCancelIsUnsafe` | app/src/routes/process/cancel.rs:18-43 | a concrete run from the empty database reaches a terminated instance with a waiting token, between the two writes of its cancel |
| `CancelRace.CancelledTaskOpens` | app/src/pg_external_task_store.rs:204-236 | a concrete run from the empty database reaches an open task of an instance whose cancel has run to its end |
| `TaskTable.RunKeepsInv` | app/src/pg_external_task_store.rs:204-321 | in every run, READY and FAILED rows carry no lease, LOCKED and COMPLETED rows a whole one, and none of the latter was taken before it was due |
| `TaskTable.RowAlongRun` | app/src/pg_external_task_store.rs:255-321 | along every run the due date never moves back, and a COMPLETED or FAILED row keeps everything but its advanced mark |
| `TaskTable.NeverEarly` | app/src/pg_external_task_store.rs:77-112 | a locked or completed task was due, and a completed timer was completed no sooner than its creation plus its duration |
| `TaskTable.CompletedNoSooner` | app/src/pg_external_task_store.rs:204-268 | from its creation, through any run, a task's completion comes no sooner than creation time plus delay |
| `TaskTable.CompletedAtMostOnce` | app/src/pg_external_task_store.rs:255-281 | in every run a task is completed at most once, and never once it is closed or deleted |
| `TaskTable.LateFailIsHarmless` | app/src/timer.rs:61-75 | a fail issued at any point after a successful completion changes nothing |
| `TaskTable.CompletionIsFinal` | app/src/pg_external_task_store.rs:139-151 | after a completion, on any run the task stays COMPLETED with the worker's output, and does not look abandoned before the grace period is over |
| `TaskTable.LeaseIsGood` | app/src/pg_external_task_store.rs:255-321 | a worker that took a task and has not given it up can complete it until its lease ends, whatever others do, unless the instance is cancelled or deleted |
| `TaskTable.RetryWaits` | app/src/pg_external_task_store.rs:292-301 | a failed task is in no batch before its retry delay is over, on any run |
| `TaskTable.RetriesConserved` | app/src/pg_external_task_store.rs:283-321 | retries left plus effective failures is constant over every run |
| `TaskTable.FailuresBounded` | app/src/pg_external_task_store.rs:292-301 | a task sees at most max(1, initial retries) effective failures |
| `TaskTable.SecondLockNeedsRelease` | app/src/pg_external_task_store.rs:77-136 | between two batches that return the same task lies an effective failure or the reclaim of its expired lease |
| `TaskTable.BatchLeavesRest` | app/src/pg_external_task_store.rs:87-100 | a batch takes its rows out of the eligible set and leaves every other row unchanged |
| `TaskTable.BatchesDrain` | app/src/pg_external_task_store.rs:87-100 | k batches leave n - k * limit of n eligible tasks, none once k * limit reaches n |
| `TaskEffects.CreatableExactly` | app/src/pg_external_task_store.rs:214-230 | creation is refused exactly for a malformed timer and for a timeout past 63 bits |
| `TaskEffects.CreatedIsDue` | app/src/pg_external_task_store.rs:204-236 | a new task carries what it was created with, and can be taken exactly from the end of its timer on, or at once |
| `TaskEffects.FiltersAdmit` | app/src/pg_external_task_store.rs:94-95 | the timer filter admits exactly the timers, a list of types exactly its members, and no filter everything |
| `TaskEffects.BatchTakes` | app/src/pg_external_task_store.rs:91-99 | a batch takes READY, due, admitted and free tasks, leaves out none due before one it takes, and leaves out any only at the limit |
| `TaskEffects.LeaseLasts` | app/src/pg_external_task_store.rs:87-90 | a taken task can be completed by its worker alone, for exactly the seconds of the lease, and reclaimed only strictly after them; nothing else of its row changes |
| `TaskEffects.ReclaimFrees` | app/src/pg_external_task_store.rs:312-321 | exactly the tasks whose lease ended before now become READY again, otherwise as they were |
| `TaskEffects.ReclaimedIsEligible` | app/src/pg_external_task_store.rs:312-321 | and can be taken again at once |
| `TaskEffects.FailedComesBack` | app/src/pg_external_task_store.rs:283-310 | a failed task with retries left can be taken again exactly once its delay is over, and is FAILED without; the lease may be over when it fails |
| `TaskEffects.FailByOthersIsVoid` | app/src/pg_external_task_store.rs:301 | a fail by anybody who does not hold the task changes nothing |
| `TaskEffects.FailedExactly` | app/src/pg_external_task_store.rs:292-301 | an open task that ends FAILED without a cancel has failed exactly max(1, initial retries) times |
| `TaskEffects.VariablesFromCreation` | app/src/pg_external_task_store.rs:264-267 | through any run a task carries the variables it was created with, and after completion those with the output laid over |
| `TaskEffects.AbandonedExactly` | app/src/pg_external_task_store.rs:139-151 | a completed task looks abandoned from the sixteenth second on, exactly if it is not marked; the rest of its row, the lease included, is as it was |
| `TaskEffects.MarkTakes` | app/src/pg_external_task_store.rs:164-171 | a mark takes on any row, marked or not |
| `TaskEffects.OthersUntouched` | app/src/pg_external_task_store.rs:77-321 | no statement touches a row it is not meant for |
| `TaskEffects.OtherInstancesUntouched` | app/src/pg_external_task_store.rs:125-136 | a cancel leaves the tasks of every other instance alone |
| `TaskEffects.OwnInstanceEnds` | app/src/pg_external_task_store.rs:125-136 | a cancel closes exactly the open tasks of its instance, with its message |
| `TaskStore.Store.Create` | app/src/pg_external_task_store.rs:204-236 | a READY row due after its type's delay, or an error exactly for a malformed timer or a timeout that does not fit |
| `TaskStore.Store.PickDue` | app/src/pg_external_task_store.rs:91-99 | min(limit, eligible) distinct eligible rows, none left out being due earlier than one taken |
| `TaskStore.Store.LockReady` | app/src/pg_external_task_store.rs:77-112 | locks exactly such a batch and touches nothing else |
| `TaskStore.Store.LockDueTimers` | app/src/pg_external_task_store.rs:115-122 | the same for timers, with a lease of sixty seconds, whichever rows other sessions hold |
| `TaskStore.Store.Complete` | app/src/pg_external_task_store.rs:255-281 | performs the completion step, and fails exactly if the worker does not hold a live lease on the task |
| `TaskStore.Store.Fail` | app/src/pg_external_task_store.rs:283-310 | performs the failure step: one retry less, READY later while retries are left and FAILED otherwise, nothing without the lock; an error only when retries underflow |
| `TaskStore.Store.ReclaimExpiredLocks` | app/src/pg_external_task_store.rs:312-321 | makes exactly the strictly expired leases READY again and counts the rows changed |
| `TaskStore.Store.CancelForInstance` | app/src/pg_external_task_store.rs:125-136 | fails exactly the open tasks of the instance, leaves those of all others alone, and counts the rows changed |
| `TaskStore.Store.Unadvanced` | app/src/pg_external_task_store.rs:139-151 | the oldest stale tasks, at most limit, completely when they fit |
| `TaskStore.Store.IsAdvanced` | app/src/pg_external_task_store.rs:153-162 | false exactly for an existing row without the mark |
| `TaskStore.Store.MarkAdvanced` | app/src/pg_external_task_store.rs:164-171 | marks an existing row, unconditionally |
| `TimerService.AdvanceAfterTask` | app/src/external_tasks.rs:50-116 | ends with the task marked if and only if the lock is free, the task was not marked, the instance can be read and the event takes effect if it is due; fires exactly what is due, and otherwise leaves the instances alone |
| `TimerService.MergeAndFire` | app/src/external_tasks.rs:78-110 | succeeds if and only if the event takes effect; the result is in the variables either way, and the token is gone exactly then |
| `TimerService.ResultWins` | app/src/external_tasks.rs:79-83 | the output is laid over the variables of the instance, its values winning |
| `TimerService.CompleteAndAdvance` | app/src/external_tasks.rs:30-46 | succeeds exactly if the task was completable, with the result stored, and marks it exactly if nothing stands in the way of the advance |
| `TimerService.ResolvedLate` | app/src/timer.rs:61-75 | a timer whose lease was over by its turn can be taken again exactly five seconds later, if it has retries left |
| `TimerService.FireDue` | app/src/timer.rs:57-75 | locks a batch of due timers and resolves each at its own time; no older backlog changes |
| `TimerService.FireOne` | app/src/timer.rs:61-75 | a locked timer is completed while its lease lives, and marked unless hindered; otherwise it is failed and due again five seconds later |
| `TimerService.ReconcileAll` | app/src/timer.rs:78-82 | the old rows change by marks alone; each task is marked, or met a taken lock, an unreadable instance or an event without effect |
| `TimerService.FiredInTime` | app/src/timer.rs:61-75 | while the attempts take less than the lease, every timer of the batch is completed, and marked if its lock was free, its instance readable and its event effective |
| `TimerService.PollOnce` | app/src/timer.rs:57-84 | every due timer of the batch is completed; then, with free locks, effective events and readable instances, every old enough backlog shrinks by exactly a full batch, or to nothing, and otherwise save for those of the oldest stale tasks, which are the ones picked, that met a hindrance |
| `TimerService.BatchTakesOldest` | app/src/pg_external_task_store.rs:139-145 | a batch from the whole backlog takes as much as it can of every older part |
| `TimerService.PassShrinks` | app/src/timer.rs:77-82 | what the marks of a pass leave of every older backlog: a full batch less, or nothing, plus at most the tasks not marked |
| `TimerService.TimerLoop` | app/src/timer.rs:86-100 | under the same conditions, whatever was stale at the start is down to exactly n - 20 k after k passes and gone after n / 20, rounded up; otherwise down to that plus at most the times a picked task met a hindrance |
| `TimerTypes.TimerGrammar` | app/src/timer.rs:16-37 | a type is a timer of so many seconds if and only if it is the prefix, padding, digits, a unit letter in either case, with count times unit between 1 and 2^64 - 1 |
| `TimerTypes.DurationRoundTrip` | app/src/timer.rs:16-37 | a fitting count and unit rendered in decimal parse back to their product under case and whitespace variation |
| `TimerTypes.UnitsLast` | app/src/timer.rs:23-37 | n seconds, minutes, hours and days last n times 1, 60, 3600 and 86400 seconds, and are refused exactly if n is zero or the product passes 64 bits |
| `TimerTypes.OtherUnitsFail` | app/src/timer.rs:25-31 | no other letter is a unit |
| `TimerTypes.ShapedParses` | app/src/timer.rs:23-37 | a well-formed writing parses exactly if its value is neither zero nor too large |
| `TimerTypes.TimersHavePrefix` | app/src/timer.rs:16-17 | exactly the types with the prefix are meant as timers |
| `TimerTypes.WrittenParses` | app/src/timer.rs:23-37 | every well-formed writing parses to its value |
| `TimerTypes.ParsedWasWritten` | app/src/timer.rs:23-37 | whatever parses was a well-formed writing of its value |
| `TimerTypes.ValidateDefinition` | app/src/timer.rs:40-55 | accepts exactly the definitions whose external tasks have a type other than "default" and, if it is a timer, one that parses; names an offender and its fault otherwise |
| `TimerTypes.UploadCoversRunTime` | app/src/engine_def_store.rs:27-71 | if the drawn definition passes, every external task of the rewritten one has a type that task creation accepts |
| `ProcessStore.CodecsRoundTrip` | app/src/pg_process_store.rs:36-94 | each enumeration codec accepts exactly the texts it writes and reads each back |
| `ProcessStore.TextsStored` | app/src/pg_process_store.rs:36-94 | the texts that stand for the states, statuses and modes |
| `ProcessStore.Database.Save` | app/src/pg_process_store.rs:130-163 | succeeds exactly if versions and attempts fit and token ids are distinct, replacing the whole instance; otherwise the database is as before |
| `ProcessStore.StorableExactly` | app/src/pg_process_store.rs:130-259 | what can be saved: versions and attempts up to 2147483647, and distinct token ids |
| `ProcessStore.SaveTokens` | app/src/pg_process_store.rs:219-259 | the insert loop completes exactly for fitting tokens with distinct ids, and then yields their rows and all rows of other instances |
| `ProcessStore.SaveKeepsOthers` | app/src/pg_process_store.rs:219-259 | a save leaves other instances and their tokens alone |
| `ProcessStore.Database.LoadTokens` | app/src/pg_process_store.rs:183-217 | the decoded rows of the instance, one token each, or an error exactly if some row does not decode |
| `ProcessStore.Database.Load` | app/src/pg_process_store.rs:97-128 | nothing for a missing row, an error exactly for an undecodable one, and otherwise the instance with all its tokens |
| `ProcessStore.SaveThenLoad` | app/src/pg_process_store.rs:97-163 | loading what was saved gives the same instance up to token order and audit timestamps |
| `ProcessStore.Database.UpdateTokenCas` | app/src/pg_process_store.rs:273-300 | swaps exactly at the expected version, which then rises by one; the node never changes |
| `ProcessStore.Database.ClaimToken` | app/src/pg_process_store.rs:302-330 | claims exactly an unfinished token at the expected version, and errs exactly out of range |
| `ProcessStore.OneSwapPerVersion` | app/src/pg_process_store.rs:273-330 | after a successful swap or claim, none at that version or an older one succeeds at any later point, unless a snapshot as old is saved in between |
| `ProcessStore.SwapsExactly` | app/src/pg_process_store.rs:273-330 | a swap or claim succeeds exactly on the token at the version read, unfinished for a claim, and touches no other token |
| `ProcessStore.SwappedLoads` | app/src/pg_process_store.rs:273-330 | what is loaded after a swap is the token written, at the next version, on its old node; after a claim the token read, executing |
| `ProcessStore.SaveRevivesExactly` | app/src/pg_process_store.rs:130-163 | right after a save, a swap or claim succeeds if and only if the snapshot holds the token at the expected version, whatever succeeded before |
| `CancelInstance.EndTokens` | app/src/routes/process/cancel.rs:29-33 | ends each token that has not ended and keeps the others |
| `CancelInstance.Cancel` | app/src/routes/process/cancel.rs:10-53 | both writes exactly for a readable running instance, neither otherwise; not found exactly for a missing one; other instances, their tokens and tasks are untouched |
| `CancelInstance.EndedSaveCancels` | app/src/routes/process/cancel.rs:28-38 | saving the ended snapshot rewrites the state and the unfinished statuses of that instance and nothing else |
| `CancelInstance.CancelEndsEverything` | app/src/routes/process/cancel.rs:28-43 | afterwards the instance is Terminated, each of its tokens as it had ended or Terminated, and none of its tasks open |
| `DecisionTasks.InsertDecisionTasks` | app/src/engine_def_store.rs:27-71 | the loops compute the rewrite, whatever order the node map is walked in |
| `DecisionTasks.InsertTasks` | app/src/engine_def_store.rs:43-58 | one decision task per gate, nothing else replaced, and the redirect map of exactly the gates |
| `DecisionTasks.RewriteNodes` | app/src/engine_def_store.rs:43-70 | what every node of the rewritten definition is, clashing names included |
| `DecisionTasks.NoGatesNoChange` | app/src/engine_def_store.rs:39-41 | a definition without deciding gateways is its own rewrite |
| `DecisionMeaning.LiftIsPath` | app/src/engine_def_store.rs:27-71 | with clean ids, every original path lifts to a path of the rewritten graph with the same ends, and erasing gives it back |
| `DecisionMeaning.EraseIsPath` | app/src/engine_def_store.rs:27-71 | erasing decision tasks from a rewritten path between original nodes gives an original path, of which it is the lift |
| `DecisionMeaning.PathsCorrespond` | app/src/engine_def_store.rs:27-71 | lifting and erasing are inverse, so the correspondence of paths is one to one |
| `DecisionMeaning.MovesThroughDecision` | app/src/engine_def_store.rs:60-69 | under any selection and variables the same edge is taken, by way of the decision task if it leads to a gate |
| `DecisionMeaning.JourneysAgree` | app/src/engine_def_store.rs:27-71 | a token travels along a path in the drawn graph exactly when it travels along its lift in the executed graph |
| `DecisionExact.MovesExactly` | app/src/engine_def_store.rs:60-69 | with clean ids, all moves agree for all selections and variables if and only if no dangling edge names a decision task |
| `DecisionExact.JourneysExactly` | app/src/engine_def_store.rs:27-71 | with clean ids, all journeys agree if and only if no dangling edge names a decision task |
| `DecisionExact.PathsExactly` | app/src/engine_def_store.rs:27-71 | with clean ids, all rewritten paths between original nodes erase to original ones, and lifting and erasing are inverse, if and only if each dangling edge to a decision name stands beside a drawn edge to its gate |
| `DecisionExact.DanglingEdgeComesAlive` | app/src/engine_def_store.rs:64-68 | a dangling edge to a decision name, whatever its condition, opens a path that was not drawn |
| `DecisionMeaning.GuardedExactly` | app/src/engine_def_store.rs:60-69 | every edge into a deciding gateway comes from its own decision task if and only if no kept node with a reserved name leads to a gate |
| `DecisionMeaning.EveryVisitDecides` | app/src/engine_def_store.rs:25-26 | on every path, loops included, a node is a gate exactly if it is entered from its decision task |
| `DecisionMeaning.RewriteTwice` | app/src/engine_def_store.rs:60-69 | rewriting twice is rewriting once, on every definition |
| `DecisionMeaning.MeaningKeptExactly` | app/src/engine_def_store.rs:43-58 | a node loses its type or conditions if and only if it sits on a gate's decision name and is not itself a plain user task |
| `GatewayConditions.ConditionRoundTrip` | app/src/routes/process/mod.rs:94-115 | a condition rendered bare or inside braces parses back to its pair if and only if key and value are free of what the parser strips |
| `GatewayConditions.StructuredMatchesText` | app/src/routes/process/mod.rs:94-115 | a structured condition parses to what its rendering parses to |
| `GatewayConditions.UnwrappedExactly` | app/src/routes/process/mod.rs:99-104 | only a text that is wrapped whole loses its wrapping |
| `GatewayConditions.UnquotedExactly` | app/src/routes/process/mod.rs:107 | a quoted value survives unquoting exactly if it has no quote at its ends |
| `GatewayChoices.GatewayChoicesAfter` | app/src/routes/process/mod.rs:130-189 | on every graph the search ends and is exact: a pair is returned if and only if it stands on a gateway reachable through gateways alone, an error if and only if the node is missing or such a gateway has an unreadable condition, keys and values strictly ascending |
| `GatewayChoices.StructuredAsked` | app/src/routes/process/mod.rs:158-170 | a structured edge ahead of a node puts its value under its key in the answer |
| `GatewayChoices.PlainEdgesAskNothing` | app/src/routes/process/mod.rs:159-160 | exactly edges without a condition and default edges ask nothing and break nothing |
| `Text.StrLessMeans` | app/src/routes/process/mod.rs:179-187 | the order of keys and values is decided at the first difference |
| `GatewayChoices.Turn` | app/src/routes/process/mod.rs:148-173 | one turn of the worklist keeps it sound and complete and lowers unvisited targets, then stack length |
| `GatewayChoices.ScanEdges` | app/src/routes/process/mod.rs:158-172 | scanning a gateway collects exactly the pairs of its edges and stacks their targets, or stops at an unreadable one |
| `GatewayChoices.AnswerUnique` | app/src/routes/process/mod.rs:130-189 | the specified answer is unique where the search succeeds, so no order of traversal can change it |
| `DecisionChoices.AnswersAskOwnDecision` | app/src/engine_def_store.rs:27-71 | from a gate's decision task come exactly the gate's own pairs, or an error exactly if one of its conditions is unreadable; from every other node nothing is asked |
| `DecisionChoices.ChoicesOnPage` | app/src/routes/process/detail.rs:39-149 | loading and searching as the instance page does gives that answer |
| `ActiveMarker.PickActiveMarker` | app/src/routes/process/mod.rs:232-292 | an end node when completed, nothing when terminated, and while running the least candidate with the exact count of the others |
| `ActiveMarker.MarkerSays` | app/src/routes/process/mod.rs:280-291 | with clean ids the marker says "Decision needed" at a deciding gateway or "Waiting" at a drawn node, least first, the others counted |
| `ActiveMarker.SingleTokenMarked` | app/src/routes/process/mod.rs:258-276 | a single token is marked exactly if it waits at a user task, a join or an external task |
| `ActiveMarker.LabelTells` | app/src/routes/process/mod.rs:286-290 | the label tells its wording and its count |
| `ActiveMarker.MarkerSoundExactly` | app/src/routes/process/mod.rs:282-285 | on every run state of the rewritten graph the marker names a drawn node if and only if no markable node carries a stray reserved name |

## Left out

- HTTP handlers other than cancel, login, sessions, pages and the editor: no protocol or graph logic of their own.
- The engine, the BPMN parser and their crates: not part of this model, see the assumptions.
- SQL, JSON, connections, foreign keys, column length limits and database errors: tables are maps, a failing
  statement is a crash of its caller.
- Fractional seconds, interval range limits, clock skew and date formatting: time is an integer.
- LIKE patterns other than a prefix with `%`; the string form of task ids and their parsing.
- `list_running`, `pending_for_instance`, `json_for_script`, `fetch_and_lock`, `intern`: plain reads and
  renderings, or a single call of what is modelled.
- The task row codec: rows hold the enumeration itself.
- Error texts: an error keeps the node, task or edge it is about.
- Lost updates when the manual advance route runs beside another writer of the same instance.
- Progress under permanent contention, or with more than twenty tasks that can never be settled.
- TimerService.PollOnce: time passes before attempts, not within them, and other sessions show in taken locks and held rows
  but do not write between its steps; the interleavings are those of `AdvanceProtocol`.
- TimerService.RunEvent: what an event emits is arbitrary, but each event creates at most one task.
- AdvanceSafety.AtMostOneEvent: completion results are empty, as the poll loop's are; with other results a save between check
  and event can put a moved token back.

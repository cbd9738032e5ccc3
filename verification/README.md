# n8n server: verified models of its stateful core

n8n runs workflows on one or more server processes that share a database. The
parts modelled here are those of `packages/cli/src` whose correctness rests on
state that several functions, calls or processes change.

| file | what it models |
|---|---|
| `Wrappers.dfy` | optional values and results |
| `CredentialTypes.dfy` | the ancestor list of a credential type, collected by a loop over a list that grows while it is read |
| `CredentialsOverwrites.dfy` | inherited credential overwrites: a map resolved in place while it is iterated, the reader `get`, persisting and reloading, and filling a credential |
| `ConcurrencyQueue.dfy` | the queue that limits production executions |
| `ActiveExecutions.dfy` | the table of running executions of one process |
| `ExecutionProtocol.dfy` | all processes together: starting, waiting, resuming, stopping, with the shared rows, the tables and the queues |
| `ProtocolEffects.dfy` | the same steps in terms of the rows, tables, queues and attempts themselves |
| `Completion.dfy` | how attempts come to an end, and that none is stuck for want of a step |
| `LateResumptions.dfy`, `LateResumptionExample.dfy` | in the same protocol, resumptions that come after another one has won, and a run in which such a one wins |
| `CapCounterexample.dfy` | a run of that protocol that exceeds the concurrency cap |
| `ThrottledExecutions.dfy` | in the same protocol, the calls that wait for a slot |
| `ParentExecution.dfy` | patching a waiting parent with its child's result |
| `ResumedData.dfy` | which data a resumed execution runs with, when others patch, resume and park it between load and write-back |
| `LateWrites.dfy` | patches that read a parent and write back after it was patched, resumed, finished, cancelled or parked |
| `WaitTracker.dfy` | timers of waiting executions, retries, resuming a parent |
| `CredentialRepair.dfy` | repairing credential references with two lookup caches |
| `NodeGroups.dfy` | the basic pass of node-group validation |
| `ActivationQueue.dfy` | retrying failed activations with growing pauses |
| `WebhookRegistration.dfy` | registering a workflow's webhooks, with removal of all on failure |
| `WebhookRace.dfy` | several processes registering webhooks at once |
| `Deadlines.dfy` | timeouts of main workflows and of nested sub-workflows |

## How the model is built

Objects that change their fields are classes, and each method is proved equal
to a function on values (`View()` before and after); loops are loops with
invariants, and the properties are lemmas about the functions. Where a function stands for
the source, a contract or lemma also says what it comes to in terms of the
fields, so that the properties cannot hold of a different system. The execution
protocol is a state machine whose steps are the stretches of code between two
awaits. It uses the same table and queue functions that the classes in
`ActiveExecutions.dfy` and `ConcurrencyQueue.dfy` are proved to implement. Every
theorem about it holds for any number of processes, executions and calls, and
for every interleaving.

The database gives an atomic conditional update, an insert that refuses a
taken primary key, and an update that leaves unset columns alone. Encryption and
JSON are the identity. Clocks, failures of calls outside the model, the order in
which a map's keys are visited, and what a node type or a database query
answers are parameters, so a theorem holds for all of them.

## Findings

Where a stated intention does not hold of the code in general, the model follows
the code and proves when it holds.

- Cancelling a queued execution undoes its place in the queue and then also lets
  the next one through, although no slot came free. The concurrency cap holds
  throughout a run exactly when no cancellation removes a queued execution while
  another is queued (`ExecutionProtocol.CapKeptIff`,
  `ConcurrencyQueue.RemoveRespectsCap`); `CapCounterexample.CancellationExceedsCap`
  is a run that exceeds it.
- The id cache of the credential repair ignores the name. Repair equals
  resolution of each reference on its own exactly when no reference with an
  unresolvable id and name is followed by one with the same type and id and
  another name (`CredentialRepair.RepairRefinesResolution`); it is idempotent
  regardless. `CredentialRepair.SecondNameIsIgnored` and
  `CredentialRepair.RefinementFails` show two nodes for which it differs.
- A node may be in the group with the empty name and in a later group
  (`NodeGroups.UnnamedGroupHidesOverlap`); `NodeGroups.ValidateBasics` is
  proved against the exact condition.
- `addWebhooks` saves static data after its compensated loop, so it is not
  all-or-nothing. A call that throws with a working cleanup leaves no row of the
  workflow exactly when the loop failed, or the workflow had no row and every
  store was skipped (`WebhookRegistration.Registry.AddWebhooks`,
  `WebhookRegistration.FailedSavingLeavesRows`);
  `WebhookRegistration.SavingFailsAfterStoring` is an instance that leaves one. By the same condition a call on a
  start or a leadership change reports success with nothing registered
  (`WebhookRegistration.NoRowsIff`, with an instance in
  `WebhookRegistration.SkippingMayRegisterNothing`).
- `storeWebhook` updates by key after a separate lookup. A workflow cleared
  between the two can take over a row that another workflow has just inserted
  (`WebhookRace.StaleUpdateTakesOver`). That chain is the only way: no row of a run
  changes owner exactly when the run does not contain it
  (`WebhookRace.TakeoverIffStaleChain`).
- A retried activation that fails after it left the activation queue is never
  retried again (`ActivationQueue.OwnRetry`), and one that is skipped
  stays queued without a timer (`ActivationQueue.GivenUpStaysGivenUp`).
- The main-workflow timeout and the sub-workflow deadline agree exactly when a
  maximum is configured or no timeout is chosen (`Deadlines.RulesAgreeIff`). The
  comment on the sub-workflow rule says it mirrors the main one. After a
  resumption the deadline handed to sub-workflows is later than the moment the
  resumed run itself is stopped (`Deadlines.ResumedDeadlineSlips`,
  `Deadlines.SubworkflowOutlivesResumedRoot`).
- A child that succeeds after another one failed does not clear the recorded
  error of the parent (`ParentExecution.LastChildWins`).
- Starting a tracked execution directly leaves its timer running
  (`WaitTracker.DirectStartOrphans`), and every child of a parent tries to resume it.
  Comments say that only one of these succeeds. That holds per waiting episode
  (`ExecutionProtocol.OneResumePerEpisode`), while the conditional update asks for
  the status alone: after one resumption has won, another wins exactly when the
  execution waits and has parked anew since that win
  (`LateResumptions.LateResumeWinsIff`). It then ends the new wait early;
  `LateResumptionExample.SecondResumptionWins` is such a run. An execution is still
  never resumed more often than it parked (`LateResumptions.ResumptionsUseUpWaits`).
- A patch of a parent writes back what it has read without a condition, and so puts
  back the data of a past turn exactly when the parent was resumed, parked or
  finished after the read (`LateWrites.WritePutsBackItsRead`). A run's row always
  holds the data of its present turn exactly when it contains no such write
  (`LateWrites.PresentIffNoStaleWrite`); `LateWrites.LateWriteReplacesResult` loses
  the result of a finished parent.
- A resumption loads an execution's data first and writes it back when it wins the
  conditional update. What a child patches in between is lost
  (`ResumedData.LatePatchIsLost`), exactly when it comes to something
  (`ResumedData.NothingLostIff`). The condition asks for a waiting row and not for
  the same waiting episode, so a late winner can run from the data of an earlier
  one (`ResumedData.StaleResumeRepeats`), exactly when the execution parked anew
  since the load (`ResumedData.StaleIffParkedSince`).
- With two parents per credential type the resolver lets the last one win and the
  reader the first. They agree on a field exactly when the type has it itself, a
  parent lacks it, or both have the same value
  (`CredentialsOverwrites.TwoParentsDisagree`). What `get` returns then depends on
  the order of the keys (`CredentialsOverwrites.KeyOrderDecides`).

## Model

| member | source | states |
|---|---|---|
| CredentialTypes.GetParentTypes | packages/cli/src/credential-types.ts:26-38 | terminates on every acyclic hierarchy although the list grows while it is read, and returns the specified list |
| CredentialTypes.VisitReaches | packages/cli/src/credential-types.ts:32-36 | the loop visits exactly the pending entries and their ancestors |
| CredentialTypes.ParentTypesExact | packages/cli/src/credential-types.ts:26-38 | the result holds exactly the strict ancestors of the type |
| CredentialTypes.AncestorsAreParentsAndTheirs | packages/cli/src/credential-types.ts:26-38 | a type is in the list exactly when it is a parent or in the list of a parent |
| CredentialTypes.RevisitAddsNothing | packages/cli/src/credential-types.ts:32-36 | on every acyclic hierarchy, reading an ancestor list over again finds only ancestors it already has |
| CredentialTypes.ParentTypesNearestFirst | packages/cli/src/credential-types.ts:26-38 | on single-parent chains the first occurrences are the ancestors, nearest first |
| CredentialTypes.FirstOccurrencesMean | packages/cli/src/credential-types.ts:32-36 | first occurrences are each type of a list once, in the order they come up |
| CredentialTypes.NearestFirst | packages/cli/src/credential-types.ts:26-38 | with single parents the first occurrences are the parent, then those of the parent |
| CredentialsOverwrites.Service.GetOverwrites | packages/cli/src/credentials-overwrites.ts:177-207 | terminates, and its result and memo list are those of the memoised resolver |
| CredentialsOverwrites.Service.SetPlainData | packages/cli/src/credentials-overwrites.ts:102-115 | for every order of the keys, `get` afterwards is the nearest-ancestor-wins merge of the raw entries, for every type |
| CredentialsOverwrites.Service.SetData | packages/cli/src/credentials-overwrites.ts:117-137 | as above, and what is stored is the rewritten map, only when asked and persistence is on |
| CredentialsOverwrites.Service.LoadOverwriteDataFromDB | packages/cli/src/credentials-overwrites.ts:56-76 | map and memo list are those of resolving the stored map, nothing stored, nothing changed; with one parent per type every reading is as in the stored map |
| CredentialsOverwrites.Service.ApplyOverwrite | packages/cli/src/credentials-overwrites.ts:139-175 | the loop fills the empty overwritten fields, or returns the data untouched for a customised skip-list type |
| CredentialsOverwrites.PartlyResolvedReadsTheSame | packages/cli/src/credentials-overwrites.ts:102-115 | any map between the raw entries and the full resolution resolves to the same as the raw one |
| CredentialsOverwrites.OverwrittenIsPartial | packages/cli/src/credentials-overwrites.ts:177-207 | whatever the memo list says, the resolver returns a part of the full resolution that includes the stored entry |
| CredentialsOverwrites.PlainDataStaysBetween | packages/cli/src/credentials-overwrites.ts:102-115 | after any prefix of the keys the map has its raw keys, has lost nothing raw and has gained nothing foreign |
| CredentialsOverwrites.AssignAllIsNearest | packages/cli/src/credentials-overwrites.ts:209-222 | reverse, filter and reduce give each field the value of the first type in the list that has it |
| CredentialsOverwrites.ResolutionIsNearest | packages/cli/src/credentials-overwrites.ts:209-222 | the recursive specification gives each field the value of the nearest type on the chain that has it |
| CredentialsOverwrites.GetIsResolution | packages/cli/src/credentials-overwrites.ts:209-222 | for any stored map, `get` is the nearest-ancestor-wins merge, undefined exactly when no type on the chain has an entry |
| CredentialsOverwrites.OrderDoesNotMatter | packages/cli/src/credentials-overwrites.ts:102-115 | the in-place cache, filled in any key order, agrees with the specification |
| CredentialsOverwrites.ReadsOwnThenParent | packages/cli/src/credentials-overwrites.ts:102-115 | after any order of the keys a type reads its own raw fields and for the rest what its parent reads |
| CredentialsOverwrites.ReloadIsStable | packages/cli/src/credentials-overwrites.ts:56-125 | saving the rewritten map and resolving it again in any other order leaves every reading unchanged |
| CredentialsOverwrites.ResolverMergesInOrder | packages/cli/src/credentials-overwrites.ts:195-202 | with any list of parents that have none themselves, the resolver gives each field the own value, else that of the last parent that has it |
| CredentialsOverwrites.ReaderMergesInOrder | packages/cli/src/credentials-overwrites.ts:209-222 | for the same types the reader gives each field the own value, else that of the first parent that has it |
| CredentialsOverwrites.TwoParentsDisagree | packages/cli/src/credentials-overwrites.ts:177-222 | with two such parents resolver and reader agree on a field if and only if the type has it, a parent lacks it, or both values are equal |
| CredentialsOverwrites.KeyOrderDecides | packages/cli/src/credentials-overwrites.ts:102-115 | for a type with a parent and a grandparent that share a field, what `get` returns is the same for two key orders if and only if their values are equal |
| CredentialsOverwrites.AppliedKeepsAndFills | packages/cli/src/credentials-overwrites.ts:139-175 | a non-empty field or one without an overwrite never changes; an empty one with an overwrite is filled, unless the type is on the skip list and the credential customised |
| CredentialsOverwrites.SkipListIsAllOrNothing | packages/cli/src/credentials-overwrites.ts:146-163 | a skip-list credential is returned as it is, or every overwritten field equals its overwrite |
| CredentialsOverwrites.EmptyValues | packages/cli/src/credentials-overwrites.ts:166-169 | undefined, null and the empty text are empty; other texts, numbers and flags are not |
| CredentialsOverwrites.FillingOneField | packages/cli/src/credentials-overwrites.ts:150-172 | one field empty or not, and a skip-list field equal to its overwrite or not, with what filling then returns |
| CredentialsOverwrites.AppliedIsIdempotent | packages/cli/src/credentials-overwrites.ts:139-175 | applying overwrites twice is applying them once |
| ConcurrencyQueue.Service.EnqueueExecution | packages/cli/src/concurrency/concurrency-queue.ts:21-32 | takes a slot or queues the caller, at the end |
| ConcurrencyQueue.Service.DequeueExecution | packages/cli/src/concurrency/concurrency-queue.ts:38-42 | gives a slot back and wakes the first waiter |
| ConcurrencyQueue.Service.RemoveExecution | packages/cli/src/concurrency/concurrency-queue.ts:44-54 | takes the first waiter of an execution out and wakes the next one; no change when there is none |
| ConcurrencyQueue.EnqueueAccounts | packages/cli/src/concurrency/concurrency-queue.ts:21-32 | capacity stays cap minus slots minus waiters; a caller is let through only within the cap, and waits only when it is used up |
| ConcurrencyQueue.DequeueAccounts | packages/cli/src/concurrency/concurrency-queue.ts:38-42 | a slot given back goes to a waiter or becomes free, never both |
| ConcurrencyQueue.RemoveAccounts | packages/cli/src/concurrency/concurrency-queue.ts:44-54 | the accounting after a removal, and exactly when it lets another caller through |
| ConcurrencyQueue.RemoveRespectsCap | packages/cli/src/concurrency/concurrency-queue.ts:44-54 | a removal respects the cap if and only if the execution is not queued or is the only one queued |
| ActiveExecutions.Service.Register | packages/cli/src/active-executions.ts:143-156 | enters a new unsettled object that keeps the start time of the entry it replaces |
| ActiveExecutions.Service.SetStatus | packages/cli/src/active-executions.ts:308-310 | changes that entry's status only, or reports that there is none |
| ActiveExecutions.Service.StopExecution | packages/cli/src/active-executions.ts:211-238 | drops a waiting entry and its response mode at once, rejects any other unless it is settled, touches no other entry or response mode |
| ActiveExecutions.Service.FinalizeExecution | packages/cli/src/active-executions.ts:241-260 | settles that entry once and changes no table entry |
| ActiveExecutions.Service.OnSettled | packages/cli/src/active-executions.ts:158-174 | gives the slot back once; the entry under the id and its response mode stay when its own incarnation waits and go otherwise, the other entries stay |
| ExecutionProtocol.OwnersStep | packages/cli/src/active-executions.ts:62-141 | every step keeps: an owned execution is not waiting in the database and has one owner among all processes |
| ExecutionProtocol.WinsStep | packages/cli/src/active-executions.ts:127-136 | every step keeps the log of successful resumptions free of repeated episodes |
| ExecutionProtocol.TableStep | packages/cli/src/active-executions.ts:143-260 | every step keeps tables and incarnations in one-to-one agreement |
| ExecutionProtocol.QueueStep | packages/cli/src/concurrency/concurrency-capacity-reservation.ts:23-36 | every step keeps each queue's accounting and the single release of every slot |
| ExecutionProtocol.Always | packages/cli/src/active-executions.ts:62-260 | all four invariants hold after every run from an initial state |
| ProtocolEffects.BeginEffect | packages/cli/src/active-executions.ts:112-117 | a call takes a slot or is queued at the end, exactly in production with a queue; nothing else changes |
| ProtocolEffects.StartFreshEffect | packages/cli/src/active-executions.ts:83-106 | a new execution gets a new row and begins in the same way |
| ProtocolEffects.CommitFreshEffect | packages/cli/src/active-executions.ts:108-111 | in regular mode its row turns to running |
| ProtocolEffects.CommitResumeEffect | packages/cli/src/active-executions.ts:119-141 | a resumption of a waiting row makes it running and is logged; of any other row it gives up |
| ProtocolEffects.ReleaseEffect | packages/cli/src/concurrency/concurrency-capacity-reservation.ts:30-36 | giving back adds a slot and a release and lets the first waiter on, for gated attempts only |
| ProtocolEffects.FailEffect | packages/cli/src/active-executions.ts:138-141 | giving up closes the attempt and gives its slot back; the row may have been written |
| ProtocolEffects.RegisterEffect | packages/cli/src/active-executions.ts:143-156 | the entry is the new incarnation's, running, with the start time found or the present time; a parked one found is retired |
| ProtocolEffects.ParkEffect | packages/cli/src/active-executions.ts:158-174 | the row waits in a new episode, the entry stays as waiting, as its callback leaves it, and the slot goes back |
| ProtocolEffects.FinalizeEffect | packages/cli/src/active-executions.ts:241-260 | a live incarnation is settled and nothing else changes; without one nothing does |
| ProtocolEffects.StopEffect | packages/cli/src/active-executions.ts:211-238 | a live incarnation is settled, a parked one closed and its entry dropped; otherwise nothing changes |
| ProtocolEffects.CallbackEffect | packages/cli/src/active-executions.ts:158-174 | a settled incarnation is closed, its entry goes, and its slot is given back |
| ProtocolEffects.SetStatusEffect | packages/cli/src/active-executions.ts:308-310 | one entry's status changes and nothing else |
| ProtocolEffects.CancelEffect | packages/cli/src/concurrency/concurrency-queue.ts:44-54 | the first waiter of the execution is stranded and the first of the rest goes on; without one nothing changes |
| ProtocolEffects.SlotsAre | packages/cli/src/active-executions.ts:68-117 | the slots in use are those of the production attempts past the queue |
| ProtocolEffects.CapMeans | packages/cli/src/concurrency/concurrency-control.service.ts:170-198 | the caps hold when no process with a queue has more slots in use than its cap |
| ProtocolEffects.HarmfulMeans | packages/cli/src/concurrency/concurrency-control.service.ts:190-198 | harmful is exactly cancelling an execution that is queued beside another |
| Completion.FinalizedFinishes | packages/cli/src/active-executions.ts:158-260 | after every run, finalizing a live incarnation settles it alone; its callback can then run and leaves it closed, out of the table, its slot given back for the first time |
| Completion.StoppedFinishes | packages/cli/src/active-executions.ts:211-238 | after every run, stopping a live incarnation does the same |
| Completion.ParkedIsDropped | packages/cli/src/active-executions.ts:228-233 | after every run, stopping a parked incarnation closes it, drops its entry and gives nothing back again |
| Completion.CanFinish | packages/cli/src/active-executions.ts:62-260 | every reachable state has a continuation in which an attempt past the queue is closed and its slot given back once |
| Completion.CanBeServed | packages/cli/src/concurrency/concurrency-queue.ts:21-74 | every reachable state has one in which a call that waits for a slot gets it, if the cap allows any |
| ExecutionProtocol.OneResumePerEpisode | packages/cli/src/active-executions.ts:112-141 | each waiting episode is ended by at most one successful `add`, and no execution has two live incarnations in whatever processes |
| ExecutionProtocol.SecondResumeLoses | packages/cli/src/wait-tracker.ts:153-168 | a further resumption of an episode already won, retries included, leaves rows, log and tables as they are and closes the attempt |
| LateResumptions.EpisodeTells | packages/cli/src/active-executions.ts:112-141 | a row's episode has advanced between two states of a run if and only if the execution parked between them |
| LateResumptions.LateResumeWinsIff | packages/cli/src/wait-tracker.ts:153-168 | after a resumption has won, a further one wins if and only if the execution waits and has parked anew since; otherwise it changes neither rows nor log |
| LateResumptions.ResumptionsUseUpWaits | packages/cli/src/active-executions.ts:127-136 | in every run the successful resumptions of an execution, and its wait if it waits, are no more than the times it parked |
| LateResumptionExample.SecondResumptionWins | packages/cli/src/wait-tracker.ts:155-165 | a run in which a resumption meant for the first wait ends the second one |
| ExecutionProtocol.SlotsConserved | packages/cli/src/active-executions.ts:68-174 | capacity is always cap minus slots in use minus waiters, each slot is given back exactly once when its holder is done and never before, and nobody waits while a slot is free |
| ExecutionProtocol.CapStep | packages/cli/src/concurrency/concurrency-control.service.ts:170-198 | one step from within the caps stays within them if and only if it is no cancellation next to another queued execution |
| ExecutionProtocol.CapKeptIff | packages/cli/src/concurrency/concurrency-control.service.ts:170-198 | a run never exceeds a cap if and only if each of its cancellations of queued executions was harmless |
| CapCounterexample.CancellationExceedsCap | packages/cli/src/concurrency/concurrency-queue.ts:44-54 | a run from an initial state in which a cancellation puts a process over its cap |
| ExecutionProtocol.RegisterFindsParked | packages/cli/src/active-executions.ts:143-156 | an entry found by a new registration belongs to a parked incarnation |
| ExecutionProtocol.TableLists | packages/cli/src/active-executions.ts:143-260 | an id is in a table exactly when an incarnation there is unsettled, awaits its callback or is parked |
| ExecutionProtocol.CallbacksRemoveTheirOwn | packages/cli/src/active-executions.ts:164-174 | the callback deletes by id, and in every reachable state that is its own entry |
| ExecutionProtocol.StartedAtIsKept | packages/cli/src/active-executions.ts:145-150 | as long as an entry is kept, through any number of waits and resumptions, its start time is constant |
| ThrottledExecutions.StepLosesNobody | packages/cli/src/concurrency/concurrency-queue.ts:21-74 | every step keeps each suspended call in the queue of its process |
| ThrottledExecutions.WaitersAreQueuedOnce | packages/cli/src/concurrency/concurrency-queue.ts:21-42 | after every run a suspended call is in its queue, once, and as many slots as the cap allows are taken |
| ThrottledExecutions.FirstInLineIsNext | packages/cli/src/concurrency/concurrency-queue.ts:38-74 | after every run, whichever step gives a slot back, it goes to the first in line, and the others move up by one |
| ParentExecution.Store.UpdateParentExecutionWithChildResults | packages/cli/src/workflow-helpers.ts:548-593 | the early returns and the write, as one patch of the parent's row |
| ParentExecution.PatchTouchesOnlyTheHead | packages/cli/src/workflow-helpers.ts:562-592 | nothing changes unless the parent waits with a stack; otherwise only the head entry, never the status |
| ParentExecution.PatchIsIdempotent | packages/cli/src/workflow-helpers.ts:548-593 | patching twice with one child is patching once |
| ParentExecution.LastChildWins | packages/cli/src/workflow-helpers.ts:573-587 | after any sequence of patches the head data is that of the last child that finished without error, the recorded error that of the last that failed |
| ParentExecution.NotWaitingIsUntouched | packages/cli/src/workflow-helpers.ts:562-571 | any sequence of patches leaves a parent alone that does not wait or has no stack |
| ParentExecution.InterleavedPatchesAreTraceable | packages/cli/src/workflow-helpers.ts:557-592 | with reads and writes of several patches interleaved, the head data is the original or one successful child's, the rest stays and the status is not written |
| ParentExecution.ReadThenWriteIsPatch | packages/cli/src/workflow-helpers.ts:557-592 | a read with its write at once is the patch |
| ResumedData.EpisodeTells | packages/cli/src/active-executions.ts:127-131 | the episode of a row has advanced between two states if and only if the execution parked anew |
| ResumedData.OnlyPatchesInEpisode | packages/cli/src/workflow-helpers.ts:562-592 | within one waiting episode a row changes by the patches made and nothing else |
| ResumedData.HeadAfterPatches | packages/cli/src/workflow-helpers.ts:573-587 | the whole head entry after any sequence of patches |
| ResumedData.WinnerRunsWithItsLoad | packages/cli/src/active-executions.ts:119-131 | the resumption that wins runs with the last output and the last error of the children patched before it loaded |
| ResumedData.NothingLostIff | packages/cli/src/active-executions.ts:119-131 | its write-back leaves the row's data as it is if and only if the patches since its load add no other output, error or reference |
| ResumedData.OwnPatchIsSeen | packages/cli/src/wait-tracker.ts:201-219 | a resumption that loads after its own child's patch runs with that child's output or a later one |
| ResumedData.StaleIffParkedSince | packages/cli/src/active-executions.ts:127-131 | a winner runs with an earlier episode's data if and only if the execution parked anew since its load |
| ResumedData.StaleResumeRepeats | packages/cli/src/wait-tracker.ts:125-155 | two resumptions load; the first runs and parks, the second wins and runs from the first's data again |
| ResumedData.LatePatchIsLost | packages/cli/src/active-executions.ts:119-131 | a child's output patched between load and win is overwritten |
| ResumedData.StepsMean | packages/cli/src/active-executions.ts:119-131 | what loading, resuming, parking and finishing do to the row |
| LateWrites.WritePutsBackItsRead | packages/cli/src/workflow-helpers.ts:557-592 | a patch that writes stores what it read, patched, under the present status; its read belongs to a past turn if and only if the parent was resumed, parked or finished since |
| LateWrites.UndisturbedIsAtomic | packages/cli/src/workflow-helpers.ts:557-592 | when nothing else was stored since the read, the two halves are one patch of the present row |
| LateWrites.RowDerivesFromOrigin | packages/cli/src/workflow-helpers.ts:557-592 | after any run the row is what the execution stored in the turn its data come from, but for the head entry's patched parts |
| LateWrites.PresentIffNoStaleWrite | packages/cli/src/workflow-helpers.ts:589-592 | in all states of a run the row holds the present turn's data if and only if no patch in it writes after the parent moved on since its read |
| LateWrites.LateWriteReplacesResult | packages/cli/src/workflow-helpers.ts:589-592 | a parent is read, resumed and finished; the write then replaces its result by the data it waited with |
| LateWrites.StepsMean | packages/cli/src/workflow-helpers.ts:557-592 | what reading, writing, loading, resuming, parking and finishing do to the row |
| WaitTracker.WithRetry | packages/cli/src/wait-tracker.ts:235-249 | makes between one and `maxAttempts` attempts (one if that is not positive), stops at the first success or error not to retry, returns exactly the last result, sleeps 100 (2^(k-1) - 1) ms |
| WaitTracker.LastAttempt | packages/cli/src/wait-tracker.ts:240-248 | the attempt after which the loop ends is the first that may end it |
| WaitTracker.ResumeParentExecution | packages/cli/src/wait-tracker.ts:191-226 | never rejects, and makes exactly the specified attempts |
| WaitTracker.StartsOnlyAfterPatching | packages/cli/src/wait-tracker.ts:196-219 | a parent is started only after a patch returned, never for a waiting child, within the attempt limits, and not again after a start that returned |
| WaitTracker.NothingToResume | packages/cli/src/wait-tracker.ts:197-199 | without a result or for a waiting child nothing is tried, and a rejection is logged |
| WaitTracker.ResumesOnceDone | packages/cli/src/wait-tracker.ts:201-225 | otherwise the patch is tried until it returns, a user or unexpected error comes, or the third attempt failed; then the start in the same way; the error that ended either is logged |
| WaitTracker.Service.GetWaitingExecutions | packages/cli/src/wait-tracker.ts:82-110 | the polling loop sets a timer for each found execution that has none |
| WaitTracker.Service.StopExecution | packages/cli/src/wait-tracker.ts:112-118 | clears the stored timer and forgets the execution |
| WaitTracker.Service.FireTimer | packages/cli/src/wait-tracker.ts:104-122 | the timer is gone and its execution no longer tracked |
| WaitTracker.PollTracksAll | packages/cli/src/wait-tracker.ts:98-109 | every found execution is timed with its own delay, existing timers stay, no second timer appears |
| WaitTracker.StoppingKeepsValid | packages/cli/src/wait-tracker.ts:112-118 | after stopping no timer of that execution is left, and every other one keeps its entry and timer |
| WaitTracker.FiringKeepsValid | packages/cli/src/wait-tracker.ts:104-122 | a fired timer leaves tracked executions and timers in agreement, and every other execution its entry and timer |
| WaitTracker.DirectStartOrphans | packages/cli/src/wait-tracker.ts:120-122 | starting other than from the timer leaves a stray timer if and only if the execution was tracked |
| CredentialRepair.ReplaceInvalidCredentials | packages/cli/src/workflow-helpers.ts:365-486 | the nested loops in place over the nodes do what the specified passes do, with the caches carried along |
| CredentialRepair.StepRefines | packages/cli/src/workflow-helpers.ts:385-482 | both caches stay coherent, and a turn gives the uncached answer if and only if it meets no cached unresolvable reference of another name |
| CredentialRepair.RunRefinesIff | packages/cli/src/workflow-helpers.ts:372-482 | caches stay coherent over any list of references, and all answers are uncached ones if and only if the names agree |
| CredentialRepair.NestedLoopsAreFlat | packages/cli/src/workflow-helpers.ts:379-483 | the nested loops are one loop over the references of the enabled nodes, in order |
| CredentialRepair.OnlyReferencesChange | packages/cli/src/workflow-helpers.ts:379-382 | disabled nodes and nodes without credentials are untouched, and nothing but references changes in the others |
| CredentialRepair.RepairRefinesResolution | packages/cli/src/workflow-helpers.ts:365-486 | repair of a workflow equals resolution of each reference on its own if and only if the names agree |
| CredentialRepair.SecondNameIsIgnored | packages/cli/src/workflow-helpers.ts:440-481 | two nodes of which the second would resolve to a record and is given the first one's reference |
| CredentialRepair.RefinementFails | packages/cli/src/workflow-helpers.ts:365-486 | for them the cached repair differs from resolution of each reference on its own |
| CredentialRepair.RepairIsIdempotent | packages/cli/src/workflow-helpers.ts:365-486 | a second pass with fresh caches returns exactly the first pass's nodes, for every workflow |
| CredentialRepair.RepairedReference | packages/cli/src/workflow-helpers.ts:385-482 | a repaired reference names a record other than by its own id only if its name leads to that record alone; without id, and with a name of no or several records, it keeps its name and gets no id |
| CredentialRepair.AmbiguousNameIsLeftAlone | packages/cli/src/workflow-helpers.ts:405-425 | a bare name that two records have is left alone |
| CredentialRepair.ResolveMeans | packages/cli/src/workflow-helpers.ts:388-476 | what a reference resolves to on its own, case by case in terms of the records found |
| CredentialRepair.DisagreementMeans | packages/cli/src/workflow-helpers.ts:440-481 | names disagree only where an id without record and a name that does not lead to one record come before the same id with another name |
| NodeGroups.CheckGroup | packages/cli/src/workflow-helpers.ts:244-259 | the inner loop accepts one group if and only if the references so far are all known and do not visibly overlap, and an error names a violation |
| NodeGroups.ValidateBasics | packages/cli/src/workflow-helpers.ts:223-262 | accepts if and only if ids and names are distinct, every node exists and no node is referenced again after a named group; an error names a violation of its kind |
| NodeGroups.AcceptableMeans | packages/cli/src/workflow-helpers.ts:231-260 | the specification in terms of the groups: distinct ids, distinct names, known node ids, and no node again after a group with a name |
| NodeGroups.NamedGroupsDoNotOverlap | packages/cli/src/workflow-helpers.ts:251-258 | with every group named, the last condition says that all references are distinct |
| NodeGroups.UnnamedGroupHidesOverlap | packages/cli/src/workflow-helpers.ts:252-253 | a node in the unnamed group and in a later one is accepted |
| ActivationQueue.Queue.AddQueuedWorkflowActivation | packages/cli/src/active-workflow-manager.ts:812-866 | replaces any entry and timer of the workflow by ones in the given mode with the initial delay, and leaves the others |
| ActivationQueue.Queue.Retry | packages/cli/src/active-workflow-manager.ts:819-852 | what each outcome of a retry does to entry and timer, and when its error handler itself fails |
| ActivationQueue.Queue.RemoveAllQueuedWorkflowActivations | packages/cli/src/active-workflow-manager.ts:881-885 | removes every entry with its stored timer |
| ActivationQueue.AlwaysValid | packages/cli/src/active-workflow-manager.ts:812-885 | after every run each pending timer is the one stored for its workflow, with the stored mode and delay |
| ActivationQueue.OneTimerPerWorkflow | packages/cli/src/active-workflow-manager.ts:855-866 | a workflow never has two pending timers, and removing it cancels the one it has |
| ActivationQueue.DelayIsBackoff | packages/cli/src/active-workflow-manager.ts:828-847 | after every run the delay is min(1000 * 2^n, 86400000) for n failures other than from the isolate since the workflow was last added, and the timer waits for it unless the last retry was skipped |
| ActivationQueue.ClearingStopsAll | packages/cli/src/active-workflow-manager.ts:881-885 | clearing the queue leaves no timer pending |
| ActivationQueue.GivenUpStaysGivenUp | packages/cli/src/active-workflow-manager.ts:543-546 | after a skipped retry the workflow has no timer until it is added again, whatever else happens |
| ActivationQueue.OwnRetry | packages/cli/src/active-workflow-manager.ts:819-852 | after a retry its workflow is queued with a timer and the next delay, queued without a timer, or gone with its timer, by outcome; an error after the removal leaves neither |
| ActivationQueue.OthersLeaveAlone | packages/cli/src/active-workflow-manager.ts:812-876 | every event about another workflow leaves this one queued or not as before, with its entry and its timer |
| ActivationQueue.OthersStayQueued | packages/cli/src/active-workflow-manager.ts:854-876 | after every run, adding or removing one workflow leaves all others queued with their entries and timers |
| ActivationQueue.AddingAndRemoving | packages/cli/src/active-workflow-manager.ts:854-885 | after every run, an added workflow is queued in its mode and timed for a second, a removed one has neither entry nor timer, a cleared queue nothing at all |
| WebhookRegistration.Registry.StoreWebhook | packages/cli/src/webhooks/webhook.service.ts:152-187 | inserts, refreshes a row of the same workflow or rejects, with the columns and the error of each branch; webhook id and path length are set exactly for a node with an id and a path with a variable segment |
| WebhookRegistration.Registry.ClearWebhooks | packages/cli/src/active-workflow-manager.ts:238-276 | removes the workflow's rows, or none on an error |
| WebhookRegistration.Registry.AddWebhooks | packages/cli/src/active-workflow-manager.ts:138-232 | other workflows' rows never change; the result, error and rows of every path; a call that throws with a working cleanup leaves no row if and only if the loop failed or there was none and none was stored |
| WebhookRegistration.OwnedIff | packages/cli/src/active-workflow-manager.ts:152-178 | after any number of webhooks the workflow owns exactly the keys it had and those of webhooks that were stored |
| WebhookRegistration.NoRowsIff | packages/cli/src/active-workflow-manager.ts:152-195 | it has no row if and only if it had none and none was stored |
| WebhookRegistration.EachIsRegisteredOrSkipped | packages/cli/src/active-workflow-manager.ts:179-194 | when the loop ends a webhook has a row of this workflow if and only if it had one or a webhook with its key was stored; one not stored was skipped by the start and leadership rule |
| WebhookRegistration.LastStoredWins | packages/cli/src/active-workflow-manager.ts:152-178 | a row describes the last webhook stored under its key |
| WebhookRegistration.OnlyFreeKeysAreGained | packages/cli/src/webhooks/webhook.service.ts:155-181 | a key gained belongs to one of the webhooks and was free before |
| WebhookRegistration.TakenPathsAlwaysFail | packages/cli/src/webhooks/webhook.service.ts:157-170 | a path held by another workflow fails the call on every kind of activation, unless its lookup fails with a skipped query error |
| WebhookRegistration.CleanupIsComplete | packages/cli/src/webhooks/webhook.service.ts:198-218 | after a cleanup the workflow has no row and the others keep theirs |
| WebhookRegistration.FailedSavingLeavesRows | packages/cli/src/active-workflow-manager.ts:225-231 | when saving static data fails no row of the workflow is left if and only if it had none and none was stored; where nothing is skipped, if and only if it had neither rows nor webhooks |
| WebhookRegistration.SavingFailsAfterStoring | packages/cli/src/active-workflow-manager.ts:225-231 | an instance in which the loop passes and the row is there when saving fails |
| WebhookRegistration.SkippingMayRegisterNothing | packages/cli/src/active-workflow-manager.ts:185-195 | an instance of the condition: on a first start a refused insert is skipped and no row exists |
| WebhookRegistration.SlashesDoNotMatter | packages/cli/src/active-workflow-manager.ts:167-172 | exactly one leading and one trailing slash are stripped |
| WebhookRegistration.SegmentsAreJoined | packages/cli/src/active-workflow-manager.ts:176-179 | a path without a slash has length one, and lengths add up over a slash |
| WebhookRegistration.OrdersById | packages/cli/src/active-workflow-manager.ts:176-179 | a path with a variable in its second segment is one with a variable, of length two |
| WebhookRegistration.ErrorMeans | packages/cli/src/active-workflow-manager.ts:179-185 | a webhook fails when storing it does, else when its external registration does |
| WebhookRegistration.PassesMeans | packages/cli/src/active-workflow-manager.ts:185-195 | the loop gets past failed queries on a start or leadership change, and past no other failure |
| WebhookRace.OnlyLateUpdatesTakeOver | packages/cli/src/webhooks/webhook.service.ts:155-181 | a step passes a row to another workflow if and only if it is an update of a row that changed hands since the lookup |
| WebhookRace.RegistrationSteps | packages/cli/src/webhooks/webhook.service.ts:155-181 | what the insert, the lookup and the update of a registration find and do |
| WebhookRace.BeginningAndClearing | packages/cli/src/webhooks/webhook.service.ts:152-202 | a registration begins with its insert; a clearing takes a workflow's rows and no others |
| WebhookRace.AlwaysUpdatesOwn | packages/cli/src/webhooks/webhook.service.ts:157-181 | without a clearing in between, a registration that found its own row still has it when it updates |
| WebhookRace.RowsAreNeverTakenOver | packages/cli/src/webhooks/webhook.service.ts:152-182 | in every interleaving without such a clearing no row passes from one workflow to another |
| WebhookRace.TakeoverIffStaleChain | packages/cli/src/webhooks/webhook.service.ts:152-182 | in a run some row passes to another workflow if and only if a workflow is cleared while about to update, another inserts its path, and the update follows while that one holds it |
| WebhookRace.OneWinnerPerPath | packages/cli/src/webhooks/webhook.service.ts:153-170 | from any table, of two workflows that race for a path and are not cleared themselves one gets it |
| WebhookRace.StaleUpdateTakesOver | packages/cli/src/webhooks/webhook.service.ts:172-181 | a run in which a cleared workflow takes over another's row |
| Deadlines.BindingByPosition | packages/cli/src/workflow-execute-additional-data.ts:270-282 | the binding deadlines are those of the calls since the last one not awaited, and the root's when all are awaited |
| Deadlines.OwnDeadlineMeans | packages/cli/src/workflow-execute-additional-data.ts:237-265 | a sub-workflow's own deadline is after the smaller of its timeout, or the default, and the maximum if that is positive |
| Deadlines.ResolvedDeadlineMeans | packages/cli/src/workflow-execute-additional-data.ts:270-282 | an awaited call runs under the earlier of its own and its parent's deadline, another under its own |
| Deadlines.EffectiveIsLeastBinding | packages/cli/src/workflow-execute-additional-data.ts:534-540 | the effective deadline of a chain of calls is the least binding one, and absent exactly when nothing binds |
| Deadlines.NeverLaterWithDepth | packages/cli/src/workflow-execute-additional-data.ts:270-282 | along awaited calls the deadline never gets later |
| Deadlines.NotAwaitedStartsAfresh | packages/cli/src/workflow-execute-additional-data.ts:275-277 | a call that is not awaited makes everything before it irrelevant |
| Deadlines.RunMainProcess | packages/cli/src/workflow-runner.ts:345-461 | the timeout is the smaller of the chosen one and the maximum; a run is stopped at the later of the deadline of its first start and now; the deadline for its sub-workflows counts from the current start |
| Deadlines.RulesAgreeIff | packages/cli/src/workflow-execute-additional-data.ts:237-265 | the sub-workflow rule and the main rule agree if and only if a maximum is configured or no timeout is chosen |
| Deadlines.ResumedDeadlineSlips | packages/cli/src/workflow-runner.ts:367-374 | the deadline handed down by a resumed run is later than the run's own by the time since its start |
| Deadlines.SubworkflowOutlivesResumedRoot | packages/cli/src/workflow-runner.ts:367-461 | exactly when a sub-workflow awaited by a resumed run must end by the moment its root is stopped |

## Left out

- Fairness: that a continuation exists does not say that it is taken.
- Parking in several steps: setting the status, writing the row, settling and the callback are one step of the protocol. A resumption by another call between them is not modelled.
- Shutdown, queue mode with its workers, re-running enqueued executions at startup, the separate evaluation queue, and crashes of a process. A mode without a queue behind it is modelled as not gated.
- Deferred response promises, streaming responses, push messages, telemetry, events and logging; a response mode is modelled where an entry is stopped or removed.
- CredentialsOverwrites.Service.SetPlainData: does not model that the map passed in is the same object that is rewritten, except that what is stored afterwards is the rewritten map.
- CredentialsOverwrites.OrderDoesNotMatter: is stated for types with one parent each, since it is false for several, as `CredentialsOverwrites.KeyOrderDecides` shows. Overwrite entries that are null are not modelled.
- CredentialTypes.GetParentTypes: takes the hierarchy to be acyclic, since the source does not terminate on a cycle, and the `extends` list of a loaded type to be the one listed for known types.
- CredentialsOverwrites.Service.LoadOverwriteDataFromDB: does not model the reloading flag, decryption and parse errors, which are logged and change nothing, or the reload of the frontend; loading from the environment variable is `SetPlainData` again.
- CredentialRepair.ReplaceInvalidCredentials: does not model that nodes with equal references come to share one cached object. The database is fixed during the call and both queries read one table.
- NodeGroups.ValidateBasics: does not model the checks that need node types and connections.
- ParentExecution.Store.UpdateParentExecutionWithChildResults: takes the child's last node output as given and one read and write as a step; `ParentExecution.InterleavedPatchesAreTraceable` separates the read from the write.
- WaitTracker.PollTracksAll: stays within one leadership term, since stepping down clears timers and keeps entries.
- WaitTracker.Service.FireTimer: does not model what loading the execution may throw; that is a failed attempt of the operation in `WaitTracker.WithRetry`, and the start itself is a step of the protocol.
- ActivationQueue.Queue.Retry: is one step; a retry in flight while its entry is removed or replaced is not modelled.
- WebhookRegistration.Registry.AddWebhooks: does not model the webhook cache, the calls to external services beyond their failure, or the selection by node id, which only shortens the list. Its calls run without interference; `WebhookRace.dfy` models that.
- WebhookRace.OneWinnerPerPath: leaves out the two workflows' own clearings, since a cleared path may rightly be won again, and clearings of a workflow about to update.
- ResumedData.OwnPatchIsSeen: takes a patch as one step; `LateWrites.dfy` and `ParentExecution.InterleavedPatchesAreTraceable` separate its read from its write.
- ResumedData.StaleIffParkedSince: models one row and its data, whose races over status, tables and slots are those of `ExecutionProtocol.dfy`.
- CredentialsOverwrites.TwoParentsDisagree: is stated for parents without parents of their own; deeper hierarchies with several parents are not characterised, as their readings depend on the key order.
- Deadlines.RunMainProcess: does not model clearing the timer when the run ends, or an execution timeout that is null.
- Matching of requests against webhooks, merging of node properties and runs, node grouping by type, variables, licensing, controllers and the credential descriptions.

# Core bridge verification

A Dafny model of the concurrent and stateful core of the OCaml-Temporal bridge,
with proofs over every input, every interleaving and every run:

- **Submitted client calls.** `ClientCalls` has the value functions of the
  completion registry, `CallTable` its code as classes, `CallProtocol` the
  transition system in which unboundedly many threads, owners and tasks take
  one lock section at a time, `CallInvariant` and `CallRuns` what holds in it.
  `CallLives` follows one call from its registration to its end.
  `CallIsolation` shows that one owner's view is a function of its own inputs.
  `Admission` runs the submission code of one owner inside that protocol;
  `AdmissionInvariant` and `AdmissionRuns` prove its limits, `AdmissionClasses`
  when a request is admitted, `AdmissionHandles` and `AdmissionProgress` what its
  task handles stand for and that it is never stuck, `TaskMap` its code.
- **Counted-borrow gates.** `RuntimeGate` and `ResponseGate` take one step per
  atomic access of the C stubs.
- **The runtime graph.** `RuntimeGraph` (lifecycle), `GraphHistory` (its
  state told from the answered operations), `StartTickets`
  (asynchronous starts), `ActivityLeases` and `WorkflowLeases` (lease documents
  against the worker's ledger), `Teardown` (task handles and the shared Core).
- **Protocol loops and conversions.** `UpdateLoop`, `AwaitStatus`, `Base64`,
  `VisibilityStatus`.
- **Licence expressions.** `LicenseParser`, `LicenseErrors`, `LicensePolicy`,
  `LicenseText`.

`dafny verify dfyconfig.toml` checks the whole project.

How the parts of the source appear:

- A mutex section, an atomic access, or what one thread does between two of
  them is one step of a transition system. A `Step` function says when a step
  can be taken and what it does; a run is a sequence of states and events. A
  theorem over runs quantifies over all of them, with any number of threads,
  tasks, calls, owners and graphs.
- Code that updates fields, or loops, is a class or a method proved against the
  functions that the transition systems use.
- RPCs, Core, Tokio scheduling, clocks and identifier generators are arbitrary
  values carried by events or parameters. Failure branches are kept.

Assumptions, each stated where it is used:

- Owner identifiers are distinct and `NEXT_CALL` does not wrap. A registration
  past `MAX_CALL_ID` fails; that answer (`LFetch.granted`) is the one input of an
  owner that depends on others.
- A call is attached by the owner that registered it, and its guard is used by
  nobody else before its task is spawned.
- A heartbeat driver is started by a running call of its graph, and only until
  the throttle is shut down.
- When the finalizer frees the owner struct of a runtime handle, no primitive is
  inside, and none enters afterwards.
- The clock of the update loop is monotone and does not stop.

Where comments and code differ, the code is modelled. The comment on the
worker's `TaskLedger` says an entry is removed only after Core accepts the
completion; a workflow's entry is removed before Core is told and restored when
Core refuses, and so it is in `WorkflowLeases`.

## Model

| member | source | states |
|---|---|---|
| `ClientCalls.SlotIsOneShot` | rust/core-bridge/src/client_calls.rs:154-183 | over any sequence of publications, closes and reads of one slot, only the first publication or close decides its state, and a published outcome stays until exactly one read takes it |
| `CallTable.CallSlot.Settle` | rust/core-bridge/src/client_calls.rs:365-392 | a terminal read takes the outcome and leaves the slot closed; a pending slot stays pending |
| `CallTable.CallTable.Remove` | rust/core-bridge/src/client_calls.rs:109-126 | removes the entry only for its owner, decrements that owner's counter and drops it at zero; anything else changes nothing |
| `CallTable.CallTable.Register` | rust/core-bridge/src/client_calls.rs:240-268 | a fresh identifier, a fresh pending slot, one more in the counter of that owner; exhaustion and a failed reservation leave both maps alone |
| `CallTable.CallTable.ReleaseOwner` | rust/core-bridge/src/client_calls.rs:274-291 | every call of the owner leaves the registry with its slot closed, no other slot or entry changes, and the counters stay exact |
| `CallTable.CallTable.AttachTask` | rust/core-bridge/src/client_calls.rs:298-312 | the handle is attached iff the call is still registered under the owner, and otherwise aborted |
| `CallTable.CallTable.ReleaseCall` | rust/core-bridge/src/client_calls.rs:327-337 | the owner's call is unregistered, its slot closed and its task returned for the abort; a foreign or unknown one changes nothing |
| `CallTable.CallTable.UnregisteredCalls` | rust/core-bridge/src/client_calls.rs:342-352 | exactly the given calls not registered under the owner, in order |
| `CallTable.CallTable.AwaitCall` | rust/core-bridge/src/client_calls.rs:365-392 | outcome, closed or not-ready answer of one uninterrupted await, and what it leaves behind |
| `CallTable.StillUnregisteredIsFilter` | rust/core-bridge/src/client_calls.rs:342-352 | that filter keeps multiplicities |
| `CallTable.CallTable.RegisteredCalls` | rust/core-bridge/src/client_calls.rs:397-399 | answers the number of the owner's registered calls |
| `ClientCalls.CountIsNumberOfCalls` | rust/core-bridge/src/client_calls.rs:397-399 | an exact counter map answers the number of the owner's registered calls, zero included |
| `ClientCalls.RemovedKeepsCounts` | rust/core-bridge/src/client_calls.rs:109-126 | removal keeps every owner's counter exact, never stores zero, and its subtraction never saturates |
| `ClientCalls.RegisteredKeepsCounts` | rust/core-bridge/src/client_calls.rs:240-268 | so does registration |
| `ClientCalls.OwnerReleasedKeepsCounts` | rust/core-bridge/src/client_calls.rs:274-291 | so does releasing an owner |
| `ClientCalls.AttachedKeepsCounts` | rust/core-bridge/src/client_calls.rs:298-312 | so does attaching a task |
| `CallInvariant.StepKeepsInv` | rust/core-bridge/src/client_calls.rs:103-220 | every lock section of every thread keeps identifiers unique, entries backed by slots, pending slots guarded and reachable, in-flight operations sound, and counters exact |
| `CallRuns.CountersAreExact` | rust/core-bridge/src/client_calls.rs:397-399 | at every moment of every run each counter is the number of the owner's registered calls and none is zero |
| `CallRuns.SlotMovesForward` | rust/core-bridge/src/client_calls.rs:74-82 | between any two moments a slot moved only pending to ready to closed, or pending to closed |
| `CallRuns.RetiredStaysRetired` | rust/core-bridge/src/client_calls.rs:109-126 | a call that left the registry never returns, and a consumed guard stays consumed |
| `CallRuns.PublishedOnce` | rust/core-bridge/src/client_calls.rs:192-220 | a call publishes at most once per run |
| `CallRuns.ReadyWasPublished` | rust/core-bridge/src/client_calls.rs:154-183 | a ready slot holds exactly what its task published |
| `CallRuns.DeliveredAtMostOnce` | rust/core-bridge/src/client_calls.rs:365-392 | a published outcome reaches at most one await |
| `CallRuns.ReadyIsNeverLost` | rust/core-bridge/src/client_calls.rs:154-183 | between any two moments of a run a ready outcome is still there or one terminal read was delivered it: closes, releases and later publications never lose it |
| `CallRuns.ClosedHasSource` | rust/core-bridge/src/client_calls.rs:174-183 | a closed slot was closed by a close that found it pending or by the delivery of its outcome |
| `CallRuns.AwaitAnswers` | rust/core-bridge/src/client_calls.rs:365-392 | every answer of every await has its cause in the run: not addressed, still pending, found closed by a named earlier step, or the outcome its task published |
| `CallRuns.OneExplanation` | rust/core-bridge/src/client_calls.rs:365-392 | that cause is unique, down to the steps it names |
| `CallRuns.NoWaiterIsStranded` | rust/core-bridge/src/client_calls.rs:154-220 | a sleeper's slot is pending with a live guard and an entry or a release in flight, and whatever the guard publishes wakes it and is its answer |
| `CallRuns.CloseAnswersSleeper` | rust/core-bridge/src/client_calls.rs:327-337 | the close of a release in flight wakes a sleeper and its answer is then the closed failure |
| `CallRuns.ReadyCallIsReturned` | rust/core-bridge/src/client_calls.rs:365-392 | in every interleaving, an await whose lookup found a ready outcome answers exactly it, unless another await was delivered it between that lookup and this await's terminal read; the call is then unregistered |
| `CallLives.UndisturbedCall` | rust/core-bridge/src/client_calls.rs:365-392 | from every reachable state a call that nobody disturbs is registered, runs, is answered with exactly what it published, and leaves registry, guards, tasks and threads as they were |
| `CallLives.RemovedUndoesRegistered` | rust/core-bridge/src/client_calls.rs:109-126 | registering, attaching and removing a call restores the registry, counters included |
| `CallLives.ReleaseRunsThrough` | rust/core-bridge/src/client_calls.rs:327-337 | a release unregisters its call, closes the slot, wakes the sleepers and aborts an attached task |
| `CallLives.ThreadIsNeverStuck` | rust/core-bridge/src/client_calls.rs:354-392 | every thread can begin any operation or go on with its own; a pending await may sleep or expire, any other settles |
| `CallIsolation.OthersAreInvisible` | rust/core-bridge/src/client_calls.rs:112-125 | no event of another owner, whatever identifier it names, changes anything an owner can see |
| `CallIsolation.OwnEventReacts` | rust/core-bridge/src/client_calls.rs:327-392 | an owner's own event changes its view, and answers, as the owner's own small system says from that view alone |
| `CallIsolation.OwnerSeesItself` | rust/core-bridge/src/client_calls.rs:365-392 | over any run, the owner's view and all its answers are a function of its own inputs |
| `CallIsolation.OwnersDoNotInterfere` | rust/core-bridge/src/client_calls.rs:365-392 | two runs with the same inputs of one owner give it the same answers and view, whatever others did and up to renaming of identifiers |
| `CallIsolation.CountIsSeen` | rust/core-bridge/src/client_calls.rs:397-399 | the count that limits an owner is part of that view |
| `TaskMap.TaskMap.StartScopeFor` | rust/core-bridge/src/abi.rs:1929-1966 | one pass admits a start iff no pending start with its request id differs from it and the id is pending already or fewer than the limit of distinct ones are; the protocol failure exactly on a clash, the exhausted one otherwise |
| `TaskMap.TaskMap.WaitScopeFor` | rust/core-bridge/src/abi.rs:1967-1988 | a wait is admitted iff it is pending already or fewer than the limit of distinct ones are |
| `TaskMap.TaskMap.MarkReleased` | rust/core-bridge/src/abi.rs:1908-1928 | exactly the calls that left the registry stop counting, and exactly their tasks are aborted |
| `TaskMap.TaskMap.ReapReleased` | rust/core-bridge/src/abi.rs:2038-2058 | exactly the released calls are removed and joined |
| `AdmissionInvariant.StepKeepsInv` | rust/core-bridge/src/abi.rs:1899-2058 | every step of a submission or disconnect, and every step of any other thread, keeps the limits, the handles and the phases consistent |
| `AdmissionRuns.LimitsHold` | rust/core-bridge/src/abi.rs:1899-2032 | at every moment registered calls and retained handles are within the in-flight limit, distinct starts and waits within theirs, and pending starts with one request id are one request up to the RPC timeout |
| `AdmissionRuns.RefusalIsJustified` | rust/core-bridge/src/abi.rs:1992-2010 | when the ceiling refuses a submission, the owner had exactly that many calls registered when this submission read the registry |
| `AdmissionClasses.SameStartRequestIsExact` | rust/core-bridge/src/client_protocol.rs:931-942 | two starts are one request iff request id, workflow id and body agree, whatever their RPC timeouts |
| `AdmissionClasses.VerdictIsExact` | rust/core-bridge/src/abi.rs:1929-1990 | the class and status of any request, without counting sets: by clashing requests and calls with pairwise different keys |
| `AdmissionClasses.ClassIsDecided` | rust/core-bridge/src/abi.rs:1929-1990 | in every run a submission passes its class check iff its request is admissible, and then under its own class |
| `AdmissionClasses.ClassRefusalIsJustified` | rust/core-bridge/src/abi.rs:1908-1990 | every class refusal is justified by calls registered when this submission consulted the registry: one that clashes, or as many as the limit with keys different from each other and the request |
| `AdmissionClasses.DistinctCallsAreBounded` | rust/core-bridge/src/abi.rs:1929-1990 | at every moment no more pending starts or waits differ pairwise than the limits allow |
| `AdmissionRuns.SeenHasSource` | rust/core-bridge/src/abi.rs:1908-1928 | what a submission believes registered is what the registry held when it was consulted |
| `AdmissionRuns.NoTaskIsDetached` | rust/core-bridge/src/abi.rs:2107-2128 | the owner holds a handle of each of its unfinished submitted tasks, and is connected while there is one |
| `AdmissionHandles.JoinedTasksWereTold` | rust/core-bridge/src/abi.rs:2107-2128 | whatever the owner joins, on disconnect or before it refuses for lack of room, has ended or was told to |
| `AdmissionHandles.RegisteredCallsCount` | rust/core-bridge/src/abi.rs:1908-1928 | a stored call keeps counting, and a release finds its task to abort, as long as it is registered |
| `AdmissionProgress.OwnerIsNeverStuck` | rust/core-bridge/src/abi.rs:1899-2058 | at every moment a submission or disconnect under way can take its next step or waits for a running task that was told to end |
| `AdmissionProgress.IdleOwnerCanStart` | rust/core-bridge/src/abi.rs:1899-1906 | an idle owner can submit and disconnect exactly over a connection, and connect exactly without one |
| `AdmissionProgress.HandlesMove` | rust/core-bridge/src/abi.rs:1906-2058 | a handle is held until its task is pruned as finished, reaped as released, or drained |
| `AdmissionProgress.LimitsAreTheConnections` | rust/core-bridge/src/abi.rs:1649-1718 | while there is a connection its limits are the ones it was made with |
| `AdmissionRuns.SleeperIsServed` | rust/core-bridge/src/abi.rs:2018-2031 | whoever sleeps on a call of the owner waits for a guard inside an unfinished task whose handle is held, or with the submission about to spawn it |
| `AdmissionRuns.DisconnectedIsEmpty` | rust/core-bridge/src/abi.rs:3277-3304 | without a connection there are no handles and no registered calls, and the limits are the defaults |
| `RuntimeGate.InvHolds` | lib/core_bridge/native_stubs.c:127-168 | in every interleaving, with the finalizer starting at any time, the counter equals the threads between increment and decrement, the pointer is in the field, in one closer's hands or freed, and there is at most one finalizer |
| `RuntimeGate.NoUseAfterFree` | lib/core_bridge/native_stubs.c:1352-1363 | the runtime, or shared runtime, is freed at most once and nobody holds it when or after it is freed |
| `RuntimeGate.NobodyAdmittedAfterDetach` | lib/core_bridge/native_stubs.c:136-161 | after the exchange the set of users only shrinks |
| `RuntimeGate.RefusedOnlyByClose` | lib/core_bridge/native_stubs.c:145-161 | a borrow is refused only if a close or the finalizer began before the load that refused it, or there never was a runtime |
| `RuntimeGate.LateBorrowIsRefused` | lib/core_bridge/native_stubs.c:145-161 | a borrow that reads the flag after a close or the finalizer began never gets the pointer |
| `RuntimeGate.BorrowRunsThrough` | lib/core_bridge/native_stubs.c:145-168 | while the runtime is open every thread can borrow it, and giving it back restores the state |
| `RuntimeGate.CloseRunsThrough` | lib/core_bridge/native_stubs.c:1352-1363 | a close with no borrow in flight runs through and frees what it took |
| `RuntimeGate.FinalizerRunsThrough` | lib/core_bridge/native_stubs.c:200-225 | a lone finalizer runs through, frees what is left and then the struct |
| `RuntimeGate.ClosedMeansFreed` | lib/core_bridge/native_stubs.c:200-225 | a taken pointer is freed or held by a closer that has not freed it yet |
| `ResponseGate.CopiesAreExact` | lib/core_bridge/native_stubs.c:379-409 | no freed byte is read, the result is freed at most once and not under a reader, and a finished copy is the whole result |
| `ResponseGate.NobodyAdmittedAfterClose` | lib/core_bridge/response_borrow_gate.h:24-52 | after the closing exchange no read is admitted |
| `ResponseGate.RefusedOnlyByClose` | lib/core_bridge/response_borrow_gate.h:21-31 | a read is refused only if a close won before it looked |
| `ResponseGate.LateReadIsRefused` | lib/core_bridge/response_borrow_gate.h:21-31 | a read that looks after a close won is never admitted |
| `ResponseGate.MeasureRunsThrough` | lib/core_bridge/native_stubs.c:379-409 | while the result is live every thread can measure it |
| `ResponseGate.CopyRunsThrough` | lib/core_bridge/native_stubs.c:379-409 | and copy the whole of it, leaving no trace |
| `ResponseGate.CloseRunsThrough` | lib/core_bridge/response_borrow_gate.h:38-52 | a close with no borrow in flight frees the result, a second one does nothing |
| `Teardown.NoTaskIsDetached` | rust/core-bridge/src/abi.rs:2317-2339 | an unfinished start, call or driver task is in exactly one handle list of one graph, which keeps its client and Core reference; what is joined was aborted, has published or has ended |
| `Teardown.TasksEndFirst` | rust/core-bridge/src/abi.rs:3412-3483 | on disconnect, waiting close, finalizer close, failed send and a panicking disposal, all tasks ended before the client or the Core reference goes |
| `Teardown.WaitingCloseJoins` | rust/core-bridge/src/abi.rs:3311-3365 | a waiting close has joined every task before it hands over its graph; the finalizer's close hands over the handles of tasks told to end |
| `Teardown.ClientWhileConnected` | rust/core-bridge/src/abi.rs:3277-3304 | a graph has a client exactly while it is connected: a finished disconnect and a cleanup, panicking or not, leave none |
| `Teardown.NoExitIsStuck` | rust/core-bridge/src/abi.rs:3277-3483 | a graph in the middle of anything can take its next step or waits for a task that was told to end or has handed over its result |
| `Teardown.IdleGraphCan` | rust/core-bridge/src/abi.rs:1899-2058 | an idle graph can connect once, leave at any time, spawn over a client, and give up exactly the handles of starts with a result, ended calls and calls told to end |
| `Teardown.CallCanStartDriver` | rust/core-bridge/src/heartbeat_throttle.rs:194-240 | while the throttle is open an unfinished call can start a heartbeat driver |
| `Teardown.PanicEndsAlike` | rust/core-bridge/src/abi.rs:3412-3483 | a panicking disposal ends in the same state as a clean one |
| `Teardown.HandleCan` | rust/core-bridge/src/abi.rs:1338-1407 | an open shared handle can be released or cloned by a new graph, a released one is cleaned |
| `Teardown.TaskCan` | rust/core-bridge/src/abi.rs:2107-2128 | a task can publish, be aborted and end at any time, and none of that is undone |
| `Teardown.CoreOutlivesItsHolders` | rust/core-bridge/src/abi.rs:1338-1407 | live references are the handle plus the graphs not yet dropped, cleanups included; the Core is dropped, once, exactly when none is left |
| `Teardown.OnlyTheLastHolderDrops` | rust/core-bridge/src/abi.rs:3375-3405 | only the release of the last reference drops the Core, and no reference of a dropped Core is released or cloned |
| `StartTickets.OutcomeIsHonest` | rust/core-bridge/src/abi.rs:933-956 | the outcome always encodes; it says accepted or rejected exactly for a representable, certain result, and otherwise names the request |
| `StartTickets.RejectedFailures` | rust/core-bridge/src/client_protocol.rs:870-892 | failure by failure: only an existing workflow and a status code that is certain are reported rejected; Core and query failures and missing results never are |
| `StartTickets.TicketsAreBounded` | rust/core-bridge/src/abi.rs:2138-2223 | live tickets have distinct request ids and are within the limit |
| `StartTickets.RetryIsIdempotent` | rust/core-bridge/src/abi.rs:2138-2223 | while a ticket lives, the same request gets it again, a changed one and a blocking start are refused, and nothing changes |
| `StartTickets.IssueIsExact` | rust/core-bridge/src/abi.rs:2138-2223 | in every run when a ticket is issued and what each refusal means; only a new ticket changes the registry |
| `StartTickets.ReadableWhenEnded` | rust/core-bridge/src/abi.rs:2237-2308 | a live ticket can be read exactly when its task has ended since the ticket was issued |
| `StartTickets.BlockingStartIsExact` | rust/core-bridge/src/abi.rs:1727-1752 | a blocking start is let through exactly over a client and with a request id that no ticket has |
| `StartTickets.ConnectionIsExact` | rust/core-bridge/src/abi.rs:1649-1718 | a connection begins with its own limit and no tickets, a second one is refused, a disconnect leaves a new registry |
| `StartTickets.TicketAnsweredOnce` | rust/core-bridge/src/abi.rs:2280-2308 | between two outcomes under one identifier, that identifier was issued again |
| `StartTickets.OutcomeIsTheTasks` | rust/core-bridge/src/abi.rs:2237-2308 | an outcome belongs to the start its ticket was issued for and repeats what that start's task sent; a rejection is never an uncertain error |
| `StartTickets.StartRegistry.BeginStart` | rust/core-bridge/src/abi.rs:2138-2223 | the ticket code, in whatever order the map iterates, does what the run theorems assume |
| `StartTickets.StartRegistry.Find` | rust/core-bridge/src/abi.rs:2160-2180 | finds a pending start with the request id iff there is one |
| `StartTickets.StartRegistry.ReadStart` | rust/core-bridge/src/abi.rs:2237-2308 | a ticket finishes iff it is live and its task ended; it is then gone, no other ticket changed, and the outcome encodes and says accepted or rejected only if the task sent just that; every refusal changes nothing, and not-ready means live with a running task |
| `StartTickets.StartRegistry.CheckSyncStart` | rust/core-bridge/src/abi.rs:1727-1752 | a blocking start is let through iff its request id is not pending |
| `RuntimeGraph.ReachableIsWellFormed` | rust/core-bridge/src/abi.rs:2398-2600 | at most one worker graph; a live one has a client; the namespace is set iff there is one; without one the lease maps are empty; without a client the registries are empty and the limits default |
| `RuntimeGraph.RefusedChangesNothing` | rust/core-bridge/src/abi.rs:2545-2600 | a refused operation changes nothing, except a shutdown that let its worker go, a wait kept or retired, and a rejection, which retires its one document |
| `RuntimeGraph.NoLeaseIsInherited` | rust/core-bridge/src/abi.rs:2398-2488 | a started worker graph begins without leases of an earlier one |
| `GraphHistory.AnswersAreExact` | rust/core-bridge/src/abi.rs:2398-2600 | in every reachable graph each of the 21 operations succeeds iff its needs are met |
| `GraphHistory.GraphIsItsHistory` | rust/core-bridge/src/abi.rs:2345-2600 | in every run client, worker, replay worker, namespace, limits, activations, starts, waits and calls are exactly what the answered operations made and did not end since |
| `GraphHistory.DocumentsAreCounted` | rust/core-bridge/src/abi.rs:3697-3738 | a document is there once more after a poll and once less after its rejection; completion and the end of the worker take all |
| `GraphHistory.PollsAreNamed` | rust/core-bridge/src/abi.rs:2603-2692 | the status of every poll that hands out nothing |
| `GraphHistory.ReturnsAreNamed` | rust/core-bridge/src/abi.rs:2762-2835 | the status of completions and rejections of unknown leases and without their worker |
| `GraphHistory.RefusalsAreNamed` | rust/core-bridge/src/abi.rs:1649-1718 | the status of every other refusal that does not repeat an outside failure |
| `RuntimeGraph.Runtime.ConnectClient` | rust/core-bridge/src/abi.rs:1649-1718 | succeeds iff there was no client, every limit given is in range and the handshake succeeds; the limits are then the given ones or the defaults, with nothing pending; a refusal changes nothing |
| `RuntimeGraph.Runtime.StartLiveWorker` | rust/core-bridge/src/abi.rs:2398-2463 | succeeds iff a client has no worker of either kind and configuration, construction and validation do; no lease is inherited and the client side is untouched; a refusal changes nothing |
| `RuntimeGraph.Runtime.StartReplayWorker` | rust/core-bridge/src/abi.rs:2468-2488 | succeeds iff there is no worker of either kind and configuration and construction do, with or without a client; no lease is inherited; a refusal changes nothing |
| `RuntimeGraph.Runtime.Shutdown` | rust/core-bridge/src/abi.rs:2545-2600 | a worker survives iff its drain failed or its finalization was refused, and then nothing changed; the status of every outcome, abandoned leases included |
| `RuntimeGraph.Runtime.EndReplay` | rust/core-bridge/src/abi.rs:2838-2891 | finalize and dispose keep the replay worker on every failure |
| `RuntimeGraph.Runtime.WaitForRun` | rust/core-bridge/src/abi.rs:2345-2390 | a wait is let in iff there is a client and it repeats a retained one or finds a free slot; it holds a slot afterwards iff it is still pending; nothing else changes |
| `RuntimeGraph.Runtime.DisconnectClient` | rust/core-bridge/src/abi.rs:3277-3304 | refused iff a live worker uses the client, changing nothing; otherwise the client side is as in a new graph and a replay worker keeps everything |
| `ActivityLeases.DocumentsMatchDebts` | rust/core-bridge/src/abi.rs:3658-3775 | no document list is stored empty, a token is leased iff exactly one Start is retained for it, a queued Start waits on an unleased debt, and the confused branches of the handoff are unreachable |
| `ActivityLeases.AdmissionIsExact` | rust/core-bridge/src/worker_bridge.rs:3162-3187 | a polled task is admitted iff its token is valid and it is the Start of a token without a debt or the first Cancel of one with a debt; any other changes nothing |
| `ActivityLeases.OneCancelPerStart` | rust/core-bridge/src/worker_bridge.rs:3131-3187 | between two admitted Cancels of a token a Start of it was admitted |
| `ActivityLeases.TasksKeepTheirOrder` | rust/core-bridge/src/worker_bridge.rs:1209-1213 | first in, first out: what the lane admitted is what was taken, what is queued and what the lane holds, in that order |
| `ActivityLeases.TakeHandsOutNext` | rust/core-bridge/src/worker_bridge.rs:1424-1480 | a take hands out the first task that is not a stale cancellation, and none only if there is none |
| `ActivityLeases.HandoffIsExact` | rust/core-bridge/src/abi.rs:2953-3000 | a task in hand is retained or dropped as unrepresentable, when only a Start pays |
| `ActivityLeases.CompletionIsExact` | rust/core-bridge/src/worker_bridge.rs:2255-2275 | a completion is accepted iff its token is leased, and leaves neither debt nor document of it |
| `ActivityLeases.RejectionIsExact` | rust/core-bridge/src/abi.rs:3240-3263 | a rejection removes one matching document; a Cancel pays no debt, a Start exactly its own |
| `ActivityLeases.DocumentsOutliveDebts` | rust/core-bridge/src/abi.rs:3240-3263 | documents do not imply a debt: for every valid token a run that hands over a Start and its Cancel and then rejects the Start leaves the Cancel document without a debt |
| `ActivityLeases.CancelsOutliveTheirStart` | rust/core-bridge/src/abi.rs:3240-3263 | a rejected Start's debt is paid, and its token keeps documents, all of them Cancels, iff more than the Start was retained before; they are without a debt iff the token was not polled again meanwhile |
| `ActivityLeases.OrphanStep` | rust/core-bridge/src/abi.rs:3722-3738 | exactly which steps leave a token with documents and no debt: retiring a rejected Start with other documents present, and dropping an unrepresentable Start of a token that has documents |
| `ActivityLeases.OrphanHasSource` | rust/core-bridge/src/abi.rs:3722-3738 | in every run a token with documents and no debt got there by such a step and stayed so since |
| `ActivityLeases.TakeIsClear` | rust/core-bridge/src/worker_bridge.rs:1424-1480 | stale cancellations are skipped and a queued Start is always leased |
| `ActivityLeases.WithoutFirstRemovesOne` | rust/core-bridge/src/abi.rs:3722-3738 | exactly one occurrence goes |
| `ActivityLeases.RetireUndoesRetain` | rust/core-bridge/src/abi.rs:3697-3738 | retiring a document just retained restores the documents, in order unless an equal one was there before |
| `ActivityLeases.LeaseBook.Retain` | rust/core-bridge/src/abi.rs:3697-3703 | the document is retained, once more than before, beside all earlier ones of its token; no other token changes and no list is empty |
| `ActivityLeases.LeaseBook.FindRejected` | rust/core-bridge/src/abi.rs:3753-3775 | a rejection is accepted iff that very document is retained |
| `ActivityLeases.LeaseBook.RetireAll` | rust/core-bridge/src/abi.rs:3708-3713 | the token has no documents left and no other token changes |
| `ActivityLeases.LeaseBook.RetireOne` | rust/core-bridge/src/abi.rs:3722-3738 | the first equal document goes, and an emptied token with it |
| `WorkflowLeases.LeasedIffRetained` | rust/core-bridge/src/worker_bridge.rs:2161-2252 | between operations of a live or replay worker a leased run has its activation retained; a retained one is leased unless a completion of it was left unanswered, or refused after the run was admitted again, and it was not rejected since |
| `WorkflowLeases.AdmissionIsExact` | rust/core-bridge/src/worker_bridge.rs:3106-3129 | a polled activation is admitted iff its run id is valid and not outstanding |
| `WorkflowLeases.TakeIsExact` | rust/core-bridge/src/worker_bridge.rs:1371-1420 | a queued activation is handed out and leased |
| `WorkflowLeases.HandoffIsExact` | rust/core-bridge/src/abi.rs:2603-2642 | it is retained if its place is vacant, and otherwise its lease is retired |
| `WorkflowLeases.CompletionIsExact` | rust/core-bridge/src/worker_bridge.rs:2190-2252 | a completion is let through iff its run is retained and leased; accepted it leaves neither, refused it changes nothing |
| `WorkflowLeases.RejectionIsExact` | rust/core-bridge/src/abi.rs:2801-2815 | a rejection is let through iff that very activation is retained, and takes it and its lease |
| `WorkflowLeases.ActivationsKeepTheirOrder` | rust/core-bridge/src/worker_bridge.rs:1209-1213 | first in, first out, and no activation is lost or handed out twice |
| `WorkflowLeases.StaleStep` | rust/core-bridge/src/worker_bridge.rs:2190-2252 | exactly those two ends of a completion leave an activation without a lease |
| `WorkflowLeases.NoDuplicateIsDelivered` | rust/core-bridge/src/abi.rs:2603-2692 | whatever is polled is handed out; its place is vacant unless such a completion left an activation there, and then the new one is rejected, its lease retired and the old one kept |
| `WorkflowLeases.RetainedIsNeverReplaced` | rust/core-bridge/src/abi.rs:3658-3672 | a retained activation is the one handed out, unchanged until it is completed or rejected |
| `UpdateLoop.ConvertIsExact` | rust/core-bridge/src/client_protocol.rs:1932-1987 | a response converts iff it answers for the requested update, workflow and run with a representable outcome; the result names them, a non-empty run, and that very outcome: completed iff the handler succeeded, failed iff it failed |
| `UpdateLoop.DecisionIsDurable` | rust/core-bridge/src/client_protocol.rs:1913-1925 | retry iff the response fits and has neither outcome nor the accepted or completed stage; success iff it fits with a representable outcome or the accepted stage; anything else is a Core fault |
| `UpdateLoop.EndIsExact` | rust/core-bridge/src/client_protocol.rs:1859-1889 | an attempt succeeds exactly with a conclusive answer, which it reports, and otherwise meets the deadline, repeats the status or is a Core fault |
| `UpdateLoop.OneNameForExpiry` | rust/core-bridge/src/client_protocol.rs:1286-1310 | an expired attempt that was cancelled counts as one that met its deadline; every other status is kept |
| `UpdateLoop.UpdateWithin` | rust/core-bridge/src/client_protocol.rs:1825-1899 | for any server and monotone clock: at most ceil(budget / 100 ms) attempts, each with budget left, all but the last a retry; the result is a success iff the last answer was conclusive, and reports its outcome; otherwise that attempt's end or the spent budget |
| `UpdateLoop.Round` | rust/core-bridge/src/client_protocol.rs:1859-1898 | one round: a retry sleeps to the first reading past the pause if that fits the budget, otherwise the deadline error; any other reply ends the call, an expired budget always under one name |
| `UpdateLoop.ChecksAreSpaced` | rust/core-bridge/src/client_protocol.rs:1790-1796 | attempts are at least the pause apart |
| `AwaitStatus.NoReservedStatus` | rust/core-bridge/src/abi.rs:460-563 | no call future of any kind ends with INVALID_STATE or NOT_READY |
| `AwaitStatus.OnlyNotFoundIsConverted` | rust/core-bridge/src/abi.rs:590-598 | the submitted-call conversion rewrites exactly the not-found failure, the only async failure with a reserved status |
| `AwaitStatus.StatusHasItsCauses` | rust/core-bridge/src/abi.rs:3534-3560 | every status of a failed call future has exactly its causes, code by code |
| `AwaitStatus.SuccessHasItsCauses` | rust/core-bridge/src/abi.rs:460-563 | a call succeeds exactly with what its RPC answered, what was recorded for its activity, or the not-found outcome of a discarded token |
| `AwaitStatus.StartHasAnOutcome` | rust/core-bridge/src/abi.rs:933-956 | a start of a valid request always has an outcome |
| `AwaitStatus.OnlyDropsAreReserved` | rust/core-bridge/src/client_calls.rs:192-220 | of all a completion guard can publish, only what it publishes when dropped without a panic has a reserved status, and only a panic the panic status |
| `AwaitStatus.StatusesAreUnambiguous` | rust/core-bridge/src/client_calls.rs:365-392 | over whole runs, INVALID_STATE means unknown, foreign, retired, closed or aborted, NOT_READY means pending, each exactly then |
| `Base64.DecodeInvertsEncode` | rust/core-bridge/benches/json_bridge.rs:42-58 | decoding inverts encoding on every byte string |
| `Base64.EncodeInvertsDecode` | rust/core-bridge/src/activity_protocol.rs:529-540 | whatever decodes is the encoding of what it decodes to |
| `Base64.AcceptedTokens` | rust/core-bridge/src/activity_protocol.rs:529-540 | a token is accepted iff it is the encoding of a non-empty byte string within 128 MiB, which is unique, and has 4·ceil(n/3) characters |
| `Base64.EncodeChunks` | rust/core-bridge/benches/json_bridge.rs:42-58 | the chunk loop computes the encoding of section 4 of RFC 4648 |
| `Base64.EncodeChunk` | rust/core-bridge/benches/json_bridge.rs:46-56 | its shifts and masks select the right six bits and padding |
| `VisibilityStatus.AcceptedNames` | rust/core-bridge/src/client_protocol.rs:2954-2965 | a name is accepted iff it is "unspecified" or the name of exactly one nonzero 32-bit status |
| `VisibilityStatus.FixedNames` | rust/core-bridge/src/client_protocol.rs:2930-2948 | which number each of the eight fixed names stands for, and only it |
| `VisibilityStatus.NameIsInjective` | rust/core-bridge/src/client_protocol.rs:2930-2948 | distinct statuses have distinct names |
| `VisibilityStatus.ParseInvertsText` | rust/core-bridge/src/client_protocol.rs:2954-2965 | parsing inverts printing on every 32-bit number |
| `LicenseParser.Parser.ParseAll` | scripts/check-cargo-licenses.py:83-139 | the parser with its mutable position terminates and computes the parse of the tokens, errors included |
| `LicenseParser.ParsesExactlyTheGrammar` | scripts/check-cargo-licenses.py:83-139 | a token sequence is accepted with a tree iff the grammar derives it with that tree: OR below AND below WITH below parentheses, OR and AND to the left |
| `LicenseParser.GrammarIsUnambiguous` | scripts/check-cargo-licenses.py:83-139 | no token sequence has two trees |
| `LicenseParser.ParseInvertsPrint` | scripts/check-cargo-licenses.py:83-139 | parsing inverts a parenthesising printer |
| `LicenseParser.ParsedIsOk` | scripts/check-cargo-licenses.py:83-139 | every parsed tree is printable, so the printer covers the parser's range |
| `LicenseErrors.EndMeansIncomplete` | scripts/check-cargo-licenses.py:83-139 | the unexpected end is reported exactly for token sequences that are no expression but begin one |
| `LicenseErrors.OtherErrorsAreFinal` | scripts/check-cargo-licenses.py:83-139 | every other error stays whatever tokens follow |
| `LicensePolicy.EvaluateRefinesDnf` | scripts/check-cargo-licenses.py:142-163 | the short-circuit verdict and choice are those of the first allowed clause of the disjunctive normal form |
| `LicensePolicy.VerdictIsFirstClause` | scripts/check-cargo-licenses.py:142-163 | allowed iff some clause has only allowed terms; the choice is the first such clause |
| `LicensePolicy.ChoiceIsAClause` | scripts/check-cargo-licenses.py:142-163 | allowed or not, the reported choice is one clause of the expression, of a denied OR one of its right side |
| `LicenseText.SpacingIsInvisible` | scripts/check-cargo-licenses.py:63-80 | collapsing whitespace changes no token |
| `LicenseText.ScanAtParenthesis` | scripts/check-cargo-licenses.py:74-80 | a parenthesis is a token of its own wherever it stands |
| `LicenseText.ScanIsTheTokeniser` | scripts/check-cargo-licenses.py:74-80 | the scanner is the only function that keeps words, drops whitespace and splits at parentheses |
| `LicenseText.TokensSpellTheText` | scripts/check-cargo-licenses.py:74-80 | the tokens spell the text without its whitespace, and each is a parenthesis or a word |
| `LicenseText.TextRoundTrip` | scripts/check-cargo-licenses.py:74-139 | the printed text of every tree of plain identifiers is tokenised and parsed back to the tree, and judged as it is |
| `LicenseText.OneLicense` | scripts/check-cargo-licenses.py:142-163 | one identifier is allowed iff it is on the list |
| `LicenseText.OneException` | scripts/check-cargo-licenses.py:142-163 | an exception is allowed only for Apache-2.0, and only the LLVM one |
| `LicenseText.SlashIsOr` | scripts/check-cargo-licenses.py:63-71 | every expression is tokenised as if OR stood for each slash that has something before and after it and does not follow another such slash across whitespace; nothing else changes |
| `LicenseText.ChoiceIsStable` | scripts/check-cargo-licenses.py:142-163 | for every licence string, an allowed choice is itself a licence string that is allowed and reports itself |

## Left out

- Tokio, tonic, Temporal Core and protobuf types: each RPC is an arbitrary result and each task a state.
- Liveness of the spin waits and of joins: only safety is proved; a join waits for tasks told to end, which is all that is claimed.
- OCaml collector movement, signal masks, stderr diagnostics, metrics and telemetry.
- The `extern "C"` entry points, the `CAMLprim` wrappers, Serde decoding and identifier length checks of request documents: each is one branch.
- Worker configuration ranges, CI, SBOM, notices, packaging and smoke-artifact scripts.
- Shutdown draining of the worker's ledger (tombstones, forced completions, lost poll leases): lease theorems hold before draining.
- The heartbeat throttle's own scheduling: its drivers appear as tasks, its admissions as arbitrary results.
- RuntimeGraph.Runtime.ConnectClient: the URL and identity checks are two booleans of the configuration.
- ActivityLeases.TakeIsClear: the ready queue is a value, its wake-up signal is not modelled.
- Reading Cargo metadata, the lock file and the report of the licence script.

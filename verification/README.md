# Verified model of the Travis agent engine and artifact store

This project models four parts of Travis and proves properties of them for all
inputs, all runs and all interleavings.

**The agent run engine.** A run is a loop of turns.  Each turn injects queued
messages, streams one assistant response from a provider that may send anything,
and answers the response's tool calls one at a time or through a pool of workers
on a shared queue.  `AgentLoop` and `Agents` are the imperative loop over the
conversation in its three places (the loop's context, the returned list, the
agent's own state, which only sees events).  Other threads may abort the run and
add to its queues between any two steps.  `WorkerPool` is the pool as a step
system; `ToolBatches` lets the loop drive it along an arbitrary schedule.  Tools,
hooks and the provider are given functions and scripts.

**The durable artifact store.** `ArtifactGc` interleaves promotion, forking,
recovery, deletion and collection, one file-system operation at a time, where a
fork takes no maintenance lock; `ArtifactGcSafety` and `ArtifactGcLosses` say when
an object can be lost.  `Json` models the JSON text that `json.dumps` writes and the
recursive descent of `json.loads`; on it rest the manifest's records, files and
its two readers, and what a torn append leaves.  `ArtifactManifests`,
`ArtifactStores` and `ArtifactRegistries` are the classes themselves.

**Concurrency control.** `RunControl` (begin, finish, reset, abort), `ToolUpdates`
and `ToolUpdatesEdges` (the bounded progress relay), `ModelRefresh` (single-flight
refresh) and `MaintenanceLock` are step systems whose theorems hold of every run.

The theorems about the relay hold of every order in which ready tasks may run.
`ToolUpdatesLoop` adds the event loop of asyncio, which runs them first in, first out,
as a queue of ready tasks: every run of it is one of those schedules, and what can go
wrong at close has its exact condition on that loop (`ToolUpdatesLoopEdges`).

**Small algorithms.** `Coercion` and `Coercer` (recursive schema coercion),
`CatalogPromotion` and `CatalogApply` (drift detection and promotion).

Check everything with `dafny verify dfyconfig.toml`.

## What turned out false

Some stronger claims do not hold of the code.  Each has a concrete run or input
that shows it, and the exact condition under which the claim does hold.

- `Agent.reset` looks at the lease and writes later without a lock, so a reset
  that races a begin leaves a run active but not streaming
  (`RunControl.ResetCanRaceABegin`); a live run's flags agree exactly when no reset
  wrote after the run set them (`RunControl.FlagsAgreeIff`).  The same write costs the
  agent the history it had, exactly when it had any
  (`AgentState.LateResetCanLoseHistory`, `AgentState.LateResetLosesHistoryIff`).
- `Agent.reset_abort_signal` can in the same way swap the signal of a run, so that
  an abort misses the run (`RunControl.RenewalCanHideAnAbort`); an abort reaches its
  run exactly when no thread swapped the signal since the run was given it, or the
  run had been aborted before (`RunControl.AbortReachesTheRunIff`).
- A manifest whose last record lacks only its newline loads leniently without
  being repaired.  A whole append behind it runs the two records together, after
  which the file never loads again (`ManifestAppends.AppendBehindUnterminated`); a
  torn one takes the earlier record along when the tail is put aside
  (`ManifestAppends.TornBehindUnterminatedLosesTheRecord`).  The exact condition
  for an append to go well is `ManifestAppends.AppendLoadsIff`.
- That recovery can cost a live object: a fork that read the record before still
  carries its digest, and a collection takes the object
  (`ArtifactGcTheorems.RecoveryCanLoseAForkedObject`), exactly when
  `ArtifactGcLosses.RecoveryLosesIff` says.
- Deleting a manifest, as the clean-up after a failed branch or import does
  (`session_persistence.py:205-206`, `agent_session_runtime.py:286-287` and `308`),
  can do the same (`ArtifactGcTheorems.DeletionCanLoseAForkedObject`), exactly when
  `ArtifactGcLosses.DeletionLosesIff` says.  Every step but these two is safe
  (`ArtifactGcTheorems.LiveObjectsSurvive`).
- A record does not come back unchanged when one of its free texts holds a high
  surrogate and a low surrogate as two characters: they come back as one
  (`ManifestAppends.WriteLoadIff`), and appending such an entry again is refused
  as a duplicate (`ArtifactManifests.ReappendIsNoOpIff`).
- A progress relay can be closed without an error and leave the accepted update of a
  waiting producer behind, even when the queue has room for all who wait: `join` does
  not suspend when nothing is unfinished, so the sentinel goes in before a producer that
  was woken and has not run (`ToolUpdatesLoopEdges.StragglerIsOvertaken`, at every
  capacity).  The exact condition is `ToolUpdatesLoopEdges.InOrderLeavesBehindIff`; while
  fewer producers wait than the queue has places, close is safe exactly when nobody
  waits or something is unfinished (`ToolUpdatesLoopEdges.FewWaitersAreServedIff`).
- Closing can also fail because waiting producers take all the room before the sentinel
  (`ToolUpdatesLoopEdges.StragglersCanBreakClose`, at every capacity), exactly when
  `ToolUpdatesLoopEdges.InOrderQueueFullIff` says.
- The overflowed update can be older than updates delivered before it
  (`ToolUpdatesLoopEdges.OverflowCanBeStale`), exactly when an update was accepted after
  the last overflow (`ToolUpdatesEdges.DeliveryIsOutOfOrderIff`).
- Coercion is not idempotent under alternatives (`Coercion.UnionsNeedNotRest`); with
  alternatives of one type each it is, for every value, exactly when no type takes back
  what a later one gives to a value that those before it refuse
  (`Coercion.AlternativesRestIff`); for other plain alternatives and a given value,
  `Coercion.UnionRestsIff` says when.
- A refresh callback that calls `refresh` itself waits for its own flight for ever, and
  so does everybody who joins that flight (`ModelRefresh.RefreshCanWaitForItself`,
  `ModelRefresh.EntangledForEver`); a waiter
  can be served exactly when this has not happened (`ModelRefresh.WaitersAreServedIff`).
- A promoted model drifts from the reference exactly at a field that Python finds
  unequal to itself (`CatalogApply.PromotedModelsDoNotDrift`), such as a bare NaN
  (`CatalogApply.PromotedNanDrifts`).

## Model

| member | source | states |
|---|---|---|
| WorkerPoolTheorems.EveryScheduleMatchesSequential | travis/agent/agent_loop.py:609-678 | for every interleaving of the scheduling loop, the workers and an abort, a finished pool holds one outcome per call for a source-order prefix of the calls; without an abort it holds exactly the sequential answer, each ready body ran once, and every worker took one end marker |
| WorkerPoolTheorems.BodiesAreBounded | travis/agent/tool_coordinator.py:32-45 | at every step of every schedule at most the configured number of bodies run, on at most that many workers, and none was started twice |
| WorkerPoolTheorems.NoBodyStartsAfterAbort | travis/agent/tool_coordinator.py:38-40 | once the abort is visible no further body starts, in any schedule |
| WorkerPoolTheorems.NeverStuck | travis/agent/agent_loop.py:609-678 | a pool that is not done always has a step to take that is not an abort |
| WorkerPoolTheorems.EveryScheduleEnds | travis/agent/agent_loop.py:609-678 | no schedule is longer than a bound known at its start, so every fair or unfair schedule ends |
| WorkerPoolTheorems.DoneMeansStored | travis/agent/agent_loop.py:654-678 | when the pool is done the queue is empty, no scheduled slot is empty, and no execution is left open |
| WorkerPoolProofs.StepKeepsInv | travis/agent/agent_loop.py:609-678 | every step of the pool keeps queue order, slots, worker ownership, permits, body counts and the event trace in agreement |
| ToolOutcomes.BatchIsUnique | travis/agent/agent_loop.py:579-606 | without an abort a batch has one possible answer, so the sequential and the parallel executor agree |
| ToolOutcomes.Prepare | travis/agent/agent_loop.py:696-745 | an aborted, unknown, rejected or blocked call is answered at once with an error under its own id, and no other call is prepared under an abort |
| ToolBatches.FailTruncated | travis/agent/agent_loop.py:525-546 | every call of a truncated message gets one error result in source order and no body runs |
| ToolBatches.ExecutePrepared | travis/agent/agent_loop.py:759-838 | the body starts at most once, not at all when an abort is visible at the boundary, and its updates lie inside its open execution |
| ToolBatches.ExecuteOne | travis/agent/agent_loop.py:685-693 | one call is announced, executed, ended and answered, and its outcome is one its preparation and its tool allow |
| ToolBatches.ExecuteSequential | travis/agent/agent_loop.py:579-606 | the sequential loop answers a source-order prefix, all of it unless aborted, with the messages it emits |
| ToolBatches.ExecuteParallel | travis/agent/agent_loop.py:609-678 | the parallel executor, whatever its schedule, meets the same contract as the sequential one |
| ToolBatches.ExecuteToolCalls | travis/agent/agent_loop.py:549-576 | the chosen executor answers the batch; when the configuration or a tool asks for one call at a time, no two executions are open at once and at most one body starts per answer |
| ToolBatches.DrivePool | travis/agent/agent_loop.py:609-678 | driving the pool along any schedule ends it and leaves the run's trace bracketed, with nothing open |
| AgentEvents.OneStartOneEnd | travis/agent/agent_loop.py:119-141 | a finished bracketed trace has exactly one agent_start, at its head, and one agent_end, at its end |
| AgentEvents.OpenIffStartedNotEnded | travis/agent/agent_loop.py:579-693 | inside a turn an execution is open exactly from its own start to its own end |
| AgentEvents.ToolEventsLieInside | travis/agent/agent_loop.py:759-838 | every update and end lies after its own call's start and before its end, and a call starts and ends at most once |
| AgentEvents.ToolEventsLieInTheirTurn | travis/agent/agent_loop.py:579-693 | in a whole run's trace, every start, update and end of a tool execution belongs to a turn of its own: updates and ends lie after their call's start and before its end in that turn, and a call starts at most once there |
| AgentEvents.TurnsEndTheirTools | travis/agent/agent_loop.py:178-268 | in a whole run's trace, every execution that a turn starts has ended when the turn ends |
| AssistantResponse.StreamAssistantResponse | travis/agent/agent_loop.py:277-388 | for any provider event sequence and an abort at any point, exactly one assistant message joins the context, with one start, one end and only updates between, and it is the provider's answer or the cut at some open prefix |
| AssistantResponse.ConsumeEvent | travis/agent/agent_loop.py:315-359 | one event advances the partial message or settles the response, by the guard's verdict, the terminal event or an abort |
| AssistantResponse.Finalize | travis/agent/agent_loop.py:435-499 | the final message takes the place of the partial one, or is started and ended itself |
| StreamProtocol.AssistantStreamProtocol.Accept | travis/agent/stream_protocol.py:30-43 | the guard's answer and new state for every event in every state |
| StreamProtocol.ViolationCharacterised | travis/agent/stream_protocol.py:23-43 | consumption ends in a violation exactly when some event before any terminal one is a second start or an update before the start |
| StreamProtocol.FaultsBecomeErrors | travis/agent/agent_loop.py:370-386 | every protocol fault and every wrongly typed result makes a message with stop reason error; otherwise the message is the provider's own |
| AgentLoop.RunTurn | travis/agent/agent_loop.py:194-235 | a turn adds the same messages to context, returned list and trace, answers its calls, and is complete unless it failed or was aborted |
| AgentLoop.CloseTurn | travis/agent/agent_loop.py:216-235 | the calls of an unbroken message are answered in order, all of them unless aborted, and the turn is closed |
| AgentLoop.AnswerCalls | travis/agent/agent_loop.py:216-229 | results answer a source-order prefix of the calls, all of them unless aborted; a truncated message runs no body |
| AgentLoop.Inject | travis/agent/agent_loop.py:200-206 | pending messages reach context, returned list and trace in order |
| AgentLoop.PassTurn | travis/agent/agent_loop.py:194-260 | one pass books its turn in the ledger and either ends the run with its returned list or polls the steering queue once |
| AgentLoop.RunLoop | travis/agent/agent_loop.py:178-268 | over a whole run the three histories grow by the same messages, each queue's drained messages are exactly those injected in order, every turn but the last is settled, and the run ends with its returned list |
| AgentLoop.EveryCallAnswered | travis/agent/agent_loop.py:178-268 | in the conversation itself, every assistant message is followed at once by one result per call in source order; only a last message that failed or was aborted can lack some |
| AgentLoop.TurnStands | travis/agent/agent_loop.py:178-268 | where each turn's message and results stand among the messages of the run |
| AgentLoop.DrainedOnceEach | travis/agent/agent_loop.py:189-266 | every message drained from a queue stands in the conversation exactly as often as it was drained |
| AgentState.HistoryGrowsByEnds | travis/agent/agent.py:453-465 | the agent's history grows by exactly the messages of the message_end events, whatever the trace |
| AgentState.QuietAtTurnEnd | travis/agent/agent.py:453-469 | at every turn_end of a bracketed trace the agent has no pending call and no streaming message |
| AgentState.ReplayCoherent | travis/agent/agent.py:453-469 | the agent's streaming message and pending calls agree with what is open in the trace |
| AgentState.LateResetLosesHistoryIff | travis/agent/agent.py:235-243 | a reset that writes into a run leaves the agent the messages ended after it and no others, with nothing streaming or pending that is not open; the history is whole exactly when there was none before |
| AgentState.LateResetCanLoseHistory | travis/agent/agent.py:235-243 | a run whose agent loses the message it had to a reset that writes after the run's first event |
| AgentState.State.ProcessEvent | travis/agent/agent.py:453-469 | the new state for every event |
| LoopRuns.RecordIsReplay | travis/agent/agent.py:429-469 | the state kept event by event is the state from replaying the whole trace |
| LoopRuns.LoopRun.Emit | travis/agent/agent.py:429-469 | an event goes to the trace and to the agent's state together |
| Agents.Agent.BeginRun | travis/agent/agent.py:408-416 | a begin is refused without a change while a run is active; otherwise it has a fresh unaborted signal and a clean streaming state |
| Agents.Agent.FinishRun | travis/agent/agent.py:418-427 | finishing keeps the history and leaves the agent idle |
| Agents.DriveRun | travis/agent/agent_loop.py:119-268 | a finished run's trace is bracketed, its message_end messages, its returned list and the context's suffix are one sequence, and the agent's history is its old one followed by it |
| Agents.Prompt | travis/agent/agent.py:307-338 | a prompt while a run is active changes nothing; otherwise the run accounts for history, trace, returned list and both queues |
| Agents.ChooseStart | travis/agent/agent.py:350-366 | a continuation takes steering before follow-up messages, skips the first poll only after steering, and drains nothing otherwise, with messages arriving between the two drains |
| Agents.Continue | travis/agent/agent.py:343-388 | continuing accounts for the messages it took itself; a refused continuation leaves history and queues as they were |
| PendingQueues.PendingMessageQueue.Drain | travis/agent/agent.py:53-63 | a drain hands over the front of the queue, all of it or one message, and keeps first-in first-out conservation |
| PendingQueues.PendingMessageQueue.Enqueue | travis/agent/agent.py:45-47 | a message joins the back and conservation is kept |
| PendingQueues.PendingMessageQueue.RemoveWhere | travis/agent/agent.py:69-76 | removal splits the queue in order and loses nothing |
| PendingQueues.SelectSplits | travis/agent/agent.py:69-76 | what is removed and what is kept make up the queue |
| AbortSignals.AbortSignal.Abort | travis/agent/types.py:40-51 | the bit is set for good and each waiting callback fires once |
| AbortSignals.AbortSignal.AddCallback | travis/agent/types.py:53-68 | a callback waits, or fires at once when the signal is set; never both |
| RunLeases.RunLease.Acquire | travis/agent/run_lease.py:24-31 | a token never given before, or none and no change while the lease is held |
| RunLeases.RunLeaseToken.Release | travis/agent/run_lease.py:37-56 | only the token that holds the lease frees it, and only once |
| RunLeases.StaleTokenIsHarmless | travis/agent/run_lease.py:37-56 | over any later history of the lease, releasing the stale token counts for nothing |
| RunControl.StepKeepsInv | travis/agent/agent.py:408-427 | every step of every thread keeps lease, token and running thread in agreement |
| RunControl.RunsAreExclusive | travis/agent/agent.py:408-427 | at most one thread runs the agent in every reachable state |
| RunControl.RejectedBeginChangesNothing | travis/agent/run_lease.py:24-31 | a begin refused because a run is active leaves the state as it was |
| RunControl.StaleReleaseChangesNothing | travis/agent/run_lease.py:37-43 | releasing an earlier run's token changes nothing, in every reachable state |
| RunControl.FlagsAgree | travis/agent/agent.py:408-427 | lease, streaming flag and idle event agree between lock sections of every run in which no reset writes into an active run |
| RunControl.ResetWriteKeepsAgreementIff | travis/agent/agent.py:235-243 | a reset's write of the streaming flag keeps lease, flag and idle event in agreement exactly when no run is active |
| RunControl.ResetCanRaceABegin | travis/agent/agent.py:235-243 | a reachable state with a run active and not streaming |
| RunControl.RunsStartUnaborted | travis/agent/agent.py:408-416 | every run starts with a signal that never was the agent's before and is not aborted |
| ToolUpdates.QueueIsBounded | travis/agent/tool_updates.py:25-47 | the queue never exceeds its bound, in any run |
| ToolUpdates.CloseDelivers | travis/agent/tool_updates.py:54-86 | for every schedule, a closed relay has handed over accepted updates in acceptance order with at most the last overflowed one among them; without a failure all that were accepted when close began, then the overflowed one, and only updates of producers still waiting then can be left behind |
| ToolUpdates.FailureEndsDelivery | travis/agent/tool_updates.py:54-86 | after a sink failure nothing more is emitted, in any run, and close will raise |
| ToolUpdates.CloseProgresses | travis/agent/tool_updates.py:68-86 | in every run a closing relay has a step to take, and each step of its consumer, closer or waiting producers leaves less to do |
| ArtifactGcSafety.StepKeepsInv | travis/coding_agent/artifact_gc.py:36-93 | every step of promotion, fork, recovery and collection but one that loses a name keeps every named digest stored and keeps the store out of danger |
| ArtifactGcTheorems.LiveObjectsSurvive | travis/coding_agent/artifact_gc.py:36-93 | at every point of every interleaving, appends behind unterminated records included, every digest named in any manifest has its object, as long as each step that loses a name finds no fork in flight and no scan in progress resting on that name alone |
| ArtifactGcTheorems.BadManifestDeletesNothing | travis/coding_agent/artifact_gc.py:46-63 | a collection that meets a manifest which is gone, unreadable, corrupt anywhere or badly ended deletes nothing, then or later, whatever is deleted, recovered, forked or appended meanwhile |
| ArtifactGcTheorems.CompletedLeavesTheReferenced | travis/coding_agent/artifact_gc.py:65-93 | a completed collection leaves exactly the objects it has seen some manifest name, with their bytes, whatever is deleted or recovered meanwhile |
| ArtifactGcTheorems.CompletedLeavesExactlyTheNamed | travis/coding_agent/artifact_gc.py:65-93 | a completed collection during which no name is lost leaves exactly the named objects, with their bytes |
| ArtifactGcTheorems.QuotasHold | travis/coding_agent/artifact_store.py:119-173 | in every reachable store each object is filed under its own digest and bytes and count stay within the limits |
| ArtifactGcTheorems.DeletionCanLoseAForkedObject | travis/coding_agent/artifact_manifest.py:95-123 | a run in which a fork ends up naming a collected object |
| ArtifactStores.DurableArtifactStore.Promote | travis/coding_agent/artifact_store.py:119-173 | success is a verified object of that digest and size; present content changes nothing; exactly when it fails; quotas are kept |
| ArtifactStores.DurableArtifactStore.Verify | travis/coding_agent/artifact_store.py:175-188 | succeeds exactly for an object that carries its own digest |
| ArtifactStores.DurableArtifactStore.PhysicalUsage | travis/coding_agent/artifact_store.py:194-211 | the sum of the objects' sizes and their number |
| ArtifactStores.DurableArtifactStore.Collect | travis/coding_agent/artifact_gc.py:36-93 | completes exactly when every manifest reads and no stray entry lies in the store; deletes exactly the unnamed objects, or nothing; reports them in order |
| ArtifactStores.DigestsOfMeans | travis/coding_agent/artifact_gc.py:43-53 | the referenced digests are those of the manifests that could be read |
| JsonRoundTrip.ValueReads | travis/coding_agent/artifact_manifest.py:320-321 | a written value reads back wherever it stands in a text, with split surrogate pairs joined and nothing else changed |
| JsonRoundTrip.RoundTrip | travis/coding_agent/artifact_manifest.py:320-321 | what json.dumps writes, json.loads reads, floats with the text of a float included |
| JsonRoundTrip.JoinedIff | travis/coding_agent/artifact_manifest.py:320-321 | joining changes a text exactly when it holds a split pair |
| JsonRoundTrip.WrittenIsPrintable | travis/coding_agent/artifact_manifest.py:320-321 | a record's text is one line of printable ASCII |
| JsonRoundTrip.LoadedIsJoined | travis/coding_agent/artifact_manifest.py:137 | whatever was read has no split pair left |
| JsonExtends.ValueExtends | travis/coding_agent/artifact_manifest.py:137 | a text that begins with a value still begins with that value when more text follows |
| JsonExtends.NoPrefixLoads | travis/coding_agent/artifact_manifest.py:136-145 | no proper prefix of an object's text is JSON |
| JsonExtends.GluedNeverLoads | travis/coding_agent/artifact_manifest.py:136-146 | an object followed by more than space is not JSON |
| ManifestRecords.FromToRecord | travis/coding_agent/artifact_manifest.py:254-293 | decoding an encoded entry gives it back |
| ManifestRecords.FromRecord | travis/coding_agent/artifact_manifest.py:271-293 | whatever decodes is a valid entry |
| ManifestRecords.RecordRoundTrip | travis/coding_agent/artifact_manifest.py:254-293 | the text of a valid entry's record reads back as the entry, split pairs joined |
| ManifestRecords.JoinedEntryIff | travis/coding_agent/artifact_manifest.py:254-293 | an entry comes back unchanged exactly when no free text holds a split pair |
| ManifestReaders.StrictIffWholeLoad | travis/coding_agent/artifact_manifest.py:125-235 | for every file, the strict reader accepts exactly what the lenient one loads whole with its last record terminated, with the same entries |
| ManifestReaders.RecoveryKeepsTheRest | travis/coding_agent/artifact_manifest.py:136-145 | for every file, kept bytes and quarantined tail make up the original, and both readers then accept the kept file with the loaded entries |
| ManifestReaders.FoldIsSound | travis/coding_agent/artifact_manifest.py:147-160 | entries read from any file are valid, have distinct ids and survive being written again |
| ManifestAppends.WriteLoad | travis/coding_agent/artifact_manifest.py:119-160 | any valid entries with distinct ids, written as a file, are read by both readers |
| ManifestAppends.WriteLoadIff | travis/coding_agent/artifact_manifest.py:119-160 | and come back unchanged exactly when none holds a split pair |
| ManifestAppends.WholeAppend | travis/coding_agent/artifact_manifest.py:169-184 | an append to a clean file adds its entry for both readers and leaves the file clean |
| ManifestAppends.TornAppend | travis/coding_agent/artifact_manifest.py:136-145 | an append cut anywhere before its closing brace is undone exactly by the next load, and the strict reader refuses the file until then |
| ManifestAppends.UnterminatedAppend | travis/coding_agent/artifact_manifest.py:214-219 | an append that lost only its newline loads leniently and is refused strictly |
| ManifestAppends.AppendBehindUnterminated | travis/coding_agent/artifact_manifest.py:136-146 | an append behind an unterminated record makes the file unreadable for both readers, at that line |
| ManifestAppends.AppendLoadsIff | travis/coding_agent/artifact_manifest.py:78-93 | a loadable file still loads after an append exactly when it ends in a line break or in nothing but spaces and tabs |
| ManifestAppends.TornBehindUnterminatedLosesTheRecord | travis/coding_agent/artifact_manifest.py:136-145 | a record that had been loaded is put aside with a torn one behind it |
| ArtifactManifests.ArtifactManifest.LoadUnlocked | travis/coding_agent/artifact_manifest.py:125-160 | the loop computes the lenient reading, moves a torn tail aside and keeps the index in agreement |
| ArtifactManifests.ArtifactManifest.Append | travis/coding_agent/artifact_manifest.py:78-93 | for every file and entry: refused, already there, over a limit, or written behind what the load kept |
| ArtifactManifests.ArtifactManifest.ForkTo | travis/coding_agent/artifact_manifest.py:95-123 | a fork holds exactly the reachable entries, and the strict reader accepts its file with them; when it is refused |
| ArtifactManifests.ReadArtifactManifestStrict | travis/coding_agent/artifact_manifest.py:203-235 | the loop computes the strict reading |
| ArtifactManifests.SelectedMeans | travis/coding_agent/artifact_manifest.py:296-310 | an entry is selected exactly when it is in the manifest and reachable |
| ArtifactManifests.ReappendIsNoOpIff | travis/coding_agent/artifact_manifest.py:82-89 | appending an entry again is a no-op exactly when it holds no split pair |
| ArtifactRegistries.ArtifactRegistry.constructor | travis/coding_agent/artifacts.py:40-70 | every entry of the manifest is a durable reference that close will not remove |
| ArtifactRegistries.ArtifactRegistry.Register | travis/coding_agent/artifacts.py:76-109 | a known path keeps its id and is never again removed on close once it was to be kept; both indexes agree |
| ArtifactRegistries.ArtifactRegistry.Promote | travis/coding_agent/artifacts.py:111-152 | an issued id stays, the object is stored before it is authorised, and a refusal leaves both indexes as they were |
| ArtifactRegistries.StoreAndAuthorise | travis/coding_agent/artifacts.py:128-142 | nothing stored is lost, at most one object is new, and a failed store leaves the manifest alone |
| ArtifactRegistries.ArtifactRegistry.Close | travis/coding_agent/artifacts.py:203-218 | exactly the registered paths not to be kept are removed, so no promoted reference is |
| ArtifactRegistries.ArtifactRegistry.ResolveRead | travis/coding_agent/artifacts.py:154-166 | a durable id opens its object only while the manifest names it and the store verifies it, another id its own path, and a closed registry nothing |
| MaintenanceLock.OneThreadInside | travis/coding_agent/artifact_store.py:62-106 | for any nesting and interleaving of threads and processes one thread is inside at most, with the file locked |
| MaintenanceLock.DescriptorMeansDepth | travis/coding_agent/artifact_store.py:62-106 | the descriptor is held exactly while the depth is positive |
| MaintenanceLock.StepKeepsInv | travis/coding_agent/artifact_store.py:62-106 | every step keeps mutex, depth, descriptor and file lock in agreement |
| ModelRefresh.OneCallbackAtATime | travis/ai/models.py:134-161 | at most one refresh callback runs at a time, for any callers |
| ModelRefresh.ReturnsWithItsFlightsOutcome | travis/ai/models.py:144-161 | nobody returns before their own flight settled, each with its outcome, and refreshed models were published before |
| ModelRefresh.KeepsItsFlight | travis/ai/models.py:137-148 | a caller waits for the flight it entered and no other |
| ModelRefresh.OutcomesStay | travis/ai/models.py:149-161 | a flight's outcome is never replaced |
| ModelRefresh.OnlyPublishingChangesTheModels | travis/ai/models.py:149-156 | models change only when a flight publishes, so a failure leaves them as they were |
| ModelRefresh.WaitersAreServedIff | travis/ai/models.py:144-161 | a waiter can wake, or the owner of its flight can step towards its return, exactly when that flight's callback has not called refresh itself |
| ModelRefresh.EntangledForEver | travis/ai/models.py:134-161 | a flight whose callback calls refresh itself never settles, and whoever waits for it waits for ever |
| ModelRefresh.RefreshCanWaitForItself | travis/ai/models.py:134-161 | a run in which a callback refreshes, so that its owner and the next caller wait for its own flight |
| Coercion.Idempotent | travis/ai/validation.py:277-297 | under a schema without allOf, anyOf and oneOf at any depth, coercing twice is coercing once |
| Coercion.CoercionChangesOnlyTypedLeaves | travis/ai/validation.py:225-297 | such a coercion keeps keys and lengths and changes only leaves, each into a type its own schema lists |
| Coercion.TypesRest | travis/ai/validation.py:225-234 | coercion by types changes a value only into a listed type, leaves containers alone, and then rests |
| Coercion.PrimitiveMatches | travis/ai/validation.py:141-214 | each scalar coercion leaves the value alone or gives its own type |
| Coercion.UnionsNeedNotRest | travis/ai/validation.py:217-222 | with boolean or integer, "1" becomes 1 and 1 becomes true |
| Coercer.CoerceWithJsonSchema | travis/ai/validation.py:277-297 | the recursive descent computes the specified value |
| Coercer.CoerceObjectProperties | travis/ai/validation.py:237-256 | overwriting entries one by one, in any order of the extra keys, gives the specified object |
| Coercer.CoerceArrayItems | travis/ai/validation.py:259-274 | overwriting items one by one gives the specified array |
| Coercer.CoerceWithUnionSchema | travis/ai/validation.py:217-222 | the first alternative that its own coercion satisfies wins |
| Coercer.CoerceSchemaTypes | travis/ai/validation.py:225-234 | the loop finds the first type that changes the value |
| CatalogPromotion.ValidateIff | travis/ai/catalog_generation.py:71-100 | exactly the payloads of valid catalogs are accepted, each as its own catalog |
| CatalogPromotion.ComparePiCatalogs | travis/ai/catalog_generation.py:103-185 | the comparison reports exactly the drift there is, of all seven kinds, each once and in key order |
| CatalogPromotion.CompareModel | travis/ai/catalog_generation.py:136-183 | the drift at one model is reported and no other |
| CatalogApply.ApplyPiPromotions | travis/ai/catalog_generation.py:254-317 | succeeds exactly when every promotion goes through; the result is a valid catalog and the sorted labels of the promotions |
| CatalogApply.AppliedIsValid | travis/ai/catalog_generation.py:316 | the final check of the updated catalog can never fail |
| CatalogApply.AppliedIff | travis/ai/catalog_generation.py:279-315 | promotions of distinct models go through exactly when each fits the current catalog by itself |
| CatalogApply.PromotedAsWanted | travis/ai/catalog_generation.py:283-314 | every promoted model ends as its promotion asks |
| CatalogApply.OthersUnchanged | travis/ai/catalog_generation.py:277-315 | models outside the promoted scopes are unchanged |
| CatalogApply.OrderDoesNotMatter | travis/ai/catalog_generation.py:279-315 | the same promotions in another order are refused together or give the same catalog |
| CatalogApply.PromotedModelsDoNotDrift | travis/ai/catalog_generation.py:103-185 | comparing the result with the reference reports nothing at an added or updated model, but for a field unequal to itself |
| CatalogApply.LoadPromotions | travis/ai/catalog_generation.py:224-251 | the entries load exactly when there are some, each is acceptable and no two name the same model |
| ArtifactGcLosses.UnsafeReachableIff | travis/coding_agent/artifact_gc.py:36-93 | some continuation without a further loss leaves a named digest without its object exactly when a fork carries an unnamed digest that a collection can take, or a scan that can succeed overlooks a named one, or a named one is about to be unlinked |
| ArtifactGcLosses.RecoveryLosesIff | travis/coding_agent/artifact_manifest.py:136-145 | recovering a tail that takes an unterminated record along can lose an object exactly when nothing else blocks collection and a fork in flight, or a scan in progress, rests on that record |
| ArtifactGcLosses.DeletionLosesIff | travis/coding_agent/session_persistence.py:202-208 | deleting a manifest can lose an object exactly when nothing else blocks collection and a fork in flight, or a scan in progress, rests on that manifest alone |
| ArtifactGcTheorems.RecoveryCanLoseAForkedObject | travis/coding_agent/artifact_manifest.py:169-200 | an append that lost its newline, a second one cut short behind it and the recovery of both: a run in which a fork ends up naming a collected object |
| RunControl.FlagsAgreeIff | travis/agent/agent.py:235-243 | in every run, a live run has lease, streaming flag and idle event in agreement exactly when no reset wrote after it set its flag |
| RunControl.SignalIsOwnIff | travis/agent/agent.py:224-230 | the agent's signal is its run's own exactly as long as no thread swapped it after the run was given it, in every run |
| RunControl.AbortReachesTheRunIff | travis/agent/agent.py:221-230 | an abort during a run reaches that run exactly when no thread swapped the signal since, or it had been aborted before |
| RunControl.SwapKeepsSignalIff | travis/agent/agent.py:224-230 | a swap outside the lock leaves a run its signal exactly when no run is active |
| RunControl.RenewalCanHideAnAbort | travis/agent/agent.py:221-230 | a run in which an abort misses the active run, whose signal stays unaborted |
| ToolUpdates.CloseDeliversAll | travis/agent/tool_updates.py:54-86 | once producers have finished, close delivers exactly the accepted updates in order and then the last overflowed one |
| ToolUpdates.FirstFailureStays | travis/agent/tool_updates.py:54-86 | once producers have finished, the failure that close raises is the first one |
| ToolUpdatesEdges.QueueFullIff | travis/agent/tool_updates.py:49-83 | if ready tasks may run in any order, closing can fail for want of room for its sentinel exactly when at least as many producers wait as the queue has places |
| ToolUpdatesLoopEdges.StragglersCanBreakClose | travis/agent/tool_updates.py:49-83 | at every capacity, a run of a first in, first out loop from its start in which close fails for want of room though no emission did |
| ToolUpdatesEdges.AnyOrderLeavesBehindIff | travis/agent/tool_updates.py:49-86 | from any open relay, if ready tasks may run in any order, a close that ends well can leave an accepted update undelivered exactly when a producer is waiting and the sink has not failed |
| ToolUpdatesLoop.RunsAreSteps | travis/agent/tool_updates.py:49-86 | every run of the relay's tasks on a first in, first out event loop is one of the schedules that the other theorems speak of |
| ToolUpdatesLoop.RunsKeepInv | travis/agent/tool_updates.py:33-86 | every turn of the loop keeps tasks, wake-ups and relay in agreement: a producer waits unwoken only while the queue is full or will be, and the consumer never waits beside an item |
| ToolUpdatesLoopEdges.InOrderQueueFullIff | travis/agent/tool_updates.py:68-83 | on a first in, first out loop, from any state between two tasks, a close can fail for want of room for its sentinel exactly when something is unfinished and at least as many producers as the queue has places are left over once it has been worked off, or nothing is, that many wait and an overflowed update is to be emitted |
| ToolUpdatesLoopEdges.InOrderLeavesBehindIff | travis/agent/tool_updates.py:68-86 | on such a loop, from any state between two tasks, a close that ends well can leave an accepted update undelivered exactly when no emission has failed and either nothing is unfinished and a producer waits, or an overflowed update is to be emitted and more producers than the queue has places are left over once it has been worked off |
| ToolUpdatesLoopEdges.FewWaitersAreServedIff | travis/agent/tool_updates.py:68-86 | on such a loop, while fewer producers wait than the queue has places and no emission has failed, a close is sure to deliver all that is accepted and to find room exactly when nobody waits or something is unfinished |
| ToolUpdatesLoopEdges.StragglerIsOvertaken | travis/agent/tool_updates.py:49-86 | at every capacity, a run of such a loop from its start in which close ends well and the accepted update of the one waiting producer is never delivered |
| ToolUpdatesEdges.DeliveryIsOutOfOrderIff | travis/agent/tool_updates.py:41-47 | once producers have finished, something was delivered before an older update exactly when an update was accepted after the last overflow |
| ToolUpdatesLoopEdges.OverflowCanBeStale | travis/agent/tool_updates.py:41-47 | at every capacity, a run of a first in, first out loop from its start that delivers an older update after newer ones |
| Coercion.UnionRestsIff | travis/ai/validation.py:217-222 | coercing by plain alternatives rests at once exactly when the first alternative that accepts the result leaves it as it is; the one that gave it always accepts it again |
| Coercion.AlternativesRestIff | travis/ai/validation.py:217-222 | alternatives of one type each, any number of them, bring every value to rest at once exactly when no type takes back what a later one gives to a value that those before it refuse, which the list of types alone decides |
| ToolBatches.SettleCall | travis/agent/agent_loop.py:685-745 | an announced call is prepared, run and finalized to an outcome its preparation and tool allow, inside its open execution |
| ManifestRecords.DecodesIff | travis/coding_agent/artifact_manifest.py:271-293 | a value decodes to an entry exactly when the entry is valid and the value agrees with the entry's own record on every key |
| CatalogApply.LoadPromotionSet | travis/ai/catalog_generation.py:214-251 | a promotion manifest loads exactly when it names a full commit and its promotions load |
| CatalogApply.PromotedNanDrifts | travis/ai/catalog_generation.py:172-183 | a concrete promotion whose record drifts at once, at a bare NaN |

## Left out

- Provider transports, authentication, the terminal interface, sessions,
  compaction and process control: input, output and plumbing around what is modelled.
- Exceptions thrown by hooks, iterators or sinks, task cancellation and
  `_handle_run_failure`: the claims about a run are scoped to runs without them.
- Hooks that replace the context or the configuration between turns, and the
  `should_stop_after_turn` context: a turn's stop answer is an input.
- Times, the event arguments and reason codes, and the provider metadata of messages.
- AgentLoop.RunLoop: does not say that a run ends, because queued messages and the
  provider may keep it going; it is watched up to any number of turns.
- ToolBatches.ExecutePrepared: emits a tool's updates one after another inside the
  call; their queueing and overflow are the module ToolUpdates.
- ArtifactGcTheorems.LiveObjectsSurvive: does not cover manifests imported from
  elsewhere, which may name absent objects.
- ArtifactGcTheorems.CompletedLeavesExactlyTheNamed: speaks of collections during
  which no name is lost; an object whose name is lost after its manifest was read
  stays until the next collection.
- File modes, links, snapshots and fsync: a file operation is atomic create, rename
  or append; SHA-256 is a given function and fresh uuids are unused ids.
- ManifestReaders.FoldIsSound: takes UTF-8 decoding as a given function of which it
  is only used that ASCII behind a decodable text decodes to itself.
- Json.ParseValue: has no limit on nesting or on the digits of an integer, and the
  text of a float is kept as it stands; which text `repr` chooses is not modelled.
- ArtifactManifests.ArtifactManifest.Append: writes its record whole; what a crash
  leaves of it is in ManifestAppends.
- MaintenanceLock.StepKeepsInv: entries and exits come in pairs, as `with` pairs
  them; an exit without an entry, which does nothing, is not a step.
- RunControl.ResetWriteKeepsAgreementIff: of what a reset writes only the streaming
  flag; the rest of the state it clears is in AgentState.LateResetLosesHistoryIff.
- AgentState.LateResetLosesHistoryIff: takes a reset's writes to the state as one, and
  does not speak of the two queues that it empties as well.
- ToolUpdates.CloseDelivers: a second close, which waits for the consumer and raises
  the same failure, is not a step.
- ModelRefresh.WaitersAreServedIff: does not say that the callback returns.
- Coercion.Idempotent: leaves out schemas with allOf, anyOf or oneOf, among which
  alternatives make it false, and takes float parsing, number printing and schema
  validation as given functions.
- CatalogApply.LoadPromotionSet: takes lower-casing and the notion of a blank
  character as given functions.
- CatalogApply.PromotedModelsDoNotDrift: takes Python's equality as a given function
  of values, so its identity shortcut for the items of lists and dicts is not seen.
- CatalogPromotion.ComparePiCatalogs: takes Python's equality and the stable JSON text
  of a value as given functions.
- ArtifactRegistries.ArtifactRegistry.ResolveRead: verifies a durable object at every
  read; the cache that skips this while the file's metadata stands still is not modelled.
- Agents.Agent.BeginRun: keeps the lease as one flag; the lease and its tokens are
  RunLeases and RunControl.
- ToolUpdatesLoopEdges.InOrderLeavesBehindIff: of the event loop's ready tasks only the
  relay's own are listed; an emission that itself publishes, and the order in which the
  waiting producers are woken, are not modelled.
- Coercion.AlternativesRestIff: takes of Python that a value satisfies `{"type": t}` as
  the default JSON Schema draft has it (a float without a fraction is an integer), that
  "0" reads as zero and "" and "false" as no number, that no number prints as "", "true"
  or "false", and that a float with a fraction does not print as one without.
- Coercion.UnionRestsIff: speaks of one value, and its condition of what the second
  coercion picks; for alternatives of one type each AlternativesRestIff decides by types.

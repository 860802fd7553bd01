# Azure Security Center for IoT, security agent in C: a verified model

The agent collects security events on a device, queues them in memory under one budget, packs them into bounded
messages for the IoT hub, and is configured remotely through a module twin. This project models three parts of it.

**The event pipeline.** `MemoryMonitor` is the shared budget, `EventQueue` the doubly linked queue on the heap,
`PipelineSpec` the same queues as plain values, and `Pipeline` the heap structures with the proof that they follow the
values step by step, for any number of queues. There an operation is one step; `Interleaving` takes it apart into the
accesses to queue and monitor, and proves when overlapping operations do what whole ones do. `MessageSerializer`,
`EventPublisher` and `DiagnosticCollector` are the loops that drain queues while other threads work; `PublisherSpec`
has the publisher's attempts and its ledger as values, and `PublisherWitnesses` ticks at literal times. Queue
operations are numbered, over all turns, messages and ticks of the publisher: `producers(t)` is whatever the other
threads do before operation t, and `appended(t)` is the JSON library's answer for the event popped by operation t, both
chosen freely for every t. The others may do anything to queues they own, such as draining the diagnostic queue, and
push to the rest. `EventAggregator` collapses repeated payloads. `LockOrder` and `TelemetryCounters` are step models
over all interleavings of any number of threads. The main results: the monitor always holds exactly the memory of the
queued events and of those in flight between a queue and the monitor; overlapping operations do what whole ones do if
and only if no charge that a failed allocation is about to give back tips a decision; no event is lost, duplicated or
reordered between a push and the events array it ends up in; the message stays below its maximum; every drain loop ends
whatever the producers do, with a queue of which nothing more fits right then unless an event failed, and without
producers nothing more would have fitted at the end; when a message is sent at all is known exactly; and the modelled
operations (queue operations, logging, the twin's single-field getters, monitor and counter access, but not the twin's
update and print) are deadlock free if and only if the diagnostic queue does not log its own failures.

**Durations and the twin.** `Duration` says what a text means as a duration, independently of any algorithm;
`TimeUtils` is the agent's parser and printer, with cursors, 32-bit accumulators and a caller's buffer. `Json` is the
reader that steps in and out of objects, `TwinKeys` the schema, `TwinSpec` the configuration as a state machine over
updates, and `TwinConfiguration` the program that reads, installs and prints it in place. The main results: the parser
accepts exactly the durations of its grammar whose exact sum is positive and below 2^32; what is printed reads back;
the state after any run of updates is the decoding of the last accepted document; a reachable configuration always
prints; and applying its print rebuilds it, exactly under the stated conditions, proved of the two methods run one
after the other. `TwinWitnesses` has concrete documents: a complete twin, and the cases where a promise fails.

**Text formatters.** `AddressText` (addresses with prefix length or mask), `Multiport` (port lists) and `GroupJoin` (the
two-pass join of a user's groups), each with a reader that recovers what was printed. `Decimal`, `TextBuffer`,
`TextSplit` and `IptablesDef` are shared by them.

## Conventions

- Every `uint32_t` is the subset type `u32`, and every addition that can wrap in C goes through `Common.Wrap`. Where a
  result needs that nothing wraps, the bound is a precondition: item size plus overhead plus the largest limit fits in
  32 bits (`FitsUnder`), and largest limit plus maximum message size does. `PipelineSpec.PushAccountingExact` and
  `MessageSerializer.SizeLimitationExact` say exactly what goes wrong otherwise, `PipelineSpec.WrappedGrant` and
  `MessageSerializer.SizeLimitationWraps` at which sizes it does.
- Lock operations are taken to succeed. Failed allocations, a failing JSON library, a failing twin getter, the clock and
  the limits the twin answers with are parameters, unconstrained.
- The per-item overhead is that of a 64-bit target (40 bytes).
- Classes carry ghost histories (accepted pushes, popped events, turns, flushes); these are never read by the program.

## Where the code departs from its comments

- `src/agent/inc/internal/time_utils_consts.h:15`: the year product wraps, so zero to two years are accepted, and the
  parser then counts them as nothing. `Duration.ParsedIff` states the grammar with that component in it, and
  `Duration.YearsCountForNothing` an accepted and a refused text.
- `src/agent/src/twin_configuration_event_collectors.c:352`: the normalisation of the operational priority goes to the
  priority in force and not to the new one. `TwinSpec.RejectedUnchangedIff`, `TwinSpec.Memoryless` and
  `TwinSpec.PrintRoundTrip` say exactly what that does: a rejected update changes the state if and only if it is rejected
  by an aggregation entry while that priority is high or low, and the special priority prints as "high".
  `TwinWitnesses.RejectedUpdateChanges` and `TwinWitnesses.DefaultsPrintDiffers` are runs where this shows.
- `src/agent/src/tasks/event_publisher_task.c:67-72` says that memory pressure always sends; lines 98-100 return without
  sending when the high priority queue is empty. `EventPublisher.EventPublisherTask.PressureSendsIff` is the exact
  condition, and `PublisherWitnesses.PressureSendsNothing` a tick under pressure that sends nothing.
- A remote object name with a dot is looked up as a path but printed as one key, so such a print is not found again;
  `TwinSpec.PrintRoundTrip` has this case as its exact condition and `TwinWitnesses.DottedNameLosesPrint` an example.
- `src/agent/src/collectors/linux/local_users_collector.c:88-89`: for a user without groups the size of both buffers
  wraps to zero and leaves no room for the NUL; `GroupJoin.AddGroupsForUser` states this.
- A group id of eleven characters (from -1000000000 down) makes the join fail, as `GroupJoin.Int32FitsIff` and
  `GroupJoin.ElevenCharacters` state.
- Counters of 32 bits lose everything at the 2^32nd count: `TelemetryCounters.OverflowLosesPushes` for telemetry,
  `EventAggregator.WrappedCount` for hits; the exact conditions are in `TelemetryCounters.CountersAccount` and
  `EventAggregator.HitsConserved`.

## Model

| member | source | states |
|---|---|---|
| MemoryMonitor.GrantedWithinLimit | src/agent/src/internal/internal_memory_monitor.c:22-33 | A granted request leaves the consumption at or below the limit it was granted under, and never above the largest limit so far, even when the limit was lowered or the sum wrapped |
| MemoryMonitor.Monitor.constructor | src/agent/src/internal/internal_memory_monitor.c:12-15 | Init: nothing consumed, default limit |
| MemoryMonitor.Monitor.Consume | src/agent/src/internal/internal_memory_monitor.c:22-33 | The two counters afterwards and the result, for a twin getter that answers or fails: a failed getter changes nothing, a refused request still installs the new limit; granted exactly if the 32-bit sum of consumption and size is within the limit |
| MemoryMonitor.Monitor.Release | src/agent/src/internal/internal_memory_monitor.c:35-42 | Releasing more than is consumed is refused and changes nothing; otherwise the consumption drops by the size |
| MemoryMonitor.Monitor.CurrentConsumption | src/agent/src/internal/internal_memory_monitor.c:44-47 | Reports the consumption |
| EventQueue.ChargesCover | src/agent/src/queue.c:11-14 | Every queued event, and the overhead of all of them together, is within the total charge |
| EventQueue.PushDecision | src/agent/src/queue.c:44-63 | When a push is refused for want of memory, when for want of an answer or a node, and when it succeeds, by the 32-bit sum of consumption, size and overhead; and what is consumed afterwards |
| EventQueue.PushDecisionExact | src/agent/src/queue.c:44-63 | The same by the memory really needed, where nothing wraps |
| EventQueue.Queue.constructor | src/agent/src/queue.c:16-26 | A new queue is a valid empty chain with zeroed counters |
| EventQueue.Queue.Append | src/agent/src/queue.c:69-83 | Linking a node at the end keeps next and prev mutually inverse, the ends right and the counter equal to the length, and appends exactly that event |
| EventQueue.Queue.PushBack | src/agent/src/queue.c:40-93 | Contents grow by the event exactly on success; the budget is charged, or given back after a failed allocation; by consumption, size and limit: when memory is exceeded, and that then, and only then, a drop is counted, that every push is counted, and that a log is due exactly for exceeded memory or an unknown limit on a queue that logs |
| EventQueue.Queue.Unlink | src/agent/src/queue.c:100-112 | Removing the first node keeps the chain valid and loses exactly the head |
| EventQueue.Queue.PopFront | src/agent/src/queue.c:95-117 | Tail of the sequence, oldest event returned and its charge released; an empty queue is reported and left alone |
| EventQueue.Queue.PopFrontIf | src/agent/src/queue.c:119-129 | Pops the head only if it meets the condition; otherwise nothing changes and the result tells empty from refused |
| EventQueue.Queue.Deinit | src/agent/src/queue.c:28-38 | The loop ends with an empty queue and the budget as after releasing every event in order |
| EventQueue.Queue.SnapshotAndReset | src/agent/src/agent_telemetry_counters.c:25-39 | Hands out the counters and zeroes them |
| EventQueue.FullCache | src/agent/src/queue.c:45-51 | A push to a full cache: refused as exceeding the memory, logged, and counted as a drop and as a push |
| PipelineSpec.PushAccountingExact | src/agent/src/internal/internal_memory_monitor.c:22-33 | A push keeps consumption equal to the sum over all queues if and only if it is not granted by a wrapped comparison |
| PipelineSpec.WrappedGrant | src/agent/src/internal/internal_memory_monitor.c:27 | A push for which the accounting fails from the initial state: 2^32 - 1 bytes are charged as 39 and granted |
| PipelineSpec.PushSound | src/agent/src/queue.c:40-93 | Under the no-wrap bound a push keeps exact accounting, conservation and consumption below the largest limit, and is never granted by wrapping |
| PipelineSpec.QueuedUnderPeak | src/agent/src/queue.c:11-14 | A queued event's 32-bit item size is its exact charge and within the consumption |
| PipelineSpec.QueueLength | src/agent/src/queue.c:83 | The overhead times the queue length is within the consumption, so the element counter cannot wrap |
| PipelineSpec.PopSound | src/agent/src/queue.c:95-129 | A pop keeps the invariant and its release is never refused as an invalid size |
| PipelineSpec.DeinitSound | src/agent/src/queue.c:28-38 | Deinit keeps the invariant and returns exactly the queue's whole charge to the budget |
| PipelineSpec.RunSound | src/agent/src/queue.c:28-129 | Invariant over any run of pushes, pops, conditional pops and Deinits on any queues, with every release accepted |
| PipelineSpec.SharedBudget | src/agent/src/internal/internal_memory_monitor.c:12-42 | From Init, after any run of whole operations on any number of queues with failing allocations and changing limits: consumption is exactly the memory of the queued events, no larger than the largest limit, no release is refused, and per queue pushed = popped + queued; module Interleaving has the runs in which operations overlap |
| PipelineSpec.OwnQueuesOnlyGrow | src/agent/src/synchronized_queue.c:28-65 | Whatever other threads do to their queues and push to a consumer's own, nothing is popped from those and every one of them and its history only grows at its end |
| PipelineSpec.RunElsewhere | src/agent/src/synchronized_queue.c:28-65 | Operations leave the contents and the history of every queue alone that they do not name |
| Interleaving.BalanceKept | src/agent/src/queue.c:44-113 | Every step of a push or a pop keeps the consumption equal to the charges of the queued events and of those in flight, and below the largest limit |
| Interleaving.KeptAfter | src/agent/src/synchronized_queue.c:28-65 | Every step keeps one activity per queue lock, and per queue granted = released + in the hands of a pop + listed + in the hands of a push, in order |
| Interleaving.FlightExact | src/agent/src/queue.c:86-113 | A charge in flight is covered by the consumption, so its 32-bit size is exact and giving it back is never refused |
| Interleaving.SilentMove | src/agent/src/queue.c:50-83 | Entering, linking, giving a refund back, unlinking and leaving do not show: with pending pushes done and pending pops undone, nothing changes |
| Interleaving.PopMove | src/agent/src/queue.c:95-129 | A pop takes effect as a whole operation when it releases its charge, or when it finds the queue empty or the condition unmet |
| Interleaving.PushMoveIff | src/agent/src/queue.c:40-93 | A push takes effect as a whole operation when it asks the monitor if and only if no charge that a failed allocation is about to give back makes it refused |
| Interleaving.AlwaysBalanced | src/agent/src/queue.c:40-117 | Both invariants in every interleaving |
| Interleaving.InterleavingIsRun | src/agent/src/queue.c:40-129 | A run whose operations overlap does what the whole operations do in the order of their monitor accesses, unless such a charge disturbed a push |
| Interleaving.MoveByMoveIff | src/agent/src/queue.c:40-129 | The condition is exact: every step of the run goes along with its whole operation if and only if no push is ever disturbed |
| Interleaving.NeverDisturbedWithout | src/agent/src/queue.c:64-90 | Without failed allocations no push is ever disturbed |
| Interleaving.EveryInterleaving | src/agent/src/queue.c:40-129 | From Init, any number of threads on any number of queues in every interleaving: consumption is the charges queued and in flight, no larger than the largest limit, and each queue conserves its events; whenever all are outside, it is exactly the memory queued, and queues, budget and histories are those of a run of whole operations unless a failed allocation disturbed a push |
| Interleaving.RefundDisturbs | src/agent/src/queue.c:50-90 | An interleaving with a failed allocation that loses both of two events, although either order of the whole operations keeps one |
| Pipeline.AgentQueues.constructor | src/agent/src/security_agent.c:262-280 | Fresh, distinct, empty queues sharing one fresh monitor: the initial value of the run theorems |
| Pipeline.AgentQueues.PushBack | src/agent/src/synchronized_queue.c:28-39 | The heap moves exactly as the value-level push says, for one queue of many: all other lists are untouched and the invariant holds; result, drop counter and log by consumption, size and limit |
| Pipeline.AgentQueues.PopFrontIf | src/agent/src/synchronized_queue.c:54-65 | The heap moves exactly as the value-level conditional pop; the result distinguishes empty, refused and popped |
| Pipeline.AgentQueues.PopFront | src/agent/src/synchronized_queue.c:41-52 | The unconditional pop, likewise |
| Pipeline.AgentQueues.Deinit | src/agent/src/queue.c:28-38 | Queue_Deinit moves the heap as the value-level Deinit, keeping the other queues |
| Pipeline.AgentQueues.GetSize | src/agent/src/synchronized_queue.c:67-78 | Reports the length of the list |
| Pipeline.AgentQueues.RunOthers | src/agent/src/synchronized_queue.c:28-65 | Any batch of operations by other threads moves the heap as the run of the value-level operations |
| MessageSerializer.SizeLimitationExact | src/agent/src/message_serializer.c:65-68 | The 32-bit guard means size + current < max exactly when the sum does not wrap to below the maximum; always when size + max fits in 32 bits |
| MessageSerializer.SizeLimitationWraps | src/agent/src/message_serializer.c:67 | Sizes at which the 32-bit guard admits what does not fit |
| MessageSerializer.GuardedPop | src/agent/src/message_serializer.c:65-78 | With the guard as condition a pop takes the head if and only if it still fits; otherwise the queue is empty or its head does not fit, and nothing changes |
| MessageSerializer.QueuedOrTaken | src/agent/src/synchronized_queue.c:54-65 | Whatever was queued is a beginning of what was taken since followed by what is queued now: FIFO across interleaved operations of other threads |
| MessageSerializer.SameHistorySameQueue | src/agent/src/synchronized_queue.c:28-65 | Equal push and pop histories force equal contents |
| MessageSerializer.AddSingleEvent | src/agent/src/message_serializer.c:70-113 | One numbered operation: after exactly the other threads' batch one conditional pop, and nothing else; the event is appended and charged if and only if it is a JSON object of at least one byte and the library accepts it, otherwise dropped with an exception; nothing is popped when the queue is empty or the head does not fit, with the result code telling which |
| MessageSerializer.OperatedConcat | src/agent/src/synchronized_queue.c:28-78 | Numbered operations after numbered operations are one such series |
| MessageSerializer.OperatedDetermines | src/agent/src/synchronized_queue.c:28-78 | The outside world and a consumer's operations determine the state they lead to |
| MessageSerializer.OperatedElsewhere | src/agent/src/synchronized_queue.c:28-78 | A queue that no operation takes from and no batch names keeps its contents and history |
| MessageSerializer.DrainRound | src/agent/src/message_serializer.c:125-142 | One round: one conditional pop by an operation of its own, and after a success the queue's size by the next, each after exactly its batch; the size seen is the queue's, whatever the other threads do, and a round that takes nothing leaves the queue empty or its head too large |
| MessageSerializer.AddEventsFromQueue | src/agent/src/message_serializer.c:115-146 | Terminates against arbitrary other threads; the state afterwards is that of an exact log of operations, one per number, each after its batch: look and take in turn, every look but the last answered by a queue that is not empty, the takes those of the packed events at the sizes the message then had, and the end either such a look or one last take that got nothing or the failed event; so it takes a FIFO run of events, packs exactly those that parse and that the library accepted at that operation, and stops at the first other one; the size is exactly the sum and stays below the maximum; whatever the others do, right after a turn without a failed event the queue is empty or its head does not fit |
| MessageSerializer.StaysExhausted | src/agent/src/message_serializer.c:169-175 | A queue from which nothing more fits stays so while later queues have their turns |
| MessageSerializer.AllStayExhausted | src/agent/src/message_serializer.c:169-175 | The same for all queues already served |
| MessageSerializer.TakeTurn | src/agent/src/message_serializer.c:169-175 | The loop body: a full message gives the queue no turn and no operation, otherwise it is drained by the logged operations numbered from here on; success is the absence of a failed event, and then nothing more of the queue fits right after the turn, whatever the others do |
| MessageSerializer.OneMoreTurnLog | src/agent/src/message_serializer.c:169-175 | Turn by turn the operations of a message are one numbered series, each turn starting at the size the message had then, and every stage is the state its operations lead to |
| MessageSerializer.OneMoreStage | src/agent/src/message_serializer.c:169-175 | Turns one after the other, each from the state the one before left behind: every one without a failed event leaves its queue exhausted at the size reached by then |
| MessageSerializer.AnsweredConcat | src/agent/src/message_serializer.c:169-175 | Over consecutive turns no operation, and so no answer of the library, is used twice |
| MessageSerializer.AnsweredExact | src/agent/src/message_serializer.c:90-103 | The events packed by a turn are the JSON objects of at least one byte that the library appended, each by the answer given for it; the one behind them failed |
| MessageSerializer.GenerateEventList | src/agent/src/message_serializer.c:148-192 | The state afterwards is that of the logged operations of the turns, one after the other, and the state after each turn is that of its part of the log; the events array is the concatenation, in queue order, of each queue's packed run; every event taken was answered for itself; sizes sum to below the maximum; the result code; after each turn its queue is exhausted unless it failed, whatever other threads do; without producers all of them are still exhausted at the end |
| MessageSerializer.TurnsConserve | src/agent/src/message_serializer.c:148-192 | Per queue, accepted = popped before + taken by the turns + still queued, in order |
| MessageSerializer.CreateSecurityMessage | src/agent/src/message_serializer.c:194-251 | A message is handed out if and only if the JSON library succeeds and something was packed, it then holds exactly the packed events, below the maximum, and the result code is determined in every other case; every queue has its turn unless the header, the size limit or the library's list fails; operations and states as for the list |
| PublisherSpec.TakenConcat | src/agent/src/tasks/event_publisher_task.c:89-120 | What two series of turns took from a queue, and packed, concatenates |
| PublisherSpec.TakenOnce | src/agent/src/message_serializer.c:70-146 | Counted with multiplicity, every popped event was packed or was a turn's failure, and not both |
| PublisherSpec.LanesHoldAllTaken | src/agent/src/message_serializer.c:169-175 | The per-queue histories hold exactly the events the turns took |
| PublisherSpec.FailureExplained | src/agent/src/message_serializer.c:90-100 | An event that ended a queue's turn is no JSON object of at least one byte, or the library refused it by the answer given for this event |
| PublisherSpec.PackingExplained | src/agent/src/message_serializer.c:90-103 | Every packed event is a JSON object of at least one byte that the library appended, by the answer given for it |
| PublisherSpec.PackedIff | src/agent/src/message_serializer.c:148-192 | With quiet queues and a library that appends everything, a message of distinct queues packs something if and only if one of them starts with a JSON object of 1 to maximum - 1 bytes |
| PublisherSpec.SentIff | src/agent/src/tasks/event_publisher_task.c:89-120 | Then something reaches the hub if and only if moreover the main queue is not empty and twin getter, library and hub succeed; and the attempt counts as a success exactly if something was sent or the main queue was empty |
| PublisherSpec.SentPrefixes | src/agent/src/tasks/event_publisher_task.c:102-120 | Between quiet queues, what is sent is a prefix of each of the three queues, in the order of their turns |
| PublisherSpec.ChainOperated | src/agent/src/tasks/event_publisher_task.c:43-120 | Attempts made one after the other are nothing but one numbered series of operations, each after exactly its batch |
| PublisherSpec.OwnOperationsOnly | src/agent/src/tasks/event_publisher_task.c:89-120 | All these operations are on the publisher's own queues |
| EventPublisher.EventPublisherTask.constructor | src/agent/src/tasks/event_publisher_task.c:27-35 | The task starts with an empty ledger, both timers at the present, and any behaviour of the rest of the agent that leaves popping its three queues to it |
| EventPublisher.EventPublisherTask.LookAt | src/agent/src/tasks/event_publisher_task.c:93-100 | Looking at the main queue's size is an operation of its own and keeps the ledger |
| EventPublisher.EventPublisherTask.BuildMessage | src/agent/src/tasks/event_publisher_task.c:102-106 | One message built, its turns and its events array entered in the ledger: all the queues have a turn unless header, size limit or list fails, and then none has; the exact log of the operations; exactly when a buffer comes out, and what it holds |
| EventPublisher.EventPublisherTask.SendEvents | src/agent/src/tasks/event_publisher_task.c:89-120 | One attempt, in full: an empty main queue ends it, otherwise the turns are those of operational, main and padding queue, all three unless the message cannot be begun, by the logged operations and no others, each queue exhausted after its turn unless it failed; the events array is what they packed; a message reaches the hub if and only if something was packed, the library succeeded and the hub took it; the return value; without producers nothing more would have fitted; ledger, queues and clock move by exactly this attempt |
| EventPublisher.EventPublisherTask.SendMessage | src/agent/src/tasks/event_publisher_task.c:102-120 | The same from the look that found the main queue not empty |
| EventPublisher.EventPublisherTask.SendScheduled | src/agent/src/tasks/event_publisher_task.c:68-86 | The attempt a schedule asks for, with its main and padding queue, and the one timer that moves |
| EventPublisher.EventPublisherTask.Execute | src/agent/src/tasks/event_publisher_task.c:43-87 | The attempts of one tick are exactly the messages due, in order, each an attempt as above starting where the one before ended, and all that happens to ledger, queues and clock; by the clock, up to 2^31 - 1 milliseconds: a high priority message under memory pressure or when 1000 times the seconds since the last one exceed its frequency, at most one; a low priority one when 1000 times its seconds do; with which queues, answers and timers |
| EventPublisher.EventPublisherTask.TickOperations | src/agent/src/tasks/event_publisher_task.c:43-120 | A whole tick is one numbered series of looks and takes on the publisher's queues, each after exactly the others' batch of that number, and nothing else |
| EventPublisher.EventPublisherTask.OtherQueuesUntouched | src/agent/src/tasks/event_publisher_task.c:43-120 | A queue that is not the publisher's and that nobody else touches is the same after the tick |
| EventPublisher.EventPublisherTask.PressureSendsIff | src/agent/src/tasks/event_publisher_task.c:67-72 | Exactly when the message that memory pressure asks for is sent, in terms of the state before the tick: the high priority queue is not empty, some queue of the publisher starts with a JSON object of 1 to maximum - 1 bytes, and twin getter, library and hub succeed |
| EventPublisher.EmptyMainSendsNothing | src/agent/src/tasks/event_publisher_task.c:93-100 | With an empty main queue and nobody else at work no queue has a turn and nothing is sent, which counts as a success |
| PublisherWitnesses.PressureSendsNothing | src/agent/src/tasks/event_publisher_task.c:67-100 | A tick of a running publisher under memory pressure: the attempts are those of Execute from the state before, the one message due is attempted and nothing is sent, although an event is waiting |
| PublisherWitnesses.SmallEventSent | src/agent/src/tasks/event_publisher_task.c:89-120 | A quiet attempt with one JSON object of 60 bytes waiting in the main queue sends exactly that |
| PublisherWitnesses.TenMinutes | src/agent/src/tasks/event_publisher_task.c:67-86 | Ticks at literal times: nothing after exactly seven minutes, the waiting event goes out after ten, and both schedules are due after five hours and a second |
| EventPublisher.EventPublisherTask.Idle | src/agent/src/synchronized_queue.c:28-65 | Between two ticks pushes to the publisher's queues, and anything elsewhere, keep the ledger true |
| EventPublisher.EventPublisherTask.EventsConserved | src/agent/src/message_serializer.c:70-192 | Whole-run conservation: after any ticks with anything in between, per queue accepted = popped before + taken + queued, in order; the taken events are exactly those of the events arrays plus at most one per turn; what is in the arrays are JSON objects of at least one byte that the library appended, and what ended a turn is not, by the answer given for this event, no answer serving twice |
| DiagnosticCollector.ConvertedExact | src/agent/src/collectors/diagnostic_event_collector.c:210-263 | One conversion in numbers: when the event is stored, and when its failure is reported to the diagnostic queue |
| DiagnosticCollector.DiagnosticEventCollector.AddEvent | src/agent/src/collectors/diagnostic_event_collector.c:109-129 | The logger's push goes to the diagnostic queue and cannot log in turn; it succeeds exactly if the event was built and memory, by its numbers, and allocation allow it |
| DiagnosticCollector.DiagnosticEventCollector.GetSingleEvent | src/agent/src/collectors/diagnostic_event_collector.c:210-263 | The converted event is pushed to the priority queue; the state afterwards is that push, followed by the push to the diagnostic queue if memory, by its numbers, is exceeded or the limit unknown and the queue logs; nothing is removed; succeeds exactly if the conversion and the push do |
| DiagnosticCollector.DiagnosticEventCollector.TakeOne | src/agent/src/collectors/diagnostic_event_collector.c:140-158 | The loop body: after exactly the others' batch the oldest event, if there is one, is removed and then converted, with the states before, between and after; it reports whether conversion and push succeeded in the state in which the event had just been removed |
| DiagnosticCollector.DiagnosticEventCollector.GetEvents | src/agent/src/collectors/diagnostic_event_collector.c:131-161 | Removes, oldest first, at most the events present when it looked, and terminates although each removal may refill the queue; the states form one chain from the look to the end: the others' batch, the removal, the conversion with its pushes, event by event; all events unless it fails, and it fails exactly at the first event whose conversion or push fails in that chain, which is the last one taken |
| DiagnosticCollector.OneMoreHandled | src/agent/src/collectors/diagnostic_event_collector.c:140-158 | One more event handled from the state the one before left behind: the chain of states and the outcome so far go on |
| LockOrder.PushNeutral | src/agent/src/queue.c:40-93 | A push, with every failure path and the logging inside it, takes locks in strictly rising rank and gives back what it took |
| LockOrder.TraceNeutral | src/agent/src/synchronized_memory_monitor.c:28-68 | Every queue operation, log call, twin getter, monitor access and snapshot does |
| LockOrder.PushInFull | src/agent/src/queue.c:40-93 | The lock operations of a push in full, for its outcomes without a log |
| LockOrder.FailedAllocationInFull | src/agent/src/queue.c:56-90 | The same when the allocation fails and the charge is given back |
| LockOrder.OthersInFull | src/agent/src/synchronized_queue.c:41-78 | The lock operations of pops, size queries, twin getters, monitor reads and snapshots in full |
| LockOrder.QueueOperationsEnclosed | src/agent/src/synchronized_queue.c:28-78 | Every access of a queue operation to the monitor, the counters and the logger lies inside the queue's lock, which is taken once, first, and given back last |
| LockOrder.FindRunnable | src/agent/src/twin_configuration.c:421-433 | Following the chain of waiters ends at a thread that can step |
| LockOrder.DeadlockFree | src/agent/src/queue.c:40-93 | In every interleaving of any number of threads: mutual exclusion, some thread can step while one is not done, and when none can all are done and every lock is free |
| LockOrder.RunsEnd | src/agent/src/synchronized_queue.c:28-78 | Steps taken plus steps remaining is constant, so every run that is continued completes |
| LockOrder.SelfLoggingDeadlocks | src/agent/src/logger.c:41-43 | If the diagnostic queue logged, a concrete single-thread run waits for a lock it holds |
| LockOrder.DeadlockFreeIff | src/agent/src/security_agent.c:263 | The agent is deadlock free if and only if the diagnostic queue is created without logging |
| TelemetryCounters.NextInvariant | src/agent/src/agent_telemetry_counters.c:25-54 | Each step of a push or a snapshot keeps the accounting, counter overflow included |
| TelemetryCounters.CountersAccount | src/agent/src/agent_telemetry_counters.c:25-54 | In every interleaving, snapshots plus live counters equal the pushes counted (the drops) if and only if fewer than 2^32 of them ever came between two snapshots, and modulo 2^32 always; and dropped <= collected + 1, without the + 1 when no push is half way, whenever fewer than 2^32 pushes came between two snapshots |
| TelemetryCounters.LiveCounts | src/agent/src/agent_telemetry_counters.c:25-54 | The live counters are the counts since the last snapshot in 32 bits, and overflowed exactly if one reached 2^32 |
| TelemetryCounters.OverflowLosesPushes | src/agent/src/agent_telemetry_counters.c:48 | A run of 2^32 pushes without a snapshot after which the counters report none |
| TelemetryCounters.SnapshotCanSplitAPush | src/agent/src/queue.c:51-91 | The + 1 is real: a snapshot can report a drop and no collection |
| Decimal.ValueOfNumeral | src/agent/src/internal/time_utils.c:271-318 | A printed unsigned number reads back as itself |
| Decimal.NumeralDigits | src/agent/src/internal/time_utils.c:271-318 | The ten digits as characters, and that a further digit stands at the end |
| Decimal.DigitRunOf | src/agent/src/internal/time_utils.c:62 | A numeral followed by a non-digit is scanned exactly |
| Decimal.NumeralLength | src/agent/src/internal/time_utils.c:260 | A number below 10^k prints in at most k digits |
| Decimal.NumeralLong | src/agent/src/utils.c:47-64 | A number from 10^k on prints in more than k digits |
| TextBuffer.ConcatenateToString | src/agent/src/utils.c:104-117 | Succeeds exactly when text and NUL fit; then the cursor and the remaining size move by the length; bytes before the cursor and beyond the claimed size are untouched, also on failure |
| Duration.YearConstants | src/agent/inc/internal/time_utils_consts.h:15-17 | The year product wraps to 1471228928, so the guard admits up to two years |
| Duration.WrittenStart | src/agent/src/internal/time_utils.c:49-130 | A section written from components starts with a numeral and one of the section's designators |
| Duration.ReadWritten | src/agent/src/internal/time_utils.c:49-209 | A section written from ordered components reads as its exact sum |
| Duration.ReadIsWritten | src/agent/src/internal/time_utils.c:49-209 | Whatever reads is such a section, with that sum |
| Duration.MeaningOfText | src/agent/src/internal/time_utils.c:211-253 | A duration's text means the exact sum of its components |
| Duration.TextOfMeaning | src/agent/src/internal/time_utils.c:211-253 | Whatever has a meaning is the text of components with that sum |
| Duration.ParsedIff | src/agent/src/internal/time_utils.c:49-253 | A text is accepted with value v if and only if it is P[nY][nM][nW][nD][T[nH][nM][nS]] with some component, one after any T and at most two years, and v is the exact sum of the rest, positive and below 2^32 |
| Duration.YearsCountForNothing | src/agent/inc/internal/time_utils_consts.h:15-17 | P2YT5S is accepted as five seconds, P3YT5S is refused |
| Duration.UnitTexts | src/agent/inc/internal/time_utils_consts.h:9-15 | One of each unit in milliseconds; a single year is refused |
| TimeUtils.AddWithOverflowCheck | src/agent/src/utils.c:182-188 | Refuses exactly the sums that do not fit in 32 bits |
| TimeUtils.SectionScan | src/agent/src/internal/time_utils.c:62-64 | Scanning at the cursor in the whole text sees exactly what the section alone shows, although the text runs on behind it |
| TimeUtils.TakeComponent | src/agent/src/internal/time_utils.c:66-112 | Searching the designator from the cursor lands right behind the component just scanned |
| TimeUtils.GuardExact | src/agent/inc/internal/time_utils_consts.h:17-23 | The guards reject exactly the components whose product would not fit, so none wraps |
| TimeUtils.ReadComponent | src/agent/src/internal/time_utils.c:80-112 | The repeated block: the running result plus the rest of the section stays the section's value |
| TimeUtils.ParseDateString | src/agent/src/internal/time_utils.c:49-130 | The date section's exact value, or rejection, at any start position |
| TimeUtils.ParseTimeString | src/agent/src/internal/time_utils.c:140-209 | The time section's exact value, or rejection |
| TimeUtils.ISO8601DurationStringToMilliseconds | src/agent/src/internal/time_utils.c:211-253 | The parser computes exactly the meaning of the text when it is positive and fits in 32 bits, and rejects everything else |
| TimeUtils.MixedRadix | src/agent/src/internal/time_utils.c:269-297 | Months, weeks, days, hours, minutes and seconds add up to the whole seconds |
| TimeUtils.PrintedMeaning | src/agent/src/internal/time_utils.c:255-322 | The printed text is a duration of the grammar worth ms - ms % 1000 |
| TimeUtils.RoundTrip | src/agent/src/internal/time_utils.c:211-322 | For every ms >= 1000 the printed text is within what the parser reads, and it reads back as ms - ms % 1000 |
| TimeUtils.PrintedReadable | src/agent/src/internal/time_utils.c:255-322 | Every printed text meets the precondition of the parser: no sign, white space or NUL, and no numeral from 2^32 on |
| TimeUtils.PutPart | src/agent/src/internal/time_utils.c:271-275 | Nothing for zero, else number and designator at the cursor, with the remaining size charged |
| TimeUtils.PrintClock | src/agent/src/internal/time_utils.c:299-319 | The time of day and its T, which is not charged to the remaining size, still stay inside the buffer |
| TimeUtils.MillisecondsToISO8601DurationString | src/agent/src/internal/time_utils.c:255-322 | Succeeds if and only if ms >= 1000 and the length is at least 19; writes at most 17 characters and a NUL, and nothing behind; a failure changes nothing |
| TimeUtils.PrintedCString | src/agent/src/internal/time_utils.c:255-322 | Up to its first NUL the buffer holds exactly the printed text |
| Json.FollowConcat | src/agent/src/json/json_object_reader.c:58-72 | Stepping in twice is following the joined path |
| Json.FollowPrefix | src/agent/src/json/json_object_reader.c:74-90 | The parent of whatever was reached is an object, so stepping out succeeds |
| Json.NumberRoundTrip | src/agent/src/json/json_object_reader.c:106-118 | A uint32_t written as an int32_t number and read back through a double is unchanged |
| Json.TruncatesToZero | src/agent/src/json/json_object_reader.c:106-118 | In the range of int32_t a number loses its fraction |
| Json.MemberRead | src/agent/src/json/json_object_reader.c:137-155 | Under a plain name the reader finds the member: missing, null, of the wanted type, or of another one |
| Json.JsonObjectReader.StepIn | src/agent/src/json/json_object_reader.c:58-72 | Moves the cursor to the object under a dotted name exactly if it is there and an object; otherwise stays and tells why |
| Json.JsonObjectReader.StepOut | src/agent/src/json/json_object_reader.c:74-90 | One level up; at the root refused and unchanged |
| TwinKeys.KeyTextInjective | src/agent/src/twin_configuration_consts.c:11-40 | No two keys of the schema share a text |
| TwinKeys.KeyTextDotFree | src/agent/src/twin_configuration_consts.c:11-40 | No key is taken apart as a path |
| TwinKeys.MainTexts | src/agent/src/twin_configuration_consts.c:11-40 | The key texts of the main configuration, spelled out |
| TwinKeys.PriorityTexts | src/agent/src/twin_configuration_consts.c:20-30 | Five of the priorities' key texts, spelled out |
| TwinKeys.ConnectionText | src/agent/src/twin_configuration_consts.c:20-30 | The next one |
| TwinKeys.FirewallText | src/agent/src/twin_configuration_consts.c:20-30 | The next one |
| TwinKeys.LastPriorityTexts | src/agent/src/twin_configuration_consts.c:20-30 | The last three |
| TwinKeys.AggregationTexts | src/agent/src/twin_configuration_consts.c:32-36 | The key texts of the aggregation, spelled out |
| TwinSpec.PriorityRoundTrip | src/agent/src/twin_configuration_event_collectors.c:425-450 | Every printed priority reads back as itself, the operational one as high |
| TwinSpec.PriorityWords | src/agent/src/twin_configuration_event_collectors.c:425-450 | The three words, in any case, and what each priority prints as |
| TwinSpec.DefaultValues | src/agent/src/twin_configuration.c:93-132 | The defaults in numbers |
| TwinSpec.ConfiguredByMembers | src/agent/src/twin_configuration_utils.c:72-112 | An entry by the object's members: nothing configured, a value of the wanted kind, or a parse failure, an entry that is no object included |
| TwinSpec.DecodeByMembers | src/agent/src/twin_configuration_event_collectors.c:298-382 | What an object says about each key by its members: the default, the converted value, or a mismatch |
| TwinSpec.CompleteIsDesired | src/agent/src/twin_configuration.c:197-202 | A complete twin is decoded from its "desired" object, and refused if it has none |
| TwinSpec.MemberSelected | src/agent/src/twin_configuration.c:204-215 | Under a plain name the agent's object is that member; absent or null counts as empty, any other form is refused |
| TwinSpec.CompleteUpdated | src/agent/src/twin_configuration.c:184-260 | A complete update does what the partial update with its "desired" object does, or nothing if it has none |
| TwinSpec.DecodedSettings | src/agent/src/twin_configuration_event_collectors.c:298-382 | The decoded configuration says about every key what the object says, defaults included |
| TwinSpec.SameSettingsSameTwin | src/agent/src/twin_configuration_event_collectors.c:35-54 | A configuration is determined by its settings |
| TwinSpec.RejectedUnchangedIff | src/agent/src/twin_configuration_event_collectors.c:347-382 | A rejected update leaves everything but the operational priority alone, and that too unless, and only unless, an aggregation entry was at fault and the priority was high or low |
| TwinSpec.Memoryless | src/agent/src/twin_configuration.c:184-260 | After any run from Init the state is the decoding of the last accepted document, or the defaults, up to the normalisation of the operational priority by a later rejection |
| TwinSpec.ParsedWholeSeconds | src/agent/src/internal/time_utils.c:211-253 | The parser delivers only positive multiples of 1000 |
| TwinSpec.ReachableWellTimed | src/agent/src/twin_configuration.c:184-260 | From Init through any run, every stored interval is a multiple of 1000, at least 1000, so it can be printed |
| TwinSpec.ReachableRanked | src/agent/src/twin_configuration_event_collectors.c:384-402 | Only the operational event ever has the operational priority |
| TwinSpec.DecodePrinted | src/agent/src/twin_configuration.c:473-576 | Each printed entry decodes to the setting it was printed from |
| TwinSpec.ReapplyPrint | src/agent/src/twin_configuration.c:473-576 | The print is accepted as a partial update in any state and installs what it was printed from, or the defaults if the object name has a dot |
| TwinSpec.PrintRoundTrip | src/agent/src/twin_configuration.c:473-576 | On every reachable state, reapplying the print rebuilds the configuration, the operational priority aside, if and only if the name has no dot or there is nothing but defaults; and fully exactly when that priority is moreover not the special one |
| TwinWitnesses.OneEntryDecodes | src/agent/src/twin_configuration.c:294-347 | An object with one entry says what that entry says and the default about every other key |
| TwinWitnesses.RejectedUpdateChanges | src/agent/src/twin_configuration_event_collectors.c:347-372 | Two updates of which the second is rejected and still changes the operational priority from high to operational |
| TwinWitnesses.DefaultsPrintDiffers | src/agent/src/twin_configuration_event_collectors.c:438-441 | The initial configuration does not survive its own print: the operational priority comes back as high |
| TwinWitnesses.DottedNameLosesPrint | src/agent/src/twin_configuration.c:552 | A reachable configuration under a dotted name that its print turns back into the defaults |
| TwinWitnesses.SizeInstalled | src/agent/src/twin_configuration.c:197-204 | A literal complete twin that installs its message size over the defaults |
| TwinWitnesses.CompleteUpdates | src/agent/src/twin_configuration.c:184-260 | The program on that document, and on one without "desired", which is refused and changes nothing |
| TwinConfiguration.ReadTyped | src/agent/src/json/json_object_reader.c:92-135 | String, int, duration and bool reads deliver the value under the name or the reason why not |
| TwinConfiguration.GetConfigurationValueFromJson | src/agent/src/twin_configuration_utils.c:72-112 | Step in, read, step out: the result is what the entry says, and the cursor is back where it was |
| TwinConfiguration.SetSingleValue | src/agent/src/twin_configuration.c:294-347 | Value, default for a missing or null entry, or mismatch; the cursor is restored |
| TwinConfiguration.ExtractConfiguration | src/agent/src/twin_configuration.c:349-419 | All eight entries are read whatever fails; the status lists exactly the malformed ones |
| TwinConfiguration.TwinState.constructor | src/agent/src/twin_configuration.c:93-132 | Init installs the defaults |
| TwinConfiguration.TwinState.SetValues | src/agent/src/twin_configuration_event_collectors.c:298-382 | All or nothing, except for the operational priority in force, which is normalised once the priorities were read |
| TwinConfiguration.TwinState.Update | src/agent/src/twin_configuration.c:184-260 | The new state is the specified update of the old one, with its result code and mismatch report, and the state stays what the updates so far make of the defaults; by the document's members: a complete twin counts as its "desired" object and is a parse failure without one, and an accepted partial one installs what the agent's own object decodes to |
| TwinConfiguration.TwinState.ResultByMembers | src/agent/src/twin_configuration.c:184-260 | Result and new state of an update by the document's members |
| TwinConfiguration.TwinState.Install | src/agent/src/twin_configuration.c:184-260 | The update as the program performs it, from choosing the object to installing both halves |
| TwinConfiguration.TwinState.WriteConfigurationToJson | src/agent/src/twin_configuration_utils.c:114-155 | One more entry in the print, and no other disturbed |
| TwinConfiguration.TwinState.WriteUint | src/agent/src/twin_configuration_utils.c:57-59 | A number entry, through an int32_t |
| TwinConfiguration.TwinState.WriteBool | src/agent/src/twin_configuration_utils.c:68-70 | A flag entry |
| TwinConfiguration.TwinState.WriteString | src/agent/src/twin_configuration_utils.c:61-66 | A text entry; a NULL text is skipped |
| TwinConfiguration.TwinState.WritePriority | src/agent/src/twin_configuration_event_collectors.c:438-450 | A priority entry, by its name |
| TwinConfiguration.TwinState.WriteTimeToJson | src/agent/src/twin_configuration.c:502-511 | A duration entry through the shared buffer; fails exactly below one second |
| TwinConfiguration.TwinState.WriteFirstPriorities | src/agent/src/twin_configuration_event_collectors.c:490-522 | Five priorities, each from its own field under its own key |
| TwinConfiguration.TwinState.WriteOtherPriorities | src/agent/src/twin_configuration_event_collectors.c:524-552 | The other five, likewise |
| TwinConfiguration.TwinState.SafeGetPrioritiesJson | src/agent/src/twin_configuration_event_collectors.c:490-587 | The collectors' entries are added to the print, unless an aggregation interval is below a second |
| TwinConfiguration.TwinState.GetSerializedTwinConfiguration | src/agent/src/twin_configuration.c:473-576 | Succeeds if and only if every interval is at least a second; then the document holds exactly one entry per printed setting |
| TwinConfiguration.PrintReadable | src/agent/src/twin_configuration.c:473-576 | Every printed object has duration texts the program reads |
| TwinConfiguration.ReappliedReadable | src/agent/src/twin_configuration.c:184-260 | So has whatever an update finds in a printed document, under any object name |
| TwinConfiguration.PrintAndReapply | src/agent/src/twin_configuration.c:184-576 | Of the program itself: from any two states reached by updates, printing the first and updating the second with that document both succeed, and the second then equals the first exactly under the conditions of the round trip |
| EventAggregator.FirstSeenDistinct | src/agent/src/collectors/event_aggregator.c:232-237 | Stored payloads are pairwise distinct, and exactly those called since the last flush |
| EventAggregator.TallyOneMore | src/agent/src/collectors/event_aggregator.c:174-192 | One more call is one more hit on the stored payload, or a new item at the end: first-seen order with exact counts |
| EventAggregator.TallyCounts | src/agent/src/collectors/event_aggregator.c:174-192 | The stored hit count of a payload is the number of its calls since the last flush, in 32 bits |
| EventAggregator.HitsSplit | src/agent/src/collectors/event_aggregator.c:346-414 | Every hit of a flushed item is emitted or lost, never both |
| EventAggregator.FlushedHits | src/agent/src/collectors/event_aggregator.c:437-459 | Over any history emitted + lost is at most the calls flushed, and equal exactly when no window saw the payload 2^32 times |
| EventAggregator.HitsConserved | src/agent/src/collectors/event_aggregator.c:174-219 | Calls = emitted + lost + still stored, exactly under that condition |
| EventAggregator.WrappedCount | src/agent/src/collectors/event_aggregator.c:188 | After 2^32 calls for one payload in a window no hit is stored |
| EventAggregator.EmissionsExact | src/agent/src/collectors/event_aggregator.c:346-414 | Whatever is emitted is an item whose emission succeeded, with its count and the two ends of the window |
| EventAggregator.EmissionsComplete | src/agent/src/collectors/event_aggregator.c:425-459 | If every emission succeeds, every item is emitted, in order |
| EventAggregator.EventAggregator.constructor | src/agent/src/collectors/event_aggregator.c:110-154 | Init starts an empty window at the present |
| EventAggregator.EventAggregator.AggregateEvent | src/agent/src/collectors/event_aggregator.c:174-192 | The stored items stay the tally of the accepted calls; which calls are accepted, and the result codes |
| EventAggregator.EventAggregator.GetAggregatedEvents | src/agent/src/collectors/event_aggregator.c:194-219 | Flushes exactly when aggregation is off or 1000 times the seconds since the last flush exceed the interval, up to 2^31 - 1 milliseconds; the emissions are the tally of the window; windows tile the time from Init without gap or overlap |
| EventAggregator.EventAggregator.CreateAggregatedEvents | src/agent/src/collectors/event_aggregator.c:425-459 | Every stored item is attempted in order even after a failure, then all are cleared; the result tells whether any failed |
| EventAggregator.FlushAfterTwoHours | src/agent/src/collectors/event_aggregator.c:194-219 | Literal times: with an interval of an hour nothing leaves after exactly that hour, and after two hours one event with both hits and the whole window |
| Common.TimeDiffExact | src/agent/src/internal/time_utils.c:19-21 | Up to 2^31 - 1 milliseconds a time difference is a thousand times the seconds |
| AddressText.NtohlInvolution | src/agent/inc/os_utils/linux/iptables/iptables_def.h:29-35 | Byte order conversion is its own inverse |
| AddressText.LeadingOnesIff | src/agent/src/os_utils/linux/iptables/iptables_utils.c:23-33 | Exactly the numbers 2^32 - 2^i have 32 - i leading ones followed by zeros |
| AddressText.SearchExact | src/agent/src/os_utils/linux/iptables/iptables_utils.c:23-33 | The search finds i if and only if the mask is 32 - i leading ones, for 1 to 32 of them |
| AddressText.FindMask | src/agent/src/os_utils/linux/iptables/iptables_utils.c:23-33 | The shifting loop computes that search |
| AddressText.AddressReads | src/agent/src/os_utils/linux/iptables/iptables_utils.c:35-50 | The text determines the bytes of address and mask in the order in which they lie in memory, and the negation: it reads back as all three, so printing is injective |
| AddressText.DottedBytes | src/agent/inc/os_utils/linux/iptables/iptables_def.h:29-35 | The numbers between dots are the address's four bytes in the order in which they lie in memory |
| AddressText.MaskBytes | src/agent/src/os_utils/linux/iptables/iptables_utils.c:23-50 | A mask stored as four bytes prints as /k exactly if they are, in that order, k leading ones and then zeros; as nothing if all are zero; byte by byte otherwise |
| AddressText.FormatIp | src/agent/src/os_utils/linux/iptables/iptables_utils.c:18-51 | No data exactly for the zero pair, refused exactly when the text does not fit, otherwise the buffer holds the text |
| AddressText.Loopback | src/agent/src/os_utils/linux/iptables/iptables_utils.c:18-51 | The stored forms of 127.0.0.1 and 255.0.0.0 print as 127.0.0.1/8 |
| AddressText.MaskSuffix | src/agent/src/os_utils/linux/iptables/iptables_utils.c:23-50 | The found prefix length, nothing for the zero mask, or the mask itself |
| Multiport.LastStartsNoRange | src/agent/src/os_utils/linux/iptables/iptables_multiport.c:86-102 | If the last entry in use starts no range, what is printed depends on the entries in use only |
| Multiport.RoomToPair | src/agent/src/os_utils/linux/iptables/iptables_multiport.c:86-102 | The loop stays inside the arrays whenever some entry is not in use or the last one starts no range |
| Multiport.RangesTakeAll | src/agent/src/os_utils/linux/iptables/iptables_multiport.c:86-102 | The ranges take the entries in use one by one, in order, and at most one beyond; an entry starts a range exactly where its flag says so |
| Multiport.PortsRead | src/agent/src/os_utils/linux/iptables/iptables_multiport.c:76-109 | Splitting on comma and dash and reading the negation wrapper recovers exactly the ranges and the flag |
| Multiport.AppendRange | src/agent/src/os_utils/linux/iptables/iptables_multiport.c:87-101 | One range behind a comma unless it is the first; failure only if the whole text does not fit |
| Multiport.FormatMultiportV1Match | src/agent/src/os_utils/linux/iptables/iptables_multiport.c:76-109 | Across the loop that skips two entries for a range: refused exactly when the text does not fit, otherwise the buffer holds the text of exactly the ranges |
| Multiport.FormatMultiportMatch | src/agent/src/os_utils/linux/iptables/iptables_multiport.c:60-74 | The same for the older format of single ports |
| GroupJoin.Int32FitsIff | src/agent/src/utils.c:47-64 | An int32_t fits the 11-byte buffer exactly when it is above -1000000000 |
| GroupJoin.ElevenCharacters | src/agent/src/utils.c:55-57 | A group id for which the conversion fails |
| GroupJoin.JoinLength | src/agent/src/collectors/linux/local_users_collector.c:84-107 | The length of a join is the lengths plus one delimiter fewer than parts |
| GroupJoin.CalculateSizeOfGroups | src/agent/src/collectors/linux/local_users_collector.c:84-107 | The first pass computes the exact size of both joins with their NUL, in 32-bit arithmetic; zero for no groups |
| GroupJoin.AppendValueName | src/agent/src/collectors/linux/local_users_collector.c:73-82 | A delimiter unless first, then the value, at the position, and nothing behind it touched |
| GroupJoin.GenerateGroupNamesAndIds | src/agent/src/collectors/linux/local_users_collector.c:109-136 | The second pass writes exactly the two joins inside the buffers and leaves the bytes behind them alone |
| GroupJoin.FillBuffers | src/agent/src/collectors/linux/local_users_collector.c:158-175 | Fresh zeroed buffers of the sizes of the first pass end up holding exactly the join and one NUL |
| GroupJoin.AddGroupsForUser | src/agent/src/collectors/linux/local_users_collector.c:138-201 | Succeeds if and only if every id fits, both allocations and both writes succeed; the library is handed the join and one NUL, names before ids, or two buffers without any room for a user without groups |
| GroupJoin.GroupsRecovered | src/agent/src/collectors/linux/local_users_collector.c:73-136 | Splitting on the delimiter recovers the names when none contains it, and the ids, as numbers, always |
| GroupJoin.IntegerReads | src/agent/src/utils.c:47-64 | A printed id reads back as the number it is |
| GroupJoin.IntegersAsText | src/agent/src/utils.c:47-64 | Three ids as text |
| GroupJoin.JoinsAsText | src/agent/src/collectors/linux/local_users_collector.c:73-82 | Two groups are joined by a semicolon |
| TextSplit.SplitJoin | src/agent/src/collectors/linux/local_users_collector.c:73-82 | Splitting undoes joining when no part contains the separator |

## Left out

- Pipeline.AgentQueues.PushBack: requires that size, overhead and largest limit together fit in 32 bits, because otherwise a wrapped sum is granted and the accounting is lost, as `PipelineSpec.WrappedGrant` shows; `EventQueue.Queue.PushBack` has no such bound.
- Pipeline.AgentQueues.RunOthers: requires the same bound of every push in the batch, likewise.
- TimeUtils.ParseDateString: requires a readable text: no white space, sign or NUL, and every numeral below 2^32; beyond that the result of `sscanf` is that of the C library and partly undefined.
- TimeUtils.ParseTimeString: requires a readable text, likewise.
- TimeUtils.ISO8601DurationStringToMilliseconds: requires a readable text, likewise.
- TwinConfiguration.ReadTyped: requires that a text read as a duration is readable, likewise.
- TwinConfiguration.GetConfigurationValueFromJson: requires that a text read as a duration is readable, and that the key has no dot, which holds for every key of the schema.
- TwinConfiguration.SetSingleValue: requires that the duration texts of the object are readable.
- TwinConfiguration.ExtractConfiguration: requires that the duration texts of the object are readable.
- TwinConfiguration.TwinState.SetValues: requires that the duration texts of the object are readable.
- TwinConfiguration.TwinState.Update: requires that the duration texts of the object are readable.
- TwinConfiguration.TwinState.Install: requires that the duration texts of the object are readable.
- TwinSpec.Memoryless: about the decoding function for all texts; it is the program's for documents whose duration texts are readable.
- TwinSpec.ReachableWellTimed: about the decoding function for all texts, likewise.
- Multiport.FormatMultiportV1Match: requires that a range start in the last entry of the arrays is not in use; the code would read behind the array.
- GroupJoin.AddGroupsForUser: requires that both joins are shorter than 2^32 - 1 characters, and that the iterator shows the same groups in both passes.
- LockOrder.DeadlockFreeIff: about the operations listed in `LockOrder.Operation`; the twin's update and print, which take the collectors' lock inside the twin lock, and the collectors' getters are not among them, because that lock's `isLocked` flag is read outside the lock and some default cases return without unlocking, so mutual exclusion there is no theorem.
- Interleaving.EveryInterleaving: about pushes and pops; Queue_Deinit, which runs at shutdown and takes no lock, is a
  whole operation only.
- Lock failures: `Lock` and `Unlock` are taken to succeed, so the lock-exception results of the wrappers do not appear.
- Memory failures of the twin configuration and of the JSON library inside it; its single-field getters; the time stamp
  of the last update.
- JSON text: documents are trees; parson's parsing, printing and memory are assumed, and the equality of payloads it
  offers is taken as equality. A number out of the range of int32_t reads as what an x86-64 conversion delivers.
- Time differences are wrapped to 32 bits where the code converts a double to int32_t, which is the same thing for
  differences below 2^31 milliseconds; longer ones are not modelled.
- The failure branches of the duration printer that its own length check makes unreachable are not written out; the three
  SetSingle... functions of each configuration half are one function driven by the key, with the same order of reads.
- The singly linked list of the aggregator is a sequence; insertion at its tail and search from its head are assumed.
- DiagnosticEventCollector_Deinit, CorrelationManager, severity thresholds and the texts of log messages; whether a failing
  push logs to the diagnostic queue is an arbitrary choice.
- The message counters of the telemetry, which use the same two functions on other fields.
- IptablesUtils_FormatProtocol, IptablesUtils_FormatRangedPorts, IptablesMultiport_GetPorts and the remaining helpers of
  utils.c: single branches or copies.
- Event builders, collectors, iterators over processes, users, audit and firewall rules, the IoT hub adapter,
  authentication, certificates, scheduling of tasks and start-up of the agent.

/** The publisher task: decides when to send, and feeds the serializer with the queues in priority order. */
module EventPublisher {
  import opened Common
  import opened MemoryMonitor
  import opened EventQueue
  import opened PipelineSpec
  import opened Pipeline
  import opened MessageSerializer
  import opened PublisherSpec

  /** A message that is due: for the high or the low priority queue, and which of the tick's sends it is. */
  datatype Due = Due(high: bool, index: nat)

  /** At most one message for the high priority queue is due. */
  function HighDue(pressure: bool, periodOver: bool): seq<Due> {
    if pressure then [Due(true, 0)] else if periodOver then [Due(true, 1)] else []
  }

  function LowDue(periodOver: bool): seq<Due> {
    if periodOver then [Due(false, 2)] else []
  }

  /** Whether some message of this kind is among those due. */
  predicate Serves(high: bool, due: seq<Due>) {
    exists k :: 0 <= k < |due| && due[k].high == high
  }

  /** The messages of a tick as they come about one by one. */
  lemma DueOneByOne(pressure: bool, highOver: bool, lowOver: bool)
    ensures var first := if pressure then [] + [Due(true, 0)] else [];
            var second := if highOver && !pressure then first + [Due(true, 1)] else first;
            var due := if lowOver then second + [Due(false, 2)] else second;
            && due == HighDue(pressure, highOver) + LowDue(lowOver)
            && (Serves(true, due) <==> pressure || highOver) && (Serves(false, due) <==> lowOver)
  {
    var due := HighDue(pressure, highOver) + LowDue(lowOver);
    assert pressure || highOver ==> due[0].high;
    assert lowOver ==> !due[|due| - 1].high;
  }

  class EventPublisherTask {
    const p: AgentQueues
    const operationalEventsQueue: nat
    const highPriorityEventQueue: nat
    const lowPriorityEventQueue: nat
    var highPriorityQueueLastExecution: int
    var lowPriorityQueueLastExecution: int
    /** The rest of the agent, and the number of the next operation: no batch and no answer is ever used twice. */
    const producers: nat -> seq<Op>
    const appended: nat -> bool
    var clock: nat
    ghost var ledger: Ledger
    ghost const start: State

    /** The queues nobody else pops from. */
    ghost function Own(): set<nat> {
      {operationalEventsQueue, highPriorityEventQueue, lowPriorityEventQueue}
    }

    ghost function Outside(): World {
      World(producers, appended, Own())
    }

    ghost function Now(): Moment
      reads this, p, p.monitor, p.queues
    {
      Moment(ledger, p.Value(), clock)
    }

    ghost predicate Valid()
      reads this, p, p.monitor, p.queues, p.nodes
    {
      && p.Valid() && Bounded(|p.queues|, Own(), producers, p.cap)
      && (forall q | q in Own() :: q < |p.queues|)
      && Accurate(start, p.Value(), Outside(), ledger, clock)
    }

    constructor (p: AgentQueues, operationalQueue: nat, highQueue: nat, lowQueue: nat, now: int,
                 producers: nat -> seq<Op>, appended: nat -> bool)
      requires p.Valid() && operationalQueue < |p.queues| && highQueue < |p.queues| && lowQueue < |p.queues|
      requires Bounded(|p.queues|, {operationalQueue, highQueue, lowQueue}, producers, p.cap)
      ensures Valid() && start == p.Value() && ledger == Ledger([], [], []) && clock == 0
      ensures highPriorityQueueLastExecution == now && lowPriorityQueueLastExecution == now
      ensures this.p == p && operationalEventsQueue == operationalQueue
      ensures highPriorityEventQueue == highQueue && lowPriorityEventQueue == lowQueue
      ensures this.producers == producers && this.appended == appended
    {
      hide AgentQueues.Valid, AgentQueues.Value, Bounded, Accurate;
      this.p := p;
      operationalEventsQueue, highPriorityEventQueue, lowPriorityEventQueue := operationalQueue, highQueue, lowQueue;
      highPriorityQueueLastExecution, lowPriorityQueueLastExecution := now, now;
      this.producers, this.appended, clock := producers, appended, 0;
      ledger := Ledger([], [], []);
      start := p.Value();
      new;
      p.ValidValue();
      NothingEntered(start, Outside());
    }

    /** What one tick has to send, in order: memory pressure comes first and postpones the high priority schedule. */
    ghost function DueSends(now: int, high: Option<u32>, low: Option<u32>, max: Option<u32>): (due: seq<Due>)
      reads this, p.monitor
    {
      if high.None? || low.None? || max.None? then []
      else
        HighDue(p.monitor.currentConsumptionInBytes > max.value,
                TimeDiff(now, highPriorityQueueLastExecution) > high.value)
        + LowDue(TimeDiff(now, lowPriorityQueueLastExecution) > low.value)
    }

    /** The queues of one message: operational events, the main queue, and the other one as padding. */
    function QueuesOf(high: bool): (queues: seq<nat>)
      ensures |queues| == 3
    {
      if high then [operationalEventsQueue, highPriorityEventQueue, lowPriorityEventQueue]
      else [operationalEventsQueue, lowPriorityEventQueue, highPriorityEventQueue]
    }

    /** The size of one of the publisher's queues, after whatever the other threads did. */
    method LookAt(mainQueue: nat) returns (queueSize: u32)
      requires Valid() && mainQueue in Own()
      modifies this`clock, p`pushed, p`popped, p`nodes, p.monitor, p.queues, p.nodes
      ensures Valid() && fresh(p.nodes - old(p.nodes)) && clock == old(clock) + 1
      ensures RanOthers(old(p.Value()), producers(old(clock)), p.Value())
      ensures Reached(old(p.Value()), p.Value(), Own(), mainQueue, []) && queueSize == |p.Value().queues[mainQueue]|
      ensures NoProducers(producers) ==> p.Value() == old(p.Value())
    {
      hide AgentQueues.Valid, AgentQueues.Value, Reached, NoProducers, Bounded, Accurate, RanOthers;
      ghost var s := p.Value();
      queueSize := ObserveSize(p, Own(), mainQueue, producers, clock);
      StillAccurate(start, s, p.Value(), Outside(), ledger, mainQueue, clock, clock + 1);
      clock := clock + 1;
    }

    /** An attempt without any turn counts as an empty events array. */
    ghost method NoteNothing()
      requires Valid() && operationalEventsQueue in Own()
      modifies this`ledger
      ensures Valid() && ledger == Entered(old(ledger), [], [])
    {
      hide AgentQueues.Valid, AgentQueues.Value, Bounded, Accurate, Reached;
      p.ValidValue();
      ReachedSelf(p.Value(), Own(), operationalEventsQueue);
      StillAccurate(start, p.Value(), p.Value(), Outside(), ledger, operationalEventsQueue, clock, clock);
      ledger := Entered(ledger, [], []);
    }

    /** Builds one message from the queues in the given order and enters its turns in the ledger. */
    method BuildMessage(queuesOrder: seq<nat>, outcome: SendOutcome)
      returns (result: SerializerResult, buffer: Option<seq<Event>>, ghost taken: seq<Turn>, ghost stages: seq<State>,
               ghost logs: seq<seq<Operation>>)
      requires Valid() && |queuesOrder| == 3 && forall j | 0 <= j < |queuesOrder| :: queuesOrder[j] in Own()
      requires outcome.maxMessageSize.Some? ==> p.cap + outcome.maxMessageSize.value <= U32_MAX
      modifies this`ledger, this`clock, p`pushed, p`popped, p`nodes, p.monitor, p.queues, p.nodes
      ensures Valid() && fresh(p.nodes - old(p.nodes)) && old(clock) <= clock
      ensures |taken| == TurnsOf(outcome) && ledger == Entered(old(ledger), queuesOrder[..|taken|], taken)
      ensures ReachedByTurns(old(p.Value()), p.Value(), Own(), queuesOrder[..|taken|], taken)
      ensures AllAnswered(taken, appended, old(clock), clock)
      ensures LeftExhausted(old(p.Value()), stages, Own(), queuesOrder, taken, outcome.maxMessageSize.GetOr(0))
      ensures MessageLog(old(p.Value()), p.Value(), producers, old(clock), clock, queuesOrder, taken, logs, stages,
                         outcome.maxMessageSize.GetOr(0))
      ensures p.Value() == if stages == [] then old(p.Value()) else stages[|stages| - 1]
      ensures PackedBy(taken) != [] ==> Sizes(PackedBy(taken)) < outcome.maxMessageSize.GetOr(0)
      ensures buffer.Some? <==> Sendable(result)
      ensures buffer.Some? <==>
                outcome.json.header && outcome.json.written && outcome.json.serialized && PackedBy(taken) != []
      ensures buffer.Some? ==> buffer.value == PackedBy(taken)
      ensures NoProducers(producers) ==>
                && p.Value().pushed == old(p.Value().pushed)
                && NothingMoreFits(p.Value(), queuesOrder, taken, outcome.maxMessageSize)
    {
      hide AgentQueues.Valid, AgentQueues.Value, ReachedByTurns, NoProducers, Bounded, AllExhausted, Sizes, SomeFailed,
           ListResult, PackedBy, AllAnswered, Accurate, LeftExhausted, MessageLog;
      ghost var s := p.Value();
      var newClock;
      result, buffer, newClock, taken, stages, logs :=
        CreateSecurityMessage(p, Own(), queuesOrder, outcome.maxMessageSize, outcome.json, producers, appended, clock);
      EnteredAccurate(start, s, p.Value(), Outside(), ledger, queuesOrder[..|taken|], taken, clock, newClock);
      ledger := Entered(ledger, queuesOrder[..|taken|], taken);
      clock := newClock;
    }

    /**
     * One message: operational events first, then the main queue, then the padding queue; an empty main queue sends
     * nothing at all. `a` records everything about the call.
     */
    method SendEvents(mainQueue: nat, paddingQueue: nat, outcome: SendOutcome)
      returns (success: bool, sent: Option<seq<Event>>, ghost a: Attempt)
      requires Valid() && mainQueue in Own() && paddingQueue in Own()
      requires outcome.maxMessageSize.Some? ==> p.cap + outcome.maxMessageSize.value <= U32_MAX
      modifies this`ledger, this`clock, p`pushed, p`popped, p`nodes, p.monitor, p.queues, p.nodes
      ensures Valid() && fresh(p.nodes - old(p.nodes)) && Attempted(Outside(), a)
      ensures a.queues == [operationalEventsQueue, mainQueue, paddingQueue] && a.outcome == outcome
      ensures a.before == old(p.Value()) && a.clock == old(clock) && Now() == After(old(Now()), a)
      ensures success == a.success && sent == a.sent
    {
      hide EventPublisherTask.Valid, AgentQueues.Value, NoProducers, Sizes, PackedBy, AllAnswered, LeftExhausted,
           ReachedByTurns, Reached, RanOthers, Conserved, NothingMoreFits, MessageLog, Attempted;
      success, sent := true, None;
      ghost var before, t := p.Value(), clock;
      var queuesOrder := [operationalEventsQueue, mainQueue, paddingQueue];
      ConservedNow();
      var queueSize := LookAt(mainQueue);
      ghost var seen := p.Value();
      ConservedNow();
      if queueSize == 0 {
        NoteNothing();
        a := Attempt(queuesOrder, outcome, before, seen, [], seen, t, clock, [], [], success, sent);
        EmptyAttempt(Outside(), a);
        return;
      }
      success, sent, a := SendMessage(queuesOrder, outcome, before, t);
    }

    /** The rest of SendEvents, once the main queue was seen not to be empty. */
    method SendMessage(queuesOrder: seq<nat>, outcome: SendOutcome, ghost before: State, ghost t: nat)
      returns (success: bool, sent: Option<seq<Event>>, ghost a: Attempt)
      requires Valid() && |queuesOrder| == 3 && AllIn(queuesOrder, Own()) && Conserved(before) && clock == t + 1
      requires outcome.maxMessageSize.Some? ==> p.cap + outcome.maxMessageSize.value <= U32_MAX
      requires RanOthers(before, producers(t), p.Value()) && Reached(before, p.Value(), Own(), queuesOrder[1], [])
      requires !IsEmpty(p.Value(), queuesOrder[1]) && (NoProducers(producers) ==> p.Value() == before)
      modifies this`ledger, this`clock, p`pushed, p`popped, p`nodes, p.monitor, p.queues, p.nodes
      ensures Valid() && fresh(p.nodes - old(p.nodes)) && Attempted(Outside(), a)
      ensures a.queues == queuesOrder && a.outcome == outcome && a.before == before && a.clock == t
      ensures Now() == After(old(Now()), a) && success == a.success && sent == a.sent
    {
      hide EventPublisherTask.Valid, AgentQueues.Value, NoProducers, Sizes, PackedBy, AllAnswered, LeftExhausted,
           ReachedByTurns, Reached, RanOthers, Conserved, NothingMoreFits, MessageLog;
      ghost var seen := p.Value();
      ConservedNow();
      sent := None;
      var result, buffer;
      ghost var taken, stages, logs;
      result, buffer, taken, stages, logs := BuildMessage(queuesOrder, outcome);
      AnsweredSince(taken, appended, t, t + 1, clock);
      ConservedNow();
      success := Sendable(result) && outcome.sent;
      if success {
        sent := buffer;
      }
      a := Attempt(queuesOrder, outcome, before, seen, stages, p.Value(), t, clock, taken, logs, success, sent);
    }

    lemma ConservedNow()
      requires Valid()
      ensures Conserved(p.Value()) && forall q | q in Own() :: q < |p.Value().queues|
    {
      p.ValidValue();
    }

    /** The attempts are those that were due, each with its queues and its answers from outside. */
    ghost predicate Matches(attempts: seq<Attempt>, due: seq<Due>, outcomes: nat -> SendOutcome) {
      && |attempts| == |due|
      && forall k | 0 <= k < |due| ::
           attempts[k].queues == QueuesOf(due[k].high) && attempts[k].outcome == outcomes(due[k].index)
    }

    lemma NothingMatched(outcomes: nat -> SendOutcome)
      ensures Matches([], [], outcomes)
    {
    }

    /** Sends for one of the two schedules, notes when it did, and adds the attempt to those made since `m`. */
    method SendScheduled(d: Due, now: int, outcomes: nat -> SendOutcome, ghost m: Moment, ghost attempts: seq<Attempt>,
                         ghost due: seq<Due>)
      returns (ghost newAttempts: seq<Attempt>)
      requires Valid() && Matches(attempts, due, outcomes)
      requires forall k :: outcomes(k).maxMessageSize.Some? ==> p.cap + outcomes(k).maxMessageSize.value <= U32_MAX
      requires Chained(Outside(), m, attempts) && Now() == AfterAll(m, attempts)
      modifies this, p`pushed, p`popped, p`nodes, p.monitor, p.queues, p.nodes
      ensures Valid() && fresh(p.nodes - old(p.nodes))
      ensures Matches(newAttempts, due + [d], outcomes)
      ensures Chained(Outside(), m, newAttempts) && Now() == AfterAll(m, newAttempts)
      ensures highPriorityQueueLastExecution == if d.high then now else old(highPriorityQueueLastExecution)
      ensures lowPriorityQueueLastExecution == if d.high then old(lowPriorityQueueLastExecution) else now
    {
      hide AgentQueues.Valid, AgentQueues.Value, Bounded, Accurate, Attempted, Chained, AfterAll, After;
      ghost var a;
      if d.high {
        var _, _, attempt := SendEvents(highPriorityEventQueue, lowPriorityEventQueue, outcomes(d.index));
        highPriorityQueueLastExecution, a := now, attempt;
      } else {
        var _, _, attempt := SendEvents(lowPriorityEventQueue, highPriorityEventQueue, outcomes(d.index));
        lowPriorityQueueLastExecution, a := now, attempt;
      }
      OneMoreAttempt(Outside(), m, attempts, a);
      newAttempts := attempts + [a];
    }

    /**
     * One tick of the scheduler: exactly the messages that are due are attempted, one after the other. A failing twin
     * getter skips the whole tick.
     */
    method Execute(now: int, highFrequency: Option<u32>, lowFrequency: Option<u32>, maxMessageSize: Option<u32>,
                   outcomes: nat -> SendOutcome)
      returns (ghost attempts: seq<Attempt>)
      requires Valid()
      requires forall k :: outcomes(k).maxMessageSize.Some? ==> p.cap + outcomes(k).maxMessageSize.value <= U32_MAX
      modifies this, p`pushed, p`popped, p`nodes, p.monitor, p.queues, p.nodes
      ensures Valid() && fresh(p.nodes - old(p.nodes))
      ensures Chained(Outside(), old(Now()), attempts) && Now() == AfterAll(old(Now()), attempts)
      ensures Matches(attempts, old(DueSends(now, highFrequency, lowFrequency, maxMessageSize)), outcomes)
      ensures highPriorityQueueLastExecution ==
                if Serves(true, old(DueSends(now, highFrequency, lowFrequency, maxMessageSize))) then now
                else old(highPriorityQueueLastExecution)
      ensures lowPriorityQueueLastExecution ==
                if Serves(false, old(DueSends(now, highFrequency, lowFrequency, maxMessageSize))) then now
                else old(lowPriorityQueueLastExecution)
      ensures highFrequency.None? || lowFrequency.None? || maxMessageSize.None? ==>
                && attempts == [] && highPriorityQueueLastExecution == old(highPriorityQueueLastExecution)
                && lowPriorityQueueLastExecution == old(lowPriorityQueueLastExecution)
      ensures var dh, dl := now - old(highPriorityQueueLastExecution), now - old(lowPriorityQueueLastExecution);
              && highFrequency.Some? && lowFrequency.Some? && maxMessageSize.Some?
              && 0 <= dh && 1000 * dh <= 0x7FFF_FFFF && 0 <= dl && 1000 * dl <= 0x7FFF_FFFF ==>
                var pressure := old(p.monitor.currentConsumptionInBytes) > maxMessageSize.value;
                var high, low := pressure || 1000 * dh > highFrequency.value, 1000 * dl > lowFrequency.value;
                && |attempts| == (if high then 1 else 0) + (if low then 1 else 0)
                && (high ==>
                      && attempts[0].queues == [operationalEventsQueue, highPriorityEventQueue, lowPriorityEventQueue]
                      && attempts[0].outcome == outcomes(if pressure then 0 else 1))
                && (low ==>
                      && attempts[|attempts| - 1].queues
                         == [operationalEventsQueue, lowPriorityEventQueue, highPriorityEventQueue]
                      && attempts[|attempts| - 1].outcome == outcomes(2))
                && highPriorityQueueLastExecution == (if high then now else old(highPriorityQueueLastExecution))
                && lowPriorityQueueLastExecution == (if low then now else old(lowPriorityQueueLastExecution))
    {
      attempts := [];
      hide EventPublisherTask.Valid, EventPublisherTask.Matches, EventPublisherTask.Now, TimeDiff, Attempted, Chained,
           AfterAll, Serves, HighDue, LowDue, EventPublisherTask.QueuesOf, AgentQueues.Valid, AgentQueues.Value;
      NoTimePassed(now);
      NothingAttempted(Outside(), Now());
      NothingMatched(outcomes);
      if highFrequency.None? || lowFrequency.None? || maxMessageSize.None? {
        assert !Serves(true, []) && !Serves(false, []) by {
          DueOneByOne(false, false, false);
        }
        return;
      }
      DueOneByOne(p.monitor.currentConsumptionInBytes > maxMessageSize.value,
                  TimeDiff(now, highPriorityQueueLastExecution) > highFrequency.value,
                  TimeDiff(now, lowPriorityQueueLastExecution) > lowFrequency.value);
      ghost var m, due: seq<Due> := Now(), [];
      var consumption := p.monitor.CurrentConsumption();
      if consumption > maxMessageSize.value {
        attempts := SendScheduled(Due(true, 0), now, outcomes, m, attempts, due);
        due := due + [Due(true, 0)];
      }
      var highPriorityQueueTimeDiff := TimeDiff(now, highPriorityQueueLastExecution);
      var lowPriorityQueueTimeDiff := TimeDiff(now, lowPriorityQueueLastExecution);
      if highPriorityQueueTimeDiff > highFrequency.value {
        attempts := SendScheduled(Due(true, 1), now, outcomes, m, attempts, due);
        due := due + [Due(true, 1)];
      }
      if lowPriorityQueueTimeDiff > lowFrequency.value {
        attempts := SendScheduled(Due(false, 2), now, outcomes, m, attempts, due);
        due := due + [Due(false, 2)];
      }
      TickExact(attempts, outcomes, now, old(highPriorityQueueLastExecution), old(lowPriorityQueueLastExecution),
                highFrequency.value, lowFrequency.value, consumption > maxMessageSize.value);
    }

    /** The attempts of a tick by the clock, as long as the last sends are no more than 2^31 - 1 milliseconds ago. */
    lemma TickExact(attempts: seq<Attempt>, outcomes: nat -> SendOutcome, now: int, lastHigh: int, lastLow: int,
                    highFrequency: u32, lowFrequency: u32, pressure: bool)
      requires Matches(attempts, HighDue(pressure, TimeDiff(now, lastHigh) > highFrequency)
                                 + LowDue(TimeDiff(now, lastLow) > lowFrequency), outcomes)
      ensures 0 <= now - lastHigh && 1000 * (now - lastHigh) <= 0x7FFF_FFFF
              && 0 <= now - lastLow && 1000 * (now - lastLow) <= 0x7FFF_FFFF ==>
                var high := pressure || 1000 * (now - lastHigh) > highFrequency;
                var low := 1000 * (now - lastLow) > lowFrequency;
                && (TimeDiff(now, lastHigh) > highFrequency <==> 1000 * (now - lastHigh) > highFrequency)
                && (TimeDiff(now, lastLow) > lowFrequency <==> low)
                && |attempts| == (if high then 1 else 0) + (if low then 1 else 0)
                && (high ==>
                      && attempts[0].queues == [operationalEventsQueue, highPriorityEventQueue, lowPriorityEventQueue]
                      && attempts[0].outcome == outcomes(if pressure then 0 else 1))
                && (low ==>
                      && attempts[|attempts| - 1].queues
                         == [operationalEventsQueue, lowPriorityEventQueue, highPriorityEventQueue]
                      && attempts[|attempts| - 1].outcome == outcomes(2))
    {
      if 0 <= now - lastHigh && 1000 * (now - lastHigh) <= 0x7FFF_FFFF
         && 0 <= now - lastLow && 1000 * (now - lastLow) <= 0x7FFF_FFFF {
        TimeDiffExact(now, lastHigh);
        TimeDiffExact(now, lastLow);
        hide TimeDiff;
        var due := HighDue(pressure, TimeDiff(now, lastHigh) > highFrequency)
                   + LowDue(TimeDiff(now, lastLow) > lowFrequency);
        assert forall k | 0 <= k < |due| ::
            attempts[k].queues == QueuesOf(due[k].high) && attempts[k].outcome == outcomes(due[k].index);
      }
    }

    /**
     * When the message that memory pressure asks for is really sent. The state is that before the tick: without other
     * threads at work and with a library that appends everything, exactly if the high priority queue is not empty, some
     * queue starts with a JSON object of at least one byte and less than the maximum, and twin, library and hub play
     * along.
     */
    lemma PressureSendsIff(m: Moment, attempts: seq<Attempt>, outcome: SendOutcome)
      requires Chained(Outside(), m, attempts) && attempts != []
      requires attempts[0].queues == [operationalEventsQueue, highPriorityEventQueue, lowPriorityEventQueue]
      requires attempts[0].outcome == outcome
      requires NoProducers(producers) && (forall t :: appended(t)) && Distinct(attempts[0].queues)
      requires forall q | q in Own() :: q < |m.state.queues|
      ensures attempts[0].sent.Some? <==>
                && m.state.queues[highPriorityEventQueue] != []
                && outcome.json.header && outcome.maxMessageSize.Some? && outcome.json.initialized
                && outcome.json.written && outcome.json.serialized && outcome.sent
                && exists q :: q in Own() && m.state.queues[q] != [] && m.state.queues[q][0].isJsonObject &&
                               1 <= m.state.queues[q][0].dataSize < outcome.maxMessageSize.value
    {
      hide Attempted, Distinct;
      assert attempts[..0] == [];
      assert attempts[0].before == m.state;
      SentIff(Outside(), attempts[0]);
      var queues := attempts[0].queues;
      assert forall q | q in Own() :: q == queues[0] || q == queues[1] || q == queues[2];
    }

    /**
     * A whole tick, in terms of the queues: its attempts are a series of numbered operations on the publisher's own
     * queues, each after exactly the others' batch of that number, and nothing else happens.
     */
    lemma TickOperations(m: Moment, attempts: seq<Attempt>, due: seq<Due>, outcomes: nat -> SendOutcome)
      requires Chained(Outside(), m, attempts) && Matches(attempts, due, outcomes)
      ensures Operated(m.state, producers, m.clock, AttemptLogs(attempts), AfterAll(m, attempts).state)
      ensures AfterAll(m, attempts).clock == m.clock + |AttemptLogs(attempts)|
      ensures OnlyOn(AttemptLogs(attempts), Own())
    {
      hide Chained, Operated, OnlyOn;
      ChainOperated(Outside(), m, attempts);
      forall k | 0 <= k < |attempts| ensures AllIn(attempts[k].queues, Own()) {
        assert attempts[k].queues == QueuesOf(due[k].high);
      }
      OwnOperationsOnly(Outside(), m, attempts);
    }

    /** A queue that is not the publisher's, and that nobody else touches either, is the same after the tick. */
    lemma OtherQueuesUntouched(m: Moment, attempts: seq<Attempt>, due: seq<Due>, outcomes: nat -> SendOutcome, q: nat)
      requires Chained(Outside(), m, attempts) && Matches(attempts, due, outcomes)
      requires HasQueue(m.state, q) && q !in Own() && forall t: nat :: Avoids(producers(t), q)
      ensures Untouched(m.state, AfterAll(m, attempts).state, q)
    {
      hide Chained, Operated, AttemptLogs, Avoids;
      TickOperations(m, attempts, due, outcomes);
      var log := AttemptLogs(attempts);
      forall k | 0 <= k < |log| ensures PassesBy(producers(m.clock + k), log[k], q) {
        assert log[k].queue in Own();
      }
      OperatedElsewhere(m.state, producers, m.clock, log, AfterAll(m, attempts).state, q);
    }

    /**
     * Between two ticks other threads do whatever they like elsewhere, such as draining the diagnostic queue, and push
     * to the publisher's queues; the ledger stays true.
     */
    method Idle(batch: seq<Op>)
      requires Valid() && Foreign(|p.queues|, Own(), batch, p.cap)
      modifies p`pushed, p`popped, p`nodes, p.monitor, p.queues, p.nodes
      ensures Valid() && fresh(p.nodes - old(p.nodes)) && p.Value() == Run(old(p.Value()), batch)
    {
      hide AgentQueues.Valid, AgentQueues.Value, Reached, Run, Foreign, Bounded, Accurate;
      ghost var s := p.Value();
      p.ValidValue();
      assert highPriorityEventQueue in Own();
      IdleReached(s, |p.queues|, Own(), batch, p.cap, highPriorityEventQueue);
      p.RunOthers(batch);
      StillAccurate(start, s, p.Value(), Outside(), ledger, highPriorityEventQueue, clock, clock);
    }

    /**
     * After any number of ticks with anything in between: per queue of the publisher, what was accepted is what had
     * been popped before, then what the turns took, then what is still queued; every event taken is in exactly one
     * events array or ended its queue's turn; and it ended it because it is no JSON object or because the JSON library
     * refused it, by the answer given for this event and no other.
     */
    lemma EventsConserved(q: nat)
      requires Valid() && Conserved(start) && q in Own()
      ensures p.pushed[q] == start.popped[q] + TakenFrom(ledger.order, ledger.turns, q) + p.Value().queues[q]
      ensures multiset(AllTaken(ledger.turns)) == multiset(Flatten(ledger.arrays)) + multiset(FailuresOf(ledger.turns))
      ensures multiset(Flatten(Lanes(|p.queues|, ledger.order, ledger.turns))) == multiset(AllTaken(ledger.turns))
      ensures |FailuresOf(ledger.turns)| <= |ledger.turns|
      ensures forall j | 0 <= j < |ledger.turns| && ledger.turns[j].failed.Some? ::
                var turn := ledger.turns[j];
                && |turn.moments| == |turn.packed| + 1
                && !(turn.failed.value.isJsonObject && 1 <= turn.failed.value.dataSize
                     && appended(turn.moments[|turn.packed|]))
      ensures forall j, i | 0 <= j < |ledger.turns| && 0 <= i < |ledger.turns[j].packed| ::
                var turn := ledger.turns[j];
                && turn.packed[i].isJsonObject && 1 <= turn.packed[i].dataSize
                && i < |turn.moments| && appended(turn.moments[i])
      ensures AllAnswered(ledger.turns, appended, 0, clock)
    {
      p.ValidValue();
      LanesHoldAllTaken(|p.queues|, ledger.order, ledger.turns);
      TurnsConserve(start, p.Value(), Own(), ledger.order, ledger.turns, q);
      TakenOnce(ledger.turns);
      forall j | 0 <= j < |ledger.turns| && ledger.turns[j].failed.Some?
        ensures |ledger.turns[j].moments| == |ledger.turns[j].packed| + 1
        ensures var turn := ledger.turns[j];
                !(turn.failed.value.isJsonObject && 1 <= turn.failed.value.dataSize
                  && appended(turn.moments[|turn.packed|]))
      {
        FailureExplained(ledger.turns, j, appended, clock);
      }
      forall j, i | 0 <= j < |ledger.turns| && 0 <= i < |ledger.turns[j].packed|
        ensures ledger.turns[j].packed[i].isJsonObject && 1 <= ledger.turns[j].packed[i].dataSize
        ensures i < |ledger.turns[j].moments| && appended(ledger.turns[j].moments[i])
      {
        PackingExplained(ledger.turns, j, i, appended, clock);
      }
    }
  }

  lemma NoTimePassed(now: int)
    ensures TimeDiff(now, now) == 0
  {
  }

  /** An empty main queue: no turn, nothing sent, and a success. */
  lemma EmptyAttempt(w: World, a: Attempt)
    requires |a.queues| == 3 && a.taken == [] && a.stages == [] && a.logs == [] && a.after == a.seen
    requires a.success && a.sent.None?
    requires IsEmpty(a.seen, a.queues[1]) && a.done == a.clock + 1 && Conserved(a.before) && Conserved(a.seen)
    requires RanOthers(a.before, w.producers(a.clock), a.seen) && Reached(a.before, a.seen, w.own, a.queues[1], [])
    requires NoProducers(w.producers) ==> a.seen == a.before
    ensures Attempted(w, a)
  {
    NothingPacked();
    NoMessageLog(a.seen, w.producers, a.done, a.queues, a.outcome.maxMessageSize.GetOr(0));
  }

  lemma IdleReached(s: State, n: nat, own: set<nat>, batch: seq<Op>, cap: u32, q: nat)
    requires Foreign(n, own, batch, cap) && |s.queues| == |s.pushed| == |s.popped| == n && q < n && q in own
    ensures Runnable(n, batch, cap) && Addressed(s, batch) && Reached(s, Run(s, batch), own, q, [])
  {
    ReachedByOthers(s, batch, own, q);
  }

  /** With an empty main queue and nobody else at work nothing is sent, whatever the other queues hold. */
  lemma EmptyMainSendsNothing(w: World, a: Attempt)
    requires Attempted(w, a) && NoProducers(w.producers) && IsEmpty(a.before, a.queues[1])
    ensures a.taken == [] && a.sent.None? && a.success
  {
    NothingPacked();
  }
}

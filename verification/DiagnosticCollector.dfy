/** The diagnostic collector: drains its own queue into an event queue whose pushes may log, and so refill it. */
module DiagnosticCollector {
  import opened Common
  import opened EventQueue
  import opened PipelineSpec
  import opened Pipeline
  import opened MessageSerializer

  datatype CollectorResult = CollectorOk | CollectorException

  /** A push as the collector asks for it. */
  datatype Request = Request(event: Event, limit: Option<u32>, mallocOk: bool)

  /** How one diagnostic event is turned into text: whether that works, what is pushed, what a failing push logs. */
  datatype Conversion = Conversion(built: bool, push: Request, logged: Option<Request>)

  /** No sum of the conversion's pushes wraps. */
  ghost predicate FitsBoth(c: Conversion, cap: u32) {
    && FitsUnder(c.push.event, c.push.limit, cap)
    && (c.logged.Some? ==> FitsUnder(c.logged.value.event, c.logged.value.limit, cap))
  }

  ghost predicate Fits(conversions: nat -> Conversion, cap: u32) {
    forall k :: FitsBoth(conversions(k), cap)
  }

  function Pushed(s: State, q: nat, r: Request): State
    requires HasQueue(s, q)
  {
    Push(s, q, r.event, r.limit, r.mallocOk)
  }

  /** The budget and the allocator grant the request. */
  predicate Accepts(s: State, r: Request) {
    PushOutcome(s.budget, r.event, r.limit, r.mallocOk).1 == QueueOk
  }

  /** The event is converted and its text accepted. */
  predicate Succeeds(s: State, c: Conversion) {
    c.built && Accepts(s, c.push)
  }

  /** Whether a push to a queue that logs is reported: the limit is exceeded or unknown. */
  predicate Complains(s: State, r: Request) {
    PushOutcome(s.budget, r.event, r.limit, r.mallocOk).1.MaxMemoryExceeded? || r.limit.None?
  }

  lemma AcceptedSilently(s: State, r: Request)
    requires Accepts(s, r)
    ensures !Complains(s, r)
  {
  }

  /** One conversion: the push, and the push to the diagnostic queue that its failure may log. */
  function Converted(s: State, diagnostics: nat, priority: nat, c: Conversion, sendLogs: bool): State
    requires HasQueue(s, diagnostics) && HasQueue(s, priority)
  {
    if !c.built then s
    else
      var s1 := Pushed(s, priority, c.push);
      if sendLogs && Complains(s, c.push) && c.logged.Some? then Pushed(s1, diagnostics, c.logged.value) else s1
  }

  /**
   * In numbers: the event is stored if it was converted, memory suffices and its node can be allocated; if memory does
   * not suffice, or the limit is unknown, and the queue reports its failures, the report is pushed behind it.
   */
  lemma ConvertedExact(s: State, diagnostics: nat, priority: nat, c: Conversion, sendLogs: bool, cap: u32)
    requires HasQueue(s, diagnostics) && HasQueue(s, priority)
    requires s.budget.consumption <= s.budget.peak <= cap && FitsBoth(c, cap)
    ensures var exceeded := c.push.limit.Some?
                            && s.budget.consumption + c.push.event.dataSize + 40 > c.push.limit.value;
            && (Succeeds(s, c) <==> c.built && c.push.limit.Some? && !exceeded && c.push.mallocOk)
            && Converted(s, diagnostics, priority, c, sendLogs)
               == if !c.built then s
                  else
                    var pushed := Push(s, priority, c.push.event, c.push.limit, c.push.mallocOk);
                    if sendLogs && (exceeded || c.push.limit.None?) && c.logged.Some? then
                      Push(pushed, diagnostics, c.logged.value.event, c.logged.value.limit, c.logged.value.mallocOk)
                    else pushed
  {
    PushDecisionExact(s.budget, c.push.event, c.push.limit, c.push.mallocOk);
    hide PushOutcome, Push;
  }

  // ----- what became of the events, one by one -----

  /** One event: the state the collector found, the state with the event just removed, and the one it left behind. */
  datatype Handling = Handling(event: Event, before: State, removed: State, after: State)

  /** Where things go: the diagnostic queue, the queue of the converted events, and whether that one logs. */
  datatype Route = Route(diagnostics: nat, priority: nat, sendLogs: bool)

  /** After exactly this batch of the others the oldest event was removed, and then converted. */
  ghost predicate HandledBy(h: Handling, c: Conversion, batch: seq<Op>, r: Route) {
    && RanOthersAndPopped(h.before, batch, r.diagnostics, Always(), h.removed)
    && Poppable(Run(h.before, batch), r.diagnostics, Always()) == Some(h.event)
    && HasQueue(h.removed, r.diagnostics) && HasQueue(h.removed, r.priority)
    && h.after == Converted(h.removed, r.diagnostics, r.priority, c, r.sendLogs)
  }

  function Events(handled: seq<Handling>): (events: seq<Event>)
    ensures |events| == |handled|
  {
    seq(|handled|, i requires 0 <= i < |handled| => handled[i].event)
  }

  /** The state before the k-th removal. */
  function Before(looked: State, handled: seq<Handling>, k: nat): State
    requires k <= |handled|
  {
    if k == 0 then looked else handled[k - 1].after
  }

  /** The events were handled one after the other, the k-th by the k-th conversion after the batch numbered k + 1. */
  ghost predicate AllHandled(looked: State, handled: seq<Handling>, conversions: nat -> Conversion,
                             producers: nat -> seq<Op>, r: Route)
  {
    forall k | 0 <= k < |handled| :: HandledAt(looked, handled, conversions(k), producers(k + 1), r, k)
  }

  ghost predicate HandledAt(looked: State, handled: seq<Handling>, c: Conversion, batch: seq<Op>, r: Route, k: nat)
    requires k < |handled|
  {
    handled[k].before == Before(looked, handled, k) && HandledBy(handled[k], c, batch, r)
  }

  /**
   * Every conversion succeeded in the state in which its event had just been removed, but for the last one if the
   * collector gave up.
   */
  ghost predicate Explained(conversions: nat -> Conversion, handled: seq<Handling>, result: CollectorResult) {
    && (forall k | 0 <= k < |handled| ::
          Succeeds(handled[k].removed, conversions(k)) <==> (k + 1 < |handled| || result == CollectorOk))
    && (result == CollectorException ==> handled != [])
  }

  /** Everything about the events handled so far; v is the state now. */
  ghost predicate Handlings(looked: State, v: State, handled: seq<Handling>, conversions: nat -> Conversion,
                            producers: nat -> seq<Op>, r: Route, result: CollectorResult)
  {
    && AllHandled(looked, handled, conversions, producers, r) && Explained(conversions, handled, result)
    && v == Before(looked, handled, |handled|)
  }

  lemma OneMoreHandled(looked: State, v: State, handled: seq<Handling>, conversions: nat -> Conversion,
                       producers: nat -> seq<Op>, r: Route, h: Handling, result: CollectorResult)
    requires Handlings(looked, v, handled, conversions, producers, r, CollectorOk)
    requires h.before == v && HandledBy(h, conversions(|handled|), producers(|handled| + 1), r)
    requires result == CollectorOk <==> Succeeds(h.removed, conversions(|handled|))
    ensures Handlings(looked, h.after, handled + [h], conversions, producers, r, result)
    ensures Events(handled + [h]) == Events(handled) + [h.event]
  {
    hide AllHandled, Explained, HandledBy, Succeeds;
    OneMoreLink(looked, handled, conversions, producers, r, h);
    OneMoreExplained(conversions, handled, h, result);
  }

  lemma OneMoreLink(looked: State, handled: seq<Handling>, conversions: nat -> Conversion,
                    producers: nat -> seq<Op>, r: Route, h: Handling)
    requires AllHandled(looked, handled, conversions, producers, r) && h.before == Before(looked, handled, |handled|)
    requires HandledBy(h, conversions(|handled|), producers(|handled| + 1), r)
    ensures AllHandled(looked, handled + [h], conversions, producers, r)
    ensures Before(looked, handled + [h], |handled| + 1) == h.after
  {
    hide HandledBy;
    var more := handled + [h];
    forall k | 0 <= k < |more| ensures HandledAt(looked, more, conversions(k), producers(k + 1), r, k) {
      if k < |handled| {
        assert HandledAt(looked, handled, conversions(k), producers(k + 1), r, k);
        assert Before(looked, more, k) == Before(looked, handled, k);
      }
    }
  }

  lemma OneMoreExplained(conversions: nat -> Conversion, handled: seq<Handling>, h: Handling, result: CollectorResult)
    requires Explained(conversions, handled, CollectorOk)
    requires result == CollectorOk <==> Succeeds(h.removed, conversions(|handled|))
    ensures Explained(conversions, handled + [h], result)
  {
    hide Succeeds;
  }

  /** One more removal, if the queue was not empty; it is only ever empty once all that was there is taken. */
  lemma TakenSoFar(looked: State, before: State, v: State, own: set<nat>, q: nat, handled: seq<Handling>,
                   more: seq<Handling>)
    requires Conserved(looked) && Conserved(v) && |more| <= 1
    requires Reached(looked, before, own, q, Events(handled)) && Reached(before, v, own, q, Events(more))
    ensures more != [] ==> Reached(looked, v, own, q, Events(handled) + [more[0].event])
    ensures more == [] && v.queues[q] == [] ==> |looked.queues[q]| <= |handled|
  {
    hide Reached, Conserved;
    ReachedTrans(looked, before, v, own, q, Events(handled), Events(more));
    QueuedOrTaken(looked, v, own, q, Events(handled) + Events(more));
    if more != [] {
      assert Events(more) == [more[0].event];
    }
  }

  lemma TakenSince(s: State, looked: State, v: State, own: set<nat>, q: nat, handled: seq<Handling>)
    requires Conserved(looked) && Conserved(v) && q < |looked.queues| && |handled| <= |looked.queues[q]|
    requires Reached(s, looked, own, q, []) && Reached(looked, v, own, q, Events(handled))
    ensures Reached(s, v, own, q, Events(handled)) && Events(handled) <= looked.queues[q]
  {
    hide Reached, Conserved;
    ReachedTrans(s, looked, v, own, q, [], Events(handled));
    QueuedOrTaken(looked, v, own, q, Events(handled));
    assert [] + Events(handled) == Events(handled);
  }

  lemma NothingHandled(looked: State, conversions: nat -> Conversion, producers: nat -> seq<Op>, r: Route)
    ensures Handlings(looked, looked, [], conversions, producers, r, CollectorOk) && Events([]) == []
  {
  }

  class DiagnosticEventCollector {
    const p: AgentQueues
    const eventsQueue: nat

    /** The collector is the only one to pop from its queue. */
    ghost function Own(): set<nat> {
      {eventsQueue}
    }

    ghost predicate Valid()
      reads this, p, p.monitor, p.queues, p.nodes
    {
      p.Valid() && eventsQueue < |p.queues| && !p.queues[eventsQueue].shouldSendLogs
    }

    constructor (p: AgentQueues, eventsQueue: nat)
      requires p.Valid() && eventsQueue < |p.queues| && !p.queues[eventsQueue].shouldSendLogs
      ensures Valid() && this.p == p && this.eventsQueue == eventsQueue
    {
      this.p := p;
      this.eventsQueue := eventsQueue;
    }

    /**
     * The logger's call: the diagnostic queue itself never logs, so this does not come back here.
     * `built` tells whether the event could be allocated and filled.
     */
    method AddEvent(built: bool, request: Request) returns (result: CollectorResult)
      requires Valid() && FitsUnder(request.event, request.limit, p.cap)
      modifies p`pushed, p`nodes, p.monitor, p.queues, p.nodes
      ensures Valid() && fresh(p.nodes - old(p.nodes))
      ensures Reached(old(p.Value()), p.Value(), Own(), eventsQueue, [])
      ensures p.Value() == if built then Pushed(old(p.Value()), eventsQueue, request) else old(p.Value())
      ensures result == if built && Accepts(old(p.Value()), request) then CollectorOk else CollectorException
      ensures result == CollectorOk <==>
                && built && request.mallocOk && request.limit.Some?
                && old(p.monitor.currentConsumptionInBytes) + request.event.dataSize + 40 <= request.limit.value
    {
      hide AgentQueues.Valid, AgentQueues.Value, Reached, Push, PushOutcome;
      p.ValidValue();
      ReachedSelf(p.Value(), Own(), eventsQueue);
      if !built {
        return CollectorException;
      }
      ReachedByPush(p.Value(), eventsQueue, request.event, request.limit, request.mallocOk, Own(), eventsQueue);
      var queueResult, log := p.PushBack(eventsQueue, request.event, request.limit, request.mallocOk);
      assert !log;
      result := if queueResult == QueueOk then CollectorOk else CollectorException;
    }

    /** Converts one event and pushes the text; a failing push logs, which pushes to the diagnostic queue. */
    method GetSingleEvent(priorityQueue: nat, conversion: Conversion) returns (result: CollectorResult)
      requires Valid() && priorityQueue < |p.queues|
      requires FitsBoth(conversion, p.cap)
      modifies p`pushed, p`nodes, p.monitor, p.queues, p.nodes
      ensures Valid() && fresh(p.nodes - old(p.nodes))
      ensures Reached(old(p.Value()), p.Value(), Own(), eventsQueue, [])
      ensures result == if Succeeds(old(p.Value()), conversion) then CollectorOk else CollectorException
      ensures p.Value() == Converted(old(p.Value()), eventsQueue, priorityQueue, conversion,
                                     p.queues[priorityQueue].shouldSendLogs)
      ensures result == CollectorOk ==> p.Value() == Pushed(old(p.Value()), priorityQueue, conversion.push)
      ensures var c, s := conversion, old(p.Value());
              var exceeded := c.push.limit.Some?
                              && s.budget.consumption + c.push.event.dataSize + 40 > c.push.limit.value;
              && (result == CollectorOk <==> c.built && c.push.limit.Some? && !exceeded && c.push.mallocOk)
              && p.Value()
                 == if !c.built then s
                    else
                      var pushed := Push(s, priorityQueue, c.push.event, c.push.limit, c.push.mallocOk);
                      if p.queues[priorityQueue].shouldSendLogs && (exceeded || c.push.limit.None?) && c.logged.Some?
                      then Push(pushed, eventsQueue, c.logged.value.event, c.logged.value.limit,
                                c.logged.value.mallocOk)
                      else pushed
    {
      hide AgentQueues.Valid, AgentQueues.Value, Reached, Push, PushOutcome;
      ghost var s := p.Value();
      p.ValidValue();
      ConvertedExact(s, eventsQueue, priorityQueue, conversion, p.queues[priorityQueue].shouldSendLogs, p.cap);
      ReachedSelf(s, Own(), eventsQueue);
      if !conversion.built {
        return CollectorException;
      }
      var push := conversion.push;
      if Accepts(s, push) {
        AcceptedSilently(s, push);
      }
      ReachedByPush(s, priorityQueue, push.event, push.limit, push.mallocOk, Own(), eventsQueue);
      var queueResult, log := p.PushBack(priorityQueue, push.event, push.limit, push.mallocOk);
      ghost var s1 := p.Value();
      if log && conversion.logged.Some? {
        var _ := AddEvent(true, conversion.logged.value);
        ReachedTrans(s, s1, p.Value(), Own(), eventsQueue, [], []);
        assert AsList(None) + AsList(None) == [];
      }
      result := if queueResult == QueueOk then CollectorOk else CollectorException;
    }

    ghost function RouteTo(priorityQueue: nat): Route
      requires priorityQueue < |p.queues|
    {
      Route(eventsQueue, priorityQueue, p.queues[priorityQueue].shouldSendLogs)
    }

    /** The loop body of GetEvents: the oldest event, if any, is removed and converted. */
    method TakeOne(priorityQueue: nat, conversion: Conversion, producers: nat -> seq<Op>, clock: nat)
      returns (result: Option<CollectorResult>, ghost handled: seq<Handling>)
      requires Valid() && priorityQueue < |p.queues| && Bounded(|p.queues|, Own(), producers, p.cap)
      requires FitsBoth(conversion, p.cap)
      modifies p`pushed, p`popped, p`nodes, p.monitor, p.queues, p.nodes
      ensures Valid() && fresh(p.nodes - old(p.nodes))
      ensures Reached(old(p.Value()), p.Value(), Own(), eventsQueue, Events(handled))
      ensures |handled| == if result.None? then 0 else 1
      ensures result.None? ==>
                RanOthers(old(p.Value()), producers(clock), p.Value()) && p.Value().queues[eventsQueue] == []
      ensures result.Some? ==>
                && handled[0].before == old(p.Value()) && handled[0].after == p.Value()
                && HandledBy(handled[0], conversion, producers(clock), RouteTo(priorityQueue))
                && (result.value == CollectorOk <==> Succeeds(handled[0].removed, conversion))
    {
      hide AgentQueues.Valid, AgentQueues.Value, Reached, Conserved, Pop, Poppable, Bounded, FitsBoth,
           Succeeds, Converted, Push, Run;
      result, handled := None, [];
      ghost var s := p.Value();
      Interleave(p, Own(), eventsQueue, producers, clock);
      ghost var s1 := p.Value();
      p.ValidValue();
      ReachedByPop(s1, Own(), eventsQueue);
      var queueResult, event := p.PopFront(eventsQueue);
      if queueResult == QueueIsEmpty {
        return;
      }
      ghost var s2 := p.Value();
      p.ValidValue();
      ReachedTrans(s, s1, s2, Own(), eventsQueue, [], [event.value]);
      var single := GetSingleEvent(priorityQueue, conversion);
      handled := [Handling(event.value, s, s2, p.Value())];
      ReachedTrans(s, s2, p.Value(), Own(), eventsQueue, [] + [event.value], []);
      assert [] + [event.value] + [] == Events(handled);
      result := Some(single);
    }

    lemma ConservedNow()
      requires Valid()
      ensures Conserved(p.Value()) && eventsQueue < |p.Value().queues| && eventsQueue in Own()
    {
      p.ValidValue();
    }

    /** The size of the collector's queue, after whatever the other threads did before. */
    method LookAt(producers: nat -> seq<Op>) returns (size: u32)
      requires Valid() && Bounded(|p.queues|, Own(), producers, p.cap)
      modifies p`pushed, p`popped, p`nodes, p.monitor, p.queues, p.nodes
      ensures Valid() && fresh(p.nodes - old(p.nodes)) && RanOthers(old(p.Value()), producers(0), p.Value())
      ensures Reached(old(p.Value()), p.Value(), Own(), eventsQueue, []) && size == |p.Value().queues[eventsQueue]|
    {
      hide AgentQueues.Valid, AgentQueues.Value, Reached, Bounded, RanOthers;
      size := ObserveSize(p, Own(), eventsQueue, producers, 0);
    }

    /**
     * Removes exactly as many events as were queued when it looked, oldest first, unless a conversion fails: each
     * removal may add new ones at the end, and other threads push as well. `looked` is the state it looked at.
     */
    method GetEvents(priorityQueue: nat, conversions: nat -> Conversion, producers: nat -> seq<Op>)
      returns (result: CollectorResult, ghost looked: State, ghost handled: seq<Handling>)
      requires Valid() && priorityQueue < |p.queues|
      requires Bounded(|p.queues|, Own(), producers, p.cap) && Fits(conversions, p.cap)
      modifies p`pushed, p`popped, p`nodes, p.monitor, p.queues, p.nodes
      ensures Valid() && fresh(p.nodes - old(p.nodes)) && RanOthers(old(p.Value()), producers(0), looked)
      ensures Reached(old(p.Value()), p.Value(), Own(), eventsQueue, Events(handled))
      ensures eventsQueue < |looked.queues| && old(p.Value()).queues[eventsQueue] <= looked.queues[eventsQueue]
      ensures Events(handled) <= looked.queues[eventsQueue]
      ensures result == CollectorOk ==> Events(handled) == looked.queues[eventsQueue]
      ensures Handlings(looked, p.Value(), handled, conversions, producers, RouteTo(priorityQueue), result)
    {
      hide AgentQueues.Valid, AgentQueues.Value, Reached, Conserved, Pop, Poppable, Bounded, RanOthers,
           Handlings, HandledBy, Succeeds, FitsBoth, DiagnosticEventCollector.Valid, DiagnosticEventCollector.Own,
           DiagnosticEventCollector.RouteTo, Events, Before, Run;
      result, handled := CollectorOk, [];
      ghost var s, r := p.Value(), RouteTo(priorityQueue);
      ConservedNow();
      var eventQueueSize := LookAt(producers);
      ConservedNow();
      looked := p.Value();
      QueuedOrTaken(s, looked, Own(), eventsQueue, []);
      ReachedSelf(looked, Own(), eventsQueue);
      NothingHandled(looked, conversions, producers, r);
      var counter: int := eventQueueSize;
      var clock := 1;
      while counter > 0
        invariant Valid() && fresh(p.nodes - old(p.nodes))
        invariant 0 <= counter && |handled| + counter == eventQueueSize && clock == |handled| + 1
        invariant result == CollectorOk
        invariant Handlings(looked, p.Value(), handled, conversions, producers, r, CollectorOk)
        invariant Reached(looked, p.Value(), Own(), eventsQueue, Events(handled))
      {
        ghost var before := p.Value();
        var one;
        ghost var more;
        one, more := TakeOne(priorityQueue, conversions(clock - 1), producers, clock);
        clock := clock + 1;
        ConservedNow();
        TakenSoFar(looked, before, p.Value(), Own(), eventsQueue, handled, more);
        // No other thread removes from this queue, so the loop never finds it empty.
        if one == None {
          assert false;
        }
        OneMoreHandled(looked, before, handled, conversions, producers, r, more[0], one.value);
        handled := handled + [more[0]];
        if one.value != CollectorOk {
          result := CollectorException;
          break;
        }
        counter := counter - 1;
      }
      ConservedNow();
      TakenSince(s, looked, p.Value(), Own(), eventsQueue, handled);
    }
  }
}

/**
 * Packing queued events into one bounded message while other threads keep working.
 * The queue operations are numbered: `producers(t)` is whatever other threads do before operation t, and `appended(t)`
 * is the JSON library's answer for the event popped by operation t. `own` are the queues no other thread pops from.
 */
module MessageSerializer {
  import opened Common
  import opened EventQueue
  import opened PipelineSpec
  import opened Pipeline

  datatype SerializerResult =
    | SerializerOk | SerializerMemoryExceeded | SerializerEmpty | SerializerPartial | SerializerException

  /** Text of length zero is no JSON object, so an event that parses has at least one byte. */
  predicate Parses(e: Event) {
    e.isJsonObject && 0 < e.dataSize
  }

  lemma ParsesIff(e: Event)
    ensures Parses(e) <==> e.isJsonObject && 1 <= e.dataSize
  {
  }

  function Sizes(events: seq<Event>): nat {
    if events == [] then 0 else events[0].dataSize + Sizes(events[1..])
  }

  lemma {:induction false} SizesAppend(a: seq<Event>, b: seq<Event>)
    ensures Sizes(a + b) == Sizes(a) + Sizes(b)
  {
    if a == [] {
      assert a + b == b;
    } else {
      assert (a + b)[1..] == a[1..] + b;
      SizesAppend(a[1..], b);
    }
  }

  /** The guard as the code computes it, in 32-bit arithmetic. */
  predicate SizeLimitation(currentMessageSize: u32, maxMessageSize: u32, size: u32) {
    Wrap(currentMessageSize + size) < maxMessageSize
  }

  /**
   * The guard means what it says exactly when the sum does not wrap below the maximum;
   * an event whose size plus the maximum fits in 32 bits is always judged correctly.
   */
  lemma SizeLimitationExact(current: u32, max: u32, size: u32)
    requires current < max
    ensures (SizeLimitation(current, max, size) <==> current + size < max)
            <==> !(U32_MAX < current + size && current + size - U32_MODULUS < max)
    ensures size + max <= U32_MAX ==> (SizeLimitation(current, max, size) <==> current + size < max)
  {
  }

  /** An event of 2^32 - 1 bytes would be let into a message of at most 200 that already holds 100. */
  lemma SizeLimitationWraps()
    ensures SizeLimitation(100, 200, U32_MAX) && !(100 + U32_MAX < 200)
  {
  }

  // ----- what a serializer turn may do to the queues -----

  function AsList(failed: Option<Event>): seq<Event> {
    if failed.Some? then [failed.value] else []
  }

  function AsOption(taken: seq<Event>): Option<Event> {
    if taken == [] then None else Some(taken[0])
  }

  /**
   * From s to s': of the consumer's own queues only q was popped, of `taken`, in order; whatever else happened,
   * other threads only added to the histories of accepted pushes.
   */
  ghost predicate Reached(s: State, s': State, own: set<nat>, q: nat, taken: seq<Event>) {
    && HasQueue(s, q) && q in own
    && |s'.queues| == |s'.pushed| == |s'.popped| == |s.queues|
    && (forall i | i in own && i < |s.popped| :: s'.popped[i] == if i == q then s.popped[i] + taken else s.popped[i])
    && forall i | 0 <= i < |s.pushed| :: s.pushed[i] <= s'.pushed[i]
  }

  ghost predicate NoProducers(producers: nat -> seq<Op>) {
    forall t: nat :: producers(t) == []
  }

  ghost predicate Bounded(n: nat, own: set<nat>, producers: nat -> seq<Op>, cap: u32) {
    forall t: nat :: Foreign(n, own, producers(t), cap)
  }

  /** Nothing more of queue q can enter the message. */
  ghost predicate Exhausted(s: State, q: nat, current: u32, max: u32)
    requires q < |s.queues|
  {
    s.queues[q] == [] || max <= current + s.queues[q][0].dataSize
  }

  lemma ReachedTrans(s: State, s': State, s'': State, own: set<nat>, q: nat, a: seq<Event>, b: seq<Event>)
    requires Reached(s, s', own, q, a) && Reached(s', s'', own, q, b)
    ensures Reached(s, s'', own, q, a + b)
  {
    assert s.popped[q] + a + b == s.popped[q] + (a + b);
  }

  lemma ReachedByOthers(s: State, batch: seq<Op>, own: set<nat>, q: nat)
    requires Addressed(s, batch) && OnlyPushedTo(own, batch) && HasQueue(s, q) && q in own
    ensures Reached(s, Run(s, batch), own, q, [])
  {
    OwnQueuesOnlyGrow(s, own, batch);
    assert s.popped[q] + [] == s.popped[q];
  }

  lemma ReachedByPush(s: State, source: nat, e: Event, limit: Option<u32>, mallocOk: bool, own: set<nat>, q: nat)
    requires HasQueue(s, source) && HasQueue(s, q) && q in own
    ensures Reached(s, Push(s, source, e, limit, mallocOk), own, q, [])
  {
    assert s.popped[q] + [] == s.popped[q];
  }

  lemma ReachedByPop(s: State, own: set<nat>, q: nat)
    requires HasQueue(s, q) && q in own
    ensures Reached(s, Pop(s, q, Always()), own, q, AsList(Poppable(s, q, Always())))
    ensures Poppable(s, q, Always()).None? <==> s.queues[q] == []
    ensures Poppable(s, q, Always()).None? ==> Pop(s, q, Always()) == s
  {
    ReachedSelf(s, own, q);
  }

  /** What was queued before is what was taken since, continued by what is queued now. */
  lemma QueuedOrTaken(s: State, s': State, own: set<nat>, q: nat, taken: seq<Event>)
    requires Conserved(s) && Conserved(s') && Reached(s, s', own, q, taken)
    ensures s.queues[q] <= taken + s'.queues[q]
  {
    var n := |s.popped[q]|;
    assert s'.popped[q] == s.popped[q] + taken;
    assert s'.pushed[q][n..] == taken + s'.queues[q];
    assert s.queues[q] == s.pushed[q][n..] <= s'.pushed[q][n..];
  }

  lemma ReachedSelf(s: State, own: set<nat>, q: nat)
    requires HasQueue(s, q) && q in own
    ensures Reached(s, s, own, q, [])
  {
    assert s.popped[q] + [] == s.popped[q];
  }

  function Limited(current: u32, max: u32): Event -> bool {
    (e: Event) => SizeLimitation(current, max, e.dataSize)
  }

  /** A guarded pop takes the head exactly when it still fits below the maximum, without wrapping. */
  lemma GuardedPop(s: State, own: set<nat>, q: nat, current: u32, max: u32)
    requires HasQueue(s, q) && q in own && Sound(s) && s.budget.peak + max <= U32_MAX && current < max
    ensures Poppable(s, q, Limited(current, max)).None? <==> Exhausted(s, q, current, max)
    ensures Reached(s, Pop(s, q, Limited(current, max)), own, q, AsList(Poppable(s, q, Limited(current, max))))
    ensures Pop(s, q, Limited(current, max)).pushed == s.pushed
    ensures Poppable(s, q, Limited(current, max)).None? ==> Pop(s, q, Limited(current, max)) == s
  {
    if s.queues[q] != [] {
      QueuedUnderPeak(s, q, s.queues[q][0]);
      SizeLimitationExact(current, max, s.queues[q][0].dataSize);
    }
    ReachedSelf(s, own, q);
  }

  /** Exactly this batch of other threads' operations leads from s to s'. */
  ghost predicate RanOthers(s: State, batch: seq<Op>, s': State) {
    Addressed(s, batch) && s' == Run(s, batch)
  }

  /** Exactly this batch, and then one conditional pop. */
  ghost predicate RanOthersAndPopped(s: State, batch: seq<Op>, q: nat, condition: Event -> bool, s': State) {
    Addressed(s, batch) && HasQueue(Run(s, batch), q) && s' == Pop(Run(s, batch), q, condition)
  }

  // ----- the consumer's operations, one by one -----

  /** What the consumer does with the queues, and what it is told: a queue's size, or the head that it takes. */
  datatype Operation =
    | Look(queue: nat, size: nat)
    | Take(queue: nat, current: u32, max: u32, event: Option<Event>)

  /** First the others' batch, and then this operation with this answer. */
  ghost predicate Performed(s: State, batch: seq<Op>, o: Operation, s': State) {
    match o
    case Look(q, size) => RanOthers(s, batch, s') && q < |s'.queues| && |s'.queues[q]| == size
    case Take(q, current, max, event) =>
      && RanOthersAndPopped(s, batch, q, Limited(current, max), s')
      && Poppable(Run(s, batch), q, Limited(current, max)) == event
  }

  /** The operations numbered from `clock` on lead from s to s', each after its own batch, with nothing else between. */
  ghost predicate Operated(s: State, producers: nat -> seq<Op>, clock: nat, log: seq<Operation>, s': State)
    decreases |log|
  {
    if log == [] then s' == s
    else
      var n := |log| - 1;
      exists v :: Operated(s, producers, clock, log[..n], v) && Performed(v, producers(clock + n), log[n], s')
  }

  lemma LastOperation(s: State, s': State, producers: nat -> seq<Op>, clock: nat, log: seq<Operation>)
    returns (v: State)
    requires Operated(s, producers, clock, log, s') && log != []
    ensures var n := |log| - 1;
            Operated(s, producers, clock, log[..n], v) && Performed(v, producers(clock + n), log[n], s')
  {
    hide Performed;
    var n := |log| - 1;
    v :| Operated(s, producers, clock, log[..n], v) && Performed(v, producers(clock + n), log[n], s');
  }

  lemma NotOperated(s: State, s': State, producers: nat -> seq<Op>, clock: nat)
    ensures Operated(s, producers, clock, [], s') <==> s == s'
  {
  }

  lemma OneMoreOperation(s: State, v: State, s': State, producers: nat -> seq<Op>, clock: nat,
                         log: seq<Operation>, o: Operation)
    requires Operated(s, producers, clock, log, v) && Performed(v, producers(clock + |log|), o, s')
    ensures Operated(s, producers, clock, log + [o], s')
  {
    hide Performed;
    assert (log + [o])[..|log|] == log;
  }

  lemma {:induction false} OperatedConcat(s: State, v: State, s': State, producers: nat -> seq<Op>, clock: nat,
                                          a: seq<Operation>, b: seq<Operation>)
    requires Operated(s, producers, clock, a, v) && Operated(v, producers, clock + |a|, b, s')
    ensures Operated(s, producers, clock, a + b, s')
    decreases |b|
  {
    hide Performed, Operated;
    if b == [] {
      NotOperated(v, s', producers, clock + |a|);
      assert a + b == a;
    } else {
      var first, last := b[..|b| - 1], b[|b| - 1];
      LastApart(a, b);
      var u := LastOperation(v, s', producers, clock + |a|, b);
      OperatedConcat(s, v, u, producers, clock, a, first);
      assert clock + |a| + |first| == clock + |a + first|;
      OneMoreOperation(s, u, s', producers, clock, a + first, last);
    }
  }

  /** The outside world and the operations determine the state. */
  lemma {:induction false} OperatedDetermines(s: State, producers: nat -> seq<Op>, clock: nat, log: seq<Operation>,
                                              a: State, b: State)
    requires Operated(s, producers, clock, log, a) && Operated(s, producers, clock, log, b)
    ensures a == b
    decreases |log|
  {
    if log != [] {
      var n := |log| - 1;
      var u := LastOperation(s, a, producers, clock, log);
      var v := LastOperation(s, b, producers, clock, log);
      OperatedDetermines(s, producers, clock, log[..n], u, v);
    }
  }

  ghost predicate Untouched(s: State, s': State, q: nat)
    requires HasQueue(s, q)
  {
    && HasQueue(s', q) && |s'.queues| == |s.queues|
    && s'.queues[q] == s.queues[q] && s'.pushed[q] == s.pushed[q] && s'.popped[q] == s.popped[q]
  }

  /** No operation takes from queue q, and no batch of the others names it. */
  ghost predicate LeftAlone(producers: nat -> seq<Op>, clock: nat, log: seq<Operation>, q: nat) {
    forall k | 0 <= k < |log| :: PassesBy(producers(clock + k), log[k], q)
  }

  ghost predicate PassesBy(batch: seq<Op>, o: Operation, q: nat) {
    Avoids(batch, q) && (o.Take? ==> o.queue != q)
  }

  ghost predicate Avoids(batch: seq<Op>, q: nat) {
    forall i | 0 <= i < |batch| :: batch[i].queue != q
  }

  /** Such a queue and its history are as they were: the consumer touches no other queues than those it serves. */
  lemma {:induction false} OperatedElsewhere(s: State, producers: nat -> seq<Op>, clock: nat, log: seq<Operation>,
                                             s': State, q: nat)
    requires Operated(s, producers, clock, log, s') && HasQueue(s, q) && LeftAlone(producers, clock, log, q)
    ensures Untouched(s, s', q)
    decreases |log|
  {
    hide Performed, Operated, LeftAlone, PassesBy, Untouched;
    if log != [] {
      var n := |log| - 1;
      var v := LastOperation(s, s', producers, clock, log);
      LeftAloneBefore(producers, clock, log, q);
      OperatedElsewhere(s, producers, clock, log[..n], v, q);
      UntouchedTwice(s, v, s', q);
      PerformedElsewhere(v, producers(clock + n), log[n], s', q);
    } else {
      NotOperated(s, s', producers, clock);
      UntouchedBySelf(s, q);
    }
  }

  lemma UntouchedBySelf(s: State, q: nat)
    requires HasQueue(s, q)
    ensures Untouched(s, s, q)
  {
  }

  lemma UntouchedTwice(s: State, v: State, s': State, q: nat)
    requires HasQueue(s, q) && Untouched(s, v, q)
    ensures HasQueue(v, q) && (Untouched(v, s', q) ==> Untouched(s, s', q))
  {
  }

  lemma LeftAloneBefore(producers: nat -> seq<Op>, clock: nat, log: seq<Operation>, q: nat)
    requires LeftAlone(producers, clock, log, q) && log != []
    ensures var n := |log| - 1;
            LeftAlone(producers, clock, log[..n], q) && PassesBy(producers(clock + n), log[n], q)
  {
    hide PassesBy;
    var before := log[..|log| - 1];
    forall k | 0 <= k < |before| ensures PassesBy(producers(clock + k), before[k], q) {
      assert before[k] == log[k];
    }
  }

  lemma PerformedElsewhere(s: State, batch: seq<Op>, o: Operation, s': State, q: nat)
    requires Performed(s, batch, o, s') && HasQueue(s, q) && PassesBy(batch, o, q)
    ensures Untouched(s, s', q)
  {
    RunElsewhere(s, batch, q);
  }

  /** Whatever other threads do before the operation numbered `clock`. */
  method Interleave(p: AgentQueues, ghost own: set<nat>, ghost q: nat, producers: nat -> seq<Op>, clock: nat)
    requires p.Valid() && q < |p.queues| && q in own && Bounded(|p.queues|, own, producers, p.cap)
    modifies p`pushed, p`popped, p`nodes, p.monitor, p.queues, p.nodes
    ensures p.Valid() && fresh(p.nodes - old(p.nodes))
    ensures Reached(old(p.Value()), p.Value(), own, q, []) && RanOthers(old(p.Value()), producers(clock), p.Value())
    ensures NoProducers(producers) ==> p.Value() == old(p.Value())
  {
    assert Foreign(|p.queues|, own, producers(clock), p.cap);
    ReachedByOthers(p.Value(), producers(clock), own, q);
    p.RunOthers(producers(clock));
  }

  /** SyncQueue_GetSize, after whatever the other threads did in the meantime. */
  method ObserveSize(p: AgentQueues, ghost own: set<nat>, q: nat, producers: nat -> seq<Op>, clock: nat)
    returns (size: u32)
    requires p.Valid() && q < |p.queues| && q in own && Bounded(|p.queues|, own, producers, p.cap)
    modifies p`pushed, p`popped, p`nodes, p.monitor, p.queues, p.nodes
    ensures p.Valid() && fresh(p.nodes - old(p.nodes))
    ensures Reached(old(p.Value()), p.Value(), own, q, []) && size == |p.Value().queues[q]|
    ensures RanOthers(old(p.Value()), producers(clock), p.Value())
    ensures Performed(old(p.Value()), producers(clock), Look(q, size), p.Value())
    ensures NoProducers(producers) ==> p.Value() == old(p.Value())
  {
    Interleave(p, own, q, producers, clock);
    size := p.GetSize(q);
  }

  /** `appended` is false when the JSON library fails to build or append the event. */
  method AddSingleEvent(p: AgentQueues, ghost own: set<nat>, q: nat, eventsArray: seq<Event>,
                        currentMessageSize: u32, maxMessageSize: u32,
                        producers: nat -> seq<Op>, appended: bool, clock: nat)
    returns (result: SerializerResult, newArray: seq<Event>, newSize: u32, ghost taken: seq<Event>)
    requires p.Valid() && q < |p.queues| && q in own && Bounded(|p.queues|, own, producers, p.cap)
    requires p.cap + maxMessageSize <= U32_MAX && currentMessageSize < maxMessageSize
    modifies p`pushed, p`popped, p`nodes, p.monitor, p.queues, p.nodes
    ensures p.Valid() && fresh(p.nodes - old(p.nodes)) && Reached(old(p.Value()), p.Value(), own, q, taken)
    ensures |taken| <= 1 && Performed(old(p.Value()), producers(clock),
                                      Take(q, currentMessageSize, maxMessageSize, AsOption(taken)), p.Value())
    ensures result == SerializerOk ==>
              && |taken| == 1 && taken[0].isJsonObject && 1 <= taken[0].dataSize && appended
              && newArray == eventsArray + taken && newSize == currentMessageSize + taken[0].dataSize < maxMessageSize
    ensures result != SerializerOk ==> newArray == eventsArray && newSize == currentMessageSize
    ensures result == SerializerException ==>
              |taken| == 1 && !(taken[0].isJsonObject && 1 <= taken[0].dataSize && appended)
    ensures result == SerializerEmpty || result == SerializerMemoryExceeded ==> taken == []
    ensures result != SerializerPartial
    ensures taken == [] ==> Exhausted(p.Value(), q, currentMessageSize, maxMessageSize)
    ensures NoProducers(producers) ==> p.Value().pushed == old(p.Value().pushed)
    ensures NoProducers(producers) && taken == [] ==> p.Value() == old(p.Value())
    ensures NoProducers(producers) ==>
              (taken == [] <==> old(Exhausted(p.Value(), q, currentMessageSize, maxMessageSize)))
  {
    hide AgentQueues.Valid, AgentQueues.Value, Reached, Sound, Pop, NoProducers, Bounded, Parses, Run, RanOthers;
    newArray, newSize, taken := eventsArray, currentMessageSize, [];
    Interleave(p, own, q, producers, clock);
    ghost var s := p.Value();
    p.ValidValue();
    GuardedPop(s, own, q, currentMessageSize, maxMessageSize);
    var queueResult, e := p.PopFrontIf(q, Limited(currentMessageSize, maxMessageSize));
    taken := AsList(e);
    ReachedTrans(old(p.Value()), s, p.Value(), own, q, [], taken);
    assert [] + taken == taken;
    if queueResult == QueueIsEmpty {
      return SerializerEmpty, newArray, newSize, taken;
    } else if queueResult == ConditionFailed {
      return SerializerMemoryExceeded, newArray, newSize, taken;
    }
    ParsesIff(e.value);
    if !Parses(e.value) || !appended {
      return SerializerException, newArray, newSize, taken;
    }
    newArray := eventsArray + [e.value];
    newSize := Wrap(currentMessageSize + e.value.dataSize);
    result := SerializerOk;
  }

  // ----- one queue's turn -----

  /**
   * What one queue contributed to a message, the event that ended its turn if one failed, and for each event taken,
   * in order, the number of the operation that popped it.
   */
  datatype Turn = Turn(packed: seq<Event>, failed: Option<Event>, moments: seq<nat>) {
    function Taken(): seq<Event> {
      packed + AsList(failed)
    }
  }

  const IDLE: Turn := Turn([], None, [])

  /** An event taken was packed exactly if it is a JSON object and the library appended it when it was popped. */
  ghost predicate Answered(turn: Turn, appended: nat -> bool) {
    && |turn.moments| == |turn.Taken()|
    && forall i | 0 <= i < |turn.Taken()| ::
         (i < |turn.packed| <==> Parses(turn.Taken()[i]) && appended(turn.moments[i]))
  }

  /** Different events were popped by different operations, in order, all of them numbered from `from` to below `to`. */
  ghost predicate Rising(moments: seq<nat>, from: nat, to: nat) {
    && (forall i | 0 <= i < |moments| :: from <= moments[i] < to)
    && forall i, j | 0 <= i < j < |moments| :: moments[i] < moments[j]
  }

  lemma NothingAnswered(appended: nat -> bool, from: nat, to: nat)
    ensures Answered(IDLE, appended) && IDLE.Taken() == [] && Rising([], from, to) && Sizes([]) == 0
  {
  }

  lemma OneMorePacked(turn: Turn, e: Event, t: nat, appended: nat -> bool)
    requires Answered(turn, appended) && turn.failed.None? && Parses(e) && appended(t)
    ensures Answered(Turn(turn.packed + [e], None, turn.moments + [t]), appended)
    ensures Turn(turn.packed + [e], None, turn.moments + [t]).Taken() == turn.Taken() + [e]
  {
    var more := Turn(turn.packed + [e], None, turn.moments + [t]);
    assert turn.Taken() == turn.packed && more.Taken() == more.packed;
    forall i | 0 <= i < |more.Taken()| ensures Parses(more.Taken()[i]) && appended(more.moments[i]) {
      assert i < |turn.packed| ==> more.Taken()[i] == turn.Taken()[i] && more.moments[i] == turn.moments[i];
    }
  }

  lemma LastFailed(turn: Turn, e: Event, t: nat, appended: nat -> bool)
    requires Answered(turn, appended) && turn.failed.None? && !(Parses(e) && appended(t))
    ensures Answered(Turn(turn.packed, Some(e), turn.moments + [t]), appended)
    ensures Turn(turn.packed, Some(e), turn.moments + [t]).Taken() == turn.Taken() + [e]
  {
    var more := Turn(turn.packed, Some(e), turn.moments + [t]);
    assert turn.Taken() == turn.packed && more.Taken() == turn.packed + [e];
    forall i | 0 <= i < |turn.packed| ensures Parses(more.Taken()[i]) && appended(more.moments[i]) {
      assert more.Taken()[i] == turn.Taken()[i] && more.moments[i] == turn.moments[i];
    }
  }

  /** What was packed are the JSON objects the library appended, each by the answer given for it. */
  lemma AnsweredExact(turn: Turn, appended: nat -> bool, i: nat)
    requires Answered(turn, appended) && i < |turn.Taken()|
    ensures i < |turn.moments|
    ensures i < |turn.packed| <==>
            turn.Taken()[i].isJsonObject && 1 <= turn.Taken()[i].dataSize && appended(turn.moments[i])
    ensures i < |turn.packed| ==> turn.Taken()[i] == turn.packed[i]
    ensures i == |turn.packed| ==> turn.failed == Some(turn.Taken()[i])
  {
  }

  lemma AnsweredParses(turn: Turn, appended: nat -> bool)
    requires Answered(turn, appended)
    ensures forall i | 0 <= i < |turn.packed| :: Parses(turn.packed[i])
  {
    assert forall i | 0 <= i < |turn.packed| :: turn.Taken()[i] == turn.packed[i];
  }

  lemma RisingConcat(a: seq<nat>, b: seq<nat>, from: nat, mid: nat, to: nat)
    requires Rising(a, from, mid) && Rising(b, mid, to) && from <= mid <= to
    ensures Rising(a + b, from, to)
  {
  }

  lemma RisingNext(moments: seq<nat>, from: nat, t: nat)
    requires Rising(moments, from, t) && from <= t
    ensures Rising(moments + [t], from, t + 1) && Rising(moments, from, t + 1)
  {
  }

  /** The event of a successful round brings its own, positive size. */
  lemma SizesOfOne(taken: seq<Event>)
    requires |taken| == 1 && Parses(taken[0])
    ensures Sizes(taken) == taken[0].dataSize > 0
  {
  }

  /** With the same events pushed and popped, a queue holds the same events. */
  lemma SameHistorySameQueue(s: State, s': State, i: nat)
    requires Conserved(s) && Conserved(s') && i < |s.queues| == |s'.queues|
    requires s.pushed[i] == s'.pushed[i] && s.popped[i] == s'.popped[i]
    ensures s.queues[i] == s'.queues[i]
  {
    assert s.queues[i] == s.pushed[i][|s.popped[i]|..] && s'.queues[i] == s'.pushed[i][|s'.popped[i]|..];
  }

  // ----- the operations of one turn -----

  /** Round i: a look that finds the queue not empty, with room in the message, and then the i-th event is taken. */
  ghost predicate Round(log: seq<Operation>, q: nat, current: nat, max: u32, packed: seq<Event>, i: nat)
    requires 2 * i + 1 < |log| && i < |packed|
  {
    var size := current + Sizes(packed[..i]);
    var look, take := log[2 * i], log[2 * i + 1];
    && look.Look? && look.queue == q && look.size > 0 && size < max
    && take.Take? && take.queue == q && take.current == size && take.max == max && take.event == Some(packed[i])
  }

  /** The operations up to and including the look after the last packed event. */
  ghost predicate Rounds(log: seq<Operation>, q: nat, current: nat, max: u32, packed: seq<Event>) {
    && |log| == 2 * |packed| + 1 && log[2 * |packed|].Look? && log[2 * |packed|].queue == q
    && forall i | 0 <= i < |packed| :: Round(log, q, current, max, packed, i)
  }

  /** Event i of the turn was popped by the second operation of round i. */
  ghost predicate Moments(turn: Turn, clock: nat) {
    |turn.moments| == |turn.Taken()| && forall i | 0 <= i < |turn.moments| :: turn.moments[i] == clock + 2 * i + 1
  }

  /**
   * All operations of a turn that starts at `clock` with a message of `current` bytes: the rounds, and then either the
   * last look saw an empty queue or the message is full, or one more pop took nothing, or an event that failed.
   */
  ghost predicate TurnLog(log: seq<Operation>, q: nat, current: nat, max: u32, turn: Turn, clock: nat) {
    && log != [] && Moments(turn, clock)
    && var n, size := |log| - 1, current + Sizes(turn.packed);
       if log[n].Look? then
         Rounds(log, q, current, max, turn.packed) && (log[n].size == 0 || max <= size) && turn.failed.None?
       else
         && Rounds(log[..n], q, current, max, turn.packed) && log[n - 1].size > 0 && size < max
         && log[n].queue == q && log[n].current == size && log[n].max == max && log[n].event == turn.failed
  }

  /** While the loop goes on: the operations so far lead from s to v, and `queueSize` was the last answer. */
  ghost predicate Logging(s: State, v: State, producers: nat -> seq<Op>, clock: nat, newClock: nat,
                          log: seq<Operation>, q: nat, current: nat, max: u32, turn: Turn, queueSize: nat)
  {
    && Operated(s, producers, clock, log, v) && newClock == clock + |log|
    && Rounds(log, q, current, max, turn.packed) && log[|log| - 1].size == queueSize
    && Moments(turn, clock) && turn.failed.None?
  }

  /** The operations of a whole turn lead from s to v. */
  ghost predicate Logged(s: State, v: State, producers: nat -> seq<Op>, clock: nat, newClock: nat,
                         log: seq<Operation>, q: nat, current: nat, max: u32, turn: Turn)
  {
    && Operated(s, producers, clock, log, v) && newClock == clock + |log|
    && TurnLog(log, q, current, max, turn, clock)
  }

  lemma FirstLook(s: State, v: State, producers: nat -> seq<Op>, clock: nat, q: nat, current: nat, max: u32,
                  queueSize: nat)
    requires Performed(s, producers(clock), Look(q, queueSize), v)
    ensures Logging(s, v, producers, clock, clock + 1, [Look(q, queueSize)], q, current, max, IDLE, queueSize)
  {
    hide Performed, Operated;
    NotOperated(s, s, producers, clock);
    OneMoreOperation(s, s, v, producers, clock, [], Look(q, queueSize));
    assert [] + [Look(q, queueSize)] == [Look(q, queueSize)];
  }

  lemma RoundsGrow(log: seq<Operation>, q: nat, current: nat, max: u32, packed: seq<Event>, e: Event,
                   take: Operation, look: Operation)
    requires Rounds(log, q, current, max, packed) && log[|log| - 1].size > 0 && current + Sizes(packed) < max
    requires take.Take? && take.queue == q && take.current == current + Sizes(packed) && take.max == max
    requires take.event == Some(e) && look.Look? && look.queue == q
    ensures Rounds(log + [take, look], q, current, max, packed + [e])
  {
    hide Sizes;
    var more, events := log + [take, look], packed + [e];
    forall i | 0 <= i < |events| ensures Round(more, q, current, max, events, i) {
      assert events[..i] == packed[..i];
      if i < |packed| {
        assert Round(log, q, current, max, packed, i);
      } else {
        assert packed[..i] == packed;
      }
    }
  }

  lemma MomentsGrow(turn: Turn, turn': Turn, clock: nat, e: Event)
    requires Moments(turn, clock) && turn.failed.None? && turn'.Taken() == turn.Taken() + [e]
    requires turn'.moments == turn.moments + [clock + 2 * |turn.packed| + 1]
    ensures Moments(turn', clock)
  {
    assert turn.Taken() == turn.packed;
  }

  /** A successful round: one pop, one look. */
  lemma LogRound(s: State, u: State, v: State, v': State, producers: nat -> seq<Op>, clock: nat, newClock: nat,
                 log: seq<Operation>, q: nat, current: nat, size: u32, max: u32, turn: Turn, e: Event,
                 queueSize: nat, newSize: nat)
    requires Logging(s, v, producers, clock, newClock, log, q, current, max, turn, queueSize) && queueSize > 0
    requires size == current + Sizes(turn.packed) && size < max
    requires Performed(v, producers(newClock), Take(q, size, max, Some(e)), u)
    requires Performed(u, producers(newClock + 1), Look(q, newSize), v')
    ensures var turn' := NextTurn(turn, [e], true, newClock);
            Logging(s, v', producers, clock, newClock + 2, log + [Take(q, size, max, Some(e)), Look(q, newSize)],
                    q, current, max, turn', newSize)
  {
    hide Performed, Operated, Rounds, Moments, Sizes;
    var take, look := Take(q, size, max, Some(e)), Look(q, newSize);
    var turn' := NextTurn(turn, [e], true, newClock);
    LastLook(log, q, current, max, turn.packed);
    OneMoreOperation(s, v, u, producers, clock, log, take);
    OneMoreOperation(s, u, v', producers, clock, log + [take], look);
    assert log + [take] + [look] == log + [take, look];
    RoundsGrow(log, q, current, max, turn.packed, e, take, look);
    assert turn'.Taken() == turn.Taken() + [e];
    MomentsGrow(turn, turn', clock, e);
  }

  lemma LastLook(log: seq<Operation>, q: nat, current: nat, max: u32, packed: seq<Event>)
    requires Rounds(log, q, current, max, packed)
    ensures |log| == 2 * |packed| + 1 && log[|log| - 1].Look?
  {
  }

  /** The turn ends after a look: the queue is empty or the message is full. */
  lemma LogEnd(s: State, v: State, producers: nat -> seq<Op>, clock: nat, newClock: nat,
               log: seq<Operation>, q: nat, current: nat, max: u32, turn: Turn, queueSize: nat)
    requires Logging(s, v, producers, clock, newClock, log, q, current, max, turn, queueSize)
    requires queueSize == 0 || max <= current + Sizes(turn.packed)
    ensures Logged(s, v, producers, clock, newClock, log, q, current, max, turn)
  {
    hide Operated, Sizes, Moments;
  }

  /** The turn ends with a pop that took nothing, or an event that failed. */
  lemma LogLastTake(s: State, v: State, v': State, producers: nat -> seq<Op>, clock: nat, newClock: nat,
                    log: seq<Operation>, q: nat, current: nat, size: u32, max: u32, turn: Turn, taken: seq<Event>,
                    queueSize: nat)
    requires Logging(s, v, producers, clock, newClock, log, q, current, max, turn, queueSize) && queueSize > 0
    requires size == current + Sizes(turn.packed) && size < max && |taken| <= 1
    requires Performed(v, producers(newClock), Take(q, size, max, AsOption(taken)), v')
    ensures var turn' := NextTurn(turn, taken, false, newClock);
            Logged(s, v', producers, clock, newClock + 1, log + [Take(q, size, max, AsOption(taken))],
                   q, current, max, turn')
  {
    hide Performed, Operated, Rounds, Moments, Sizes;
    var take := Take(q, size, max, AsOption(taken));
    var turn' := NextTurn(turn, taken, false, newClock);
    LastLook(log, q, current, max, turn.packed);
    OneMoreOperation(s, v, v', producers, clock, log, take);
    assert (log + [take])[..|log|] == log;
    if taken != [] {
      assert turn'.Taken() == turn.Taken() + [taken[0]];
      MomentsGrow(turn, turn', clock, taken[0]);
    }
  }

  /** The operations after one more round of the loop. */
  function MoreLog(log: seq<Operation>, q: nat, size: u32, max: u32, taken: seq<Event>, ok: bool,
                   newSize: nat): seq<Operation>
  {
    var take := Take(q, size, max, AsOption(taken));
    if ok then log + [take, Look(q, newSize)] else log + [take]
  }

  lemma LogOn(s: State, v: State, u: State, v': State, producers: nat -> seq<Op>, clock: nat, t: nat,
              log: seq<Operation>, q: nat, current: nat, size: u32, max: u32, turn: Turn, taken: seq<Event>, ok: bool,
              queueSize: nat, newSize: nat)
    requires Logging(s, v, producers, clock, t, log, q, current, max, turn, queueSize) && queueSize > 0
    requires size == current + Sizes(turn.packed) && size < max && |taken| <= 1 && (ok ==> taken != [])
    requires Performed(v, producers(t), Take(q, size, max, AsOption(taken)), u)
    requires if ok then Performed(u, producers(t + 1), Look(q, newSize), v') else v' == u
    ensures var turn', more := NextTurn(turn, taken, ok, t), MoreLog(log, q, size, max, taken, ok, newSize);
            if ok then Logging(s, v', producers, clock, t + 2, more, q, current, max, turn', newSize)
            else Logged(s, v', producers, clock, t + 1, more, q, current, max, turn')
  {
    hide Logging, Logged, Performed, Sizes;
    if ok {
      assert taken == [taken[0]];
      LogRound(s, u, v, v', producers, clock, t, log, q, current, size, max, turn, taken[0], queueSize, newSize);
    } else {
      LogLastTake(s, v, v', producers, clock, t, log, q, current, size, max, turn, taken, queueSize);
    }
  }

  /** What holds while queue q is drained from s: v is the state now, `size` the message size. */
  ghost predicate Drain(s: State, v: State, own: set<nat>, q: nat, turn: Turn, current: u32, size: u32, max: u32,
                        quiet: bool)
  {
    && Reached(s, v, own, q, turn.Taken())
    && size == current + Sizes(turn.packed) && (current < max ==> size < max)
    && (quiet ==> v.pushed == s.pushed && (Exhausted(s, q, current, max) ==> turn == IDLE && v == s))
  }

  lemma DrainStart(s: State, v: State, own: set<nat>, q: nat, current: u32, max: u32, quiet: bool)
    requires Reached(s, v, own, q, []) && (quiet ==> v == s)
    ensures Drain(s, v, own, q, IDLE, current, current, max, quiet)
  {
  }

  lemma DrainStep(s: State, v: State, v': State, own: set<nat>, q: nat, turn: Turn, turn': Turn, taken: seq<Event>,
                  current: u32, size: u32, size': u32, max: u32, quiet: bool)
    requires Drain(s, v, own, q, turn, current, size, max, quiet) && Reached(v, v', own, q, taken)
    requires turn'.Taken() == turn.Taken() + taken && size' - size == Sizes(turn'.packed) - Sizes(turn.packed)
    requires size < max ==> size' < max
    requires quiet ==> v'.pushed == v.pushed && (taken == [] ==> v' == v && turn' == turn)
    requires quiet && taken != [] ==> !Exhausted(v, q, size, max)
    ensures Drain(s, v', own, q, turn', current, size', max, quiet)
  {
    hide Reached;
    ReachedTrans(s, v, v', own, q, turn.Taken(), taken);
  }

  lemma Drained(s: State, v: State, own: set<nat>, q: nat, turn: Turn, current: u32, size: u32, max: u32, quiet: bool,
                appended: nat -> bool, clock: nat, t: nat)
    requires Drain(s, v, own, q, turn, current, size, max, quiet) && Timed(turn, appended, clock, t)
    ensures Answered(turn, appended) && clock < t && Rising(turn.moments, clock, t)
    ensures Reached(s, v, own, q, turn.Taken())
    ensures size == current + Sizes(turn.packed) && (current < max ==> size < max)
    ensures quiet ==> v.pushed == s.pushed
    ensures quiet && Exhausted(s, q, current, max) ==> turn.Taken() == []
    ensures q < |v.queues| && (v.queues[q] == [] || max <= size ==> Exhausted(v, q, size, max))
  {
  }

  /** The turn so far is accounted for by operations from `clock` to before `newClock`. */
  ghost predicate Timed(turn: Turn, appended: nat -> bool, clock: nat, newClock: nat) {
    Answered(turn, appended) && clock < newClock && Rising(turn.moments, clock, newClock)
  }

  lemma TimedStart(appended: nat -> bool, clock: nat)
    ensures Timed(IDLE, appended, clock, clock + 1)
  {
    NothingAnswered(appended, clock, clock + 1);
  }

  lemma TimedLater(turn: Turn, appended: nat -> bool, clock: nat, t: nat)
    requires Timed(turn, appended, clock, t)
    ensures Timed(turn, appended, clock, t + 1)
  {
    RisingNext(turn.moments, clock, t);
  }

  /** One more event, popped by operation t. */
  lemma TimedPop(turn: Turn, turn': Turn, e: Event, appended: nat -> bool, clock: nat, t: nat)
    requires Timed(turn, appended, clock, t) && turn.failed.None? && turn'.moments == turn.moments + [t]
    requires if Parses(e) && appended(t) then turn'.packed == turn.packed + [e] && turn'.failed.None?
             else turn'.packed == turn.packed && turn'.failed == Some(e)
    ensures Timed(turn', appended, clock, t + 1) && turn'.Taken() == turn.Taken() + [e]
    ensures Sizes(turn'.packed) == Sizes(turn.packed) + if Parses(e) && appended(t) then e.dataSize else 0
  {
    hide Answered, Rising, Sizes;
    RisingNext(turn.moments, clock, t);
    if Parses(e) && appended(t) {
      OneMorePacked(turn, e, t, appended);
      SizesAppend(turn.packed, [e]);
      SizesOfOne([e]);
    } else {
      LastFailed(turn, e, t, appended);
    }
  }

  /** The turn after a round that popped `taken`, by operation t. */
  function NextTurn(turn: Turn, taken: seq<Event>, ok: bool, t: nat): Turn {
    if taken == [] then turn
    else if ok then Turn(turn.packed + taken, None, turn.moments + [t])
    else Turn(turn.packed, Some(taken[0]), turn.moments + [t])
  }

  lemma DrainedSize(s: State, v: State, own: set<nat>, q: nat, turn: Turn, current: u32, size: u32, max: u32,
                    quiet: bool)
    requires Drain(s, v, own, q, turn, current, size, max, quiet)
    ensures size == current + Sizes(turn.packed)
  {
  }

  lemma DrainOn(s: State, v: State, v': State, own: set<nat>, q: nat, turn: Turn, taken: seq<Event>, ok: bool,
                appended: nat -> bool, clock: nat, t: nat,
                current: u32, size: u32, size': u32, max: u32, quiet: bool)
    requires Drain(s, v, own, q, turn, current, size, max, quiet) && Timed(turn, appended, clock, t)
    requires turn.failed.None? && Reached(v, v', own, q, taken)
    requires |taken| <= 1 && (ok <==> taken != [] && Parses(taken[0]) && appended(t))
    requires size' == size + (if ok then taken[0].dataSize else 0) && (ok ==> size' < max)
    requires quiet ==> v'.pushed == v.pushed && (taken == [] ==> v' == v)
    requires quiet ==> (taken == [] <==> Exhausted(v, q, size, max))
    ensures Drain(s, v', own, q, NextTurn(turn, taken, ok, t), current, size', max, quiet)
    ensures Timed(NextTurn(turn, taken, ok, t), appended, clock, t + 1)
    ensures ok ==> size < size'
    ensures size == current + Sizes(turn.packed)
  {
    DrainedSize(s, v, own, q, turn, current, size, max, quiet);
    hide Drain, Timed, Reached, Exhausted, Parses, Sizes, Turn.Taken;
    var turn' := NextTurn(turn, taken, ok, t);
    if taken == [] {
      assert turn.Taken() + taken == turn.Taken();
      TimedLater(turn, appended, clock, t);
    } else {
      assert taken == [taken[0]];
      TimedPop(turn, turn', taken[0], appended, clock, t);
      if ok {
        SizesOfOne(taken);
      }
    }
    DrainStep(s, v, v', own, q, turn, turn', taken, current, size, size', max, quiet);
  }

  /** What holds when the loop is about to go on or stop, and what holds when a pop has ended it. */
  ghost predicate Looping(s: State, v: State, own: set<nat>, q: nat, turn: Turn, current: u32, size: u32, max: u32,
                          producers: nat -> seq<Op>, appended: nat -> bool, clock: nat, t: nat, log: seq<Operation>,
                          queueSize: nat)
  {
    && Drain(s, v, own, q, turn, current, size, max, NoProducers(producers)) && Timed(turn, appended, clock, t)
    && Logging(s, v, producers, clock, t, log, q, current, max, turn, queueSize)
  }

  ghost predicate Ended(s: State, v: State, own: set<nat>, q: nat, turn: Turn, current: u32, size: u32, max: u32,
                        producers: nat -> seq<Op>, appended: nat -> bool, clock: nat, t: nat, log: seq<Operation>)
  {
    && Drain(s, v, own, q, turn, current, size, max, NoProducers(producers)) && Timed(turn, appended, clock, t)
    && Logged(s, v, producers, clock, t, log, q, current, max, turn)
  }

  lemma LoopStart(s: State, v: State, own: set<nat>, q: nat, current: u32, max: u32,
                  producers: nat -> seq<Op>, appended: nat -> bool, clock: nat, queueSize: nat)
    requires Reached(s, v, own, q, []) && (NoProducers(producers) ==> v == s)
    requires Performed(s, producers(clock), Look(q, queueSize), v)
    ensures Looping(s, v, own, q, IDLE, current, current, max, producers, appended, clock, clock + 1,
                    [Look(q, queueSize)], queueSize)
  {
    hide Drain, Timed, Logging, Reached, Performed;
    DrainStart(s, v, own, q, current, max, NoProducers(producers));
    TimedStart(appended, clock);
    FirstLook(s, v, producers, clock, q, current, max, queueSize);
  }

  lemma LoopOn(s: State, v: State, u: State, v': State, own: set<nat>, q: nat, turn: Turn, taken: seq<Event>, ok: bool,
               producers: nat -> seq<Op>, appended: nat -> bool, clock: nat, t: nat, log: seq<Operation>,
               current: u32, size: u32, size': u32, max: u32, queueSize: nat, newSize: nat)
    requires Looping(s, v, own, q, turn, current, size, max, producers, appended, clock, t, log, queueSize)
    requires queueSize > 0 && size < max && Reached(v, v', own, q, taken)
    requires |taken| <= 1 && (ok <==> taken != [] && Parses(taken[0]) && appended(t))
    requires size' == size + (if ok then taken[0].dataSize else 0) && (ok ==> size' < max)
    requires NoProducers(producers) ==> v'.pushed == v.pushed && (taken == [] ==> v' == v)
    requires NoProducers(producers) ==> (taken == [] <==> Exhausted(v, q, size, max))
    requires Performed(v, producers(t), Take(q, size, max, AsOption(taken)), u)
    requires if ok then Performed(u, producers(t + 1), Look(q, newSize), v') else v' == u
    ensures var turn', log' := NextTurn(turn, taken, ok, t), MoreLog(log, q, size, max, taken, ok, newSize);
            && turn'.packed == turn.packed + (if ok then taken else [])
            && (turn'.failed.Some? <==> taken != [] && !ok)
            && if ok then
                 && Looping(s, v', own, q, turn', current, size', max, producers, appended, clock, t + 2, log', newSize)
                 && size < size'
               else Ended(s, v', own, q, turn', current, size', max, producers, appended, clock, t + 1, log')
  {
    LoopSize(s, v, own, q, turn, current, size, max, producers, appended, clock, t, log, queueSize);
    hide Drain, Timed, Logging, Logged, Reached, Performed, Parses, Exhausted, Sizes;
    DrainOn(s, v, v', own, q, turn, taken, ok, appended, clock, t, current, size, size', max, NoProducers(producers));
    LogOn(s, v, u, v', producers, clock, t, log, q, current, size, max, turn, taken, ok, queueSize, newSize);
    if ok {
      TimedLater(NextTurn(turn, taken, ok, t), appended, clock, t + 1);
    }
  }

  lemma LoopSize(s: State, v: State, own: set<nat>, q: nat, turn: Turn, current: u32, size: u32, max: u32,
                 producers: nat -> seq<Op>, appended: nat -> bool, clock: nat, t: nat, log: seq<Operation>,
                 queueSize: nat)
    requires Looping(s, v, own, q, turn, current, size, max, producers, appended, clock, t, log, queueSize)
    ensures size == current + Sizes(turn.packed) && turn.failed.None?
  {
  }

  lemma LoopEnd(s: State, v: State, own: set<nat>, q: nat, turn: Turn, current: u32, size: u32, max: u32,
                producers: nat -> seq<Op>, appended: nat -> bool, clock: nat, t: nat, log: seq<Operation>,
                queueSize: nat)
    requires Looping(s, v, own, q, turn, current, size, max, producers, appended, clock, t, log, queueSize)
    requires queueSize == 0 || max <= size
    ensures Ended(s, v, own, q, turn, current, size, max, producers, appended, clock, t, log) && turn.failed.None?
  {
    LoopSize(s, v, own, q, turn, current, size, max, producers, appended, clock, t, log, queueSize);
    hide Drain, Timed, Logging, Logged, Sizes;
    LogEnd(s, v, producers, clock, t, log, q, current, max, turn, queueSize);
  }

  lemma EndedTurn(s: State, v: State, own: set<nat>, q: nat, turn: Turn, current: u32, size: u32, max: u32,
                  producers: nat -> seq<Op>, appended: nat -> bool, clock: nat, t: nat, log: seq<Operation>)
    requires Ended(s, v, own, q, turn, current, size, max, producers, appended, clock, t, log)
    ensures Logged(s, v, producers, clock, t, log, q, current, max, turn)
    ensures Answered(turn, appended) && clock < t && Rising(turn.moments, clock, t)
    ensures Reached(s, v, own, q, turn.Taken())
    ensures size == current + Sizes(turn.packed) && (current < max ==> size < max)
    ensures NoProducers(producers) ==> v.pushed == s.pushed
    ensures NoProducers(producers) && Exhausted(s, q, current, max) ==> turn.Taken() == []
    ensures q < |v.queues| && (v.queues[q] == [] || max <= size ==> Exhausted(v, q, size, max))
  {
    hide Drain, Timed, Logged;
    Drained(s, v, own, q, turn, current, size, max, NoProducers(producers), appended, clock, t);
  }

  /** One round of the drain loop: one event, and after a success the size of the queue again. */
  method DrainRound(p: AgentQueues, ghost own: set<nat>, q: nat, eventsArray: seq<Event>,
                    currentMessageSize: u32, maxMessageSize: u32,
                    producers: nat -> seq<Op>, appended: nat -> bool, clock: nat)
    returns (result: SerializerResult, newArray: seq<Event>, newSize: u32, newClock: nat, queueSize: u32,
             ghost taken: seq<Event>, ghost between: State)
    requires p.Valid() && q < |p.queues| && q in own && Bounded(|p.queues|, own, producers, p.cap)
    requires p.cap + maxMessageSize <= U32_MAX && currentMessageSize < maxMessageSize
    modifies p`pushed, p`popped, p`nodes, p.monitor, p.queues, p.nodes
    ensures |taken| <= 1 && Performed(old(p.Value()), producers(clock),
                                      Take(q, currentMessageSize, maxMessageSize, AsOption(taken)), between)
    ensures if result == SerializerOk then Performed(between, producers(clock + 1), Look(q, queueSize), p.Value())
            else p.Value() == between
    ensures p.Valid() && fresh(p.nodes - old(p.nodes)) && Reached(old(p.Value()), p.Value(), own, q, taken)
    ensures newClock == if result == SerializerOk then clock + 2 else clock + 1
    ensures result == SerializerOk ==>
              && |taken| == 1 && Parses(taken[0]) && appended(clock)
              && newArray == eventsArray + taken && newSize == currentMessageSize + taken[0].dataSize < maxMessageSize
    ensures result != SerializerOk ==> newArray == eventsArray && newSize == currentMessageSize
    ensures result == SerializerException ==> |taken| == 1 && !(Parses(taken[0]) && appended(clock))
    ensures result == SerializerEmpty || result == SerializerMemoryExceeded ==> taken == []
    ensures result != SerializerPartial
    ensures taken == [] ==> Exhausted(p.Value(), q, currentMessageSize, maxMessageSize)
    ensures result == SerializerOk ==> queueSize == |p.Value().queues[q]|
    ensures NoProducers(producers) ==>
              && p.Value().pushed == old(p.Value().pushed) && (taken == [] ==> p.Value() == old(p.Value()))
              && (taken == [] <==> old(Exhausted(p.Value(), q, currentMessageSize, maxMessageSize)))
  {
    hide AgentQueues.Valid, AgentQueues.Value, Reached, NoProducers, Bounded, Exhausted, Parses, RanOthers,
         RanOthersAndPopped;
    ghost var s := p.Value();
    queueSize := 0;
    result, newArray, newSize, taken :=
      AddSingleEvent(p, own, q, eventsArray, currentMessageSize, maxMessageSize, producers, appended(clock), clock);
    newClock, between := clock + 1, p.Value();
    if taken != [] {
      ParsesIff(taken[0]);
    }
    if result == SerializerOk {
      queueSize := ObserveSize(p, own, q, producers, newClock);
      newClock := newClock + 1;
      ReachedTrans(s, between, p.Value(), own, q, taken, []);
      assert taken + [] == taken;
    }
  }

  /**
   * The drain loop for one queue. It ends whatever the other threads do: every round that does not leave the loop
   * brings currentMessageSize at least one byte closer to the maximum. And whatever they do, right after the last
   * operation of a turn without a failure the queue is empty or its head does not fit.
   */
  method AddEventsFromQueue(p: AgentQueues, ghost own: set<nat>, q: nat, eventsArray: seq<Event>,
                            currentMessageSize: u32, maxMessageSize: u32,
                            producers: nat -> seq<Op>, appended: nat -> bool, clock: nat)
    returns (result: SerializerResult, newArray: seq<Event>, newSize: u32, newClock: nat, ghost turn: Turn,
             ghost log: seq<Operation>)
    requires p.Valid() && q < |p.queues| && q in own && Bounded(|p.queues|, own, producers, p.cap)
    requires p.cap + maxMessageSize <= U32_MAX
    modifies p`pushed, p`popped, p`nodes, p.monitor, p.queues, p.nodes
    ensures Logged(old(p.Value()), p.Value(), producers, clock, newClock, log, q,
                   currentMessageSize, maxMessageSize, turn)
    ensures p.Valid() && fresh(p.nodes - old(p.nodes))
    ensures Reached(old(p.Value()), p.Value(), own, q, turn.Taken())
    ensures Answered(turn, appended) && clock < newClock && Rising(turn.moments, clock, newClock)
    ensures newArray == eventsArray + turn.packed
    ensures newSize == currentMessageSize + Sizes(turn.packed)
    ensures currentMessageSize < maxMessageSize ==> newSize < maxMessageSize
    ensures result == if turn.failed.None? then SerializerOk else SerializerException
    ensures NoProducers(producers) ==> p.Value().pushed == old(p.Value().pushed)
    ensures turn.failed.None? ==> Exhausted(p.Value(), q, newSize, maxMessageSize)
    ensures NoProducers(producers) && old(Exhausted(p.Value(), q, currentMessageSize, maxMessageSize)) ==>
              turn.Taken() == []
  {
    newArray, newSize, newClock, turn := eventsArray, currentMessageSize, clock, IDLE;
    result := SerializerOk;
    hide AgentQueues.Valid, AgentQueues.Value, Reached, NoProducers, Bounded, Answered, Rising, Parses, Sizes,
         Exhausted, Turn.Taken, RanOthers, Performed, Logged, Looping, Ended, NextTurn, MoreLog;
    ghost var s := p.Value();
    var queueSize := ObserveSize(p, own, q, producers, newClock);
    newClock, log := newClock + 1, [Look(q, queueSize)];
    LoopStart(s, p.Value(), own, q, currentMessageSize, maxMessageSize, producers, appended, clock, queueSize);
    ghost var ended := false;
    while queueSize > 0 && newSize < maxMessageSize
      invariant p.Valid() && fresh(p.nodes - old(p.nodes))
      invariant Looping(s, p.Value(), own, q, turn, currentMessageSize, newSize, maxMessageSize, producers, appended,
                        clock, newClock, log, queueSize)
      invariant queueSize == |p.Value().queues[q]| && newArray == eventsArray + turn.packed
      invariant result == SerializerOk && turn.failed == None && !ended
      decreases maxMessageSize - newSize
    {
      ghost var v, size, t, seen := p.Value(), newSize, newClock, queueSize;
      ghost var taken, between;
      result, newArray, newSize, newClock, queueSize, taken, between :=
        DrainRound(p, own, q, newArray, newSize, maxMessageSize, producers, appended, newClock);
      ghost var ok := result == SerializerOk;
      LoopOn(s, v, between, p.Value(), own, q, turn, taken, ok, producers, appended, clock, t, log,
             currentMessageSize, size, newSize, maxMessageSize, seen, queueSize);
      log := MoreLog(log, q, size, maxMessageSize, taken, ok, queueSize);
      turn := NextTurn(turn, taken, ok, t);
      if result != SerializerOk {
        ended := true;
        if result == SerializerMemoryExceeded || result == SerializerEmpty {
          result := SerializerOk;
        } else {
          result := SerializerException;
        }
        break;
      }
    }
    if !ended {
      LoopEnd(s, p.Value(), own, q, turn, currentMessageSize, newSize, maxMessageSize, producers, appended, clock,
              newClock, log, queueSize);
    }
    EndedTurn(s, p.Value(), own, q, turn, currentMessageSize, newSize, maxMessageSize, producers, appended, clock,
              newClock, log);
  }

  // ----- several queues, one message -----

  /** The events a message took from queue i, when the queues `order` had their turns one after the other. */
  function TakenFrom(order: seq<nat>, turns: seq<Turn>, i: nat): seq<Event>
    requires |order| == |turns|
  {
    if turns == [] then []
    else
      var last := |turns| - 1;
      TakenFrom(order[..last], turns[..last], i) + (if order[last] == i then turns[last].Taken() else [])
  }

  function PackedBy(turns: seq<Turn>): seq<Event> {
    if turns == [] then [] else PackedBy(turns[..|turns| - 1]) + turns[|turns| - 1].packed
  }

  lemma TurnsGrow(order: seq<nat>, turns: seq<Turn>, q: nat, turn: Turn, i: nat)
    requires |order| == |turns|
    ensures TakenFrom(order + [q], turns + [turn], i)
            == TakenFrom(order, turns, i) + if q == i then turn.Taken() else []
    ensures PackedBy(turns + [turn]) == PackedBy(turns) + turn.packed
  {
    assert (order + [q])[..|turns|] == order && (turns + [turn])[..|turns|] == turns;
  }

  ghost predicate ReachedByTurns(s: State, s': State, own: set<nat>, order: seq<nat>, turns: seq<Turn>)
    requires |order| == |turns|
  {
    && |s'.queues| == |s'.pushed| == |s'.popped| == |s.queues| == |s.pushed| == |s.popped|
    && (forall i | i in own && i < |s.popped| :: s'.popped[i] == s.popped[i] + TakenFrom(order, turns, i))
    && forall i | 0 <= i < |s.pushed| :: s.pushed[i] <= s'.pushed[i]
  }

  lemma SomeFailedIff(turns: seq<Turn>)
    ensures SomeFailed(turns) <==> exists j :: 0 <= j < |turns| && turns[j].failed.Some?
  {
  }

  lemma FailureSeen(turns: seq<Turn>, turn: Turn)
    ensures SomeFailed(turns + [turn]) <==> SomeFailed(turns) || turn.failed.Some?
  {
    if SomeFailed(turns) {
      var j :| 0 <= j < |turns| && turns[j].failed.Some?;
      assert (turns + [turn])[j].failed.Some?;
    }
    if turn.failed.Some? {
      assert (turns + [turn])[|turns|].failed.Some?;
    }
  }

  lemma OneMoreTaken(first: seq<Event>, before: seq<Event>, after: seq<Event>, order: seq<nat>, turns: seq<Turn>,
                     q: nat, turn: Turn, i: nat)
    requires |order| == |turns| && before == first + TakenFrom(order, turns, i)
    requires after == if i == q then before + turn.Taken() else before
    ensures after == first + TakenFrom(order + [q], turns + [turn], i)
  {
    hide TakenFrom, Turn.Taken;
    TurnsGrow(order, turns, q, turn, i);
    assert TakenFrom(order, turns, i) + [] == TakenFrom(order, turns, i);
  }

  lemma OneMoreTurn(s: State, s': State, s'': State, own: set<nat>, order: seq<nat>, turns: seq<Turn>,
                    q: nat, turn: Turn)
    requires |order| == |turns| && ReachedByTurns(s, s', own, order, turns)
    requires Reached(s', s'', own, q, turn.Taken())
    ensures ReachedByTurns(s, s'', own, order + [q], turns + [turn])
  {
    forall i | i in own && i < |s.popped|
      ensures s''.popped[i] == s.popped[i] + TakenFrom(order + [q], turns + [turn], i)
    {
      hide TakenFrom, Turn.Taken;
      OneMoreTaken(s.popped[i], s'.popped[i], s''.popped[i], order, turns, q, turn, i);
    }
  }

  /** Without producers, a queue from which nothing more fits stays so while others have their turns. */
  lemma StaysExhausted(s: State, s': State, own: set<nat>, q: nat, taken: seq<Event>, i: nat,
                       current: u32, newer: u32, max: u32)
    requires Conserved(s) && Conserved(s') && Reached(s, s', own, q, taken) && s.pushed == s'.pushed
    requires i in own && i < |s.queues| && (i == q ==> taken == []) && current <= newer
    requires Exhausted(s, i, current, max)
    ensures Exhausted(s', i, newer, max)
  {
    SameHistorySameQueue(s, s', i);
  }

  /** The result code of GenerateEventList: nothing packed overrides every other outcome. */
  function ListResult(packed: seq<Event>, failure: bool, written: bool): SerializerResult {
    if packed == [] then SerializerEmpty
    else if !written then SerializerException
    else if failure then SerializerPartial
    else SerializerOk
  }

  lemma {:induction false} ParsedSizes(events: seq<Event>)
    requires forall i | 0 <= i < |events| :: Parses(events[i])
    ensures Sizes(events) == 0 <==> events == []
  {
    if events != [] {
      ParsedSizes(events[1..]);
    }
  }

  predicate SomeFailed(turns: seq<Turn>) {
    exists j :: 0 <= j < |turns| && turns[j].failed.Some?
  }

  /** Every queue whose turn was not ended by a failure is empty or its head still does not fit. */
  ghost predicate AllExhausted(s: State, order: seq<nat>, turns: seq<Turn>, current: nat, max: u32)
    requires |turns| <= |order| && forall j | 0 <= j < |order| :: order[j] < |s.queues|
  {
    current <= U32_MAX &&
    forall j | 0 <= j < |turns| && turns[j].failed.None? :: Exhausted(s, order[j], current, max)
  }

  lemma AllStayExhausted(s: State, s': State, own: set<nat>, order: seq<nat>, turns: seq<Turn>, turn: Turn,
                         current: u32, newer: u32, max: u32)
    requires forall j | 0 <= j < |order| :: order[j] in own
    requires Conserved(s) && Conserved(s') && |turns| < |order| && forall j | 0 <= j < |order| :: order[j] < |s.queues|
    requires Reached(s, s', own, order[|turns|], turn.Taken()) && s.pushed == s'.pushed && current <= newer
    requires AllExhausted(s, order, turns, current, max)
    requires Exhausted(s, order[|turns|], current, max) ==> turn.Taken() == []
    requires turn.failed.None? ==> Exhausted(s', order[|turns|], newer, max)
    ensures AllExhausted(s', order, turns + [turn], newer, max)
  {
    forall j | 0 <= j < |turns| && turns[j].failed.None? ensures Exhausted(s', order[j], newer, max) {
      StaysExhausted(s, s', own, order[|turns|], turn.Taken(), order[j], current, newer, max);
    }
  }

  /** What holds after the first |turns| queues had their turns, starting from s with an empty message. */
  ghost predicate Progress(s: State, v: State, own: set<nat>, order: seq<nat>, turns: seq<Turn>,
                           eventsArray: seq<Event>, max: u32, quiet: bool)
  {
    && |turns| <= |order| && ReachedByTurns(s, v, own, order[..|turns|], turns)
    && eventsArray == PackedBy(turns) && (forall i | 0 <= i < |eventsArray| :: Parses(eventsArray[i]))
    && (eventsArray != [] ==> Sizes(eventsArray) < max)
    && (forall j | 0 <= j < |order| :: order[j] in own && order[j] < |v.queues|)
    && (quiet ==> v.pushed == s.pushed && AllExhausted(v, order, turns, Sizes(eventsArray), max))
  }

  lemma OneMoreProgress(s: State, v: State, v': State, own: set<nat>, order: seq<nat>, turns: seq<Turn>, turn: Turn,
                        eventsArray: seq<Event>, max: u32, quiet: bool)
    requires Progress(s, v, own, order, turns, eventsArray, max, quiet) && |turns| < |order|
    requires Conserved(v) && Conserved(v') && Reached(v, v', own, order[|turns|], turn.Taken())
    requires forall i | 0 <= i < |turn.packed| :: Parses(turn.packed[i])
    requires Sizes(eventsArray) <= Sizes(eventsArray + turn.packed) <= U32_MAX
    requires eventsArray + turn.packed != [] ==> Sizes(eventsArray + turn.packed) < max
    requires quiet ==> v'.pushed == v.pushed
    requires turn.failed.None? ==> Exhausted(v', order[|turns|], Sizes(eventsArray + turn.packed), max)
    requires quiet && Exhausted(v, order[|turns|], Sizes(eventsArray), max) ==> turn.Taken() == []
    ensures Progress(s, v', own, order, turns + [turn], eventsArray + turn.packed, max, quiet)
  {
    hide TakenFrom, PackedBy, Sizes, Conserved, ReachedByTurns, Exhausted, AllExhausted, Turn.Taken;
    var q, before := order[|turns|], order[..|turns|];
    assert before + [q] == order[..|turns + [turn]|];
    OneMoreTurn(s, v, v', own, before, turns, q, turn);
    TurnsGrow(before, turns, q, turn, q);
    if quiet {
      AllStayExhausted(v, v', own, order, turns, turn, Sizes(eventsArray), Sizes(eventsArray + turn.packed), max);
    }
  }

  lemma NoProgress(s: State, own: set<nat>, order: seq<nat>, max: u32, quiet: bool)
    requires |s.queues| == |s.pushed| == |s.popped|
    requires forall j | 0 <= j < |order| :: order[j] in own && order[j] < |s.queues|
    ensures Progress(s, s, own, order, [], [], max, quiet) && !SomeFailed([])
  {
  }

  lemma FinishedProgress(s: State, v: State, own: set<nat>, order: seq<nat>, turns: seq<Turn>,
                         eventsArray: seq<Event>, max: u32, quiet: bool)
    requires Progress(s, v, own, order, turns, eventsArray, max, quiet)
    ensures |turns| <= |order| && ReachedByTurns(s, v, own, order[..|turns|], turns)
    ensures eventsArray == PackedBy(turns) && forall i | 0 <= i < |eventsArray| :: Parses(eventsArray[i])
    ensures Sizes(eventsArray) == 0 <==> eventsArray == []
    ensures forall j | 0 <= j < |order| :: order[j] < |v.queues|
    ensures quiet ==> v.pushed == s.pushed && AllExhausted(v, order, turns, Sizes(eventsArray), max)
  {
    ParsedSizes(eventsArray);
  }

  /**
   * `stages` are the states right after the turns: whatever other threads did, each queue whose turn was not ended
   * by a failure was left empty or with a head that did not fit into the message as it was then.
   */
  ghost predicate LeftExhausted(s: State, stages: seq<State>, own: set<nat>, order: seq<nat>, turns: seq<Turn>,
                                max: u32)
  {
    && |stages| == |turns| <= |order|
    && forall j | 0 <= j < |turns| :: LeftAt(s, stages[j], own, order, turns, max, j)
  }

  ghost predicate LeftAt(s: State, v: State, own: set<nat>, order: seq<nat>, turns: seq<Turn>, max: u32, j: nat)
    requires j < |turns| <= |order|
  {
    && ReachedByTurns(s, v, own, order[..j + 1], turns[..j + 1]) && Conserved(v) && order[j] < |v.queues|
    && Sizes(PackedBy(turns[..j + 1])) <= U32_MAX
    && (turns[j].failed.None? ==> Exhausted(v, order[j], Sizes(PackedBy(turns[..j + 1])), max))
  }

  lemma OneMoreStage(s: State, stages: seq<State>, v: State, own: set<nat>, order: seq<nat>, turns: seq<Turn>,
                     turn: Turn, max: u32)
    requires LeftExhausted(s, stages, own, order, turns, max) && |turns| < |order| && order[|turns|] < |v.queues|
    requires ReachedByTurns(s, v, own, order[..|turns + [turn]|], turns + [turn]) && Conserved(v)
    requires Sizes(PackedBy(turns + [turn])) <= U32_MAX
    requires turn.failed.None? ==> Exhausted(v, order[|turns|], Sizes(PackedBy(turns + [turn])), max)
    ensures LeftExhausted(s, stages + [v], own, order, turns + [turn], max)
  {
    hide ReachedByTurns, Conserved, Sizes, PackedBy, Exhausted;
    var more := turns + [turn];
    forall j | 0 <= j < |more| ensures LeftAt(s, (stages + [v])[j], own, order, more, max, j) {
      if j < |turns| {
        assert LeftAt(s, stages[j], own, order, turns, max, j);
        assert more[..j + 1] == turns[..j + 1];
      } else {
        assert more[..j + 1] == more;
      }
    }
  }

  // ----- which operations took what -----

  function MomentsOf(turns: seq<Turn>): seq<nat> {
    if turns == [] then [] else MomentsOf(turns[..|turns| - 1]) + turns[|turns| - 1].moments
  }

  /** Every event taken by the turns was answered for itself, by an operation of its own. */
  ghost predicate AllAnswered(turns: seq<Turn>, appended: nat -> bool, from: nat, to: nat) {
    from <= to && (forall j | 0 <= j < |turns| :: Answered(turns[j], appended)) && Rising(MomentsOf(turns), from, to)
  }

  lemma {:induction false} MomentsConcat(a: seq<Turn>, b: seq<Turn>)
    ensures MomentsOf(a + b) == MomentsOf(a) + MomentsOf(b)
  {
    if b == [] {
      assert a + b == a;
    } else {
      assert (a + b)[..|a + b| - 1] == a + b[..|b| - 1];
      MomentsConcat(a, b[..|b| - 1]);
    }
  }

  lemma AnsweredConcat(a: seq<Turn>, b: seq<Turn>, appended: nat -> bool, from: nat, mid: nat, to: nat)
    requires AllAnswered(a, appended, from, mid) && AllAnswered(b, appended, mid, to)
    ensures AllAnswered(a + b, appended, from, to)
  {
    MomentsConcat(a, b);
    RisingConcat(MomentsOf(a), MomentsOf(b), from, mid, to);
  }

  lemma AnsweredOne(turn: Turn, appended: nat -> bool, from: nat, to: nat)
    requires Answered(turn, appended) && Rising(turn.moments, from, to) && from <= to
    ensures AllAnswered([turn], appended, from, to)
  {
    assert MomentsOf([turn]) == MomentsOf([]) + turn.moments;
  }

  lemma NoneAnswered(appended: nat -> bool, clock: nat)
    ensures AllAnswered([], appended, clock, clock)
  {
  }

  // ----- the operations of a message -----

  /** A turn's operations: none at all if the message is full already. */
  ghost predicate TurnOperations(log: seq<Operation>, q: nat, current: nat, max: u32, turn: Turn, clock: nat) {
    if max <= current then log == [] && turn == IDLE else TurnLog(log, q, current, max, turn, clock)
  }

  /** Turn j starts where the operations of the turns before end, with their message, and stage j is right after it. */
  ghost predicate TurnAt(s: State, producers: nat -> seq<Op>, clock: nat, order: seq<nat>, turns: seq<Turn>,
                         logs: seq<seq<Operation>>, stages: seq<State>, max: u32, j: nat)
    requires j < |turns| == |logs| == |stages| <= |order|
  {
    && TurnOperations(logs[j], order[j], Sizes(PackedBy(turns[..j])), max, turns[j], clock + |Flatten(logs[..j])|)
    && Operated(s, producers, clock, Flatten(logs[..j + 1]), stages[j])
  }

  /** All operations of a message, turn by turn, lead from s to v. */
  ghost predicate MessageLog(s: State, v: State, producers: nat -> seq<Op>, clock: nat, newClock: nat,
                             order: seq<nat>, turns: seq<Turn>, logs: seq<seq<Operation>>, stages: seq<State>, max: u32)
  {
    && |turns| == |logs| == |stages| <= |order| && newClock == clock + |Flatten(logs)|
    && Operated(s, producers, clock, Flatten(logs), v)
    && forall j | 0 <= j < |turns| :: TurnAt(s, producers, clock, order, turns, logs, stages, max, j)
  }

  lemma NoMessageLog(s: State, producers: nat -> seq<Op>, clock: nat, order: seq<nat>, max: u32)
    ensures MessageLog(s, s, producers, clock, clock, order, [], [], [], max)
  {
    NotOperated(s, s, producers, clock);
  }

  lemma OneMoreTurnLog(s: State, v: State, v': State, producers: nat -> seq<Op>, clock: nat, mid: nat, to: nat,
                       order: seq<nat>, turns: seq<Turn>, logs: seq<seq<Operation>>, stages: seq<State>, max: u32,
                       turn: Turn, log: seq<Operation>)
    requires MessageLog(s, v, producers, clock, mid, order, turns, logs, stages, max) && |turns| < |order|
    requires Operated(v, producers, mid, log, v') && to == mid + |log|
    requires TurnOperations(log, order[|turns|], Sizes(PackedBy(turns)), max, turn, mid)
    ensures MessageLog(s, v', producers, clock, to, order, turns + [turn], logs + [log], stages + [v'], max)
  {
    hide Operated, TurnOperations, Sizes, PackedBy, Flatten, TurnAt;
    var turns', logs', stages' := turns + [turn], logs + [log], stages + [v'];
    FlattenAppend(logs, log);
    OperatedConcat(s, v, v', producers, clock, Flatten(logs), log);
    LastTurnAt(s, v', producers, clock, order, turns, logs, stages, max, turn, log);
    forall j | 0 <= j < |turns'| ensures TurnAt(s, producers, clock, order, turns', logs', stages', max, j) {
      if j < |turns| {
        TurnAtStays(s, v', producers, clock, order, turns, logs, stages, max, turn, log, j);
      }
    }
  }

  lemma TurnAtStays(s: State, v': State, producers: nat -> seq<Op>, clock: nat, order: seq<nat>, turns: seq<Turn>,
                    logs: seq<seq<Operation>>, stages: seq<State>, max: u32, turn: Turn, log: seq<Operation>, j: nat)
    requires j < |turns| == |logs| == |stages| < |order|
    requires TurnAt(s, producers, clock, order, turns, logs, stages, max, j)
    ensures TurnAt(s, producers, clock, order, turns + [turn], logs + [log], stages + [v'], max, j)
  {
    hide Operated, TurnOperations, Sizes, PackedBy, Flatten;
    assert (turns + [turn])[..j] == turns[..j];
    assert (logs + [log])[..j] == logs[..j] && (logs + [log])[..j + 1] == logs[..j + 1];
  }

  lemma LastTurnAt(s: State, v': State, producers: nat -> seq<Op>, clock: nat, order: seq<nat>, turns: seq<Turn>,
                   logs: seq<seq<Operation>>, stages: seq<State>, max: u32, turn: Turn, log: seq<Operation>)
    requires |turns| == |logs| == |stages| < |order| && Operated(s, producers, clock, Flatten(logs + [log]), v')
    requires TurnOperations(log, order[|turns|], Sizes(PackedBy(turns)), max, turn, clock + |Flatten(logs)|)
    ensures TurnAt(s, producers, clock, order, turns + [turn], logs + [log], stages + [v'], max, |turns|)
  {
    hide Operated, TurnOperations, Sizes, PackedBy, Flatten;
    var j := |turns|;
    assert (turns + [turn])[..j] == turns;
    assert (logs + [log])[..j] == logs && (logs + [log])[..j + 1] == logs + [log];
  }

  // ----- the whole message so far -----

  /** Everything about the turns had so far, by operations from `clock` to before `newClock`. */
  ghost predicate Listing(s: State, v: State, own: set<nat>, order: seq<nat>, turns: seq<Turn>, stages: seq<State>,
                          max: u32, quiet: bool, appended: nat -> bool, clock: nat, newClock: nat)
  {
    && Progress(s, v, own, order, turns, PackedBy(turns), max, quiet)
    && LeftExhausted(s, stages, own, order, turns, max) && v == (if stages == [] then s else stages[|stages| - 1])
    && AllAnswered(turns, appended, clock, newClock)
  }

  lemma NothingListed(s: State, own: set<nat>, order: seq<nat>, max: u32, quiet: bool, appended: nat -> bool,
                      clock: nat)
    requires |s.queues| == |s.pushed| == |s.popped|
    requires forall j | 0 <= j < |order| :: order[j] in own && order[j] < |s.queues|
    ensures Listing(s, s, own, order, [], [], max, quiet, appended, clock, clock)
    ensures PackedBy([]) == [] && Sizes([]) == 0 && !SomeFailed([])
  {
    NoProgress(s, own, order, max, quiet);
    NoneAnswered(appended, clock);
  }

  lemma OneMoreListed(s: State, v: State, v': State, own: set<nat>, order: seq<nat>, turns: seq<Turn>, turn: Turn,
                      stages: seq<State>, max: u32, quiet: bool, appended: nat -> bool, clock: nat, mid: nat, to: nat)
    requires Listing(s, v, own, order, turns, stages, max, quiet, appended, clock, mid) && |turns| < |order|
    requires Conserved(v) && Conserved(v') && Reached(v, v', own, order[|turns|], turn.Taken())
    requires AllAnswered([turn], appended, mid, to) && forall i | 0 <= i < |turn.packed| :: Parses(turn.packed[i])
    requires Sizes(PackedBy(turns)) <= Sizes(PackedBy(turns) + turn.packed) <= U32_MAX
    requires PackedBy(turns) + turn.packed != [] ==> Sizes(PackedBy(turns) + turn.packed) < max
    requires turn.failed.None? ==> Exhausted(v', order[|turns|], Sizes(PackedBy(turns) + turn.packed), max)
    requires quiet ==> v'.pushed == v.pushed
    requires quiet && Exhausted(v, order[|turns|], Sizes(PackedBy(turns)), max) ==> turn.Taken() == []
    ensures Listing(s, v', own, order, turns + [turn], stages + [v'], max, quiet, appended, clock, to)
    ensures PackedBy(turns + [turn]) == PackedBy(turns) + turn.packed
    ensures SomeFailed(turns + [turn]) <==> SomeFailed(turns) || turn.failed.Some?
  {
    hide Sizes, PackedBy, Exhausted, Reached, Conserved, AllAnswered, AllExhausted, ReachedByTurns, LeftExhausted,
         SomeFailed, Turn.Taken;
    OneMoreProgress(s, v, v', own, order, turns, turn, PackedBy(turns), max, quiet);
    TurnsGrow(order[..|turns|], turns, order[|turns|], turn, 0);
    FailureSeen(turns, turn);
    AnsweredConcat(turns, [turn], appended, clock, mid, to);
    assert order[..|turns + [turn]|] == order[..|turns| + 1];
    OneMoreStage(s, stages, v', own, order, turns, turn, max);
  }

  lemma AllListed(s: State, v: State, own: set<nat>, order: seq<nat>, turns: seq<Turn>, stages: seq<State>,
                  max: u32, quiet: bool, appended: nat -> bool, clock: nat, newClock: nat)
    requires Listing(s, v, own, order, turns, stages, max, quiet, appended, clock, newClock)
    ensures |turns| <= |order| && ReachedByTurns(s, v, own, order[..|turns|], turns)
    ensures forall i | 0 <= i < |PackedBy(turns)| :: Parses(PackedBy(turns)[i])
    ensures forall e | e in PackedBy(turns) :: e.isJsonObject && 1 <= e.dataSize
    ensures PackedBy(turns) != [] ==> Sizes(PackedBy(turns)) < max
    ensures Sizes(PackedBy(turns)) == 0 <==> PackedBy(turns) == []
    ensures clock <= newClock && AllAnswered(turns, appended, clock, newClock)
    ensures LeftExhausted(s, stages, own, order, turns, max) && v == (if stages == [] then s else stages[|stages| - 1])
    ensures forall j | 0 <= j < |order| :: order[j] < |v.queues|
    ensures quiet ==> v.pushed == s.pushed && AllExhausted(v, order, turns, Sizes(PackedBy(turns)), max)
  {
    hide Sizes, PackedBy, ReachedByTurns, LeftExhausted;
    FinishedProgress(s, v, own, order, turns, PackedBy(turns), max, quiet);
  }

  /** The loop body of GenerateEventList: queue q has its turn unless the message is already full. */
  method TakeTurn(p: AgentQueues, ghost own: set<nat>, q: nat, eventsArray: seq<Event>,
                  currentMessageSize: u32, maxMessageSize: u32,
                  producers: nat -> seq<Op>, appended: nat -> bool, clock: nat)
    returns (success: bool, newArray: seq<Event>, newSize: u32, newClock: nat, ghost turn: Turn,
             ghost log: seq<Operation>)
    requires p.Valid() && q < |p.queues| && q in own && Bounded(|p.queues|, own, producers, p.cap)
    requires p.cap + maxMessageSize <= U32_MAX
    requires currentMessageSize == Sizes(eventsArray) && (eventsArray != [] ==> currentMessageSize < maxMessageSize)
    modifies p`pushed, p`popped, p`nodes, p.monitor, p.queues, p.nodes
    ensures p.Valid() && fresh(p.nodes - old(p.nodes))
    ensures Reached(old(p.Value()), p.Value(), own, q, turn.Taken()) && success == turn.failed.None?
    ensures AllAnswered([turn], appended, clock, newClock)
    ensures Operated(old(p.Value()), producers, clock, log, p.Value()) && newClock == clock + |log|
    ensures TurnOperations(log, q, currentMessageSize, maxMessageSize, turn, clock)
    ensures newArray == eventsArray + turn.packed && forall i | 0 <= i < |turn.packed| :: Parses(turn.packed[i])
    ensures currentMessageSize <= newSize == Sizes(newArray) && (newArray != [] ==> newSize < maxMessageSize)
    ensures NoProducers(producers) ==> p.Value().pushed == old(p.Value().pushed)
    ensures success ==> Exhausted(p.Value(), q, newSize, maxMessageSize)
    ensures NoProducers(producers) && old(Exhausted(p.Value(), q, currentMessageSize, maxMessageSize)) ==>
              turn.Taken() == []
  {
    hide AgentQueues.Valid, AgentQueues.Value, Reached, NoProducers, Bounded, Answered, Rising, AllAnswered, Operated,
         TurnLog;
    NothingAnswered(appended, clock, clock);
    AnsweredOne(IDLE, appended, clock, clock);
    success, newArray, newSize, newClock, turn, log := true, eventsArray, currentMessageSize, clock, IDLE, [];
    p.ValidValue();
    ReachedSelf(p.Value(), own, q);
    NotOperated(p.Value(), p.Value(), producers, clock);
    if currentMessageSize < maxMessageSize {
      var result;
      result, newArray, newSize, newClock, turn, log :=
        AddEventsFromQueue(p, own, q, eventsArray, currentMessageSize, maxMessageSize, producers, appended, clock);
      success := result == SerializerOk;
      AnsweredParses(turn, appended);
      SizesAppend(eventsArray, turn.packed);
      AnsweredOne(turn, appended, clock, newClock);
    }
  }

  /** Every queue of the list exists and belongs to the consumer. */
  ghost predicate Listed(p: AgentQueues, own: set<nat>, order: seq<nat>) {
    forall j | 0 <= j < |order| :: order[j] in own && order[j] < |p.queues|
  }

  /**
   * One events array from several queues. `maxMessageSize` is what the twin getter answered (None: it failed),
   * `initialized` and `written` tell whether the JSON library built and stored the array.
   */
  method GenerateEventList(p: AgentQueues, ghost own: set<nat>, order: seq<nat>, maxMessageSize: Option<u32>,
                           initialized: bool, written: bool,
                           producers: nat -> seq<Op>, appended: nat -> bool, clock: nat)
    returns (result: SerializerResult, eventsArray: seq<Event>, newClock: nat, ghost turns: seq<Turn>,
             ghost stages: seq<State>, ghost logs: seq<seq<Operation>>)
    requires p.Valid() && Listed(p, own, order) && Bounded(|p.queues|, own, producers, p.cap)
    requires maxMessageSize.Some? ==> p.cap + maxMessageSize.value <= U32_MAX
    modifies p`pushed, p`popped, p`nodes, p.monitor, p.queues, p.nodes
    ensures p.Valid() && fresh(p.nodes - old(p.nodes))
    ensures |turns| == (if maxMessageSize.Some? && initialized then |order| else 0)
    ensures ReachedByTurns(old(p.Value()), p.Value(), own, order[..|turns|], turns)
    ensures clock <= newClock && AllAnswered(turns, appended, clock, newClock)
    ensures LeftExhausted(old(p.Value()), stages, own, order, turns, maxMessageSize.GetOr(0))
    ensures p.Value() == if stages == [] then old(p.Value()) else stages[|stages| - 1]
    ensures MessageLog(old(p.Value()), p.Value(), producers, clock, newClock, order, turns, logs, stages,
                       maxMessageSize.GetOr(0))
    ensures eventsArray == PackedBy(turns)
    ensures forall e | e in eventsArray :: e.isJsonObject && 1 <= e.dataSize
    ensures eventsArray != [] ==> maxMessageSize.Some? && Sizes(eventsArray) < maxMessageSize.value
    ensures result == ListResult(eventsArray, SomeFailed(turns), written)
    ensures result == SerializerEmpty <==> eventsArray == []
    ensures result == SerializerException <==> eventsArray != [] && !written
    ensures result == SerializerPartial <==>
              eventsArray != [] && written && exists j :: 0 <= j < |turns| && turns[j].failed.Some?
    ensures result == SerializerOk <==>
              eventsArray != [] && written && forall j | 0 <= j < |turns| :: turns[j].failed.None?
    ensures NoProducers(producers) ==> p.Value().pushed == old(p.Value().pushed)
    ensures NoProducers(producers) && turns != [] ==>
              AllExhausted(p.Value(), order, turns, Sizes(eventsArray), maxMessageSize.value)
  {
    hide AgentQueues.Valid, AgentQueues.Value, Reached, SomeFailed, Conserved, NoProducers, Bounded, AllAnswered,
         Listing, LeftExhausted, Exhausted, AllExhausted, ReachedByTurns, Sizes, PackedBy, Turn.Taken, MessageLog,
         Operated, TurnOperations;
    result, eventsArray, newClock, turns, stages, logs := SerializerOk, [], clock, [], [], [];
    ghost var s, quiet := p.Value(), NoProducers(producers);
    var max := maxMessageSize.GetOr(0);
    p.ValidValue();
    NothingListed(s, own, order, max, quiet, appended, clock);
    AllListed(s, s, own, order, [], [], max, quiet, appended, clock, clock);
    NoMessageLog(s, producers, clock, order, max);
    if |order| == 0 || maxMessageSize.None? || !initialized {
      return SerializerEmpty, eventsArray, newClock, turns, stages, logs;
    }
    var currentMessageSize: u32 := 0;
    var partial := false;
    for j := 0 to |order|
      invariant p.Valid() && fresh(p.nodes - old(p.nodes)) && |turns| == |stages| == j
      invariant Listing(s, p.Value(), own, order, turns, stages, max, quiet, appended, clock, newClock)
      invariant MessageLog(s, p.Value(), producers, clock, newClock, order, turns, logs, stages, max)
      invariant eventsArray == PackedBy(turns) && currentMessageSize == Sizes(eventsArray)
      invariant eventsArray != [] ==> currentMessageSize < max
      invariant partial == SomeFailed(turns)
    {
      ghost var before, turn, started := p.Value(), IDLE, newClock;
      p.ValidValue();
      ghost var log;
      var success;
      success, eventsArray, currentMessageSize, newClock, turn, log :=
        TakeTurn(p, own, order[j], eventsArray, currentMessageSize, max, producers, appended, newClock);
      if !success {
        partial := true;
      }
      p.ValidValue();
      OneMoreListed(s, before, p.Value(), own, order, turns, turn, stages, max, quiet, appended, clock, started,
                    newClock);
      OneMoreTurnLog(s, before, p.Value(), producers, clock, started, newClock, order, turns, logs, stages, max,
                     turn, log);
      turns, stages, logs := turns + [turn], stages + [p.Value()], logs + [log];
    }
    AllListed(s, p.Value(), own, order, turns, stages, max, quiet, appended, clock, newClock);
    SomeFailedIff(turns);
    result := if partial then SerializerPartial else SerializerOk;
    if !written {
      result := SerializerException;
    }
    if currentMessageSize == 0 {
      result := SerializerEmpty;
    }
  }

  /**
   * Turns account for a queue's whole history: what was accepted is what was popped before, then what the turns
   * took, then what is still queued.
   */
  lemma TurnsConserve(s: State, s': State, own: set<nat>, order: seq<nat>, turns: seq<Turn>, i: nat)
    requires |order| == |turns| && Conserved(s) && Conserved(s') && ReachedByTurns(s, s', own, order, turns)
    requires i in own && i < |s.queues|
    ensures s'.pushed[i] == s.popped[i] + TakenFrom(order, turns, i) + s'.queues[i]
    ensures s.pushed[i] == s'.pushed[i] ==> s.queues[i] == TakenFrom(order, turns, i) + s'.queues[i]
  {
    hide TakenFrom;
    HistoryOfQueue(s.pushed[i], s.popped[i], s.queues[i], TakenFrom(order, turns, i), s'.pushed[i], s'.queues[i]);
  }

  lemma HistoryOfQueue(pushed: seq<Event>, popped: seq<Event>, queue: seq<Event>, taken: seq<Event>,
                       pushed': seq<Event>, queue': seq<Event>)
    requires pushed == popped + queue && pushed' == popped + taken + queue'
    ensures pushed == pushed' ==> queue == taken + queue'
  {
    if pushed == pushed' {
      assert queue == pushed[|popped|..] && taken + queue' == pushed'[|popped|..];
    }
  }

  /** How the JSON library answers while one message is built. */
  datatype JsonOutcome = JsonOutcome(header: bool, initialized: bool, written: bool, serialized: bool)

  predicate Sendable(result: SerializerResult) {
    result == SerializerOk || result == SerializerPartial
  }

  /** The message is handed out exactly when its result code says so, and holds exactly the packed events. */
  method CreateSecurityMessage(p: AgentQueues, ghost own: set<nat>, order: seq<nat>, maxMessageSize: Option<u32>,
                               json: JsonOutcome,
                               producers: nat -> seq<Op>, appended: nat -> bool, clock: nat)
    returns (result: SerializerResult, buffer: Option<seq<Event>>, newClock: nat, ghost turns: seq<Turn>,
             ghost stages: seq<State>, ghost logs: seq<seq<Operation>>)
    requires p.Valid() && Listed(p, own, order) && Bounded(|p.queues|, own, producers, p.cap)
    requires maxMessageSize.Some? ==> p.cap + maxMessageSize.value <= U32_MAX
    modifies p`pushed, p`popped, p`nodes, p.monitor, p.queues, p.nodes
    ensures p.Valid() && fresh(p.nodes - old(p.nodes))
    ensures |turns| == (if json.header && maxMessageSize.Some? && json.initialized then |order| else 0)
    ensures ReachedByTurns(old(p.Value()), p.Value(), own, order[..|turns|], turns)
    ensures clock <= newClock && AllAnswered(turns, appended, clock, newClock)
    ensures LeftExhausted(old(p.Value()), stages, own, order, turns, maxMessageSize.GetOr(0))
    ensures p.Value() == if stages == [] then old(p.Value()) else stages[|stages| - 1]
    ensures MessageLog(old(p.Value()), p.Value(), producers, clock, newClock, order, turns, logs, stages,
                       maxMessageSize.GetOr(0))
    ensures buffer.Some? <==> Sendable(result)
    ensures buffer.Some? <==> json.header && json.written && json.serialized && PackedBy(turns) != []
    ensures result == if !json.header then SerializerException
                      else if Sendable(ListResult(PackedBy(turns), SomeFailed(turns), json.written)) && !json.serialized
                      then SerializerException
                      else ListResult(PackedBy(turns), SomeFailed(turns), json.written)
    ensures buffer.Some? ==>
              && buffer.value == PackedBy(turns) && buffer.value != [] && turns != []
              && maxMessageSize.Some? && Sizes(buffer.value) < maxMessageSize.value
    ensures PackedBy(turns) != [] ==> Sizes(PackedBy(turns)) < maxMessageSize.GetOr(0)
    ensures NoProducers(producers) ==> p.Value().pushed == old(p.Value().pushed)
    ensures NoProducers(producers) && maxMessageSize.Some? && turns != [] ==>
              AllExhausted(p.Value(), order, turns, Sizes(PackedBy(turns)), maxMessageSize.value)
  {
    hide AgentQueues.Valid, AgentQueues.Value, Reached, SomeFailed, NoProducers, Bounded, AllExhausted,
         AllAnswered, LeftExhausted, MessageLog;
    buffer, newClock, turns, stages, logs := None, clock, [], [], [];
    p.ValidValue();
    NothingListed(p.Value(), own, order, maxMessageSize.GetOr(0), false, appended, clock);
    AllListed(p.Value(), p.Value(), own, order, [], [], maxMessageSize.GetOr(0), false, appended, clock, clock);
    NoMessageLog(p.Value(), producers, clock, order, maxMessageSize.GetOr(0));
    if !json.header {
      return SerializerException, buffer, newClock, turns, stages, logs;
    }
    var eventsArray;
    result, eventsArray, newClock, turns, stages, logs :=
      GenerateEventList(p, own, order, maxMessageSize, json.initialized, json.written, producers, appended, clock);
    if !Sendable(result) {
      return;
    }
    if !json.serialized {
      result := SerializerException;
    } else {
      buffer := Some(eventsArray);
    }
  }
}

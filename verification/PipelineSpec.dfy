/**
 * The queues of the agent as plain values: any number of event lists charged to one budget.
 * The heap structures of module Pipeline are proved to follow these functions step by step;
 * what the agent promises over whole runs is proved here.
 */
module PipelineSpec {
  import opened Common
  import opened MemoryMonitor
  import opened EventQueue

  /** The queues, the budget, and two histories per queue: accepted pushes and popped events. */
  datatype State = State(
    queues: seq<seq<Event>>,
    budget: Budget,
    pushed: seq<seq<Event>>,
    popped: seq<seq<Event>>)

  datatype Op =
    | PushOp(queue: nat, event: Event, limit: Option<u32>, mallocOk: bool)
    | PopOp(queue: nat, condition: Event -> bool)
    | DeinitOp(queue: nat)

  predicate HasQueue(s: State, q: nat) {
    q < |s.queues| == |s.pushed| == |s.popped|
  }

  function Push(s: State, q: nat, e: Event, limit: Option<u32>, mallocOk: bool): State
    requires HasQueue(s, q)
  {
    var (b, result) := PushOutcome(s.budget, e, limit, mallocOk);
    if result.QueueOk?
    then s.(queues := s.queues[q := s.queues[q] + [e]], budget := b, pushed := s.pushed[q := s.pushed[q] + [e]])
    else s.(budget := b)
  }

  function Always(): Event -> bool {
    (e: Event) => true
  }

  /** The head of queue q, if there is one and it meets the condition. */
  function Poppable(s: State, q: nat, condition: Event -> bool): Option<Event>
    requires HasQueue(s, q)
  {
    if s.queues[q] != [] && condition(s.queues[q][0]) then Some(s.queues[q][0]) else None
  }

  function Pop(s: State, q: nat, condition: Event -> bool): State
    requires HasQueue(s, q)
  {
    match Poppable(s, q, condition)
    case None => s
    case Some(e) =>
      s.(queues := s.queues[q := s.queues[q][1..]],
         budget := Released(s.budget, ItemSize(e.dataSize)).0,
         popped := s.popped[q := s.popped[q] + [e]])
  }

  function Deinit(s: State, q: nat): State
    requires HasQueue(s, q)
  {
    s.(queues := s.queues[q := []],
       budget := ReleasedAll(s.budget, s.queues[q]),
       popped := s.popped[q := s.popped[q] + s.queues[q]])
  }

  function Step(s: State, op: Op): (s': State)
    requires HasQueue(s, op.queue)
    ensures |s'.queues| == |s'.pushed| == |s'.popped| == |s.queues|
  {
    match op
    case PushOp(q, e, limit, mallocOk) => Push(s, q, e, limit, mallocOk)
    case PopOp(q, condition) => Pop(s, q, condition)
    case DeinitOp(q) => Deinit(s, q)
  }

  // ----- the shared budget -----

  /** The memory really held by all queued events. */
  function TotalCharge(queues: seq<seq<Event>>): nat {
    if queues == [] then 0 else Charges(queues[0]) + TotalCharge(queues[1..])
  }

  ghost predicate Accounted(s: State) {
    s.budget.consumption == TotalCharge(s.queues)
  }

  /** Per queue, the accepted pushes are the popped events followed by the current contents. */
  ghost predicate Conserved(s: State) {
    && |s.pushed| == |s.popped| == |s.queues|
    && forall q :: 0 <= q < |s.queues| ==> s.pushed[q] == s.popped[q] + s.queues[q]
  }

  ghost predicate Sound(s: State) {
    Accounted(s) && Conserved(s) && s.budget.consumption <= s.budget.peak
  }

  lemma {:induction false} TotalChargeUpdate(queues: seq<seq<Event>>, q: nat, events: seq<Event>)
    requires q < |queues|
    ensures TotalCharge(queues[q := events]) == TotalCharge(queues) - Charges(queues[q]) + Charges(events)
    ensures Charges(queues[q]) <= TotalCharge(queues)
  {
    if q == 0 {
      assert queues[q := events][1..] == queues[1..];
    } else {
      assert queues[q := events][1..] == queues[1..][q - 1 := events];
      TotalChargeUpdate(queues[1..], q - 1, events);
    }
  }

  /** What fails when a sum wraps: whether this push would be granted by a wrapped comparison. */
  predicate GrantedByWrapping(b: Budget, e: Event, limit: Option<u32>, mallocOk: bool) {
    && limit.Some?
    && Wrap(b.consumption + ItemSize(e.dataSize)) <= limit.value
    && b.consumption + (if mallocOk then Charge(e) else ItemSize(e.dataSize)) > U32_MAX
  }

  lemma PushConsumption(b: Budget, e: Event, limit: Option<u32>, mallocOk: bool)
    ensures var (b', result) := PushOutcome(b, e, limit, mallocOk);
            b'.consumption == b.consumption + (if result.QueueOk? then Charge(e) else 0)
            <==> !GrantedByWrapping(b, e, limit, mallocOk)
  {
  }

  /** A push keeps the accounting exact unless, and only unless, it is granted by a wrapped sum. */
  lemma PushAccountingExact(s: State, q: nat, e: Event, limit: Option<u32>, mallocOk: bool)
    requires HasQueue(s, q) && Accounted(s)
    ensures Accounted(Push(s, q, e, limit, mallocOk)) <==> !GrantedByWrapping(s.budget, e, limit, mallocOk)
  {
    hide PushOutcome, GrantedByWrapping;
    PushConsumption(s.budget, e, limit, mallocOk);
    ChargesAppend(s.queues[q], [e]);
    assert Charges([e]) == Charge(e) + Charges([]);
    TotalChargeUpdate(s.queues, q, s.queues[q] + [e]);
  }

  /** Such a push exists from the start: a size near 2^32 is charged as 39 bytes, and the default limit admits it. */
  lemma WrappedGrant()
    ensures var s, e, limit := Initial(1), Event(0, U32_MAX, true), Some(DEFAULT_MAX_LOCAL_CACHE_SIZE);
            && GrantedByWrapping(s.budget, e, limit, true) && PushOutcome(s.budget, e, limit, true).1.QueueOk?
            && Accounted(s) && !Accounted(Push(s, 0, e, limit, true))
  {
    var s, e := Initial(1), Event(0, U32_MAX, true);
    EmptyQueuesFree(1);
    PushAccountingExact(s, 0, e, Some(DEFAULT_MAX_LOCAL_CACHE_SIZE), true);
  }

  /** No push is granted by wrapping while size plus overhead plus the largest limit fits in 32 bits. */
  predicate FitsUnder(e: Event, limit: Option<u32>, cap: u32) {
    Charge(e) + cap <= U32_MAX && (limit.Some? ==> limit.value <= cap)
  }

  lemma PushSound(s: State, q: nat, e: Event, limit: Option<u32>, mallocOk: bool, cap: u32)
    requires HasQueue(s, q) && Sound(s) && s.budget.peak <= cap && FitsUnder(e, limit, cap)
    ensures Sound(Push(s, q, e, limit, mallocOk)) && Push(s, q, e, limit, mallocOk).budget.peak <= cap
    ensures !GrantedByWrapping(s.budget, e, limit, mallocOk)
  {
    PushAccountingExact(s, q, e, limit, mallocOk);
  }

  /** The queued events themselves bound every size: each one was admitted under some limit. */
  lemma {:induction false} QueuedUnderPeak(s: State, q: nat, e: Event)
    requires HasQueue(s, q) && Sound(s) && e in s.queues[q]
    ensures Charge(e) <= s.budget.consumption <= s.budget.peak
    ensures ItemSize(e.dataSize) == Charge(e)
  {
    ChargesCover(s.queues[q]);
    TotalChargeUpdate(s.queues, q, []);
  }

  /** The 32-bit element counter of a queue cannot wrap: the budget is exhausted long before. */
  lemma QueueLength(s: State, q: nat)
    requires HasQueue(s, q) && Sound(s)
    ensures ITEM_OVERHEAD * |s.queues[q]| <= s.budget.consumption
  {
    ChargesCover(s.queues[q]);
    TotalChargeUpdate(s.queues, q, []);
  }

  /** A pop releases exactly what the event was charged, so the release is never refused. */
  lemma PopSound(s: State, q: nat, condition: Event -> bool)
    requires HasQueue(s, q) && Sound(s)
    ensures Sound(Pop(s, q, condition)) && Pop(s, q, condition).budget.peak == s.budget.peak
    ensures Poppable(s, q, condition).Some? ==>
              Released(s.budget, ItemSize(s.queues[q][0].dataSize)).1 == MonitorOk
  {
    if Poppable(s, q, condition).Some? {
      QueuedUnderPeak(s, q, s.queues[q][0]);
      TotalChargeUpdate(s.queues, q, s.queues[q][1..]);
      assert s.queues[q] == [s.queues[q][0]] + s.queues[q][1..];
    }
  }

  /** Deinit is the pop loop run to the end: it returns to the budget all that the queue was charged. */
  lemma {:induction false} DeinitSound(s: State, q: nat)
    requires HasQueue(s, q) && Sound(s)
    ensures Sound(Deinit(s, q)) && Deinit(s, q).budget.peak == s.budget.peak
    ensures Deinit(s, q).budget.consumption == s.budget.consumption - Charges(s.queues[q])
    decreases |s.queues[q]|
  {
    if s.queues[q] == [] {
      assert s.popped[q] + s.queues[q] == s.popped[q];
      assert Deinit(s, q) == s.(queues := s.queues[q := []], popped := s.popped[q := s.popped[q]]) == s;
    } else {
      var s' := Pop(s, q, Always());
      PopSound(s, q, Always());
      DeinitSound(s', q);
      assert s.queues[q] == [s.queues[q][0]] + s'.queues[q];
      assert s.queues[q := []] == s'.queues[q := []];
      assert Deinit(s, q) == Deinit(s', q);
      QueuedUnderPeak(s, q, s.queues[q][0]);
    }
  }

  // ----- whole runs -----

  ghost predicate Runnable(n: nat, ops: seq<Op>, cap: u32) {
    forall i | 0 <= i < |ops| :: ops[i].queue < n && (ops[i].PushOp? ==> FitsUnder(ops[i].event, ops[i].limit, cap))
  }

  ghost predicate Addressed(s: State, ops: seq<Op>) {
    forall i | 0 <= i < |ops| :: HasQueue(s, ops[i].queue)
  }

  function Run(s: State, ops: seq<Op>): State
    requires Addressed(s, ops)
    decreases |ops|
  {
    if ops == [] then s else Run(Step(s, ops[0]), ops[1..])
  }

  /** No release of the run is refused. */
  ghost predicate ReleasesAccepted(s: State, ops: seq<Op>)
    requires Addressed(s, ops)
    decreases |ops|
  {
    ops != [] ==>
      && HasQueue(s, ops[0].queue)
      && (ops[0].PopOp? && Poppable(s, ops[0].queue, ops[0].condition).Some? ==>
            Released(s.budget, ItemSize(s.queues[ops[0].queue][0].dataSize)).1 == MonitorOk)
      && (ops[0].DeinitOp? ==> Charges(s.queues[ops[0].queue]) <= s.budget.consumption)
      && ReleasesAccepted(Step(s, ops[0]), ops[1..])
  }

  function Initial(n: nat): State {
    State(seq(n, _ => []), Budget(0, DEFAULT_MAX_LOCAL_CACHE_SIZE, DEFAULT_MAX_LOCAL_CACHE_SIZE),
          seq(n, _ => []), seq(n, _ => []))
  }

  lemma {:induction false} EmptyQueuesFree(n: nat)
    ensures TotalCharge(seq(n, _ => [])) == 0
  {
    if n != 0 {
      EmptyQueuesFree(n - 1);
      assert seq<seq<Event>>(n, _ => [])[1..] == seq(n - 1, _ => []);
    }
  }

  lemma {:induction false} RunSound(s: State, ops: seq<Op>, cap: u32)
    requires Sound(s) && s.budget.peak <= cap && Runnable(|s.queues|, ops, cap)
    ensures Sound(Run(s, ops)) && ReleasesAccepted(s, ops) && Run(s, ops).budget.peak <= cap
    decreases |ops|
  {
    if ops != [] {
      match ops[0] {
        case PushOp(q, e, limit, mallocOk) => PushSound(s, q, e, limit, mallocOk, cap);
        case PopOp(q, condition) => PopSound(s, q, condition);
        case DeinitOp(q) => DeinitSound(s, q);
      }
      RunSound(Step(s, ops[0]), ops[1..], cap);
    }
  }

  /**
   * Over any run on any number of queues, failed allocations and changing limits included:
   * the monitor holds exactly the memory of the queued events, never more than the largest limit seen,
   * refuses no release, and every queue lost and invented no event.
   */
  lemma SharedBudget(n: nat, ops: seq<Op>, cap: u32)
    requires DEFAULT_MAX_LOCAL_CACHE_SIZE <= cap && Runnable(n, ops, cap)
    ensures Sound(Run(Initial(n), ops)) && ReleasesAccepted(Initial(n), ops)
  {
    EmptyQueuesFree(n);
    RunSound(Initial(n), ops, cap);
  }

  // ----- other threads -----

  /** What other threads do while one consumer is at work: anything elsewhere, but on its own queues they only push. */
  ghost predicate Foreign(n: nat, own: set<nat>, batch: seq<Op>, cap: u32) {
    Runnable(n, batch, cap) && OnlyPushedTo(own, batch)
  }

  ghost predicate OnlyPushedTo(own: set<nat>, batch: seq<Op>) {
    forall i | 0 <= i < |batch| :: batch[i].queue in own ==> batch[i].PushOp?
  }

  /** A batch leaves the queues alone that it does not name. */
  lemma {:induction false} RunElsewhere(s: State, batch: seq<Op>, q: nat)
    requires Addressed(s, batch) && HasQueue(s, q) && forall i | 0 <= i < |batch| :: batch[i].queue != q
    ensures var s' := Run(s, batch);
            && HasQueue(s', q) && |s'.queues| == |s.queues|
            && s'.queues[q] == s.queues[q] && s'.pushed[q] == s.pushed[q] && s'.popped[q] == s.popped[q]
    decreases |batch|
  {
    if batch != [] {
      RunElsewhere(Step(s, batch[0]), batch[1..], q);
    }
  }

  /** Whatever they do, nothing is popped from the consumer's own queues, which only grow at their end. */
  lemma {:induction false} OwnQueuesOnlyGrow(s: State, own: set<nat>, batch: seq<Op>)
    requires Addressed(s, batch) && OnlyPushedTo(own, batch) && |s.pushed| == |s.popped| == |s.queues|
    ensures var s' := Run(s, batch);
            && |s'.popped| == |s'.pushed| == |s'.queues| == |s.queues|
            && (forall q | q in own && q < |s.queues| :: s'.popped[q] == s.popped[q] && s.queues[q] <= s'.queues[q])
            && forall q | 0 <= q < |s.queues| :: s.pushed[q] <= s'.pushed[q]
    decreases |batch|
  {
    if batch != [] {
      assert batch[0].queue in own ==> batch[0].PushOp?;
      OwnQueuesOnlyGrow(Step(s, batch[0]), own, batch[1..]);
    }
  }
}

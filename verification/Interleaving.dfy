/**
 * The queue operations taken apart into their steps: two threads in two different queues hold two different locks, so
 * their accesses to the shared monitor interleave, and a charge can be in flight, taken before its event is linked or
 * released after its event is unlinked. One activity is one queue operation at a time; the push that a failing push
 * logs is an activity of its own.
 */
module Interleaving {
  import opened Common
  import opened MemoryMonitor
  import opened EventQueue
  import opened PipelineSpec

  /** How far an activity is; all phases but the first hold the lock of their queue. */
  datatype Phase =
    | Outside
    | Entered(queue: nat)
    | Charged(queue: nat, event: Event)
    | Refunding(queue: nat, event: Event)
    | Unlinked(queue: nat, event: Event, condition: Event -> bool)
    | Leaving(queue: nat)
  {
    predicate Holds(q: nat) {
      !Outside? && queue == q
    }

    /** The memory charged to the budget for an event that is in no queue. */
    function Flight(): nat {
      if Charged? || Refunding? || Unlinked? then Charge(event) else 0
    }

    function Refund(): nat {
      if Refunding? then Charge(event) else 0
    }

    /** The event a pop has unlinked, and the event a push is about to link. */
    function Front(): seq<Event> {
      if Unlinked? then [event] else []
    }

    function Back(): seq<Event> {
      if Charged? then [event] else []
    }
  }

  /** The histories record a push when it is granted, and a pop when its charge is released. */
  datatype Config = Config(
    queues: seq<seq<Event>>,
    budget: Budget,
    pushed: seq<seq<Event>>,
    popped: seq<seq<Event>>,
    phases: seq<Phase>)

  datatype Move =
    | Enter(activity: nat, queue: nat)
    | Consume(activity: nat, event: Event, limit: Option<u32>, mallocOk: bool)
    | Link(activity: nat)
    | Refund(activity: nat)
    | Unlink(activity: nat, condition: Event -> bool)
    | Release(activity: nat)
    | Leave(activity: nat)

  predicate Shaped(c: Config) {
    && |c.queues| == |c.pushed| == |c.popped|
    && forall i | 0 <= i < |c.phases| :: !c.phases[i].Outside? ==> c.phases[i].queue < |c.queues|
  }

  predicate Free(c: Config, q: nat) {
    forall i | 0 <= i < |c.phases| :: !c.phases[i].Holds(q)
  }

  /** A push consumes, then links or refunds; a pop unlinks, then releases; both only inside their queue's lock. */
  predicate Enabled(c: Config, m: Move) {
    && Shaped(c) && m.activity < |c.phases|
    && var phase := c.phases[m.activity];
       match m
       case Enter(_, q) => phase.Outside? && q < |c.queues| && Free(c, q)
       case Consume(_, _, _, _) => phase.Entered?
       case Link(_) => phase.Charged?
       case Refund(_) => phase.Refunding?
       case Unlink(_, _) => phase.Entered?
       case Release(_) => phase.Unlinked?
       case Leave(_) => phase.Entered? || phase.Leaving?
  }

  /** What a pop finds in the queue it has locked. */
  predicate Takes(queue: seq<Event>, condition: Event -> bool) {
    queue != [] && condition(queue[0])
  }

  function Next(c: Config, m: Move): Config
    requires Enabled(c, m)
  {
    var i := m.activity;
    match m
    case Enter(_, q) => c.(phases := c.phases[i := Entered(q)])
    case Consume(_, e, limit, mallocOk) =>
      var q, (b, result) := c.phases[i].queue, Consumed(c.budget, ItemSize(e.dataSize), limit);
      if result != MonitorOk then c.(budget := b, phases := c.phases[i := Leaving(q)])
      else if !mallocOk then c.(budget := b, phases := c.phases[i := Refunding(q, e)])
      else c.(budget := b, pushed := c.pushed[q := c.pushed[q] + [e]], phases := c.phases[i := Charged(q, e)])
    case Link(_) =>
      var q, e := c.phases[i].queue, c.phases[i].event;
      c.(queues := c.queues[q := c.queues[q] + [e]], phases := c.phases[i := Leaving(q)])
    case Refund(_) =>
      var q, e := c.phases[i].queue, c.phases[i].event;
      c.(budget := Released(c.budget, ItemSize(e.dataSize)).0, phases := c.phases[i := Leaving(q)])
    case Unlink(_, condition) =>
      var q := c.phases[i].queue;
      if !Takes(c.queues[q], condition) then c.(phases := c.phases[i := Leaving(q)])
      else c.(queues := c.queues[q := c.queues[q][1..]],
              phases := c.phases[i := Unlinked(q, c.queues[q][0], condition)])
    case Release(_) =>
      var q, e := c.phases[i].queue, c.phases[i].event;
      c.(budget := Released(c.budget, ItemSize(e.dataSize)).0, popped := c.popped[q := c.popped[q] + [e]],
         phases := c.phases[i := Leaving(q)])
    case Leave(_) => c.(phases := c.phases[i := Outside])
  }

  predicate Runs(c: Config, moves: seq<Move>)
    decreases |moves|
  {
    moves != [] ==> Enabled(c, moves[0]) && Runs(Next(c, moves[0]), moves[1..])
  }

  function After(c: Config, moves: seq<Move>): Config
    requires Runs(c, moves)
    decreases |moves|
  {
    if moves == [] then c else After(Next(c, moves[0]), moves[1..])
  }

  function Start(n: nat, activities: nat): Config {
    var s := Initial(n);
    Config(s.queues, s.budget, s.pushed, s.popped, seq(activities, _ => Outside))
  }

  // ----- charges in flight -----

  function InFlight(phases: seq<Phase>): nat {
    if phases == [] then 0 else phases[0].Flight() + InFlight(phases[1..])
  }

  function Refunds(phases: seq<Phase>): nat {
    if phases == [] then 0 else phases[0].Refund() + Refunds(phases[1..])
  }

  lemma {:induction false} PhaseChange(phases: seq<Phase>, i: nat, phase: Phase)
    requires i < |phases|
    ensures InFlight(phases[i := phase]) == InFlight(phases) - phases[i].Flight() + phase.Flight()
    ensures Refunds(phases[i := phase]) == Refunds(phases) - phases[i].Refund() + phase.Refund()
    ensures phases[i].Flight() <= InFlight(phases) && phases[i].Refund() <= Refunds(phases) <= InFlight(phases)
  {
    if i == 0 {
      assert phases[i := phase][1..] == phases[1..];
      RefundsFly(phases);
    } else {
      assert phases[i := phase][1..] == phases[1..][i - 1 := phase];
      PhaseChange(phases[1..], i - 1, phase);
    }
  }

  lemma {:induction false} RefundsFly(phases: seq<Phase>)
    ensures Refunds(phases) <= InFlight(phases)
  {
    if phases != [] {
      RefundsFly(phases[1..]);
    }
  }

  /** No two activities hold the same queue. */
  ghost predicate Exclusive(phases: seq<Phase>) {
    forall i, j | 0 <= i < j < |phases| :: phases[i].Outside? || !phases[j].Holds(phases[i].queue)
  }

  /** The phase of whoever holds queue q. */
  function Holder(phases: seq<Phase>, q: nat): Phase {
    if phases == [] then Outside else if phases[0].Holds(q) then phases[0] else Holder(phases[1..], q)
  }

  lemma {:induction false} HolderIs(phases: seq<Phase>, i: nat)
    requires Exclusive(phases) && i < |phases| && !phases[i].Outside?
    ensures Holder(phases, phases[i].queue) == phases[i]
  {
    if i > 0 {
      HolderIs(phases[1..], i - 1);
    }
  }

  lemma {:induction false} NoHolder(phases: seq<Phase>, q: nat)
    requires forall i | 0 <= i < |phases| :: !phases[i].Holds(q)
    ensures Holder(phases, q) == Outside
  {
    if phases != [] {
      NoHolder(phases[1..], q);
    }
  }

  lemma {:induction false} HolderStays(phases: seq<Phase>, i: nat, phase: Phase, q: nat)
    requires i < |phases| && !phases[i].Holds(q) && !phase.Holds(q)
    ensures Holder(phases[i := phase], q) == Holder(phases, q)
  {
    if i == 0 {
      assert phases[i := phase][1..] == phases[1..];
    } else {
      assert phases[i := phase][1..] == phases[1..][i - 1 := phase];
      HolderStays(phases[1..], i - 1, phase, q);
    }
  }

  /** An activity may change its phase, if it stays in its queue, leaves it, or enters a free one. */
  lemma ExclusiveKept(phases: seq<Phase>, i: nat, phase: Phase)
    requires Exclusive(phases) && i < |phases|
    requires phase.Outside? || phases[i].Holds(phase.queue)
             || forall j | 0 <= j < |phases| :: !phases[j].Holds(phase.queue)
    ensures Exclusive(phases[i := phase])
  {
  }

  /** Whatever activity i does, in or with its queue, nobody else's hold changes. */
  lemma Hands(phases: seq<Phase>, i: nat, phase: Phase, q: nat)
    requires i < |phases| && Exclusive(phases) && Exclusive(phases[i := phase])
    requires phases[i].Outside? || phase.Outside? || phase.queue == phases[i].queue
    requires phase.Holds(q) ==> phases[i].Holds(q) || forall j | 0 <= j < |phases| :: !phases[j].Holds(q)
    ensures phases[i].Holds(q) || phase.Holds(q) ==>
              && Holder(phases, q) == (if phases[i].Holds(q) then phases[i] else Outside)
              && Holder(phases[i := phase], q) == (if phase.Holds(q) then phase else Outside)
    ensures !phases[i].Holds(q) && !phase.Holds(q) ==> Holder(phases[i := phase], q) == Holder(phases, q)
  {
    var phases' := phases[i := phase];
    if phases[i].Holds(q) || phase.Holds(q) {
      if phases[i].Holds(q) {
        HolderIs(phases, i);
      } else {
        NoHolder(phases, q);
      }
      if phase.Holds(q) {
        HolderIs(phases', i);
      } else {
        NoHolder(phases', q);
      }
    } else {
      HolderStays(phases, i, phase, q);
    }
  }

  // ----- what holds in every interleaving -----

  /** The monitor holds the charges of the queued events and of those in flight, below the largest limit. */
  ghost predicate Balanced(c: Config, cap: u32) {
    c.budget.consumption == TotalCharge(c.queues) + InFlight(c.phases) && c.budget.consumption <= c.budget.peak <= cap
  }

  /** Queue q as a whole: what a pop has in hand, the list, what a push has in hand. */
  function WholeQueue(c: Config, q: nat): seq<Event>
    requires q < |c.queues|
  {
    Holder(c.phases, q).Front() + c.queues[q] + Holder(c.phases, q).Back()
  }

  ghost predicate Kept(c: Config) {
    && Shaped(c) && Exclusive(c.phases)
    && (forall i | 0 <= i < |c.phases| ::
          c.phases[i].Unlinked? ==> c.phases[i].condition(c.phases[i].event))
    && forall q | 0 <= q < |c.queues| :: c.pushed[q] == c.popped[q] + WholeQueue(c, q)
  }

  predicate Fitting(m: Move, cap: u32) {
    m.Consume? ==> FitsUnder(m.event, m.limit, cap)
  }

  /** A charge in flight is within the consumption, so its 32-bit size is exact and its release is accepted. */
  lemma FlightExact(c: Config, i: nat, cap: u32)
    requires Balanced(c, cap) && i < |c.phases| && (c.phases[i].Refunding? || c.phases[i].Unlinked?)
    ensures var e := c.phases[i].event;
            && ItemSize(e.dataSize) == Charge(e) <= c.budget.consumption
            && Released(c.budget, ItemSize(e.dataSize)).1 == MonitorOk
  {
    PhaseChange(c.phases, i, Outside);
  }

  lemma ConsumeBalance(b: Budget, e: Event, limit: Option<u32>, cap: u32)
    requires b.consumption <= b.peak <= cap && FitsUnder(e, limit, cap)
    ensures var (b', result) := Consumed(b, ItemSize(e.dataSize), limit);
            && b'.consumption == b.consumption + (if result == MonitorOk then Charge(e) else 0)
            && b'.consumption <= b'.peak <= cap
            && (result == MonitorOk <==> limit.Some? && b.consumption + Charge(e) <= limit.value)
            && (limit.Some? ==> b'.limit == limit.value && b'.peak == Max(b.peak, limit.value))
            && (limit.None? ==> b' == b)
  {
  }

  lemma BalanceKept(c: Config, m: Move, cap: u32)
    requires Enabled(c, m) && Balanced(c, cap) && Fitting(m, cap)
    ensures Balanced(Next(c, m), cap)
  {
    hide Consumed, ItemSize, Exclusive, Free;
    var i := m.activity;
    PhaseChange(c.phases, i, Next(c, m).phases[i]);
    match m {
      case Enter(_, q) =>
      case Consume(_, e, limit, mallocOk) => ConsumeBalance(c.budget, e, limit, cap);
      case Link(_) =>
        var q, e := c.phases[i].queue, c.phases[i].event;
        ChargesAppend(c.queues[q], [e]);
        assert Charges([e]) == Charge(e) + Charges([]);
        TotalChargeUpdate(c.queues, q, c.queues[q] + [e]);
      case Refund(_) => FlightExact(c, i, cap);
      case Unlink(_, condition) =>
        var q := c.phases[i].queue;
        if Takes(c.queues[q], condition) {
          TotalChargeUpdate(c.queues, q, c.queues[q][1..]);
        }
      case Release(_) => FlightExact(c, i, cap);
      case Leave(_) =>
    }
  }

  /** The phase an activity moves to. */
  lemma MoveHolds(c: Config, m: Move)
    requires Enabled(c, m) && Kept(c)
    ensures var phases, i, phase := c.phases, m.activity, Next(c, m).phases[m.activity];
            && Next(c, m).phases == phases[i := phase] && Exclusive(phases[i := phase])
            && (phases[i].Outside? || phase.Outside? || phase.queue == phases[i].queue)
            && forall q :: phase.Holds(q) ==> phases[i].Holds(q) || Free(c, q)
  {
    hide Consumed, ItemSize, Released;
    ExclusiveKept(c.phases, m.activity, Next(c, m).phases[m.activity]);
  }

  function QueueAfter(c: Config, m: Move, q: nat): seq<Event>
    requires Enabled(c, m) && q < |c.queues|
  {
    var whole := WholeQueue(c, q);
    if !c.phases[m.activity].Holds(q) then whole
    else if m.Consume? && Next(c, m).phases[m.activity].Charged? then whole + [m.event]
    else if m.Release? && whole != [] then whole[1..]
    else whole
  }

  ghost predicate QueueMoves(c: Config, m: Move, q: nat)
    requires Enabled(c, m) && q < |c.queues|
  {
    var c', phase := Next(c, m), c.phases[m.activity];
    && |c'.queues| == |c.queues| && WholeQueue(c', q) == QueueAfter(c, m, q)
    && (phase.Holds(q) && m.Release? ==> WholeQueue(c, q) != [] && WholeQueue(c, q)[0] == phase.event)
    && (phase.Holds(q) && (m.Consume? || m.Unlink?) ==> WholeQueue(c, q) == c.queues[q])
  }

  /** A move changes no queue but its own, and that one as a whole only where it takes effect. */
  lemma WholeQueueAfter(c: Config, m: Move, q: nat)
    requires Enabled(c, m) && Kept(c) && q < |c.queues|
    ensures QueueMoves(c, m, q)
  {
    hide Next, QueueMoves;
    if m.Consume? || m.Link? || m.Refund? {
      WholeQueueAfterPush(c, m, q);
    } else if m.Unlink? || m.Release? {
      WholeQueueAfterPop(c, m, q);
    } else {
      WholeQueueAfterGate(c, m, q);
    }
  }

  lemma WholeQueueAfterPush(c: Config, m: Move, q: nat)
    requires Enabled(c, m) && Kept(c) && q < |c.queues| && (m.Consume? || m.Link? || m.Refund?)
    ensures QueueMoves(c, m, q)
  {
    hide Consumed, ItemSize, Released, Exclusive, Holder, Free;
    MoveHolds(c, m);
    Hands(c.phases, m.activity, Next(c, m).phases[m.activity], q);
  }

  lemma WholeQueueAfterPop(c: Config, m: Move, q: nat)
    requires Enabled(c, m) && Kept(c) && q < |c.queues| && (m.Unlink? || m.Release?)
    ensures QueueMoves(c, m, q)
  {
    hide Next, QueueMoves;
    if m.Unlink? {
      WholeQueueAfterUnlink(c, m, q);
    } else {
      WholeQueueAfterRelease(c, m, q);
    }
  }

  lemma WholeQueueAfterUnlink(c: Config, m: Move, q: nat)
    requires Enabled(c, m) && Kept(c) && q < |c.queues| && m.Unlink?
    ensures QueueMoves(c, m, q)
  {
    hide ItemSize, Released, Exclusive, Holder, Free;
    MoveHolds(c, m);
    Hands(c.phases, m.activity, Next(c, m).phases[m.activity], q);
  }

  lemma WholeQueueAfterRelease(c: Config, m: Move, q: nat)
    requires Enabled(c, m) && Kept(c) && q < |c.queues| && m.Release?
    ensures QueueMoves(c, m, q)
  {
    hide ItemSize, Released, Exclusive, Holder, Free, Takes;
    MoveHolds(c, m);
    Hands(c.phases, m.activity, Next(c, m).phases[m.activity], q);
  }

  lemma WholeQueueAfterGate(c: Config, m: Move, q: nat)
    requires Enabled(c, m) && Kept(c) && q < |c.queues| && (m.Enter? || m.Leave?)
    ensures QueueMoves(c, m, q)
  {
    hide Exclusive, Holder;
    MoveHolds(c, m);
    Hands(c.phases, m.activity, Next(c, m).phases[m.activity], q);
  }

  lemma KeptAfter(c: Config, m: Move)
    requires Enabled(c, m) && Kept(c)
    ensures Kept(Next(c, m))
  {
    hide Consumed, ItemSize, Released, Exclusive, WholeQueue;
    MoveHolds(c, m);
    var c' := Next(c, m);
    forall q | 0 <= q < |c'.queues| ensures c'.pushed[q] == c'.popped[q] + WholeQueue(c', q) {
      HistoryAfter(c, m, q);
    }
  }

  lemma HistoryAfter(c: Config, m: Move, q: nat)
    requires Enabled(c, m) && Kept(c) && q < |c.queues|
    ensures Next(c, m).pushed[q] == Next(c, m).popped[q] + WholeQueue(Next(c, m), q)
  {
    hide Consumed, ItemSize, Released, Exclusive, WholeQueue;
    WholeQueueAfter(c, m, q);
    var whole, popped := WholeQueue(c, q), c.popped[q];
    if m.Consume? {
      Associative(popped, whole, [m.event]);
    }
    if m.Release? && whole != [] {
      assert popped + whole == popped + [whole[0]] + whole[1..];
    }
  }

  // ----- the same run in whole operations -----

  /** The queues as if every granted push were complete and every pop not yet released had not begun. */
  function Whole(c: Config): (s: State)
    requires Shaped(c) && Refunds(c.phases) <= c.budget.consumption
    ensures |s.queues| == |s.pushed| == |s.popped| == |c.queues|
  {
    State(seq(|c.queues|, q requires 0 <= q < |c.queues| => WholeQueue(c, q)),
          c.budget.(consumption := c.budget.consumption - Refunds(c.phases)), c.pushed, c.popped)
  }

  /** The operation that takes effect with a move: a push when it asks the monitor, a pop when it gives back. */
  function Effect(c: Config, m: Move): seq<Op>
    requires Enabled(c, m)
  {
    var phase := c.phases[m.activity];
    match m
    case Consume(_, e, limit, mallocOk) => [PushOp(phase.queue, e, limit, mallocOk)]
    case Release(_) => [PopOp(phase.queue, phase.condition)]
    case Unlink(_, condition) => if Takes(c.queues[phase.queue], condition) then [] else [PopOp(phase.queue, condition)]
    case _ => []
  }

  /** A push is granted or refused as it would be without the charges that failed allocations are about to give back. */
  predicate Undisturbed(c: Config, m: Move)
    requires Refunds(c.phases) <= c.budget.consumption
  {
    m.Consume? && m.mallocOk ==>
      var b := c.budget.(consumption := c.budget.consumption - Refunds(c.phases));
      Consumed(c.budget, ItemSize(m.event.dataSize), m.limit).1
      == Consumed(b, ItemSize(m.event.dataSize), m.limit).1
  }

  lemma RefundsCovered(c: Config, cap: u32)
    requires Balanced(c, cap)
    ensures Refunds(c.phases) <= c.budget.consumption
  {
    RefundsFly(c.phases);
  }

  lemma WholeQueuesAfter(c: Config, m: Move)
    requires Enabled(c, m) && Kept(c) && Refunds(c.phases) <= c.budget.consumption
    requires Refunds(Next(c, m).phases) <= Next(c, m).budget.consumption && Shaped(Next(c, m))
    ensures var phase := c.phases[m.activity];
            Whole(Next(c, m)).queues == if phase.Outside? then Whole(c).queues
                                        else Whole(c).queues[phase.queue := QueueAfter(c, m, phase.queue)]
  {
    hide Consumed, ItemSize, Released, WholeQueue, Next;
    WholeQueueCount(c, m);
    forall q | 0 <= q < |c.queues| ensures Whole(Next(c, m)).queues[q] == QueueAfter(c, m, q) {
      WholeQueueAfter(c, m, q);
    }
  }

  lemma WholeQueueCount(c: Config, m: Move)
    requires Enabled(c, m)
    ensures |Next(c, m).queues| == |c.queues|
  {
  }

  lemma RunOnly(s: State, op: Op)
    requires HasQueue(s, op.queue)
    ensures Run(s, [op]) == Step(s, op)
  {
    assert [op][1..] == [];
  }

  /** Entering, linking, giving a refund back, unlinking and leaving are not to be seen from outside. */
  lemma SilentMove(c: Config, m: Move, cap: u32)
    requires Enabled(c, m) && Kept(c) && Balanced(c, cap) && Effect(c, m) == []
    requires Shaped(Next(c, m)) && Refunds(Next(c, m).phases) <= Next(c, m).budget.consumption
    requires Refunds(c.phases) <= c.budget.consumption
    ensures Whole(Next(c, m)) == Whole(c)
  {
    hide Consumed, Kept, WholeQueue, Exclusive, Free;
    WholeQueuesAfter(c, m);
    PhaseChange(c.phases, m.activity, Next(c, m).phases[m.activity]);
    if m.Refund? {
      FlightExact(c, m.activity, cap);
    }
  }

  /** A pop takes effect when its charge is released, or when it finds the queue empty or the condition unmet. */
  lemma PopMove(c: Config, m: Move, cap: u32)
    requires Enabled(c, m) && Kept(c) && Balanced(c, cap) && (m.Release? || m.Unlink?) && Effect(c, m) != []
    requires Shaped(Next(c, m)) && Refunds(Next(c, m).phases) <= Next(c, m).budget.consumption
    requires Refunds(c.phases) <= c.budget.consumption
    ensures var q := c.phases[m.activity].queue;
            && HasQueue(Whole(c), q)
            && Whole(Next(c, m)) == Pop(Whole(c), q, Effect(c, m)[0].condition)
  {
    hide Consumed, WholeQueue, Exclusive, Free, Enabled, Kept, Balanced;
    if m.Release? {
      ReleaseMove(c, m, cap);
    } else {
      RefusedPop(c, m);
    }
  }

  lemma ReleaseMove(c: Config, m: Move, cap: u32)
    requires Enabled(c, m) && Kept(c) && Balanced(c, cap) && m.Release?
    requires Shaped(Next(c, m)) && Refunds(Next(c, m).phases) <= Next(c, m).budget.consumption
    requires Refunds(c.phases) <= c.budget.consumption
    ensures var phase := c.phases[m.activity];
            HasQueue(Whole(c), phase.queue) && Whole(Next(c, m)) == Pop(Whole(c), phase.queue, phase.condition)
  {
    hide Consumed, WholeQueue, Exclusive, Free, Balanced, ItemSize;
    WholeQueuesAfter(c, m);
    WholeQueueAfter(c, m, c.phases[m.activity].queue);
    PhaseChange(c.phases, m.activity, Next(c, m).phases[m.activity]);
    FlightExact(c, m.activity, cap);
    ReleaseCovered(c, m.activity, cap);
  }

  lemma RefusedPop(c: Config, m: Move)
    requires Enabled(c, m) && Kept(c) && m.Unlink? && Effect(c, m) != []
    requires Shaped(Next(c, m)) && Refunds(Next(c, m).phases) <= Next(c, m).budget.consumption
    requires Refunds(c.phases) <= c.budget.consumption
    ensures var q := c.phases[m.activity].queue;
            HasQueue(Whole(c), q) && Whole(Next(c, m)) == Pop(Whole(c), q, m.condition)
  {
    hide Released, WholeQueue, Exclusive, Free;
    WholeQueuesAfter(c, m);
    WholeQueueAfter(c, m, c.phases[m.activity].queue);
    PhaseChange(c.phases, m.activity, Next(c, m).phases[m.activity]);
  }

  lemma ReleaseCovered(c: Config, i: nat, cap: u32)
    requires Balanced(c, cap) && i < |c.phases| && c.phases[i].Unlinked?
    ensures Charge(c.phases[i].event) + Refunds(c.phases) <= c.budget.consumption
  {
    PhaseChange(c.phases, i, Outside);
    RefundsFly(c.phases[i := Outside]);
  }

  /** A push takes effect when it asks the monitor: as a whole operation exactly if no refund tips the decision. */
  lemma PushMoveIff(c: Config, m: Move, cap: u32)
    requires Enabled(c, m) && Kept(c) && Balanced(c, cap) && m.Consume? && Fitting(m, cap)
    requires Shaped(Next(c, m)) && Refunds(Next(c, m).phases) <= Next(c, m).budget.consumption
    requires Refunds(c.phases) <= c.budget.consumption
    ensures var q := c.phases[m.activity].queue;
            && HasQueue(Whole(c), q)
            && (Whole(Next(c, m)) == Push(Whole(c), q, m.event, m.limit, m.mallocOk) <==> Undisturbed(c, m))
  {
    hide WholeQueue, Exclusive, Free, Consumed, PushOutcome, ItemSize, Refunds, FitsUnder, TotalCharge, InFlight;
    var q, e, refunds := c.phases[m.activity].queue, m.event, Refunds(c.phases);
    WholeQueuesAfter(c, m);
    WholeQueueAfter(c, m, q);
    PhaseChange(c.phases, m.activity, Next(c, m).phases[m.activity]);
    PushBudget(c.budget, refunds, e, m.limit, m.mallocOk, cap);
    assert c.pushed[q] + [e] != c.pushed[q];
  }

  lemma PushBudget(b: Budget, refunds: nat, e: Event, limit: Option<u32>, mallocOk: bool, cap: u32)
    requires refunds <= b.consumption <= b.peak <= cap && FitsUnder(e, limit, cap)
    ensures var low := b.(consumption := b.consumption - refunds);
            var (b1, granted) := Consumed(b, ItemSize(e.dataSize), limit);
            var (b2, result) := PushOutcome(low, e, limit, mallocOk);
            var same := mallocOk ==> granted == Consumed(low, ItemSize(e.dataSize), limit).1;
            var kept := refunds + if granted == MonitorOk && !mallocOk then Charge(e) else 0;
            && kept <= b1.consumption
            && (same ==> b2 == b1.(consumption := b1.consumption - kept))
            && (same <==> (result.QueueOk? <==> granted == MonitorOk && mallocOk))
  {
    var low := b.(consumption := b.consumption - refunds);
    ConsumeBalance(b, e, limit, cap);
    ConsumeBalance(low, e, limit, cap);
    hide Consumed, ItemSize;
    ChargeExact(e, cap);
  }

  lemma ChargeExact(e: Event, cap: u32)
    requires Charge(e) + cap <= U32_MAX
    ensures ItemSize(e.dataSize) == Charge(e)
  {
  }

  // ----- whole runs -----

  ghost predicate AllFit(moves: seq<Move>, cap: u32) {
    forall k | 0 <= k < |moves| :: Fitting(moves[k], cap)
  }

  /** The operations of a run, in the order in which they take effect. */
  function Effects(c: Config, moves: seq<Move>): seq<Op>
    requires Runs(c, moves)
    decreases |moves|
  {
    if moves == [] then [] else Effect(c, moves[0]) + Effects(Next(c, moves[0]), moves[1..])
  }

  /** No push is refused for the sake of a charge that a failed allocation is about to give back. */
  ghost predicate NeverDisturbed(c: Config, moves: seq<Move>)
    requires Runs(c, moves)
    decreases |moves|
  {
    moves != [] ==>
      && Refunds(c.phases) <= c.budget.consumption && Undisturbed(c, moves[0])
      && NeverDisturbed(Next(c, moves[0]), moves[1..])
  }

  /** In every interleaving: exact accounting with the charges in flight, and conservation per queue. */
  lemma {:induction false} AlwaysBalanced(c: Config, moves: seq<Move>, cap: u32)
    requires Runs(c, moves) && AllFit(moves, cap) && Kept(c) && Balanced(c, cap)
    ensures Kept(After(c, moves)) && Balanced(After(c, moves), cap)
    decreases |moves|
  {
    if moves != [] {
      hide Kept, Balanced, Enabled, Next;
      BalanceKept(c, moves[0], cap);
      KeptAfter(c, moves[0]);
      AlwaysBalanced(Next(c, moves[0]), moves[1..], cap);
    }
  }

  /** One move is the operation that takes effect with it, and nothing if none does, unless it is a disturbed push. */
  lemma MoveIsOperation(c: Config, m: Move, cap: u32)
    requires Enabled(c, m) && Kept(c) && Balanced(c, cap) && Fitting(m, cap)
    requires Refunds(c.phases) <= c.budget.consumption
    ensures Shaped(Next(c, m)) && Refunds(Next(c, m).phases) <= Next(c, m).budget.consumption
    ensures Addressed(Whole(c), Effect(c, m))
    ensures Whole(Next(c, m)) == Run(Whole(c), Effect(c, m)) <==> Undisturbed(c, m)
  {
    BalanceKept(c, m, cap);
    KeptAfter(c, m);
    RefundsCovered(Next(c, m), cap);
    hide Kept, Balanced, Next, Whole, Push, Pop, Run;
    if Effect(c, m) == [] {
      SilentMove(c, m, cap);
      RunNothing(Whole(c));
    } else {
      var op := Effect(c, m)[0];
      assert Effect(c, m) == [op];
      if m.Consume? {
        PushMoveIff(c, m, cap);
      } else {
        PopMove(c, m, cap);
      }
      RunOnly(Whole(c), op);
    }
  }

  lemma RunNothing(s: State)
    ensures Run(s, []) == s
  {
  }

  /**
   * Threads that interleave inside their operations do what whole operations do, one after the other, in the order in
   * which they ask the monitor for memory or give it back.
   */
  lemma {:induction false} InterleavingIsRun(c: Config, moves: seq<Move>, cap: u32)
    requires Runs(c, moves) && AllFit(moves, cap) && Kept(c) && Balanced(c, cap) && NeverDisturbed(c, moves)
    ensures Kept(After(c, moves)) && Balanced(After(c, moves), cap)
    ensures Refunds(c.phases) <= c.budget.consumption
    ensures Refunds(After(c, moves).phases) <= After(c, moves).budget.consumption
    ensures Addressed(Whole(c), Effects(c, moves))
    ensures Whole(After(c, moves)) == Run(Whole(c), Effects(c, moves))
    decreases |moves|
  {
    RefundsCovered(c, cap);
    AlwaysBalanced(c, moves, cap);
    RefundsCovered(After(c, moves), cap);
    if moves != [] {
      var c' := Next(c, moves[0]);
      BalanceKept(c, moves[0], cap);
      KeptAfter(c, moves[0]);
      MoveIsOperation(c, moves[0], cap);
      InterleavingIsRun(c', moves[1..], cap);
      hide Kept, Balanced, Next, Whole, Run, Effect, Enabled, Addressed;
      RunsJoin(Whole(c), Effect(c, moves[0]), Effects(c', moves[1..]));
    }
  }

  /** Every single move is its whole operation. */
  ghost predicate MoveByMove(c: Config, moves: seq<Move>)
    requires Runs(c, moves)
    decreases |moves|
  {
    moves != [] ==>
      var c' := Next(c, moves[0]);
      && Shaped(c) && Refunds(c.phases) <= c.budget.consumption && Addressed(Whole(c), Effect(c, moves[0]))
      && Shaped(c') && Refunds(c'.phases) <= c'.budget.consumption
      && Whole(c') == Run(Whole(c), Effect(c, moves[0])) && MoveByMove(c', moves[1..])
  }

  /** The condition is exact: a run goes along with its whole operations if and only if no push is ever disturbed. */
  lemma {:induction false} MoveByMoveIff(c: Config, moves: seq<Move>, cap: u32)
    requires Runs(c, moves) && AllFit(moves, cap) && Kept(c) && Balanced(c, cap)
    ensures MoveByMove(c, moves) <==> NeverDisturbed(c, moves)
    decreases |moves|
  {
    if moves != [] {
      RefundsCovered(c, cap);
      BalanceKept(c, moves[0], cap);
      KeptAfter(c, moves[0]);
      MoveIsOperation(c, moves[0], cap);
      MoveByMoveIff(Next(c, moves[0]), moves[1..], cap);
      hide Balanced, Next, Whole, Run, Effect, Enabled, Addressed, Undisturbed;
    }
  }

  lemma {:induction false} RunsJoin(s: State, a: seq<Op>, b: seq<Op>)
    requires Addressed(s, a) && Addressed(Run(s, a), b) && |s.queues| == |s.pushed| == |s.popped|
    ensures Addressed(s, a + b) && Run(s, a + b) == Run(Run(s, a), b)
    decreases |a|
  {
    if a == [] {
      assert a + b == b;
    } else {
      assert (a + b)[1..] == a[1..] + b;
      RunsJoin(Step(s, a[0]), a[1..], b);
    }
  }

  // ----- from the start -----

  lemma {:induction false} NothingFlies(phases: seq<Phase>)
    requires forall i | 0 <= i < |phases| :: phases[i].Outside?
    ensures InFlight(phases) == 0 && Refunds(phases) == 0 && Exclusive(phases)
  {
    if phases != [] {
      NothingFlies(phases[1..]);
    }
  }

  ghost predicate Quiet(c: Config) {
    forall i | 0 <= i < |c.phases| :: c.phases[i].Outside?
  }

  function AsState(c: Config): State {
    State(c.queues, c.budget, c.pushed, c.popped)
  }

  /** While nobody is inside an operation there is nothing in flight, and the queues are as they are. */
  lemma QuietWhole(c: Config)
    requires Kept(c) && Quiet(c)
    ensures Refunds(c.phases) == 0 && InFlight(c.phases) == 0 && Whole(c) == AsState(c)
  {
    NothingFlies(c.phases);
    forall q | 0 <= q < |c.queues| ensures WholeQueue(c, q) == c.queues[q] {
      NoHolder(c.phases, q);
    }
  }

  lemma StartKept(n: nat, activities: nat, cap: u32)
    requires DEFAULT_MAX_LOCAL_CACHE_SIZE <= cap
    ensures Kept(Start(n, activities)) && Balanced(Start(n, activities), cap) && Quiet(Start(n, activities))
    ensures AsState(Start(n, activities)) == Initial(n)
  {
    var c := Start(n, activities);
    NothingFlies(c.phases);
    EmptyQueuesFree(n);
    forall q | 0 <= q < n ensures WholeQueue(c, q) == [] {
      NoHolder(c.phases, q);
    }
  }

  ghost predicate NoFailedAllocation(moves: seq<Move>) {
    forall k | 0 <= k < |moves| :: moves[k].Consume? ==> moves[k].mallocOk
  }

  lemma {:induction false} NoRefunds(phases: seq<Phase>)
    requires forall i | 0 <= i < |phases| :: !phases[i].Refunding?
    ensures Refunds(phases) == 0
  {
    if phases != [] {
      NoRefunds(phases[1..]);
    }
  }

  /** Only failed allocations ever disturb a push. */
  lemma {:induction false} NeverDisturbedWithout(c: Config, moves: seq<Move>)
    requires Runs(c, moves) && NoFailedAllocation(moves) && forall i | 0 <= i < |c.phases| :: !c.phases[i].Refunding?
    ensures NeverDisturbed(c, moves)
    decreases |moves|
  {
    NoRefunds(c.phases);
    if moves != [] {
      assert c.budget.(consumption := c.budget.consumption - 0) == c.budget;
      hide Consumed, ItemSize, Released;
      assert moves[0].Consume? ==> moves[0].mallocOk;
      NeverDisturbedWithout(Next(c, moves[0]), moves[1..]);
    }
  }

  /**
   * Any number of activities on any number of queues, from Init, in every interleaving: consumption is the charges of
   * the queued events and of those in flight, no larger than the largest limit, and each queue has lost and invented
   * nothing. Whenever all are outside, the queues, the budget and the histories are those of a run of whole operations,
   * unless a failed allocation disturbed a push.
   */
  lemma EveryInterleaving(n: nat, activities: nat, moves: seq<Move>, cap: u32)
    requires DEFAULT_MAX_LOCAL_CACHE_SIZE <= cap && Runs(Start(n, activities), moves) && AllFit(moves, cap)
    ensures Kept(After(Start(n, activities), moves)) && Balanced(After(Start(n, activities), moves), cap)
    ensures Quiet(After(Start(n, activities), moves)) ==> Sound(AsState(After(Start(n, activities), moves)))
    ensures NoFailedAllocation(moves) ==> NeverDisturbed(Start(n, activities), moves)
    ensures Quiet(After(Start(n, activities), moves)) && NeverDisturbed(Start(n, activities), moves) ==>
              && Addressed(Initial(n), Effects(Start(n, activities), moves))
              && AsState(After(Start(n, activities), moves))
                 == Run(Initial(n), Effects(Start(n, activities), moves))
  {
    var c := Start(n, activities);
    var c' := After(c, moves);
    StartKept(n, activities, cap);
    QuietWhole(c);
    AlwaysBalanced(c, moves, cap);
    if NoFailedAllocation(moves) {
      NeverDisturbedWithout(c, moves);
    }
    if Quiet(c') {
      QuietWhole(c');
      QuietSound(c', cap);
      if NeverDisturbed(c, moves) {
        InterleavingIsRun(c, moves, cap);
      }
    }
  }

  lemma QuietSound(c: Config, cap: u32)
    requires Kept(c) && Balanced(c, cap) && InFlight(c.phases) == 0 && Quiet(c)
    ensures Sound(AsState(c))
  {
    forall q | 0 <= q < |c.queues| ensures c.pushed[q] == c.popped[q] + c.queues[q] {
      NoHolder(c.phases, q);
    }
  }

  // ----- a disturbed push -----

  /** Two pushes of 60 bytes each to two queues under a limit of 100; the allocation of the first one fails. */
  const EVENT: Event := Event(0, 20, true)

  const DISTURBED: seq<Move> :=
    [Enter(0, 0), Enter(1, 1), Consume(0, EVENT, Some(100), false), Consume(1, EVENT, Some(100), true),
     Refund(0), Leave(0), Leave(1)]

  const FIRST: Op := PushOp(0, EVENT, Some(100), false)

  const SECOND: Op := PushOp(1, EVENT, Some(100), true)

  /** The two activities in these phases, with empty queues; `consumption` is in flight, `limit` was answered last. */
  function Two(consumption: u32, limit: u32, first: Phase, second: Phase): Config {
    Config([[], []], Budget(consumption, limit, DEFAULT_MAX_LOCAL_CACHE_SIZE), [[], []], [[], []], [first, second])
  }

  lemma FirstMoves()
    ensures Start(2, 2) == Two(0, DEFAULT_MAX_LOCAL_CACHE_SIZE, Outside, Outside)
    ensures Enabled(Start(2, 2), Enter(0, 0))
    ensures var c := Two(0, DEFAULT_MAX_LOCAL_CACHE_SIZE, Entered(0), Outside);
            && Next(Start(2, 2), Enter(0, 0)) == c && Enabled(c, Enter(1, 1))
            && Next(c, Enter(1, 1)) == Two(0, DEFAULT_MAX_LOCAL_CACHE_SIZE, Entered(0), Entered(1))
  {
    assert seq<seq<Event>>(2, _ => []) == [[], []];
    assert seq(2, _ => Outside) == [Outside, Outside];
  }

  lemma Consumptions()
    ensures var c := Two(0, DEFAULT_MAX_LOCAL_CACHE_SIZE, Entered(0), Entered(1));
            && Enabled(c, Consume(0, EVENT, Some(100), false))
            && Next(c, Consume(0, EVENT, Some(100), false)) == Two(60, 100, Refunding(0, EVENT), Entered(1))
    ensures var c := Two(60, 100, Refunding(0, EVENT), Entered(1));
            && Enabled(c, Consume(1, EVENT, Some(100), true))
            && Next(c, Consume(1, EVENT, Some(100), true)) == Two(60, 100, Refunding(0, EVENT), Leaving(1))
  {
  }

  lemma LastMoves()
    ensures var c := Two(60, 100, Refunding(0, EVENT), Leaving(1));
            Enabled(c, Refund(0)) && Next(c, Refund(0)) == Two(0, 100, Leaving(0), Leaving(1))
    ensures var c := Two(0, 100, Leaving(0), Leaving(1));
            Enabled(c, Leave(0)) && Next(c, Leave(0)) == Two(0, 100, Outside, Leaving(1))
    ensures var c := Two(0, 100, Outside, Leaving(1));
            Enabled(c, Leave(1)) && Next(c, Leave(1)) == Two(0, 100, Outside, Outside)
  {
  }

  lemma OneMove(c: Config, m: Move, rest: seq<Move>)
    requires Enabled(c, m) && Runs(Next(c, m), rest)
    ensures Runs(c, [m] + rest) && After(c, [m] + rest) == After(Next(c, m), rest)
  {
    assert ([m] + rest)[1..] == rest;
  }

  lemma SameMoves()
    ensures DISTURBED == [DISTURBED[0]] + DISTURBED[1..]
    ensures forall k | 0 <= k < 7 :: DISTURBED[k..] == [DISTURBED[k]] + DISTURBED[k + 1..]
    ensures DISTURBED[7..] == [] && DISTURBED[0..] == DISTURBED
  {
  }

  /** Both events are lost, although whole operations in either order would have kept the second. */
  lemma RefundDisturbs()
    ensures Runs(Start(2, 2), DISTURBED) && AllFit(DISTURBED, DEFAULT_MAX_LOCAL_CACHE_SIZE)
    ensures After(Start(2, 2), DISTURBED) == Two(0, 100, Outside, Outside)
    ensures Run(Initial(2), [FIRST, SECOND]).queues == [[], [EVENT]]
    ensures Run(Initial(2), [SECOND, FIRST]).queues == [[], [EVENT]]
  {
    WholeOrders();
    FirstMoves();
    Consumptions();
    LastMoves();
    SameMoves();
    hide Runs, After, Enabled, Next, Two, Start, Run;
    var D := DEFAULT_MAX_LOCAL_CACHE_SIZE;
    NoMove(Two(0, 100, Outside, Outside));
    OneMove(Two(0, 100, Outside, Leaving(1)), DISTURBED[6], []);
    OneMove(Two(0, 100, Leaving(0), Leaving(1)), DISTURBED[5], DISTURBED[6..]);
    OneMove(Two(60, 100, Refunding(0, EVENT), Leaving(1)), DISTURBED[4], DISTURBED[5..]);
    OneMove(Two(60, 100, Refunding(0, EVENT), Entered(1)), DISTURBED[3], DISTURBED[4..]);
    OneMove(Two(0, D, Entered(0), Entered(1)), DISTURBED[2], DISTURBED[3..]);
    OneMove(Two(0, D, Entered(0), Outside), DISTURBED[1], DISTURBED[2..]);
    OneMove(Start(2, 2), DISTURBED[0], DISTURBED[1..]);
  }

  lemma NoMove(c: Config)
    ensures Runs(c, []) && After(c, []) == c
  {
  }

  lemma WholeOrders()
    ensures Run(Initial(2), [FIRST, SECOND]).queues == [[], [EVENT]]
    ensures Run(Initial(2), [SECOND, FIRST]).queues == [[], [EVENT]]
  {
    var s := Initial(2);
    assert s.queues == [[], []];
    assert [] + [EVENT] == [EVENT] && [[], []][1 := [EVENT]] == [[], [EVENT]];
    assert Step(s, FIRST).queues == [[], []];
    assert Step(s, FIRST).budget.consumption == 0;
    assert Step(s, SECOND).queues == [[], [EVENT]];
    assert Step(s, SECOND).budget.consumption == 60;
    assert [FIRST, SECOND][1..] == [SECOND] && [SECOND, FIRST][1..] == [FIRST];
    RunOnly(Step(s, FIRST), SECOND);
    RunOnly(Step(s, SECOND), FIRST);
  }
}

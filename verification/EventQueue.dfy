/** One event queue: a doubly linked list whose nodes are charged to the shared memory monitor. */
module EventQueue {
  import opened Common
  import opened MemoryMonitor
  import TelemetryCounters

  /** sizeof(QueueItem) + sizeof(QueueItem*) on a 64-bit target. */
  const ITEM_OVERHEAD: u32 := 40

  datatype QueueResult = QueueOk | ConditionFailed | MaxMemoryExceeded | QueueIsEmpty | MemoryException

  /** A queued buffer: its length as told by the producer, and whether its text is a JSON object. */
  datatype Event = Event(data: int, dataSize: u32, isJsonObject: bool)

  /** What the code charges for an event: a sum in 32-bit arithmetic. */
  function ItemSize(dataSize: u32): u32 {
    Wrap(dataSize + ITEM_OVERHEAD)
  }

  /** What an event really occupies. */
  function Charge(e: Event): nat {
    e.dataSize + ITEM_OVERHEAD
  }

  function Charges(events: seq<Event>): nat {
    if events == [] then 0 else Charge(events[0]) + Charges(events[1..])
  }

  lemma {:induction false} ChargesAppend(a: seq<Event>, b: seq<Event>)
    ensures Charges(a + b) == Charges(a) + Charges(b)
  {
    if a == [] {
      assert a + b == b;
    } else {
      assert (a + b)[1..] == a[1..] + b;
      ChargesAppend(a[1..], b);
    }
  }

  lemma {:induction false} ChargesCover(events: seq<Event>)
    ensures ITEM_OVERHEAD * |events| <= Charges(events)
    ensures forall e | e in events :: Charge(e) <= Charges(events)
  {
    if events != [] {
      ChargesCover(events[1..]);
    }
  }

  class QueueItem {
    const event: Event
    var nextItem: QueueItem?
    var prevItem: QueueItem?
    /** The one queue this node belongs to while it is linked. */
    ghost const owner: Queue

    constructor (event: Event, ghost owner: Queue)
      ensures this.event == event && this.owner == owner && nextItem == null
    {
      this.event := event;
      this.owner := owner;
      nextItem := null;
    }
  }

  ghost function EventsOf(items: seq<QueueItem>): (events: seq<Event>)
    ensures |events| == |items|
  {
    seq(|items|, i requires 0 <= i < |items| => items[i].event)
  }

  /** The push as a value: the outcome and the budget it leaves behind. */
  function PushOutcome(b: Budget, e: Event, limit: Option<u32>, mallocOk: bool): (Budget, QueueResult) {
    var (b', consumed) := Consumed(b, ItemSize(e.dataSize), limit);
    if consumed == MemoryExceeded then (b', MaxMemoryExceeded)
    else if consumed != MonitorOk then (b', MemoryException)
    else if !mallocOk then (Released(b', ItemSize(e.dataSize)).0, MemoryException)
    else (b', QueueOk)
  }

  /** When a push is refused for want of memory, when for want of an answer or a node, and when it succeeds. */
  lemma PushDecision(b: Budget, e: Event, limit: Option<u32>, mallocOk: bool)
    ensures var (b', result) := PushOutcome(b, e, limit, mallocOk);
            var needed := Wrap(b.consumption + e.dataSize + 40);
            && (result.MaxMemoryExceeded? <==> limit.Some? && needed > limit.value)
            && (result.MemoryException? <==> limit.None? || (needed <= limit.value && !mallocOk))
            && (result.QueueOk? <==> limit.Some? && needed <= limit.value && mallocOk)
            && b'.limit == limit.GetOr(b.limit)
            && (result.QueueOk? ==> b'.consumption == needed)
            && (!result.QueueOk? && b.consumption + e.dataSize + 40 <= U32_MAX ==> b'.consumption == b.consumption)
  {
    WrapAdd(e.dataSize + 40, b.consumption);
  }

  /** The same where nothing wraps, in terms of the memory the event really occupies. */
  lemma PushDecisionExact(b: Budget, e: Event, limit: Option<u32>, mallocOk: bool)
    requires b.consumption + Charge(e) <= U32_MAX
    ensures var result := PushOutcome(b, e, limit, mallocOk).1;
            && (result.MaxMemoryExceeded? <==> limit.Some? && b.consumption + Charge(e) > limit.value)
            && (result.MemoryException? <==>
                  limit.None? || (b.consumption + Charge(e) <= limit.value && !mallocOk))
            && (result.QueueOk? <==> limit.Some? && b.consumption + Charge(e) <= limit.value && mallocOk)
    ensures Charge(e) == e.dataSize + 40
  {
    PushDecision(b, e, limit, mallocOk);
  }

  /** The budget after every event of a list has been released, oldest first. */
  function ReleasedAll(b: Budget, events: seq<Event>): Budget
    decreases events
  {
    if events == [] then b else ReleasedAll(Released(b, ItemSize(events[0].dataSize)).0, events[1..])
  }

  class Queue {
    var firstItem: QueueItem?
    var lastItem: QueueItem?
    var numberOfElements: u32
    const shouldSendLogs: bool
    var collected: u32
    var dropped: u32
    ghost var items: seq<QueueItem>

    /** The nodes form one doubly linked chain whose ends are firstItem and lastItem. */
    ghost predicate Valid()
      reads this, items
    {
      && numberOfElements == |items|
      && (items == [] ==> firstItem == null && lastItem == null)
      && (items != [] ==> firstItem == items[0] && lastItem == items[|items| - 1])
      && (forall i :: 0 <= i < |items| ==> items[i].owner == this)
      && (forall i, j :: 0 <= i < j < |items| ==> items[i] != items[j])
      && (forall i {:trigger items[i].nextItem} :: 0 <= i < |items| ==>
            items[i].nextItem == if i + 1 < |items| then items[i + 1] else null)
      && (forall i {:trigger items[i].prevItem} :: 0 <= i < |items| ==>
            items[i].prevItem == if 0 < i then items[i - 1] else null)
    }

    ghost function Contents(): seq<Event>
      reads this
    {
      EventsOf(items)
    }

    ghost function Counters(): TelemetryCounters.Counter
      reads this
    {
      TelemetryCounters.Counter(collected, dropped)
    }

    constructor (shouldSendLogs: bool)
      ensures Valid() && Contents() == [] && items == []
      ensures this.shouldSendLogs == shouldSendLogs && Counters() == TelemetryCounters.ZERO
    {
      numberOfElements := 0;
      firstItem := null;
      lastItem := null;
      this.shouldSendLogs := shouldSendLogs;
      collected := 0;
      dropped := 0;
      items := [];
    }

    /** Links a new node behind the last one; the chain grows by exactly that node. */
    method Append(e: Event)
      requires Valid() && numberOfElements < U32_MAX
      modifies this`firstItem, this`lastItem, this`numberOfElements, this`items, items
      ensures Valid() && Contents() == old(Contents()) + [e]
      ensures items != [] && items[..|items| - 1] == old(items) && fresh(items[|items| - 1])
    {
      var newItem := new QueueItem(e, this);
      if firstItem == null {
        firstItem := newItem;
        lastItem := newItem;
        newItem.prevItem := null;
      } else {
        lastItem.nextItem := newItem;
        newItem.prevItem := lastItem;
        lastItem := newItem;
      }
      numberOfElements := numberOfElements + 1;
      items := items + [newItem];
    }

    /**
     * Pushes an event. `log` tells whether the failure is reported to the logger.
     * The element counter cannot wrap while every queued node is charged to the budget.
     */
    method PushBack(monitor: Monitor, e: Event, twinLimit: Option<u32>, mallocOk: bool)
      returns (result: QueueResult, log: bool)
      requires Valid() && numberOfElements < U32_MAX
      modifies this, items, monitor
      ensures Valid()
      ensures if result.QueueOk? then items != [] && items[..|items| - 1] == old(items) && fresh(items[|items| - 1])
              else items == old(items)
      ensures (monitor.Value(), result) == PushOutcome(old(monitor.Value()), e, twinLimit, mallocOk)
      ensures Contents() == old(Contents()) + (if result.QueueOk? then [e] else [])
      ensures Counters() == TelemetryCounters.CollectOne(
                              if result.MaxMemoryExceeded? then TelemetryCounters.DropOne(old(Counters()))
                              else old(Counters()))
      ensures log <==> shouldSendLogs && (result.MaxMemoryExceeded? || twinLimit.None?)
      ensures var exceeded :=
                twinLimit.Some? && Wrap(old(monitor.currentConsumptionInBytes) + e.dataSize + 40) > twinLimit.value;
              && (result.MaxMemoryExceeded? <==> exceeded)
              && (result.QueueOk? <==> twinLimit.Some? && !exceeded && mallocOk)
              && dropped == (if exceeded then Wrap(old(dropped) + 1) else old(dropped))
              && collected == Wrap(old(collected) + 1)
              && (log <==> shouldSendLogs && (exceeded || twinLimit.None?))
    {
      PushDecision(monitor.Value(), e, twinLimit, mallocOk);
      hide Wrap, Consumed, Released, ItemSize, Queue.Valid;
      log := false;
      var consumed := monitor.Consume(ItemSize(e.dataSize), twinLimit);
      if consumed != MonitorOk {
        log := shouldSendLogs;
        if consumed == MemoryExceeded {
          result := MaxMemoryExceeded;
          dropped := Wrap(dropped + 1);
        } else {
          result := MemoryException;
        }
      } else if !mallocOk {
        result := MemoryException;
        var _ := monitor.Release(ItemSize(e.dataSize));
      } else {
        Append(e);
        result := QueueOk;
      }
      collected := Wrap(collected + 1);
    }

    /** Unlinks the first node; the chain loses exactly its head. */
    method Unlink() returns (item: QueueItem)
      requires Valid() && items != []
      modifies this`firstItem, this`lastItem, this`numberOfElements, this`items, items
      ensures Valid() && old(items) == [item] + items
    {
      item := firstItem;
      if item.nextItem == null {
        firstItem := null;
        lastItem := null;
      } else {
        firstItem := item.nextItem;
        firstItem.prevItem := null;
      }
      numberOfElements := numberOfElements - 1;
      items := items[1..];
    }

    method PopFront(monitor: Monitor) returns (result: QueueResult, e: Option<Event>)
      requires Valid()
      modifies this`firstItem, this`lastItem, this`numberOfElements, this`items, items, monitor
      ensures Valid()
      ensures old(items) == [] ==>
                result == QueueIsEmpty && e == None && items == [] && monitor.Value() == old(monitor.Value())
      ensures old(items) != [] ==>
                && result == QueueOk && e.Some? && items == old(items)[1..]
                && old(Contents()) == [e.value] + Contents()
                && monitor.Value() == Released(old(monitor.Value()), ItemSize(e.value.dataSize)).0
    {
      if numberOfElements == 0 {
        return QueueIsEmpty, None;
      }
      var item := Unlink();
      assert Contents() == old(Contents())[1..];
      e := Some(item.event);
      var _ := monitor.Release(ItemSize(item.event.dataSize));
      result := QueueOk;
    }

    method PopFrontIf(monitor: Monitor, condition: Event -> bool) returns (result: QueueResult, e: Option<Event>)
      requires Valid()
      modifies this`firstItem, this`lastItem, this`numberOfElements, this`items, items, monitor
      ensures Valid()
      ensures e.None? ==> items == old(items) && monitor.Value() == old(monitor.Value())
      ensures e.None? ==> result == if items == [] then QueueIsEmpty else ConditionFailed
      ensures e.None? && items != [] ==> !condition(Contents()[0])
      ensures e.Some? ==>
                && result == QueueOk && condition(e.value) && old(items) != [] && items == old(items)[1..]
                && old(Contents()) == [e.value] + Contents()
                && monitor.Value() == Released(old(monitor.Value()), ItemSize(e.value.dataSize)).0
    {
      if numberOfElements == 0 {
        return QueueIsEmpty, None;
      }
      if !condition(firstItem.event) {
        return ConditionFailed, None;
      }
      assert Contents()[0] == firstItem.event;
      result, e := PopFront(monitor);
    }

    /** AgentTelemetryCounter_SnapshotAndReset on this queue's counter. */
    method SnapshotAndReset() returns (outData: TelemetryCounters.Counter)
      modifies this`collected, this`dropped
      ensures outData == old(Counters()) && Counters() == TelemetryCounters.ZERO
    {
      outData := TelemetryCounters.Counter(collected, dropped);
      collected, dropped := 0, 0;
    }

    /** Pops until the element counter reaches zero. */
    method Deinit(monitor: Monitor)
      requires Valid()
      modifies this`firstItem, this`lastItem, this`numberOfElements, this`items, items, monitor
      ensures Valid() && items == []
      ensures monitor.Value() == ReleasedAll(old(monitor.Value()), old(Contents()))
    {
      while numberOfElements > 0
        invariant Valid() && (forall i :: 0 <= i < |items| ==> items[i] in old(items))
        invariant ReleasedAll(monitor.Value(), Contents()) == ReleasedAll(old(monitor.Value()), old(Contents()))
      {
        var _, _ := PopFront(monitor);
      }
    }
  }

  /** A full cache: 140 bytes are asked for where 100 are allowed. The push is refused, reported and counted. */
  method FullCache() returns (result: QueueResult, log: bool, collected: u32, dropped: u32)
    ensures result == MaxMemoryExceeded && log && collected == 1 && dropped == 1
  {
    var monitor := new Monitor();
    var queue := new Queue(true);
    result, log := queue.PushBack(monitor, Event(0, 100, true), Some(100), true);
    collected, dropped := queue.collected, queue.dropped;
  }
}

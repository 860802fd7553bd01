/** The queues and the monitor on the heap: linked lists with disjoint nodes, one shared budget. */
module Pipeline {
  import opened Common
  import opened MemoryMonitor
  import opened EventQueue
  import opened PipelineSpec

  class AgentQueues {
    const monitor: Monitor
    const queues: seq<Queue>
    /** No limit above this one is ever configured. */
    ghost const cap: u32
    ghost var pushed: seq<seq<Event>>
    ghost var popped: seq<seq<Event>>
    /** Every node of every queue. */
    ghost var nodes: set<QueueItem>

    /** The lists are well formed, distinct and made of known nodes. */
    ghost predicate Linked()
      reads this, queues, nodes
    {
      && |pushed| == |popped| == |queues|
      && (forall i, j :: 0 <= i < j < |queues| ==> queues[i] != queues[j])
      && (forall i, k :: 0 <= i < |queues| && 0 <= k < |queues[i].items| ==> queues[i].items[k] in nodes)
      && (forall i :: 0 <= i < |queues| ==> queues[i].Valid())
    }

    ghost function Lists(): (lists: seq<seq<Event>>)
      reads this, queues
      ensures |lists| == |queues|
    {
      seq(|queues|, i requires 0 <= i < |queues| reads this, queues => queues[i].Contents())
    }

    /** The heap as a value of the specification. */
    ghost function Value(): (v: State)
      reads this, monitor, queues
      ensures |v.queues| == |queues|
    {
      State(Lists(), monitor.Value(), pushed, popped)
    }

    ghost predicate Valid()
      reads this, monitor, queues, nodes
    {
      Linked() && Sound(Value()) && monitor.peakLimit <= cap
    }

    lemma ValidValue()
      requires Valid()
      ensures Sound(Value()) && Conserved(Value()) && Value().budget.consumption <= Value().budget.peak <= cap
      ensures |Value().queues| == |Value().pushed| == |Value().popped| == |queues|
    {
    }

    constructor (sendLogs: seq<bool>, ghost limitCap: u32)
      requires DEFAULT_MAX_LOCAL_CACHE_SIZE <= limitCap
      ensures Valid() && fresh(monitor) && (forall i | 0 <= i < |queues| :: fresh(queues[i])) && nodes == {}
      ensures |queues| == |sendLogs| && forall i | 0 <= i < |queues| :: queues[i].shouldSendLogs == sendLogs[i]
      ensures Value() == Initial(|sendLogs|) && cap == limitCap
    {
      var qs: seq<Queue> := [];
      for k := 0 to |sendLogs|
        invariant |qs| == k
        invariant forall i | 0 <= i < k :: fresh(qs[i]) && qs[i].Valid() && qs[i].items == []
        invariant forall i | 0 <= i < k :: qs[i].shouldSendLogs == sendLogs[i]
        invariant forall i, j | 0 <= i < j < k :: qs[i] != qs[j]
      {
        var queue := new Queue(sendLogs[k]);
        qs := qs + [queue];
      }
      monitor := new Monitor();
      queues := qs;
      cap := limitCap;
      pushed := seq(|sendLogs|, _ => []);
      popped := seq(|sendLogs|, _ => []);
      nodes := {};
      new;
      EmptyQueuesFree(|sendLogs|);
      assert Value() == Initial(|sendLogs|);
    }

    twostate lemma OthersKeep(q: nat)
      requires old(Linked()) && q < |queues|
      requires forall i | 0 <= i < |queues| && i != q :: unchanged(queues[i])
      requires forall o: QueueItem | old(allocated(o)) && o !in old(queues[q].items) :: unchanged(o)
      ensures forall i | 0 <= i < |queues| && i != q :: queues[i].Valid()
      ensures Lists() == old(Lists())[q := queues[q].Contents()] && old(Lists()[q] == queues[q].Contents())
    {
      assert forall o | o in old(queues[q].items) :: o.owner == queues[q];
      var lists := old(Lists())[q := queues[q].Contents()];
      forall i | 0 <= i < |queues| ensures Lists()[i] == lists[i] {
        assert i != q ==> queues[i].Contents() == old(queues[i].Contents());
      }
    }

    method PushNode(q: nat, e: Event, limit: Option<u32>, mallocOk: bool) returns (result: QueueResult, log: bool)
      requires Linked() && q < |queues| && queues[q].numberOfElements < U32_MAX
      modifies this`nodes, monitor, queues[q], queues[q].items
      ensures Linked() && fresh(nodes - old(nodes))
      ensures Lists() == Push(old(Value()), q, e, limit, mallocOk).queues
      ensures (monitor.Value(), result) == PushOutcome(old(monitor.Value()), e, limit, mallocOk)
      ensures log <==> queues[q].shouldSendLogs && (result.MaxMemoryExceeded? || limit.None?)
      ensures queues[q].dropped == if result.MaxMemoryExceeded? then Wrap(old(queues[q].dropped) + 1)
                                   else old(queues[q].dropped)
    {
      hide PushOutcome, Wrap, Monitor.Value, AgentQueues.Lists, Queue.Contents, Queue.Valid;
      result, log := queues[q].PushBack(monitor, e, limit, mallocOk);
      if result.QueueOk? {
        nodes := nodes + {queues[q].items[|queues[q].items| - 1]};
      }
      OthersKeep(q);
      ghost var lists := old(Lists());
      assert lists[q] + [] == lists[q] && lists[q := lists[q]] == lists;
    }

    method PopNode(q: nat, condition: Event -> bool) returns (result: QueueResult, e: Option<Event>)
      requires Linked() && q < |queues|
      modifies monitor, queues[q], queues[q].items
      ensures Linked()
      ensures e == Poppable(old(Value()), q, condition)
      ensures Lists() == Pop(old(Value()), q, condition).queues
      ensures monitor.Value() == Pop(old(Value()), q, condition).budget
      ensures result == if e.Some? then QueueOk else if Lists()[q] == [] then QueueIsEmpty else ConditionFailed
    {
      result, e := queues[q].PopFrontIf(monitor, condition);
      OthersKeep(q);
    }

    lemma PushDecisionFits(s: State, e: Event, limit: Option<u32>, mallocOk: bool, cap: u32)
      requires s.budget.consumption <= s.budget.peak <= cap && FitsUnder(e, limit, cap)
      ensures var result := PushOutcome(s.budget, e, limit, mallocOk).1;
              var exceeded := limit.Some? && s.budget.consumption + e.dataSize + 40 > limit.value;
              && (result.MaxMemoryExceeded? <==> exceeded)
              && (result.MemoryException? <==> limit.None? || (!exceeded && !mallocOk))
              && (result.QueueOk? <==> limit.Some? && !exceeded && mallocOk)
    {
      PushDecisionExact(s.budget, e, limit, mallocOk);
    }

    /** SyncQueue_PushBack on the queue with index q. */
    method PushBack(q: nat, e: Event, limit: Option<u32>, mallocOk: bool) returns (result: QueueResult, log: bool)
      requires Valid() && q < |queues| && FitsUnder(e, limit, cap)
      modifies this`pushed, this`nodes, monitor, queues, nodes
      ensures Valid() && fresh(nodes - old(nodes))
      ensures Value() == Push(old(Value()), q, e, limit, mallocOk)
      ensures result == PushOutcome(old(Value()).budget, e, limit, mallocOk).1
      ensures log <==> queues[q].shouldSendLogs && (result.MaxMemoryExceeded? || limit.None?)
      ensures var exceeded := limit.Some? && old(monitor.currentConsumptionInBytes) + e.dataSize + 40 > limit.value;
              && (result.MaxMemoryExceeded? <==> exceeded)
              && (result.MemoryException? <==> limit.None? || (!exceeded && !mallocOk))
              && (result.QueueOk? <==> limit.Some? && !exceeded && mallocOk)
              && queues[q].dropped == (if exceeded then Wrap(old(queues[q].dropped) + 1) else old(queues[q].dropped))
              && (log <==> queues[q].shouldSendLogs && (exceeded || limit.None?))
    {
      hide Sound, PushOutcome, Wrap;
      ghost var s := Value();
      ValidValue();
      PushDecisionFits(s, e, limit, mallocOk, cap);
      PushSound(s, q, e, limit, mallocOk, cap);
      QueueLength(s, q);
      result, log := PushNode(q, e, limit, mallocOk);
      if result.QueueOk? {
        pushed := pushed[q := pushed[q] + [e]];
      }
      assert Value() == Push(s, q, e, limit, mallocOk);
    }

    /** SyncQueue_PopFrontIf on the queue with index q. */
    method PopFrontIf(q: nat, condition: Event -> bool) returns (result: QueueResult, e: Option<Event>)
      requires Valid() && q < |queues|
      modifies this`popped, monitor, queues, nodes
      ensures Valid()
      ensures e == Poppable(old(Value()), q, condition)
      ensures Value() == Pop(old(Value()), q, condition)
      ensures result == if e.Some? then QueueOk
                        else if Value().queues[q] == [] then QueueIsEmpty else ConditionFailed
    {
      hide Sound, Released;
      ghost var s := Value();
      ValidValue();
      PopSound(s, q, condition);
      result, e := PopNode(q, condition);
      if e.Some? {
        popped := popped[q := popped[q] + [e.value]];
      }
      assert Value() == Pop(s, q, condition);
    }

    /** SyncQueue_PopFront on the queue with index q. */
    method PopFront(q: nat) returns (result: QueueResult, e: Option<Event>)
      requires Valid() && q < |queues|
      modifies this`popped, monitor, queues, nodes
      ensures Valid() && Value() == Pop(old(Value()), q, Always())
      ensures e == Poppable(old(Value()), q, Always())
      ensures result == if e.Some? then QueueOk else QueueIsEmpty
    {
      result, e := PopFrontIf(q, Always());
    }

    /** Queue_Deinit on the queue with index q. */
    method Deinit(q: nat)
      requires Valid() && q < |queues|
      modifies this`popped, monitor, queues, nodes
      ensures Valid() && Value() == PipelineSpec.Deinit(old(Value()), q)
    {
      ghost var s := Value();
      hide Sound, ReleasedAll;
      ValidValue();
      DeinitSound(s, q);
      queues[q].Deinit(monitor);
      OthersKeep(q);
      popped := popped[q := popped[q] + s.queues[q]];
      assert Value() == PipelineSpec.Deinit(s, q);
    }

    /** SyncQueue_GetSize on the queue with index q. */
    method GetSize(q: nat) returns (size: u32)
      requires Valid() && q < |queues|
      ensures size == |Value().queues[q]|
    {
      size := queues[q].numberOfElements;
    }

    /** One operation of another thread. */
    method RunOne(op: Op)
      requires Valid() && op.queue < |queues| && (op.PushOp? ==> FitsUnder(op.event, op.limit, cap))
      modifies this`pushed, this`popped, this`nodes, monitor, queues, nodes
      ensures Valid() && fresh(nodes - old(nodes))
      ensures Value() == Step(old(Value()), op)
    {
      hide Sound, Push, Pop, PipelineSpec.Deinit, AgentQueues.Value;
      match op {
        case PushOp(q, e, limit, mallocOk) => var _, _ := PushBack(q, e, limit, mallocOk);
        case PopOp(q, condition) => var _, _ := PopFrontIf(q, condition);
        case DeinitOp(q) => Deinit(q);
      }
    }

    /** Other threads perform a batch of queue operations. */
    method RunOthers(batch: seq<Op>)
      requires Valid() && Runnable(|queues|, batch, cap)
      modifies this`pushed, this`popped, this`nodes, monitor, queues, nodes
      ensures Valid() && fresh(nodes - old(nodes))
      ensures Value() == Run(old(Value()), batch)
    {
      hide Step, AgentQueues.Value;
      ghost var s := Value();
      for k := 0 to |batch|
        invariant Valid() && fresh(nodes - old(nodes))
        invariant Run(Value(), batch[k..]) == Run(s, batch)
      {
        assert batch[k..][1..] == batch[k + 1..];
        RunOne(batch[k]);
      }
    }
  }
}

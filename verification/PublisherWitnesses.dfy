/** Concrete ticks of a publisher: literal times, sizes and limits, and what comes of them. */
module PublisherWitnesses {
  import opened Common
  import opened MemoryMonitor
  import opened EventQueue
  import opened PipelineSpec
  import opened Pipeline
  import opened MessageSerializer
  import opened PublisherSpec
  import opened EventPublisher

  /** Three queues, and one event waiting in one of them. */
  ghost predicate OneWaiting(s: State, q: nat, e: Event)
    requires q < 3
  {
    s.queues == [[], [], []][q := [e]] && s.budget.consumption == e.dataSize + 40
  }

  lemma PushedOne(q: nat, e: Event)
    requires q < 3 && e.dataSize <= 1000
    ensures OneWaiting(Push(Initial(3), q, e, Some(DEFAULT_MAX_LOCAL_CACHE_SIZE), true), q, e)
  {
    var s := Push(Initial(3), q, e, Some(DEFAULT_MAX_LOCAL_CACHE_SIZE), true);
    assert Initial(3).queues == [[], [], []];
    assert [] + [e] == [e];
    assert s.queues == [[], [], []][q := [e]];
  }

  lemma Quiet(n: nat, own: set<nat>, producers: nat -> seq<Op>, cap: u32)
    requires forall t :: producers(t) == []
    ensures NoProducers(producers) && Bounded(n, own, producers, cap)
  {
  }

  /** A publisher over such queues, at time zero, with nobody else at work and a library that appends everything. */
  method StartWithOneWaiting(q: nat, e: Event) returns (task: EventPublisherTask)
    requires q < 3 && e.dataSize <= 1000
    ensures fresh(task) && fresh(task.p) && fresh(task.p.monitor) && fresh(task.p.nodes)
    ensures forall i | 0 <= i < |task.p.queues| :: fresh(task.p.queues[i])
    ensures task.Valid() && OneWaiting(task.p.Value(), q, e) && task.p.cap == DEFAULT_MAX_LOCAL_CACHE_SIZE
    ensures task.operationalEventsQueue == 0 && task.highPriorityEventQueue == 1 && task.lowPriorityEventQueue == 2
    ensures NoProducers(task.producers) && forall t :: task.appended(t)
    ensures task.highPriorityQueueLastExecution == 0 && task.lowPriorityQueueLastExecution == 0
  {
    hide Push, Initial, Sound, AgentQueues.Valid, AgentQueues.Value, Bounded, OneWaiting, EventPublisherTask.Valid;
    PushedOne(q, e);
    var p := new AgentQueues([true, true, true], DEFAULT_MAX_LOCAL_CACHE_SIZE);
    var _, _ := p.PushBack(q, e, Some(DEFAULT_MAX_LOCAL_CACHE_SIZE), true);
    var producers := (t: nat) => [];
    Quiet(3, {0, 1, 2}, producers, p.cap);
    task := new EventPublisherTask(p, 0, 1, 2, 0, producers, (t: nat) => true);
  }

  /** Twin getter, JSON library and hub all succeed, for every message. */
  function AllWell(maxMessageSize: u32): nat -> SendOutcome {
    k => SendOutcome(Some(maxMessageSize), JsonOutcome(true, true, true, true), true)
  }

  /**
   * Memory pressure does not always send: an event waits in the low priority queue, messages may have 100 bytes,
   * the high priority queue is empty. The tick attempts a high priority message and sends nothing. `m` is the moment
   * before the tick.
   */
  method PressureSendsNothing()
    returns (task: EventPublisherTask, consumption: u32, maxMessageSize: u32, ghost m: Moment,
             ghost attempts: seq<Attempt>)
    ensures fresh(task) && task.Valid() && task.Now() == AfterAll(m, attempts)
    ensures Chained(task.Outside(), m, attempts)
    ensures |attempts| == 1 && attempts[0].queues == [0, 1, 2] && attempts[0].outcome == AllWell(maxMessageSize)(0)
    ensures OneWaiting(m.state, 2, Event(0, 1000, true))
    ensures m.state.budget.consumption == consumption == 1040 && maxMessageSize == 100
    ensures attempts[0].before == m.state && attempts[0].taken == [] && attempts[0].sent.None? && attempts[0].success
  {
    hide Attempted, EventPublisherTask.Valid, EventPublisherTask.Matches, AgentQueues.Valid, TimeDiff;
    maxMessageSize := 100;
    task := StartWithOneWaiting(2, Event(0, 1000, true));
    consumption := task.p.monitor.CurrentConsumption();
    m := task.Now();
    attempts := task.Execute(0, Some(1), Some(1), Some(maxMessageSize), AllWell(maxMessageSize));
    assert attempts[..0] == [];
    assert attempts[0].before == m.state;
    EmptyMainSendsNothing(task.Outside(), attempts[0]);
  }

  /** With an event of 60 bytes in the high priority queue, of which each quiet attempt could send a prefix. */
  lemma SmallEventSent(w: World, a: Attempt)
    requires Attempted(w, a) && NoProducers(w.producers) && (forall t :: w.appended(t)) && w.own == {0, 1, 2}
    requires a.queues == [0, 1, 2] && a.outcome == AllWell(200)(1) && OneWaiting(a.before, 1, Event(0, 60, true))
    ensures a.sent == Some([Event(0, 60, true)])
  {
    hide Attempted;
    assert a.before.queues[a.queues[1]] == [Event(0, 60, true)];
    assert a.before.queues[a.queues[1]][0].isJsonObject;
    assert a.outcome.maxMessageSize == Some(200) && a.outcome.json.header && a.outcome.sent;
    SentIff(w, a);
    assert a.sent.Some?;
    SentPrefixes(w, a);
    assert a.taken[0].packed == [] && a.taken[2].packed == [] by {
      assert a.taken[0].packed <= a.before.queues[a.queues[0]] == [];
      assert a.taken[2].packed <= a.before.queues[a.queues[2]] == [];
    }
    assert a.taken[1].packed <= [Event(0, 60, true)] && a.taken[1].packed != [];
    assert a.taken[1].packed == [Event(0, 60, true)];
    assert [] + a.taken[1].packed + [] == a.taken[1].packed;
  }

  /**
   * High priority messages every seven minutes: nothing is attempted when exactly seven minutes have passed, and after
   * ten minutes the event goes out. After five hours and a second the low priority message is due as well.
   */
  method TenMinutes()
    returns (task: EventPublisherTask, ghost early: seq<Attempt>, ghost due: seq<Attempt>, ghost late: seq<Attempt>)
    ensures early == [] && |due| == 1 && due[0].queues == [0, 1, 2] && due[0].sent == Some([Event(0, 60, true)])
    ensures |late| == 2 && late[0].queues == [0, 1, 2] && late[1].queues == [0, 2, 1]
    ensures task.highPriorityQueueLastExecution == task.lowPriorityQueueLastExecution == 18001
  {
    hide Attempted, EventPublisherTask.Valid, EventPublisherTask.Matches, AgentQueues.Valid, TimeDiff, OneWaiting;
    task := StartWithOneWaiting(1, Event(0, 60, true));
    ghost var m := task.Now();
    NotTooMuch(m.state);
    early := task.Execute(420, Some(420000), Some(18000000), Some(200), AllWell(200));
    assert task.Now() == m;
    due := task.Execute(600, Some(420000), Some(18000000), Some(200), AllWell(200));
    assert due[..0] == [];
    assert due[0].before == m.state;
    SmallEventSent(task.Outside(), due[0]);
    late := task.Execute(18001, Some(420000), Some(18000000), Some(200), AllWell(200));
  }

  lemma NotTooMuch(s: State)
    requires OneWaiting(s, 1, Event(0, 60, true))
    ensures s.budget.consumption == 100
  {
  }
}

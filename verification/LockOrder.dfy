/**
 * The agent's threads as sequences of lock operations, interleaved in every possible way.
 * Every queue operation, log call, twin getter and telemetry snapshot takes its locks in rising rank,
 * so no interleaving deadlocks; this rests on the diagnostic queue never logging its own failures.
 */
module LockOrder {
  import opened Common

  datatype QueueId = DiagnosticQueue | EventQueue(index: nat)

  datatype LockId = QueueLock(queue: QueueId) | MonitorLock | TwinLock | CounterLock(queue: QueueId)

  function Rank(l: LockId): nat {
    match l
    case QueueLock(EventQueue(_)) => 0
    case QueueLock(DiagnosticQueue) => 1
    case MonitorLock => 2
    case TwinLock => 3
    case CounterLock(_) => 4
  }

  datatype Action = Acquire(lock: LockId) | Release(lock: LockId)

  // ----- the lock operations of the agent's functions -----

  /** How a push goes, and what the logger does when it fails: nothing, or a push to the diagnostic queue. */
  datatype PushCase =
    | Stored
    | MemoryExceeded(log: Logging)
    | MonitorFailed(log: Logging)
    | AllocationFailed

  datatype Logging = Silent | Diagnosed(push: PushCase)

  function Guarded(l: LockId, body: seq<Action>): seq<Action> {
    [Acquire(l)] + body + [Release(l)]
  }

  function TwinGetter(): seq<Action> {
    Guarded(TwinLock, [])
  }

  function MonitorConsume(): seq<Action> {
    Guarded(MonitorLock, TwinGetter())
  }

  function MonitorAccess(): seq<Action> {
    Guarded(MonitorLock, [])
  }

  function CounterAccess(q: QueueId): seq<Action> {
    Guarded(CounterLock(q), [])
  }

  function PushTrace(q: QueueId, outcome: PushCase, sendLogs: QueueId -> bool): seq<Action>
    decreases outcome, 1
  {
    Guarded(QueueLock(q), MonitorConsume() + FailureTrace(q, outcome, sendLogs) + CounterAccess(q))
  }

  function FailureTrace(q: QueueId, outcome: PushCase, sendLogs: QueueId -> bool): seq<Action>
    decreases outcome, 0
  {
    match outcome
    case Stored => []
    case AllocationFailed => MonitorAccess()
    case MonitorFailed(log) => if sendLogs(q) then LogTrace(log, sendLogs) else []
    case MemoryExceeded(log) => (if sendLogs(q) then LogTrace(log, sendLogs) else []) + CounterAccess(q)
  }

  function LogTrace(log: Logging, sendLogs: QueueId -> bool): seq<Action>
    decreases log, 2
  {
    match log
    case Silent => []
    case Diagnosed(push) => PushTrace(DiagnosticQueue, push, sendLogs)
  }

  datatype Operation =
    | Push(queue: QueueId, outcome: PushCase)
    | Pop(queue: QueueId, removed: bool)
    | GetSize(queue: QueueId)
    | Log(log: Logging)
    | ReadTwin
    | ReadConsumption
    | Snapshot(queue: QueueId)

  function Trace(op: Operation, sendLogs: QueueId -> bool): seq<Action> {
    match op
    case Push(q, outcome) => PushTrace(q, outcome, sendLogs)
    case Pop(q, removed) => Guarded(QueueLock(q), if removed then MonitorAccess() else [])
    case GetSize(q) => Guarded(QueueLock(q), [])
    case Log(log) => LogTrace(log, sendLogs)
    case ReadTwin => TwinGetter()
    case ReadConsumption => MonitorAccess()
    case Snapshot(q) => CounterAccess(q)
  }

  // ----- lock discipline -----

  predicate Below(held: set<LockId>, l: LockId) {
    forall h | h in held :: Rank(h) < Rank(l)
  }

  /** The locks held after a trace that takes locks in strictly rising rank; None if it ever does not. */
  function HeldAfter(trace: seq<Action>, held: set<LockId>): Option<set<LockId>> {
    if trace == [] then Some(held)
    else
      match trace[0]
      case Acquire(l) => if Below(held, l) then HeldAfter(trace[1..], held + {l}) else None
      case Release(l) => if l in held then HeldAfter(trace[1..], held - {l}) else None
  }

  /** The trace respects the order and gives back exactly what it took. */
  predicate Neutral(trace: seq<Action>, held: set<LockId>) {
    HeldAfter(trace, held) == Some(held)
  }

  lemma {:induction false} HeldAfterConcat(a: seq<Action>, b: seq<Action>, held: set<LockId>)
    requires HeldAfter(a, held).Some?
    ensures HeldAfter(a + b, held) == HeldAfter(b, HeldAfter(a, held).value)
    decreases |a|
  {
    if a == [] {
      assert a + b == b;
    } else {
      assert (a + b)[1..] == a[1..] + b;
      HeldAfterConcat(a[1..], b, if a[0].Acquire? then held + {a[0].lock} else held - {a[0].lock});
    }
  }

  lemma GuardedNeutral(l: LockId, body: seq<Action>, held: set<LockId>)
    requires Below(held, l) && Neutral(body, held + {l})
    ensures Neutral(Guarded(l, body), held)
  {
    HeldAfterConcat(body, [Release(l)], held + {l});
    assert l !in held;
    assert held + {l} - {l} == held;
    assert Guarded(l, body)[1..] == body + [Release(l)];
    assert HeldAfter([Release(l)], held + {l}) == HeldAfter([Release(l)][1..], held);
  }

  lemma {:induction false} PushNeutral(q: QueueId, outcome: PushCase, sendLogs: QueueId -> bool, held: set<LockId>)
    requires Below(held, QueueLock(q)) && !sendLogs(DiagnosticQueue)
    ensures Neutral(PushTrace(q, outcome, sendLogs), held)
    decreases outcome
  {
    var inside := held + {QueueLock(q)};
    GuardedNeutral(TwinLock, [], inside + {MonitorLock});
    GuardedNeutral(MonitorLock, TwinGetter(), inside);
    GuardedNeutral(MonitorLock, [], inside);
    GuardedNeutral(CounterLock(q), [], inside);
    if outcome.MemoryExceeded? || outcome.MonitorFailed? {
      if sendLogs(q) && outcome.log.Diagnosed? {
        PushNeutral(DiagnosticQueue, outcome.log.push, sendLogs, inside);
      }
    }
    var log := if (outcome.MemoryExceeded? || outcome.MonitorFailed?) && sendLogs(q)
               then LogTrace(outcome.log, sendLogs) else [];
    assert Neutral(log, inside);
    HeldAfterConcat(log, CounterAccess(q), inside);
    var failure := FailureTrace(q, outcome, sendLogs);
    assert Neutral(failure, inside);
    HeldAfterConcat(MonitorConsume(), failure, inside);
    HeldAfterConcat(MonitorConsume() + failure, CounterAccess(q), inside);
    GuardedNeutral(QueueLock(q), MonitorConsume() + failure + CounterAccess(q), held);
  }

  lemma TraceNeutral(op: Operation, sendLogs: QueueId -> bool)
    requires !sendLogs(DiagnosticQueue)
    ensures Neutral(Trace(op, sendLogs), {})
  {
    match op {
      case Push(q, outcome) => PushNeutral(q, outcome, sendLogs, {});
      case Pop(q, removed) =>
        assert {} + {QueueLock(q)} == {QueueLock(q)};
        GuardedNeutral(MonitorLock, [], {QueueLock(q)});
        GuardedNeutral(QueueLock(q), if removed then MonitorAccess() else [], {});
      case GetSize(q) => GuardedNeutral(QueueLock(q), [], {});
      case Log(log) =>
        if log.Diagnosed? {
          PushNeutral(DiagnosticQueue, log.push, sendLogs, {});
        }
      case ReadTwin => GuardedNeutral(TwinLock, [], {});
      case ReadConsumption => GuardedNeutral(MonitorLock, [], {});
      case Snapshot(q) => GuardedNeutral(CounterLock(q), [], {});
    }
  }

  // ----- what lies inside a queue's lock -----

  /** A push in full, but for what a log call adds. */
  lemma PushInFull(q: QueueId, sendLogs: QueueId -> bool)
    ensures var l, c := QueueLock(q), CounterLock(q);
            var consume := [Acquire(MonitorLock), Acquire(TwinLock), Release(TwinLock), Release(MonitorLock)];
            var count := [Acquire(c), Release(c)];
            && Trace(Push(q, Stored), sendLogs) == [Acquire(l)] + consume + count + [Release(l)]
            && Trace(Push(q, MonitorFailed(Silent)), sendLogs) == [Acquire(l)] + consume + count + [Release(l)]
            && Trace(Push(q, MemoryExceeded(Silent)), sendLogs) == [Acquire(l)] + consume + count + count + [Release(l)]
  {
    ConsumeInFull(q);
  }

  lemma FailedAllocationInFull(q: QueueId, sendLogs: QueueId -> bool)
    ensures Trace(Push(q, AllocationFailed), sendLogs)
            == [Acquire(QueueLock(q))]
               + [Acquire(MonitorLock), Acquire(TwinLock), Release(TwinLock), Release(MonitorLock)]
               + [Acquire(MonitorLock), Release(MonitorLock)]
               + [Acquire(CounterLock(q)), Release(CounterLock(q))] + [Release(QueueLock(q))]
  {
    ConsumeInFull(q);
  }

  /** Everything else in full. */
  lemma OthersInFull(q: QueueId, sendLogs: QueueId -> bool)
    ensures Trace(Pop(q, true), sendLogs)
            == [Acquire(QueueLock(q)), Acquire(MonitorLock), Release(MonitorLock), Release(QueueLock(q))]
    ensures Trace(Pop(q, false), sendLogs) == [Acquire(QueueLock(q)), Release(QueueLock(q))]
    ensures Trace(GetSize(q), sendLogs) == [Acquire(QueueLock(q)), Release(QueueLock(q))]
    ensures Trace(ReadTwin, sendLogs) == [Acquire(TwinLock), Release(TwinLock)]
    ensures Trace(ReadConsumption, sendLogs) == [Acquire(MonitorLock), Release(MonitorLock)]
    ensures Trace(Snapshot(q), sendLogs) == [Acquire(CounterLock(q)), Release(CounterLock(q))]
  {
  }

  lemma ConsumeInFull(q: QueueId)
    ensures MonitorConsume() == [Acquire(MonitorLock), Acquire(TwinLock), Release(TwinLock), Release(MonitorLock)]
    ensures MonitorAccess() == [Acquire(MonitorLock), Release(MonitorLock)]
    ensures CounterAccess(q) == [Acquire(CounterLock(q)), Release(CounterLock(q))]
  {
    assert TwinGetter() == [Acquire(TwinLock), Release(TwinLock)];
  }

  /** A trace that neither takes nor gives back lock l. */
  ghost predicate Avoids(trace: seq<Action>, l: LockId) {
    forall k | 0 <= k < |trace| :: trace[k].lock != l
  }

  /** The first action takes the queue's lock, the last one gives it back, and it is held all the time between. */
  ghost predicate Enclosed(trace: seq<Action>, l: LockId) {
    && |trace| >= 2 && trace[0] == Acquire(l) && trace[|trace| - 1] == Release(l)
    && Avoids(trace[1..|trace| - 1], l)
  }

  lemma GuardedEnclosed(l: LockId, body: seq<Action>)
    requires Avoids(body, l)
    ensures Enclosed(Guarded(l, body), l)
  {
    assert Guarded(l, body)[1..|body| + 1] == body;
  }

  lemma AvoidsConcat(a: seq<Action>, b: seq<Action>, l: LockId)
    ensures Avoids(a + b, l) <==> Avoids(a, l) && Avoids(b, l)
  {
    assert forall k | 0 <= k < |b| :: (a + b)[|a| + k] == b[k];
    assert forall k | 0 <= k < |a| :: (a + b)[k] == a[k];
  }

  /** Consuming, giving back, counting and logging: none of it touches the lock of the queue that is pushed to. */
  lemma PushBodyAvoids(q: QueueId, outcome: PushCase, sendLogs: QueueId -> bool, l: LockId)
    requires !sendLogs(DiagnosticQueue)
    requires l.QueueLock? && (l == QueueLock(q) || (q == DiagnosticQueue && l != QueueLock(DiagnosticQueue)))
    ensures Avoids(MonitorConsume() + FailureTrace(q, outcome, sendLogs) + CounterAccess(q), l)
    decreases outcome
  {
    var failure := FailureTrace(q, outcome, sendLogs);
    ConsumeInFull(q);
    if (outcome.MemoryExceeded? || outcome.MonitorFailed?) && sendLogs(q) && outcome.log.Diagnosed? {
      LogAvoids(outcome.log, sendLogs, l);
    }
    AvoidsConcat(if outcome.MemoryExceeded? && sendLogs(q) then LogTrace(outcome.log, sendLogs) else [],
                 CounterAccess(q), l);
    AvoidsConcat(MonitorConsume(), failure, l);
    AvoidsConcat(MonitorConsume() + failure, CounterAccess(q), l);
  }

  lemma LogAvoids(log: Logging, sendLogs: QueueId -> bool, l: LockId)
    requires !sendLogs(DiagnosticQueue) && l.QueueLock? && l != QueueLock(DiagnosticQueue)
    ensures Avoids(LogTrace(log, sendLogs), l)
    decreases log
  {
    if log.Diagnosed? {
      var d := QueueLock(DiagnosticQueue);
      PushBodyAvoids(DiagnosticQueue, log.push, sendLogs, l);
      var body := MonitorConsume() + FailureTrace(DiagnosticQueue, log.push, sendLogs) + CounterAccess(DiagnosticQueue);
      AvoidsConcat([Acquire(d)], body, l);
      AvoidsConcat([Acquire(d)] + body, [Release(d)], l);
    }
  }

  /** Every access of a queue operation to the monitor, the counters and the logger lies inside the queue's lock. */
  lemma QueueOperationsEnclosed(op: Operation, sendLogs: QueueId -> bool)
    requires !sendLogs(DiagnosticQueue) && (op.Push? || op.Pop? || op.GetSize?)
    ensures Enclosed(Trace(op, sendLogs), QueueLock(op.queue))
  {
    var l := QueueLock(op.queue);
    match op {
      case Push(q, outcome) =>
        PushBodyAvoids(q, outcome, sendLogs, l);
        GuardedEnclosed(l, MonitorConsume() + FailureTrace(q, outcome, sendLogs) + CounterAccess(q));
      case Pop(q, removed) => GuardedEnclosed(l, if removed then MonitorAccess() else []);
      case GetSize(q) => GuardedEnclosed(l, []);
    }
  }

  // ----- threads -----

  datatype Thread = Thread(held: set<LockId>, rest: seq<Action>)

  predicate Free(threads: seq<Thread>, l: LockId) {
    forall i | 0 <= i < |threads| :: l !in threads[i].held
  }

  predicate CanStep(threads: seq<Thread>, i: nat) {
    && i < |threads| && threads[i].rest != []
    && (threads[i].rest[0].Acquire? ==> Free(threads, threads[i].rest[0].lock))
  }

  function Step(threads: seq<Thread>, i: nat): seq<Thread>
    requires CanStep(threads, i)
  {
    var t := threads[i];
    var held := if t.rest[0].Acquire? then t.held + {t.rest[0].lock} else t.held - {t.rest[0].lock};
    threads[i := Thread(held, t.rest[1..])]
  }

  predicate Scheduled(threads: seq<Thread>, schedule: seq<nat>)
    decreases |schedule|
  {
    schedule != [] ==> CanStep(threads, schedule[0]) && Scheduled(Step(threads, schedule[0]), schedule[1..])
  }

  function Execute(threads: seq<Thread>, schedule: seq<nat>): seq<Thread>
    requires Scheduled(threads, schedule)
    decreases |schedule|
  {
    if schedule == [] then threads else Execute(Step(threads, schedule[0]), schedule[1..])
  }

  function Program(ops: seq<Operation>, sendLogs: QueueId -> bool): seq<Action> {
    if ops == [] then [] else Trace(ops[0], sendLogs) + Program(ops[1..], sendLogs)
  }

  function Start(programs: seq<seq<Operation>>, sendLogs: QueueId -> bool): seq<Thread> {
    seq(|programs|, i requires 0 <= i < |programs| => Thread({}, Program(programs[i], sendLogs)))
  }

  /** Mutual exclusion, and every thread will have returned all its locks when it is done. */
  ghost predicate Orderly(threads: seq<Thread>) {
    && (forall i | 0 <= i < |threads| :: HeldAfter(threads[i].rest, threads[i].held) == Some({}))
    && (forall i, j | 0 <= i < j < |threads| :: threads[i].held !! threads[j].held)
  }

  lemma {:induction false} ProgramNeutral(ops: seq<Operation>, sendLogs: QueueId -> bool)
    requires !sendLogs(DiagnosticQueue)
    ensures Neutral(Program(ops, sendLogs), {})
  {
    if ops != [] {
      TraceNeutral(ops[0], sendLogs);
      ProgramNeutral(ops[1..], sendLogs);
      HeldAfterConcat(Trace(ops[0], sendLogs), Program(ops[1..], sendLogs), {});
    }
  }

  lemma StepOrderly(threads: seq<Thread>, i: nat)
    requires Orderly(threads) && CanStep(threads, i)
    ensures Orderly(Step(threads, i))
  {
  }

  lemma {:induction false} ExecuteOrderly(threads: seq<Thread>, schedule: seq<nat>)
    requires Orderly(threads) && Scheduled(threads, schedule)
    ensures Orderly(Execute(threads, schedule))
    decreases |schedule|
  {
    if schedule != [] {
      StepOrderly(threads, schedule[0]);
      ExecuteOrderly(Step(threads, schedule[0]), schedule[1..]);
    }
  }

  /** Follow the chain of waiters: each next lock has a higher rank, so the chain ends at a thread that can step. */
  lemma {:induction false} FindRunnable(threads: seq<Thread>, i: nat) returns (k: nat)
    requires Orderly(threads) && i < |threads| && threads[i].rest != []
    ensures CanStep(threads, k)
    decreases 4 - Rank(threads[i].rest[0].lock)
  {
    if CanStep(threads, i) {
      return i;
    }
    var l := threads[i].rest[0].lock;
    var j :| 0 <= j < |threads| && l in threads[j].held;
    if CanStep(threads, j) {
      return j;
    }
    k := FindRunnable(threads, j);
  }

  /**
   * Whatever the threads do and however they interleave: as long as one thread is not done some thread can step,
   * no lock is ever held twice, and when nothing can step every thread is done and every lock is free.
   */
  lemma DeadlockFree(programs: seq<seq<Operation>>, sendLogs: QueueId -> bool, schedule: seq<nat>)
    requires !sendLogs(DiagnosticQueue) && Scheduled(Start(programs, sendLogs), schedule)
    ensures var threads := Execute(Start(programs, sendLogs), schedule);
            && (forall i, j | 0 <= i < j < |threads| :: threads[i].held !! threads[j].held)
            && ((exists i | 0 <= i < |threads| :: threads[i].rest != []) ==> exists k :: CanStep(threads, k))
            && ((forall k :: !CanStep(threads, k)) ==>
                  forall i | 0 <= i < |threads| :: threads[i] == Thread({}, []))
  {
    forall i | 0 <= i < |programs| ensures Neutral(Program(programs[i], sendLogs), {}) {
      ProgramNeutral(programs[i], sendLogs);
    }
    ExecuteOrderly(Start(programs, sendLogs), schedule);
    var threads := Execute(Start(programs, sendLogs), schedule);
    forall i | 0 <= i < |threads| && threads[i].rest != [] ensures exists k :: CanStep(threads, k) {
      var k := FindRunnable(threads, i);
    }
  }

  function Remaining(threads: seq<Thread>): nat {
    if threads == [] then 0 else |threads[0].rest| + Remaining(threads[1..])
  }

  lemma {:induction false} RemainingUpdate(threads: seq<Thread>, i: nat, t: Thread)
    requires i < |threads|
    ensures Remaining(threads[i := t]) == Remaining(threads) - |threads[i].rest| + |t.rest|
  {
    if i == 0 {
      assert threads[i := t][1..] == threads[1..];
    } else {
      assert threads[i := t][1..] == threads[1..][i - 1 := t];
      RemainingUpdate(threads[1..], i - 1, t);
    }
  }

  /** No run is longer than the work there is, so every run that is continued as long as possible completes. */
  lemma {:induction false} RunsEnd(threads: seq<Thread>, schedule: seq<nat>)
    requires Scheduled(threads, schedule)
    ensures |schedule| + Remaining(Execute(threads, schedule)) == Remaining(threads)
    decreases |schedule|
  {
    if schedule != [] {
      var i := schedule[0];
      RemainingUpdate(threads, i, Step(threads, i)[i]);
      RunsEnd(Step(threads, i), schedule[1..]);
    }
  }

  /** A thread that pushes to a full diagnostic queue while that queue reports its own failures. */
  function SelfLogging(): seq<seq<Operation>> {
    [[Push(DiagnosticQueue, MemoryExceeded(Diagnosed(Stored)))]]
  }

  /** If the diagnostic queue logged its failures, a single thread would wait for a lock it holds itself. */
  lemma SelfLoggingDeadlocks(sendLogs: QueueId -> bool)
    requires sendLogs(DiagnosticQueue)
    ensures var threads := Start(SelfLogging(), sendLogs);
            var schedule := [0, 0, 0, 0, 0];
            && Scheduled(threads, schedule)
            && Execute(threads, schedule)[0].rest != []
            && forall k :: !CanStep(Execute(threads, schedule), k)
  {
    var q := QueueLock(DiagnosticQueue);
    var program := Program(SelfLogging()[0], sendLogs);
    SelfLoggingProgram(sendLogs);
    assert Start(SelfLogging(), sendLogs) == [Thread({}, program)];
    hide Scheduled, Execute, Step, Program, CanStep;
    EnterMonitor(program);
    LeaveMonitor(program[3..]);
    assert program[3..][2..] == program[5..];
    Stuck(q, program[5..]);
  }

  /** The push takes its queue, the monitor and the twin. */
  lemma EnterMonitor(program: seq<Action>)
    requires [Acquire(QueueLock(DiagnosticQueue)), Acquire(MonitorLock), Acquire(TwinLock)] <= program
    ensures var threads := [Thread({}, program)];
            var held := {QueueLock(DiagnosticQueue), MonitorLock, TwinLock};
            Scheduled([Thread(held, program[3..])], [0, 0]) ==>
              && Scheduled(threads, [0, 0, 0, 0, 0])
              && Execute(threads, [0, 0, 0, 0, 0]) == Execute([Thread(held, program[3..])], [0, 0])
  {
    hide Scheduled, Execute, Step, CanStep;
    var q := QueueLock(DiagnosticQueue);
    OneStep({}, program, [0, 0, 0, 0, 0]);
    assert {} + {q} == {q} && [0, 0, 0, 0, 0][1..] == [0, 0, 0, 0];
    OneStep({q}, program[1..], [0, 0, 0, 0]);
    assert {q} + {MonitorLock} == {q, MonitorLock} && [0, 0, 0, 0][1..] == [0, 0, 0];
    assert program[1..][1..] == program[2..];
    OneStep({q, MonitorLock}, program[2..], [0, 0, 0]);
    assert {q, MonitorLock} + {TwinLock} == {q, MonitorLock, TwinLock} && [0, 0, 0][1..] == [0, 0];
    assert program[2..][1..] == program[3..];
  }

  /** A single thread that waits for a lock of its own. */
  lemma Stuck(lock: LockId, rest: seq<Action>)
    requires rest != [] && rest[0] == Acquire(lock)
    ensures forall k :: !CanStep([Thread({lock}, rest)], k)
  {
  }

  /** The push leaves the twin and the monitor, and keeps its queue. */
  lemma LeaveMonitor(rest: seq<Action>)
    requires [Release(TwinLock), Release(MonitorLock)] <= rest
    ensures var q := QueueLock(DiagnosticQueue);
            var threads := [Thread({q, MonitorLock, TwinLock}, rest)];
            Scheduled(threads, [0, 0]) && Execute(threads, [0, 0]) == [Thread({q}, rest[2..])]
  {
    var q := QueueLock(DiagnosticQueue);
    OneStep({q, MonitorLock, TwinLock}, rest, [0, 0]);
    assert {q, MonitorLock, TwinLock} - {TwinLock} == {q, MonitorLock};
    OneStep({q, MonitorLock}, rest[1..], [0]);
    assert {q, MonitorLock} - {MonitorLock} == {q};
  }

  /** The push and, while it still holds the queue, the push of its own log message to the same queue. */
  lemma SelfLoggingProgram(sendLogs: QueueId -> bool)
    requires sendLogs(DiagnosticQueue)
    ensures var q := QueueLock(DiagnosticQueue);
            [Acquire(q), Acquire(MonitorLock), Acquire(TwinLock), Release(TwinLock), Release(MonitorLock), Acquire(q)]
            <= Program(SelfLogging()[0], sendLogs)
  {
    var ops := SelfLogging()[0];
    assert ops[1..] == [];
    assert Program(ops, sendLogs) == Trace(ops[0], sendLogs) + [];
    assert LogTrace(Diagnosed(Stored), sendLogs) == PushTrace(DiagnosticQueue, Stored, sendLogs);
    assert MonitorConsume() == [Acquire(MonitorLock), Acquire(TwinLock), Release(TwinLock), Release(MonitorLock)];
  }

  lemma OneStep(held: set<LockId>, rest: seq<Action>, schedule: seq<nat>)
    requires schedule != [] && schedule[0] == 0 && rest != [] && (rest[0].Acquire? ==> rest[0].lock !in held)
    ensures var held' := if rest[0].Acquire? then held + {rest[0].lock} else held - {rest[0].lock};
            && CanStep([Thread(held, rest)], 0)
            && Step([Thread(held, rest)], 0) == [Thread(held', rest[1..])]
            && (Scheduled([Thread(held, rest)], schedule) <==> Scheduled([Thread(held', rest[1..])], schedule[1..]))
            && (Scheduled([Thread(held, rest)], schedule) ==>
                  Execute([Thread(held, rest)], schedule) == Execute([Thread(held', rest[1..])], schedule[1..]))
  {
  }

  predicate Done(threads: seq<Thread>) {
    forall i | 0 <= i < |threads| :: threads[i].rest == []
  }

  ghost predicate Running(threads: seq<Thread>) {
    exists k :: CanStep(threads, k)
  }

  /** The design decision itself: the agent is deadlock free exactly when the diagnostic queue does not log. */
  lemma DeadlockFreeIff(sendLogs: QueueId -> bool)
    ensures !sendLogs(DiagnosticQueue) <==>
            forall programs, schedule | Scheduled(Start(programs, sendLogs), schedule) ::
              || Done(Execute(Start(programs, sendLogs), schedule))
              || Running(Execute(Start(programs, sendLogs), schedule))
  {
    if sendLogs(DiagnosticQueue) {
      SelfLoggingDeadlocks(sendLogs);
    } else {
      forall programs, schedule | Scheduled(Start(programs, sendLogs), schedule)
        ensures || Done(Execute(Start(programs, sendLogs), schedule))
                || Running(Execute(Start(programs, sendLogs), schedule))
      {
        DeadlockFree(programs, sendLogs, schedule);
      }
    }
  }
}

/**
 * The publisher as values: what one attempt to send a message does to the queues, when it sends something,
 * and the ledger of all turns that the attempts add up to.
 */
module PublisherSpec {
  import opened Common
  import opened EventQueue
  import opened PipelineSpec
  import opened MessageSerializer

  // ----- turns in the order they happened, events arrays cut from them -----

  lemma {:induction false} TakenConcat(o1: seq<nat>, t1: seq<Turn>, o2: seq<nat>, t2: seq<Turn>, i: nat)
    requires |o1| == |t1| && |o2| == |t2|
    ensures TakenFrom(o1 + o2, t1 + t2, i) == TakenFrom(o1, t1, i) + TakenFrom(o2, t2, i)
    ensures PackedBy(t1 + t2) == PackedBy(t1) + PackedBy(t2)
  {
    if t2 == [] {
      assert o1 + o2 == o1 && t1 + t2 == t1;
    } else {
      hide TakenFrom, PackedBy;
      var last := |t2| - 1;
      var o, t, q, turn := o2[..last], t2[..last], o2[last], t2[last];
      LastApart(o1, o2);
      LastApart(t1, t2);
      TakenConcat(o1, t1, o, t, i);
      TurnsGrow(o1 + o, t1 + t, q, turn, i);
      TurnsGrow(o, t, q, turn, i);
      Associative(TakenFrom(o1, t1, i), TakenFrom(o, t, i), if q == i then turn.Taken() else []);
      Associative(PackedBy(t1), PackedBy(t), turn.packed);
    }
  }

  lemma TurnsCompose(s: State, s': State, s'': State, own: set<nat>,
                     o1: seq<nat>, t1: seq<Turn>, o2: seq<nat>, t2: seq<Turn>)
    requires |o1| == |t1| && |o2| == |t2|
    requires ReachedByTurns(s, s', own, o1, t1) && ReachedByTurns(s', s'', own, o2, t2)
    ensures ReachedByTurns(s, s'', own, o1 + o2, t1 + t2)
  {
    forall i | i in own && i < |s.popped| ensures s''.popped[i] == s.popped[i] + TakenFrom(o1 + o2, t1 + t2, i) {
      TakenConcat(o1, t1, o2, t2, i);
    }
  }

  /** The events that failed to parse or append, one per turn at most. */
  function FailuresOf(turns: seq<Turn>): seq<Event> {
    if turns == [] then [] else FailuresOf(turns[..|turns| - 1]) + AsList(turns[|turns| - 1].failed)
  }

  function AllTaken(turns: seq<Turn>): seq<Event> {
    if turns == [] then [] else AllTaken(turns[..|turns| - 1]) + turns[|turns| - 1].Taken()
  }

  /** Counted with multiplicity, every popped event was packed or was a turn's failure, and not both. */
  lemma {:induction false} TakenOnce(turns: seq<Turn>)
    ensures multiset(AllTaken(turns)) == multiset(PackedBy(turns)) + multiset(FailuresOf(turns))
    ensures |FailuresOf(turns)| <= |turns|
  {
    if turns != [] {
      TakenOnce(turns[..|turns| - 1]);
    }
  }

  lemma {:induction false} MomentsWithin(turns: seq<Turn>, j: nat, from: nat, to: nat)
    requires Rising(MomentsOf(turns), from, to) && j < |turns|
    ensures Rising(turns[j].moments, from, to)
  {
    var last := |turns| - 1;
    var before, here := MomentsOf(turns[..last]), turns[last].moments;
    assert MomentsOf(turns) == before + here;
    if j < last {
      assert forall i | 0 <= i < |before| :: (before + here)[i] == before[i];
      MomentsWithin(turns[..last], j, from, to);
    } else {
      assert forall i | 0 <= i < |here| :: (before + here)[|before| + i] == here[i];
    }
  }

  /** A turn's failed event is no JSON object, or the library refused it by the answer given for it. */
  lemma FailureExplained(turns: seq<Turn>, j: nat, appended: nat -> bool, to: nat)
    requires AllAnswered(turns, appended, 0, to) && j < |turns| && turns[j].failed.Some?
    ensures var n := |turns[j].packed|;
            && |turns[j].moments| == n + 1 && turns[j].moments[n] < to
            && var e := turns[j].failed.value;
               !(e.isJsonObject && 1 <= e.dataSize && appended(turns[j].moments[n]))
  {
    MomentsWithin(turns, j, 0, to);
    assert Answered(turns[j], appended);
    assert turns[j].Taken()[|turns[j].packed|] == turns[j].failed.value;
    AnsweredExact(turns[j], appended, |turns[j].packed|);
  }

  /** And a packed event is a JSON object that the library appended, by the answer given for it. */
  lemma PackingExplained(turns: seq<Turn>, j: nat, i: nat, appended: nat -> bool, to: nat)
    requires AllAnswered(turns, appended, 0, to) && j < |turns| && i < |turns[j].packed|
    ensures |turns[j].moments| > i && turns[j].moments[i] < to && appended(turns[j].moments[i])
    ensures turns[j].packed[i].isJsonObject && 1 <= turns[j].packed[i].dataSize
  {
    MomentsWithin(turns, j, 0, to);
    assert Answered(turns[j], appended);
    AnsweredExact(turns[j], appended, i);
  }

  lemma {:induction false} FlattenUpdate(lists: seq<seq<Event>>, q: nat, more: seq<Event>)
    requires q < |lists|
    ensures multiset(Flatten(lists[q := lists[q] + more])) == multiset(Flatten(lists)) + multiset(more)
  {
    if q == 0 {
      assert lists[q := lists[q] + more][1..] == lists[1..];
    } else {
      assert lists[q := lists[q] + more][1..] == lists[1..][q - 1 := lists[1..][q - 1] + more];
      FlattenUpdate(lists[1..], q - 1, more);
    }
  }

  function Lanes(n: nat, order: seq<nat>, turns: seq<Turn>): (lanes: seq<seq<Event>>)
    requires |order| == |turns|
    ensures |lanes| == n
  {
    seq(n, i requires 0 <= i < n => TakenFrom(order, turns, i))
  }

  lemma LastLane(n: nat, order: seq<nat>, turns: seq<Turn>)
    requires 0 < |turns| == |order| && order[|turns| - 1] < n
    ensures var last := |turns| - 1;
            var before := Lanes(n, order[..last], turns[..last]);
            Lanes(n, order, turns) == before[order[last] := before[order[last]] + turns[last].Taken()]
  {
    var last := |turns| - 1;
    var before := Lanes(n, order[..last], turns[..last]);
    var after := before[order[last] := before[order[last]] + turns[last].Taken()];
    forall i | 0 <= i < n ensures Lanes(n, order, turns)[i] == after[i] {
      assert before[i] + [] == before[i];
    }
  }

  /** The per-queue histories hold exactly the events the turns took: none twice, none missing. */
  lemma {:induction false} LanesHoldAllTaken(n: nat, order: seq<nat>, turns: seq<Turn>)
    requires |order| == |turns| && forall j | 0 <= j < |order| :: order[j] < n
    ensures multiset(Flatten(Lanes(n, order, turns))) == multiset(AllTaken(turns))
    decreases |turns|
  {
    if turns == [] {
      EmptyLanes(n, Lanes(n, order, turns));
    } else {
      var last := |turns| - 1;
      LanesHoldAllTaken(n, order[..last], turns[..last]);
      LastLane(n, order, turns);
      FlattenUpdate(Lanes(n, order[..last], turns[..last]), order[last], turns[last].Taken());
    }
  }

  lemma {:induction false} EmptyLanes(n: nat, lanes: seq<seq<Event>>)
    requires |lanes| == n && forall i | 0 <= i < n :: lanes[i] == []
    ensures Flatten(lanes) == []
  {
    if n != 0 {
      EmptyLanes(n - 1, lanes[1..]);
    }
  }

  // ----- one attempt to send a message -----

  /** What the outside world answers while one message is built and sent. */
  datatype SendOutcome = SendOutcome(maxMessageSize: Option<u32>, json: JsonOutcome, sent: bool)

  /** How many of three queues have a turn: all, unless the message cannot even be begun. */
  function TurnsOf(outcome: SendOutcome): nat {
    if outcome.json.header && outcome.maxMessageSize.Some? && outcome.json.initialized then 3 else 0
  }

  /** What other threads do before each operation, what the JSON library answers, and the consumer's own queues. */
  datatype World = World(producers: nat -> seq<Op>, appended: nat -> bool, own: set<nat>)

  /**
   * One call of SendEvents: the queues in order, the main one in the middle; the state before the call, after the look
   * at the main queue's size, after each turn, and at the end; the operations used; the turns, each with what it did
   * to the queues; what came of it.
   */
  datatype Attempt = Attempt(
    queues: seq<nat>, outcome: SendOutcome, before: State, seen: State, stages: seq<State>, after: State,
    clock: nat, done: nat, taken: seq<Turn>, logs: seq<seq<Operation>>, success: bool, sent: Option<seq<Event>>)

  ghost predicate IsEmpty(s: State, q: nat) {
    q < |s.queues| && s.queues[q] == []
  }

  /** Maximality of one message: every queue not stopped by a failure is empty or its head still does not fit. */
  ghost predicate NothingMoreFits(s: State, order: seq<nat>, turns: seq<Turn>, max: Option<u32>) {
    turns != [] && max.Some? ==>
      && |turns| <= |order| && (forall j | 0 <= j < |order| :: order[j] < |s.queues|)
      && AllExhausted(s, order, turns, Sizes(PackedBy(turns)), max.value)
  }

  /** The look at the main queue, and the turns after it: none if it was empty, all three otherwise. */
  ghost predicate Turned(w: World, a: Attempt) {
    && |a.queues| == 3 && a.clock < a.done
    && Conserved(a.before) && Conserved(a.seen) && Conserved(a.after)
    && RanOthers(a.before, w.producers(a.clock), a.seen) && Reached(a.before, a.seen, w.own, a.queues[1], [])
    && |a.taken| == (if IsEmpty(a.seen, a.queues[1]) then 0 else TurnsOf(a.outcome))
    && ReachedByTurns(a.seen, a.after, w.own, a.queues[..|a.taken|], a.taken)
    && AllAnswered(a.taken, w.appended, a.clock, a.done)
    && MessageLog(a.seen, a.after, w.producers, a.clock + 1, a.done, a.queues, a.taken, a.logs, a.stages,
                  a.outcome.maxMessageSize.GetOr(0))
    && LeftExhausted(a.seen, a.stages, w.own, a.queues, a.taken, a.outcome.maxMessageSize.GetOr(0))
    && a.after == (if a.stages == [] then a.seen else a.stages[|a.stages| - 1])
    && (PackedBy(a.taken) != [] ==> Sizes(PackedBy(a.taken)) < a.outcome.maxMessageSize.GetOr(0))
  }

  /** What is handed to the hub, and what is returned. */
  ghost predicate Delivered(a: Attempt) {
    && |a.queues| == 3
    && (a.sent.Some? <==>
          && PackedBy(a.taken) != [] && a.outcome.sent
          && a.outcome.json.header && a.outcome.json.written && a.outcome.json.serialized)
    && (a.sent.Some? ==> a.sent.value == PackedBy(a.taken))
    && (a.success <==> a.sent.Some? || IsEmpty(a.seen, a.queues[1]))
  }

  /** Without other threads at work, the message is as full as the queues allow. */
  ghost predicate FullWhenQuiet(w: World, a: Attempt) {
    NoProducers(w.producers) ==>
      && a.seen == a.before && a.after.pushed == a.before.pushed
      && NothingMoreFits(a.after, a.queues, a.taken, a.outcome.maxMessageSize)
  }

  ghost predicate Attempted(w: World, a: Attempt) {
    Turned(w, a) && Delivered(a) && FullWhenQuiet(w, a)
  }

  // ----- when something is sent -----

  /** The queue starts with a JSON object that fits into an empty message. */
  ghost predicate HeadFits(s: State, q: nat, max: u32) {
    q < |s.queues| && s.queues[q] != [] && s.queues[q][0].isJsonObject && 1 <= s.queues[q][0].dataSize < max
  }

  ghost predicate Distinct(order: seq<nat>) {
    forall i, j | 0 <= i < j < |order| :: order[i] != order[j]
  }

  /** A queue that has one turn gives exactly what that turn took. */
  lemma {:induction false} TakenOfDistinct(order: seq<nat>, turns: seq<Turn>, j: nat)
    requires |order| == |turns| && Distinct(order) && j < |order|
    ensures TakenFrom(order, turns, order[j]) == turns[j].Taken()
    decreases |turns|
  {
    hide TakenFrom, PackedBy;
    var last := |turns| - 1;
    assert order == order[..last] + [order[last]] && turns == turns[..last] + [turns[last]];
    TurnsGrow(order[..last], turns[..last], order[last], turns[last], order[j]);
    if j < last {
      TakenOfDistinct(order[..last], turns[..last], j);
    } else {
      TakenOfOthers(order[..last], turns[..last], order[last]);
    }
  }

  lemma {:induction false} TakenOfOthers(order: seq<nat>, turns: seq<Turn>, q: nat)
    requires |order| == |turns| && q !in order
    ensures TakenFrom(order, turns, q) == []
  {
    if turns != [] {
      TakenOfOthers(order[..|turns| - 1], turns[..|turns| - 1], q);
    }
  }

  lemma {:induction false} PackedOfTurn(turns: seq<Turn>, j: nat, i: nat)
    requires j < |turns| && i < |turns[j].packed|
    ensures PackedBy(turns) != [] && turns[j].packed[i].dataSize <= Sizes(PackedBy(turns))
  {
    var last := |turns| - 1;
    SizesAppend(PackedBy(turns[..last]), turns[last].packed);
    if j < last {
      PackedOfTurn(turns[..last], j, i);
    } else {
      SizeOfOneOf(turns[last].packed, i);
    }
  }

  lemma {:induction false} SizeOfOneOf(events: seq<Event>, i: nat)
    requires i < |events|
    ensures events[i].dataSize <= Sizes(events)
  {
    if i > 0 {
      SizeOfOneOf(events[1..], i - 1);
    }
  }

  lemma {:induction false} SomeTurnPacked(turns: seq<Turn>) returns (j: nat)
    requires PackedBy(turns) != []
    ensures j < |turns| && turns[j].packed != []
  {
    var last := |turns| - 1;
    if turns[last].packed != [] {
      return last;
    }
    assert PackedBy(turns) == PackedBy(turns[..last]) + [];
    j := SomeTurnPacked(turns[..last]);
  }

  /** What queue `order[j]` held is what its one turn took, then what it still holds. */
  lemma QueueOfTurn(s: State, s': State, own: set<nat>, order: seq<nat>, turns: seq<Turn>, j: nat)
    requires |order| == |turns| && Distinct(order) && j < |order| && order[j] in own && order[j] < |s.queues|
    requires Conserved(s) && Conserved(s') && ReachedByTurns(s, s', own, order, turns) && s.pushed == s'.pushed
    ensures order[j] < |s'.queues| && s.queues[order[j]] == turns[j].Taken() + s'.queues[order[j]]
  {
    TurnsConserve(s, s', own, order, turns, order[j]);
    TakenOfDistinct(order, turns, j);
  }

  /** A head that parses and fits ends up in the message, or something else does. */
  lemma HeadIsPacked(queue: seq<Event>, left: seq<Event>, turn: Turn, appended: nat -> bool, max: u32)
    requires queue == turn.Taken() + left && queue != [] && Parses(queue[0]) && queue[0].dataSize < max
    requires Answered(turn, appended) && (forall t :: appended(t))
    requires turn.failed.None? ==> left == [] || max <= left[0].dataSize
    ensures turn.packed != []
  {
    if turn.Taken() != [] {
      assert turn.Taken()[0] == queue[0];
    }
  }

  /**
   * Quiet queues and a library that appends everything: the message of distinct queues holds something if and only if
   * one of them starts with a JSON object of at least one byte and less than the maximum.
   */
  lemma PackedIff(s: State, s': State, own: set<nat>, order: seq<nat>, turns: seq<Turn>, max: u32,
                  appended: nat -> bool, from: nat, to: nat)
    requires |order| == |turns| && Distinct(order)
    requires forall j | 0 <= j < |order| :: order[j] in own && order[j] < |s.queues|
    requires Conserved(s) && Conserved(s') && ReachedByTurns(s, s', own, order, turns) && s.pushed == s'.pushed
    requires AllAnswered(turns, appended, from, to) && (forall t :: appended(t))
    requires AllExhausted(s', order, turns, Sizes(PackedBy(turns)), max)
    requires PackedBy(turns) != [] ==> Sizes(PackedBy(turns)) < max
    ensures PackedBy(turns) != [] <==>
              exists j :: 0 <= j < |order| && s.queues[order[j]] != [] &&
                          s.queues[order[j]][0].isJsonObject && 1 <= s.queues[order[j]][0].dataSize < max
  {
    hide Conserved, ReachedByTurns, TakenFrom, PackedBy, Distinct, Parses;
    if PackedBy(turns) != [] {
      var j := SomeTurnPacked(turns);
      QueueOfTurn(s, s', own, order, turns, j);
      PackedOfTurn(turns, j, 0);
      assert Answered(turns[j], appended);
      AnsweredExact(turns[j], appended, 0);
      assert s.queues[order[j]][0] == turns[j].Taken()[0] == turns[j].packed[0];
      assert HeadFits(s, order[j], max);
    } else if exists j :: 0 <= j < |order| && HeadFits(s, order[j], max) {
      var j :| 0 <= j < |order| && HeadFits(s, order[j], max);
      QueueOfTurn(s, s', own, order, turns, j);
      assert Answered(turns[j], appended);
      ParsesIff(s.queues[order[j]][0]);
      HeadIsPacked(s.queues[order[j]], s'.queues[order[j]], turns[j], appended, max);
      PackedOfTurn(turns, j, 0);
    }
  }

  /**
   * When an attempt really sends: without other threads at work and with a library that appends everything, if and only
   * if the main queue is not empty, one of the three queues starts with a JSON object of at least one byte and less
   * than the maximum, and the twin getter, the library and the hub all play along. In any case the attempt counts as a
   * success exactly if it sent something or found the main queue empty.
   */
  lemma SentIff(w: World, a: Attempt)
    requires Attempted(w, a) && NoProducers(w.producers) && (forall t :: w.appended(t)) && Distinct(a.queues)
    requires |a.queues| == 3 && forall j | 0 <= j < 3 :: a.queues[j] in w.own && a.queues[j] < |a.before.queues|
    ensures a.sent.Some? <==>
              && a.before.queues[a.queues[1]] != []
              && a.outcome.json.header && a.outcome.maxMessageSize.Some? && a.outcome.json.initialized
              && a.outcome.json.written && a.outcome.json.serialized && a.outcome.sent
              && exists j :: 0 <= j < 3 && a.before.queues[a.queues[j]] != [] &&
                             a.before.queues[a.queues[j]][0].isJsonObject &&
                             1 <= a.before.queues[a.queues[j]][0].dataSize < a.outcome.maxMessageSize.value
    ensures a.success <==> a.sent.Some? || a.before.queues[a.queues[1]] == []
  {
    hide Conserved, ReachedByTurns, AllAnswered, AllExhausted, LeftExhausted, RanOthers, Reached, Distinct, HeadFits;
    if a.taken != [] {
      assert a.queues[..3] == a.queues;
      PackedIff(a.seen, a.after, w.own, a.queues, a.taken, a.outcome.maxMessageSize.value, w.appended, a.clock, a.done);
    } else {
      NothingPacked();
    }
  }

  /** Between quiet queues, what is sent is a prefix of each of the three, in the order of their turns. */
  lemma SentPrefixes(w: World, a: Attempt)
    requires Attempted(w, a) && NoProducers(w.producers) && Distinct(a.queues)
    requires |a.queues| == 3 && forall j | 0 <= j < 3 :: a.queues[j] in w.own && a.queues[j] < |a.before.queues|
    ensures a.sent.Some? ==>
              && |a.taken| == 3 && a.sent.value != []
              && a.sent.value == a.taken[0].packed + a.taken[1].packed + a.taken[2].packed
              && forall j | 0 <= j < 3 :: a.taken[j].packed <= a.before.queues[a.queues[j]]
  {
    hide Conserved, ReachedByTurns, AllAnswered, AllExhausted, LeftExhausted, RanOthers, Reached, Distinct, MessageLog;
    NothingPacked();
    if a.sent.Some? {
      PackedByThree(a.taken);
      assert a.queues[..3] == a.queues;
      forall j | 0 <= j < 3 ensures a.taken[j].packed <= a.before.queues[a.queues[j]] {
        QueueOfTurn(a.seen, a.after, w.own, a.queues, a.taken, j);
        assert a.taken[j].packed <= a.taken[j].Taken();
      }
    }
  }

  lemma PackedByThree(turns: seq<Turn>)
    requires |turns| == 3
    ensures PackedBy(turns) == turns[0].packed + turns[1].packed + turns[2].packed
  {
    assert turns[..2][..1] == turns[..1] && turns[..1][..0] == [];
    assert PackedBy(turns[..1]) == [] + turns[0].packed;
  }

  lemma NothingPacked()
    ensures PackedBy([]) == [] && MomentsOf([]) == []
  {
  }

  // ----- the ledger -----

  /** Every turn any queue ever had, with the queue, and the events arrays built so far. */
  datatype Ledger = Ledger(order: seq<nat>, turns: seq<Turn>, arrays: seq<seq<Event>>)

  function Entered(l: Ledger, order: seq<nat>, turns: seq<Turn>): Ledger {
    Ledger(l.order + order, l.turns + turns, l.arrays + [PackedBy(turns)])
  }

  /**
   * Since the start, what left the consumer's queues is what the turns took, the arrays hold all that was packed, and
   * every event taken was answered for itself.
   */
  ghost predicate Accurate(start: State, v: State, w: World, l: Ledger, clock: nat) {
    && |l.order| == |l.turns| && ReachedByTurns(start, v, w.own, l.order, l.turns)
    && (forall j | 0 <= j < |l.order| :: l.order[j] in w.own)
    && Flatten(l.arrays) == PackedBy(l.turns) && AllAnswered(l.turns, w.appended, 0, clock)
  }

  lemma NothingEntered(start: State, w: World)
    requires |start.queues| == |start.pushed| == |start.popped|
    ensures Accurate(start, start, w, Ledger([], [], []), 0)
  {
    NoneAnswered(w.appended, 0);
  }

  /** Other threads' work leaves the ledger accurate, and so does an attempt without any turn. */
  lemma StillAccurate(start: State, s: State, s': State, w: World, l: Ledger, q: nat, clock: nat, later: nat)
    requires Accurate(start, s, w, l, clock) && Reached(s, s', w.own, q, []) && clock <= later
    ensures Accurate(start, s', w, l, later) && Accurate(start, s', w, Entered(l, [], []), later)
  {
    hide Flatten, TakenFrom;
    NothingPacked();
    FlattenAppend(l.arrays, []);
    assert Flatten(l.arrays) + [] == Flatten(l.arrays) && l.order + [] == l.order && l.turns + [] == l.turns;
    assert s.popped[q] + [] == s.popped[q];
  }

  /** The turns of one message enter the ledger. */
  lemma EnteredAccurate(start: State, s: State, s': State, w: World, l: Ledger, order: seq<nat>, turns: seq<Turn>,
                        clock: nat, later: nat)
    requires Accurate(start, s, w, l, clock) && |order| == |turns| && ReachedByTurns(s, s', w.own, order, turns)
    requires AllAnswered(turns, w.appended, clock, later) && forall j | 0 <= j < |order| :: order[j] in w.own
    ensures Accurate(start, s', w, Entered(l, order, turns), later)
  {
    hide Flatten, PackedBy, ReachedByTurns, AllAnswered;
    TurnsCompose(start, s, s', w.own, l.order, l.turns, order, turns);
    TakenConcat(l.order, l.turns, order, turns, 0);
    FlattenAppend(l.arrays, PackedBy(turns));
    AnsweredConcat(l.turns, turns, w.appended, 0, clock, later);
  }

  lemma AnsweredSince(turns: seq<Turn>, appended: nat -> bool, earlier: nat, from: nat, to: nat)
    requires AllAnswered(turns, appended, from, to) && earlier <= from
    ensures AllAnswered(turns, appended, earlier, to)
  {
  }

  // ----- several attempts in a row -----

  datatype Moment = Moment(ledger: Ledger, state: State, clock: nat)

  function After(m: Moment, a: Attempt): Moment {
    var served := if |a.taken| <= |a.queues| then a.queues[..|a.taken|] else a.queues;
    Moment(Entered(m.ledger, served, a.taken), a.after, a.done)
  }

  function AfterAll(m: Moment, attempts: seq<Attempt>): Moment {
    if attempts == [] then m else After(AfterAll(m, attempts[..|attempts| - 1]), attempts[|attempts| - 1])
  }

  /** The attempts follow each other without anything in between. */
  ghost predicate Chained(w: World, m: Moment, attempts: seq<Attempt>) {
    forall k | 0 <= k < |attempts| ::
      && Attempted(w, attempts[k])
      && attempts[k].before == AfterAll(m, attempts[..k]).state && attempts[k].clock == AfterAll(m, attempts[..k]).clock
  }

  lemma NothingAttempted(w: World, m: Moment)
    ensures Chained(w, m, []) && AfterAll(m, []) == m
  {
  }

  lemma OneMoreAttempt(w: World, m: Moment, attempts: seq<Attempt>, a: Attempt)
    requires Chained(w, m, attempts) && Attempted(w, a)
    requires a.before == AfterAll(m, attempts).state && a.clock == AfterAll(m, attempts).clock
    ensures Chained(w, m, attempts + [a]) && AfterAll(m, attempts + [a]) == After(AfterAll(m, attempts), a)
  {
    hide Attempted, After;
    var more := attempts + [a];
    assert more[..|attempts|] == attempts;
    forall k | 0 <= k < |more|
      ensures Attempted(w, more[k])
      ensures more[k].before == AfterAll(m, more[..k]).state && more[k].clock == AfterAll(m, more[..k]).clock
    {
      assert k < |attempts| ==> more[..k] == attempts[..k] && more[k] == attempts[k];
    }
  }

  // ----- every operation of every attempt -----

  /** All that an attempt does with the queues: the look at the main queue, and then the turns. */
  function AttemptLog(a: Attempt): seq<Operation> {
    var main := if |a.queues| == 3 then a.queues[1] else 0;
    [Look(main, if main < |a.seen.queues| then |a.seen.queues[main]| else 0)] + Flatten(a.logs)
  }

  lemma AttemptOperated(w: World, a: Attempt)
    requires Attempted(w, a)
    ensures Operated(a.before, w.producers, a.clock, AttemptLog(a), a.after) && a.done == a.clock + |AttemptLog(a)|
  {
    hide Operated, Delivered, FullWhenQuiet, RanOthers, AllAnswered, LeftExhausted, ReachedByTurns, PackedBy, Conserved;
    var look := AttemptLog(a)[0];
    assert Performed(a.before, w.producers(a.clock), look, a.seen);
    NotOperated(a.before, a.before, w.producers, a.clock);
    OneMoreOperation(a.before, a.before, a.seen, w.producers, a.clock, [], look);
    assert [] + [look] == [look];
    OperatedConcat(a.before, a.seen, a.after, w.producers, a.clock, [look], Flatten(a.logs));
  }

  function AttemptLogs(attempts: seq<Attempt>): seq<Operation> {
    if attempts == [] then []
    else AttemptLogs(attempts[..|attempts| - 1]) + AttemptLog(attempts[|attempts| - 1])
  }

  /**
   * Attempts made one after the other are nothing but these operations, one for each number, each after exactly the
   * batch of that number; so they and the outside world determine the state.
   */
  lemma {:induction false} ChainOperated(w: World, m: Moment, attempts: seq<Attempt>)
    requires Chained(w, m, attempts)
    ensures Operated(m.state, w.producers, m.clock, AttemptLogs(attempts), AfterAll(m, attempts).state)
    ensures AfterAll(m, attempts).clock == m.clock + |AttemptLogs(attempts)|
    decreases |attempts|
  {
    hide Operated, Attempted, AttemptLog;
    if attempts == [] {
      NotOperated(m.state, m.state, w.producers, m.clock);
    } else {
      var before, a := attempts[..|attempts| - 1], attempts[|attempts| - 1];
      ChainedBefore(w, m, attempts);
      ChainOperated(w, m, before);
      AttemptOperated(w, a);
      OperatedConcat(m.state, a.before, a.after, w.producers, m.clock, AttemptLogs(before), AttemptLog(a));
    }
  }

  lemma ChainedBefore(w: World, m: Moment, attempts: seq<Attempt>)
    requires Chained(w, m, attempts) && attempts != []
    ensures var before, a := attempts[..|attempts| - 1], attempts[|attempts| - 1];
            && Chained(w, m, before) && Attempted(w, a)
            && a.before == AfterAll(m, before).state && a.clock == AfterAll(m, before).clock
  {
    hide Attempted;
    var before := attempts[..|attempts| - 1];
    forall k | 0 <= k < |before|
      ensures Attempted(w, before[k])
      ensures before[k].before == AfterAll(m, before[..k]).state && before[k].clock == AfterAll(m, before[..k]).clock
    {
      assert before[k] == attempts[k] && before[..k] == attempts[..k];
    }
  }

  ghost predicate AllIn(order: seq<nat>, own: set<nat>) {
    forall j | 0 <= j < |order| :: order[j] in own
  }

  ghost predicate OnlyOn(log: seq<Operation>, own: set<nat>) {
    forall i | 0 <= i < |log| :: log[i].queue in own
  }

  lemma RoundsOnlyOn(log: seq<Operation>, q: nat, current: nat, max: u32, packed: seq<Event>, own: set<nat>)
    requires Rounds(log, q, current, max, packed) && q in own
    ensures OnlyOn(log, own)
  {
    hide Sizes;
    forall i | 0 <= i < |log| ensures log[i].queue in own {
      if i < 2 * |packed| {
        assert Round(log, q, current, max, packed, i / 2);
        assert i == 2 * (i / 2) || i == 2 * (i / 2) + 1;
      }
    }
  }

  /** All operations of a turn are on its queue. */
  lemma TurnOnlyOn(log: seq<Operation>, q: nat, current: nat, max: u32, turn: Turn, clock: nat, own: set<nat>)
    requires TurnOperations(log, q, current, max, turn, clock) && q in own
    ensures OnlyOn(log, own)
  {
    hide Sizes, Rounds, Moments;
    if log != [] {
      var last := |log| - 1;
      if log[last].Look? {
        RoundsOnlyOn(log, q, current, max, turn.packed, own);
      } else {
        RoundsOnlyOn(log[..last], q, current, max, turn.packed, own);
        assert forall i | 0 <= i < last :: log[..last][i] == log[i];
      }
    }
  }

  lemma OnlyOnConcat(a: seq<Operation>, b: seq<Operation>, own: set<nat>)
    requires OnlyOn(a, own) && OnlyOn(b, own)
    ensures OnlyOn(a + b, own)
  {
  }

  lemma {:induction false} FlattenOnlyOn(logs: seq<seq<Operation>>, own: set<nat>)
    requires forall j | 0 <= j < |logs| :: OnlyOn(logs[j], own)
    ensures OnlyOn(Flatten(logs), own)
  {
    if logs != [] {
      FlattenOnlyOn(logs[1..], own);
      OnlyOnConcat(logs[0], Flatten(logs[1..]), own);
    }
  }

  lemma MessageOnlyOn(s: State, v: State, producers: nat -> seq<Op>, clock: nat, newClock: nat, order: seq<nat>,
                      turns: seq<Turn>, logs: seq<seq<Operation>>, stages: seq<State>, max: u32, own: set<nat>)
    requires MessageLog(s, v, producers, clock, newClock, order, turns, logs, stages, max)
    requires AllIn(order, own)
    ensures OnlyOn(Flatten(logs), own)
  {
    hide TurnOperations, Flatten, Sizes, PackedBy, Operated, OnlyOn;
    forall j | 0 <= j < |logs| ensures OnlyOn(logs[j], own) {
      assert TurnAt(s, producers, clock, order, turns, logs, stages, max, j);
      TurnOnlyOn(logs[j], order[j], Sizes(PackedBy(turns[..j])), max, turns[j], clock + |Flatten(logs[..j])|, own);
    }
    FlattenOnlyOn(logs, own);
  }

  /** A consumer looks at and takes from its own queues alone. */
  lemma {:induction false} OwnOperationsOnly(w: World, m: Moment, attempts: seq<Attempt>)
    requires Chained(w, m, attempts)
    requires forall k | 0 <= k < |attempts| :: AllIn(attempts[k].queues, w.own)
    ensures OnlyOn(AttemptLogs(attempts), w.own)
    decreases |attempts|
  {
    if attempts != [] {
      hide MessageLog, OnlyOn, Flatten;
      var before, a := attempts[..|attempts| - 1], attempts[|attempts| - 1];
      ChainedBefore(w, m, attempts);
      OwnOperationsOnly(w, m, before);
      hide Chained;
      AttemptOnlyOn(w, a);
      OnlyOnConcat(AttemptLogs(before), AttemptLog(a), w.own);
    }
  }

  lemma AttemptOnlyOn(w: World, a: Attempt)
    requires Attempted(w, a) && AllIn(a.queues, w.own)
    ensures OnlyOn(AttemptLog(a), w.own)
  {
    hide MessageLog, LeftExhausted, ReachedByTurns, Delivered, FullWhenQuiet, Flatten;
    MessageOnlyOn(a.seen, a.after, w.producers, a.clock + 1, a.done, a.queues, a.taken, a.logs, a.stages,
                  a.outcome.maxMessageSize.GetOr(0), w.own);
    OnlyOnConcat([AttemptLog(a)[0]], Flatten(a.logs), w.own);
  }
}

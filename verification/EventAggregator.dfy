/** The event aggregator: repeated payloads collapse into hit counts, flushed as windows of time. */
module EventAggregator {
  import opened Common

  /** A JSON payload up to the equality of the JSON library. */
  type Payload(==)

  datatype AggregatorResult = AggregatorOk | AggregatorDisabled | AggregatorException

  datatype Item = Item(payload: Payload, hitCount: u32)

  // ----- what the stored items stand for: the calls accepted since the last flush -----

  function Count(calls: seq<Payload>, p: Payload): nat {
    if calls == [] then 0
    else Count(calls[..|calls| - 1], p) + if calls[|calls| - 1] == p then 1 else 0
  }

  /** The distinct payloads in the order in which they were first seen. */
  function FirstSeen(calls: seq<Payload>): seq<Payload> {
    if calls == [] then []
    else
      var before := FirstSeen(calls[..|calls| - 1]);
      if calls[|calls| - 1] in before then before else before + [calls[|calls| - 1]]
  }

  /** Every distinct payload with its number of calls, in 32 bits. */
  function Tally(calls: seq<Payload>): (items: seq<Item>)
    ensures |items| == |FirstSeen(calls)|
  {
    seq(|FirstSeen(calls)|, i requires 0 <= i < |FirstSeen(calls)| =>
        Item(FirstSeen(calls)[i], Wrap(Count(calls, FirstSeen(calls)[i]))))
  }

  lemma {:induction false} FirstSeenDistinct(calls: seq<Payload>)
    ensures forall i, j | 0 <= i < j < |FirstSeen(calls)| :: FirstSeen(calls)[i] != FirstSeen(calls)[j]
    ensures forall p :: p in FirstSeen(calls) <==> p in calls
    ensures forall p :: p in calls <==> Count(calls, p) > 0
  {
    if calls != [] {
      var last := calls[|calls| - 1];
      FirstSeenDistinct(calls[..|calls| - 1]);
      assert calls == calls[..|calls| - 1] + [last];
    }
  }

  /** The first stored item with this payload; singlylinkedlist_find with the payload comparison. */
  function Find(items: seq<Item>, p: Payload): (i: nat)
    ensures i <= |items| && (i < |items| ==> items[i].payload == p)
    ensures forall j | 0 <= j < i :: items[j].payload != p
  {
    if items == [] || items[0].payload == p then 0 else 1 + Find(items[1..], p)
  }

  /** The items after one more call. */
  function Hit(items: seq<Item>, p: Payload): seq<Item> {
    var i := Find(items, p);
    if i < |items| then items[i := Item(p, Wrap(items[i].hitCount + 1))] else items + [Item(p, 1)]
  }

  /** One more call: a hit on the stored item, or a new item at the end. */
  lemma TallyOneMore(calls: seq<Payload>, p: Payload)
    ensures Tally(calls + [p]) == Hit(Tally(calls), p)
  {
    hide Count, FirstSeen, Tally, Hit;
    FirstSeenOneMore(calls, p);
    FoundAt(calls, p);
    TallyAt(calls);
    TallyAt(calls + [p]);
    HitLength(Tally(calls), p);
    forall j | 0 <= j < |Tally(calls + [p])| ensures Tally(calls + [p])[j] == Hit(Tally(calls), p)[j] {
      TallyOneMoreAt(calls, p, j);
    }
  }

  lemma HitLength(items: seq<Item>, p: Payload)
    ensures |Hit(items, p)| == |items| + if Find(items, p) < |items| then 0 else 1
  {
  }

  lemma HitAt(items: seq<Item>, p: Payload, j: nat)
    requires j < |items|
    ensures j < |Hit(items, p)|
    ensures j != Find(items, p) ==> Hit(items, p)[j] == items[j]
    ensures j == Find(items, p) ==> Hit(items, p)[j] == Item(p, Wrap(items[j].hitCount + 1))
  {
    hide Find;
  }

  lemma HitBehind(items: seq<Item>, p: Payload)
    requires Find(items, p) == |items|
    ensures |Hit(items, p)| == |items| + 1 && Hit(items, p)[|items|] == Item(p, 1)
  {
    hide Find;
  }

  lemma TallyOneMoreAt(calls: seq<Payload>, p: Payload, j: nat)
    requires j < |Tally(calls + [p])|
    ensures j < |Hit(Tally(calls), p)| && Tally(calls + [p])[j] == Hit(Tally(calls), p)[j]
  {
    hide Count, FirstSeen, Tally, Find, Hit, Wrap;
    FirstSeenOneMore(calls, p);
    TallyAt(calls);
    if j < |FirstSeen(calls)| {
      StoredOneMore(calls, p, j);
    } else {
      NewOneMore(calls, p);
    }
  }

  lemma StoredOneMore(calls: seq<Payload>, p: Payload, j: nat)
    requires j < |FirstSeen(calls)|
    ensures j < |Tally(calls + [p])| && j < |Hit(Tally(calls), p)|
    ensures Tally(calls + [p])[j] == Hit(Tally(calls), p)[j]
  {
    hide Count, FirstSeen, Tally, Find, Hit, Wrap;
    FirstSeenDistinct(calls);
    FirstSeenOneMore(calls, p);
    FoundAt(calls, p);
    TallyAt(calls);
    TallyAt(calls + [p]);
    var q := FirstSeen(calls)[j];
    assert FirstSeen(calls + [p])[j] == q;
    CountOneMore(calls, p, q);
    HitAt(Tally(calls), p, j);
    WrapAdd(Count(calls, q), 1);
    var i := Find(Tally(calls), p);
    if j != i {
      assert i < |FirstSeen(calls)| ==> FirstSeen(calls)[i] != q;
    }
  }

  lemma NewOneMore(calls: seq<Payload>, p: Payload)
    requires p !in FirstSeen(calls)
    ensures var j := |FirstSeen(calls)|;
            && j < |Tally(calls + [p])| && j < |Hit(Tally(calls), p)|
            && Tally(calls + [p])[j] == Hit(Tally(calls), p)[j]
  {
    hide Count, FirstSeen, Tally, Find, Hit, Wrap;
    FirstSeenOneMore(calls, p);
    FoundAt(calls, p);
    TallyAt(calls);
    TallyAt(calls + [p]);
    CountOneMore(calls, p, p);
    HitBehind(Tally(calls), p);
    WrapOne();
  }

  lemma WrapOne()
    ensures Wrap(1) == 1
  {
  }

  lemma TallyAt(calls: seq<Payload>)
    ensures |Tally(calls)| == |FirstSeen(calls)|
    ensures forall j | 0 <= j < |Tally(calls)| ::
              Tally(calls)[j] == Item(FirstSeen(calls)[j], Wrap(Count(calls, FirstSeen(calls)[j])))
  {
  }

  /** Where the search ends: at the payload's place in first-seen order, or behind the last item. */
  lemma FoundAt(calls: seq<Payload>, p: Payload)
    ensures var i := Find(Tally(calls), p);
            if i < |Tally(calls)| then FirstSeen(calls)[i] == p
            else p !in FirstSeen(calls) && Count(calls, p) == 0
  {
    hide Count, FirstSeen, Tally;
    FirstSeenDistinct(calls);
    TallyAt(calls);
    assert forall j | 0 <= j < |Tally(calls)| :: FirstSeen(calls)[j] == Tally(calls)[j].payload;
  }

  /** A payload is stored exactly when it was called since the last flush. */
  lemma FoundIff(calls: seq<Payload>, p: Payload)
    ensures Find(Tally(calls), p) < |Tally(calls)| <==> p in calls
  {
    FirstSeenDistinct(calls);
    assert forall j | 0 <= j < |Tally(calls)| :: FirstSeen(calls)[j] == Tally(calls)[j].payload;
  }

  lemma FirstSeenOneMore(calls: seq<Payload>, p: Payload)
    ensures FirstSeen(calls + [p]) == if p in FirstSeen(calls) then FirstSeen(calls) else FirstSeen(calls) + [p]
  {
    assert (calls + [p])[..|calls|] == calls;
  }

  lemma CountOneMore(calls: seq<Payload>, p: Payload, q: Payload)
    ensures Count(calls + [p], q) == Count(calls, q) + if q == p then 1 else 0
  {
    assert (calls + [p])[..|calls|] == calls;
  }

  // ----- flushes -----

  datatype Outcome = Emitted | DroppedByQueue | Failed

  datatype Emission = Emission(payload: Payload, hitCount: u32, start: int, end: int)

  /** One flush: the calls it covered, what became of each item, and its window of time. */
  datatype Flush = Flush(calls: seq<Payload>, outcomes: seq<Outcome>, start: int, end: int)

  function EmissionsOf(items: seq<Item>, outcomes: seq<Outcome>, start: int, end: int): seq<Emission>
    requires |items| == |outcomes|
  {
    if items == [] then []
    else
      var n := |items| - 1;
      EmissionsOf(items[..n], outcomes[..n], start, end)
      + if outcomes[n] == Emitted then [Emission(items[n].payload, items[n].hitCount, start, end)] else []
  }

  lemma NoEmissions(items: seq<Item>, start: int, end: int)
    requires items == []
    ensures EmissionsOf(items, [], start, end) == []
  {
  }

  lemma OneMoreOutcome(outcomes: seq<Outcome>, o: Outcome)
    ensures Failed in outcomes + [o] <==> Failed in outcomes || o == Failed
  {
  }

  lemma EmissionsGrow(items: seq<Item>, outcomes: seq<Outcome>, n: nat, o: Outcome, start: int, end: int)
    requires n < |items| && n == |outcomes|
    ensures EmissionsOf(items[..n + 1], outcomes + [o], start, end)
            == EmissionsOf(items[..n], outcomes, start, end)
               + if o == Emitted then [Emission(items[n].payload, items[n].hitCount, start, end)] else []
    ensures o != Emitted ==>
              EmissionsOf(items[..n + 1], outcomes + [o], start, end) == EmissionsOf(items[..n], outcomes, start, end)
  {
    assert items[..n + 1][..n] == items[..n] && (outcomes + [o])[..n] == outcomes;
  }

  function HitsOf(items: seq<Item>, p: Payload): nat {
    if items == [] then 0
    else HitsOf(items[..|items| - 1], p) + if items[|items| - 1].payload == p then items[|items| - 1].hitCount else 0
  }

  function EmittedHits(emissions: seq<Emission>, p: Payload): nat {
    if emissions == [] then 0
    else
      var last := emissions[|emissions| - 1];
      EmittedHits(emissions[..|emissions| - 1], p) + if last.payload == p then last.hitCount else 0
  }

  function LostHits(items: seq<Item>, outcomes: seq<Outcome>, p: Payload): nat
    requires |items| == |outcomes|
  {
    if items == [] then 0
    else
      var n := |items| - 1;
      LostHits(items[..n], outcomes[..n], p)
      + if items[n].payload == p && outcomes[n] != Emitted then items[n].hitCount else 0
  }

  /** Every hit of a flushed item is emitted or lost, never both. */
  lemma {:induction false} HitsSplit(items: seq<Item>, outcomes: seq<Outcome>, start: int, end: int, p: Payload)
    requires |items| == |outcomes|
    ensures EmittedHits(EmissionsOf(items, outcomes, start, end), p) + LostHits(items, outcomes, p) == HitsOf(items, p)
  {
    if items != [] {
      var n := |items| - 1;
      HitsSplit(items[..n], outcomes[..n], start, end, p);
      var before := EmissionsOf(items[..n], outcomes[..n], start, end);
      if outcomes[n] == Emitted {
        var e := Emission(items[n].payload, items[n].hitCount, start, end);
        assert (before + [e])[..|before|] == before;
      } else {
        assert before + [] == before;
      }
    }
  }

  /** An item list without repeated payloads holds the hits of a payload in one place. */
  lemma {:induction false} HitsOfDistinct(items: seq<Item>, p: Payload, i: nat)
    requires forall j, k | 0 <= j < k < |items| :: items[j].payload != items[k].payload
    ensures i < |items| && items[i].payload == p ==> HitsOf(items, p) == items[i].hitCount
    ensures (forall j | 0 <= j < |items| :: items[j].payload != p) ==> HitsOf(items, p) == 0
  {
    if items != [] {
      HitsOfDistinct(items[..|items| - 1], p, i);
    }
  }

  /** The stored hit count of a payload is the number of its calls, in 32 bits. */
  lemma TallyCounts(calls: seq<Payload>, p: Payload)
    ensures HitsOf(Tally(calls), p) == Wrap(Count(calls, p))
  {
    FirstSeenDistinct(calls);
    var items, seen := Tally(calls), FirstSeen(calls);
    if p in seen {
      var i :| 0 <= i < |seen| && seen[i] == p;
      HitsOfDistinct(items, p, i);
    } else {
      HitsOfDistinct(items, p, 0);
    }
  }

  // ----- histories -----

  ghost predicate Complete(history: seq<Flush>) {
    forall k | 0 <= k < |history| :: |history[k].outcomes| == |Tally(history[k].calls)|
  }

  /** Windows follow each other without gap or overlap from `start` to `last`. */
  ghost predicate Tiled(history: seq<Flush>, start: int, last: int) {
    if history == [] then start == last
    else
      var n := |history| - 1;
      history[n].end == last && Tiled(history[..n], start, history[n].start)
  }

  function CallsOf(history: seq<Flush>): seq<Payload> {
    if history == [] then [] else CallsOf(history[..|history| - 1]) + history[|history| - 1].calls
  }

  ghost function EmittedSoFar(history: seq<Flush>, p: Payload): nat
    requires Complete(history)
  {
    if history == [] then 0
    else
      var n := |history| - 1;
      var f := history[n];
      EmittedSoFar(history[..n], p) + EmittedHits(EmissionsOf(Tally(f.calls), f.outcomes, f.start, f.end), p)
  }

  ghost function LostSoFar(history: seq<Flush>, p: Payload): nat
    requires Complete(history)
  {
    if history == [] then 0
    else
      var n := |history| - 1;
      LostSoFar(history[..n], p) + LostHits(Tally(history[n].calls), history[n].outcomes, p)
  }

  /** No window saw a payload 2^32 times. */
  ghost predicate NoCountWraps(history: seq<Flush>, p: Payload) {
    forall k | 0 <= k < |history| :: Count(history[k].calls, p) < U32_MODULUS
  }

  lemma {:induction false} CountConcat(a: seq<Payload>, b: seq<Payload>, p: Payload)
    ensures Count(a + b, p) == Count(a, p) + Count(b, p)
  {
    if b == [] {
      assert a + b == a;
    } else {
      assert (a + b)[..|a + b| - 1] == a + b[..|b| - 1];
      CountConcat(a, b[..|b| - 1], p);
    }
  }

  lemma FlushHits(f: Flush, p: Payload)
    requires |f.outcomes| == |Tally(f.calls)|
    ensures var hits := EmittedHits(EmissionsOf(Tally(f.calls), f.outcomes, f.start, f.end), p)
                        + LostHits(Tally(f.calls), f.outcomes, p);
            hits <= Count(f.calls, p) && (hits == Count(f.calls, p) <==> Count(f.calls, p) < U32_MODULUS)
  {
    HitsSplit(Tally(f.calls), f.outcomes, f.start, f.end, p);
    TallyCounts(f.calls, p);
  }

  lemma WrapsGrow(history: seq<Flush>, p: Payload)
    requires history != []
    ensures NoCountWraps(history, p) <==>
            NoCountWraps(history[..|history| - 1], p) && Count(history[|history| - 1].calls, p) < U32_MODULUS
  {
  }

  lemma {:induction false} FlushedHits(history: seq<Flush>, p: Payload)
    requires Complete(history)
    ensures EmittedSoFar(history, p) + LostSoFar(history, p) <= Count(CallsOf(history), p)
    ensures EmittedSoFar(history, p) + LostSoFar(history, p) == Count(CallsOf(history), p) <==> NoCountWraps(history, p)
  {
    if history != [] {
      var n := |history| - 1;
      var f := history[n];
      FlushedHits(history[..n], p);
      hide NoCountWraps, Tally, Count, HitsOf;
      CountConcat(CallsOf(history[..n]), f.calls, p);
      FlushHits(f, p);
      WrapsGrow(history, p);
      assert NoCountWraps(history, p) <==> NoCountWraps(history[..n], p) && Count(f.calls, p) < U32_MODULUS;
    }
  }

  /**
   * Conservation over any history: the accepted calls for a payload are the hits emitted, the hits lost with failed
   * emissions, and the hits still stored - exactly when no window saw the payload 2^32 times.
   */
  lemma HitsConserved(history: seq<Flush>, since: seq<Payload>, p: Payload)
    requires Complete(history)
    ensures Count(CallsOf(history) + since, p)
            == EmittedSoFar(history, p) + LostSoFar(history, p) + HitsOf(Tally(since), p)
            <==> NoCountWraps(history, p) && Count(since, p) < U32_MODULUS
  {
    hide Tally, Count, HitsOf, NoCountWraps, EmittedSoFar, LostSoFar, CallsOf, Wrap;
    CountConcat(CallsOf(history), since, p);
    FlushedHits(history, p);
    TallyCounts(since, p);
    WrapExact(Count(since, p));
  }

  lemma WrapExact(n: nat)
    ensures Wrap(n) <= n && (Wrap(n) == n <==> n < U32_MODULUS)
  {
  }

  lemma {:induction false} CountRepeated(p: Payload, n: nat)
    ensures Count(seq(n, _ => p), p) == n
  {
    if n > 0 {
      CountRepeated(p, n - 1);
      assert seq(n, _ => p)[..n - 1] == seq(n - 1, _ => p);
    }
  }

  /** With 2^32 calls in one window the stored count is back at zero, and every hit is gone. */
  lemma WrappedCount(p: Payload)
    ensures var since := seq(U32_MODULUS, _ => p);
            Count(since, p) == U32_MODULUS && HitsOf(Tally(since), p) == 0
  {
    CountRepeated(p, U32_MODULUS);
    TallyCounts(seq(U32_MODULUS, _ => p), p);
  }

  ghost predicate EmittedFrom(items: seq<Item>, outcomes: seq<Outcome>, e: Emission)
    requires |items| == |outcomes|
  {
    exists i :: 0 <= i < |items| && outcomes[i] == Emitted && items[i] == Item(e.payload, e.hitCount)
  }

  /** Whatever is emitted is an item whose emission succeeded, with its count and the two ends of the window. */
  lemma {:induction false} EmissionsExact(items: seq<Item>, outcomes: seq<Outcome>, start: int, end: int, e: Emission)
    requires |items| == |outcomes| && e in EmissionsOf(items, outcomes, start, end)
    ensures EmittedFrom(items, outcomes, e) && e.start == start && e.end == end
  {
    var n := |items| - 1;
    if e in EmissionsOf(items[..n], outcomes[..n], start, end) {
      EmissionsExact(items[..n], outcomes[..n], start, end, e);
      var i :| 0 <= i < n && outcomes[..n][i] == Emitted && items[..n][i] == Item(e.payload, e.hitCount);
      assert outcomes[i] == Emitted && items[i] == Item(e.payload, e.hitCount);
    } else {
      assert outcomes[n] == Emitted && items[n] == Item(e.payload, e.hitCount);
    }
  }

  /** If every emission succeeds, every item is emitted, in order. */
  lemma {:induction false} EmissionsComplete(items: seq<Item>, outcomes: seq<Outcome>, start: int, end: int)
    requires |items| == |outcomes| && forall i | 0 <= i < |items| :: outcomes[i] == Emitted
    ensures EmissionsOf(items, outcomes, start, end)
            == seq(|items|, i requires 0 <= i < |items| => Emission(items[i].payload, items[i].hitCount, start, end))
  {
    if items != [] {
      var n := |items| - 1;
      EmissionsComplete(items[..n], outcomes[..n], start, end);
    }
  }

  // ----- the aggregator -----

  class EventAggregator {
    var aggregatedEvents: seq<Item>
    var lastAggregationTime: int
    /** The calls accepted since the last flush, the flushes so far, and the time of Init. */
    ghost var since: seq<Payload>
    ghost var history: seq<Flush>
    ghost const created: int

    ghost predicate Valid()
      reads this
    {
      && aggregatedEvents == Tally(since)
      && Complete(history) && Tiled(history, created, lastAggregationTime)
    }

    constructor (now: int)
      ensures Valid() && since == [] && history == [] && created == now
    {
      aggregatedEvents, lastAggregationTime := [], now;
      since, history, created := [], [], now;
    }

    /** `isEnabled` is the twin's answer (None: the getter failed), `memoryOk` whether the copy could be stored. */
    method AggregateEvent(isEnabled: Option<bool>, eventPayload: Payload, memoryOk: bool)
      returns (result: AggregatorResult)
      requires Valid()
      modifies this
      ensures Valid() && history == old(history) && lastAggregationTime == old(lastAggregationTime)
      ensures result == if isEnabled.None? then AggregatorException
                        else if !isEnabled.value then AggregatorDisabled
                        else if eventPayload in old(since) || memoryOk then AggregatorOk
                        else AggregatorException
      ensures since == old(since) + if result == AggregatorOk then [eventPayload] else []
    {
      hide Tally, FirstSeen, Count, Complete, Tiled, Find, Wrap;
      if isEnabled.None? {
        return AggregatorException;
      }
      if !isEnabled.value {
        return AggregatorDisabled;
      }
      TallyOneMore(since, eventPayload);
      FoundIff(since, eventPayload);
      var i := Find(aggregatedEvents, eventPayload);
      if i < |aggregatedEvents| {
        aggregatedEvents := aggregatedEvents[i := Item(eventPayload, Wrap(aggregatedEvents[i].hitCount + 1))];
      } else if memoryOk {
        aggregatedEvents := aggregatedEvents + [Item(eventPayload, 1)];
      } else {
        return AggregatorException;
      }
      since := since + [eventPayload];
      result := AggregatorOk;
    }

    /** Pushes every stored item, keeps going after a failure, then forgets them all. */
    method CreateAggregatedEvents(aggregationEndTime: int, outcome: nat -> Outcome)
      returns (result: AggregatorResult, emissions: seq<Emission>, ghost outcomes: seq<Outcome>)
      modifies this`aggregatedEvents
      ensures |outcomes| == |old(aggregatedEvents)| && aggregatedEvents == []
      ensures forall k: nat | k < |outcomes| :: outcomes[k] == outcome(k)
      ensures emissions == EmissionsOf(old(aggregatedEvents), outcomes, lastAggregationTime, aggregationEndTime)
      ensures result == if Failed in outcomes then AggregatorException else AggregatorOk
    {
      hide EmissionsOf;
      NoEmissions(aggregatedEvents[..0], lastAggregationTime, aggregationEndTime);
      result, emissions, outcomes := AggregatorOk, [], [];
      var current := 0;
      while current < |aggregatedEvents|
        invariant aggregatedEvents == old(aggregatedEvents)
        invariant current <= |aggregatedEvents| && |outcomes| == current
        invariant forall k: nat | k < current :: outcomes[k] == outcome(k)
        invariant emissions ==
                  EmissionsOf(aggregatedEvents[..current], outcomes, lastAggregationTime, aggregationEndTime)
        invariant result == if Failed in outcomes then AggregatorException else AggregatorOk
      {
        var item := aggregatedEvents[current];
        EmissionsGrow(aggregatedEvents, outcomes, current, outcome(current), lastAggregationTime, aggregationEndTime);
        OneMoreOutcome(outcomes, outcome(current));
        if outcome(current) == Emitted {
          emissions := emissions + [Emission(item.payload, item.hitCount, lastAggregationTime, aggregationEndTime)];
        } else if outcome(current) == Failed {
          result := AggregatorException;
        }
        outcomes := outcomes + [outcome(current)];
        current := current + 1;
      }
      assert aggregatedEvents[..current] == aggregatedEvents;
      aggregatedEvents := [];
    }

    /** Flushes when aggregation is off or the interval has passed; the next window starts where this one ends. */
    method GetAggregatedEvents(now: int, isEnabled: Option<bool>, interval: Option<u32>, outcome: nat -> Outcome)
      returns (result: AggregatorResult, emissions: seq<Emission>)
      requires Valid()
      modifies this
      ensures Valid()
      ensures var due := isEnabled.Some? && interval.Some?
                         && (!isEnabled.value || TimeDiff(now, old(lastAggregationTime)) > interval.value);
              if due then
                && since == [] && lastAggregationTime == now
                && |history| == |old(history)| + 1 && history[..|old(history)|] == old(history)
                && var flush := history[|old(history)|];
                && flush.calls == old(since) && flush.start == old(lastAggregationTime) && flush.end == now
                && |flush.outcomes| == |Tally(flush.calls)|
                && (forall k: nat | k < |flush.outcomes| :: flush.outcomes[k] == outcome(k))
                && emissions == EmissionsOf(Tally(flush.calls), flush.outcomes, flush.start, flush.end)
                && result == (if Failed in flush.outcomes then AggregatorException else AggregatorOk)
              else
                && since == old(since) && history == old(history) && emissions == []
                && lastAggregationTime == old(lastAggregationTime)
                && result == (if isEnabled.None? || interval.None? then AggregatorException else AggregatorOk)
      ensures var d := now - old(lastAggregationTime);
              0 <= d && 1000 * d <= 0x7FFF_FFFF && isEnabled.Some? && interval.Some? ==>
                |history| == |old(history)| + if !isEnabled.value || 1000 * d > interval.value then 1 else 0
    {
      if 0 <= now - lastAggregationTime && 1000 * (now - lastAggregationTime) <= 0x7FFF_FFFF {
        TimeDiffExact(now, lastAggregationTime);
      }
      hide TimeDiff;
      emissions := [];
      if isEnabled.None? || interval.None? {
        return AggregatorException, [];
      }
      result := AggregatorOk;
      if !isEnabled.value || TimeDiff(now, lastAggregationTime) > interval.value {
        ghost var outcomes;
        result, emissions, outcomes := CreateAggregatedEvents(now, outcome);
        history := history + [Flush(since, outcomes, lastAggregationTime, now)];
        since := [];
        assert history[..|history| - 1] == old(history);
        lastAggregationTime := now;
      }
    }
  }

  /**
   * Two equal calls from time 0 on, and an interval of an hour: nothing happens after exactly that hour, and two hours
   * after the start both hits leave as one event for the whole window.
   */
  method FlushAfterTwoHours(p: Payload) returns (early: seq<Emission>, late: seq<Emission>)
    ensures early == [] && late == [Emission(p, 2, 0, 7200)]
  {
    hide Tally, EmissionsOf, TimeDiff;
    var aggregator := new EventAggregator(0);
    var interval: Option<u32> := Some(3600000);
    var _ := aggregator.AggregateEvent(Some(true), p, true);
    var _ := aggregator.AggregateEvent(Some(true), p, true);
    assert aggregator.since == [p, p];
    var result;
    result, early := aggregator.GetAggregatedEvents(3600, Some(true), interval, _ => Emitted);
    result, late := aggregator.GetAggregatedEvents(7200, Some(true), interval, _ => Emitted);
    TwoCalls(p);
    EmissionsComplete(Tally([p, p]), [Emitted], 0, 7200);
    assert aggregator.history[0].outcomes == [Emitted];
  }

  lemma TwoCalls(p: Payload)
    ensures Tally([p, p]) == [Item(p, 2)]
  {
    assert [p, p][..1] == [p] && [p][..0] == [];
    assert FirstSeen([p]) == [p] && FirstSeen([p, p]) == [p];
    assert Count([p], p) == 1 && Count([p, p], p) == 2;
  }
}

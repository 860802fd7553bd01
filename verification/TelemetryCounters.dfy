/**
 * Queue telemetry: pushes count under the queue lock, one 32-bit counter update at a time, while another thread
 * snapshots and zeroes the counters under the counter lock alone.
 */
module TelemetryCounters {
  import opened Common

  datatype Counter = Counter(collected: u32, dropped: u32)

  const ZERO: Counter := Counter(0, 0)

  /** AgentTelemetryCounter_IncreaseBy, by one, on either field: 32-bit arithmetic. */
  function CollectOne(c: Counter): Counter {
    c.(collected := Wrap(c.collected + 1))
  }

  function DropOne(c: Counter): Counter {
    c.(dropped := Wrap(c.dropped + 1))
  }

  // ----- every interleaving of pushing threads with the snapshotting thread -----

  /** Where a thread is inside Queue_PushBack, as far as the counters can tell. */
  datatype Phase = Outside | Entered(exceeded: bool) | DropCounted

  /**
   * `finished` lists the completed pushes, true where the memory limit was exceeded;
   * `wrapped` counts how often a live counter overflowed.
   */
  datatype State = State(
    owner: Option<nat>, phases: seq<Phase>, live: Counter, snapshots: seq<Counter>,
    finished: seq<bool>, wrapped: Wraps)

  datatype Wraps = Wraps(collected: nat, dropped: nat)

  datatype Action =
    | Enter(thread: nat, exceeded: bool)
    | CountDropped(thread: nat)
    | CountCollected(thread: nat)
    | Snapshot

  predicate Enabled(s: State, a: Action) {
    match a
    case Enter(i, _) => i < |s.phases| && s.owner == None && s.phases[i] == Outside
    case CountDropped(i) => i < |s.phases| && s.phases[i] == Entered(true)
    case CountCollected(i) => i < |s.phases| && (s.phases[i] == Entered(false) || s.phases[i] == DropCounted)
    case Snapshot => true
  }

  function Overflow(x: u32): nat {
    if x == U32_MAX then 1 else 0
  }

  function Next(s: State, a: Action): State
    requires Enabled(s, a)
  {
    match a
    case Enter(i, exceeded) => s.(owner := Some(i), phases := s.phases[i := Entered(exceeded)])
    case CountDropped(i) =>
      s.(phases := s.phases[i := DropCounted],
         live := DropOne(s.live),
         wrapped := s.wrapped.(dropped := s.wrapped.dropped + Overflow(s.live.dropped)))
    case CountCollected(i) =>
      s.(owner := None, phases := s.phases[i := Outside],
         live := CollectOne(s.live),
         finished := s.finished + [s.phases[i] == DropCounted],
         wrapped := s.wrapped.(collected := s.wrapped.collected + Overflow(s.live.collected)))
    case Snapshot => s.(live := ZERO, snapshots := s.snapshots + [s.live])
  }

  function Drops(finished: seq<bool>): nat {
    if finished == [] then 0
    else Drops(finished[..|finished| - 1]) + if finished[|finished| - 1] then 1 else 0
  }

  function Reported(snapshots: seq<Counter>): (nat, nat) {
    if snapshots == [] then (0, 0)
    else
      var last := snapshots[|snapshots| - 1];
      var before := Reported(snapshots[..|snapshots| - 1]);
      (before.0 + last.collected, before.1 + last.dropped)
  }

  /** Pushes counted as collected so far: all snapshots and the live counter together. */
  function TotalCollected(s: State): nat {
    Reported(s.snapshots).0 + s.live.collected
  }

  function TotalDropped(s: State): nat {
    Reported(s.snapshots).1 + s.live.dropped
  }

  /** Whether some push has counted its drop but not yet its collection. */
  predicate HalfCounted(s: State) {
    exists i :: 0 <= i < |s.phases| && s.phases[i] == DropCounted
  }

  ghost predicate Invariant(s: State) {
    && (s.owner.Some? ==> s.owner.value < |s.phases|)
    && (forall i | 0 <= i < |s.phases| :: s.phases[i] != Outside ==> s.owner == Some(i))
    && TotalCollected(s) + U32_MODULUS * s.wrapped.collected == |s.finished|
    && TotalDropped(s) + U32_MODULUS * s.wrapped.dropped == Drops(s.finished) + if HalfCounted(s) then 1 else 0
  }

  lemma NextInvariant(s: State, a: Action)
    requires Invariant(s) && Enabled(s, a)
    ensures Invariant(Next(s, a))
  {
    var s' := Next(s, a);
    match a {
      case Enter(i, exceeded) =>
        assert !HalfCounted(s) && !HalfCounted(s');
      case CountDropped(i) =>
        assert s'.phases[i] == DropCounted && HalfCounted(s');
        assert !HalfCounted(s);
      case CountCollected(i) =>
        assert HalfCounted(s) <==> s.phases[i] == DropCounted;
        assert !HalfCounted(s');
        assert s'.finished[..|s.finished|] == s.finished;
      case Snapshot =>
        assert s'.snapshots[..|s.snapshots|] == s.snapshots;
    }
  }

  predicate Runs(s: State, actions: seq<Action>)
    decreases |actions|
  {
    actions != [] ==> Enabled(s, actions[0]) && Runs(Next(s, actions[0]), actions[1..])
  }

  function After(s: State, actions: seq<Action>): State
    requires Runs(s, actions)
    decreases |actions|
  {
    if actions == [] then s else After(Next(s, actions[0]), actions[1..])
  }

  function Fresh(threads: nat): State {
    State(None, seq(threads, _ => Outside), ZERO, [], [], Wraps(0, 0))
  }

  lemma {:induction false} AfterInvariant(s: State, actions: seq<Action>)
    requires Invariant(s) && Runs(s, actions)
    ensures Invariant(After(s, actions))
    decreases |actions|
  {
    if actions != [] {
      NextInvariant(s, actions[0]);
      AfterInvariant(Next(s, actions[0]), actions[1..]);
    }
  }

  lemma {:induction false} DropsBounded(finished: seq<bool>)
    ensures Drops(finished) <= |finished|
  {
    if finished != [] {
      DropsBounded(finished[..|finished| - 1]);
    }
  }

  // ----- when no counter overflows, read off the actions -----

  /** The pushes counted since the last snapshot. */
  function PushesSince(actions: seq<Action>): nat {
    if actions == [] then 0
    else
      var before := actions[..|actions| - 1];
      match actions[|actions| - 1]
      case Snapshot => 0
      case CountCollected(_) => PushesSince(before) + 1
      case _ => PushesSince(before)
  }

  /** The drops counted since the last snapshot. */
  function DropsSince(actions: seq<Action>): nat {
    if actions == [] then 0
    else
      var before := actions[..|actions| - 1];
      match actions[|actions| - 1]
      case Snapshot => 0
      case CountDropped(_) => DropsSince(before) + 1
      case _ => DropsSince(before)
  }

  lemma SinceOneMore(actions: seq<Action>, a: Action)
    ensures PushesSince(actions + [a])
            == (match a case Snapshot => 0
                        case CountCollected(_) => PushesSince(actions) + 1
                        case _ => PushesSince(actions))
    ensures DropsSince(actions + [a])
            == (match a case Snapshot => 0
                        case CountDropped(_) => DropsSince(actions) + 1
                        case _ => DropsSince(actions))
  {
    assert (actions + [a])[..|actions|] == actions;
  }

  /** Never 2^32 pushes without a snapshot among them. */
  ghost predicate FewPushes(actions: seq<Action>) {
    forall k | 0 <= k <= |actions| :: PushesSince(actions[..k]) <= U32_MAX
  }

  ghost predicate FewDrops(actions: seq<Action>) {
    forall k | 0 <= k <= |actions| :: DropsSince(actions[..k]) <= U32_MAX
  }

  lemma FewOneMore(actions: seq<Action>, a: Action)
    ensures FewPushes(actions + [a]) <==> FewPushes(actions) && PushesSince(actions + [a]) <= U32_MAX
    ensures FewDrops(actions + [a]) <==> FewDrops(actions) && DropsSince(actions + [a]) <= U32_MAX
  {
    var more := actions + [a];
    assert more[..|more|] == more;
    assert forall k | 0 <= k <= |actions| :: more[..k] == actions[..k];
  }

  lemma {:induction false} AfterOneMore(s: State, actions: seq<Action>, a: Action)
    requires Runs(s, actions + [a])
    ensures Runs(s, actions) && Enabled(After(s, actions), a)
    ensures After(s, actions + [a]) == Next(After(s, actions), a)
    decreases |actions|
  {
    if actions == [] {
      assert ([] + [a])[1..] == [];
    } else {
      assert (actions + [a])[1..] == actions[1..] + [a];
      AfterOneMore(Next(s, actions[0]), actions[1..], a);
    }
  }

  lemma WrapNext(n: nat)
    ensures Wrap(Wrap(n) + 1) == Wrap(n + 1) && Wrap(0) == 0
    ensures n <= U32_MAX ==> Wrap(n) == n && (Overflow(Wrap(n)) == 0 <==> n + 1 <= U32_MAX)
  {
    WrapAdd(n, 1);
  }

  /** Adding a multiple of 2^32 changes a count, but not modulo 2^32. */
  lemma WholeWraps(total: nat, wraps: nat, count: nat)
    requires total + U32_MODULUS * wraps == count
    ensures total % U32_MODULUS == count % U32_MODULUS && (total == count <==> wraps == 0)
  {
  }

  /** What one step does to the live counters and to the record of their overflows. */
  lemma NextLive(s: State, a: Action)
    requires Enabled(s, a)
    ensures match a
            case Snapshot => Next(s, a).live == ZERO && Next(s, a).wrapped == s.wrapped
            case Enter(_, _) => Next(s, a).live == s.live && Next(s, a).wrapped == s.wrapped
            case CountCollected(_) =>
              && Next(s, a).live == CollectOne(s.live)
              && Next(s, a).wrapped == Wraps(s.wrapped.collected + Overflow(s.live.collected), s.wrapped.dropped)
            case CountDropped(_) =>
              && Next(s, a).live == DropOne(s.live)
              && Next(s, a).wrapped == Wraps(s.wrapped.collected, s.wrapped.dropped + Overflow(s.live.dropped))
  {
  }

  /** One more step, on the numbers alone. */
  lemma NextCounts(s: State, a: Action, pushes: nat, drops: nat)
    requires Enabled(s, a) && s.live == Counter(Wrap(pushes), Wrap(drops))
    ensures var s' := Next(s, a);
            var pushes' := match a case Snapshot => 0 case CountCollected(_) => pushes + 1 case _ => pushes;
            var drops' := match a case Snapshot => 0 case CountDropped(_) => drops + 1 case _ => drops;
            && s'.live == Counter(Wrap(pushes'), Wrap(drops'))
            && (pushes <= U32_MAX ==>
                  (s'.wrapped.collected == 0 <==> s.wrapped.collected == 0 && pushes' <= U32_MAX))
            && (s.wrapped.collected > 0 ==> s'.wrapped.collected > 0)
            && (drops <= U32_MAX ==> (s'.wrapped.dropped == 0 <==> s.wrapped.dropped == 0 && drops' <= U32_MAX))
            && (s.wrapped.dropped > 0 ==> s'.wrapped.dropped > 0)
  {
    NextLive(s, a);
    WrapNext(pushes);
    WrapNext(drops);
    hide Wrap, Overflow, Next, Enabled;
  }

  /** The live counters are the counts since the last snapshot, in 32 bits, and overflowed if a count got that far. */
  lemma {:induction false} LiveCounts(s: State, actions: seq<Action>)
    requires Runs(s, actions) && s.live == ZERO && s.wrapped == Wraps(0, 0)
    ensures After(s, actions).live == Counter(Wrap(PushesSince(actions)), Wrap(DropsSince(actions)))
    ensures After(s, actions).wrapped.collected == 0 <==> FewPushes(actions)
    ensures After(s, actions).wrapped.dropped == 0 <==> FewDrops(actions)
    decreases |actions|
  {
    if actions != [] {
      var before, a := actions[..|actions| - 1], actions[|actions| - 1];
      assert actions == before + [a];
      AfterOneMore(s, before, a);
      LiveCounts(s, before);
      FewOneMore(before, a);
      SinceOneMore(before, a);
      FewNow(before);
      hide Wrap, FewPushes, FewDrops, Runs, PushesSince, DropsSince, After, Next, Enabled;
      NextCounts(After(s, before), a, PushesSince(before), DropsSince(before));
    } else {
      WrapNext(0);
    }
  }

  lemma FewNow(actions: seq<Action>)
    ensures FewPushes(actions) ==> PushesSince(actions) <= U32_MAX
    ensures FewDrops(actions) ==> DropsSince(actions) <= U32_MAX
  {
    assert actions == actions[..|actions|];
  }

  /**
   * In every interleaving: snapshots plus the live counters account for every completed push (every drop) exactly when
   * fewer than 2^32 pushes (drops) were counted between any two snapshots, and modulo 2^32 in any case; drops never
   * exceed collections by more than the one push that is half way, and not at all when none is.
   */
  lemma CountersAccount(threads: nat, actions: seq<Action>)
    requires Runs(Fresh(threads), actions)
    ensures var s := After(Fresh(threads), actions);
            var dropped := Drops(s.finished) + if HalfCounted(s) then 1 else 0;
            && (TotalCollected(s) == |s.finished| <==> FewPushes(actions))
            && (TotalDropped(s) == dropped <==> FewDrops(actions))
            && TotalCollected(s) % U32_MODULUS == |s.finished| % U32_MODULUS
            && TotalDropped(s) % U32_MODULUS == dropped % U32_MODULUS
            && (FewPushes(actions) ==> TotalDropped(s) <= TotalCollected(s) + 1)
            && (FewPushes(actions) && !HalfCounted(s) ==> TotalDropped(s) <= TotalCollected(s))
  {
    hide Runs, After, PushesSince, DropsSince, FewPushes, FewDrops;
    AfterInvariant(Fresh(threads), actions);
    LiveCounts(Fresh(threads), actions);
    var s := After(Fresh(threads), actions);
    DropsBounded(s.finished);
    hide TotalCollected, TotalDropped, HalfCounted, Drops, Wrap;
    WholeWraps(TotalCollected(s), s.wrapped.collected, |s.finished|);
    WholeWraps(TotalDropped(s), s.wrapped.dropped, Drops(s.finished) + if HalfCounted(s) then 1 else 0);
  }

  /** n pushes by one thread and no snapshot. */
  function PushRun(n: nat): seq<Action> {
    if n == 0 then [] else PushRun(n - 1) + [Enter(0, false)] + [CountCollected(0)]
  }

  lemma {:induction false} RunOneMore(s: State, actions: seq<Action>, a: Action)
    requires Runs(s, actions) && Enabled(After(s, actions), a)
    ensures Runs(s, actions + [a])
    decreases |actions|
  {
    if actions == [] {
      assert ([] + [a])[1..] == [];
    } else {
      assert (actions + [a])[1..] == actions[1..] + [a];
      RunOneMore(Next(s, actions[0]), actions[1..], a);
    }
  }

  lemma {:induction false} PushRunRuns(n: nat)
    ensures Runs(Fresh(1), PushRun(n)) && PushesSince(PushRun(n)) == n
    ensures var s := After(Fresh(1), PushRun(n)); s.owner == None && s.phases == [Outside] && s.snapshots == []
  {
    if n > 0 {
      hide Runs, After, PushesSince;
      PushRunRuns(n - 1);
      var before := PushRun(n - 1);
      var entered := before + [Enter(0, false)];
      SinceOneMore(before, Enter(0, false));
      SinceOneMore(entered, CountCollected(0));
      RunOneMore(Fresh(1), before, Enter(0, false));
      AfterOneMore(Fresh(1), before, Enter(0, false));
      RunOneMore(Fresh(1), entered, CountCollected(0));
      AfterOneMore(Fresh(1), entered, CountCollected(0));
    }
  }

  /** The condition is needed: after 2^32 pushes without a snapshot nothing is left of any of them. */
  lemma OverflowLosesPushes()
    ensures var actions := PushRun(U32_MODULUS);
            && Runs(Fresh(1), actions) && TotalCollected(After(Fresh(1), actions)) == 0
            && |After(Fresh(1), actions).finished| > 0
  {
    hide PushRun, Runs, After, FewDrops, PushesSince, DropsSince, Drops, HalfCounted, TotalDropped;
    var actions := PushRun(U32_MODULUS);
    PushRunRuns(U32_MODULUS);
    LiveCounts(Fresh(1), actions);
    CountersAccount(1, actions);
    assert actions[..|actions|] == actions;
    assert !FewPushes(actions);
  }

  /** The half-way push is visible: a snapshot can report a drop and no collection at all. */
  lemma SnapshotCanSplitAPush()
    ensures var actions := [Enter(0, true), CountDropped(0), Snapshot];
            Runs(Fresh(1), actions) && After(Fresh(1), actions).snapshots == [Counter(0, 1)]
  {
    var s0 := Fresh(1);
    var s1 := Next(s0, Enter(0, true));
    var s2 := Next(s1, CountDropped(0));
    var actions := [Enter(0, true), CountDropped(0), Snapshot];
    assert actions[1..] == [CountDropped(0), Snapshot] && actions[1..][1..] == [Snapshot] && [Snapshot][1..] == [];
    assert Runs(Next(s2, Snapshot), []);
    assert Runs(s2, [Snapshot]) && Runs(s1, [CountDropped(0), Snapshot]);
    assert After(s0, actions) == After(s1, [CountDropped(0), Snapshot]) == After(s2, [Snapshot]) == Next(s2, Snapshot);
  }
}

// The registry's tickers with a clock: how often the tickers of a room can have ticked, over
// all its restarts, and what that can have drained.
module TickerClock {
  import opened Common
  import opened Billing
  import R = TickerRegistry

  const INTERVAL := TICK_SECONDS * NANOS_PER_SECOND

  // For every ticker of the registry, how often its goroutine has handled a tick, and when it
  // was stored. The clock fires once in an interval from then on; a tick handled late may be
  // followed sooner by the next, but none is handled before it fired.
  datatype State = State(registry: R.State, ticks: seq<nat>, stored: seq<int>)

  datatype Event = Registry(now: int, e: R.Event) | Tick(now: int, t: nat)

  predicate Stores(s: R.State, e: R.Event) {
    e.StartStore? && e.t < |s.tickers| && s.tickers[e.t].phase.Created?
  }

  predicate Parallel(s: State) {
    |s.ticks| == |s.registry.tickers| == |s.stored|
  }

  function Step(s: State, e: Event): (t: State)
    requires Parallel(s)
    ensures Parallel(t)
  {
    match e
    case Registry(now, r) =>
      var registry := R.Step(s.registry, r);
      if |registry.tickers| > |s.ticks| then State(registry, s.ticks + [0], s.stored + [now])
      else if Stores(s.registry, r) then State(registry, s.ticks, s.stored[r.t := now])
      else s.(registry := registry)
    case Tick(now, t) =>
      if t < |s.ticks| && s.registry.tickers[t].phase.Live? && s.stored[t] + (s.ticks[t] + 1) * INTERVAL <= now
      then s.(ticks := s.ticks[t := s.ticks[t] + 1])
      else s
  }

  function Run(es: seq<Event>): (s: State)
    ensures Parallel(s)
  {
    if es == [] then State(R.INITIAL, [], []) else Step(Run(es[..|es| - 1]), es[|es| - 1])
  }

  /** The time of the last event. */
  function Now(es: seq<Event>, start: int): int {
    if es == [] then start else es[|es| - 1].now
  }

  /** The clock does not run backwards, starts of a room begin in a quiet room, and no ticker
      of this room is stored before `from`. */
  predicate Orderly(es: seq<Event>, start: int, room: RoomName, from: int) {
    es == []
    || (var init, e := es[..|es| - 1], es[|es| - 1];
        var s := Run(init).registry;
        && Orderly(init, start, room, from)
        && Now(init, start) <= e.now
        && (e.Registry? ==> R.SerialStep(s, e.e))
        && (e.Registry? && Stores(s, e.e) && s.tickers[e.e.t].room == room ==> from <= e.now))
  }

  /** The ticks of a room's tickers. */
  function TicksOf(tickers: seq<R.Ticker>, ticks: seq<nat>, room: RoomName): nat
    requires |ticks| == |tickers|
  {
    if tickers == [] then 0
    else
      var k := |tickers| - 1;
      TicksOf(tickers[..k], ticks[..k], room) + if tickers[k].room == room then ticks[k] else 0
  }

  lemma {:induction false} TickAdds(tickers: seq<R.Ticker>, ticks: seq<nat>, t: nat, room: RoomName)
    requires |ticks| == |tickers| && t < |ticks|
    ensures TicksOf(tickers, ticks[t := ticks[t] + 1], room) == TicksOf(tickers, ticks, room) + if tickers[t].room == room then 1 else 0
  {
    var k := |tickers| - 1;
    var more := ticks[t := ticks[t] + 1];
    if t == k {
      assert more[..k] == ticks[..k];
    } else {
      assert more[..k] == ticks[..k][t := ticks[..k][t] + 1];
      TickAdds(tickers[..k], ticks[..k], t, room);
    }
  }

  lemma {:induction false} SameRoomsSameTicks(a: seq<R.Ticker>, b: seq<R.Ticker>, ticks: seq<nat>, room: RoomName)
    requires |a| == |b| == |ticks| && forall i | 0 <= i < |a| :: a[i].room == b[i].room
    ensures TicksOf(a, ticks, room) == TicksOf(b, ticks, room)
  {
    if a != [] {
      var k := |a| - 1;
      SameRoomsSameTicks(a[..k], b[..k], ticks[..k], room);
    }
  }

  lemma RoomsStay(s: R.State, e: R.Event)
    ensures var t := R.Step(s, e);
            && |s.tickers| <= |t.tickers| <= |s.tickers| + 1
            && (forall i | 0 <= i < |s.tickers| :: t.tickers[i].room == s.tickers[i].room)
            && (|t.tickers| > |s.tickers| ==> t.tickers[..|s.tickers|] == s.tickers)
  {
  }

  lemma NewTickerHasNone(tickers: seq<R.Ticker>, ticks: seq<nat>, ticker: R.Ticker, room: RoomName)
    requires |ticks| == |tickers|
    ensures TicksOf(tickers + [ticker], ticks + [0], room) == TicksOf(tickers, ticks, room)
  {
    assert (tickers + [ticker])[..|tickers|] == tickers && (ticks + [0])[..|ticks|] == ticks;
  }

  lemma RegistryKeepsTicks(s: State, now: int, e: R.Event, room: RoomName)
    requires Parallel(s)
    ensures var t := Step(s, Registry(now, e));
            TicksOf(t.registry.tickers, t.ticks, room) == TicksOf(s.registry.tickers, s.ticks, room)
  {
    hide R.Step, TicksOf;
    var t := Step(s, Registry(now, e));
    RoomsStay(s.registry, e);
    if |t.ticks| == |s.ticks| {
      SameRoomsSameTicks(s.registry.tickers, t.registry.tickers, s.ticks, room);
    } else {
      var ticker := t.registry.tickers[|s.ticks|];
      assert t.registry.tickers == s.registry.tickers + [ticker];
      NewTickerHasNone(s.registry.tickers, s.ticks, ticker, room);
    }
  }

  /** A tick counts exactly if its ticker is in its loop and has been for an interval more than
      it has ticked before. */
  lemma TickCounts(s: State, now: int, t: nat, room: RoomName)
    requires Parallel(s)
    ensures var u := Step(s, Tick(now, t));
            var counts := t < |s.ticks| && s.registry.tickers[t].phase.Live? && now - s.stored[t] >= (s.ticks[t] + 1) * 5_000_000_000;
            && u.registry == s.registry && u.stored == s.stored
            && TicksOf(u.registry.tickers, u.ticks, room) ==
               TicksOf(s.registry.tickers, s.ticks, room) + if counts && s.registry.tickers[t].room == room then 1 else 0
  {
    hide TicksOf;
    if t < |s.ticks| {
      TickAdds(s.registry.tickers, s.ticks, t, room);
    }
  }

  /** The clock of a ticker starts when it is stored. */
  lemma StoreStartsClock(s: State, now: int, e: R.Event)
    requires Parallel(s) && e.StartStore? && e.t < |s.ticks| && s.registry.tickers[e.t].phase.Created?
    ensures var u := Step(s, Registry(now, e));
            u.registry.tickers[e.t].phase.Live? && u.stored == s.stored[e.t := now] && u.ticks == s.ticks
  {
  }

  /** The ticks so far took their time: those of the room's earlier tickers until this one was
      stored, its own since then. */
  ghost predicate InTime(s: State, room: RoomName, from: int, now: int)
    requires Parallel(s)
  {
    var n := TicksOf(s.registry.tickers, s.ticks, room);
    && (n > 0 ==> n * INTERVAL <= now - from)
    && (forall t | 0 <= t < |s.ticks| && s.registry.tickers[t].phase.Created? :: s.ticks[t] == 0)
    && (forall t | 0 <= t < |s.ticks| && s.registry.tickers[t].room == room && s.registry.tickers[t].phase.Live? ::
          (n - s.ticks[t]) * INTERVAL <= s.stored[t] - from && s.stored[t] <= now)
  }

  /** A ticker that is live after a registry event was so before, or has just been stored. */
  predicate Carried(s: State, t: State, e: R.Event, now: int, u: nat)
    requires Parallel(s) && Parallel(t) && u < |t.ticks|
  {
    || (Stores(s.registry, e) && e.t == u && t.stored[u] == now && t.ticks[u] == s.ticks[u]
        && t.registry.tickers[u].room == s.registry.tickers[u].room)
    || (u < |s.ticks| && s.registry.tickers[u].phase.Live? && t.registry.tickers[u].room == s.registry.tickers[u].room
        && t.stored[u] == s.stored[u] && t.ticks[u] == s.ticks[u])
  }

  lemma LiveBefore(s: State, now: int, e: R.Event, u: nat)
    requires Parallel(s)
    requires var t := Step(s, Registry(now, e)); u < |t.ticks| && t.registry.tickers[u].phase.Live?
    ensures Carried(s, Step(s, Registry(now, e)), e, now, u)
  {
  }

  lemma CreatedBefore(s: State, now: int, e: R.Event, u: nat)
    requires Parallel(s)
    requires var t := Step(s, Registry(now, e)); u < |t.ticks| && t.registry.tickers[u].phase.Created?
    ensures var t := Step(s, Registry(now, e));
            t.ticks[u] == 0 || (u < |s.ticks| && s.registry.tickers[u].phase.Created? && t.ticks[u] == s.ticks[u])
  {
  }

  lemma RegistryInTime(s: State, now: int, e: R.Event, room: RoomName, from: int, before: int)
    requires Parallel(s) && InTime(s, room, from, before) && before <= now
    requires Stores(s.registry, e) && s.registry.tickers[e.t].room == room ==> from <= now
    ensures InTime(Step(s, Registry(now, e)), room, from, now)
  {
    hide TicksOf, Step;
    RegistryKeepsTicks(s, now, e, room);
    var t := Step(s, Registry(now, e));
    forall u | 0 <= u < |t.ticks| && t.registry.tickers[u].phase.Live? ensures Carried(s, t, e, now, u) {
      LiveBefore(s, now, e, u);
    }
    forall u | 0 <= u < |t.ticks| && t.registry.tickers[u].phase.Created? ensures t.ticks[u] == 0 {
      CreatedBefore(s, now, e, u);
    }
  }

  lemma TickInTime(s: State, now: int, t: nat, room: RoomName, from: int, before: int)
    requires Parallel(s) && R.OneCurrent(s.registry) && InTime(s, room, from, before) && before <= now
    ensures InTime(Step(s, Tick(now, t)), room, from, now)
  {
    hide TicksOf;
    if t < |s.ticks| && s.registry.tickers[t].phase.Live? && s.stored[t] + (s.ticks[t] + 1) * INTERVAL <= now {
      TickAdds(s.registry.tickers, s.ticks, t, room);
      assert R.Current(s.registry, t);
      forall u | 0 <= u < |s.ticks| && s.registry.tickers[u].phase.Live? && s.registry.tickers[u].room == s.registry.tickers[t].room ensures u == t {
        assert R.Current(s.registry, u);
      }
    }
  }

  /** Restarts included, a room's tickers tick at most once in an interval. */
  lemma {:induction false} TicksFit(es: seq<Event>, start: int, room: RoomName, from: int)
    requires Orderly(es, start, room, from)
    ensures R.Disciplined(Run(es).registry) && InTime(Run(es), room, from, Now(es, start))
    ensures var n := TicksOf(Run(es).registry.tickers, Run(es).ticks, room); n > 0 ==> n * 5_000_000_000 <= Now(es, start) - from
  {
    if es != [] {
      var init, e := es[..|es| - 1], es[|es| - 1];
      var s := Run(init);
      TicksFit(init, start, room, from);
      match e
      case Registry(now, r) =>
        R.SerialStepKeeps(s.registry, r);
        RegistryInTime(s, now, r, room, from, Now(init, start));
      case Tick(now, t) =>
        TickInTime(s, now, t, room, from, Now(init, start));
    }
  }

  lemma TicksCovered(n: nat, rate: int, elapsed: int, feePercent: int)
    requires rate >= 12 && (n > 0 ==> n * INTERVAL <= elapsed)
    ensures n * CostPerInterval(rate) <= BillFor(rate, elapsed, feePercent).total
  {
    hide Charge, CostPerInterval;
    var seconds := BilledSeconds(elapsed);
    assert seconds >= TICK_SECONDS * n;
    DrainCovered(rate, n, seconds);
  }

  /** In every orderly run of the registry, however often a room's ticker is stopped and
      started within its session, the ticks never drain more than the session is charged. */
  lemma RestartsStayCovered(es: seq<Event>, start: int, room: RoomName, rate: int, startedAt: int, endedAt: int, feePercent: int)
    requires rate >= 12 && Orderly(es, start, room, startedAt) && Now(es, start) <= endedAt
    ensures var n := TicksOf(Run(es).registry.tickers, Run(es).ticks, room);
            n * CostPerInterval(rate) <= BillFor(rate, endedAt - startedAt, feePercent).total
  {
    hide TicksOf, Run, BillFor, CostPerInterval;
    TicksFit(es, start, room, startedAt);
    var n := TicksOf(Run(es).registry.tickers, Run(es).ticks, room);
    assert n > 0 ==> n * INTERVAL <= endedAt - startedAt;
    TicksCovered(n, rate, endedAt - startedAt, feePercent);
  }
}

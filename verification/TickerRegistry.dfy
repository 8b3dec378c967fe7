// The registry of billing tickers. Starting, stopping and leaving are several steps on a
// shared map, and any of them may interleave with any other: Load then Store for a start,
// Load then cancel then Delete for a stop, and a deferred Delete when a goroutine ends.
module TickerRegistry {
  import opened Common

  // Created: the context exists. Live: stored, and the goroutine is in its loop. Leaving:
  // the loop is over. Gone: the deferred Delete has run.
  datatype Phase = Created | Live | Leaving | Gone

  datatype Ticker = Ticker(room: RoomName, phase: Phase, cancelled: bool)

  // A StopBillingTicker call that found an entry, and what it has done about it.
  datatype Stop = Stop(room: RoomName, ticker: nat, cancelled: bool, finished: bool)

  datatype State = State(active: map<RoomName, nat>, tickers: seq<Ticker>, stops: seq<Stop>)

  datatype Event =
    | StartLoad(room: RoomName)
    | StartStore(t: nat)
    | StopLoad(room: RoomName)
    | StopCancel(k: nat)
    | StopDelete(k: nat)
    | Leave(t: nat)
    | DeferredDelete(t: nat)

  function Enter(s: State, t: nat, phase: Phase): State
    requires t < |s.tickers|
  {
    s.(tickers := s.tickers[t := s.tickers[t].(phase := phase)])
  }

  function Step(s: State, e: Event): State {
    match e
    case StartLoad(room) =>
      if room in s.active then s else s.(tickers := s.tickers + [Ticker(room, Created, false)])
    case StartStore(t) =>
      if t < |s.tickers| && s.tickers[t].phase.Created?
      then Enter(s, t, Live).(active := s.active[s.tickers[t].room := t]) else s
    case StopLoad(room) =>
      if room in s.active then s.(stops := s.stops + [Stop(room, s.active[room], false, false)]) else s
    case StopCancel(k) =>
      if k < |s.stops| && !s.stops[k].cancelled && s.stops[k].ticker < |s.tickers|
      then
        var t := s.stops[k].ticker;
        s.(stops := s.stops[k := s.stops[k].(cancelled := true)],
           tickers := s.tickers[t := s.tickers[t].(cancelled := true)])
      else s
    case StopDelete(k) =>
      if k < |s.stops| && s.stops[k].cancelled && !s.stops[k].finished
      then s.(stops := s.stops[k := s.stops[k].(finished := true)], active := s.active - {s.stops[k].room}) else s
    case Leave(t) =>
      if t < |s.tickers| && s.tickers[t].phase.Live? then Enter(s, t, Leaving) else s
    case DeferredDelete(t) =>
      if t < |s.tickers| && s.tickers[t].phase.Leaving?
      then Enter(s, t, Gone).(active := s.active - {s.tickers[t].room}) else s
  }

  const INITIAL := State(map[], [], [])

  function Run(es: seq<Event>): State {
    if es == [] then INITIAL else Step(Run(es[..|es| - 1]), es[|es| - 1])
  }

  predicate IsRoomActive(s: State, room: RoomName) {
    room in s.active
  }

  // ------------------------------------------------------ what holds in every run

  /** A registered ticker is one of its room's, and its deferred Delete has not run. */
  ghost predicate EntriesAlive(s: State) {
    && (forall room | room in s.active ::
          var t := s.active[room];
          t < |s.tickers| && s.tickers[t].room == room && (s.tickers[t].phase.Live? || s.tickers[t].phase.Leaving?))
    && (forall k | 0 <= k < |s.stops| :: s.stops[k].ticker < |s.tickers| && s.tickers[s.stops[k].ticker].room == s.stops[k].room)
  }

  lemma StepKeepsEntries(s: State, e: Event)
    requires EntriesAlive(s)
    ensures EntriesAlive(Step(s, e))
  {
  }

  /** In every interleaving, a room reported active has a ticker that is still to run its
      deferred Delete. */
  lemma {:induction false} ActiveRoomsAreAlive(es: seq<Event>)
    ensures EntriesAlive(Run(es))
  {
    if es != [] {
      ActiveRoomsAreAlive(es[..|es| - 1]);
      StepKeepsEntries(Run(es[..|es| - 1]), es[|es| - 1]);
    }
  }

  // ------------------------------------------------------ at most one drain per room

  /** Ticker t takes money out of its client's cached balance. */
  predicate Drains(s: State, t: nat) {
    t < |s.tickers| && s.tickers[t].phase.Live? && !s.tickers[t].cancelled
  }

  ghost predicate OneDrain(s: State) {
    forall t: nat, u: nat | Drains(s, t) && Drains(s, u) && s.tickers[t].room == s.tickers[u].room :: t == u
  }

  /** Only storing a ticker can bring a second drain about: any other step keeps a room at
      one, and a store does so exactly when no other ticker of the room is draining. */
  lemma StoreDecides(s: State, e: Event)
    requires OneDrain(s)
    ensures OneDrain(Step(s, e)) <==>
              !(e.StartStore? && e.t < |s.tickers| && s.tickers[e.t].phase.Created? && !s.tickers[e.t].cancelled
                && exists u: nat :: Drains(s, u) && s.tickers[u].room == s.tickers[e.t].room)
  {
    var t := Step(s, e);
    forall u: nat | Drains(t, u) && !(e.StartStore? && e.t == u) ensures Drains(s, u) {}
    if e.StartStore? && e.t < |s.tickers| && s.tickers[e.t].phase.Created? && !s.tickers[e.t].cancelled {
      assert Drains(t, e.t);
      forall u: nat | Drains(s, u) ensures u != e.t && Drains(t, u) {}
    }
  }

  /** Nothing of this room is under way: no ticker short of Gone, no stop short of done. */
  predicate Quiet(s: State, room: RoomName) {
    && (forall t | 0 <= t < |s.tickers| && s.tickers[t].room == room :: s.tickers[t].phase.Gone?)
    && (forall k | 0 <= k < |s.stops| && s.stops[k].room == room :: s.stops[k].finished)
  }

  /** The discipline: a start that finds no entry begins only in a quiet room. */
  predicate Serial(es: seq<Event>) {
    es == [] || (Serial(es[..|es| - 1]) && SerialStep(Run(es[..|es| - 1]), es[|es| - 1]))
  }

  predicate SerialStep(s: State, e: Event) {
    e.StartLoad? && e.room !in s.active ==> Quiet(s, e.room)
  }

  predicate Current(s: State, t: nat) {
    t < |s.tickers| && !s.tickers[t].phase.Gone?
  }

  ghost predicate OneCurrent(s: State) {
    forall t: nat, u: nat | Current(s, t) && Current(s, u) && s.tickers[t].room == s.tickers[u].room :: t == u
  }

  /** A stop under way is about the only current ticker of its room. */
  ghost predicate StopsCurrent(s: State) {
    forall k, t: nat | 0 <= k < |s.stops| && !s.stops[k].finished && Current(s, t) && s.tickers[t].room == s.stops[k].room ::
      t == s.stops[k].ticker
  }

  ghost predicate StopsCancel(s: State) {
    forall k | 0 <= k < |s.stops| && s.stops[k].cancelled ::
      s.stops[k].ticker < |s.tickers| && s.tickers[s.stops[k].ticker].cancelled
  }

  ghost predicate DrainsRegistered(s: State) {
    forall t: nat | Drains(s, t) :: s.tickers[t].room in s.active && s.active[s.tickers[t].room] == t
  }

  ghost predicate Disciplined(s: State) {
    EntriesAlive(s) && OneCurrent(s) && StopsCurrent(s) && StopsCancel(s) && DrainsRegistered(s)
  }

  lemma CurrentStays(s: State, e: Event)
    requires Disciplined(s) && SerialStep(s, e)
    ensures OneCurrent(Step(s, e)) && StopsCurrent(Step(s, e))
  {
    var t := Step(s, e);
    if e.StartLoad? && e.room !in s.active {
      forall u: nat | Current(t, u) && t.tickers[u].room == e.room ensures u == |s.tickers| {}
      forall u: nat | Current(t, u) && u != |s.tickers| ensures Current(s, u) {}
    } else {
      forall u: nat | Current(t, u) ensures Current(s, u) && t.tickers[u].room == s.tickers[u].room {}
    }
  }

  lemma CancelsStay(s: State, e: Event)
    requires Disciplined(s)
    ensures StopsCancel(Step(s, e))
  {
  }

  lemma DrainsStay(s: State, e: Event)
    requires Disciplined(s) && SerialStep(s, e)
    ensures DrainsRegistered(Step(s, e))
  {
  }

  lemma SerialStepKeeps(s: State, e: Event)
    requires Disciplined(s) && SerialStep(s, e)
    ensures Disciplined(Step(s, e))
  {
    StepKeepsEntries(s, e);
    CurrentStays(s, e);
    CancelsStay(s, e);
    DrainsStay(s, e);
  }

  /** Under the discipline a room never has two draining tickers, and every draining ticker
      is the one its room is registered with, so a stop reaches it. */
  lemma {:induction false} SerialRunsDrainOnce(es: seq<Event>)
    requires Serial(es)
    ensures Disciplined(Run(es)) && OneDrain(Run(es))
    ensures forall t: nat | Drains(Run(es), t) :: IsRoomActive(Run(es), Run(es).tickers[t].room)
  {
    if es != [] {
      SerialRunsDrainOnce(es[..|es| - 1]);
      SerialStepKeeps(Run(es[..|es| - 1]), es[|es| - 1]);
    }
  }

  // ------------------------------------------------------ the discipline is needed

  lemma RunSnoc(es: seq<Event>, e: Event)
    ensures Run(es + [e]) == Step(Run(es), e)
  {
  }

  /** Two starts that both load before either stores leave two tickers draining the same
      client, and only the second can be stopped. */
  lemma OverlappingStarts(room: RoomName)
    ensures var s := Run([StartLoad(room), StartLoad(room), StartStore(0), StartStore(1)]);
            !OneDrain(s) && s.active == map[room := 1]
  {
    var es := [StartLoad(room)];
    RunSnoc([], StartLoad(room));
    assert [] + [StartLoad(room)] == es;
    RunSnoc(es, StartLoad(room));
    RunSnoc(es + [StartLoad(room)], StartStore(0));
    RunSnoc(es + [StartLoad(room)] + [StartStore(0)], StartStore(1));
    assert es + [StartLoad(room)] + [StartStore(0)] + [StartStore(1)] == [StartLoad(room), StartLoad(room), StartStore(0), StartStore(1)];
    var s := Run([StartLoad(room), StartLoad(room), StartStore(0), StartStore(1)]);
    assert s.tickers == [Ticker(room, Live, false), Ticker(room, Live, false)];
    assert Drains(s, 0) && Drains(s, 1);
  }

  // ------------------------------------------------------ tickers no stop can find

  predicate Registered(s: State, t: nat)
    requires t < |s.tickers|
  {
    s.tickers[t].room in s.active && s.active[s.tickers[t].room] == t
  }

  /** The event takes ticker t's entry away: another ticker of the room stores its own, or a
      stop or a leaving goroutine deletes the room's entry. */
  predicate Unregisters(s: State, e: Event, t: nat)
    requires t < |s.tickers|
  {
    var room := s.tickers[t].room;
    match e
    case StartStore(u) => u != t && u < |s.tickers| && s.tickers[u].phase.Created? && s.tickers[u].room == room
    case StopDelete(k) => k < |s.stops| && s.stops[k].cancelled && !s.stops[k].finished && s.stops[k].room == room
    case DeferredDelete(u) => u < |s.tickers| && s.tickers[u].phase.Leaving? && s.tickers[u].room == room
    case _ => false
  }

  /** A step leaves a draining ticker without its entry exactly if it takes the entry of one
      that drains and goes on draining. */
  lemma StepRegistersIff(s: State, e: Event)
    requires DrainsRegistered(s)
    ensures DrainsRegistered(Step(s, e)) <==> forall t: nat | Drains(s, t) && Drains(Step(s, e), t) :: !Unregisters(s, e, t)
  {
    var u := Step(s, e);
    forall t: nat | Drains(u, t) ensures Registered(u, t) <==> !(Drains(s, t) && Unregisters(s, e, t)) {
      StepRegisters(s, e, t);
    }
  }

  lemma StepRegisters(s: State, e: Event, t: nat)
    requires Drains(Step(s, e), t)
    ensures if Drains(s, t) then Registered(Step(s, e), t) <==> Registered(s, t) && !Unregisters(s, e, t)
            else Registered(Step(s, e), t)
  {
  }

  /** Some event of the run took ticker t's entry away while it was draining. */
  predicate LostItsEntry(es: seq<Event>, t: nat) {
    es != []
    && (LostItsEntry(es[..|es| - 1], t)
        || (Drains(Run(es[..|es| - 1]), t) && Unregisters(Run(es[..|es| - 1]), es[|es| - 1], t)))
  }

  lemma {:induction false} NothingLostBeforeDraining(es: seq<Event>, t: nat)
    requires LostItsEntry(es, t)
    ensures t < |Run(es).tickers| && !Run(es).tickers[t].phase.Created?
  {
    var init := es[..|es| - 1];
    if LostItsEntry(init, t) {
      NothingLostBeforeDraining(init, t);
    }
  }

  /** In every run, a draining ticker is the one its room is registered with, so that a stop
      can find it, if and only if its entry was never taken away while it was draining. */
  lemma {:induction false} FindableIff(es: seq<Event>, t: nat)
    requires Drains(Run(es), t)
    ensures Registered(Run(es), t) <==> !LostItsEntry(es, t)
  {
    var init, e := es[..|es| - 1], es[|es| - 1];
    StepRegisters(Run(init), e, t);
    if Drains(Run(init), t) {
      FindableIff(init, t);
    } else if LostItsEntry(init, t) {
      NothingLostBeforeDraining(init, t);
    }
  }

  /** A room that is stopped and started again before the old goroutine has left: the old
      ticker's deferred Delete removes the new ticker's entry, which then drains a room that
      is reported inactive and that no stop can find. */
  lemma RestartBeforeLeave(room: RoomName)
    ensures var started := [StartLoad(room), StartStore(0)];
            var stopped := started + [StopLoad(room), StopCancel(0), StopDelete(0)];
            var s := Run(stopped + [StartLoad(room), StartStore(1)] + [Leave(0), DeferredDelete(0)]);
            Drains(s, 1) && !Registered(s, 1) && !IsRoomActive(s, room) && Step(s, StopLoad(room)) == s
  {
    hide Run;
    var started := [StartLoad(room), StartStore(0)];
    var stopped := started + [StopLoad(room), StopCancel(0), StopDelete(0)];
    NothingYet();
    TwoSteps([], StartLoad(room), StartStore(0));
    assert [] + started == started;
    assert Run(started) == State(map[room := 0], [Ticker(room, Live, false)], []);
    ThreeSteps(started, StopLoad(room), StopCancel(0), StopDelete(0));
    assert Run(stopped) == State(map[], [Ticker(room, Live, true)], [Stop(room, 0, true, true)]);
    TwoSteps(stopped, StartLoad(room), StartStore(1));
    var restarted := stopped + [StartLoad(room), StartStore(1)];
    assert Run(restarted) ==
      State(map[room := 1], [Ticker(room, Live, true), Ticker(room, Live, false)], [Stop(room, 0, true, true)]);
    TwoSteps(restarted, Leave(0), DeferredDelete(0));
  }

  lemma NothingYet()
    ensures Run([]) == INITIAL
  {
  }

  lemma TwoSteps(es: seq<Event>, e: Event, f: Event)
    ensures Run(es + [e, f]) == Step(Step(Run(es), e), f)
  {
    RunSnoc(es, e);
    RunSnoc(es + [e], f);
    assert es + [e] + [f] == es + [e, f];
  }

  lemma ThreeSteps(es: seq<Event>, e: Event, f: Event, g: Event)
    ensures Run(es + [e, f, g]) == Step(Step(Step(Run(es), e), f), g)
  {
    TwoSteps(es, e, f);
    RunSnoc(es + [e, f], g);
    assert es + [e, f] + [g] == es + [e, f, g];
  }
}

// Laws over whole runs of the marketplace: conservation of money, finality of settlement,
// what the balance cache means, and three-minute solvency.
module MarketLaws {
  import opened Common
  import opened Billing
  import opened Wallet
  import opened Ledger
  import opened Marketplace
  import Claim

  predicate Settles(w: World, e: Event) {
    e.Finish? && e.room in w.store.sessions && w.store.sessions[e.room].status == Active
  }

  function PlanOf(w: World, e: Event): Plan
    requires Settles(w, e)
  {
    PlanFor(w.store.sessions[e.room], e.room, e.exhausted, e.now, w.feePercent)
  }

  predicate Deposits(w: World, e: Event) {
    e.DepositCredits? && 0 < e.amount <= MAX_DEPOSIT && e.user in w.store.balances
  }

  lemma SettledMaps(s: Store, p: Plan)
    requires PartiesKnown(s, p.room) && p.session == s.sessions[p.room]
    ensures var t := Refresh(Settled(s, p, ALL_LAND, 5), p.session.client, true);
            var debited := s.balances[p.session.client := s.balances[p.session.client] - p.bill.total];
            && t.balances == debited[p.session.mentor := s.balances[p.session.mentor] + p.bill.earnings]
            && t.cache == s.cache[p.session.client := t.balances[p.session.client]]
            && t.sessions == s.sessions[p.room := p.session.(
                 status := p.status, seconds := p.bill.seconds, summary := Summary(p.bill.total, p.bill.earnings, p.bill.fee))]
  {
  }

  /** A settlement, as updates of the maps it touches. */
  lemma SettlementEffect(w: World, e: Event)
    requires Inv(w) && Settles(w, e)
    ensures var p := PlanOf(w, e);
            var s, t := w.store, Step(w, e).store;
            var debited := s.balances[p.session.client := s.balances[p.session.client] - p.bill.total];
            && t.balances == debited[p.session.mentor := s.balances[p.session.mentor] + p.bill.earnings]
            && t.cache == s.cache[p.session.client := t.balances[p.session.client]]
            && t.sessions == s.sessions[e.room := p.session.(
                 status := p.status, seconds := p.bill.seconds, summary := Summary(p.bill.total, p.bill.earnings, p.bill.fee))]
            && Step(w, e).requests == w.requests
  {
    SettledMaps(w.store, PlanOf(w, e));
  }

  // ---------------------------------------------------------------- conservation

  /** The sum of all deposits that were taken in a run. */
  function Deposited(es: seq<Event>, feePercent: int): int {
    if es == [] then 0
    else
      var init := es[..|es| - 1];
      var e := es[|es| - 1];
      Deposited(init, feePercent) + if Deposits(Run(init, feePercent), e) then e.amount else 0
  }

  function FeeMap(s: Store): map<RoomName, int> {
    map room | room in s.sessions :: s.sessions[room].summary.fee
  }

  /** The platform fees recorded on sessions. */
  ghost function Fees(s: Store): int {
    MapSum(FeeMap(s))
  }

  ghost function Money(s: Store): int {
    MapSum(s.balances) + Fees(s)
  }

  lemma SettlementMovesMoney(w: World, e: Event)
    requires Inv(w) && Settles(w, e)
    ensures Money(Step(w, e).store) == Money(w.store)
  {
    hide MapSum, Settled, FeeMap;
    SettlementEffect(w, e);
    assert RowsRight(w.store, e.room);
    MoneyMoves(w.store, Step(w, e).store, PlanOf(w, e));
  }

  lemma MoneyMoves(s: Store, t: Store, p: Plan)
    requires PartiesKnown(s, p.room) && p.session == s.sessions[p.room] && p.session.summary == NO_SUMMARY
    requires p.bill.total == p.bill.earnings + p.bill.fee
    requires t.balances == s.balances[p.session.client := s.balances[p.session.client] - p.bill.total]
                                     [p.session.mentor := s.balances[p.session.mentor] + p.bill.earnings]
    requires t.sessions == s.sessions[p.room := p.session.(
               status := p.status, seconds := p.bill.seconds, summary := Summary(p.bill.total, p.bill.earnings, p.bill.fee))]
    ensures Money(t) == Money(s)
  {
    var client, mentor := p.session.client, p.session.mentor;
    var debited := s.balances[client := s.balances[client] - p.bill.total];
    MapSumUpdate(s.balances, client, s.balances[client] - p.bill.total);
    MapSumUpdate(debited, mentor, s.balances[mentor] + p.bill.earnings);
    assert FeeMap(t) == FeeMap(s)[p.room := p.bill.fee];
    MapSumUpdate(FeeMap(s), p.room, p.bill.fee);
  }

  lemma FreshSessionIsFree(s: Store, room: RoomName, session: Session)
    requires room !in s.sessions && session.summary == NO_SUMMARY
    ensures Money(s.(sessions := s.sessions[room := session])) == Money(s)
  {
    var t := s.(sessions := s.sessions[room := session]);
    assert FeeMap(t) == FeeMap(s)[room := 0];
    MapSumUpdate(FeeMap(s), room, 0);
  }

  lemma AcceptOpens(w: World, m: Claim.Mentor, id: RequestId, now: int)
    requires WellFormed(w) && CanAccept(w, m, id)
    ensures var session := Session(id, w.requests[id].client, m.id, Claim.RateFor(w.requests[id].maxRate, m), now, Active, 0, NO_SUMMARY);
            && Claim.RoomFor(id) !in w.store.sessions
            && Open(w, m, id, now).store == w.store.(sessions := w.store.sessions[Claim.RoomFor(id) := session])
  {
  }

  lemma AcceptMovesNothing(w: World, m: Claim.Mentor, id: RequestId, now: int)
    requires WellFormed(w)
    ensures Money(Open(w, m, id, now).store) == Money(w.store)
  {
    if CanAccept(w, m, id) {
      AcceptOpens(w, m, id, now);
      FreshSessionIsFree(w.store, Claim.RoomFor(id), Open(w, m, id, now).store.sessions[Claim.RoomFor(id)]);
    }
  }

  lemma OtherStepsMoveMoney(w: World, e: Event)
    requires Inv(w) && !e.Finish? && !e.AcceptSOS?
    ensures Money(Step(w, e).store) == Money(w.store) + if Deposits(w, e) then e.amount else 0
  {
    assert FeeMap(Step(w, e).store) == FeeMap(w.store);
    if e.DepositCredits? && Deposits(w, e) {
      MapSumUpdate(w.store.balances, e.user, w.store.balances[e.user] + e.amount);
    } else if e.Register? {
      MapSumUpdate(w.store.balances, e.user, 0);
    }
  }

  lemma StepMovesMoney(w: World, e: Event)
    requires Inv(w)
    ensures Money(Step(w, e).store) == Money(w.store) + if Deposits(w, e) then e.amount else 0
  {
    if Settles(w, e) {
      SettlementMovesMoney(w, e);
    } else if e.AcceptSOS? {
      AcceptMovesNothing(w, e.mentor, e.id, e.now);
    } else if !e.Finish? {
      OtherStepsMoveMoney(w, e);
    }
  }

  /** In every run, the users' balances and the platform's recorded fees together are
      exactly what was ever deposited. */
  lemma {:induction false} Conservation(es: seq<Event>, feePercent: int)
    ensures Money(Run(es, feePercent).store) == Deposited(es, feePercent)
  {
    if es == [] {
      assert FeeMap(Start(feePercent).store) == map[];
    } else {
      var init := es[..|es| - 1];
      Conservation(init, feePercent);
      RunKeeps(init, feePercent);
      StepMovesMoney(Run(init, feePercent), es[|es| - 1]);
    }
  }

  // ---------------------------------------------------------------- finality

  lemma SettlementTouches(w: World, e: Event, room: RoomName)
    requires Inv(w) && Settles(w, e) && room in w.store.sessions
    ensures room in Step(w, e).store.sessions
    ensures room != e.room ==> Step(w, e).store.sessions[room] == w.store.sessions[room]
    ensures room == e.room ==> Step(w, e).store.sessions[room].status == (if e.exhausted then Exhausted else Completed)
  {
    SettlementEffect(w, e);
  }

  lemma FinalizedStays(w: World, e: Event, room: RoomName)
    requires Inv(w) && room in w.store.sessions
    ensures room in Step(w, e).store.sessions
    ensures w.store.sessions[room].status != Active ==> Step(w, e).store.sessions[room] == w.store.sessions[room]
    ensures Step(w, e).store.sessions[room] != w.store.sessions[room] ==>
              Settles(w, e) && e.room == room
              && Step(w, e).store.sessions[room].status == (if e.exhausted then Exhausted else Completed)
  {
    if Settles(w, e) {
      SettlementTouches(w, e, room);
    } else if e.AcceptSOS? && CanAccept(w, e.mentor, e.id) {
      assert Claim.RoomFor(e.id) !in w.store.sessions;
    }
  }

  lemma RunSplit(es: seq<Event>, more: seq<Event>, feePercent: int)
    requires more != []
    ensures Run(es + more, feePercent) == Step(Run(es + more[..|more| - 1], feePercent), more[|more| - 1])
  {
    assert (es + more)[..|es + more| - 1] == es + more[..|more| - 1];
  }

  /** Once a session has left ACTIVE, no further event of any kind changes its status, its
      financial summary or its two rows: it is settled at most once. */
  lemma {:induction false} SettledOnce(es: seq<Event>, more: seq<Event>, feePercent: int, room: RoomName)
    requires room in Run(es, feePercent).store.sessions && Run(es, feePercent).store.sessions[room].status != Active
    ensures var s, t := Run(es, feePercent).store, Run(es + more, feePercent).store;
            && room in t.sessions && t.sessions[room] == s.sessions[room]
            && Count(t.ledger, room, SessionDebit) == 1 && Count(t.ledger, room, MentorPayout) == 1
            && SessionSum(t.ledger, room) == -s.sessions[room].summary.fee
  {
    RunKeeps(es + more, feePercent);
    if more == [] {
      assert es + more == es;
    } else {
      var init := more[..|more| - 1];
      SettledOnce(es, init, feePercent, room);
      RunKeeps(es + init, feePercent);
      RunSplit(es, more, feePercent);
      FinalizedStays(Run(es + init, feePercent), more[|more| - 1], room);
    }
    assert RowsRight(Run(es + more, feePercent).store, room);
  }

  // ---------------------------------------------------------------- the balance cache

  /** The event writes the stored balance of u into the cache. */
  predicate Caches(w: World, e: Event, u: UserId) {
    || (Deposits(w, e) && e.user == u)
    || (e.CreateSOS? && e.client == u && u in w.store.balances && e.id !in w.requests && w.store.balances[u] >= e.maxRate * 3)
    || (Settles(w, e) && w.store.sessions[e.room].client == u)
  }

  function TickCost(w: World, e: Event, u: UserId): int {
    if e.Tick? && e.room in w.store.sessions && w.store.sessions[e.room].client == u
    then CostPerInterval(w.store.sessions[e.room].rate) else 0
  }

  function Earned(w: World, e: Event, u: UserId): int {
    if Settles(w, e) && w.store.sessions[e.room].mentor == u then PlanOf(w, e).bill.earnings else 0
  }

  /** What ticks took from u's cached balance since it was last written. */
  function Drained(es: seq<Event>, feePercent: int, u: UserId): int {
    if es == [] then 0
    else
      var w := Run(es[..|es| - 1], feePercent);
      var e := es[|es| - 1];
      if Caches(w, e, u) then 0 else Drained(es[..|es| - 1], feePercent, u) + TickCost(w, e, u)
  }

  /** What u earned as a mentor since their cached balance was last written. */
  function Credited(es: seq<Event>, feePercent: int, u: UserId): int {
    if es == [] then 0
    else
      var w := Run(es[..|es| - 1], feePercent);
      var e := es[|es| - 1];
      if Caches(w, e, u) then 0 else Credited(es[..|es| - 1], feePercent, u) + Earned(w, e, u)
  }

  /** How far the stored balance is ahead of the cached one. */
  function Drift(s: Store, u: UserId): int
    requires u in s.cache && u in s.balances
  {
    s.balances[u] - s.cache[u]
  }

  lemma CacheSettles(w: World, e: Event, u: UserId)
    requires Inv(w) && Settles(w, e) && u in Step(w, e).store.cache
    ensures var t := Step(w, e).store;
            && u in t.balances
            && (if Caches(w, e, u) then Drift(t, u) == 0
                else u in w.store.cache && Drift(t, u) == Drift(w.store, u) + Earned(w, e, u))
  {
    SettlementEffect(w, e);
  }

  lemma CacheOthers(w: World, e: Event, u: UserId)
    requires Inv(w) && !e.Finish? && u in Step(w, e).store.cache
    ensures var t := Step(w, e).store;
            && u in t.balances
            && (if Caches(w, e, u) then Drift(t, u) == 0
                else u in w.store.cache && Drift(t, u) == Drift(w.store, u) + TickCost(w, e, u))
  {
  }

  lemma CacheStep(w: World, e: Event, u: UserId)
    requires Inv(w) && u in Step(w, e).store.cache
    ensures var t := Step(w, e).store;
            && u in t.balances
            && (if Caches(w, e, u) then Drift(t, u) == 0
                else u in w.store.cache && Drift(t, u) == Drift(w.store, u) + TickCost(w, e, u) + Earned(w, e, u))
  {
    if Settles(w, e) {
      CacheSettles(w, e, u);
    } else if !e.Finish? {
      CacheOthers(w, e, u);
    }
  }

  /** In every reachable state, a stored balance is the cached one plus what ticks drained
      and what payouts credited since the cache was last written. */
  lemma {:induction false} CacheAccounting(es: seq<Event>, feePercent: int, u: UserId)
    requires u in Run(es, feePercent).store.cache
    ensures var s := Run(es, feePercent).store;
            u in s.balances && s.balances[u] == s.cache[u] + Drained(es, feePercent, u) + Credited(es, feePercent, u)
  {
    if es != [] {
      var init := es[..|es| - 1];
      var w := Run(init, feePercent);
      RunKeeps(init, feePercent);
      CacheStep(w, es[|es| - 1], u);
      if !Caches(w, es[|es| - 1], u) {
        CacheAccounting(init, feePercent, u);
      }
    }
  }

  /** Every request asked for a positive rate. */
  predicate PositiveRates(es: seq<Event>) {
    forall e | e in es :: e.CreateSOS? ==> e.maxRate > 0
  }

  ghost predicate RatesPositive(w: World) {
    && (forall id | id in w.requests :: w.requests[id].maxRate > 0)
    && (forall room | room in w.store.sessions :: w.store.sessions[room].rate > 0)
  }

  lemma StepRatesPositive(w: World, e: Event)
    requires Inv(w) && RatesPositive(w) && (e.CreateSOS? ==> e.maxRate > 0)
    ensures RatesPositive(Step(w, e))
  {
    if Settles(w, e) {
      SettlementEffect(w, e);
    }
  }

  lemma {:induction false} RunRatesPositive(es: seq<Event>, feePercent: int)
    requires PositiveRates(es)
    ensures RatesPositive(Run(es, feePercent))
  {
    if es != [] {
      var init := es[..|es| - 1];
      assert es[|es| - 1] in es;
      RunRatesPositive(init, feePercent);
      RunKeeps(init, feePercent);
      StepRatesPositive(Run(init, feePercent), es[|es| - 1]);
    }
  }

  lemma StepDriftNonNegative(w: World, e: Event, u: UserId)
    requires Inv(w) && RatesPositive(w) && 0 <= w.feePercent <= 100
    ensures TickCost(w, e, u) >= 0 && Earned(w, e, u) >= 0
  {
    if Settles(w, e) {
      var session := w.store.sessions[e.room];
      BillSplits(session.rate, e.now - session.startedAt, w.feePercent);
    }
  }

  lemma {:induction false} DriftNonNegative(es: seq<Event>, feePercent: int, u: UserId)
    requires PositiveRates(es) && 0 <= feePercent <= 100
    ensures Drained(es, feePercent, u) >= 0 && Credited(es, feePercent, u) >= 0
  {
    if es != [] {
      var init := es[..|es| - 1];
      DriftNonNegative(init, feePercent, u);
      RunRatesPositive(init, feePercent);
      RunKeeps(init, feePercent);
      StepDriftNonNegative(Run(init, feePercent), es[|es| - 1], u);
    }
  }

  /** With positive rates the cache never shows more than is stored, and shows exactly what
      is stored when nothing was drained or credited since it was written, and only then. */
  lemma CacheNeverExceeds(es: seq<Event>, feePercent: int, u: UserId)
    requires PositiveRates(es) && 0 <= feePercent <= 100 && u in Run(es, feePercent).store.cache
    ensures var s := Run(es, feePercent).store;
            && u in s.balances && s.cache[u] <= s.balances[u]
            && (s.cache[u] == s.balances[u] <==> Drained(es, feePercent, u) == 0 && Credited(es, feePercent, u) == 0)
  {
    CacheAccounting(es, feePercent, u);
    DriftNonNegative(es, feePercent, u);
  }

  // ---------------------------------------------------------------- solvency

  /** No event of `mid`, played after `es`, settles a session of client u. */
  ghost predicate NoDebit(es: seq<Event>, mid: seq<Event>, feePercent: int, u: UserId) {
    forall i | 0 <= i < |mid| ::
      var w := Run(es + mid[..i], feePercent);
      Settles(w, mid[i]) ==> w.store.sessions[mid[i].room].client != u
  }

  /** Client u can still pay three minutes of request id, whose sessions stay below its rate. */
  ghost predicate Funded(w: World, u: UserId, id: RequestId, maxRate: int) {
    && u in w.store.balances && w.store.balances[u] >= 3 * maxRate
    && id in w.requests && w.requests[id].client == u && w.requests[id].maxRate == maxRate
    && (forall room | room in w.store.sessions && w.store.sessions[room].request == id ::
          w.store.sessions[room].client == u && w.store.sessions[room].rate <= maxRate)
  }

  lemma FundedSettles(w: World, e: Event, u: UserId, id: RequestId, maxRate: int)
    requires Inv(w) && RatesPositive(w) && 0 <= w.feePercent <= 100
    requires Funded(w, u, id, maxRate)
    requires Settles(w, e) && w.store.sessions[e.room].client != u
    ensures Funded(Step(w, e), u, id, maxRate)
  {
    SettlementEffect(w, e);
    var session := w.store.sessions[e.room];
    BillSplits(session.rate, e.now - session.startedAt, w.feePercent);
  }

  lemma FundedStep(w: World, e: Event, u: UserId, id: RequestId, maxRate: int)
    requires Inv(w) && RatesPositive(w) && 0 <= w.feePercent <= 100
    requires Funded(w, u, id, maxRate)
    requires Settles(w, e) ==> w.store.sessions[e.room].client != u
    ensures Funded(Step(w, e), u, id, maxRate)
  {
    if Settles(w, e) {
      FundedSettles(w, e, u, id, maxRate);
    }
  }

  lemma {:induction false} FundedRun(es: seq<Event>, mid: seq<Event>, feePercent: int, u: UserId, id: RequestId, maxRate: int)
    requires PositiveRates(es + mid) && 0 <= feePercent <= 100
    requires Funded(Run(es, feePercent), u, id, maxRate) && NoDebit(es, mid, feePercent, u)
    ensures Funded(Run(es + mid, feePercent), u, id, maxRate)
  {
    if mid == [] {
      assert es + mid == es;
    } else {
      var init := mid[..|mid| - 1];
      assert forall i | 0 <= i < |init| :: init[..i] == mid[..i];
      assert forall e | e in es + init :: e in es + mid;
      FundedRun(es, init, feePercent, u, id, maxRate);
      RunKeeps(es + init, feePercent);
      RunRatesPositive(es + init, feePercent);
      RunSplit(es, mid, feePercent);
      assert mid[..|mid| - 1] == init;
      FundedStep(Run(es + init, feePercent), mid[|mid| - 1], u, id, maxRate);
    }
  }

  lemma FundedFinish(w: World, u: UserId, id: RequestId, maxRate: int, finish: Event)
    requires Inv(w) && RatesPositive(w) && 0 <= w.feePercent <= 100 && maxRate > 0
    requires Funded(w, u, id, maxRate) && Settles(w, finish) && w.store.sessions[finish.room].request == id
    requires finish.now - w.store.sessions[finish.room].startedAt < 181 * NANOS_PER_SECOND
    ensures var t := Step(w, finish).store;
            && u in t.balances && Balance(t, u) >= 0
            && finish.room in t.sessions && t.sessions[finish.room].status != Active
  {
    SettlementEffect(w, finish);
    var session := w.store.sessions[finish.room];
    BillSplits(session.rate, finish.now - session.startedAt, w.feePercent);
  }

  /** The client asked with this request, passed the gate, and was not debited for anything
      else before `finish` settles a session of the request, within 180 whole seconds. */
  ghost predicate ThreeMinuteCase(asked: seq<Event>, mid: seq<Event>, feePercent: int, u: UserId, id: RequestId, finish: Event) {
    && PositiveRates(asked + mid) && id in Run(asked, feePercent).requests && NoDebit(asked, mid, feePercent, u)
    && var w := Run(asked + mid, feePercent);
       && Settles(w, finish) && w.store.sessions[finish.room].request == id
       && finish.now - w.store.sessions[finish.room].startedAt < 181 * NANOS_PER_SECOND
  }

  /** A request that passed the three-minute gate: whatever else happens, as long as the
      client is not debited for another session, a session of this request that is settled
      within 180 whole seconds leaves the client's balance non-negative. */
  lemma ThreeMinutesAreCovered(es: seq<Event>, mid: seq<Event>, feePercent: int, u: UserId, id: RequestId, maxRate: int, finish: Event)
    requires 0 <= feePercent <= 100 && id !in Run(es, feePercent).requests
    requires ThreeMinuteCase(es + [CreateSOS(u, id, maxRate)], mid, feePercent, u, id, finish)
    ensures var t := Step(Run(es + [CreateSOS(u, id, maxRate)] + mid, feePercent), finish).store;
            && u in t.balances && Balance(t, u) >= 0
            && finish.room in t.sessions && t.sessions[finish.room].status != Active
  {
    var ask := CreateSOS(u, id, maxRate);
    var asked := es + [ask];
    assert asked[..|es|] == es;
    RunKeeps(es, feePercent);
    assert ask in asked + mid;
    assert Funded(Run(asked, feePercent), u, id, maxRate);
    FundedRun(asked, mid, feePercent, u, id, maxRate);
    RunKeeps(asked + mid, feePercent);
    RunRatesPositive(asked + mid, feePercent);
    FundedFinish(Run(asked + mid, feePercent), u, id, maxRate, finish);
  }
}

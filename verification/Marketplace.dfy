// The marketplace as a state machine whose operations are each one step and whose
// repositories do not fail: registrations, deposits, requests, acceptances, ticks against
// the cached balance, and settlements, in any order.
module Marketplace {
  import opened Common
  import opened Billing
  import opened Wallet
  import opened Ledger
  import Claim
  import ClaimSafety

  // A purged request stays behind as a tombstone: its id is never issued again.
  datatype Request = Request(client: UserId, maxRate: int, open: bool, purged: bool)

  datatype World = World(store: Store, requests: map<RequestId, Request>, feePercent: int)

  datatype Event =
    | Register(user: UserId)
    | DepositCredits(user: UserId, amount: int)
    | CreateSOS(client: UserId, id: RequestId, maxRate: int)
    | Purge(id: RequestId)
    | AcceptSOS(mentor: Claim.Mentor, id: RequestId, now: int)
    | Tick(room: RoomName)
    | Finish(room: RoomName, exhausted: bool, now: int, transactional: bool)

  const ALL_LAND := Attempt(Landed, Landed, Landed, Landed, Landed, true, true)

  /** Nothing fails; the settlement runs inside a transaction or without one. */
  function NoFaults(transactional: bool): Env {
    Env(true, if transactional then Some(Transaction(ALL_LAND, Landed)) else None, ALL_LAND, true)
  }

  // DECRBY: a missing key counts from zero.
  function DecrBy(cache: map<UserId, int>, u: UserId, amount: int): map<UserId, int> {
    cache[u := (if u in cache then cache[u] else 0) - amount]
  }

  // The three-minute gate, the request, and the cache write.
  function Publish(w: World, client: UserId, id: RequestId, maxRate: int): World {
    if client !in w.store.balances || id in w.requests || w.store.balances[client] < maxRate * 3 then w
    else w.(requests := w.requests[id := Request(client, maxRate, true, false)],
            store := w.store.(cache := w.store.cache[client := w.store.balances[client]]))
  }

  datatype SosError = InsufficientBalance | CreateFailed

  class RequestDesk {
    const wallet: WalletService
    var requests: map<RequestId, Request>

    constructor (wallet: WalletService)
      ensures this.wallet == wallet && requests == map[]
    {
      this.wallet := wallet;
      requests := map[];
    }

    /** CreateSOS works on the client's user as it was read when the call began: it takes the
        gate on that balance and writes it to the cache. When that is still the stored one
        and every write lands, this is the marketplace's step. */
    method CreateSOS(client: UserId, balance: int, id: RequestId, maxRate: int, insert: Reply, cached: bool)
      returns (r: Result<Request, SosError>)
      requires id !in requests
      modifies this`requests, wallet`cache
      ensures var request := Request(client, maxRate, true, false);
              && r == (if balance < maxRate * 3 then Failure(InsufficientBalance)
                       else if !insert.Landed? then Failure(CreateFailed)
                       else Success(request))
              && requests == (if balance < maxRate * 3 || insert.Lost? then old(requests) else old(requests)[id := request])
              && wallet.cache == (if r.Success? && cached then old(wallet.cache)[client := balance] else old(wallet.cache))
      ensures insert.Landed? && cached && client in wallet.balances && wallet.balances[client] == balance ==>
                World(wallet.View(), requests, wallet.platformFeePercent)
                == Publish(World(old(wallet.View()), old(requests), wallet.platformFeePercent), client, id, maxRate)
    {
      if balance < maxRate * 3 {
        return Failure(InsufficientBalance);
      }
      var request := Request(client, maxRate, true, false);
      if !insert.Lost? {
        requests := requests[id := request];
      }
      if !insert.Landed? {
        return Failure(CreateFailed);
      }
      if cached {
        wallet.cache := wallet.cache[client := balance];
      }
      r := Success(request);
    }
  }

  predicate CanAccept(w: World, m: Claim.Mentor, id: RequestId) {
    m.isMentor && m.id in w.store.balances && id in w.requests && w.requests[id].open && !w.requests[id].purged
      && w.requests[id].client != m.id
  }

  function Open(w: World, m: Claim.Mentor, id: RequestId, now: int): World {
    if !CanAccept(w, m, id) then w
    else
      var req := w.requests[id];
      var session := Session(id, req.client, m.id, Claim.RateFor(req.maxRate, m), now, Active, 0, NO_SUMMARY);
      w.(requests := w.requests[id := req.(open := false)],
         store := w.store.(sessions := w.store.sessions[Claim.RoomFor(id) := session]))
  }

  function Drain(w: World, room: RoomName): World {
    if room !in w.store.sessions then w
    else
      var session := w.store.sessions[room];
      w.(store := w.store.(cache := DecrBy(w.store.cache, session.client, CostPerInterval(session.rate))))
  }

  function Finalized(w: World, room: RoomName, exhausted: bool, now: int, transactional: bool): World {
    w.(store := Finalize(w.store, room, exhausted, now, w.feePercent, NoFaults(transactional)).0)
  }

  function Step(w: World, e: Event): World {
    match e
    case Register(u) =>
      if u in w.store.balances then w else w.(store := w.store.(balances := w.store.balances[u := 0]))
    case DepositCredits(u, amount) => w.(store := MakeDeposit(w.store, u, amount, DepositEnv(Landed, true, Landed)).0)
    case CreateSOS(client, id, maxRate) => Publish(w, client, id, maxRate)
    case Purge(id) => if id in w.requests then w.(requests := w.requests[id := w.requests[id].(purged := true)]) else w
    case AcceptSOS(m, id, now) => Open(w, m, id, now)
    case Tick(room) => Drain(w, room)
    case Finish(room, exhausted, now, transactional) => Finalized(w, room, exhausted, now, transactional)
  }

  function Start(feePercent: int): World {
    World(Store(map[], [], map[], map[]), map[], feePercent)
  }

  function Run(es: seq<Event>, feePercent: int): World {
    if es == [] then Start(feePercent) else Step(Run(es[..|es| - 1], feePercent), es[|es| - 1])
  }

  // ---------------------------------------------------------------- the invariant

  ghost predicate WellFormed(w: World) {
    && (forall id | id in w.requests ::
          && w.requests[id].client in w.store.balances && w.requests[id].client in w.store.cache
          && (w.requests[id].open ==> Claim.RoomFor(id) !in w.store.sessions))
    && (forall room | room in w.store.sessions ::
          && PartiesKnown(w.store, room)
          && w.store.sessions[room].client in w.store.cache
          && w.store.sessions[room].request in w.requests
          && room == Claim.RoomFor(w.store.sessions[room].request))
    && (forall u | u in w.store.cache :: u in w.store.balances)
    && (forall u | u !in w.store.balances :: Sum(w.store.ledger, u) == 0)
  }

  /** A finalised session has exactly one debit and one payout row, which sum to minus the
      recorded fee; any other room has none, and no summary. */
  ghost predicate RowsRight(s: Store, room: RoomName) {
    if room in s.sessions && s.sessions[room].status != Active then
      && Count(s.ledger, room, SessionDebit) == 1 && Count(s.ledger, room, MentorPayout) == 1
      && SessionSum(s.ledger, room) == -s.sessions[room].summary.fee
      && s.sessions[room].summary.total == s.sessions[room].summary.earnings + s.sessions[room].summary.fee
    else
      && Count(s.ledger, room, SessionDebit) == 0 && Count(s.ledger, room, MentorPayout) == 0
      && SessionSum(s.ledger, room) == 0
      && (room in s.sessions ==> s.sessions[room].summary == NO_SUMMARY)
  }

  ghost predicate Inv(w: World) {
    && WellFormed(w)
    && Agrees(w.store) && RunningBalance(w.store.ledger)
    && (forall room :: RowsRight(w.store, room))
  }

  lemma RegisterKeeps(w: World, u: UserId)
    requires Inv(w)
    ensures Inv(Step(w, Register(u)))
  {
    forall room ensures RowsRight(Step(w, Register(u)).store, room) {
      assert RowsRight(w.store, room);
    }
  }

  lemma DepositKeeps(w: World, u: UserId, amount: int)
    requires Inv(w)
    ensures Inv(Step(w, DepositCredits(u, amount)))
  {
    var env := DepositEnv(Landed, true, Landed);
    var (t, r) := MakeDeposit(w.store, u, amount, env);
    DepositAgreesIff(w.store, u, amount, env);
    if r.Success? {
      RunningSnocIff(w.store.ledger, r.value);
      forall v ensures Sum(t.ledger, v) == Sum(w.store.ledger, v) + if v == u then amount else 0 {
        Snoc(w.store.ledger, r.value, v, "", Deposit);
      }
      forall room ensures RowsRight(t, room) {
        assert RowsRight(w.store, room);
        Snoc(w.store.ledger, r.value, u, room, SessionDebit);
        Snoc(w.store.ledger, r.value, u, room, MentorPayout);
      }
    }
  }

  lemma RequestsKeep(w: World, e: Event)
    requires Inv(w) && (e.CreateSOS? || e.Purge? || e.Tick?)
    ensures Inv(Step(w, e))
  {
    var t := Step(w, e);
    forall room ensures RowsRight(t.store, room) { assert RowsRight(w.store, room); }
    if e.CreateSOS? && e.id !in w.requests {
      if Claim.RoomFor(e.id) in w.store.sessions {
        ClaimSafety.RoomNamesInjective(w.store.sessions[Claim.RoomFor(e.id)].request, e.id);
      }
    }
  }

  lemma AcceptKeeps(w: World, m: Claim.Mentor, id: RequestId, now: int)
    requires Inv(w)
    ensures Inv(Step(w, AcceptSOS(m, id, now)))
  {
    var t := Open(w, m, id, now);
    forall room ensures RowsRight(t.store, room) { assert RowsRight(w.store, room); }
    forall i | i in t.requests && t.requests[i].open ensures Claim.RoomFor(i) !in t.store.sessions {
      ClaimSafety.RoomNamesInjective(i, id);
    }
  }

  /** What a settlement without faults does to the store. */
  lemma FinishSettles(w: World, room: RoomName, exhausted: bool, now: int, transactional: bool)
    requires WellFormed(w) && room in w.store.sessions && w.store.sessions[room].status == Active
    ensures var p := PlanFor(w.store.sessions[room], room, exhausted, now, w.feePercent);
            var t := Finalized(w, room, exhausted, now, transactional).store;
            && FullSettlement(w.store, t, p, ALL_LAND)
            && t == Refresh(Settled(w.store, p, ALL_LAND, 5), p.session.client, true)
  {
    FinalizeOutcome(w.store, room, exhausted, now, w.feePercent, NoFaults(transactional));
  }

  lemma FinishAgrees(w: World, p: Plan)
    requires Inv(w) && p.room in w.store.sessions && p.session == w.store.sessions[p.room]
    ensures var t := Settled(w.store, p, ALL_LAND, 5);
            Agrees(t) && forall u | u !in t.balances :: Sum(t.ledger, u) == 0
  {
  }

  /** The client's row is written first, with the mentor's credit already in place: that is
      harmless because the parties differ. */
  lemma FinishRunning(w: World, p: Plan)
    requires Inv(w) && p.room in w.store.sessions && p.session == w.store.sessions[p.room]
    ensures RunningBalance(Settled(w.store, p, ALL_LAND, 5).ledger)
  {
    var s := w.store;
    var s2 := Settled(s, p, ALL_LAND, 2);
    var debit, payout := Debit(s2, p, ALL_LAND), Payout(s2, p, ALL_LAND);
    assert s2.ledger == s.ledger;
    RunningSnocIff(s.ledger, debit);
    Snoc(s.ledger, debit, payout.user, "", SessionDebit);
    RunningSnocIff(s.ledger + [debit], payout);
  }

  lemma FinishKeepsRows(w: World, p: Plan, t: Store)
    requires Inv(w) && p.room in w.store.sessions && w.store.sessions[p.room].status == Active
    requires p.session == w.store.sessions[p.room] && p.status != Active && p.bill.total == p.bill.earnings + p.bill.fee
    requires FullSettlement(w.store, t, p, ALL_LAND)
    ensures forall room :: RowsRight(t, room)
  {
    var s := w.store;
    var debit, payout := t.ledger[|s.ledger|], t.ledger[|s.ledger| + 1];
    assert t.ledger == s.ledger + [debit] + [payout];
    forall room ensures RowsRight(t, room) {
      assert RowsRight(s, room);
      Snoc(s.ledger, debit, "", room, SessionDebit);
      Snoc(s.ledger, debit, "", room, MentorPayout);
      Snoc(s.ledger + [debit], payout, "", room, SessionDebit);
      Snoc(s.ledger + [debit], payout, "", room, MentorPayout);
    }
  }

  lemma FinishKeeps(w: World, room: RoomName, exhausted: bool, now: int, transactional: bool)
    requires Inv(w)
    ensures Inv(Finalized(w, room, exhausted, now, transactional))
  {
    if room in w.store.sessions && w.store.sessions[room].status == Active {
      var p := PlanFor(w.store.sessions[room], room, exhausted, now, w.feePercent);
      FinishSettles(w, room, exhausted, now, transactional);
      FinishAgrees(w, p);
      FinishRunning(w, p);
      FinishKeepsRows(w, p, Finalized(w, room, exhausted, now, transactional).store);
      FinishKeepsShape(w, room, exhausted, now, transactional);
    }
  }

  lemma FinishKeepsShape(w: World, room: RoomName, exhausted: bool, now: int, transactional: bool)
    requires WellFormed(w) && room in w.store.sessions && w.store.sessions[room].status == Active
    ensures var t := Finalized(w, room, exhausted, now, transactional);
            (forall u | u !in t.store.balances :: Sum(t.store.ledger, u) == 0) ==> WellFormed(t)
  {
    FinishSettles(w, room, exhausted, now, transactional);
  }

  lemma StepKeeps(w: World, e: Event)
    requires Inv(w)
    ensures Inv(Step(w, e)) && Step(w, e).feePercent == w.feePercent
  {
    match e
    case Register(u) => RegisterKeeps(w, u);
    case DepositCredits(u, amount) => DepositKeeps(w, u, amount);
    case AcceptSOS(m, id, now) => AcceptKeeps(w, m, id, now);
    case Finish(room, exhausted, now, transactional) => FinishKeeps(w, room, exhausted, now, transactional);
    case _ => RequestsKeep(w, e);
  }

  /** In every run: balances equal ledger sums, every row's running balance is the prefix sum
      of its user's rows, and each finalised session has exactly its two rows. */
  lemma {:induction false} RunKeeps(es: seq<Event>, feePercent: int)
    ensures Inv(Run(es, feePercent)) && Run(es, feePercent).feePercent == feePercent
  {
    if es != [] {
      RunKeeps(es[..|es| - 1], feePercent);
      StepKeeps(Run(es[..|es| - 1], feePercent), es[|es| - 1]);
    }
  }
}

// The billing goroutine of one room: a loop that drains the cached balance every five
// seconds until it is cancelled or the balance runs out, and then settles the session.
module Ticker {
  import opened Common
  import opened Billing
  import opened Wallet
  import Marketplace

  // What the loop's select picks up: the context was cancelled (by a stop, or because the
  // request that started the ticker ended), or a tick arrived and its decrement was answered,
  // landed although its answer was lost, or never landed.
  datatype Signal = Cancelled | Fired(reply: Reply)
  {
    predicate Drains() { Fired? && !reply.Lost? }
    predicate Answered() { Fired? && reply.Landed? }
  }

  predicate AllAnswered(signals: seq<Signal>) {
    forall i | 0 <= i < |signals| :: signals[i].Answered()
  }

  datatype Ending = StillRunning | Stopped | RanOut

  datatype Drained = Drained(ending: Ending, balance: int, used: nat)

  /** What the loop does with a signal that does not end it. */
  function AfterOne(balance: int, cost: int, signal: Signal): int {
    if signal.Drains() then balance - cost else balance
  }

  predicate GoesOn(balance: int, cost: int, signal: Signal) {
    signal.Fired? && (signal.Answered() ==> balance - cost > 0)
  }

  /** The loop from a cached balance: how it ends, what is left, how many signals it took. */
  function Drain(balance: int, cost: int, signals: seq<Signal>): (d: Drained)
    ensures d.used <= |signals|
    decreases |signals|
  {
    if signals == [] then Drained(StillRunning, balance, 0)
    else if signals[0].Cancelled? then Drained(Stopped, balance, 1)
    else if !GoesOn(balance, cost, signals[0]) then Drained(RanOut, balance - cost, 1)
    else
      var d := Drain(AfterOne(balance, cost, signals[0]), cost, signals[1..]);
      d.(used := d.used + 1)
  }

  /** The ticks whose decrement landed. */
  function Taken(signals: seq<Signal>): nat {
    if signals == [] then 0
    else Taken(signals[..|signals| - 1]) + if signals[|signals| - 1].Drains() then 1 else 0
  }

  lemma {:induction false} TakenCons(signal: Signal, signals: seq<Signal>)
    ensures Taken([signal] + signals) == Taken(signals) + if signal.Drains() then 1 else 0
  {
    if signals == [] {
      assert [signal] + signals == [signal];
      assert Taken([signal]) == Taken([signal][..0]) + if signal.Drains() then 1 else 0;
    } else {
      var all := [signal] + signals;
      TakenCons(signal, signals[..|signals| - 1]);
      assert all[..|all| - 1] == [signal] + signals[..|signals| - 1];
    }
  }

  lemma TakenFirst(signals: seq<Signal>, i: nat)
    requires i < |signals|
    ensures Taken(signals[..i + 1]) == Taken(signals[1..][..i]) + if signals[0].Drains() then 1 else 0
  {
    TakenCons(signals[0], signals[1..][..i]);
    assert signals[..i + 1] == [signals[0]] + signals[1..][..i];
  }

  lemma OneMore(cost: int, n: int)
    ensures cost * (n + 1) == cost * n + cost
  {
  }

  /** Every decrement that landed, and nothing else, takes one interval's cost. */
  lemma {:induction false} DrainSpends(balance: int, cost: int, signals: seq<Signal>)
    ensures var d := Drain(balance, cost, signals);
            d.balance == balance - cost * Taken(signals[..d.used])
    decreases |signals|
  {
    var d := Drain(balance, cost, signals);
    if signals == [] {
      assert signals[..d.used] == [];
    } else if !GoesOn(balance, cost, signals[0]) {
      TakenFirst(signals, 0);
      assert Taken(signals[1..][..0]) == 0;
    } else {
      var next := AfterOne(balance, cost, signals[0]);
      var rest := Drain(next, cost, signals[1..]);
      DrainSpends(next, cost, signals[1..]);
      TakenFirst(signals, rest.used);
      OneMore(cost, Taken(signals[1..][..rest.used]));
    }
  }

  /** How the loop ends: exactly at a cancellation, or at an answered tick that leaves
      nothing; no answered tick before that did. */
  lemma {:induction false} DrainEnds(balance: int, cost: int, signals: seq<Signal>)
    ensures var d := Drain(balance, cost, signals);
            && (d.ending == StillRunning ==> d.used == |signals|)
            && (d.ending == Stopped <==> d.used > 0 && signals[d.used - 1].Cancelled?)
            && (d.ending == RanOut ==> d.used > 0 && signals[d.used - 1].Answered() && d.balance <= 0)
    ensures forall i | 0 <= i < Before(balance, cost, signals) && signals[i].Answered() :: balance - cost * Taken(signals[..i + 1]) > 0
    decreases |signals|
  {
    if signals != [] && GoesOn(balance, cost, signals[0]) {
      var next := AfterOne(balance, cost, signals[0]);
      var rest := Drain(next, cost, signals[1..]);
      DrainEnds(next, cost, signals[1..]);
      if rest.used > 0 {
        assert signals[rest.used] == signals[1..][rest.used - 1];
      }
      forall i | 0 <= i < Before(balance, cost, signals) && signals[i].Answered() ensures balance - cost * Taken(signals[..i + 1]) > 0 {
        TakenFirst(signals, i);
        if i == 0 {
          assert Taken(signals[1..][..0]) == 0;
        } else {
          assert signals[1..][i - 1] == signals[i] && signals[1..][..i - 1 + 1] == signals[1..][..i];
          OneMore(cost, Taken(signals[1..][..i]));
        }
      }
    }
  }

  /** The signals that do not exhaust the balance. */
  function Before(balance: int, cost: int, signals: seq<Signal>): nat {
    var d := Drain(balance, cost, signals);
    if d.ending == RanOut && d.used > 0 then d.used - 1 else d.used
  }

  predicate LosesAnswer(signal: Signal) {
    signal.Drains() && !signal.Answered()
  }

  function LostAnswers(signals: seq<Signal>): nat {
    if signals == [] then 0 else LostAnswers(signals[1..]) + if LosesAnswer(signals[0]) then 1 else 0
  }

  /** A balance that starts positive is overdrawn by less than one interval's cost, and by
      one more for each decrement that landed unanswered. */
  lemma {:induction false} OverdrawnByLess(balance: int, cost: int, signals: seq<Signal>)
    requires cost >= 1
    ensures Drain(balance, cost, signals).balance >= (if balance < 1 then balance else 1) - cost * (1 + LostAnswers(signals))
    decreases |signals|
  {
    MulMono(cost, 1, 1 + LostAnswers(signals));
    if signals != [] && GoesOn(balance, cost, signals[0]) {
      OverdrawnByLess(AfterOne(balance, cost, signals[0]), cost, signals[1..]);
      OneMore(cost, 1 + LostAnswers(signals[1..]));
    }
  }

  /** The number of decrements that exhausts a balance is ceil(B / cost). */
  lemma CeilingIff(balance: int, cost: int, n: int, k: int)
    requires cost >= 1 && (n - 1) * cost < balance <= n * cost
    ensures balance - cost * k <= 0 <==> k >= n
  {
    if k >= n {
      MulMono(cost, n, k);
    } else {
      MulMono(cost, k, n - 1);
    }
  }

  /** The tick at i was answered when at least n decrements had landed. */
  predicate Exhausts(signals: seq<Signal>, i: nat, n: int)
    requires i < |signals|
  {
    signals[i].Answered() && Taken(signals[..i + 1]) >= n
  }

  /** The loop runs out at the first answered tick by which ceil(B / cost) decrements have
      landed, and at no other. */
  lemma RanOutAtCeiling(balance: int, cost: int, signals: seq<Signal>, n: int)
    requires cost >= 1 && (n - 1) * cost < balance <= n * cost
    ensures var d := Drain(balance, cost, signals);
            && (d.ending == RanOut ==> d.used > 0 && Exhausts(signals, d.used - 1, n))
            && (forall i | 0 <= i < Before(balance, cost, signals) :: !Exhausts(signals, i, n))
  {
    hide Drain, Taken;
    var d := Drain(balance, cost, signals);
    DrainSpends(balance, cost, signals);
    DrainEnds(balance, cost, signals);
    CeilingIff(balance, cost, n, Taken(signals[..d.used]));
    forall i | 0 <= i < Before(balance, cost, signals) ensures !Exhausts(signals, i, n) {
      CeilingIff(balance, cost, n, Taken(signals[..i + 1]));
    }
  }

  /** An uncancelled ticker exhausts a balance B if and only if some tick is answered after
      ceil(B / cost) decrements; if every tick is answered, it is the tick of that number. */
  lemma ExhaustedAtCeiling(balance: int, cost: int, signals: seq<Signal>, n: int)
    requires cost >= 1 && balance > 0 && (n - 1) * cost < balance <= n * cost
    requires forall i | 0 <= i < |signals| :: signals[i].Fired?
    ensures var d := Drain(balance, cost, signals);
            && (d.ending == RanOut <==> exists i :: 0 <= i < |signals| && Exhausts(signals, i, n))
            && (AllAnswered(signals) && |signals| >= n ==> d.ending == RanOut && d.used == n)
  {
    hide Drain, Taken;
    var d := Drain(balance, cost, signals);
    RanOutAtCeiling(balance, cost, signals, n);
    DrainEnds(balance, cost, signals);
    if AllAnswered(signals) && |signals| >= n {
      CeilingIff(balance, cost, n, 0);
      AllTaken(signals[..n]);
      assert Exhausts(signals, n - 1, n);
      AllTaken(signals[..d.used]);
    }
  }

  lemma {:induction false} AllTaken(signals: seq<Signal>)
    requires AllAnswered(signals)
    ensures Taken(signals) == |signals|
  {
    if signals != [] {
      AllTaken(signals[..|signals| - 1]);
    }
  }

  // ------------------------------------------------------------ drained versus charged

  /** An exhausted balance lies between n - 1 and n intervals' costs. */
  lemma RanOutAfter(balance: int, cost: int, signals: seq<Signal>)
    requires cost >= 1 && balance > 0 && AllAnswered(signals) && Drain(balance, cost, signals).ending == RanOut
    ensures var n := Drain(balance, cost, signals).used;
            n >= 1 && (n - 1) * cost < balance <= n * cost
  {
    hide Drain, Taken;
    var n := Drain(balance, cost, signals).used;
    DrainSpends(balance, cost, signals);
    DrainEnds(balance, cost, signals);
    AllTaken(signals[..n]);
    if n >= 2 {
      AllTaken(signals[..n - 1]);
      assert signals[n - 2].Answered() && signals[..n - 2 + 1] == signals[..n - 1];
    }
  }

  /** What a settlement takes from the client: the charge, once more if the transaction was
      committed behind the service's back. */
  lemma SettlementCharges(s: Store, room: RoomName, exhausted: bool, now: int, feePercent: int, env: Env)
    requires PartiesKnown(s, room) && s.sessions[room].status == Active
    requires Finalize(s, room, exhausted, now, feePercent, env).1 == Ok
    ensures var session := s.sessions[room];
            var t := Finalize(s, room, exhausted, now, feePercent, env).0;
            var charge := Charge(session.rate, BilledSeconds(now - session.startedAt));
            && room in t.sessions
            && Balance(t, session.client) == s.balances[session.client] - charge - (if CommitsUnseen(env) then charge else 0)
            && t.sessions[room].status == (if exhausted then Exhausted else Completed)
  {
    hide Finalize, Settled, Charge, BilledSeconds, Attempt.Written, Attempt.Acknowledged;
    FinalizeOutcome(s, room, exhausted, now, feePercent, env);
    WrittenBounds(env.fallback);
  }

  lemma LookedUp(s: Store, room: RoomName, exhausted: bool, now: int, feePercent: int, env: Env)
    requires Finalize(s, room, exhausted, now, feePercent, env).1 == Ok
    ensures env.lookup
  {
    hide Settled;
  }

  // The premises of an undisturbed exhaustion: the cached balance started equal to the
  // stored one and positive, and every tick was answered, up to the one that left nothing.
  predicate Undisturbed(s: Store, room: RoomName, signals: seq<Signal>) {
    && PartiesKnown(s, room) && s.sessions[room].status == Active && s.sessions[room].rate >= 12
    && s.sessions[room].client in s.cache
    && s.cache[s.sessions[room].client] == s.balances[s.sessions[room].client] > 0
    && AllAnswered(signals)
    && DrainOf(s, s.sessions[room].client, s.sessions[room].rate, signals).ending == RanOut
  }

  /** What exhaustion costs, from the store before the first tick to the store that the
      billing goroutine leaves: when the session is settled after the n ticks, five seconds
      apart, that exhausted the cached balance, the stored balance ends in the interval
      (-(r + 11n/12), 0], less what the session costs for lasting longer than its ticks, and
      less a second charge after a commit that went through unseen; and the refreshed cache
      shows it. */
  lemma ExhaustionSettles(s: Store, room: RoomName, signals: seq<Signal>, n: nat, now: int, feePercent: int, env: Env)
    requires Undisturbed(s, room, signals) && n == DrainOf(s, s.sessions[room].client, s.sessions[room].rate, signals).used
    requires now >= s.sessions[room].startedAt + TICK_SECONDS * n * NANOS_PER_SECOND
    requires var drained := AfterDrain(s, s.sessions[room].client, s.sessions[room].rate, signals);
             Finalize(drained, room, true, now, feePercent, env).1 == Ok
    ensures var session := s.sessions[room];
            var t := Finalize(AfterDrain(s, session.client, session.rate, signals), room, true, now, feePercent, env).0;
            var charge := Charge(session.rate, BilledSeconds(now - session.startedAt));
            var longer := charge - Charge(session.rate, 5 * n);
            var again := if CommitsUnseen(env) then charge else 0;
            && room in t.sessions && t.sessions[room].status == Exhausted && longer >= 0
            && Balance(t, session.client) + again <= -longer
            && 12 * (Balance(t, session.client) + again + longer) > -(12 * session.rate + 11 * n)
            && (env.refresh ==> session.client in t.cache && t.cache[session.client] == Balance(t, session.client))
  {
    hide Charge, BilledSeconds, Finalize, Drain;
    var session := s.sessions[room];
    RanOutAfter(s.cache[session.client], CostPerInterval(session.rate), signals);
    var drained := AfterDrain(s, session.client, session.rate, signals);
    SettlementCharges(drained, room, true, now, feePercent, env);
    LookedUp(drained, room, true, now, feePercent, env);
    CacheAfterFinalize(drained, room, true, now, feePercent, env);
    LastsLonger(session.rate, n, now - session.startedAt);
    ExhaustedSettlement(session.rate, s.balances[session.client], n);
  }

  lemma LastsLonger(rate: int, n: nat, elapsed: int)
    requires rate >= 0 && n >= 1 && elapsed >= TICK_SECONDS * n * NANOS_PER_SECOND
    ensures Charge(rate, 5 * n) <= Charge(rate, BilledSeconds(elapsed))
  {
    var seconds := BilledSeconds(elapsed);
    assert 5 * n <= seconds;
    MulMono(rate, Minutes(5 * n), Minutes(seconds));
  }

  // ------------------------------------------------------------ the goroutine

  /** The store after the loop's decrements: at most one cache key has changed. */
  function AfterDrain(s: Store, client: UserId, rate: int, signals: seq<Signal>): Store {
    var before := if client in s.cache then s.cache[client] else 0;
    var left := Drain(before, CostPerInterval(rate), signals).balance;
    if left == before then s else s.(cache := s.cache[client := left])
  }

  function DrainOf(s: Store, client: UserId, rate: int, signals: seq<Signal>): Drained {
    Drain(if client in s.cache then s.cache[client] else 0, CostPerInterval(rate), signals)
  }

  /** What the drain leaves in the cache: the client's balance less one interval's cost for
      every decrement that landed, a missing one counting from zero, and the rest as it was. */
  lemma DrainedCache(s: Store, client: UserId, rate: int, signals: seq<Signal>)
    ensures var t, n := AfterDrain(s, client, rate, signals), Taken(signals[..DrainOf(s, client, rate, signals).used]);
            && t == s.(cache := t.cache)
            && (n == 0 ==> t == s)
            && (n > 0 ==>
                  && t.cache.Keys == s.cache.Keys + {client}
                  && t.cache[client] == (if client in s.cache then s.cache[client] else 0) - CostPerInterval(rate) * n
                  && forall u | u in s.cache && u != client :: t.cache[u] == s.cache[u])
  {
    hide Drain, Taken, CostPerInterval;
    var before := if client in s.cache then s.cache[client] else 0;
    var n := Taken(signals[..DrainOf(s, client, rate, signals).used]);
    DrainSpends(before, CostPerInterval(rate), signals);
    CostOfTick(rate);
    if n > 0 {
      CostIsPositive(rate);
      MulMono(CostPerInterval(rate), 1, n);
    }
  }

  lemma CostIsPositive(rate: int)
    ensures CostPerInterval(rate) >= 1
  {
  }

  /** DECRBY; None is an error reply. */
  method DecrByBalance(wallet: WalletService, client: UserId, amount: int, reply: Reply) returns (balance: Option<int>)
    modifies wallet`cache
    ensures wallet.cache == if reply.Lost? then old(wallet.cache) else Marketplace.DecrBy(old(wallet.cache), client, amount)
    ensures balance == if reply.Landed? then Some(wallet.cache[client]) else None
  {
    if !reply.Lost? {
      wallet.cache := wallet.cache[client := (if client in wallet.cache then wallet.cache[client] else 0) - amount];
    }
    balance := if reply.Landed? then Some(wallet.cache[client]) else None;
  }

  function Later(d: Drained, n: nat): Drained {
    d.(used := d.used + n)
  }

  lemma DrainNext(left: int, cost: int, signals: seq<Signal>, i: nat)
    requires i < |signals|
    ensures var d := Drain(left, cost, signals[i..]);
            if signals[i].Cancelled? then d == Drained(Stopped, left, 1)
            else if !GoesOn(left, cost, signals[i]) then d == Drained(RanOut, left - cost, 1)
            else d == Later(Drain(AfterOne(left, cost, signals[i]), cost, signals[i + 1..]), 1)
  {
  }

  lemma NoMoreSignals(left: int, cost: int, signals: seq<Signal>)
    requires signals == []
    ensures Drain(left, cost, signals) == Drained(StillRunning, left, 0)
  {
  }

  lemma DrainFrom(left: int, cost: int, signals: seq<Signal>)
    ensures Drain(left, cost, signals) == Later(Drain(left, cost, signals[0..]), 0)
  {
    assert signals[0..] == signals;
  }

  /** The select loop: it ends as Drain says and leaves the cache as Drain says. */
  method DrainLoop(wallet: WalletService, client: UserId, rate: int, signals: seq<Signal>) returns (ending: Ending)
    modifies wallet`cache
    ensures ending == DrainOf(old(wallet.View()), client, rate, signals).ending
    ensures wallet.View() == AfterDrain(old(wallet.View()), client, rate, signals)
  {
    hide Drain;
    var cost := Truncate(rate, 12);
    if cost < 1 {
      cost := 1;
    }
    var i := 0;
    ghost var cache0 := wallet.cache;
    ghost var before := if client in cache0 then cache0[client] else 0;
    ghost var left := before;
    DrainFrom(before, cost, signals);
    while i < |signals|
      invariant 0 <= i <= |signals| && cost == CostPerInterval(rate) && left <= before
      invariant wallet.cache == if left == before then cache0 else cache0[client := left]
      invariant Drain(before, cost, signals) == Later(Drain(left, cost, signals[i..]), i)
    {
      DrainNext(left, cost, signals, i);
      if signals[i].Cancelled? {
        return Stopped;
      }
      left := AfterOne(left, cost, signals[i]);
      var balance := DecrByBalance(wallet, client, cost, signals[i].reply);
      assert wallet.cache == if left == before then cache0 else cache0[client := left];
      if balance.Some? && balance.value <= 0 {
        return RanOut;
      }
      i := i + 1;
    }
    NoMoreSignals(left, cost, signals[i..]);
    ending := StillRunning;
  }

  /** The goroutine: on exhaustion it settles the session before it ends. */
  method BillingLoop(wallet: WalletService, room: RoomName, client: UserId, rate: int, signals: seq<Signal>, now: int, env: Env)
    returns (ending: Ending)
    modifies wallet
    ensures ending == DrainOf(old(wallet.View()), client, rate, signals).ending
    ensures var drained := AfterDrain(old(wallet.View()), client, rate, signals);
            wallet.View() ==
              if ending == RanOut then Finalize(drained, room, true, now, wallet.platformFeePercent, env).0 else drained
  {
    ending := DrainLoop(wallet, client, rate, signals);
    if ending == RanOut {
      var _ := wallet.FinalizeRoomSession(room, true, now, env);
    }
  }
}

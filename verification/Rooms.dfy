// What ends a room: a participant, the media server's room_finished event, or exhaustion.
// Each of them stops the room's ticker and finalises its session.
module Rooms {
  import opened Common
  import opened Billing
  import opened Ledger
  import opened Wallet

  datatype ActiveSession = ActiveSession(client: UserId, rate: int)

  datatype EndResult = Ended | SessionMissing | Forbidden | SettlementError

  class RoomHandlers {
    const wallet: WalletService
    var activeRooms: map<RoomName, ActiveSession>

    constructor (wallet: WalletService)
      ensures this.wallet == wallet && activeRooms == map[]
    {
      this.wallet := wallet;
      activeRooms := map[];
    }

    method StartBillingTicker(room: RoomName, client: UserId, rate: int) returns (started: bool)
      modifies this`activeRooms
      ensures started <==> room !in old(activeRooms)
      ensures activeRooms == if started then old(activeRooms)[room := ActiveSession(client, rate)] else old(activeRooms)
    {
      if room in activeRooms {
        return false;
      }
      activeRooms := activeRooms[room := ActiveSession(client, rate)];
      started := true;
    }

    method StopBillingTicker(room: RoomName)
      modifies this`activeRooms
      ensures activeRooms == old(activeRooms) - {room}
    {
      if room in activeRooms {
        activeRooms := activeRooms - {room};
      }
    }

    /** Joining starts a ticker for an ACTIVE session, at the session's rate and against its
        client's balance, unless the room has one. */
    method ParticipantJoined(room: RoomName, lookup: bool)
      modifies this`activeRooms
      ensures var s := wallet.sessions;
              activeRooms ==
                if lookup && room in s && s[room].status == Active && room !in old(activeRooms)
                then old(activeRooms)[room := ActiveSession(s[room].client, s[room].rate)] else old(activeRooms)
    {
      if lookup && room in wallet.sessions {
        var session := wallet.sessions[room];
        if session.status == Active {
          var _ := StartBillingTicker(room, session.client, session.rate);
        }
      }
    }

    /** room_finished: the settlement's error is dropped, its effect is not. */
    method RoomFinished(room: RoomName, now: int, env: Env)
      modifies this`activeRooms, wallet
      ensures activeRooms == old(activeRooms) - {room}
      ensures wallet.View() == Finalize(old(wallet.View()), room, false, now, wallet.platformFeePercent, env).0
    {
      StopBillingTicker(room);
      var _ := wallet.FinalizeRoomSession(room, false, now, env);
    }

    /** A participant or an admin ends the session; anybody else changes nothing. A lookup
        that fails counts as a session that does not exist. */
    method EndSession(room: RoomName, user: UserId, admin: bool, found: bool, now: int, env: Env) returns (r: EndResult)
      modifies this`activeRooms, wallet
      ensures r == SessionMissing <==> !found || room !in old(wallet.sessions)
      ensures r == Forbidden <==>
                found && room in old(wallet.sessions) && !admin
                && user != old(wallet.sessions)[room].client && user != old(wallet.sessions)[room].mentor
      ensures r == SessionMissing || r == Forbidden ==>
                activeRooms == old(activeRooms) && wallet.View() == old(wallet.View())
      ensures r == Ended || r == SettlementError ==>
                var (t, done) := Finalize(old(wallet.View()), room, false, now, wallet.platformFeePercent, env);
                activeRooms == old(activeRooms) - {room} && wallet.View() == t && (r == Ended <==> done == Ok)
    {
      if !found || room !in wallet.sessions {
        return SessionMissing;
      }
      var session := wallet.sessions[room];
      if session.client != user && session.mentor != user && !admin {
        return Forbidden;
      }
      StopBillingTicker(room);
      var done := wallet.FinalizeRoomSession(room, false, now, env);
      r := if done == Ok then Ended else SettlementError;
    }
  }

  // ------------------------------------------------------------------ racing ends

  // One finalisation, whatever brought it about and however its calls go.
  datatype End = End(exhausted: bool, now: int, env: Env)

  function AfterEnds(s: Store, room: RoomName, ends: seq<End>, feePercent: int): Store {
    if ends == [] then s
    else
      var e := ends[|ends| - 1];
      Finalize(AfterEnds(s, room, ends[..|ends| - 1], feePercent), room, e.exhausted, e.now, feePercent, e.env).0
  }

  /** In how many passes of an end that finds the session ACTIVE write number k lands: once
      in a transaction that persists, once in a fallback that gets that far. */
  function Passes(e: End, k: nat): nat {
    if !e.env.lookup then 0
    else (if Persists(e.env) then 1 else 0) + if !Commits(e.env) && e.env.fallback.Written() >= k then 1 else 0
  }

  predicate Finishes(e: End) {
    Passes(e, 5) > 0
  }

  /** None of the ends completes the session. */
  predicate StillActive(ends: seq<End>) {
    ends == [] || (StillActive(ends[..|ends| - 1]) && !Finishes(ends[|ends| - 1]))
  }

  /** How often write number k lands in the course of all ends. */
  function Landings(ends: seq<End>, k: nat): nat {
    if ends == [] then 0
    else
      var init := ends[..|ends| - 1];
      Landings(init, k) + if StillActive(init) then Passes(ends[|ends| - 1], k) else 0
  }

  function BillOf(session: Session, e: End, feePercent: int): Bill {
    BillFor(session.rate, e.now - session.startedAt, feePercent)
  }

  /** What the ends take from the client. */
  function Taken(session: Session, ends: seq<End>, feePercent: int): int {
    if ends == [] then 0
    else
      var init, e := ends[..|ends| - 1], ends[|ends| - 1];
      Taken(session, init, feePercent) + if StillActive(init) then Passes(e, 1) * BillOf(session, e, feePercent).total else 0
  }

  /** What they give to the mentor. */
  function Given(session: Session, ends: seq<End>, feePercent: int): int {
    if ends == [] then 0
    else
      var init, e := ends[..|ends| - 1], ends[|ends| - 1];
      Given(session, init, feePercent) + if StillActive(init) then Passes(e, 2) * BillOf(session, e, feePercent).earnings else 0
  }

  predicate SameSession(a: Session, b: Session) {
    a.client == b.client && a.mentor == b.mentor && a.rate == b.rate && a.startedAt == b.startedAt
  }

  // How often each of the first four writes landed between two stores.
  datatype Tally = Tally(debit: nat, credit: nat, debitRow: nat, payoutRow: nat)

  ghost predicate Moved(s: Store, t: Store, p: Plan, n: Tally) {
    && Settleable(s, p) && Settleable(t, p) && SameSession(s.sessions[p.room], t.sessions[p.room])
    && Balance(t, p.session.client) == Balance(s, p.session.client) - n.debit * p.bill.total
    && Balance(t, p.session.mentor) == Balance(s, p.session.mentor) + n.credit * p.bill.earnings
    && Count(t.ledger, p.room, SessionDebit) == Count(s.ledger, p.room, SessionDebit) + n.debitRow
    && Count(t.ledger, p.room, MentorPayout) == Count(s.ledger, p.room, MentorPayout) + n.payoutRow
  }

  function Bit(b: bool): nat { if b then 1 else 0 }

  lemma ByBit(b: bool, x: int)
    ensures Bit(b) * x == if b then x else 0
  {
  }

  function PassTally(k: nat): Tally {
    Tally(Bit(k >= 1), Bit(k >= 2), Bit(k >= 3), Bit(k >= 4))
  }

  lemma PassMoves(s: Store, p: Plan, a: Attempt, k: nat)
    requires Settleable(s, p)
    ensures Moved(s, Settled(s, p, a, k), p, PassTally(k))
  {
    hide Settled, Sum, Count;
    SettledSums(s, p, a, k, p.session.client);
    SettledSums(s, p, a, k, p.session.mentor);
    SettledRows(s, p, a, k);
    SettledFrame(s, p, a, k);
    ByBit(k >= 1, p.bill.total);
    ByBit(k >= 2, p.bill.earnings);
  }

  lemma MovesAdd(s: Store, t: Store, u: Store, p: Plan, m: Tally, n: Tally)
    requires Moved(s, t, p, m) && Moved(t, u, p, n)
    ensures Moved(s, u, p, Tally(m.debit + n.debit, m.credit + n.credit, m.debitRow + n.debitRow, m.payoutRow + n.payoutRow))
  {
    Distribute(m.debit, n.debit, p.bill.total);
    Distribute(m.credit, n.credit, p.bill.earnings);
  }

  lemma Distribute(a: int, b: int, c: int)
    ensures (a + b) * c == a * c + b * c
  {
  }

  function EndTally(e: End): Tally {
    Tally(Passes(e, 1), Passes(e, 2), Passes(e, 3), Passes(e, 4))
  }

  lemma RefreshMoves(s: Store, t: Store, p: Plan, n: Tally, ok: bool)
    requires Moved(s, t, p, n)
    ensures Moved(s, Refresh(t, p.session.client, ok), p, n)
  {
  }

  lemma CommittedWrites(s: Store, p: Plan, e: End)
    requires Settleable(s, p) && e.env.lookup && Commits(e.env)
    ensures Moved(s, Settlement(s, p, e.env).0, p, EndTally(e))
  {
    hide Moved, Settled, Refresh, Attempt.Written, Attempt.Acknowledged;
    var b := AfterTransaction(s, p, e.env);
    PassMoves(s, p, e.env.transaction.value.attempt, 5);
    RefreshMoves(s, b, p, PassTally(5), e.env.refresh);
  }

  lemma FallbackWrites(s: Store, p: Plan, e: End)
    requires Settleable(s, p) && e.env.lookup && !Commits(e.env)
    ensures Moved(s, Settled(AfterTransaction(s, p, e.env), p, e.env.fallback, e.env.fallback.Written()), p, EndTally(e))
  {
    hide Settled, Attempt.Written, Attempt.Acknowledged;
    var b := AfterTransaction(s, p, e.env);
    var k := e.env.fallback.Written();
    if Persists(e.env) {
      PassMoves(s, p, e.env.transaction.value.attempt, 5);
      PassMoves(b, p, e.env.fallback, k);
      MovesAdd(s, b, Settled(b, p, e.env.fallback, k), p, PassTally(5), PassTally(k));
    } else {
      PassMoves(s, p, e.env.fallback, k);
    }
  }

  lemma SettlementWrites(s: Store, p: Plan, e: End)
    requires Settleable(s, p) && e.env.lookup
    ensures Moved(s, Settlement(s, p, e.env).0, p, EndTally(e))
  {
    hide Moved, Settled, Refresh, Persists, Commits, Attempt.Written, Attempt.Acknowledged, EndTally, AfterTransaction;
    if Commits(e.env) {
      CommittedWrites(s, p, e);
    } else {
      FallbackWrites(s, p, e);
      RefreshMoves(s, Settled(AfterTransaction(s, p, e.env), p, e.env.fallback, e.env.fallback.Written()), p, EndTally(e), e.env.refresh);
    }
  }

  lemma EndStep(s: Store, room: RoomName, e: End, feePercent: int)
    requires PartiesKnown(s, room)
    ensures var t := Finalize(s, room, e.exhausted, e.now, feePercent, e.env).0;
            if s.sessions[room].status != Active then t == s
            else
              && Moved(s, t, PlanFor(s.sessions[room], room, e.exhausted, e.now, feePercent), EndTally(e))
              && (t.sessions[room].status == Active <==> !Finishes(e))
  {
    hide Settled, Refresh, BillFor, Attempt.Written, Attempt.Acknowledged;
    FinalizeOutcome(s, room, e.exhausted, e.now, feePercent, e.env);
    if e.env.lookup && s.sessions[room].status == Active {
      SettlementWrites(s, PlanFor(s.sessions[room], room, e.exhausted, e.now, feePercent), e);
      WrittenBounds(e.env.fallback);
    }
  }

  /** What any sequence of user ends, room_finished events and exhaustions leaves, however
      their calls go: as long as none completes the session, each of them charges, pays and
      writes rows again, as far as its passes get. */
  lemma {:induction false} EndsWrite(s: Store, room: RoomName, ends: seq<End>, feePercent: int)
    requires PartiesKnown(s, room) && s.sessions[room].status == Active
    ensures var t, session := AfterEnds(s, room, ends, feePercent), s.sessions[room];
            && PartiesKnown(t, room) && SameSession(session, t.sessions[room])
            && (t.sessions[room].status == Active <==> StillActive(ends))
            && Balance(t, session.client) == s.balances[session.client] - Taken(session, ends, feePercent)
            && Balance(t, session.mentor) == s.balances[session.mentor] + Given(session, ends, feePercent)
            && Count(t.ledger, room, SessionDebit) == Count(s.ledger, room, SessionDebit) + Landings(ends, 3)
            && Count(t.ledger, room, MentorPayout) == Count(s.ledger, room, MentorPayout) + Landings(ends, 4)
  {
    hide Finalize, BillFor, Passes;
    if ends != [] {
      var init := ends[..|ends| - 1];
      EndsWrite(s, room, init, feePercent);
      EndStep(AfterEnds(s, room, init, feePercent), room, ends[|ends| - 1], feePercent);
    }
  }

  // ------------------------------------------------------------------ settled once

  /** The end that completes the session: the first one that can. */
  function Completer(ends: seq<End>): (f: nat)
    ensures f <= |ends|
    ensures StillActive(ends) <==> f == |ends|
    ensures f < |ends| ==> Finishes(ends[f])
    ensures forall i | 0 <= i < f :: !Finishes(ends[i])
  {
    if ends == [] then 0
    else
      var init := ends[..|ends| - 1];
      var f := Completer(init);
      if f < |init| || Finishes(ends[|ends| - 1]) then f else |ends|
  }

  /** Write number k landed in no end before the one that completes the session, and in one
      of that one's passes. */
  predicate OnceOnly(ends: seq<End>, k: nat) {
    var f := Completer(ends);
    f < |ends| && Passes(ends[f], k) == 1 && forall i | 0 <= i < f :: Passes(ends[i], k) == 0
  }

  lemma {:induction false} NeverLandedIff(ends: seq<End>, k: nat)
    requires StillActive(ends)
    ensures Landings(ends, k) == 0 <==> forall i | 0 <= i < |ends| :: Passes(ends[i], k) == 0
  {
    if ends != [] {
      var init := ends[..|ends| - 1];
      NeverLandedIff(init, k);
      assert forall i | 0 <= i < |init| :: init[i] == ends[i];
    }
  }

  lemma {:induction false} LandedOnceIff(ends: seq<End>, k: nat)
    requires !StillActive(ends) && k <= 5
    ensures Landings(ends, k) == 1 <==> OnceOnly(ends, k)
  {
    var init, last := ends[..|ends| - 1], ends[|ends| - 1];
    assert forall i | 0 <= i < |init| :: init[i] == ends[i];
    if StillActive(init) {
      NeverLandedIff(init, k);
      assert Passes(last, k) >= Passes(last, 5) >= 1;
    } else {
      LandedOnceIff(init, k);
    }
  }

  lemma {:induction false} TakenIffLanded(session: Session, ends: seq<End>, feePercent: int)
    requires session.rate > 0 && 0 <= feePercent <= 100
    ensures Taken(session, ends, feePercent) >= Landings(ends, 1)
    ensures Landings(ends, 1) == 0 ==> Taken(session, ends, feePercent) == 0
  {
    if ends != [] {
      var init, e := ends[..|ends| - 1], ends[|ends| - 1];
      TakenIffLanded(session, init, feePercent);
      BillSplits(session.rate, e.now - session.startedAt, feePercent);
      MulMono(Passes(e, 1), 1, BillOf(session, e, feePercent).total);
      hide BillFor;
    }
  }

  lemma OnceOrTwice(n: int, x: int)
    requires 1 <= n <= 2 && x > 0
    ensures n * x >= x && (n * x == x <==> n == 1)
  {
  }

  lemma {:induction false} TakenOnceIff(session: Session, ends: seq<End>, feePercent: int)
    requires session.rate > 0 && 0 <= feePercent <= 100 && !StillActive(ends)
    ensures Taken(session, ends, feePercent) == BillOf(session, ends[Completer(ends)], feePercent).total <==> OnceOnly(ends, 1)
  {
    hide BillFor;
    var init, last := ends[..|ends| - 1], ends[|ends| - 1];
    assert forall i | 0 <= i < |init| :: init[i] == ends[i];
    if StillActive(init) {
      NeverLandedIff(init, 1);
      TakenIffLanded(session, init, feePercent);
      BillSplits(session.rate, last.now - session.startedAt, feePercent);
      WrittenBounds(last.env.fallback);
      assert 1 <= Passes(last, 5) <= Passes(last, 1) <= 2;
      OnceOrTwice(Passes(last, 1), BillOf(session, last, feePercent).total);
      hide Passes, Landings;
    } else {
      TakenOnceIff(session, init, feePercent);
    }
  }

  lemma {:induction false} GivenIffLanded(session: Session, ends: seq<End>, feePercent: int)
    requires session.rate > 0 && 0 <= feePercent < 100
    ensures Given(session, ends, feePercent) >= Landings(ends, 2)
    ensures Landings(ends, 2) == 0 ==> Given(session, ends, feePercent) == 0
  {
    hide BillFor;
    if ends != [] {
      var init, e := ends[..|ends| - 1], ends[|ends| - 1];
      GivenIffLanded(session, init, feePercent);
      BillSplits(session.rate, e.now - session.startedAt, feePercent);
      EarnsUnlessAllIsFee(BillOf(session, e, feePercent), feePercent);
      MulMono(Passes(e, 2), 1, BillOf(session, e, feePercent).earnings);
    }
  }

  lemma {:induction false} GivenOnceIff(session: Session, ends: seq<End>, feePercent: int)
    requires session.rate > 0 && 0 <= feePercent < 100 && !StillActive(ends)
    ensures Given(session, ends, feePercent) == BillOf(session, ends[Completer(ends)], feePercent).earnings <==> OnceOnly(ends, 2)
  {
    hide BillFor;
    var init, last := ends[..|ends| - 1], ends[|ends| - 1];
    assert forall i | 0 <= i < |init| :: init[i] == ends[i];
    if StillActive(init) {
      NeverLandedIff(init, 2);
      GivenIffLanded(session, init, feePercent);
      BillSplits(session.rate, last.now - session.startedAt, feePercent);
      EarnsUnlessAllIsFee(BillOf(session, last, feePercent), feePercent);
      WrittenBounds(last.env.fallback);
      assert 1 <= Passes(last, 5) <= Passes(last, 2) <= 2;
      hide Passes, Landings;
      OnceOrTwice(Passes(last, 2), BillOf(session, last, feePercent).earnings);
    } else {
      GivenOnceIff(session, init, feePercent);
    }
  }

  lemma {:induction false} NothingGiven(session: Session, ends: seq<End>, feePercent: int)
    requires session.rate > 0 && feePercent == 100
    ensures Given(session, ends, feePercent) == 0
    ensures forall e :: BillOf(session, e, feePercent).earnings == 0
  {
    hide BillFor;
    forall e ensures BillOf(session, e, feePercent).earnings == 0 {
      BillSplits(session.rate, e.now - session.startedAt, feePercent);
      EarnsUnlessAllIsFee(BillOf(session, e, feePercent), feePercent);
    }
    if ends != [] {
      NothingGiven(session, ends[..|ends| - 1], feePercent);
    }
  }

  /** A session that has ended has exactly one debit row and exactly one payout row, its
      client was charged exactly the bill of the end that completed it and its mentor was paid
      exactly the earnings of that bill, each if and only if the respective write landed in no
      earlier end and not twice in that one (or, for the mentor, if nothing is earned). */
  lemma EndsSettleOnce(s: Store, room: RoomName, ends: seq<End>, feePercent: int)
    requires PartiesKnown(s, room) && s.sessions[room].status == Active && s.sessions[room].rate > 0 && 0 <= feePercent <= 100
    requires Count(s.ledger, room, SessionDebit) == 0 && Count(s.ledger, room, MentorPayout) == 0
    requires !StillActive(ends)
    ensures var t, session := AfterEnds(s, room, ends, feePercent), s.sessions[room];
            var bill := BillOf(session, ends[Completer(ends)], feePercent);
            && room in t.sessions && t.sessions[room].status != Active
            && (Count(t.ledger, room, SessionDebit) == 1 <==> OnceOnly(ends, 3))
            && (Count(t.ledger, room, MentorPayout) == 1 <==> OnceOnly(ends, 4))
            && (Balance(t, session.client) == s.balances[session.client] - bill.total <==> OnceOnly(ends, 1))
            && (Balance(t, session.mentor) == s.balances[session.mentor] + bill.earnings <==> OnceOnly(ends, 2) || feePercent == 100)
  {
    hide BillFor, AfterEnds, OnceOnly, Landings, Taken, Given;
    EndsWrite(s, room, ends, feePercent);
    LandedOnceIff(ends, 3);
    LandedOnceIff(ends, 4);
    TakenOnceIff(s.sessions[room], ends, feePercent);
    if feePercent < 100 {
      GivenOnceIff(s.sessions[room], ends, feePercent);
    } else {
      NothingGiven(s.sessions[room], ends, feePercent);
    }
  }

  /** A fallback whose last write is lost has moved the money and written the rows, and
      leaves the session ACTIVE: the next end charges it again, without any overlap. */
  lemma LostCompletionChargesTwice(s: Store, room: RoomName, now: int, later: int, feePercent: int)
    requires PartiesKnown(s, room) && s.sessions[room].status == Active
    ensures var lost := Attempt(Landed, Landed, Landed, Landed, Lost, true, true);
            var whole := lost.(complete := Landed);
            var first, second := End(false, now, Env(true, None, lost, true)), End(false, later, Env(true, None, whole, true));
            var t, session := AfterEnds(s, room, [first, second], feePercent), s.sessions[room];
            && Count(t.ledger, room, SessionDebit) == Count(s.ledger, room, SessionDebit) + 2
            && Count(t.ledger, room, MentorPayout) == Count(s.ledger, room, MentorPayout) + 2
            && Balance(t, session.client) ==
               s.balances[session.client] - BillOf(session, first, feePercent).total - BillOf(session, second, feePercent).total
  {
    hide BillFor, Finalize;
    var lost := Attempt(Landed, Landed, Landed, Landed, Lost, true, true);
    var first := End(false, now, Env(true, None, lost, true));
    var second := End(false, later, Env(true, None, lost.(complete := Landed), true));
    var ends := [first] + [second];
    EndsWrite(s, room, ends, feePercent);
    assert ends[..1] == [first] && [first][..0] == [];
    assert StillActive([first]) && Taken(s.sessions[room], [first], feePercent) == BillOf(s.sessions[room], first, feePercent).total;
    assert Landings([first], 3) == 1 && Landings([first], 4) == 1;
  }
}

// What each event of the marketplace does when it is let through, and exactly when it is.
module MarketSteps {
  import opened Common
  import opened Wallet
  import opened Ledger
  import opened Marketplace
  import opened MarketLaws
  import C = Claim
  import Matchmaker

  /** A new user gets an account of 0; nothing else happens. */
  lemma RegistrationOpensAccount(w: World, u: UserId)
    ensures var t := Step(w, Register(u));
            && t == w.(store := w.store.(balances := t.store.balances))
            && t.store.balances.Keys == w.store.balances.Keys + {u}
            && (forall v | v in w.store.balances :: t.store.balances[v] == w.store.balances[v])
            && (u !in w.store.balances ==> t.store.balances[u] == 0)
  {
  }

  /** A request is published if and only if the client has an account, the id is new, and the
      balance covers three minutes at its rate; the balance is then cached. */
  lemma PublishedIff(w: World, client: UserId, id: RequestId, maxRate: int)
    ensures var t := Step(w, CreateSOS(client, id, maxRate));
            if client in w.store.balances && id !in w.requests && w.store.balances[client] >= 3 * maxRate
            then
              && t.requests == w.requests[id := Request(client, maxRate, true, false)]
              && t.store.cache == w.store.cache[client := w.store.balances[client]]
              && t.store == w.store.(cache := t.store.cache) && t.feePercent == w.feePercent
            else t == w
  {
  }

  /** The claim protocol's state shows the same request, and its lock is free. */
  predicate SameRequest(w: World, c: C.State, id: RequestId) {
    && C.LockFree(c, id)
    && (id in c.requests <==> id in w.requests && !w.requests[id].purged)
    && (id in c.requests ==>
          var r, q := w.requests[id], c.requests[id];
          q.client == r.client && q.maxRate == r.maxRate && (q.status == C.Open <==> r.open))
  }

  const ALL_REPLIES := Matchmaker.Replies(Landed, true, Landed, Landed)

  /** A session opens if and only if AcceptSOS, with all of its calls landing, succeeds and the
      mentor has an account; it is the session that AcceptSOS returns. */
  lemma OpensIffAccepted(w: World, c: C.State, m: C.Mentor, id: RequestId, now: int)
    requires Inv(w) && SameRequest(w, c, id)
    ensures var t, r := Step(w, AcceptSOS(m, id, now)), Matchmaker.Accept(c, m, id, ALL_REPLIES).1;
            if r.Success? && m.id in w.store.balances
            then
              && r.value.room !in w.store.sessions
              && t.store.sessions.Keys == w.store.sessions.Keys + {r.value.room}
              && (forall room | room in w.store.sessions :: t.store.sessions[room] == w.store.sessions[room])
              && t.store.sessions[r.value.room] ==
                 Session(id, r.value.client, r.value.mentor, r.value.rate, now, Active, 0, Summary(0, 0, 0))
              && t.store == w.store.(sessions := t.store.sessions)
              && t.requests == w.requests[id := w.requests[id].(open := false)]
            else t == w
  {
  }

  /** The same with its conditions written out. */
  lemma OpensIff(w: World, m: C.Mentor, id: RequestId, now: int)
    requires Inv(w)
    ensures Step(w, AcceptSOS(m, id, now)) != w <==>
              && m.isMentor && m.id in w.store.balances && id in w.requests && w.requests[id].open && !w.requests[id].purged
              && w.requests[id].client != m.id
  {
    if CanAccept(w, m, id) {
      assert !Step(w, AcceptSOS(m, id, now)).requests[id].open;
    }
  }

  /** A request that has been removed opens no session. */
  lemma RemovedOpensNothing(w: World, m: C.Mentor, id: RequestId, now: int)
    ensures var t := Step(w, Purge(id)); Step(t, AcceptSOS(m, id, now)) == t && t.store == w.store
  {
  }

  /** A tick of a room takes its cost from the cached balance of its client, and nothing else. */
  lemma TickTakes(w: World, room: RoomName)
    ensures var t := Step(w, Tick(room));
            if room !in w.store.sessions then t == w
            else
              var client := w.store.sessions[room].client;
              && t == w.(store := w.store.(cache := t.store.cache))
              && t.store.cache.Keys == w.store.cache.Keys + {client}
              && t.store.cache[client] ==
                 (if client in w.store.cache then w.store.cache[client] else 0) - TickCost(w, Tick(room), client)
              && forall u | u in w.store.cache && u != client :: t.store.cache[u] == w.store.cache[u]
  {
  }

  // ------------------------------------------------------------------ deposit rows

  /** The rows that name no session. */
  function Sessionless(ledger: seq<Tx>): seq<Tx> {
    if ledger == [] then []
    else
      var last := ledger[|ledger| - 1];
      Sessionless(ledger[..|ledger| - 1]) + if last.session.None? then [last] else []
  }

  function Total(rows: seq<Tx>): int {
    if rows == [] then 0 else Total(rows[..|rows| - 1]) + rows[|rows| - 1].amount
  }

  lemma SessionlessSnoc(ledger: seq<Tx>, tx: Tx)
    ensures Sessionless(ledger + [tx]) == Sessionless(ledger) + if tx.session.None? then [tx] else []
    ensures tx.session.None? ==> Total(Sessionless(ledger + [tx])) == Total(Sessionless(ledger)) + tx.amount
    ensures tx.session.Some? ==> Sessionless(ledger + [tx]) == Sessionless(ledger)
  {
    assert (ledger + [tx])[..|ledger|] == ledger;
    var rows := Sessionless(ledger);
    assert (rows + [tx])[..|rows|] == rows;
  }

  ghost predicate AllDeposits(rows: seq<Tx>) {
    forall i | 0 <= i < |rows| :: rows[i].kind == Deposit && 0 < rows[i].amount <= 1_000_000
  }

  lemma DepositAddsRow(w: World, e: Event)
    requires e.DepositCredits?
    ensures var s, t := w.store, Step(w, e).store;
            if Deposits(w, e) then t.ledger == s.ledger + [Tx(e.user, Deposit, e.amount, t.balances[e.user], None)]
            else t.ledger == s.ledger
  {
  }

  lemma SettlementAddsRows(w: World, e: Event)
    requires Inv(w) && e.Finish?
    ensures var s, t := w.store, Step(w, e).store;
            t.ledger == s.ledger
            || exists a: Tx, b: Tx :: t.ledger == s.ledger + [a] + [b] && a.session.Some? && b.session.Some?
  {
    if Settles(w, e) {
      FinishSettles(w, e.room, e.exhausted, e.now, e.transactional);
      var s, t := w.store, Step(w, e).store;
      var a, b := t.ledger[|s.ledger|], t.ledger[|s.ledger| + 1];
      assert t.ledger == s.ledger + [a] + [b];
    }
  }

  lemma StepKeepsDepositRows(w: World, e: Event)
    requires Inv(w) && AllDeposits(Sessionless(w.store.ledger))
    ensures var before, after := Sessionless(w.store.ledger), Sessionless(Step(w, e).store.ledger);
            AllDeposits(after) && Total(after) == Total(before) + if Deposits(w, e) then e.amount else 0
  {
    hide Sessionless, Total, Finalize;
    var s, t := w.store, Step(w, e).store;
    if e.DepositCredits? {
      DepositAddsRow(w, e);
      if Deposits(w, e) {
        SessionlessSnoc(s.ledger, t.ledger[|s.ledger|]);
      }
    } else if e.Finish? {
      SettlementAddsRows(w, e);
      if t.ledger != s.ledger {
        var a: Tx, b: Tx :| t.ledger == s.ledger + [a] + [b] && a.session.Some? && b.session.Some?;
        SessionlessSnoc(s.ledger, a);
        SessionlessSnoc(s.ledger + [a], b);
      }
    } else {
      assert t.ledger == s.ledger;
    }
  }

  /** In every run, the rows without a session are deposits, and add up to what was taken in. */
  lemma {:induction false} DepositRows(es: seq<Event>, feePercent: int)
    ensures var rows := Sessionless(Run(es, feePercent).store.ledger);
            AllDeposits(rows) && Total(rows) == Deposited(es, feePercent)
  {
    if es != [] {
      var init := es[..|es| - 1];
      DepositRows(init, feePercent);
      RunKeeps(init, feePercent);
      StepKeepsDepositRows(Run(init, feePercent), es[|es| - 1]);
    }
  }
}

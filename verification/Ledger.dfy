// Reading the append-only ledger: per-user sums, rows of a session, and when the stored
// balances agree with it.
module Ledger {
  import opened Common
  import opened Billing
  import opened Wallet

  /** The sum of a user's rows. */
  function Sum(ledger: seq<Tx>, u: UserId): int {
    if ledger == [] then 0
    else
      var last := ledger[|ledger| - 1];
      Sum(ledger[..|ledger| - 1], u) + if last.user == u then last.amount else 0
  }

  /** The sum of the rows that reference a session. */
  function SessionSum(ledger: seq<Tx>, room: RoomName): int {
    if ledger == [] then 0
    else
      var last := ledger[|ledger| - 1];
      SessionSum(ledger[..|ledger| - 1], room) + if last.session == Some(room) then last.amount else 0
  }

  /** How many rows of a kind reference a session. */
  function Count(ledger: seq<Tx>, room: RoomName, kind: TxKind): nat {
    if ledger == [] then 0
    else
      var last := ledger[|ledger| - 1];
      Count(ledger[..|ledger| - 1], room, kind) + if last.session == Some(room) && last.kind == kind then 1 else 0
  }

  lemma Snoc(ledger: seq<Tx>, tx: Tx, u: UserId, room: RoomName, kind: TxKind)
    ensures Sum(ledger + [tx], u) == Sum(ledger, u) + if tx.user == u then tx.amount else 0
    ensures SessionSum(ledger + [tx], room) == SessionSum(ledger, room) + if tx.session == Some(room) then tx.amount else 0
    ensures Count(ledger + [tx], room, kind) == Count(ledger, room, kind) + if tx.session == Some(room) && tx.kind == kind then 1 else 0
  {
  }

  /** Each row's running balance is the sum of its user's rows up to and including it. */
  ghost predicate RunningBalance(ledger: seq<Tx>) {
    forall i | 0 <= i < |ledger| :: RowRight(ledger, i)
  }

  predicate RowRight(ledger: seq<Tx>, i: nat)
    requires i < |ledger|
  {
    ledger[i].balanceAfter == Sum(ledger[..i + 1], ledger[i].user)
  }

  /** A row added at the end keeps the running balances right exactly if its own is. */
  lemma RunningSnocIff(ledger: seq<Tx>, tx: Tx)
    ensures RunningBalance(ledger + [tx]) <==> RunningBalance(ledger) && tx.balanceAfter == Sum(ledger, tx.user) + tx.amount
  {
    var l := ledger + [tx];
    Snoc(ledger, tx, tx.user, "", tx.kind);
    forall i | 0 <= i < |ledger| ensures RowRight(l, i) <==> RowRight(ledger, i) {
      assert l[..i + 1] == ledger[..i + 1];
    }
    assert RowRight(l, |ledger|) <==> tx.balanceAfter == Sum(ledger, tx.user) + tx.amount by {
      assert l[..|ledger| + 1] == l;
    }
  }

  lemma {:induction false} SumAppend(a: seq<Tx>, b: seq<Tx>, u: UserId)
    ensures Sum(a + b, u) == Sum(a, u) + Sum(b, u)
  {
    if b == [] {
      assert a + b == a;
    } else {
      var init, last := b[..|b| - 1], b[|b| - 1];
      SumAppend(a, init, u);
      assert a + b == a + init + [last] && b == init + [last];
      Snoc(a + init, last, u, "", Deposit);
      Snoc(init, last, u, "", Deposit);
    }
  }

  /** Every stored balance is the sum of its owner's rows. */
  ghost predicate Agrees(s: Store) {
    forall u | u in s.balances :: s.balances[u] == Sum(s.ledger, u)
  }

  predicate ValidDeposit(s: Store, u: UserId, amount: int) {
    0 < amount <= MAX_DEPOSIT && u in s.balances
  }

  /** A deposit keeps the agreement unless its increment lands and its row does not: the
      increment's reply or the row is lost. */
  lemma DepositAgreesIff(s: Store, u: UserId, amount: int, env: DepositEnv)
    requires Agrees(s)
    ensures Agrees(MakeDeposit(s, u, amount, env).0) <==>
              !(ValidDeposit(s, u, amount) && (env.update.LandedUnseen? || (env.update.Landed? && env.insert.Lost?)))
  {
    hide Sum;
    var t := MakeDeposit(s, u, amount, env).0;
    if ValidDeposit(s, u, amount) && !env.update.Lost? {
      var tx := Tx(u, Deposit, amount, s.balances[u] + amount, None);
      assert t.balances == s.balances[u := s.balances[u] + amount];
      forall v ensures Sum(s.ledger + [tx], v) == Sum(s.ledger, v) + if v == u then amount else 0 {
        Snoc(s.ledger, tx, v, "", Deposit);
      }
      if env.update.LandedUnseen? || env.insert.Lost? {
        assert t.balances[u] != Sum(t.ledger, u);
      } else {
        assert t.ledger == s.ledger + [tx];
      }
    }
  }

  lemma SettledSums(s: Store, p: Plan, a: Attempt, k: nat, u: UserId)
    requires Settleable(s, p) && u in s.balances
    ensures var t := Settled(s, p, a, k);
            && u in t.balances
            && t.balances[u] == s.balances[u]
                 + (if k >= 1 && u == p.session.client then -p.bill.total else 0)
                 + (if k >= 2 && u == p.session.mentor then p.bill.earnings else 0)
            && Sum(t.ledger, u) == Sum(s.ledger, u)
                 + (if k >= 3 && u == p.session.client then -p.bill.total else 0)
                 + (if k >= 4 && u == p.session.mentor then p.bill.earnings else 0)
  {
    var s2 := Settled(s, p, a, 2);
    Snoc(s.ledger, Debit(s2, p, a), u, "", SessionDebit);
    Snoc(s.ledger + [Debit(s2, p, a)], Payout(s2, p, a), u, "", MentorPayout);
  }

  lemma SettledLedger(s: Store, p: Plan, a: Attempt, k: nat)
    ensures var s2 := Settled(s, p, a, 2);
            var one := if k >= 3 then s.ledger + [Debit(s2, p, a)] else s.ledger;
            Settled(s, p, a, k).ledger == if k >= 4 then one + [Payout(s2, p, a)] else one
  {
    hide Debit, Payout;
  }

  /** The rows of the session that k of the five writes add. */
  lemma SettledRows(s: Store, p: Plan, a: Attempt, k: nat)
    ensures var t := Settled(s, p, a, k);
            && Count(t.ledger, p.room, SessionDebit) == Count(s.ledger, p.room, SessionDebit) + (if k >= 3 then 1 else 0)
            && Count(t.ledger, p.room, MentorPayout) == Count(s.ledger, p.room, MentorPayout) + (if k >= 4 then 1 else 0)
  {
    hide Settled, Count;
    var s2 := Settled(s, p, a, 2);
    var debit, payout := Debit(s2, p, a), Payout(s2, p, a);
    SettledLedger(s, p, a, k);
    Snoc(s.ledger, debit, "", p.room, SessionDebit);
    Snoc(s.ledger, debit, "", p.room, MentorPayout);
    Snoc(s.ledger + [debit], payout, "", p.room, SessionDebit);
    Snoc(s.ledger + [debit], payout, "", p.room, MentorPayout);
  }

  /** What k of the five writes leave behind: balances and ledger agree exactly when no
      write, both pairs of writes, or everything landed; without the mentor's row if the
      mentor earns nothing. */
  lemma SettledAgreesIff(s: Store, p: Plan, a: Attempt, k: nat)
    requires Agrees(s) && Settleable(s, p)
    requires p.bill.total > 0 && p.bill.earnings >= 0
    ensures Agrees(Settled(s, p, a, k)) <==> k == 0 || k >= 4 || (k == 3 && p.bill.earnings == 0)
  {
    hide Settled, Sum;
    var t := Settled(s, p, a, k);
    SettledFrame(s, p, a, k);
    SettledSums(s, p, a, k, p.session.client);
    SettledSums(s, p, a, k, p.session.mentor);
    if k == 0 || k >= 4 || (k == 3 && p.bill.earnings == 0) {
      forall u | u in t.balances ensures t.balances[u] == Sum(t.ledger, u) {
        SettledSums(s, p, a, k, u);
      }
    } else if k <= 2 {
      assert t.balances[p.session.client] != Sum(t.ledger, p.session.client);
    } else {
      assert t.balances[p.session.mentor] != Sum(t.ledger, p.session.mentor);
    }
  }

  /** The pass leaves no increment without its row: nothing landed, or the row of the last
      party that money moves to or from did. */
  predicate RowsPaired(a: Attempt, mentorEarns: bool) {
    || a.debit.Lost?
    || (a.debit.Landed? && a.credit.Landed? && (if mentorEarns then a.debitRow.Landed? && !a.payoutRow.Lost? else !a.debitRow.Lost?))
  }

  /** A failed finalisation keeps the agreement exactly when its fallback pairs its rows. The
      mentor earns nothing if the platform keeps everything. */
  lemma FinalizeFailureAgreesIff(s: Store, room: RoomName, exhausted: bool, now: int, feePercent: int, env: Env)
    requires Agrees(s) && PartiesKnown(s, room) && s.sessions[room].rate > 0 && 0 <= feePercent <= 100
    requires Finalize(s, room, exhausted, now, feePercent, env).1 == WriteFailed
    ensures Agrees(Finalize(s, room, exhausted, now, feePercent, env).0) <==> RowsPaired(env.fallback, feePercent < 100)
  {
    hide Settled, Sum, BillFor, Agrees;
    var session := s.sessions[room];
    BillSplits(session.rate, now - session.startedAt, feePercent);
    var p := PlanFor(session, room, exhausted, now, feePercent);
    EarnsUnlessAllIsFee(p.bill, feePercent);
    if Persists(env) {
      FiveWritesSettle(s, p, env.transaction.value.attempt);
      SettledAgreesIff(s, p, env.transaction.value.attempt, 5);
    }
    SettledAgreesIff(AfterTransaction(s, p, env), p, env.fallback, env.fallback.Written());
  }

  lemma EarnsUnlessAllIsFee(bill: Bill, feePercent: int)
    requires bill.total > 0 && 0 <= feePercent <= 100 && bill.earnings == bill.total - bill.fee
    requires 100 * bill.fee <= bill.total * feePercent < 100 * bill.fee + 100
    ensures bill.earnings >= 0 && (bill.earnings > 0 <==> feePercent < 100)
  {
    MulMono(bill.total, feePercent, 100);
    if feePercent < 100 {
      MulMono(bill.total, feePercent, 99);
    }
  }
}

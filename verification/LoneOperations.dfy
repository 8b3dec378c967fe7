// The calls of one operation that nothing interleaves with add up to the whole operation.
module LoneOperations {
  import opened Common
  import opened Wallet
  import opened LedgerSteps

  function One(store: Store, o: Operation): State {
    State(store, [o])
  }

  /** The calls of the only operation, with these replies. */
  function Play(s: State, replies: seq<Reply>): State
    decreases |replies|
  {
    if replies == [] then s else Play(Step(s, Call(0, replies[0])), replies[1..])
  }

  lemma OneCall(store: Store, o: Operation, reply: Reply)
    ensures Step(One(store, o), Call(0, reply)) ==
              if o.dead || Finished(o) then One(store, o)
              else One(if reply.Lost? then store else Land(store, o.work, o.done), Next(store, o, reply))
  {
    hide Land, Next;
  }

  lemma {:induction false} NothingMore(store: Store, o: Operation, replies: seq<Reply>)
    requires o.dead || Finished(o)
    ensures Play(One(store, o), replies) == One(store, o)
    decreases |replies|
  {
    if replies != [] {
      OneCall(store, o, replies[0]);
      NothingMore(store, o, replies[1..]);
    }
  }

  lemma PlayOne(store: Store, o: Operation, reply: Reply, rest: seq<Reply>)
    requires !o.dead && !Finished(o)
    ensures Play(One(store, o), [reply] + rest) ==
              Play(One(if reply.Lost? then store else Land(store, o.work, o.done), Next(store, o, reply)), rest)
  {
    OneCall(store, o, reply);
    assert ([reply] + rest)[1..] == rest;
  }

  /** A deposit on its own is the service's deposit, the cache aside. */
  lemma LoneDeposit(store: Store, u: UserId, amount: int, env: DepositEnv)
    ensures Play(Step(State(store, []), BeginDeposit(u, amount)), [env.update, env.insert]).store ==
              MakeDeposit(store, u, amount, env.(cache := false)).0
  {
    hide Play;
    var s := Step(State(store, []), BeginDeposit(u, amount));
    var calls := [env.update] + ([env.insert] + []);
    assert [env.update, env.insert] == calls;
    if 0 < amount <= MAX_DEPOSIT && u in store.balances {
      var o := Operation(Depositing(u, amount, store.balances[u] + amount), 0, false);
      assert s == One(store, o);
      PlayOne(store, o, env.update, [env.insert] + []);
      var t, o1 := if env.update.Lost? then store else Inc(store, u, amount), Next(store, o, env.update);
      if env.update.Landed? {
        PlayOne(t, o1, env.insert, []);
        NothingMore(if env.insert.Lost? then t else Log(t, DepositRow(o1.work)), Next(t, o1, env.insert), []);
      } else {
        NothingMore(t, o1, [env.insert] + []);
      }
    } else {
      NoOperation(s, calls);
    }
  }

  lemma {:induction false} NoOperation(s: State, replies: seq<Reply>)
    requires s.operations == []
    ensures Play(s, replies) == s
    decreases |replies|
  {
    if replies != [] {
      NoOperation(s, replies[1..]);
    }
  }

  function ReadReply(answered: bool): Reply {
    if answered then Landed else Lost
  }

  // What is left of a settlement once its two payments are made and its balances read.
  lemma RowsAndStatus(store: Store, p: Plan, a: Attempt)
    requires a.debit.Landed? && a.credit.Landed?
    ensures var client := if a.clientRead then Some(Balance(store, p.session.client)) else None;
            var mentor := if a.mentorRead then Some(Balance(store, p.session.mentor)) else None;
            var t := Logged(store, p, a, a.Written());
            Play(One(store, Operation(Settling(p, client, mentor), 4, false)), [a.debitRow] + ([a.payoutRow] + [a.complete])).store
            == if a.Written() >= 5 then Complete(t, p) else t
  {
    hide Play, Complete, Debit, Payout;
    var client := if a.clientRead then Some(Balance(store, p.session.client)) else None;
    var mentor := if a.mentorRead then Some(Balance(store, p.session.mentor)) else None;
    var o := Operation(Settling(p, client, mentor), 4, false);
    PlayOne(store, o, a.debitRow, [a.payoutRow] + [a.complete]);
    RowsAgree(store, p, a, o.work);
    var s1 := if a.debitRow.Lost? then store else Log(store, Debit(store, p, a));
    var o1 := Next(store, o, a.debitRow);
    if !a.debitRow.Landed? {
      NothingMore(s1, o1, [a.payoutRow] + [a.complete]);
    } else {
      PlayOne(s1, o1, a.payoutRow, [a.complete]);
      var s2 := if a.payoutRow.Lost? then s1 else Log(s1, Payout(store, p, a));
      var o2 := Next(s1, o1, a.payoutRow);
      if !a.payoutRow.Landed? {
        NothingMore(s2, o2, [a.complete]);
      } else {
        assert [a.complete] == [a.complete] + [];
        PlayOne(s2, o2, a.complete, []);
        NothingMore(if a.complete.Lost? then s2 else Complete(s2, p), Next(s2, o2, a.complete), []);
      }
    }
  }

  lemma RowsAgree(store: Store, p: Plan, a: Attempt, w: Work)
    requires w == Settling(p, if a.clientRead then Some(Balance(store, p.session.client)) else None,
                           if a.mentorRead then Some(Balance(store, p.session.mentor)) else None)
    ensures DebitRow(w) == Debit(store, p, a) && PayoutRow(w) == Payout(store, p, a)
  {
  }

  lemma BalancesRead(store: Store, p: Plan, a: Attempt, rest: seq<Reply>)
    ensures var client := if a.clientRead then Some(Balance(store, p.session.client)) else None;
            var mentor := if a.mentorRead then Some(Balance(store, p.session.mentor)) else None;
            Play(One(store, Operation(Settling(p, None, None), 2, false)), [ReadReply(a.clientRead)] + ([ReadReply(a.mentorRead)] + rest))
            == Play(One(store, Operation(Settling(p, client, mentor), 4, false)), rest)
  {
    hide Play;
    var o := Operation(Settling(p, None, None), 2, false);
    PlayOne(store, o, ReadReply(a.clientRead), [ReadReply(a.mentorRead)] + rest);
    PlayOne(store, Next(store, o, ReadReply(a.clientRead)), ReadReply(a.mentorRead), rest);
  }

  /** The replies to a settlement's seven calls. */
  function Replies(a: Attempt): seq<Reply> {
    [a.debit] + ([a.credit] + ([ReadReply(a.clientRead)] + ([ReadReply(a.mentorRead)] + ([a.debitRow] + ([a.payoutRow] + [a.complete])))))
  }

  /** A settlement on its own is one pass of the service's five writes. */
  lemma LoneSettlement(store: Store, room: RoomName, exhausted: bool, now: int, feePercent: int, a: Attempt)
    requires room in store.sessions && store.sessions[room].status == Active
    ensures Play(Step(State(store, []), BeginSettlement(room, exhausted, now, feePercent)), Replies(a)).store ==
              Settled(store, PlanFor(store.sessions[room], room, exhausted, now, feePercent), a, a.Written())
  {
    hide Play, Complete, Logged, PlanFor;
    var p := PlanFor(store.sessions[room], room, exhausted, now, feePercent);
    var o := Operation(Settling(p, None, None), 0, false);
    assert Step(State(store, []), BeginSettlement(room, exhausted, now, feePercent)) == One(store, o);
    var rows := [a.debitRow] + ([a.payoutRow] + [a.complete]);
    var later := [ReadReply(a.clientRead)] + ([ReadReply(a.mentorRead)] + rows);
    PlayOne(store, o, a.debit, [a.credit] + later);
    var s1 := if a.debit.Lost? then store else Inc(store, p.session.client, -p.bill.total);
    var o1 := Next(store, o, a.debit);
    NoRowsYet(Paid(store, p, a.Written()), p, a);
    if !a.debit.Landed? {
      NothingMore(s1, o1, [a.credit] + later);
    } else {
      PlayOne(s1, o1, a.credit, later);
      var s2 := if a.credit.Lost? then s1 else Inc(s1, p.session.mentor, p.bill.earnings);
      var o2 := Next(s1, o1, a.credit);
      if !a.credit.Landed? {
        NothingMore(s2, o2, later);
      } else {
        BalancesRead(s2, p, a, rows);
        RowsAndStatus(s2, p, a);
      }
    }
  }

  lemma NoRowsYet(store: Store, p: Plan, a: Attempt)
    ensures a.Written() <= 2 ==> Logged(store, p, a, a.Written()) == store
  {
  }
}

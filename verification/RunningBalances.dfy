// When the running balance that a deposit or a settlement writes into its row is right,
// although the balance was read several calls earlier.
module RunningBalances {
  import opened Common
  import opened Wallet
  import opened Ledger
  import opened LedgerSteps

  /** The next call of the operation inserts a row. */
  predicate Inserting(o: Operation) {
    !o.dead && if o.work.Depositing? then o.done == 1 else o.done == 4 || o.done == 5
  }

  function Row(o: Operation): Tx
    requires Inserting(o)
  {
    if o.work.Depositing? then DepositRow(o.work) else if o.done == 4 then DebitRow(o.work) else PayoutRow(o.work)
  }

  /** The balance of the next row could be read. */
  predicate WasRead(o: Operation)
    requires Inserting(o)
  {
    o.work.Depositing? || if o.done == 4 then o.work.clientBalance.Some? else o.work.mentorBalance.Some?
  }

  // Which of its calls read the balance for operation i's next row: the one that began a
  // deposit, the third or the fourth call of a settlement.
  function ReadingCall(o: Operation): nat
    requires Inserting(o)
  {
    if o.work.Depositing? then 0 else if o.done == 4 then 2 else 3
  }

  /** The event begins operation i (k = 0), or is the settlement's call number k. */
  predicate Takes(s: State, e: Event, i: nat, k: nat) {
    if k == 0 then i == |s.operations| < |Step(s, e).operations|
    else
      && e.Call? && e.i == i < |s.operations|
      && s.operations[i].work.Settling? && s.operations[i].done == k && !s.operations[i].dead
  }

  /** The part of the run before that event. */
  function ReadPoint(es: seq<Event>, i: nat, k: nat): seq<Event> {
    if es == [] then []
    else
      var init := es[..|es| - 1];
      if Takes(Run(init), es[|es| - 1], i, k) then init else ReadPoint(init, i, k)
  }

  function AtRead(es: seq<Event>, i: nat, k: nat): State {
    Run(ReadPoint(es, i, k))
  }

  // ------------------------------------------------------------------ what was read

  /** What operation i holds is what was stored when it read. */
  ghost predicate Recalls(es: seq<Event>, i: nat)
    requires i < |Run(es).operations|
  {
    var o := Run(es).operations[i];
    match o.work
    case Depositing(u, amount, newBalance) => newBalance == Balance(AtRead(es, i, 0).store, u) + amount
    case Settling(p, client, mentor) =>
      && (o.done < 3 ==> client.None?) && (o.done < 4 ==> mentor.None?)
      && (client.Some? ==> client.value == Balance(AtRead(es, i, 2).store, p.session.client))
      && (mentor.Some? ==> mentor.value == Balance(AtRead(es, i, 3).store, p.session.mentor))
  }

  lemma StepExtends(s: State, e: Event)
    ensures s.store.ledger <= Step(s, e).store.ledger && |s.operations| <= |Step(s, e).operations|
  {
  }

  /** How operation i stood when it read: a deposit had not begun, a settlement had made k
      calls with the plan it has now. */
  ghost predicate StoodAt(es: seq<Event>, i: nat, k: nat)
    requires i < |Run(es).operations|
  {
    var r, o := AtRead(es, i, k), Run(es).operations[i];
    if k == 0 then i == |r.operations|
    else
      i < |r.operations| && r.operations[i].done == k && r.operations[i].work.Settling? && o.work.Settling?
        && r.operations[i].work.plan == o.work.plan
  }

  lemma {:induction false} ReadersStood(es: seq<Event>, i: nat, k: nat)
    requires i < |Run(es).operations|
    requires k == 0 || (0 < k < Run(es).operations[i].done && k <= 3 && Run(es).operations[i].work.Settling?)
    ensures StoodAt(es, i, k)
  {
    var init, e := es[..|es| - 1], es[|es| - 1];
    var s := Run(init);
    if !Takes(s, e, i, k) {
      StandsStill(s, e, i, k);
      ReadersStood(init, i, k);
    } else {
      PlansStay(s, e, i);
    }
  }

  lemma PlansStay(s: State, e: Event, i: nat)
    ensures i < |s.operations| ==>
              var o, p := s.operations[i], Step(s, e).operations[i];
              (o.work.Settling? <==> p.work.Settling?) && (o.work.Settling? ==> o.work.plan == p.work.plan) && o.done <= p.done <= o.done + 1
  {
    hide Land;
  }

  /** An event that is not the reading call leaves a reader past it where it was. */
  lemma StandsStill(s: State, e: Event, i: nat, k: nat)
    requires i < |Step(s, e).operations| && !Takes(s, e, i, k)
    requires k == 0 || (0 < k < Step(s, e).operations[i].done && k <= 3 && Step(s, e).operations[i].work.Settling?)
    ensures i < |s.operations|
    ensures var o, p := s.operations[i], Step(s, e).operations[i];
            (k == 0 || k < o.done) && (o.work.Settling? <==> p.work.Settling?) && (o.work.Settling? ==> o.work.plan == p.work.plan)
  {
    hide Land;
  }

  /** Rows are only ever added. */
  lemma {:induction false} ReadPointBefore(es: seq<Event>, i: nat, k: nat)
    ensures AtRead(es, i, k).store.ledger <= Run(es).store.ledger
  {
    if es != [] {
      var init := es[..|es| - 1];
      ReadPointBefore(init, i, k);
      StepExtends(Run(init), es[|es| - 1]);
    }
  }

  lemma CallRecalls(es: seq<Event>, i: nat)
    requires es != [] && es[|es| - 1].Call? && i < |Run(es[..|es| - 1]).operations| && Recalls(es[..|es| - 1], i)
    ensures i < |Run(es).operations| && Recalls(es, i)
  {
    hide Land;
    var init, e := es[..|es| - 1], es[|es| - 1];
    var s, t := Run(init), Run(es);
    assert t == Step(s, e);
    assert !Takes(s, e, i, 0);
    if e.i == i {
      assert forall k | k == 2 || k == 3 :: ReadPoint(es, i, k) == if Takes(s, e, i, k) then init else ReadPoint(init, i, k);
    }
  }

  lemma {:induction false} RunRecalls(es: seq<Event>, i: nat)
    requires i < |Run(es).operations|
    ensures Recalls(es, i)
  {
    var init, e := es[..|es| - 1], es[|es| - 1];
    var s := Run(init);
    if i < |s.operations| {
      RunRecalls(init, i);
      if e.Call? {
        CallRecalls(es, i);
      } else {
        assert Run(es).operations[i] == s.operations[i];
        assert forall k | k == 0 || k == 2 || k == 3 :: !Takes(s, e, i, k);
      }
    } else {
      assert Takes(s, e, i, 0);
    }
  }

  // ------------------------------------------------------------------ when a row is right

  /** Since operation i read the balance for its next row, rows of the same total have been
      logged as others' increments were pending then. `own` is what the operation itself had
      added by then. */
  predicate CaughtUp(es: seq<Event>, i: nat)
    requires i < |Run(es).operations| && Inserting(Run(es).operations[i])
  {
    var s, o := Run(es), Run(es).operations[i];
    var row := Row(o);
    if !WasRead(o) then Sum(s.store.ledger, row.user) + row.amount == 0
    else
      var r := AtRead(es, i, ReadingCall(o));
      var own := if o.work.Depositing? then 0 else row.amount;
      |r.store.ledger| <= |s.store.ledger|
      && AllPending(r.operations, row.user) - own == Sum(s.store.ledger[|r.store.ledger|..], row.user)
  }

  lemma BooksBalance(es: seq<Event>, u: UserId)
    ensures Balance(Run(es).store, u) == Sum(Run(es).store.ledger, u) + AllPending(Run(es).operations, u)
  {
    RunKeeps(es);
    assert Balanced(Run(es), u);
  }

  /** What the next row of operation i will say. */
  lemma RowSays(es: seq<Event>, i: nat)
    requires i < |Run(es).operations| && Inserting(Run(es).operations[i])
    ensures var o := Run(es).operations[i];
            var row := Row(o);
            row.balanceAfter ==
              if !WasRead(o) then 0
              else Balance(AtRead(es, i, ReadingCall(o)).store, row.user) + if o.work.Depositing? then row.amount else 0
  {
    hide Run, AtRead, Balance;
    RunRecalls(es, i);
  }

  /** The next row of operation i gets the right running balance exactly if the ledger has
      caught up with what its balance already included. */
  lemma RowRightIff(es: seq<Event>, i: nat)
    requires i < |Run(es).operations| && Inserting(Run(es).operations[i])
    ensures var row := Row(Run(es).operations[i]);
            row.balanceAfter == Sum(Run(es).store.ledger, row.user) + row.amount <==> CaughtUp(es, i)
  {
    hide Run, Sum, AllPending, ReadPoint, Row, WasRead, ReadingCall, Balance;
    var s, o := Run(es), Run(es).operations[i];
    var row := Row(o);
    var k := ReadingCall(o);
    var r := AtRead(es, i, k);
    RowSays(es, i);
    ReadPointBefore(es, i, k);
    BooksBalance(ReadPoint(es, i, k), row.user);
    var since := s.store.ledger[|r.store.ledger|..];
    assert s.store.ledger == r.store.ledger + since;
    SumAppend(r.store.ledger, since, row.user);
  }

  /** Every row of the run was inserted when the ledger had caught up. */
  predicate AlwaysCaughtUp(es: seq<Event>) {
    es == []
    || (AlwaysCaughtUp(es[..|es| - 1])
        && (Inserts(Run(es[..|es| - 1]), es[|es| - 1]) ==> CaughtUp(es[..|es| - 1], es[|es| - 1].i)))
  }

  predicate Inserts(s: State, e: Event) {
    e.Call? && e.i < |s.operations| && Inserting(s.operations[e.i]) && !e.reply.Lost?
  }

  lemma InsertAppends(s: State, e: Event)
    ensures Step(s, e).store.ledger ==
              if Inserts(s, e) then s.store.ledger + [Row(s.operations[e.i])] else s.store.ledger
  {
  }

  /** In every interleaving of calls: all running balances are the prefix sums of their
      user's rows if and only if every row was inserted when the ledger had caught up with
      the total that was read for it. */
  lemma {:induction false} RunningBalanceIff(es: seq<Event>)
    ensures RunningBalance(Run(es).store.ledger) <==> AlwaysCaughtUp(es)
  {
    if es != [] {
      var init, e := es[..|es| - 1], es[|es| - 1];
      var s := Run(init);
      RunningBalanceIff(init);
      InsertAppends(s, e);
      if Inserts(s, e) {
        RunningSnocIff(s.store.ledger, Row(s.operations[e.i]));
        RowRightIff(init, e.i);
      }
      hide RunningBalance, CaughtUp, Row;
    }
  }

  // ------------------------------------------------------------------ undisturbed rows

  /** No operation but number i has anything pending for u. */
  predicate NoneElsePends(os: seq<Operation>, i: nat, u: UserId) {
    forall j | 0 <= j < |os| && j != i :: Pending(os[j], u) == 0
  }

  /** The balance for the row could be read, a settlement's parties are two people, no other
      operation of the row's user was pending at the read, and none has logged a row since. */
  predicate Undisturbed(es: seq<Event>, i: nat)
    requires i < |Run(es).operations| && Inserting(Run(es).operations[i])
  {
    var s, o := Run(es), Run(es).operations[i];
    var r, u := AtRead(es, i, ReadingCall(o)), Row(o).user;
    && WasRead(o) && (o.work.Settling? ==> o.work.plan.session.client != o.work.plan.session.mentor)
    && NoneElsePends(r.operations, i, u)
    && |r.store.ledger| <= |s.store.ledger|
    && forall n | |r.store.ledger| <= n < |s.store.ledger| :: s.store.ledger[n].user != u
  }

  lemma {:induction false} OneAlonePends(os: seq<Operation>, i: nat, u: UserId)
    requires NoneElsePends(os, i, u)
    ensures AllPending(os, u) == if i < |os| then Pending(os[i], u) else 0
  {
    if os != [] {
      OneAlonePends(os[..|os| - 1], i, u);
    }
  }

  lemma {:induction false} NoRowsNoSum(ledger: seq<Tx>, u: UserId)
    requires forall n | 0 <= n < |ledger| :: ledger[n].user != u
    ensures Sum(ledger, u) == 0
  {
    if ledger != [] {
      NoRowsNoSum(ledger[..|ledger| - 1], u);
    }
  }

  /** Such a row is right. */
  lemma UndisturbedIsCaughtUp(es: seq<Event>, i: nat)
    requires i < |Run(es).operations| && Inserting(Run(es).operations[i]) && Undisturbed(es, i)
    ensures CaughtUp(es, i)
  {
    hide Run, AllPending, Sum, ReadPoint;
    var s, o := Run(es), Run(es).operations[i];
    var k, u := ReadingCall(o), Row(o).user;
    var r := AtRead(es, i, k);
    ReadersStood(es, i, k);
    OneAlonePends(r.operations, i, u);
    NoRowsNoSum(s.store.ledger[|r.store.ledger|..], u);
  }

  predicate AlwaysUndisturbed(es: seq<Event>) {
    es == []
    || (AlwaysUndisturbed(es[..|es| - 1])
        && (Inserts(Run(es[..|es| - 1]), es[|es| - 1]) ==> Undisturbed(es[..|es| - 1], es[|es| - 1].i)))
  }

  /** A run whose operations never disturb one another's reads for the same user has all its
      running balances right. */
  lemma {:induction false} UndisturbedRuns(es: seq<Event>)
    requires AlwaysUndisturbed(es)
    ensures AlwaysCaughtUp(es) && RunningBalance(Run(es).store.ledger)
  {
    hide CaughtUp, Undisturbed, RunningBalance;
    RunningBalanceIff(es);
    if es != [] {
      var init, e := es[..|es| - 1], es[|es| - 1];
      UndisturbedRuns(init);
      if Inserts(Run(init), e) {
        UndisturbedIsCaughtUp(init, e.i);
      }
    }
  }

  // ------------------------------------------------------------------ deposits that overlap

  function Begun(u: UserId, amount: int): seq<Event> {
    [Register(u), BeginDeposit(u, amount), BeginDeposit(u, amount)]
  }

  lemma BothBegun(u: UserId, amount: int)
    requires 0 < amount <= MAX_DEPOSIT
    ensures var o := Operation(Depositing(u, amount, amount), 0, false);
            Run(Begun(u, amount)) == State(Store(map[u := 0], [], map[], map[]), [o, o])
  {
    var es := [] + [Register(u)];
    RunSnoc([], Register(u));
    RunSnoc(es, BeginDeposit(u, amount));
    RunSnoc(es + [BeginDeposit(u, amount)], BeginDeposit(u, amount));
    assert Begun(u, amount) == es + [BeginDeposit(u, amount)] + [BeginDeposit(u, amount)];
  }

  /** Two deposits of a user that read the balance before either has logged its row: from the
      initial state, balance and ledger agree in the end, and the second row's running
      balance is wrong. */
  lemma OverlappingDeposits(u: UserId, amount: int)
    requires 0 < amount <= MAX_DEPOSIT
    ensures var es := Begun(u, amount) + [Call(0, Landed), Call(1, Landed)] + [Call(0, Landed), Call(1, Landed)];
            && AllFinished(Run(es)) && Agrees(Run(es).store) && !RunningBalance(Run(es).store.ledger)
  {
    hide Run, Agrees;
    var es := Begun(u, amount);
    var o := Operation(Depositing(u, amount, amount), 0, false);
    BothBegun(u, amount);
    TwoCalls(es);
    TwoCalls(es + [Call(0, Landed), Call(1, Landed)]);
    var all := es + [Call(0, Landed), Call(1, Landed)] + [Call(0, Landed), Call(1, Landed)];
    var row := Tx(u, Deposit, amount, amount, None);
    assert Run(all).operations == [o.(done := 2), o.(done := 2)];
    assert Run(all).store.ledger == [] + [row] + [row];
    FinishedAgrees(all);
    RunningSnocIff([] + [row], row);
    Snoc([], row, u, "", Deposit);
  }

  lemma TwoCalls(es: seq<Event>)
    ensures Run(es + [Call(0, Landed), Call(1, Landed)]) == Step(Step(Run(es), Call(0, Landed)), Call(1, Landed))
  {
    RunSnoc(es, Call(0, Landed));
    RunSnoc(es + [Call(0, Landed)], Call(1, Landed));
    assert es + [Call(0, Landed), Call(1, Landed)] == es + [Call(0, Landed)] + [Call(1, Landed)];
  }
}

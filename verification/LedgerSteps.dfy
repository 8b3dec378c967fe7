// Deposits and settlements one database call at a time. Any number of them run at once,
// their calls interleave in any order, and any write may be lost or land without its caller
// knowing, which ends its operation.
module LedgerSteps {
  import opened Common
  import opened Wallet
  import opened Ledger

  // `done` counts the calls of an operation that have landed.
  //   deposit:     0 $inc the balance, 1 insert the row
  //   settlement:  0 debit the client, 1 credit the mentor, 2 and 3 read their balances,
  //                4 insert the client's row, 5 insert the mentor's row, 6 complete the session
  datatype Work =
    | Depositing(user: UserId, amount: int, newBalance: int)
    | Settling(plan: Plan, clientBalance: Option<int>, mentorBalance: Option<int>)

  datatype Operation = Operation(work: Work, done: nat, dead: bool)

  datatype State = State(store: Store, operations: seq<Operation>)

  datatype Event =
    | Register(user: UserId)
    | OpenSession(room: RoomName, session: Session)
    | BeginDeposit(user: UserId, amount: int)
    | BeginSettlement(room: RoomName, exhausted: bool, now: int, feePercent: int)
    | Call(i: nat, reply: Reply)

  /** The checks and the balance read of a deposit; nothing has been written yet. */
  function StartDeposit(s: State, u: UserId, amount: int): State {
    if 0 < amount <= MAX_DEPOSIT && u in s.store.balances
    then s.(operations := s.operations + [Operation(Depositing(u, amount, s.store.balances[u] + amount), 0, false)])
    else s
  }

  /** The ACTIVE check of a settlement. Nothing keeps another one from passing it, too. */
  function StartSettlement(s: State, room: RoomName, exhausted: bool, now: int, feePercent: int): State {
    if room in s.store.sessions && s.store.sessions[room].status == Active
    then s.(operations := s.operations + [Operation(Settling(PlanFor(s.store.sessions[room], room, exhausted, now, feePercent), None, None), 0, false)])
    else s
  }

  predicate Finished(o: Operation) {
    o.done >= if o.work.Depositing? then 2 else 7
  }

  // A balance that could not be read is written as zero.
  function Known(balance: Option<int>): int {
    match balance
    case Some(cents) => cents
    case None => 0
  }

  function DepositRow(w: Work): Tx
    requires w.Depositing?
  {
    Tx(w.user, Deposit, w.amount, w.newBalance, None)
  }

  function DebitRow(w: Work): Tx
    requires w.Settling?
  {
    Tx(w.plan.session.client, SessionDebit, -w.plan.bill.total, Known(w.clientBalance), Some(w.plan.room))
  }

  function PayoutRow(w: Work): Tx
    requires w.Settling?
  {
    Tx(w.plan.session.mentor, MentorPayout, w.plan.bill.earnings, Known(w.mentorBalance), Some(w.plan.room))
  }

  /** What an operation's call number `done` does to the store when it lands. */
  function Land(store: Store, w: Work, done: nat): Store {
    match w
    case Depositing(u, amount, _) =>
      if done == 0 then Inc(store, u, amount) else if done == 1 then Log(store, DepositRow(w)) else store
    case Settling(p, _, _) =>
      if done == 0 then Inc(store, p.session.client, -p.bill.total)
      else if done == 1 then Inc(store, p.session.mentor, p.bill.earnings)
      else if done == 4 then Log(store, DebitRow(w))
      else if done == 5 then Log(store, PayoutRow(w))
      else if done == 6 then Complete(store, p)
      else store
  }

  /** The two reads of a settlement, whose errors are dropped. */
  predicate Reads(o: Operation) {
    o.work.Settling? && (o.done == 2 || o.done == 3)
  }

  function Remember(store: Store, o: Operation, reply: Reply): Work
    requires Reads(o)
  {
    var p := o.work.plan;
    if !reply.Landed? then o.work
    else if o.done == 2 then Settling(p, Some(Balance(store, p.session.client)), o.work.mentorBalance)
    else Settling(p, o.work.clientBalance, Some(Balance(store, p.session.mentor)))
  }

  function Next(store: Store, o: Operation, reply: Reply): Operation {
    if Reads(o) then o.(work := Remember(store, o, reply), done := o.done + 1)
    else if reply.Lost? then o.(dead := true)
    else o.(done := o.done + 1, dead := reply.LandedUnseen?)
  }

  function CallStep(s: State, i: nat, reply: Reply): State
    requires i < |s.operations|
  {
    var o := s.operations[i];
    if o.dead || Finished(o) then s
    else State(if reply.Lost? then s.store else Land(s.store, o.work, o.done), s.operations[i := Next(s.store, o, reply)])
  }

  function Step(s: State, e: Event): State {
    match e
    case Register(u) =>
      if u in s.store.balances then s else s.(store := s.store.(balances := s.store.balances[u := 0]))
    case OpenSession(room, session) =>
      if room in s.store.sessions || session.client !in s.store.balances || session.mentor !in s.store.balances then s
      else s.(store := s.store.(sessions := s.store.sessions[room := session]))
    case BeginDeposit(u, amount) => StartDeposit(s, u, amount)
    case BeginSettlement(room, exhausted, now, feePercent) => StartSettlement(s, room, exhausted, now, feePercent)
    case Call(i, reply) => if i < |s.operations| then CallStep(s, i, reply) else s
  }

  const INITIAL := State(Store(map[], [], map[], map[]), [])

  function Run(es: seq<Event>): State {
    if es == [] then INITIAL else Step(Run(es[..|es| - 1]), es[|es| - 1])
  }

  lemma RunSnoc(es: seq<Event>, e: Event)
    ensures Run(es + [e]) == Step(Run(es), e)
  {
    assert (es + [e])[..|es|] == es;
  }

  /** What a reply means for an operation that is under way. A write that is lost changes no
      store, one that lands unseen changes what an acknowledged one does, and both end the
      operation for good; a read ends nothing. */
  lemma RepliesDecide(s: State, i: nat, more: Reply)
    requires i < |s.operations| && !s.operations[i].dead && !Finished(s.operations[i])
    ensures var acknowledged, unseen, lost := CallStep(s, i, Landed), CallStep(s, i, LandedUnseen), CallStep(s, i, Lost);
            && lost.store == s.store && unseen.store == acknowledged.store
            && !acknowledged.operations[i].dead && acknowledged.operations[i].done == s.operations[i].done + 1
            && unseen.operations[i].done == s.operations[i].done + 1
            && (Reads(s.operations[i]) ==> !unseen.operations[i].dead && !lost.operations[i].dead && acknowledged.store == s.store)
            && (!Reads(s.operations[i]) ==> CallStep(unseen, i, more) == unseen && CallStep(lost, i, more) == lost)
  {
  }

  // ------------------------------------------------------------------ what is pending

  /** What an operation has added to u's balance and not yet written to the ledger. */
  function Pending(o: Operation, u: UserId): int {
    match o.work
    case Depositing(v, amount, _) => if v == u && o.done == 1 then amount else 0
    case Settling(p, _, _) =>
      (if p.session.client == u && 1 <= o.done <= 4 then -p.bill.total else 0)
      + (if p.session.mentor == u && 2 <= o.done <= 5 then p.bill.earnings else 0)
  }

  function AllPending(os: seq<Operation>, u: UserId): int {
    if os == [] then 0 else AllPending(os[..|os| - 1], u) + Pending(os[|os| - 1], u)
  }

  lemma {:induction false} AllPendingUpdate(os: seq<Operation>, i: nat, o: Operation, u: UserId)
    requires i < |os|
    ensures AllPending(os[i := o], u) == AllPending(os, u) - Pending(os[i], u) + Pending(o, u)
  {
    var k := |os| - 1;
    if i == k {
      assert os[i := o][..k] == os[..k];
    } else {
      assert os[i := o][..k] == os[..k][i := o];
      AllPendingUpdate(os[..k], i, o, u);
    }
  }

  lemma AllPendingSnoc(os: seq<Operation>, o: Operation, u: UserId)
    ensures AllPending(os + [o], u) == AllPending(os, u) + Pending(o, u)
  {
  }

  ghost predicate KnownParties(store: Store, w: Work) {
    match w
    case Depositing(u, _, _) => u in store.balances
    case Settling(p, _, _) => p.session.client in store.balances && p.session.mentor in store.balances
  }

  /** Every user's books: balance, rows and what is pending. Strangers have none of them. */
  ghost predicate Balanced(s: State, u: UserId) {
    if u in s.store.balances then s.store.balances[u] == Sum(s.store.ledger, u) + AllPending(s.operations, u)
    else Sum(s.store.ledger, u) == 0 && AllPending(s.operations, u) == 0
  }

  ghost predicate PartiesHaveAccounts(s: State) {
    && (forall room | room in s.store.sessions ::
          s.store.sessions[room].client in s.store.balances && s.store.sessions[room].mentor in s.store.balances)
    && (forall i | 0 <= i < |s.operations| :: KnownParties(s.store, s.operations[i].work))
  }

  ghost predicate Inv(s: State) {
    PartiesHaveAccounts(s) && forall u :: Balanced(s, u)
  }

  /** How far u's balance is ahead of u's rows. */
  function Ahead(store: Store, u: UserId): int {
    Balance(store, u) - Sum(store.ledger, u)
  }

  lemma IncAhead(store: Store, v: UserId, amount: int, u: UserId)
    requires v in store.balances
    ensures Ahead(Inc(store, v, amount), u) == Ahead(store, u) + if u == v then amount else 0
  {
  }

  lemma LogAhead(store: Store, tx: Tx, u: UserId)
    ensures Ahead(Log(store, tx), u) == Ahead(store, u) - if tx.user == u then tx.amount else 0
  {
  }

  /** What a call changes in how far u is ahead: an increment, a row, or nothing. */
  function Effect(w: Work, done: nat, u: UserId): int {
    match w
    case Depositing(v, amount, _) => if v != u then 0 else if done == 0 then amount else if done == 1 then -amount else 0
    case Settling(p, _, _) =>
      if done == 0 && p.session.client == u then -p.bill.total
      else if done == 1 && p.session.mentor == u then p.bill.earnings
      else if done == 4 && p.session.client == u then p.bill.total
      else if done == 5 && p.session.mentor == u then -p.bill.earnings
      else 0
  }

  lemma DepositMoves(store: Store, w: Work, done: nat, u: UserId)
    requires KnownParties(store, w) && w.Depositing?
    ensures Ahead(Land(store, w, done), u) == Ahead(store, u) + Effect(w, done, u)
  {
  }

  lemma SettlementMoves(store: Store, w: Work, done: nat, u: UserId)
    requires KnownParties(store, w) && w.Settling?
    ensures Ahead(Land(store, w, done), u) == Ahead(store, u) + Effect(w, done, u)
  {
    var p := w.plan;
    if done == 0 {
      IncAhead(store, p.session.client, -p.bill.total, u);
    } else if done == 1 {
      IncAhead(store, p.session.mentor, p.bill.earnings, u);
    } else if done == 4 {
      LogAhead(store, DebitRow(w), u);
    } else if done == 5 {
      LogAhead(store, PayoutRow(w), u);
    }
  }

  lemma EffectIsPending(store: Store, o: Operation, reply: Reply, u: UserId)
    ensures Pending(Next(store, o, reply), u) == Pending(o, u) + if reply.Lost? then 0 else Effect(o.work, o.done, u)
  {
  }

  lemma LandFrame(store: Store, w: Work, done: nat, u: UserId)
    requires KnownParties(store, w)
    ensures var t := Land(store, w, done);
            && t.balances.Keys == store.balances.Keys && t.sessions.Keys == store.sessions.Keys
            && (forall room | room in store.sessions ::
                  t.sessions[room].client == store.sessions[room].client && t.sessions[room].mentor == store.sessions[room].mentor)
            && (u !in store.balances ==> Pending(Operation(w, done, false), u) == 0)
  {
  }

  /** One call moves money between balance, pending and ledger; the three always agree. */
  lemma LandMoves(store: Store, o: Operation, reply: Reply, u: UserId)
    requires KnownParties(store, o.work)
    ensures var t := if reply.Lost? then store else Land(store, o.work, o.done);
            Ahead(t, u) - Pending(Next(store, o, reply), u) == Ahead(store, u) - Pending(o, u)
  {
    hide Ahead, Effect, Land;
    if o.work.Depositing? {
      DepositMoves(store, o.work, o.done, u);
    } else {
      SettlementMoves(store, o.work, o.done, u);
    }
    EffectIsPending(store, o, reply, u);
  }

  lemma CallKeepsParties(s: State, i: nat, reply: Reply)
    requires PartiesHaveAccounts(s) && i < |s.operations|
    ensures PartiesHaveAccounts(CallStep(s, i, reply))
  {
    var o := s.operations[i];
    LandFrame(s.store, o.work, o.done, "");
    var t := CallStep(s, i, reply);
    assert t.store.balances.Keys == s.store.balances.Keys;
  }

  lemma CallKeepsBooks(s: State, i: nat, reply: Reply, u: UserId)
    requires PartiesHaveAccounts(s) && i < |s.operations| && Balanced(s, u)
    ensures Balanced(CallStep(s, i, reply), u)
  {
    hide Land, AllPending, Sum;
    var o := s.operations[i];
    LandFrame(s.store, o.work, o.done, u);
    LandFrame(s.store, o.work, o.done + 1, u);
    LandMoves(s.store, o, reply, u);
    AllPendingUpdate(s.operations, i, Next(s.store, o, reply), u);
  }

  lemma CallKeeps(s: State, i: nat, reply: Reply)
    requires Inv(s) && i < |s.operations|
    ensures Inv(CallStep(s, i, reply))
  {
    CallKeepsParties(s, i, reply);
    forall u ensures Balanced(CallStep(s, i, reply), u) {
      assert Balanced(s, u);
      CallKeepsBooks(s, i, reply, u);
    }
  }

  lemma BeginKeeps(s: State, o: Operation)
    requires Inv(s) && KnownParties(s.store, o.work) && o.done == 0
    ensures Inv(s.(operations := s.operations + [o]))
  {
    forall u ensures Balanced(s.(operations := s.operations + [o]), u) {
      assert Balanced(s, u);
      AllPendingSnoc(s.operations, o, u);
    }
  }

  lemma StoreKeeps(s: State, e: Event)
    requires Inv(s) && (e.Register? || e.OpenSession?)
    ensures Inv(Step(s, e))
  {
    forall u ensures Balanced(Step(s, e), u) {
      assert Balanced(s, u);
    }
  }

  lemma StepKeeps(s: State, e: Event)
    requires Inv(s)
    ensures Inv(Step(s, e))
  {
    match e
    case Call(i, reply) => if i < |s.operations| { CallKeeps(s, i, reply); }
    case BeginDeposit(_, _) => if Step(s, e) != s { BeginKeeps(s, Step(s, e).operations[|s.operations|]); }
    case BeginSettlement(_, _, _, _) => if Step(s, e) != s { BeginKeeps(s, Step(s, e).operations[|s.operations|]); }
    case _ => StoreKeeps(s, e);
  }

  lemma {:induction false} RunKeeps(es: seq<Event>)
    ensures Inv(Run(es))
  {
    if es != [] {
      RunKeeps(es[..|es| - 1]);
      StepKeeps(Run(es[..|es| - 1]), es[|es| - 1]);
    }
  }

  /** In every interleaving of calls, whichever of them are lost or land unseen, each user's
      balance is the sum of their ledger rows and of the increments not logged yet. */
  lemma BalanceIsLedgerPlusPending(es: seq<Event>, u: UserId)
    requires u in Run(es).store.balances
    ensures Run(es).store.balances[u] == Sum(Run(es).store.ledger, u) + AllPending(Run(es).operations, u)
  {
    RunKeeps(es);
    assert Balanced(Run(es), u);
  }

  /** Every operation has made all its calls. */
  predicate AllFinished(s: State) {
    forall i | 0 <= i < |s.operations| :: Finished(s.operations[i])
  }

  /** Nothing is in flight: every operation has finished or died. */
  predicate Quiescent(s: State) {
    forall i | 0 <= i < |s.operations| :: Finished(s.operations[i]) || s.operations[i].dead
  }

  /** What the operations that died early have left pending for u. */
  function LeftPending(os: seq<Operation>, u: UserId): int {
    if os == [] then 0
    else
      var o := os[|os| - 1];
      LeftPending(os[..|os| - 1], u) + if o.dead && !Finished(o) then Pending(o, u) else 0
  }

  lemma {:induction false} OnlyTheDeadPend(os: seq<Operation>, u: UserId)
    requires forall i | 0 <= i < |os| :: Finished(os[i]) || os[i].dead
    ensures AllPending(os, u) == LeftPending(os, u)
  {
    if os != [] {
      OnlyTheDeadPend(os[..|os| - 1], u);
    }
  }

  /** When nothing is in flight, balances and ledger agree to the cent if and only if the
      operations that died leave nothing pending, for any user. */
  lemma QuiescentAgreesIff(es: seq<Event>)
    requires Quiescent(Run(es))
    ensures Agrees(Run(es).store) <==> forall u | u in Run(es).store.balances :: LeftPending(Run(es).operations, u) == 0
  {
    hide Run, Sum, AllPending, LeftPending;
    forall u | u in Run(es).store.balances
      ensures Run(es).store.balances[u] == Sum(Run(es).store.ledger, u) + LeftPending(Run(es).operations, u)
    {
      BalanceIsLedgerPlusPending(es, u);
      OnlyTheDeadPend(Run(es).operations, u);
    }
  }

  lemma {:induction false} NothingLeft(os: seq<Operation>, u: UserId)
    requires forall i | 0 <= i < |os| :: Finished(os[i])
    ensures LeftPending(os, u) == 0
  {
    if os != [] {
      NothingLeft(os[..|os| - 1], u);
    }
  }

  /** In particular when all of them have finished, even where settlements overlapped. */
  lemma FinishedAgrees(es: seq<Event>)
    requires AllFinished(Run(es))
    ensures Agrees(Run(es).store)
  {
    QuiescentAgreesIff(es);
    forall u | u in Run(es).store.balances ensures LeftPending(Run(es).operations, u) == 0 {
      NothingLeft(Run(es).operations, u);
    }
  }
}

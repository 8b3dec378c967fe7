// How often a session is debited and paid when settlements overlap, call by call.
module SettlementOverlap {
  import opened Common
  import opened Wallet
  import opened Ledger
  import opened LedgerSteps

  function Trues(marks: seq<bool>): nat {
    if marks == [] then 0 else Trues(marks[..|marks| - 1]) + if marks[|marks| - 1] then 1 else 0
  }

  lemma {:induction false} TruesUpdate(marks: seq<bool>, i: nat, b: bool)
    requires i < |marks|
    ensures Trues(marks[i := b]) == Trues(marks) - (if marks[i] then 1 else 0) + if b then 1 else 0
  {
    var k := |marks| - 1;
    if i == k {
      assert marks[i := b][..k] == marks[..k];
    } else {
      assert marks[i := b][..k] == marks[..k][i := b];
      TruesUpdate(marks[..k], i, b);
    }
  }

  lemma TruesSnoc(marks: seq<bool>, b: bool)
    ensures Trues(marks + [b]) == Trues(marks) + if b then 1 else 0
  {
    assert (marks + [b])[..|marks|] == marks;
  }

  lemma {:induction false} TrueSomewhere(marks: seq<bool>)
    ensures Trues(marks) == 0 <==> forall i | 0 <= i < |marks| :: !marks[i]
  {
    if marks != [] {
      TrueSomewhere(marks[..|marks| - 1]);
    }
  }

  lemma {:induction false} TwoTrues(marks: seq<bool>, i: nat, j: nat)
    requires i < j < |marks| && marks[i] && marks[j]
    ensures Trues(marks) >= 2
  {
    var init := marks[..|marks| - 1];
    if j == |init| {
      TrueSomewhere(init);
      assert init[i];
    } else {
      TwoTrues(init, i, j);
    }
  }

  lemma {:induction false} FindTwo(marks: seq<bool>) returns (i: nat, j: nat)
    requires Trues(marks) >= 2
    ensures i < j < |marks| && marks[i] && marks[j]
  {
    var init := marks[..|marks| - 1];
    if Trues(init) >= 2 {
      i, j := FindTwo(init);
    } else {
      TrueSomewhere(init);
      i :| 0 <= i < |init| && init[i];
      j := |init|;
    }
  }

  // ------------------------------------------------------------------ rows are calls

  predicate Settles(o: Operation, room: RoomName) {
    o.work.Settling? && o.work.plan.room == room
  }

  predicate Got(o: Operation, room: RoomName, k: nat) {
    Settles(o, room) && o.done >= k
  }

  /** The settlements of a room that have got at least k calls done. */
  function Reached(os: seq<Operation>, room: RoomName, k: nat): (marks: seq<bool>)
    ensures |marks| == |os|
    ensures forall i | 0 <= i < |os| :: marks[i] == Got(os[i], room, k)
  {
    seq(|os|, i requires 0 <= i < |os| => Got(os[i], room, k))
  }

  ghost predicate RowsCounted(s: State, room: RoomName) {
    && Count(s.store.ledger, room, SessionDebit) == Trues(Reached(s.operations, room, 5))
    && Count(s.store.ledger, room, MentorPayout) == Trues(Reached(s.operations, room, 6))
  }

  lemma ReachedUpdate(os: seq<Operation>, i: nat, o: Operation, room: RoomName, k: nat)
    requires i < |os|
    ensures Trues(Reached(os[i := o], room, k)) ==
              Trues(Reached(os, room, k)) - (if Got(os[i], room, k) then 1 else 0) + if Got(o, room, k) then 1 else 0
  {
    assert Reached(os[i := o], room, k) == Reached(os, room, k)[i := Got(o, room, k)];
    TruesUpdate(Reached(os, room, k), i, Got(o, room, k));
  }

  lemma ReachedSnoc(os: seq<Operation>, o: Operation, room: RoomName, k: nat)
    ensures Trues(Reached(os + [o], room, k)) == Trues(Reached(os, room, k)) + if Got(o, room, k) then 1 else 0
  {
    assert Reached(os + [o], room, k) == Reached(os, room, k) + [Got(o, room, k)];
    TruesSnoc(Reached(os, room, k), Got(o, room, k));
  }

  lemma LogCounts(store: Store, tx: Tx, room: RoomName, kind: TxKind)
    ensures Count(Log(store, tx).ledger, room, kind)
            == Count(store.ledger, room, kind) + if tx.session == Some(room) && tx.kind == kind then 1 else 0
  {
    Snoc(store.ledger, tx, "", room, kind);
  }

  /** The call that inserts a row is the one that takes the settlement past it. */
  lemma LandCounts(store: Store, w: Work, done: nat, room: RoomName, kind: TxKind)
    requires kind != Deposit
    ensures var k := if kind == SessionDebit then 5 else 6;
            Count(Land(store, w, done).ledger, room, kind) ==
              Count(store.ledger, room, kind) + if w.Settling? && w.plan.room == room && done + 1 == k then 1 else 0
  {
    hide Count;
    if w.Depositing? {
      LogCounts(store, DepositRow(w), room, kind);
    } else {
      LogCounts(store, DebitRow(w), room, kind);
      LogCounts(store, PayoutRow(w), room, kind);
    }
  }

  lemma CallCounts(s: State, i: nat, reply: Reply, room: RoomName)
    requires RowsCounted(s, room) && i < |s.operations|
    ensures RowsCounted(CallStep(s, i, reply), room)
  {
    hide Count, Trues, Reached, Land;
    var o := s.operations[i];
    if !o.dead && !Finished(o) {
      var next := Next(s.store, o, reply);
      ReachedUpdate(s.operations, i, next, room, 5);
      ReachedUpdate(s.operations, i, next, room, 6);
      LandCounts(s.store, o.work, o.done, room, SessionDebit);
      LandCounts(s.store, o.work, o.done, room, MentorPayout);
      NextGot(s.store, o, reply, room, 5);
      NextGot(s.store, o, reply, room, 6);
      hide Next, Got;
    }
  }

  lemma NextGot(store: Store, o: Operation, reply: Reply, room: RoomName, k: nat)
    requires k == 5 || k == 6
    ensures var next := Next(store, o, reply);
            && (Got(o, room, k) ==> Got(next, room, k))
            && (Got(next, room, k) && !Got(o, room, k) <==> o.work.Settling? && o.work.plan.room == room && o.done + 1 == k && !reply.Lost?)
  {
  }

  lemma StepCounts(s: State, e: Event, room: RoomName)
    requires RowsCounted(s, room)
    ensures RowsCounted(Step(s, e), room)
  {
    hide Count, Trues, Reached;
    var t := Step(s, e);
    if e.Call? && e.i < |s.operations| {
      CallCounts(s, e.i, e.reply, room);
    } else if t.operations != s.operations {
      ReachedSnoc(s.operations, t.operations[|s.operations|], room, 5);
      ReachedSnoc(s.operations, t.operations[|s.operations|], room, 6);
    }
  }

  /** In every run there is a debit row, and a payout row, for each settlement that has got as
      far as that. */
  lemma {:induction false} RowsAreCalls(es: seq<Event>, room: RoomName)
    ensures RowsCounted(Run(es), room)
  {
    if es != [] {
      RowsAreCalls(es[..|es| - 1], room);
      StepCounts(Run(es[..|es| - 1]), es[|es| - 1], room);
    }
  }

  // ------------------------------------------------------------------ in one another's way

  /** The operation has debited the room's client, or is under way to. */
  predicate May(o: Operation, room: RoomName) {
    Settles(o, room) && (!o.dead || o.done >= 5)
  }

  function Debitors(os: seq<Operation>, room: RoomName): (marks: seq<bool>)
    ensures |marks| == |os|
    ensures forall i | 0 <= i < |os| :: marks[i] == May(os[i], room)
  {
    seq(|os|, i requires 0 <= i < |os| => May(os[i], room))
  }

  predicate InFlight(o: Operation) {
    !o.dead && !Finished(o)
  }

  /** Another settlement of the room is in flight, or has died after its debit row and before
      it completed the session. */
  predicate InTheWay(o: Operation, room: RoomName) {
    Settles(o, room) && (InFlight(o) || (o.dead && 5 <= o.done < 7))
  }

  predicate Clear(s: State, room: RoomName) {
    forall i | 0 <= i < |s.operations| :: !InTheWay(s.operations[i], room)
  }

  /** The settlement passes the ACTIVE check. */
  predicate Passes(s: State, e: Event, room: RoomName) {
    e.BeginSettlement? && e.room == room && room in s.store.sessions && s.store.sessions[room].status == Active
  }

  /** Settlements of the room pass the ACTIVE check only when the way is clear. */
  predicate Exclusive(es: seq<Event>, room: RoomName) {
    es == []
    || (Exclusive(es[..|es| - 1], room)
        && (Passes(Run(es[..|es| - 1]), es[|es| - 1], room) ==> Clear(Run(es[..|es| - 1]), room)))
  }

  ghost predicate Final(s: State) {
    forall i | 0 <= i < |s.operations| && s.operations[i].work.Settling? ::
      var o := s.operations[i];
      && o.work.plan.room in s.store.sessions && o.work.plan.status != Active
      && (o.done >= 7 ==> s.store.sessions[o.work.plan.room].status != Active)
  }

  lemma LandIsFinal(store: Store, w: Work, done: nat)
    ensures var t := Land(store, w, done);
            && t.sessions.Keys == store.sessions.Keys
            && (w.Settling? && w.plan.status != Active ==>
                  && (forall r | r in store.sessions && store.sessions[r].status != Active :: t.sessions[r].status != Active)
                  && (done == 6 && w.plan.room in t.sessions ==> t.sessions[w.plan.room].status != Active))
            && (w.Depositing? ==> t.sessions == store.sessions)
  {
  }

  lemma CallKeepsFinal(s: State, i: nat, reply: Reply)
    requires Final(s) && i < |s.operations|
    ensures Final(CallStep(s, i, reply))
  {
    hide Land;
    var o := s.operations[i];
    LandIsFinal(s.store, o.work, o.done);
  }

  lemma StepKeepsFinal(s: State, e: Event)
    requires Final(s)
    ensures Final(Step(s, e))
  {
    if e.Call? && e.i < |s.operations| {
      CallKeepsFinal(s, e.i, e.reply);
      hide CallStep;
    }
  }

  lemma {:induction false} RunKeepsFinal(es: seq<Event>)
    ensures Final(Run(es))
  {
    if es != [] {
      RunKeepsFinal(es[..|es| - 1]);
      StepKeepsFinal(Run(es[..|es| - 1]), es[|es| - 1]);
    }
  }

  /** While a session is ACTIVE, whoever may debit it is in the way of the next settlement. */
  lemma ClearIff(s: State, room: RoomName)
    requires Final(s) && room in s.store.sessions && s.store.sessions[room].status == Active
    ensures Clear(s, room) <==> Trues(Debitors(s.operations, room)) == 0
  {
    TrueSomewhere(Debitors(s.operations, room));
    forall i | 0 <= i < |s.operations| ensures InTheWay(s.operations[i], room) <==> Debitors(s.operations, room)[i] {
    }
  }

  lemma CallDebitors(s: State, i: nat, reply: Reply, room: RoomName)
    requires i < |s.operations|
    ensures Trues(Debitors(CallStep(s, i, reply).operations, room)) <= Trues(Debitors(s.operations, room))
  {
    var os := s.operations;
    var next := Next(s.store, os[i], reply);
    assert Debitors(os[i := next], room) == Debitors(os, room)[i := May(next, room)];
    TruesUpdate(Debitors(os, room), i, May(next, room));
  }

  /** Only a settlement that passes the check adds to them. */
  lemma StepDebitors(s: State, e: Event, room: RoomName)
    ensures var n, m := Trues(Debitors(s.operations, room)), Trues(Debitors(Step(s, e).operations, room));
            if Passes(s, e, room) then m == n + 1 else m <= n
  {
    hide Trues, CallStep;
    var t := Step(s, e);
    if e.Call? && e.i < |s.operations| {
      CallDebitors(s, e.i, e.reply, room);
    } else if t.operations != s.operations {
      var o := t.operations[|s.operations|];
      assert Debitors(t.operations, room) == Debitors(s.operations, room) + [May(o, room)];
      TruesSnoc(Debitors(s.operations, room), May(o, room));
    }
  }

  // ------------------------------------------------------------------ at most once

  /** Calls of operations that have begun, and nothing else. */
  predicate OnlyCalls(es: seq<Event>) {
    forall i | 0 <= i < |es| :: es[i].Call?
  }

  function Debits(es: seq<Event>, room: RoomName): nat {
    Count(Run(es).store.ledger, room, SessionDebit)
  }

  /** However the calls under way go on, the room is debited at most once. */
  ghost predicate AtMostOnce(es: seq<Event>, room: RoomName) {
    forall more | OnlyCalls(more) :: Debits(es + more, room) <= 1
  }

  lemma {:induction false} CallsAddNoDebitor(es: seq<Event>, more: seq<Event>, room: RoomName)
    requires OnlyCalls(more)
    ensures Trues(Debitors(Run(es + more).operations, room)) <= Trues(Debitors(Run(es).operations, room))
    decreases |more|
  {
    hide Run, Step, Debitors, Trues;
    if more == [] {
      assert es + more == es;
    } else {
      var init, e := more[..|more| - 1], more[|more| - 1];
      CallsAddNoDebitor(es, init, room);
      RunSnoc(es + init, e);
      assert es + more == es + init + [e];
      StepDebitors(Run(es + init), e, room);
    }
  }

  lemma {:induction false} GotAreDebitors(os: seq<Operation>, room: RoomName)
    ensures Trues(Reached(os, room, 6)) <= Trues(Reached(os, room, 5)) <= Trues(Debitors(os, room))
  {
    if os != [] {
      var init, last := os[..|os| - 1], os[|os| - 1];
      GotAreDebitors(init, room);
      assert Reached(os, room, 6) == Reached(init, room, 6) + [Got(last, room, 6)];
      assert Reached(os, room, 5) == Reached(init, room, 5) + [Got(last, room, 5)];
      assert Debitors(os, room) == Debitors(init, room) + [May(last, room)];
      TruesSnoc(Reached(init, room, 6), Got(last, room, 6));
      TruesSnoc(Reached(init, room, 5), Got(last, room, 5));
      TruesSnoc(Debitors(init, room), May(last, room));
    }
  }

  function Calls(i: nat, n: nat): seq<Event> {
    seq(n, _ => Call(i, Landed))
  }

  /** The operation after n more calls that land. */
  predicate Driven(o: Operation, p: Operation, n: nat) {
    && (o.work.Settling? <==> p.work.Settling?) && (o.work.Settling? ==> p.work.plan == o.work.plan)
    && p.dead == o.dead
    && p.done == (if o.dead || Finished(o) then o.done else if o.done + n <= Length(o) then o.done + n else Length(o))
  }

  function Length(o: Operation): nat {
    if o.work.Depositing? then 2 else 7
  }

  lemma DriveOnce(s: State, i: nat)
    requires i < |s.operations|
    ensures var os, ps := s.operations, Step(s, Call(i, Landed)).operations;
            && |ps| == |os| && Driven(os[i], ps[i], 1)
            && forall j | 0 <= j < |os| && j != i :: ps[j] == os[j]
  {
    hide Land;
  }

  lemma {:induction false} Drive(es: seq<Event>, i: nat, n: nat)
    requires i < |Run(es).operations|
    ensures var os, ps := Run(es).operations, Run(es + Calls(i, n)).operations;
            && |ps| == |os| && Driven(os[i], ps[i], n)
            && forall j | 0 <= j < |os| && j != i :: ps[j] == os[j]
  {
    if n == 0 {
      assert es + Calls(i, n) == es;
    } else {
      Drive(es, i, n - 1);
      RunSnoc(es + Calls(i, n - 1), Call(i, Landed));
      assert es + Calls(i, n) == es + Calls(i, n - 1) + [Call(i, Landed)];
      DriveOnce(Run(es + Calls(i, n - 1)), i);
      hide Run, Step, Calls;
    }
  }

  /** Two that may debit the room can both be brought to do so. */
  lemma BothDebit(es: seq<Event>, room: RoomName, i: nat, j: nat)
    requires i < j < |Run(es).operations| && May(Run(es).operations[i], room) && May(Run(es).operations[j], room)
    ensures Debits(es + Calls(i, 7) + Calls(j, 7), room) >= 2
  {
    Drive(es, i, 7);
    Drive(es + Calls(i, 7), j, 7);
    var all := es + Calls(i, 7) + Calls(j, 7);
    RowsAreCalls(all, room);
    TwoTrues(Reached(Run(all).operations, room, 5), i, j);
  }

  /** The calls under way can debit the room at most once exactly if at most one settlement
      of it has, or still may. */
  lemma AtMostOnceIff(es: seq<Event>, room: RoomName)
    ensures AtMostOnce(es, room) <==> Trues(Debitors(Run(es).operations, room)) <= 1
  {
    if Trues(Debitors(Run(es).operations, room)) <= 1 {
      forall more | OnlyCalls(more) ensures Debits(es + more, room) <= 1 {
        CallsAddNoDebitor(es, more, room);
        RowsAreCalls(es + more, room);
        GotAreDebitors(Run(es + more).operations, room);
      }
    } else {
      var i, j := FindTwo(Debitors(Run(es).operations, room));
      BothDebit(es, room, i, j);
      assert es + Calls(i, 7) + Calls(j, 7) == es + (Calls(i, 7) + Calls(j, 7));
      assert OnlyCalls(Calls(i, 7) + Calls(j, 7));
    }
  }

  /** At most one debit at every moment of the run, whatever the calls under way would do. */
  ghost predicate AlwaysAtMostOnce(es: seq<Event>, room: RoomName) {
    AtMostOnce(es, room) && (es == [] || AlwaysAtMostOnce(es[..|es| - 1], room))
  }

  /** A room is safe from a second debit throughout a run if and only if settlements of it
      pass the ACTIVE check only while no other one is in flight and none has died between
      its debit row and the completion of the session. */
  lemma {:induction false} SettledOnceIffExclusive(es: seq<Event>, room: RoomName)
    ensures AlwaysAtMostOnce(es, room) <==> Exclusive(es, room)
  {
    AtMostOnceIff(es, room);
    if es == [] {
      TrueSomewhere(Debitors(Run(es).operations, room));
    } else {
      var init, e := es[..|es| - 1], es[|es| - 1];
      SettledOnceIffExclusive(init, room);
      AtMostOnceIff(init, room);
      StepDebitors(Run(init), e, room);
      RunKeepsFinal(init);
      if Passes(Run(init), e, room) {
        ClearIff(Run(init), room);
      }
      if AlwaysAtMostOnce(init, room) {
        assert AtMostOnce(init, room);
      }
      hide AtMostOnce, Debitors, Trues, Clear, Passes;
    }
  }

  /** Under that discipline there is at most one row of each kind. */
  lemma ExclusiveRows(es: seq<Event>, room: RoomName)
    requires Exclusive(es, room)
    ensures Count(Run(es).store.ledger, room, SessionDebit) <= 1
    ensures Count(Run(es).store.ledger, room, MentorPayout) <= 1
  {
    SettledOnceIffExclusive(es, room);
    AtMostOnceIff(es, room);
    RowsAreCalls(es, room);
    GotAreDebitors(Run(es).operations, room);
  }

  // ------------------------------------------------------------------ settled twice

  // Two finalisations of one session: the participant's and the media server's, say.
  function Opening(client: UserId, mentor: UserId, room: RoomName, session: Session): seq<Event> {
    [Register(client), Register(mentor), OpenSession(room, session)]
  }

  function Twice(room: RoomName, now: int, feePercent: int): seq<Event> {
    [BeginSettlement(room, false, now, feePercent), BeginSettlement(room, false, now, feePercent)]
  }

  lemma Opened(client: UserId, mentor: UserId, room: RoomName, session: Session)
    requires client != mentor && session.client == client && session.mentor == mentor
    ensures Run(Opening(client, mentor, room, session)) ==
              State(Store(map[client := 0, mentor := 0], [], map[room := session], map[]), [])
  {
    var es := [] + [Register(client)];
    RunSnoc([], Register(client));
    RunSnoc(es, Register(mentor));
    RunSnoc(es + [Register(mentor)], OpenSession(room, session));
    assert Opening(client, mentor, room, session) == es + [Register(mentor)] + [OpenSession(room, session)];
  }

  /** Two settlements that check before either completes: from the initial state, the run ends
      with two debit and two payout rows and nothing under way. */
  lemma SettledTwice(client: UserId, mentor: UserId, room: RoomName, session: Session, now: int, feePercent: int)
    requires client != mentor && session.client == client && session.mentor == mentor && session.status == Active
    ensures var es := Opening(client, mentor, room, session) + Twice(room, now, feePercent) + Calls(0, 7) + Calls(1, 7);
            && Count(Run(es).store.ledger, room, SessionDebit) == 2
            && Count(Run(es).store.ledger, room, MentorPayout) == 2
            && AllFinished(Run(es))
  {
    var opening, begin := Opening(client, mentor, room, session), BeginSettlement(room, false, now, feePercent);
    Opened(client, mentor, room, session);
    RunSnoc(opening, begin);
    RunSnoc(opening + [begin], begin);
    var begun := opening + Twice(room, now, feePercent);
    assert begun == opening + [begin] + [begin];
    Drive(begun, 0, 7);
    Drive(begun + Calls(0, 7), 1, 7);
    var es := begun + Calls(0, 7) + Calls(1, 7);
    RowsAreCalls(es, room);
    AllTrue(Reached(Run(es).operations, room, 5));
    AllTrue(Reached(Run(es).operations, room, 6));
  }

  lemma AllTrue(marks: seq<bool>)
    requires |marks| == 2 && marks[0] && marks[1]
    ensures Trues(marks) == 2
  {
    assert marks == [] + [true] + [true];
    TruesSnoc([], true);
    TruesSnoc([] + [true], true);
  }
}

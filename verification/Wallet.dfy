// Deposits and settlements: what one call does to balances, ledger, sessions and the
// balance cache, including what it leaves behind when one of its writes fails.
module Wallet {
  import opened Common
  import opened Billing

  const MAX_DEPOSIT := 1_000_000

  datatype TxKind = Deposit | SessionDebit | MentorPayout

  datatype Tx = Tx(user: UserId, kind: TxKind, amount: int, balanceAfter: int, session: Option<RoomName>)

  datatype Status = Active | Completed | Exhausted

  datatype Summary = Summary(total: int, earnings: int, fee: int)

  const NO_SUMMARY := Summary(0, 0, 0)

  datatype Session = Session(
    request: RequestId, client: UserId, mentor: UserId, rate: int, startedAt: int,
    status: Status, seconds: int, summary: Summary)

  datatype Store = Store(
    balances: map<UserId, int>, ledger: seq<Tx>, sessions: map<RoomName, Session>, cache: map<UserId, int>)

  function Balance(s: Store, u: UserId): int {
    if u in s.balances then s.balances[u] else 0
  }

  // $inc on the user's document; an unknown user is a successful no-op.
  function Inc(s: Store, u: UserId, amount: int): Store {
    if u in s.balances then s.(balances := s.balances[u := s.balances[u] + amount]) else s
  }

  function Log(s: Store, tx: Tx): Store {
    s.(ledger := s.ledger + [tx])
  }

  // ------------------------------------------------------------------ settlement

  // One settlement: the session as it was read, its bill, and the status it will get.
  datatype Plan = Plan(room: RoomName, session: Session, bill: Bill, status: Status)

  // How one pass through the five writes goes: the replies to them, up to the first one that
  // reports an error and ends the pass, and whether the two balance reads between the second
  // and the third write succeed.
  datatype Attempt = Attempt(
    debit: Reply, credit: Reply, debitRow: Reply, payoutRow: Reply, complete: Reply,
    clientRead: bool, mentorRead: bool)
  {
    predicate Acknowledged() {
      debit.Landed? && credit.Landed? && debitRow.Landed? && payoutRow.Landed? && complete.Landed?
    }

    /** How many of the writes land, the one whose error ends the pass included. */
    function Written(): nat {
      if !debit.Landed? then Reached(0, debit)
      else if !credit.Landed? then Reached(1, credit)
      else if !debitRow.Landed? then Reached(2, debitRow)
      else if !payoutRow.Landed? then Reached(3, payoutRow)
      else Reached(4, complete)
    }
  }

  function Reached(before: nat, reply: Reply): nat {
    if reply.Lost? then before else before + 1
  }

  // A transaction: its pass, and the reply to its commit. A commit may be carried out
  // although the driver reports an error.
  datatype Transaction = Transaction(attempt: Attempt, commit: Reply)

  // The environment of one FinalizeRoomSession: the lookup, the transaction if one could be
  // started, the fallback pass, and the final cache refresh.
  datatype Env = Env(lookup: bool, transaction: Option<Transaction>, fallback: Attempt, refresh: bool)

  datatype FinalizeResult = Ok | NotFound | WriteFailed

  function Debit(s: Store, p: Plan, a: Attempt): Tx {
    Tx(p.session.client, SessionDebit, -p.bill.total, if a.clientRead then Balance(s, p.session.client) else 0, Some(p.room))
  }

  function Payout(s: Store, p: Plan, a: Attempt): Tx {
    Tx(p.session.mentor, MentorPayout, p.bill.earnings, if a.mentorRead then Balance(s, p.session.mentor) else 0, Some(p.room))
  }

  function Complete(s: Store, p: Plan): Store {
    if p.room !in s.sessions then s
    else
      s.(sessions := s.sessions[p.room := s.sessions[p.room].(
           status := p.status, seconds := p.bill.seconds,
           summary := Summary(p.bill.total, p.bill.earnings, p.bill.fee))])
  }

  /** The first two writes, as far as they land. */
  function Paid(s: Store, p: Plan, k: nat): Store {
    var s1 := if k >= 1 then Inc(s, p.session.client, -p.bill.total) else s;
    if k >= 2 then Inc(s1, p.session.mentor, p.bill.earnings) else s1
  }

  /** The two rows, with the balances as they are by then. */
  function Logged(s: Store, p: Plan, a: Attempt, k: nat): Store {
    var s3 := if k >= 3 then Log(s, Debit(s, p, a)) else s;
    if k >= 4 then Log(s3, Payout(s, p, a)) else s3
  }

  /** The store after the first k of the five writes. */
  function Settled(s: Store, p: Plan, a: Attempt, k: nat): Store {
    var t := Logged(Paid(s, p, k), p, a, k);
    if k >= 5 then Complete(t, p) else t
  }

  function PlanFor(session: Session, room: RoomName, exhausted: bool, now: int, feePercent: int): Plan {
    Plan(room, session, BillFor(session.rate, now - session.startedAt, feePercent), if exhausted then Exhausted else Completed)
  }

  function Refresh(s: Store, u: UserId, ok: bool): Store {
    if ok && u in s.balances then s.(cache := s.cache[u := s.balances[u]]) else s
  }

  /** The transaction's writes are kept. */
  predicate Persists(env: Env) {
    env.transaction.Some? && env.transaction.value.attempt.Acknowledged() && !env.transaction.value.commit.Lost?
  }

  /** And the service knows. */
  predicate Commits(env: Env) {
    Persists(env) && env.transaction.value.commit.Landed?
  }

  /** Or it does not, and tries again. */
  predicate CommitsUnseen(env: Env) {
    Persists(env) && !Commits(env)
  }

  /** The store that the transaction leaves, kept or rolled back. */
  function AfterTransaction(s: Store, p: Plan, env: Env): Store {
    if Persists(env) then Settled(s, p, env.transaction.value.attempt, 5) else s
  }

  function Finalize(s: Store, room: RoomName, exhausted: bool, now: int, feePercent: int, env: Env): (Store, FinalizeResult) {
    if !env.lookup || room !in s.sessions then (s, NotFound)
    else if s.sessions[room].status != Active then (s, Ok)
    else
      var p := PlanFor(s.sessions[room], room, exhausted, now, feePercent);
      var t := AfterTransaction(s, p, env);
      if Commits(env) then (Refresh(t, p.session.client, env.refresh), Ok)
      else
        var u := Settled(t, p, env.fallback, env.fallback.Written());
        if env.fallback.Acknowledged() then (Refresh(u, p.session.client, env.refresh), Ok) else (u, WriteFailed)
  }

  /** Both parties have an account, and they are different people. */
  predicate PartiesKnown(s: Store, room: RoomName) {
    room in s.sessions && s.sessions[room].client in s.balances && s.sessions[room].mentor in s.balances
      && s.sessions[room].client != s.sessions[room].mentor
  }

  /** One full settlement of p took the store from s to t, seen from outside: who gained
      and lost what, which two rows were added and what became of the session. */
  ghost predicate FullSettlement(s: Store, t: Store, p: Plan, a: Attempt) {
    && t.balances.Keys == s.balances.Keys
    && (forall u | u in s.balances ::
          t.balances[u] == s.balances[u] + (if u == p.session.client then -p.bill.total else if u == p.session.mentor then p.bill.earnings else 0))
    && |t.ledger| == |s.ledger| + 2
    && t.ledger[..|s.ledger|] == s.ledger
    && t.ledger[|s.ledger|] ==
       Tx(p.session.client, SessionDebit, -p.bill.total, if a.clientRead then Balance(t, p.session.client) else 0, Some(p.room))
    && t.ledger[|s.ledger| + 1] ==
       Tx(p.session.mentor, MentorPayout, p.bill.earnings, if a.mentorRead then Balance(t, p.session.mentor) else 0, Some(p.room))
    && t.sessions.Keys == s.sessions.Keys
    && (forall r | r in s.sessions && r != p.room :: t.sessions[r] == s.sessions[r])
    && p.room in s.sessions
    && t.sessions[p.room] == s.sessions[p.room].(status := p.status, seconds := p.bill.seconds,
                                                 summary := Summary(p.bill.total, p.bill.earnings, p.bill.fee))
    && (forall u | u != p.session.client :: (u in t.cache <==> u in s.cache) && (u in s.cache ==> t.cache[u] == s.cache[u]))
  }

  predicate Settleable(s: Store, p: Plan) {
    PartiesKnown(s, p.room) && p.session.client == s.sessions[p.room].client && p.session.mentor == s.sessions[p.room].mentor
  }

  lemma FiveWritesSettle(s: Store, p: Plan, a: Attempt)
    requires Settleable(s, p)
    ensures FullSettlement(s, Settled(s, p, a, 5), p, a) && Settleable(Settled(s, p, a, 5), p)
  {
    var t := Settled(s, p, a, 5);
    assert t.ledger == s.ledger + [t.ledger[|s.ledger|]] + [t.ledger[|s.ledger| + 1]];
  }

  lemma PaidFrame(s: Store, p: Plan, k: nat)
    ensures var t := Paid(s, p, k);
            t.balances.Keys == s.balances.Keys && t.ledger == s.ledger && t.sessions == s.sessions && t.cache == s.cache
  {
  }

  lemma LoggedFrame(s: Store, p: Plan, a: Attempt, k: nat)
    ensures var t := Logged(s, p, a, k);
            t.balances == s.balances && t.sessions == s.sessions && t.cache == s.cache
  {
  }

  /** Accounts and cache keep, sessions change with the fifth write only. */
  lemma SettledFrame(s: Store, p: Plan, a: Attempt, k: nat)
    ensures var t := Settled(s, p, a, k);
            && t.balances.Keys == s.balances.Keys && t.cache == s.cache
            && t.sessions == if k >= 5 then Complete(s, p).sessions else s.sessions
  {
    hide Paid, Logged;
    PaidFrame(s, p, k);
    LoggedFrame(Paid(s, p, k), p, a, k);
  }

  /** The pass is acknowledged only if all five writes landed; all five may land without. */
  lemma WrittenBounds(a: Attempt)
    ensures a.Written() <= 5 && (a.Acknowledged() ==> a.Written() == 5)
    ensures a.Written() == 0 <==> a.debit.Lost?
  {
  }

  /** What a finalisation of an ACTIVE session comes to. */
  ghost predicate Outcome(s: Store, t: Store, r: FinalizeResult, p: Plan, env: Env) {
    var b := AfterTransaction(s, p, env);
    && (if Persists(env) then FullSettlement(s, b, p, env.transaction.value.attempt) else b == s)
    && (r == Ok <==> Commits(env) || env.fallback.Acknowledged())
    && (Commits(env) ==> FullSettlement(s, t, p, env.transaction.value.attempt))
    && (!Commits(env) && env.fallback.Written() == 5 ==> FullSettlement(b, t, p, env.fallback))
    && (r != Ok ==> r == WriteFailed && t == Settled(b, p, env.fallback, env.fallback.Written()) && t.cache == s.cache)
    && t.sessions.Keys == s.sessions.Keys && p.room in t.sessions
    && (t.sessions[p.room].status == Active <==> !Persists(env) && env.fallback.Written() < 5)
  }

  /** Whatever fails or lands unseen, on whichever path: a finalised session is left alone;
      an ACTIVE one is settled in full by the transaction that persists and again by a
      fallback whose five writes land; it leaves ACTIVE exactly if one of them does; and an
      error leaves what the transaction kept and the writes of the fallback that landed. */
  lemma FinalizeOutcome(s: Store, room: RoomName, exhausted: bool, now: int, feePercent: int, env: Env)
    requires room in s.sessions ==> PartiesKnown(s, room)
    ensures var (t, r) := Finalize(s, room, exhausted, now, feePercent, env);
            && (r == NotFound <==> !env.lookup || room !in s.sessions)
            && (r == NotFound || s.sessions[room].status != Active ==> t == s && r != WriteFailed)
            && (r != NotFound && s.sessions[room].status == Active ==>
                  Outcome(s, t, r, PlanFor(s.sessions[room], room, exhausted, now, feePercent), env))
  {
    if env.lookup && room in s.sessions && s.sessions[room].status == Active {
      var p := PlanFor(s.sessions[room], room, exhausted, now, feePercent);
      ActiveOutcome(s, p, env);
    }
  }

  /** What the calls after the ACTIVE check do. */
  function Settlement(s: Store, p: Plan, env: Env): (Store, FinalizeResult) {
    var b := AfterTransaction(s, p, env);
    var t := Settled(b, p, env.fallback, env.fallback.Written());
    if Commits(env) then (Refresh(b, p.session.client, env.refresh), Ok)
    else if env.fallback.Acknowledged() then (Refresh(t, p.session.client, env.refresh), Ok)
    else (t, WriteFailed)
  }

  lemma RefreshKeepsFull(s: Store, t: Store, p: Plan, a: Attempt, ok: bool)
    requires FullSettlement(s, t, p, a)
    ensures FullSettlement(s, Refresh(t, p.session.client, ok), p, a)
  {
  }

  lemma FullStatus(s: Store, t: Store, p: Plan, a: Attempt)
    requires FullSettlement(s, t, p, a)
    ensures t.sessions.Keys == s.sessions.Keys && p.room in t.sessions && t.sessions[p.room].status == p.status
  {
  }

  lemma RefreshFrame(t: Store, u: UserId, ok: bool)
    ensures Refresh(t, u, ok).sessions == t.sessions && (!ok ==> Refresh(t, u, ok) == t)
  {
  }

  lemma ActiveOutcome(s: Store, p: Plan, env: Env)
    requires Settleable(s, p) && s.sessions[p.room].status == Active && p.status != Active
    ensures var (t, r) := Settlement(s, p, env); Outcome(s, t, r, p, env)
  {
    hide Settled, Attempt.Written, Attempt.Acknowledged, FullSettlement, Refresh, Complete;
    var b := AfterTransaction(s, p, env);
    var u := Settled(b, p, env.fallback, env.fallback.Written());
    if Persists(env) {
      var a := env.transaction.value.attempt;
      FiveWritesSettle(s, p, a);
      FullStatus(s, b, p, a);
      RefreshKeepsFull(s, b, p, a, env.refresh);
    }
    FiveWritesSettle(b, p, env.fallback);
    SettledFrame(b, p, env.fallback, env.fallback.Written());
    SettledFrame(s, p, if Persists(env) then env.transaction.value.attempt else env.fallback, 5);
    WrittenBounds(env.fallback);
    RefreshFrame(b, p.session.client, env.refresh);
    RefreshFrame(u, p.session.client, env.refresh);
    if env.fallback.Written() == 5 {
      FullStatus(b, u, p, env.fallback);
      RefreshKeepsFull(b, u, p, env.fallback, env.refresh);
    }
  }

  /** No error means exactly one full settlement of an ACTIVE, priced session if and only if
      the transaction did not commit behind the service's back: then the fallback charges the
      session a second time. */
  lemma NoErrorSettlesOnceIff(s: Store, room: RoomName, exhausted: bool, now: int, feePercent: int, env: Env)
    requires PartiesKnown(s, room) && s.sessions[room].status == Active && s.sessions[room].rate > 0 && 0 <= feePercent <= 100
    requires Finalize(s, room, exhausted, now, feePercent, env).1 == Ok
    ensures var p := PlanFor(s.sessions[room], room, exhausted, now, feePercent);
            var a := if Commits(env) then env.transaction.value.attempt else env.fallback;
            FullSettlement(s, Finalize(s, room, exhausted, now, feePercent, env).0, p, a) <==> !CommitsUnseen(env)
  {
    hide Settled, Finalize, BillFor;
    var session := s.sessions[room];
    BillSplits(session.rate, now - session.startedAt, feePercent);
    FinalizeOutcome(s, room, exhausted, now, feePercent, env);
    WrittenBounds(env.fallback);
  }

  /** A failed finalisation of a priced session is clean exactly when no commit went through
      unseen and the fallback's first write is lost. */
  lemma FailureCleanIff(s: Store, room: RoomName, exhausted: bool, now: int, feePercent: int, env: Env)
    requires PartiesKnown(s, room) && s.sessions[room].rate > 0 && 0 <= feePercent <= 100
    requires Finalize(s, room, exhausted, now, feePercent, env).1 == WriteFailed
    ensures Finalize(s, room, exhausted, now, feePercent, env).0 == s <==> !Persists(env) && env.fallback.debit.Lost?
  {
    hide Settled, BillFor;
    var session := s.sessions[room];
    var p := PlanFor(session, room, exhausted, now, feePercent);
    BillSplits(session.rate, now - session.startedAt, feePercent);
    FinalizeOutcome(s, room, exhausted, now, feePercent, env);
    var b := AfterTransaction(s, p, env);
    var k := env.fallback.Written();
    WrittenBounds(env.fallback);
    SettledDebits(b, p, env.fallback, k);
  }

  /** Every pass that lands a write takes the charge from the client. */
  lemma SettledDebits(s: Store, p: Plan, a: Attempt, k: nat)
    requires p.session.client in s.balances && p.session.client != p.session.mentor
    ensures var t := Settled(s, p, a, k);
            && p.session.client in t.balances
            && t.balances[p.session.client] == s.balances[p.session.client] - (if k >= 1 then p.bill.total else 0)
            && (k == 0 ==> t == s)
  {
  }

  /** What a session that a finalisation completed records: who asked for it to end, the whole
      seconds it lasted, its started minutes at its rate, and the exact split. */
  lemma CompletionRecords(s: Store, room: RoomName, exhausted: bool, now: int, feePercent: int, env: Env, m: int)
    requires PartiesKnown(s, room) && s.sessions[room].status == Active && s.sessions[room].rate > 0 && 0 <= feePercent <= 100
    requires var t := Finalize(s, room, exhausted, now, feePercent, env).0;
             room in t.sessions && t.sessions[room].status != Active
    requires m >= 1
    ensures var before, after := s.sessions[room], Finalize(s, room, exhausted, now, feePercent, env).0.sessions[room];
            var elapsed, bill := now - before.startedAt, after.summary;
            && after == before.(status := after.status, seconds := after.seconds, summary := bill)
            && (after.status == Exhausted <==> exhausted) && (after.status == Completed <==> !exhausted)
            && after.seconds >= 5 && (after.seconds == 5 || after.seconds * 1_000_000_000 <= elapsed)
            && elapsed < (after.seconds + 1) * 1_000_000_000
            && (bill.total <= m * before.rate <==> elapsed < (60 * m + 1) * 1_000_000_000)
            && bill.earnings + bill.fee == bill.total
            && 100 * bill.fee <= bill.total * feePercent < 100 * bill.fee + 100
  {
    hide Finalize, Settled, BillFor, Attempt.Written, Attempt.Acknowledged;
    var session := s.sessions[room];
    FinalizeOutcome(s, room, exhausted, now, feePercent, env);
    WrittenBounds(env.fallback);
    BillSplits(session.rate, now - session.startedAt, feePercent);
    RecordedSeconds(session.rate, now - session.startedAt, feePercent);
    ChargeThreshold(session.rate, now - session.startedAt, feePercent, m);
    StatusAfter(s, room, exhausted, now, feePercent, env);
  }

  /** The cache changes exactly when an ACTIVE session was settled without an error and both
      calls of the refresh answer: it then shows the client's stored balance. */
  lemma CacheAfterFinalize(s: Store, room: RoomName, exhausted: bool, now: int, feePercent: int, env: Env)
    requires room in s.sessions ==> PartiesKnown(s, room)
    ensures var (t, r) := Finalize(s, room, exhausted, now, feePercent, env);
            if env.lookup && room in s.sessions && s.sessions[room].status == Active && r == Ok && env.refresh
            then
              var client := s.sessions[room].client;
              client in t.balances && t.cache == s.cache[client := t.balances[client]]
            else t.cache == s.cache
  {
    hide Settled, BillFor, Attempt.Written, Attempt.Acknowledged;
    if room in s.sessions {
      var p := PlanFor(s.sessions[room], room, exhausted, now, feePercent);
      var b := AfterTransaction(s, p, env);
      SettledFrame(s, p, if Persists(env) then env.transaction.value.attempt else env.fallback, 5);
      SettledFrame(b, p, env.fallback, env.fallback.Written());
    }
  }

  lemma StatusAfter(s: Store, room: RoomName, exhausted: bool, now: int, feePercent: int, env: Env)
    requires PartiesKnown(s, room) && s.sessions[room].status == Active
    requires var t := Finalize(s, room, exhausted, now, feePercent, env).0;
             room in t.sessions && t.sessions[room].status != Active
    ensures var p := PlanFor(s.sessions[room], room, exhausted, now, feePercent);
            Finalize(s, room, exhausted, now, feePercent, env).0.sessions[room]
            == s.sessions[room].(status := p.status, seconds := p.bill.seconds,
                                 summary := Summary(p.bill.total, p.bill.earnings, p.bill.fee))
  {
    hide Settled, BillFor, Attempt.Written, Attempt.Acknowledged;
    var p := PlanFor(s.sessions[room], room, exhausted, now, feePercent);
    var b := AfterTransaction(s, p, env);
    SettledFrame(s, p, if Persists(env) then env.transaction.value.attempt else env.fallback, 5);
    SettledFrame(b, p, env.fallback, env.fallback.Written());
  }

  // ------------------------------------------------------------------ deposits

  // How the three writes of a deposit go: the balance, the cache, whose error is dropped,
  // and the ledger row.
  datatype DepositEnv = DepositEnv(update: Reply, cache: bool, insert: Reply)

  datatype DepositError = NotPositive | TooLarge | UnknownUser | UpdateFailed | InsertFailed

  function MakeDeposit(s: Store, u: UserId, amount: int, env: DepositEnv): (Store, Result<Tx, DepositError>) {
    if amount <= 0 then (s, Failure(NotPositive))
    else if amount > MAX_DEPOSIT then (s, Failure(TooLarge))
    else if u !in s.balances then (s, Failure(UnknownUser))
    else if env.update.Lost? then (s, Failure(UpdateFailed))
    else if env.update.LandedUnseen? then (Inc(s, u, amount), Failure(UpdateFailed))
    else
      var after := s.balances[u] + amount;
      var s1 := Inc(s, u, amount);
      var s2 := if env.cache then s1.(cache := s1.cache[u := after]) else s1;
      var tx := Tx(u, Deposit, amount, after, None);
      (if env.insert.Lost? then s2 else Log(s2, tx), if env.insert.Landed? then Success(tx) else Failure(InsertFailed))
  }

  /** What a deposit does and returns: which check or write is to blame for an error; that an
      increment which landed adds the amount to this balance and no other; and that a row which
      landed is one deposit row of this user over this amount, with the new balance and no
      session, which is also what the caller gets. */
  lemma DepositOutcome(s: Store, u: UserId, amount: int, env: DepositEnv)
    ensures var (t, r) := MakeDeposit(s, u, amount, env);
            var valid := 0 < amount <= 1_000_000 && u in s.balances;
            var paid := valid && !env.update.Lost?;
            var logged := valid && env.update.Landed? && !env.insert.Lost?;
            && (r == Failure(NotPositive) <==> amount <= 0)
            && (r == Failure(TooLarge) <==> amount > 1_000_000)
            && (r == Failure(UnknownUser) <==> 0 < amount <= 1_000_000 && u !in s.balances)
            && (r == Failure(UpdateFailed) <==> valid && !env.update.Landed?)
            && (r == Failure(InsertFailed) <==> valid && env.update.Landed? && !env.insert.Landed?)
            && t.sessions == s.sessions && t.balances.Keys == s.balances.Keys
            && (forall v | v in s.balances :: t.balances[v] == s.balances[v] + if paid && v == u then amount else 0)
            && (if valid && env.update.Landed? && env.cache then t.cache == s.cache[u := t.balances[u]] else t.cache == s.cache)
            && |t.ledger| == |s.ledger| + (if logged then 1 else 0) && s.ledger <= t.ledger
            && (logged ==>
                  var row := t.ledger[|s.ledger|];
                  row.kind == Deposit && row.user == u && row.amount == amount && row.balanceAfter == t.balances[u] && row.session.None?)
            && (r.Success? ==> logged && r.value == t.ledger[|s.ledger|])
  {
  }

  // ------------------------------------------------------------------ the service

  class WalletService {
    var balances: map<UserId, int>
    var ledger: seq<Tx>
    var sessions: map<RoomName, Session>
    var cache: map<UserId, int>
    const platformFeePercent: int

    ghost function View(): Store
      reads this
    {
      Store(balances, ledger, sessions, cache)
    }

    constructor (feePercent: int)
      ensures View() == Store(map[], [], map[], map[]) && platformFeePercent == feePercent
    {
      balances, ledger, sessions, cache := map[], [], map[], map[];
      platformFeePercent := feePercent;
    }

    method UpdateBalance(u: UserId, amount: int, reply: Reply) returns (done: bool)
      modifies this`balances
      ensures done == reply.Landed?
      ensures View() == if reply.Lost? then old(View()) else Inc(old(View()), u, amount)
    {
      if !reply.Lost? && u in balances {
        balances := balances[u := balances[u] + amount];
      }
      done := reply.Landed?;
    }

    method GetBalance(u: UserId, ok: bool) returns (cents: int)
      ensures cents == if ok then Balance(View(), u) else 0
    {
      cents := 0;
      if ok && u in balances {
        cents := balances[u];
      }
    }

    method CreateTransaction(tx: Tx, reply: Reply) returns (done: bool)
      modifies this`ledger
      ensures done == reply.Landed?
      ensures View() == if reply.Lost? then old(View()) else Log(old(View()), tx)
    {
      if !reply.Lost? {
        ledger := ledger + [tx];
      }
      done := reply.Landed?;
    }

    method CompleteSession(p: Plan, reply: Reply) returns (done: bool)
      modifies this`sessions
      ensures done == reply.Landed?
      ensures View() == if reply.Lost? then old(View()) else Complete(old(View()), p)
    {
      if !reply.Lost? && p.room in sessions {
        sessions := sessions[p.room := sessions[p.room].(
          status := p.status, seconds := p.bill.seconds, summary := Summary(p.bill.total, p.bill.earnings, p.bill.fee))];
      }
      done := reply.Landed?;
    }

    /** The five writes in order; it stops at the first one that reports an error. */
    method ExecuteSettlement(p: Plan, a: Attempt) returns (ok: bool)
      modifies this`balances, this`ledger, this`sessions
      ensures ok <==> a.Acknowledged()
      ensures View() == Settled(old(View()), p, a, a.Written())
    {
      ok := UpdateBalance(p.session.client, -p.bill.total, a.debit);
      if !ok { return; }
      ok := UpdateBalance(p.session.mentor, p.bill.earnings, a.credit);
      if !ok { return; }
      var clientBalance := GetBalance(p.session.client, a.clientRead);
      var mentorBalance := GetBalance(p.session.mentor, a.mentorRead);
      ok := CreateTransaction(Tx(p.session.client, SessionDebit, -p.bill.total, clientBalance, Some(p.room)), a.debitRow);
      if !ok { return; }
      ok := CreateTransaction(Tx(p.session.mentor, MentorPayout, p.bill.earnings, mentorBalance, Some(p.room)), a.payoutRow);
      if !ok { return; }
      ok := CompleteSession(p, a.complete);
    }

    method RefreshCache(u: UserId, ok: bool)
      modifies this`cache
      ensures View() == Refresh(old(View()), u, ok)
    {
      if ok && u in balances {
        cache := cache[u := balances[u]];
      }
    }

    /** Runs the closure in a transaction: all of it is kept, or none of it. A commit that
        is reported to have failed may have kept it. */
    method WithTransaction(p: Plan, t: Transaction) returns (ok: bool)
      modifies this`balances, this`ledger, this`sessions
      ensures ok <==> t.attempt.Acknowledged() && t.commit.Landed?
      ensures View() == if t.attempt.Acknowledged() && !t.commit.Lost? then Settled(old(View()), p, t.attempt, 5) else old(View())
    {
      var balances0, ledger0, sessions0 := balances, ledger, sessions;
      ok := ExecuteSettlement(p, t.attempt);
      if !ok || t.commit.Lost? {
        balances, ledger, sessions := balances0, ledger0, sessions0;
      }
      ok := ok && t.commit.Landed?;
    }

    method ComputePlan(session: Session, room: RoomName, exhausted: bool, now: int) returns (p: Plan)
      ensures p == PlanFor(session, room, exhausted, now, platformFeePercent)
    {
      var seconds := Truncate(now - session.startedAt, NANOS_PER_SECOND);
      if seconds < MIN_BILLED_SECONDS {
        seconds := MIN_BILLED_SECONDS;
      }
      var total := Minutes(seconds) * session.rate;
      var fee := Truncate(total * platformFeePercent, 100);
      var status := Completed;
      if exhausted {
        status := Exhausted;
      }
      p := Plan(room, session, Bill(seconds, total, total - fee, fee), status);
    }

    /** Bills the session, tries the five writes inside a transaction, and once more without
        one if there is none or it aborts. */
    method FinalizeRoomSession(room: RoomName, exhausted: bool, now: int, env: Env) returns (r: FinalizeResult)
      modifies this
      ensures (View(), r) == Finalize(old(View()), room, exhausted, now, platformFeePercent, env)
    {
      if !env.lookup || room !in sessions {
        return NotFound;
      }
      var session := sessions[room];
      if session.status != Active {
        return Ok;
      }
      var p := ComputePlan(session, room, exhausted, now);
      if env.transaction.Some? {
        var committed := WithTransaction(p, env.transaction.value);
        if committed {
          RefreshCache(session.client, env.refresh);
          return Ok;
        }
      }
      var done := ExecuteSettlement(p, env.fallback);
      if !done {
        return WriteFailed;
      }
      RefreshCache(session.client, env.refresh);
      r := Ok;
    }

    method DepositCredits(u: UserId, amount: int, env: DepositEnv) returns (r: Result<Tx, DepositError>)
      modifies this
      ensures (View(), r) == MakeDeposit(old(View()), u, amount, env)
    {
      if amount <= 0 {
        return Failure(NotPositive);
      }
      if amount > MAX_DEPOSIT {
        return Failure(TooLarge);
      }
      if u !in balances {
        return Failure(UnknownUser);
      }
      var after := balances[u] + amount;
      var ok := UpdateBalance(u, amount, env.update);
      if !ok {
        return Failure(UpdateFailed);
      }
      if env.cache {
        cache := cache[u := after];
      }
      var tx := Tx(u, Deposit, amount, after, None);
      ok := CreateTransaction(tx, env.insert);
      if !ok {
        return Failure(InsertFailed);
      }
      r := Success(tx);
    }
  }
}

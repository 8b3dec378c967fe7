// The claim protocol: any number of mentors race to accept the same SOS request, each
// through SETNX on the request's lock, a read, a status update and the session insert.
// Every call to Redis or Mongo is one step of a shared state machine; time passing, the
// TTL index removing requests and errors of any call are steps of the environment.
module Claim {
  import opened Common

  // The lock's time to live, in milliseconds. Nothing on this path releases the lock.
  const LOCK_TTL: nat := 10_000

  datatype Status = Open | Accepted

  datatype Request = Request(client: UserId, maxRate: int, status: Status, acceptedBy: Option<UserId>)

  datatype Mentor = Mentor(id: UserId, isMentor: bool, profileRate: Option<int>)

  datatype Lock = Lock(owner: UserId, deadline: nat)

  datatype Session = Session(request: RequestId, client: UserId, mentor: UserId, rate: int, room: RoomName)

  // Where one call of AcceptSOS stands. `seen` is the request document it read.
  datatype Phase = Acquiring | Reading | Checked(seen: Request) | Updated(seen: Request) | Done | Refused

  datatype Claimant = Claimant(mentor: Mentor, request: RequestId, phase: Phase, acquiredAt: nat)
  {
    predicate Holding() { phase.Reading? || phase.Checked? }
  }

  datatype State = State(
    now: nat,
    locks: map<RequestId, Lock>,
    requests: map<RequestId, Request>,
    issued: set<RequestId>,
    claimants: seq<Claimant>,
    sessions: seq<Session>)

  datatype Event =
    | Advance(dt: nat)
    | Publish(id: RequestId, client: UserId, maxRate: int)
    | Purge(id: RequestId)
    | Arrive(mentor: Mentor, id: RequestId)
    | Acquire(c: nat, reply: Reply)
    | Read(c: nat, ok: bool)
    | Update(c: nat, reply: Reply)
    | Create(c: nat, reply: Reply)

  function RoomFor(id: RequestId): RoomName { "room_" + id }

  /** The lower of the request's maximum and the mentor's own positive rate. */
  function RateFor(maxRate: int, mentor: Mentor): int {
    match mentor.profileRate
    case None => maxRate
    case Some(r) => if 0 < r < maxRate then r else maxRate
  }

  function SessionFor(seen: Request, m: Mentor, id: RequestId): Session {
    Session(id, seen.client, m.id, RateFor(seen.maxRate, m), RoomFor(id))
  }

  predicate LockFree(s: State, id: RequestId) {
    id !in s.locks || s.locks[id].deadline <= s.now
  }

  function To(s: State, c: nat, phase: Phase): State
    requires c < |s.claimants|
  {
    s.(claimants := s.claimants[c := s.claimants[c].(phase := phase)])
  }

  function AcquireStep(s: State, c: nat, reply: Reply): State
    requires c < |s.claimants|
  {
    var p := s.claimants[c];
    if !p.mentor.isMentor || reply.Lost? || !LockFree(s, p.request) then To(s, c, Refused)
    else
      var locked := s.(locks := s.locks[p.request := Lock(p.mentor.id, s.now + LOCK_TTL)]);
      if reply.LandedUnseen? then To(locked, c, Refused)
      else locked.(claimants := s.claimants[c := p.(phase := Reading, acquiredAt := s.now)])
  }

  function ReadStep(s: State, c: nat, ok: bool): State
    requires c < |s.claimants|
  {
    var p := s.claimants[c];
    if !ok || p.request !in s.requests then To(s, c, Refused)
    else
      var req := s.requests[p.request];
      if req.status != Open || req.client == p.mentor.id then To(s, c, Refused)
      else To(s, c, Checked(req))
  }

  // UpdateOne filters on the id alone: the status it overwrites is not looked at, and a
  // request that is gone makes it a successful no-op.
  function UpdateStep(s: State, c: nat, reply: Reply): State
    requires c < |s.claimants| && s.claimants[c].phase.Checked?
  {
    var p := s.claimants[c];
    if reply.Lost? then To(s, c, Refused)
    else
      var written :=
        if p.request !in s.requests then s
        else s.(requests := s.requests[p.request := s.requests[p.request].(status := Accepted, acceptedBy := Some(p.mentor.id))]);
      To(written, c, if reply.Landed? then Updated(p.phase.seen) else Refused)
  }

  function CreateStep(s: State, c: nat, reply: Reply): State
    requires c < |s.claimants| && s.claimants[c].phase.Updated?
  {
    var p := s.claimants[c];
    if reply.Lost? then To(s, c, Refused)
    else
      To(s.(sessions := s.sessions + [SessionFor(p.phase.seen, p.mentor, p.request)]), c,
         if reply.Landed? then Done else Refused)
  }

  /** One step of the system; an event that is not enabled changes nothing. */
  function Step(s: State, e: Event): State {
    match e
    case Advance(dt) => s.(now := s.now + dt)
    case Publish(id, client, maxRate) =>
      if id in s.issued then s
      else s.(issued := s.issued + {id}, requests := s.requests[id := Request(client, maxRate, Open, None)])
    case Purge(id) => s.(requests := s.requests - {id})
    case Arrive(m, id) => s.(claimants := s.claimants + [Claimant(m, id, Acquiring, 0)])
    case Acquire(c, reply) =>
      if c < |s.claimants| && s.claimants[c].phase.Acquiring? then AcquireStep(s, c, reply) else s
    case Read(c, ok) =>
      if c < |s.claimants| && s.claimants[c].phase.Reading? then ReadStep(s, c, ok) else s
    case Update(c, reply) =>
      if c < |s.claimants| && s.claimants[c].phase.Checked? then UpdateStep(s, c, reply) else s
    case Create(c, reply) =>
      if c < |s.claimants| && s.claimants[c].phase.Updated? then CreateStep(s, c, reply) else s
  }

  const INITIAL := State(0, map[], map[], {}, [], [])

  function Run(es: seq<Event>): State {
    if es == [] then INITIAL else Step(Run(es[..|es| - 1]), es[|es| - 1])
  }

  /** The latency hypothesis: a status update that lands does so at most `latency`
      milliseconds after its claimant took the lock. */
  predicate Prompt(s: State, e: Event, latency: nat) {
    e.Update? && !e.reply.Lost? && e.c < |s.claimants| && s.claimants[e.c].phase.Checked? ==>
      s.now <= s.claimants[e.c].acquiredAt + latency
  }

  predicate PromptRun(es: seq<Event>, latency: nat) {
    es == [] || (PromptRun(es[..|es| - 1], latency) && Prompt(Run(es[..|es| - 1]), es[|es| - 1], latency))
  }

  // ---------------------------------------------------------------- what is promised

  /** No request has two sessions. */
  ghost predicate OneSessionPerRequest(s: State) {
    forall i, j | 0 <= i < j < |s.sessions| :: s.sessions[i].request != s.sessions[j].request
  }

  /** A request that still exists and has a session was accepted by that session's mentor. */
  ghost predicate MentorAgrees(s: State) {
    forall i | 0 <= i < |s.sessions| && s.sessions[i].request in s.requests ::
      var r := s.requests[s.sessions[i].request];
      r.status == Accepted && r.acceptedBy == Some(s.sessions[i].mentor)
        && r.client == s.sessions[i].client && s.sessions[i].rate <= r.maxRate
  }

  /** Nobody mentors themself. */
  ghost predicate PartiesDiffer(s: State) {
    forall i | 0 <= i < |s.sessions| :: s.sessions[i].client != s.sessions[i].mentor
  }

  /** Room names identify sessions. */
  ghost predicate RoomsUnique(s: State) {
    forall i, j | 0 <= i < j < |s.sessions| :: s.sessions[i].room != s.sessions[j].room
  }

  // ---------------------------------------------------------------- the invariant

  /** Claimant c is between SETNX and its update, and its lock has not run out. */
  ghost predicate Live(s: State, c: nat) {
    c < |s.claimants| && s.claimants[c].Holding() && s.now < s.claimants[c].acquiredAt + LOCK_TTL
  }

  /** A live claimant's deadline is the one stored under the request's key. */
  ghost predicate LocksMatch(s: State) {
    && (forall c: nat | c < |s.claimants| :: s.claimants[c].Holding() ==> s.claimants[c].acquiredAt <= s.now)
    && (forall c: nat | Live(s, c) ::
          s.claimants[c].request in s.locks
          && s.locks[s.claimants[c].request] == Lock(s.claimants[c].mentor.id, s.claimants[c].acquiredAt + LOCK_TTL))
  }

  ghost predicate OneLive(s: State) {
    forall c: nat, d: nat | Live(s, c) && Live(s, d) && s.claimants[c].request == s.claimants[d].request :: c == d
  }

  /** The status update of claimant c has landed and was acknowledged. */
  ghost predicate Won(s: State, c: nat) {
    c < |s.claimants| && s.claimants[c].phase.Updated?
  }

  ghost predicate HasSession(s: State, id: RequestId) {
    exists i :: 0 <= i < |s.sessions| && s.sessions[i].request == id
  }

  /** While a claimant that read OPEN is live, nobody else has won its request. */
  ghost predicate LiveUncontested(s: State) {
    forall c: nat | Live(s, c) && s.claimants[c].phase.Checked? ::
      var id := s.claimants[c].request;
      && (id in s.requests ==> s.requests[id].status == Open)
      && !HasSession(s, id)
      && (forall d: nat | Won(s, d) :: s.claimants[d].request != id)
  }

  ghost predicate OneWinner(s: State) {
    && (forall c: nat, d: nat | Won(s, c) && Won(s, d) && s.claimants[c].request == s.claimants[d].request :: c == d)
    && (forall c: nat | Won(s, c) :: !HasSession(s, s.claimants[c].request))
    && OneSessionPerRequest(s)
  }

  /** What a claimant read stays true of the request's immutable fields. */
  ghost predicate SeenFaithful(s: State) {
    forall c: nat | c < |s.claimants| && (s.claimants[c].phase.Checked? || s.claimants[c].phase.Updated?) ::
      var p := s.claimants[c];
      && p.request in s.issued
      && p.phase.seen.client != p.mentor.id
      && (p.request in s.requests ==>
            s.requests[p.request].client == p.phase.seen.client && s.requests[p.request].maxRate == p.phase.seen.maxRate)
  }

  ghost predicate WinnersRecorded(s: State) {
    forall c: nat | Won(s, c) && s.claimants[c].request in s.requests ::
      var r := s.requests[s.claimants[c].request];
      r.status == Accepted && r.acceptedBy == Some(s.claimants[c].mentor.id)
  }

  ghost predicate Bookkeeping(s: State) {
    && (forall id | id in s.requests :: id in s.issued)
    && (forall i | 0 <= i < |s.sessions| :: s.sessions[i].request in s.issued && s.sessions[i].room == RoomFor(s.sessions[i].request))
  }

  ghost predicate Inv(s: State) {
    && LocksMatch(s) && OneLive(s) && LiveUncontested(s) && OneWinner(s)
    && SeenFaithful(s) && WinnersRecorded(s) && Bookkeeping(s)
    && MentorAgrees(s) && PartiesDiffer(s)
  }
}

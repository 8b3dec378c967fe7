// AcceptSOS as the service runs it, statement by statement, on stores it updates in place.
// One call on its own is a run of four steps of the protocol in module Claim.
module Matchmaker {
  import opened Common
  import opened Claim

  datatype AcceptError =
    NotAMentor | LockError | AlreadyAccepted | NotFound | NotAvailable | OwnRequest | UpdateFailed | CreateFailed

  // How the four remote calls of one AcceptSOS turn out.
  datatype Replies = Replies(lock: Reply, read: bool, update: Reply, create: Reply)

  /** The protocol with a single claimant, from its arrival to its last step. */
  function Solo(s: State, m: Mentor, id: RequestId, q: Replies): State {
    var s0 := Step(s.(claimants := []), Arrive(m, id));
    Step(Step(Step(Step(s0, Acquire(0, q.lock)), Read(0, q.read)), Update(0, q.update)), Create(0, q.create))
  }

  function One(s: State, p: Claimant): State {
    s.(claimants := [p])
  }

  // A claimant that has been refused, or has not got as far, ignores later steps.
  lemma StaysPut(s: State, p: Claimant, e: Event)
    requires e.Acquire? || e.Read? || e.Update? || e.Create?
    requires e.c == 0
    requires e.Acquire? ==> !p.phase.Acquiring?
    requires e.Read? ==> !p.phase.Reading?
    requires e.Update? ==> !p.phase.Checked?
    requires e.Create? ==> !p.phase.Updated?
    ensures Step(One(s, p), e) == One(s, p)
  {
  }

  lemma SoloAcquires(s: State, m: Mentor, id: RequestId, q: Replies)
    ensures var p := Claimant(m, id, Acquiring, 0);
            var t := Step(Step(s.(claimants := []), Arrive(m, id)), Acquire(0, q.lock));
            if !m.isMentor || q.lock.Lost? || !LockFree(s, id) then t == One(s, p.(phase := Refused))
            else
              var l := s.(locks := s.locks[id := Lock(m.id, s.now + LOCK_TTL)]);
              t == One(l, if q.lock.Landed? then p.(phase := Reading, acquiredAt := s.now) else p.(phase := Refused))
  {
  }

  /** Solo, when it stops at the lock or goes on past it. */
  lemma SoloAtLock(s: State, m: Mentor, id: RequestId, q: Replies)
    ensures !m.isMentor || q.lock.Lost? || !LockFree(s, id) ==>
              Solo(s, m, id, q) == One(s, Claimant(m, id, Refused, 0))
    ensures m.isMentor && LockFree(s, id) && q.lock.LandedUnseen? ==>
              Solo(s, m, id, q) == One(s.(locks := s.locks[id := Lock(m.id, s.now + LOCK_TTL)]), Claimant(m, id, Refused, 0))
    ensures m.isMentor && LockFree(s, id) && q.lock.Landed? ==>
              var l := s.(locks := s.locks[id := Lock(m.id, s.now + LOCK_TTL)]);
              Solo(s, m, id, q) ==
                Step(Step(Step(One(l, Claimant(m, id, Reading, s.now)), Read(0, q.read)), Update(0, q.update)), Create(0, q.create))
  {
    SoloAcquires(s, m, id, q);
    var t := Step(Step(s.(claimants := []), Arrive(m, id)), Acquire(0, q.lock));
    if !t.claimants[0].phase.Reading? {
      Ignores(t.(claimants := []), t.claimants[0], q);
    }
  }

  lemma Ignores(s: State, p: Claimant, q: Replies)
    requires p.phase.Refused?
    ensures Step(Step(Step(One(s, p), Read(0, q.read)), Update(0, q.update)), Create(0, q.create)) == One(s, p)
  {
  }

  predicate Available(s: State, p: Claimant) {
    p.request in s.requests && s.requests[p.request].status == Open && s.requests[p.request].client != p.mentor.id
  }

  function Accepting(s: State, p: Claimant): State
    requires p.request in s.requests
  {
    s.(requests := s.requests[p.request := s.requests[p.request].(status := Accepted, acceptedBy := Some(p.mentor.id))])
  }

  /** What follows the lock: refusal, or the update and the insert. */
  lemma SoloPastLock(s: State, p: Claimant, q: Replies)
    requires p.phase.Reading?
    ensures var t := Step(Step(Step(One(s, p), Read(0, q.read)), Update(0, q.update)), Create(0, q.create));
            if !q.read || !Available(s, p) || q.update.Lost? then t == One(s, p.(phase := Refused))
            else if q.update.LandedUnseen? then t == One(Accepting(s, p), p.(phase := Refused))
            else if q.create.Lost? then t == One(Accepting(s, p), p.(phase := Refused))
            else
              var a := Accepting(s, p);
              t == One(a.(sessions := a.sessions + [SessionFor(s.requests[p.request], p.mentor, p.request)]),
                       p.(phase := if q.create.Landed? then Done else Refused))
  {
    var s0 := One(s, p);
    assert Step(s0, Read(0, q.read)) == ReadStep(s0, 0, q.read);
    if !q.read || !Available(s, p) {
      assert Step(s0, Read(0, q.read)) == One(s, p.(phase := Refused));
      StaysPut(s, p.(phase := Refused), Update(0, q.update));
      StaysPut(s, p.(phase := Refused), Create(0, q.create));
    } else {
      var seen := s.requests[p.request];
      var p1 := p.(phase := Checked(seen));
      assert Step(s0, Read(0, q.read)) == One(s, p1);
      SoloWrites(s, p1, q);
    }
  }

  lemma SoloWrites(s: State, p: Claimant, q: Replies)
    requires p.phase.Checked? && p.request in s.requests
    ensures var t := Step(Step(One(s, p), Update(0, q.update)), Create(0, q.create));
            if q.update.Lost? then t == One(s, p.(phase := Refused))
            else if q.update.LandedUnseen? || q.create.Lost? then t == One(Accepting(s, p), p.(phase := Refused))
            else
              var a := Accepting(s, p);
              t == One(a.(sessions := a.sessions + [SessionFor(p.phase.seen, p.mentor, p.request)]),
                       p.(phase := if q.create.Landed? then Done else Refused))
  {
  }

  /** What one undisturbed AcceptSOS leaves in the stores, and what it returns. */
  function Accept(s: State, m: Mentor, id: RequestId, q: Replies): (State, Result<Session, AcceptError>) {
    if !m.isMentor then (s, Failure(NotAMentor))
    else if q.lock.Lost? then (s, Failure(LockError))
    else
      var free := LockFree(s, id);
      var l := if free then s.(locks := s.locks[id := Lock(m.id, s.now + LOCK_TTL)]) else s;
      var p := Claimant(m, id, Reading, s.now);
      if q.lock.LandedUnseen? then (l, Failure(LockError))
      else if !free then (s, Failure(AlreadyAccepted))
      else if !q.read || id !in s.requests then (l, Failure(NotFound))
      else if s.requests[id].status != Open then (l, Failure(NotAvailable))
      else if s.requests[id].client == m.id then (l, Failure(OwnRequest))
      else if q.update.Lost? then (l, Failure(UpdateFailed))
      else if q.update.LandedUnseen? then (Accepting(l, p), Failure(UpdateFailed))
      else
        var session := SessionFor(s.requests[id], m, id);
        var a := Accepting(l, p);
        (if q.create.Lost? then a else a.(sessions := a.sessions + [session]),
         if q.create.Landed? then Success(session) else Failure(CreateFailed))
  }

  /** One call is a run of the protocol's steps by a single claimant: same stores, and it
      succeeds exactly when the claimant reaches Done. */
  lemma AcceptIsSolo(s: State, m: Mentor, id: RequestId, q: Replies)
    requires s.claimants == []
    ensures var t := Solo(s, m, id, q);
            var (u, r) := Accept(s, m, id, q);
            u == t.(claimants := []) && |t.claimants| == 1 && (r.Success? <==> t.claimants[0].phase.Done?)
  {
    hide Step;
    SoloAtLock(s, m, id, q);
    if m.isMentor && LockFree(s, id) && q.lock.Landed? {
      SoloPastLock(s.(locks := s.locks[id := Lock(m.id, s.now + LOCK_TTL)]), Claimant(m, id, Reading, s.now), q);
    }
  }

  /** Exactly when a call succeeds, and what a caller can rely on then: the request went
      from open to accepted by this mentor, one session was added, and its rate is the
      lower of what the two parties asked for. */
  lemma AcceptOutcome(s: State, m: Mentor, id: RequestId, q: Replies)
    ensures var (t, r) := Accept(s, m, id, q);
            && (r.Success? <==>
                  m.isMentor && LockFree(s, id) && Available(s, Claimant(m, id, Reading, s.now))
                  && q == Replies(Landed, true, Landed, Landed))
            && (r.Success? ==>
                  && t.sessions == s.sessions + [r.value]
                  && t.requests == s.requests[id := s.requests[id].(status := Accepted, acceptedBy := Some(m.id))]
                  && !LockFree(t, id)
                  && r.value.request == id && r.value.client == s.requests[id].client != r.value.mentor == m.id
                  && r.value.rate <= s.requests[id].maxRate
                  && (m.profileRate.Some? && m.profileRate.value > 0 ==> r.value.rate <= m.profileRate.value)
                  && (r.value.rate == s.requests[id].maxRate || m.profileRate == Some(r.value.rate)))
            && (r.Failure? && t.sessions != s.sessions ==> r.error == CreateFailed && q.create.LandedUnseen?)
  {
  }

  /** Which refusal gets which error: the first condition that fails, in the service's order. */
  lemma AcceptErrors(s: State, m: Mentor, id: RequestId, q: Replies)
    ensures var r := Accept(s, m, id, q).1;
            var asked := m.isMentor && q.lock.Landed?;
            var held := asked && LockFree(s, id);
            var found := held && q.read && id in s.requests;
            var open := found && s.requests[id].status == Open;
            var claimed := open && s.requests[id].client != m.id;
            && (r == Failure(NotAMentor) <==> !m.isMentor)
            && (r == Failure(LockError) <==> m.isMentor && !q.lock.Landed?)
            && (r == Failure(AlreadyAccepted) <==> asked && !LockFree(s, id))
            && (r == Failure(NotFound) <==> held && !found)
            && (r == Failure(NotAvailable) <==> found && !open)
            && (r == Failure(OwnRequest) <==> open && !claimed)
            && (r == Failure(UpdateFailed) <==> claimed && !q.update.Landed?)
            && (r == Failure(CreateFailed) <==> claimed && q.update.Landed? && !q.create.Landed?)
  {
  }

  class MatchmakerService {
    var now: nat
    var locks: map<RequestId, Lock>
    var requests: map<RequestId, Request>
    var issued: set<RequestId>
    var sessions: seq<Session>

    ghost function View(): State
      reads this
    {
      State(now, locks, requests, issued, [], sessions)
    }

    constructor ()
      ensures View() == INITIAL
    {
      now, locks, requests, issued, sessions := 0, map[], map[], {}, [];
    }

    /** SETNX with a time to live; None is an error reply. */
    method AcquireRequestLock(id: RequestId, owner: UserId, ttl: nat, reply: Reply) returns (locked: Option<bool>)
      modifies this`locks
      ensures var free := LockFree(old(View()), id);
              && locked == (if reply.Landed? then Some(free) else None)
              && locks == (if free && !reply.Lost? then old(locks)[id := Lock(owner, now + ttl)] else old(locks))
    {
      var free := id !in locks || locks[id].deadline <= now;
      if free && !reply.Lost? {
        locks := locks[id := Lock(owner, now + ttl)];
      }
      locked := if reply.Landed? then Some(free) else None;
    }

    method UpdateStatus(id: RequestId, mentor: UserId, reply: Reply) returns (ok: bool)
      modifies this`requests
      ensures ok == reply.Landed?
      ensures id !in old(requests) || reply.Lost? ==> requests == old(requests)
      ensures id in old(requests) && !reply.Lost? ==>
                requests == old(requests)[id := old(requests)[id].(status := Accepted, acceptedBy := Some(mentor))]
    {
      if !reply.Lost? && id in requests {
        requests := requests[id := requests[id].(status := Accepted, acceptedBy := Some(mentor))];
      }
      ok := reply.Landed?;
    }

    method CreateSession(session: Session, reply: Reply) returns (ok: bool)
      modifies this`sessions
      ensures ok == reply.Landed?
      ensures sessions == if reply.Lost? then old(sessions) else old(sessions) + [session]
    {
      if !reply.Lost? {
        sessions := sessions + [session];
      }
      ok := reply.Landed?;
    }

    /** Checks the role, takes the lock, reads, claims, prices and stores the session. */
    method AcceptSOS(mentor: Mentor, id: RequestId, q: Replies) returns (r: Result<Session, AcceptError>)
      modifies this
      ensures (View(), r) == Accept(old(View()), mentor, id, q)
    {
      if !mentor.isMentor {
        return Failure(NotAMentor);
      }
      var locked := AcquireRequestLock(id, mentor.id, LOCK_TTL, q.lock);
      if locked.None? {
        return Failure(LockError);
      }
      if !locked.value {
        return Failure(AlreadyAccepted);
      }
      if !q.read || id !in requests {
        return Failure(NotFound);
      }
      var req := requests[id];
      if req.status != Open {
        return Failure(NotAvailable);
      }
      if req.client == mentor.id {
        return Failure(OwnRequest);
      }
      var ok := UpdateStatus(id, mentor.id, q.update);
      if !ok {
        return Failure(UpdateFailed);
      }
      var rate := req.maxRate;
      if mentor.profileRate.Some? && mentor.profileRate.value > 0 {
        if mentor.profileRate.value < rate {
          rate := mentor.profileRate.value;
        }
      }
      var session := Session(id, req.client, mentor.id, rate, RoomFor(id));
      ok := CreateSession(session, q.create);
      if !ok {
        return Failure(CreateFailed);
      }
      r := Success(session);
    }
  }
}

// Mutual exclusion of the claim protocol, over every interleaving.
module ClaimSafety {
  import opened Common
  import opened Claim

  lemma AcquireFrame(s: State, c: nat, reply: Reply)
    requires Inv(s) && c < |s.claimants| && s.claimants[c].phase.Acquiring?
    ensures var t := AcquireStep(s, c, reply);
            && t.sessions == s.sessions && t.requests == s.requests && t.issued == s.issued && t.now == s.now
            && (forall d: nat | Live(t, d) && d != c :: Live(s, d))
            && (forall d: nat | Won(t, d) :: Won(s, d))
            && (t.locks != s.locks || Live(t, c) ==> forall d: nat | Live(s, d) :: s.claimants[d].request != s.claimants[c].request)
  {
  }

  lemma AcquireKeepsLocks(s: State, c: nat, reply: Reply)
    requires Inv(s) && c < |s.claimants| && s.claimants[c].phase.Acquiring?
    ensures var t := AcquireStep(s, c, reply); LocksMatch(t) && OneLive(t)
  {
    AcquireFrame(s, c, reply);
  }

  lemma AcquireKeeps(s: State, c: nat, reply: Reply)
    requires Inv(s) && c < |s.claimants| && s.claimants[c].phase.Acquiring?
    ensures Inv(AcquireStep(s, c, reply))
  {
    hide LocksMatch, OneLive;
    AcquireKeepsLocks(s, c, reply);
    AcquireFrame(s, c, reply);
    var t := AcquireStep(s, c, reply);
    forall i | HasSession(t, i) ensures HasSession(s, i) {}
  }

  lemma ReadFrame(s: State, c: nat, ok: bool)
    requires Inv(s) && c < |s.claimants| && s.claimants[c].phase.Reading?
    ensures var t := ReadStep(s, c, ok);
            && t == s.(claimants := t.claimants)
            && (forall d: nat | Live(t, d) :: Live(s, d) && t.claimants[d].request == s.claimants[d].request)
            && (forall d: nat | Won(t, d) :: Won(s, d) && t.claimants[d] == s.claimants[d])
            && (forall id | HasSession(t, id) :: HasSession(s, id))
  {
  }

  lemma ReadKeepsLocks(s: State, c: nat, ok: bool)
    requires Inv(s) && c < |s.claimants| && s.claimants[c].phase.Reading?
    ensures var t := ReadStep(s, c, ok); LocksMatch(t) && OneLive(t)
  {
    ReadFrame(s, c, ok);
  }

  /** A request read as OPEN has no winner and no session. */
  lemma OpenIsUnclaimed(s: State, id: RequestId)
    requires Inv(s) && id in s.requests && s.requests[id].status == Open
    ensures !HasSession(s, id)
    ensures forall d: nat | Won(s, d) :: s.claimants[d].request != id
  {
  }

  lemma ReadKeeps(s: State, c: nat, ok: bool)
    requires Inv(s) && c < |s.claimants| && s.claimants[c].phase.Reading?
    ensures Inv(ReadStep(s, c, ok))
  {
    ReadFrame(s, c, ok);
    ReadKeepsLocks(s, c, ok);
    var id := s.claimants[c].request;
    if id in s.requests && s.requests[id].status == Open {
      OpenIsUnclaimed(s, id);
    }
  }

  /** The only live claimant of a request is the one that updates it. */
  lemma UpdateFrame(s: State, c: nat, reply: Reply)
    requires Inv(s) && Live(s, c) && s.claimants[c].phase.Checked?
    ensures var t := UpdateStep(s, c, reply);
            && (forall d: nat | Live(t, d) :: Live(s, d) && d != c && s.claimants[d].request != s.claimants[c].request)
            && (forall d: nat | Won(t, d) && d != c :: Won(s, d) && s.claimants[d].request != s.claimants[c].request)
            && (forall id | HasSession(t, id) :: HasSession(s, id))
            && (forall i | 0 <= i < |s.sessions| :: s.sessions[i].request != s.claimants[c].request)
  {
  }

  lemma UpdateKeepsLocks(s: State, c: nat, reply: Reply)
    requires Inv(s) && Live(s, c) && s.claimants[c].phase.Checked?
    ensures var t := UpdateStep(s, c, reply); LocksMatch(t) && OneLive(t) && LiveUncontested(t)
  {
    UpdateFrame(s, c, reply);
  }

  lemma UpdateKeepsWinners(s: State, c: nat, reply: Reply)
    requires Inv(s) && Live(s, c) && s.claimants[c].phase.Checked?
    ensures var t := UpdateStep(s, c, reply); OneWinner(t) && WinnersRecorded(t)
  {
    UpdateFrame(s, c, reply);
  }

  /** The heart of the protocol: an update that lands while its lock is still in force. */
  lemma UpdateKeeps(s: State, c: nat, reply: Reply)
    requires Inv(s) && Live(s, c) && s.claimants[c].phase.Checked?
    ensures Inv(UpdateStep(s, c, reply))
  {
    UpdateFrame(s, c, reply);
    UpdateKeepsLocks(s, c, reply);
    UpdateKeepsWinners(s, c, reply);
  }

  /** An update that never lands may come at any time. */
  lemma LostUpdateKeeps(s: State, c: nat)
    requires Inv(s) && c < |s.claimants| && s.claimants[c].phase.Checked?
    ensures Inv(UpdateStep(s, c, Lost))
  {
    var t := UpdateStep(s, c, Lost);
    forall d: nat | Live(t, d) ensures Live(s, d) && d != c && t.claimants[d] == s.claimants[d] {}
    forall d: nat | Won(t, d) ensures Won(s, d) && t.claimants[d] == s.claimants[d] {}
    forall id | HasSession(t, id) ensures HasSession(s, id) {}
  }

  lemma CreateFrame(s: State, c: nat, reply: Reply)
    requires Inv(s) && c < |s.claimants| && s.claimants[c].phase.Updated?
    ensures var t := CreateStep(s, c, reply);
            && t.locks == s.locks && t.requests == s.requests && t.issued == s.issued && t.now == s.now
            && (forall d: nat | Live(t, d) :: Live(s, d) && d != c && t.claimants[d] == s.claimants[d])
            && (forall d: nat | Won(t, d) :: Won(s, d) && d != c && s.claimants[d].request != s.claimants[c].request)
            && (forall id | HasSession(t, id) :: HasSession(s, id) || id == s.claimants[c].request)
            && (forall i | 0 <= i < |s.sessions| :: s.sessions[i].request != s.claimants[c].request)
  {
  }

  lemma CreateKeepsProtocol(s: State, c: nat, reply: Reply)
    requires Inv(s) && c < |s.claimants| && s.claimants[c].phase.Updated?
    ensures var t := CreateStep(s, c, reply);
            LocksMatch(t) && OneLive(t) && LiveUncontested(t) && OneWinner(t) && WinnersRecorded(t)
  {
    CreateFrame(s, c, reply);
    assert Won(s, c);
  }

  lemma CreateKeepsSessions(s: State, c: nat, reply: Reply)
    requires Inv(s) && c < |s.claimants| && s.claimants[c].phase.Updated?
    ensures var t := CreateStep(s, c, reply);
            MentorAgrees(t) && PartiesDiffer(t) && Bookkeeping(t) && SeenFaithful(t)
  {
    assert Won(s, c);
  }

  lemma CreateKeeps(s: State, c: nat, reply: Reply)
    requires Inv(s) && c < |s.claimants| && s.claimants[c].phase.Updated?
    ensures Inv(CreateStep(s, c, reply))
  {
    CreateKeepsProtocol(s, c, reply);
    CreateKeepsSessions(s, c, reply);
  }

  lemma ClockKeeps(s: State, e: Event)
    requires Inv(s) && e.Advance?
    ensures Inv(Step(s, e))
  {
    var t := Step(s, e);
    forall d: nat | Live(t, d) ensures Live(s, d) {}
    forall d: nat | Won(t, d) ensures Won(s, d) {}
    forall i | HasSession(t, i) ensures HasSession(s, i) {}
  }

  lemma RequestsKeep(s: State, e: Event)
    requires Inv(s) && (e.Publish? || e.Purge?)
    ensures Inv(Step(s, e))
  {
    var t := Step(s, e);
    forall d: nat | Live(t, d) ensures Live(s, d) {}
    forall d: nat | Won(t, d) ensures Won(s, d) {}
    forall i | HasSession(t, i) ensures HasSession(s, i) {}
  }

  lemma ArriveKeeps(s: State, e: Event)
    requires Inv(s) && e.Arrive?
    ensures Inv(Step(s, e))
  {
    var t := Step(s, e);
    forall d: nat | Live(t, d) ensures Live(s, d) {}
    forall d: nat | Won(t, d) ensures Won(s, d) {}
    forall i | HasSession(t, i) ensures HasSession(s, i) {}
  }

  lemma StepKeeps(s: State, e: Event, latency: nat)
    requires Inv(s) && Prompt(s, e, latency) && latency < LOCK_TTL
    ensures Inv(Step(s, e))
  {
    match e
    case Acquire(c, reply) => if c < |s.claimants| && s.claimants[c].phase.Acquiring? { AcquireKeeps(s, c, reply); }
    case Read(c, ok) => if c < |s.claimants| && s.claimants[c].phase.Reading? { ReadKeeps(s, c, ok); }
    case Update(c, reply) =>
      if c < |s.claimants| && s.claimants[c].phase.Checked? {
        if reply.Lost? { LostUpdateKeeps(s, c); } else { UpdateKeeps(s, c, reply); }
      }
    case Create(c, reply) => if c < |s.claimants| && s.claimants[c].phase.Updated? { CreateKeeps(s, c, reply); }
    case Advance(_) => ClockKeeps(s, e);
    case Arrive(_, _) => ArriveKeeps(s, e);
    case _ => RequestsKeep(s, e);
  }

  lemma {:induction false} RunKeeps(es: seq<Event>, latency: nat)
    requires PromptRun(es, latency) && latency < LOCK_TTL
    ensures Inv(Run(es))
  {
    if es != [] {
      var init := es[..|es| - 1];
      RunKeeps(init, latency);
      StepKeeps(Run(init), es[|es| - 1], latency);
    }
  }

  lemma RoomNamesInjective(a: RequestId, b: RequestId)
    ensures RoomFor(a) == RoomFor(b) ==> a == b
    ensures RoomFor(a)[..5] == "room_" && RoomFor(a)[5..] == a
  {
    assert RoomFor(a)[5..] == a;
    assert RoomFor(b)[5..] == b;
  }

  lemma RoomsFollowRequests(s: State)
    requires Inv(s)
    ensures RoomsUnique(s)
  {
    forall i, j | 0 <= i < j < |s.sessions| ensures s.sessions[i].room != s.sessions[j].room {
      RoomNamesInjective(s.sessions[i].request, s.sessions[j].request);
    }
  }

  /** Every run of any number of mentors, whatever calls fail and whatever requests expire:
      as long as updates land before the lock runs out, each request gets at most one
      session, its mentor is the one recorded, and room names are unique. */
  lemma ClaimIsExclusive(es: seq<Event>, latency: nat)
    requires PromptRun(es, latency) && latency < LOCK_TTL
    ensures var s := Run(es);
            OneSessionPerRequest(s) && MentorAgrees(s) && PartiesDiffer(s) && RoomsUnique(s)
  {
    RunKeeps(es, latency);
    RoomsFollowRequests(Run(es));
  }

  /** A request that the TTL index removes is gone, but a claimant that has read it notices
      nothing: its update matches no document, which is no error, and it creates a session. */
  lemma UpdatesAreBlind(s: State, c: nat)
    requires c < |s.claimants| && s.claimants[c].phase.Checked?
    ensures var p := s.claimants[c];
            var gone := Step(s, Purge(p.request));
            var t := Step(Step(gone, Update(c, Landed)), Create(c, Landed));
            && p.request !in gone.requests && gone.sessions == s.sessions
            && t.requests == gone.requests
            && t.sessions == s.sessions + [SessionFor(p.phase.seen, p.mentor, p.request)]
            && t.claimants == s.claimants[c := p.(phase := Done)]
  {
  }

  // ------------------------------------------------------- the hypothesis is necessary

  lemma RunSnoc(es: seq<Event>, e: Event)
    ensures Run(es + [e]) == Step(Run(es), e)
  {
  }

  // Two mentors and a request of somebody else.
  datatype Race = Race(id: RequestId, request: Request, first: Mentor, second: Mentor)
  {
    predicate Fair() {
      first.isMentor && second.isMentor && request.status.Open? && request.acceptedBy.None?
        && request.client != first.id && request.client != second.id
    }

    /** The first mentor's lock runs out between its read and its update. */
    function Start(): seq<Event> {
      [Publish(id, request.client, request.maxRate), Arrive(first, id), Arrive(second, id)]
    }

    function Reads(): seq<Event> {
      [Acquire(0, Landed), Read(0, true), Advance(LOCK_TTL), Acquire(1, Landed), Read(1, true)]
    }

    function Writes(): seq<Event> {
      [Update(0, Landed), Update(1, Landed), Create(0, Landed), Create(1, Landed)]
    }

    function BothChecked(): State {
      State(LOCK_TTL, map[id := Lock(second.id, LOCK_TTL + LOCK_TTL)], map[id := request], {id},
            [Claimant(first, id, Checked(request), 0), Claimant(second, id, Checked(request), LOCK_TTL)], [])
    }
  }

  ghost predicate Reaches(es: seq<Event>, latency: nat, s: State) {
    PromptRun(es, latency) && Run(es) == s
  }

  lemma ReachStep(es: seq<Event>, s: State, e: Event, latency: nat)
    requires Reaches(es, latency, s) && Prompt(s, e, latency)
    ensures Reaches(es + [e], latency, Step(s, e))
  {
  }

  function Started(r: Race): State {
    State(0, map[], map[r.id := r.request], {r.id},
          [Claimant(r.first, r.id, Acquiring, 0), Claimant(r.second, r.id, Acquiring, 0)], [])
  }

  lemma RaceStarts(r: Race, latency: nat)
    requires r.Fair()
    ensures Reaches(r.Start(), latency, Started(r))
  {
    var e0 := Publish(r.id, r.request.client, r.request.maxRate);
    var e1 := Arrive(r.first, r.id);
    var e2 := Arrive(r.second, r.id);
    ReachStep([], INITIAL, e0, latency);
    ReachStep([] + [e0], Step(INITIAL, e0), e1, latency);
    ReachStep([] + [e0] + [e1], Step(Step(INITIAL, e0), e1), e2, latency);
    assert [] + [e0] + [e1] + [e2] == r.Start();
  }

  lemma RaceReads(r: Race, latency: nat)
    requires r.Fair()
    ensures Reaches(r.Start() + r.Reads(), latency, r.BothChecked())
  {
    RaceStarts(r, latency);
    var es := r.Start();
    var s0 := Started(r);
    var s1 := Step(s0, Acquire(0, Landed));
    var s2 := Step(s1, Read(0, true));
    var s3 := Step(s2, Advance(LOCK_TTL));
    var s4 := Step(s3, Acquire(1, Landed));
    ReachStep(es, s0, Acquire(0, Landed), latency);
    ReachStep(es + [Acquire(0, Landed)], s1, Read(0, true), latency);
    ReachStep(es + [Acquire(0, Landed)] + [Read(0, true)], s2, Advance(LOCK_TTL), latency);
    ReachStep(es + [Acquire(0, Landed)] + [Read(0, true)] + [Advance(LOCK_TTL)], s3, Acquire(1, Landed), latency);
    ReachStep(es + [Acquire(0, Landed)] + [Read(0, true)] + [Advance(LOCK_TTL)] + [Acquire(1, Landed)], s4, Read(1, true), latency);
    assert es + [Acquire(0, Landed)] + [Read(0, true)] + [Advance(LOCK_TTL)] + [Acquire(1, Landed)] + [Read(1, true)] == es + r.Reads();
  }

  /** Two sessions for one request, as soon as updates may be as late as the lock's life. */
  lemma RaceIsUnsafe(r: Race, latency: nat)
    requires r.Fair() && latency >= LOCK_TTL
    ensures var es := r.Start() + r.Reads() + r.Writes();
            PromptRun(es, latency) && |Run(es).sessions| == 2 && !OneSessionPerRequest(Run(es))
  {
    RaceReads(r, latency);
    var es := r.Start() + r.Reads();
    var s0 := r.BothChecked();
    var s1 := Step(s0, Update(0, Landed));
    var s2 := Step(s1, Update(1, Landed));
    var s3 := Step(s2, Create(0, Landed));
    ReachStep(es, s0, Update(0, Landed), latency);
    ReachStep(es + [Update(0, Landed)], s1, Update(1, Landed), latency);
    ReachStep(es + [Update(0, Landed)] + [Update(1, Landed)], s2, Create(0, Landed), latency);
    ReachStep(es + [Update(0, Landed)] + [Update(1, Landed)] + [Create(0, Landed)], s3, Create(1, Landed), latency);
    assert es + [Update(0, Landed)] + [Update(1, Landed)] + [Create(0, Landed)] + [Create(1, Landed)] == es + r.Writes();
    var s4 := Step(s3, Create(1, Landed));
    assert s4.sessions[0].request == s4.sessions[1].request;
  }

  /** The protocol is safe for exactly the latencies below the lock's time to live. */
  lemma SafeExactlyBelowTtl(latency: nat)
    ensures (forall es | PromptRun(es, latency) :: OneSessionPerRequest(Run(es))) <==> latency < 10_000
  {
    if latency < LOCK_TTL {
      forall es | PromptRun(es, latency) ensures OneSessionPerRequest(Run(es)) {
        ClaimIsExclusive(es, latency);
      }
    } else {
      var r := Race("r", Request("dev", 400, Open, None), Mentor("ana", true, None), Mentor("bia", true, None));
      RaceIsUnsafe(r, latency);
    }
  }
}

// The WebSocket hub: bounded queues per client, eviction of slow clients, a write pump that
// batches what it finds queued into one frame, and a browser at the other end of the wire.
module Hub {
  import opened Common
  import opened Frames

  const QUEUE_CAPACITY := 256

  type ClientId = nat

  // The four ways the hub addresses its clients.
  datatype Target =
    | Everyone
    | Mentors
    | User(user: UserId)
    | Participants(room: string, session: string, sender: Option<ClientId>)

  // The write pump: waiting for a message, holding the first one of a frame, adding the
  // messages it counted to the frame, or done.
  datatype Pump = Idle | Took(frame: string) | Writing(frame: string, left: nat) | Stopped

  // `closes` and `misuses` count what would panic: closing twice, sending after a close.
  // `wire` holds frames under way, `shown` what the browser has dispatched, and `addressed`
  // every message addressed to the client since it registered.
  datatype Client = Client(
    user: UserId, mentor: bool, room: string,
    registered: bool, closed: bool, closes: nat, misuses: nat,
    queue: seq<string>, pump: Pump, wire: seq<string>, shown: seq<string>, addressed: seq<string>)

  type State = map<ClientId, Client>

  datatype Event =
    | Register(id: ClientId, user: UserId, mentor: bool, room: string)
    | Unregister(id: ClientId)
    | SetRoom(id: ClientId, room: string)
    | Broadcast(target: Target, message: string)
    | Take(id: ClientId)
    | CountQueued(id: ClientId)
    | More(id: ClientId)
    | Flush(id: ClientId, ok: bool)
    | WriteError(id: ClientId)
    | Arrive(id: ClientId)
    | Disconnect(id: ClientId, survives: nat)

  predicate Addressed(target: Target, id: ClientId, user: UserId, mentor: bool, room: string) {
    match target
    case Everyone => true
    case Mentors => mentor
    case User(u) => user == u
    case Participants(r, session, sender) =>
      sender != Some(id)
      && ((r != "" && room == r) || (session != "" && room == session) || (r == "" && session == "") || room == "")
  }

  predicate Matches(target: Target, id: ClientId, c: Client) {
    Addressed(target, id, c.user, c.mentor, c.room)
  }

  /** A non-blocking send: the queue with the message, or None when it is full. */
  function Offer(queue: seq<string>, message: string): Option<seq<string>> {
    if |queue| < QUEUE_CAPACITY then Some(queue + [message]) else None
  }

  function Close(c: Client): Client {
    c.(registered := false, closed := true, closes := c.closes + 1)
  }

  function Deliver(c: Client, message: string): Client {
    var d := c.(addressed := c.addressed + [message]);
    if c.closed then d.(misuses := c.misuses + 1)
    else
      match Offer(c.queue, message)
      case Some(queue) => d.(queue := queue)
      case None => Close(d)
  }

  function TakeStep(c: Client): Client {
    if !c.pump.Idle? then c
    else if c.queue != [] then c.(pump := Took(c.queue[0]), queue := c.queue[1..])
    else if c.closed then c.(pump := Stopped)
    else c
  }

  // A receive from a closed and drained channel yields an empty message at once.
  function MoreStep(c: Client): Client {
    if !c.pump.Writing? || c.pump.left == 0 then c
    else if c.queue != [] then
      c.(pump := Writing(c.pump.frame + [NEWLINE] + c.queue[0], c.pump.left - 1), queue := c.queue[1..])
    else if c.closed then c.(pump := Writing(c.pump.frame + [NEWLINE], c.pump.left - 1))
    else c
  }

  function FlushStep(c: Client, ok: bool): Client {
    if !c.pump.Writing? || c.pump.left > 0 then c
    else if ok then c.(pump := Idle, wire := c.wire + [c.pump.frame])
    else c.(pump := Stopped)
  }

  function ArriveStep(c: Client, valid: string -> bool): Client {
    if c.wire == [] then c
    else c.(shown := c.shown + Dispatch(valid, c.wire[0]), wire := c.wire[1..])
  }

  /** What an event does to one client that is already known. */
  function ClientStep(id: ClientId, c: Client, e: Event, valid: string -> bool): Client {
    match e
    case Broadcast(target, message) => if c.registered && Matches(target, id, c) then Deliver(c, message) else c
    case Unregister(i) => if i == id && c.registered then Close(c) else c
    case SetRoom(i, room) => if i == id then c.(room := room) else c
    case Take(i) => if i == id then TakeStep(c) else c
    case CountQueued(i) => if i == id && c.pump.Took? then c.(pump := Writing(c.pump.frame, |c.queue|)) else c
    case More(i) => if i == id then MoreStep(c) else c
    case Flush(i, ok) => if i == id then FlushStep(c, ok) else c
    case WriteError(i) => if i == id then c.(pump := Stopped) else c
    case Arrive(i) => if i == id then ArriveStep(c, valid) else c
    case Disconnect(i, survives) =>
      if i == id && survives <= |c.wire| then c.(pump := Stopped, wire := c.wire[..survives]) else c
    case Register(_, _, _, _) => c
  }

  function Fresh(e: Event): Client
    requires e.Register?
  {
    Client(e.user, e.mentor, e.room, true, false, 0, 0, [], Idle, [], [], [])
  }

  function Step(s: State, e: Event, valid: string -> bool): State {
    var t := map id | id in s :: ClientStep(id, s[id], e, valid);
    if e.Register? && e.id !in s then t[e.id := Fresh(e)] else t
  }

  function Run(es: seq<Event>, valid: string -> bool): State {
    if es == [] then map[] else Step(Run(es[..|es| - 1], valid), es[|es| - 1], valid)
  }

  // ---------------------------------------------------------------- end to end

  predicate Good(valid: string -> bool, message: string) {
    Clean(message) && valid(message)
  }

  /** The messages of the frames under way. */
  function InFlight(wire: seq<string>): seq<string> {
    Concat(Batches(wire))
  }

  function Batches(wire: seq<string>): (batches: seq<seq<string>>)
    ensures |batches| == |wire|
    ensures forall i | 0 <= i < |wire| :: batches[i] == Messages(wire[i])
  {
    seq(|wire|, i requires 0 <= i < |wire| => Messages(wire[i]))
  }

  function InPump(p: Pump): seq<string> {
    match p
    case Took(frame) => Messages(frame)
    case Writing(frame, _) => Messages(frame)
    case _ => []
  }

  /** Everything between the hub and the browser's listeners, oldest first. */
  function Pipeline(c: Client): seq<string> {
    c.shown + InFlight(c.wire) + InPump(c.pump) + c.queue
  }

  /** No gap, no reordering, no repetition: what was shown, is under way and is queued is a
      prefix of what was addressed, and all of it while the client is registered. */
  ghost predicate InOrder(c: Client) {
    && (!c.pump.Stopped? ==> Pipeline(c) <= c.addressed)
    && (!c.pump.Stopped? && c.registered ==> Pipeline(c) == c.addressed)
    && c.shown + InFlight(c.wire) <= c.addressed
  }

  ghost predicate ChannelSafe(c: Client) {
    && (c.registered <==> !c.closed)
    && c.closes == (if c.closed then 1 else 0)
    && c.misuses == 0
    && |c.queue| <= QUEUE_CAPACITY
  }

  ghost predicate ClientInv(c: Client, valid: string -> bool) {
    && ChannelSafe(c) && InOrder(c)
    && (forall i | 0 <= i < |c.addressed| :: Good(valid, c.addressed[i]))
    && (forall i | 0 <= i < |c.queue| :: Good(valid, c.queue[i]))
    && (c.pump.Writing? ==> c.pump.left <= |c.queue|)
  }

  lemma InFlightAppend(a: seq<string>, b: seq<string>)
    ensures InFlight(a + b) == InFlight(a) + InFlight(b)
  {
    hide Messages;
    assert Batches(a + b) == Batches(a) + Batches(b);
    ConcatAppend(Batches(a), Batches(b));
  }

  lemma InFlightPrefix(wire: seq<string>, k: nat)
    requires k <= |wire|
    ensures InFlight(wire[..k]) <= InFlight(wire)
  {
    hide Messages;
    InFlightAppend(wire[..k], wire[k..]);
    assert wire[..k] + wire[k..] == wire;
  }

  lemma DeliverKeeps(c: Client, message: string, valid: string -> bool)
    requires ClientInv(c, valid) && c.registered && Good(valid, message)
    ensures ClientInv(Deliver(c, message), valid)
  {
    hide Messages;
    var d := Deliver(c, message);
    if |c.queue| < QUEUE_CAPACITY && !c.pump.Stopped? {
      assert Pipeline(d) == Pipeline(c) + [message];
    }
  }

  /** Moving a message along the pipeline keeps the order. */
  lemma SamePipeline(c: Client, d: Client)
    requires InOrder(c) && !c.pump.Stopped? && !d.pump.Stopped?
    requires Pipeline(d) == Pipeline(c) && d.addressed == c.addressed && d.registered == c.registered
    ensures InOrder(d)
  {
  }

  lemma Regroup(a: seq<string>, b: seq<string>, x: string, rest: seq<string>)
    ensures a + (b + [x]) + rest == a + b + ([x] + rest)
  {
  }

  /** Taking the oldest queued message, seen as part of the pipeline. */
  lemma HeadFirst(through: seq<string>, queue: seq<string>)
    requires queue != []
    ensures through + [queue[0]] + queue[1..] == through + [] + queue
  {
  }

  lemma TakeMoves(c: Client)
    requires c.pump.Idle? && c.queue != [] && Clean(c.queue[0])
    ensures Pipeline(TakeStep(c)) == Pipeline(c)
  {
    hide Messages;
    MessagesAppend("", c.queue[0]);
    HeadFirst(c.shown + InFlight(c.wire), c.queue);
  }

  lemma TakeKeeps(c: Client, valid: string -> bool)
    requires ClientInv(c, valid)
    ensures ClientInv(TakeStep(c), valid)
  {
    hide Messages;
    if c.pump.Idle? && c.queue != [] {
      assert Good(valid, c.queue[0]);
      TakeMoves(c);
      SamePipeline(c, TakeStep(c));
    }
  }

  lemma MoreMoves(c: Client)
    requires c.pump.Writing? && c.pump.left > 0 && c.queue != [] && Clean(c.queue[0])
    ensures Pipeline(MoreStep(c)) == Pipeline(c)
  {
    hide Messages;
    var d := MoreStep(c);
    MessagesAppend(c.pump.frame, c.queue[0]);
    assert InPump(d.pump) == InPump(c.pump) + [c.queue[0]];
    assert c.queue == [c.queue[0]] + d.queue;
    Regroup(c.shown + InFlight(c.wire), InPump(c.pump), c.queue[0], d.queue);
  }

  lemma MoreKeeps(c: Client, valid: string -> bool)
    requires ClientInv(c, valid)
    ensures ClientInv(MoreStep(c), valid)
  {
    hide Messages;
    if c.pump.Writing? && c.pump.left > 0 {
      assert Good(valid, c.queue[0]);
      MoreMoves(c);
      SamePipeline(c, MoreStep(c));
    }
  }

  lemma Append4(a: seq<string>, b: seq<string>, c: seq<string>, d: seq<string>)
    ensures a + (b + c) + [] + d == a + b + c + d
  {
  }

  lemma OneFrame(frame: string)
    ensures InFlight([frame]) == Messages(frame)
  {
  }

  lemma FirstFrame(wire: seq<string>)
    requires wire != []
    ensures InFlight(wire) == Messages(wire[0]) + InFlight(wire[1..])
  {
    hide Messages;
    assert wire == [wire[0]] + wire[1..];
    InFlightAppend([wire[0]], wire[1..]);
    OneFrame(wire[0]);
  }

  lemma FlushMoves(c: Client)
    requires c.pump.Writing? && c.pump.left == 0
    ensures Pipeline(FlushStep(c, true)) == Pipeline(c)
  {
    hide Messages;
    InFlightAppend(c.wire, [c.pump.frame]);
    OneFrame(c.pump.frame);
    Append4(c.shown, InFlight(c.wire), Messages(c.pump.frame), c.queue);
  }

  lemma FlushKeeps(c: Client, ok: bool, valid: string -> bool)
    requires ClientInv(c, valid)
    ensures ClientInv(FlushStep(c, ok), valid)
  {
    hide Messages;
    if c.pump.Writing? && c.pump.left == 0 && ok {
      FlushMoves(c);
      SamePipeline(c, FlushStep(c, ok));
    }
  }

  lemma ArriveKeeps(c: Client, valid: string -> bool)
    requires ClientInv(c, valid)
    ensures ClientInv(ArriveStep(c, valid), valid)
  {
    hide Messages;
    if c.wire != [] {
      var arrived := Messages(c.wire[0]);
      var through := c.shown + InFlight(c.wire);
      FirstFrame(c.wire);
      assert through == c.shown + arrived + InFlight(c.wire[1..]);
      forall i | 0 <= i < |arrived| ensures valid(arrived[i]) {
        assert arrived[i] == through[|c.shown| + i] == c.addressed[|c.shown| + i];
      }
      ParsedAll(valid, arrived);
      var d := ArriveStep(c, valid);
      assert d.shown + InFlight(d.wire) == through;
    }
  }

  lemma DisconnectKeeps(c: Client, survives: nat, valid: string -> bool)
    requires ClientInv(c, valid) && survives <= |c.wire|
    ensures ClientInv(c.(pump := Stopped, wire := c.wire[..survives]), valid)
  {
    hide Messages;
    InFlightPrefix(c.wire, survives);
  }

  lemma ClientStepKeeps(id: ClientId, c: Client, e: Event, valid: string -> bool)
    requires ClientInv(c, valid)
    requires e.Broadcast? ==> Good(valid, e.message)
    ensures ClientInv(ClientStep(id, c, e, valid), valid)
  {
    hide Messages;
    match e
    case Broadcast(target, message) => if c.registered && Matches(target, id, c) { DeliverKeeps(c, message, valid); }
    case Take(i) => TakeKeeps(c, valid);
    case More(i) => MoreKeeps(c, valid);
    case Flush(i, ok) => FlushKeeps(c, ok, valid);
    case Arrive(i) => ArriveKeeps(c, valid);
    case Disconnect(i, survives) => if survives <= |c.wire| { DisconnectKeeps(c, survives, valid); }
    case _ =>
  }

  /** End to end, in every interleaving of hub, pumps, networks and browsers: every client's
      messages stay in order, no queue exceeds its capacity, and no channel is closed twice
      or sent to after it was closed. */
  lemma {:induction false} EndToEnd(es: seq<Event>, valid: string -> bool)
    requires forall i | 0 <= i < |es| && es[i].Broadcast? :: Good(valid, es[i].message)
    ensures forall id | id in Run(es, valid) :: ClientInv(Run(es, valid)[id], valid)
  {
    if es != [] {
      var init, e := es[..|es| - 1], es[|es| - 1];
      EndToEnd(init, valid);
      forall id | id in Run(es, valid) ensures ClientInv(Run(es, valid)[id], valid) {
        if id in Run(init, valid) {
          ClientStepKeeps(id, Run(init, valid)[id], e, valid);
        }
      }
    }
  }

  /** Once a connected client's pipeline has drained, its browser has dispatched exactly what
      was addressed to it. */
  lemma DrainedMeansDelivered(es: seq<Event>, valid: string -> bool, id: ClientId)
    requires forall i | 0 <= i < |es| && es[i].Broadcast? :: Good(valid, es[i].message)
    requires var s := Run(es, valid); id in s && s[id].registered && s[id].pump.Idle? && s[id].queue == [] && s[id].wire == []
    ensures Run(es, valid)[id].shown == Run(es, valid)[id].addressed
  {
    hide Messages;
    EndToEnd(es, valid);
    var c := Run(es, valid)[id];
    assert Pipeline(c) == c.shown;
  }

  // ---------------------------------------------------------------- who is addressed

  lemma RunSnoc(es: seq<Event>, e: Event, valid: string -> bool)
    ensures Run(es + [e], valid) == Step(Run(es, valid), e, valid)
  {
    assert (es + [e])[..|es|] == es;
  }

  /** The name a client is known under after the events: the one it registered with, or the
      last one its own messages gave it. */
  function RoomNow(es: seq<Event>, r: Event): string
    requires r.Register?
  {
    if es == [] then r.room
    else
      var e := es[|es| - 1];
      if e.SetRoom? && e.id == r.id then e.room else RoomNow(es[..|es| - 1], r)
  }

  /** The messages for a client among the events since it registered. */
  function Mail(es: seq<Event>, r: Event): seq<string>
    requires r.Register?
  {
    if es == [] then []
    else
      var init, e := es[..|es| - 1], es[|es| - 1];
      Mail(init, r)
      + if e.Broadcast? && Addressed(e.target, r.id, r.user, r.mentor, RoomNow(init, r)) then [e.message] else []
  }

  lemma MailStep(c: Client, e: Event, id: ClientId, valid: string -> bool)
    ensures var d := ClientStep(id, c, e, valid);
            && d.user == c.user && d.mentor == c.mentor
            && d.room == (if e.SetRoom? && e.id == id then e.room else c.room)
            && (d.registered ==> c.registered)
            && d.addressed == c.addressed +
                 if c.registered && e.Broadcast? && Addressed(e.target, id, c.user, c.mentor, c.room) then [e.message] else []
  {
  }

  /** What is addressed to a client is, in order, its mail since it registered, all of it
      while it is registered. */
  lemma {:induction false} MailArrives(before: seq<Event>, r: Event, after: seq<Event>, valid: string -> bool)
    requires r.Register? && r.id !in Run(before, valid)
    ensures var s := Run(before + [r] + after, valid);
            && r.id in s
            && s[r.id].user == r.user && s[r.id].mentor == r.mentor && s[r.id].room == RoomNow(after, r)
            && s[r.id].addressed <= Mail(after, r)
            && (s[r.id].registered ==> s[r.id].addressed == Mail(after, r))
    decreases |after|
  {
    if after == [] {
      RunSnoc(before, r, valid);
      assert before + [r] + after == before + [r];
    } else {
      hide ClientStep, Addressed;
      var init, e := after[..|after| - 1], after[|after| - 1];
      MailArrives(before, r, init, valid);
      RunSnoc(before + [r] + init, e, valid);
      assert before + [r] + after == before + [r] + init + [e];
      MailStep(Run(before + [r] + init, valid)[r.id], e, r.id, valid);
    }
  }

  /** What concerns a client in a room known under these names: messages to all, to its role
      or to its user, and what others send to the room, under whichever of the names. */
  predicate Concerns(target: Target, r: Event, names: set<string>)
    requires r.Register?
  {
    match target
    case Everyone => true
    case Mentors => r.mentor
    case User(u) => u == r.user
    case Participants(room, session, sender) => sender != Some(r.id) && (room in names || session in names)
  }

  /** The client stays in its room, and room messages name the room by all of its names (as
      the page does, with room and session) or are not about it. */
  predicate InRoom(e: Event, r: Event, names: set<string>)
    requires r.Register?
  {
    && (e.SetRoom? && e.id == r.id ==> e.room in names)
    && (e.Broadcast? && e.target.Participants? ==>
          var to := {e.target.room, e.target.session};
          to != {""} && (names <= to || names !! to))
  }

  function RoomLetters(es: seq<Event>, r: Event, names: set<string>): seq<string>
    requires r.Register?
  {
    if es == [] then []
    else
      var e := es[|es| - 1];
      RoomLetters(es[..|es| - 1], r, names) + if e.Broadcast? && Concerns(e.target, r, names) then [e.message] else []
  }

  /** Rooms do not mix: the mail of a client that stays in a room, under any of the room's
      names, is exactly what concerns it; nothing of another room, and nothing it sent. */
  lemma {:induction false} RoomMail(es: seq<Event>, r: Event, names: set<string>)
    requires r.Register? && r.room in names && "" !in names
    requires forall i | 0 <= i < |es| :: InRoom(es[i], r, names)
    ensures RoomNow(es, r) in names && Mail(es, r) == RoomLetters(es, r, names)
  {
    if es != [] {
      RoomMail(es[..|es| - 1], r, names);
    }
  }

  /** Clients that are in no room hear what others send to any room; what names no room goes to
      everybody else; and nobody hears itself. */
  lemma WhoElseHears(target: Target, id: ClientId, user: UserId, mentor: bool, room: string)
    requires target.Participants?
    ensures target.sender == Some(id) ==> !Addressed(target, id, user, mentor, room)
    ensures target.sender != Some(id) && (room == "" || (target.room == "" && target.session == "")) ==>
              Addressed(target, id, user, mentor, room)
    ensures room != "" && room != target.room && room != target.session && (target.room != "" || target.session != "") ==>
              !Addressed(target, id, user, mentor, room)
  {
  }

  // ---------------------------------------------------------------- who stays

  predicate Hears(c: Client, id: ClientId, e: Event) {
    e.Broadcast? && Addressed(e.target, id, c.user, c.mentor, c.room)
  }

  /** A broadcast that is addressed to a registered client is queued for it, behind what is
      queued already, if fewer than 256 messages are; otherwise the client is closed. */
  lemma RoomInQueue(id: ClientId, c: Client, e: Event, valid: string -> bool)
    requires c.registered && !c.closed && Hears(c, id, e)
    ensures var d := ClientStep(id, c, e, valid);
            if |c.queue| < 256 then d.registered && !d.closed && d.queue == c.queue + [e.message]
            else !d.registered && d.closed && d.queue == c.queue
  {
  }

  /** The client unregisters, or a broadcast addressed to it finds 256 messages queued. */
  predicate Ends(c: Client, id: ClientId, e: Event) {
    (e.Unregister? && e.id == id) || (Hears(c, id, e) && |c.queue| >= 256)
  }

  lemma EndStep(id: ClientId, c: Client, e: Event, valid: string -> bool)
    requires c.registered <==> !c.closed
    ensures var d := ClientStep(id, c, e, valid);
            (d.registered <==> !d.closed) && (d.registered <==> c.registered && !Ends(c, id, e))
  {
  }

  predicate HasEnded(before: seq<Event>, r: Event, after: seq<Event>, valid: string -> bool)
    requires r.Register?
    decreases |after|
  {
    after != []
    && var init := after[..|after| - 1];
       var s := Run(before + [r] + init, valid);
       HasEnded(before, r, init, valid) || (r.id in s && Ends(s[r.id], r.id, after[|after| - 1]))
  }

  /** In every run, a client's registration ends if and only if it unregisters or a broadcast
      addressed to it finds its queue full. */
  lemma {:induction false} RegistrationEndsIff(before: seq<Event>, r: Event, after: seq<Event>, valid: string -> bool)
    requires r.Register? && r.id !in Run(before, valid)
    ensures var s := Run(before + [r] + after, valid);
            r.id in s && (s[r.id].registered <==> !s[r.id].closed) && (s[r.id].registered <==> !HasEnded(before, r, after, valid))
    decreases |after|
  {
    if after == [] {
      RunSnoc(before, r, valid);
      assert before + [r] + after == before + [r];
    } else {
      hide ClientStep, Ends;
      var init, e := after[..|after| - 1], after[|after| - 1];
      RegistrationEndsIff(before, r, init, valid);
      RunSnoc(before + [r] + init, e, valid);
      assert before + [r] + after == before + [r] + init + [e];
      EndStep(r.id, Run(before + [r] + init, valid)[r.id], e, valid);
    }
  }

  /** What ends a pump, and that nothing leaves the queue afterwards: a closed and empty queue,
      a frame that cannot be written, an error, or the end of the connection, which also loses
      a last part of what is under way. */
  lemma PumpEnds(id: ClientId, c: Client, e: Event, valid: string -> bool)
    ensures c.pump.Idle? && c.queue == [] && c.closed ==> ClientStep(id, c, Take(id), valid) == c.(pump := Stopped)
    ensures c.pump.Idle? && c.queue == [] && !c.closed ==> ClientStep(id, c, Take(id), valid) == c
    ensures c.pump.Writing? && c.pump.left == 0 ==> ClientStep(id, c, Flush(id, false), valid) == c.(pump := Stopped)
    ensures ClientStep(id, c, WriteError(id), valid) == c.(pump := Stopped)
    ensures forall k: nat | k <= |c.wire| :: ClientStep(id, c, Disconnect(id, k), valid) == c.(pump := Stopped, wire := c.wire[..k])
    ensures c.pump.Stopped? && (e.Take? || e.CountQueued? || e.More? || e.Flush?) ==> ClientStep(id, c, e, valid) == c
  {
  }

  // ---------------------------------------------------------------- what arrives

  /** The next frame's messages are dispatched, up to one that does not parse. */
  lemma FrameArrives(id: ClientId, c: Client, valid: string -> bool)
    requires c.wire != []
    ensures var d, frame := ClientStep(id, c, Arrive(id), valid), Messages(c.wire[0]);
            exists k :: 0 <= k <= |frame| && d == c.(shown := c.shown + frame[..k], wire := c.wire[1..])
                        && (forall i | 0 <= i < k :: valid(frame[i])) && (k < |frame| ==> !valid(frame[k]))
  {
    hide Messages, Parsed;
    var frame := Messages(c.wire[0]);
    ParsedIsFront(valid, frame);
    var k := |Parsed(valid, frame)|;
    assert frame[..k] == Parsed(valid, frame);
  }

  function ArriveAll(c: Client, valid: string -> bool): Client
    decreases |c.wire|
  {
    if c.wire == [] then c else ArriveAll(ArriveStep(c, valid), valid)
  }

  /** Everything under way can arrive: nothing but the arrival of the frames is needed. */
  lemma {:induction false} EverythingArrives(c: Client, valid: string -> bool)
    requires forall i | 0 <= i < |InFlight(c.wire)| :: valid(InFlight(c.wire)[i])
    ensures ArriveAll(c, valid) == c.(shown := c.shown + InFlight(c.wire), wire := [])
    decreases |c.wire|
  {
    hide Messages, Parsed;
    if c.wire == [] {
      assert Batches(c.wire) == [];
    } else {
      var first, rest := Messages(c.wire[0]), InFlight(c.wire[1..]);
      FirstFrame(c.wire);
      forall i | 0 <= i < |first| ensures valid(first[i]) { assert first[i] == InFlight(c.wire)[i]; }
      forall i | 0 <= i < |rest| ensures valid(rest[i]) { assert rest[i] == InFlight(c.wire)[|first| + i]; }
      ParsedAll(valid, first);
      EverythingArrives(ArriveStep(c, valid), valid);
      assert c.shown + (first + rest) == c.shown + first + rest;
    }
  }
}

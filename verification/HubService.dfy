// The hub's own objects: a set of clients whose send queues the broadcast loop fills and
// whose channels it closes, and the loop that empties one queue into one frame.
module HubService {
  import opened Common
  import opened Frames
  import opened Hub

  class WSClient {
    const id: ClientId
    const user: UserId
    const mentor: bool
    var room: string
    var send: seq<string>
    var closed: bool

    constructor (id: ClientId, user: UserId, mentor: bool, room: string)
      ensures this.id == id && this.user == user && this.mentor == mentor && this.room == room
      ensures send == [] && !closed
    {
      this.id, this.user, this.mentor, this.room := id, user, mentor, room;
      send, closed := [], false;
    }

    /** One frame of the write pump: the first queued message and, newline-separated, as many
        more as are queued behind it. */
    method PumpFrame() returns (frame: Option<string>)
      modifies this`send
      ensures old(send) == [] ==> frame == None && send == []
      ensures old(send) != [] ==> frame == Some(Join(old(send))) && send == []
    {
      if send == [] {
        return None;
      }
      ghost var queued := send;
      var text := send[0];
      send := send[1..];
      var n := |send|;
      for i := 0 to n
        invariant |queued| == n + 1
        invariant send == queued[i + 1..]
        invariant text == Join(queued[..i + 1])
      {
        JoinSnoc(queued[..i + 1], send[0]);
        assert queued[..i + 1] + [send[0]] == queued[..i + 2];
        text := text + [NEWLINE];
        text := text + send[0];
        send := send[1..];
      }
      assert queued[..n + 1] == queued;
      frame := Some(text);
    }
  }

  /** The rest of a frame: the counted messages one by one, then the flush. */
  function FinishFrame(c: Client): Client
    decreases if c.pump.Writing? then c.pump.left else 0
  {
    if c.pump.Writing? && c.pump.left > 0 && (c.queue != [] || c.closed) then FinishFrame(MoreStep(c))
    else FlushStep(c, true)
  }

  lemma {:induction false} FrameGathers(c: Client, taken: seq<string>)
    requires taken != [] && c.pump == Writing(Join(taken), |c.queue|)
    ensures FinishFrame(c) == c.(pump := Idle, queue := [], wire := c.wire + [Join(taken + c.queue)])
    decreases |c.queue|
  {
    if c.queue == [] {
      assert taken + c.queue == taken;
    } else {
      JoinSnoc(taken, c.queue[0]);
      assert taken + [c.queue[0]] + c.queue[1..] == taken + c.queue;
      FrameGathers(MoreStep(c), taken + [c.queue[0]]);
    }
  }

  /** PumpFrame does what the hub's pump steps do when nothing is queued in between: one
      frame, which is the join of the whole queue. */
  lemma FrameIsPumpSteps(id: ClientId, c: Client, valid: string -> bool)
    requires c.pump.Idle? && c.queue != []
    ensures var counted := ClientStep(id, ClientStep(id, c, Take(id), valid), CountQueued(id), valid);
            FinishFrame(counted) == c.(queue := [], wire := c.wire + [Join(c.queue)])
  {
    var counted := ClientStep(id, ClientStep(id, c, Take(id), valid), CountQueued(id), valid);
    FrameGathers(counted, [c.queue[0]]);
    assert [c.queue[0]] + c.queue[1..] == c.queue;
  }

  /** The pump can always get a connected client everything: it writes what is queued as one
      frame, the frames arrive, and then what was shown, under way and queued is shown. */
  lemma EverythingDelivered(id: ClientId, c: Client, valid: string -> bool)
    requires ClientInv(c, valid) && c.pump.Idle? && c.queue != []
    ensures var counted := ClientStep(id, ClientStep(id, c, Take(id), valid), CountQueued(id), valid);
            var d := ArriveAll(FinishFrame(counted), valid);
            && d.shown == c.shown + InFlight(c.wire) + c.queue && d.wire == [] && d.queue == []
            && (c.registered ==> d.shown == c.addressed)
  {
    hide Messages, FinishFrame, ClientStep;
    var frame := Join(c.queue);
    var counted := ClientStep(id, ClientStep(id, c, Take(id), valid), CountQueued(id), valid);
    FrameIsPumpSteps(id, c, valid);
    var d := FinishFrame(counted);
    assert d == c.(queue := [], wire := c.wire + [frame]);
    forall i | 0 <= i < |c.queue| ensures Clean(c.queue[i]) { assert Good(valid, c.queue[i]); }
    JoinedMessages(c.queue);
    InFlightAppend(c.wire, [frame]);
    OneFrame(frame);
    var through := c.shown + InFlight(c.wire);
    forall i | 0 <= i < |InFlight(d.wire)| ensures valid(InFlight(d.wire)[i]) {
      if i < |InFlight(c.wire)| {
        assert InFlight(d.wire)[i] == through[|c.shown| + i] == c.addressed[|c.shown| + i];
      } else {
        assert InFlight(d.wire)[i] == c.queue[i - |InFlight(c.wire)|];
      }
    }
    EverythingArrives(d, valid);
    assert c.shown + (InFlight(c.wire) + c.queue) == c.shown + InFlight(c.wire) + c.queue;
    assert Pipeline(c) == c.shown + InFlight(c.wire) + c.queue;
  }

  /** The client is one the target addresses. */
  predicate IsAddressed(target: Target, c: WSClient)
    reads c
  {
    Addressed(target, c.id, c.user, c.mentor, c.room)
  }

  class WSHub {
    var clients: set<WSClient>

    /** No registered client has a closed channel: a send or close on it would panic. */
    ghost predicate Valid()
      reads this, clients
    {
      forall c | c in clients :: !c.closed
    }

    constructor ()
      ensures Valid() && clients == {}
    {
      clients := {};
    }

    method Register(c: WSClient)
      requires Valid() && !c.closed
      modifies this
      ensures Valid() && clients == old(clients) + {c}
    {
      clients := clients + {c};
    }

    /** Closes the channel of a registered client, once. */
    method Unregister(c: WSClient)
      requires Valid()
      modifies this, c`closed
      ensures Valid() && clients == old(clients) - {c}
      ensures c.closed == (old(c.closed) || c in old(clients))
    {
      if c in clients {
        clients := clients - {c};
        c.closed := true;
      }
    }

    /** What a broadcast has done to client c, given its queue and channel before. */
    twostate predicate Offered(c: WSClient, target: Target, message: string)
      reads this, c
    {
      && c.room == old(c.room)
      && (if !old(IsAddressed(target, c)) then c.send == old(c.send) && c.closed == old(c.closed) && c in clients
          else if |old(c.send)| < 256 then c.send == old(c.send) + [message] && c.closed == old(c.closed) && c in clients
          else c.send == old(c.send) && c.closed && c !in clients)
    }

    /** Offers the message to every client the target addresses, in any order; a client whose
        queue is full is closed and dropped, everybody else stays. */
    method Broadcast(target: Target, message: string)
      requires Valid()
      modifies this, clients
      ensures Valid() && clients <= old(clients)
      ensures forall c | c in old(clients) :: Offered(c, target, message)
    {
      var todo := clients;
      while todo != {}
        invariant todo <= clients <= old(clients)
        invariant forall c | c in todo :: c.send == old(c.send) && c.closed == old(c.closed) && c.room == old(c.room)
        invariant forall c | c in old(clients) && c !in todo :: Offered(c, target, message)
        invariant forall c | c in clients :: !c.closed
        decreases |todo|
      {
        var c :| c in todo;
        todo := todo - {c};
        if IsAddressed(target, c) {
          if |c.send| < QUEUE_CAPACITY {
            c.send := c.send + [message];
          } else {
            c.closed := true;
            clients := clients - {c};
          }
        }
      }
    }
  }
}

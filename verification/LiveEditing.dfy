// From one editor to the other: the writer's messages through the hub, its queues, frames
// and splitter, into the peer's file list.
module LiveEditing {
  import opened Common
  import Hub
  import opened Workspace
  import opened UndoRedo
  import opened Replication

  /** The peer's file list after the texts its browser has dispatched. Chat, matchmaking and
      other texts that are no file messages do not touch it. */
  function Shown(files: seq<File>, texts: seq<string>, decode: string -> Option<Seen>, active: FileId): seq<File> {
    if texts == [] then files
    else
      var before := Shown(files, texts[..|texts| - 1], decode, active);
      match decode(texts[|texts| - 1])
      case Some(seen) => Receive(before, active, seen)
      case None => before
  }

  /** The file messages among the texts. */
  function FileMessages(texts: seq<string>, decode: string -> Option<Seen>): seq<Seen> {
    if texts == [] then []
    else
      FileMessages(texts[..|texts| - 1], decode)
      + match decode(texts[|texts| - 1]) case Some(seen) => [seen] case None => []
  }

  /** The texts' file messages are the writer's first ones. */
  predicate Carries(texts: seq<string>, decode: string -> Option<Seen>, sent: seq<Message>) {
    var seen := FileMessages(texts, decode);
    |seen| <= |sent| && forall i | 0 <= i < |seen| :: seen[i] == Relay(sent[i])
  }

  lemma {:induction false} FileMessagesPrefix(texts: seq<string>, n: nat, decode: string -> Option<Seen>)
    requires n <= |texts|
    ensures FileMessages(texts[..n], decode) <= FileMessages(texts, decode)
    decreases |texts|
  {
    if n < |texts| {
      FileMessagesPrefix(texts[..|texts| - 1], n, decode);
      assert texts[..|texts| - 1][..n] == texts[..n];
    } else {
      assert texts[..n] == texts;
    }
  }

  lemma {:induction false} ShownIsReplay(files: seq<File>, texts: seq<string>, decode: string -> Option<Seen>, sent: seq<Message>, active: FileId)
    requires Carries(texts, decode, sent)
    ensures Shown(files, texts, decode, active) == Replay(files, sent[..|FileMessages(texts, decode)|], active)
  {
    if texts != [] {
      var init := texts[..|texts| - 1];
      var before, k := FileMessages(init, decode), |FileMessages(texts, decode)|;
      FileMessagesPrefix(texts, |init|, decode);
      ShownIsReplay(files, init, decode, sent, active);
      if decode(texts[|texts| - 1]).Some? {
        assert sent[..k][..k - 1] == sent[..|before|];
        assert FileMessages(texts, decode)[k - 1] == Relay(sent[k - 1]);
      } else {
        assert FileMessages(texts, decode) == before;
      }
    }
  }

  /** A peer connects; all messages are well-formed. */
  ghost predicate Joins(before: seq<Hub.Event>, r: Hub.Event, after: seq<Hub.Event>, valid: string -> bool) {
    && r.Register? && r.id !in Hub.Run(before, valid)
    && (forall i | 0 <= i < |before| && before[i].Broadcast? :: Hub.Good(valid, before[i].message))
    && (forall i | 0 <= i < |after| && after[i].Broadcast? :: Hub.Good(valid, after[i].message))
  }

  lemma ShownIsMail(before: seq<Hub.Event>, r: Hub.Event, after: seq<Hub.Event>, valid: string -> bool)
    requires Joins(before, r, after, valid)
    ensures var s := Hub.Run(before + [r] + after, valid);
            r.id in s && s[r.id].shown <= Hub.Mail(after, r)
  {
    var all := before + [r] + after;
    Hub.MailArrives(before, r, after, valid);
    forall i | 0 <= i < |all| && all[i].Broadcast? ensures Hub.Good(valid, all[i].message) {
      if i < |before| {
        assert all[i] == before[i];
      } else if i > |before| {
        assert all[i] == after[i - |before| - 1];
      }
    }
    Hub.EndToEnd(all, valid);
    var c := Hub.Run(all, valid)[r.id];
    assert c.shown + Hub.InFlight(c.wire) <= c.addressed;
  }

  /** At every moment of every run of the hub, whatever else is said to the peer, whatever is
      queued, batched, under way or lost with the connection, under whichever names the peer is
      reached: if the file messages among its mail are one writer's, it sees the files of some
      past moment of the writer: in order, with distinct ids, and with every content that the
      writer's page then showed, unless it was empty. */
  lemma PeerSeesAPastMoment(before: seq<Hub.Event>, r: Hub.Event, after: seq<Hub.Event>, valid: string -> bool,
                            s: State, es: seq<Event>, decode: string -> Option<Seen>, active: FileId) returns (j: nat)
    requires Joins(before, r, after, valid)
    requires Opens(s) && Carries(Hub.Mail(after, r), decode, Run(s, es).outbox)
    ensures j <= |es| && r.id in Hub.Run(before + [r] + after, valid)
    ensures var list := Shown(s.files, Hub.Run(before + [r] + after, valid)[r.id].shown, decode, active);
            Mirrors(Run(s, es[..j]).files, list) && Distinct(list)
  {
    ShownIsMail(before, r, after, valid);
    var shown := Hub.Run(before + [r] + after, valid)[r.id].shown;
    var mail, sent := Hub.Mail(after, r), Run(s, es).outbox;
    assert shown == mail[..|shown|];
    FileMessagesPrefix(mail, |shown|, decode);
    ShownIsReplay(s.files, shown, decode, sent, active);
    var k := |FileMessages(shown, decode)|;
    j := PrefixMirrors(s, es, active, k);
    MirrorsDistinct(Run(s, es[..j]).files, Replay(s.files, sent[..k], active));
  }
}

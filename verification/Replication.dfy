// One participant works, the other receives: what the peer's file list is after any part of
// the writer's messages, relayed in order, has arrived.
module Replication {
  import opened Common
  import opened Workspace
  import opened UndoRedo

  /** The peer's file list after the messages, from the list both pages started with. */
  function Replay(files: seq<File>, messages: seq<Message>, active: FileId): seq<File> {
    if messages == [] then files
    else Receive(Replay(files, messages[..|messages| - 1], active), active, Relay(messages[|messages| - 1]))
  }

  /** Some content this id was ever given, at the start or by a message, was not empty. */
  predicate EverFilled(files: seq<File>, messages: seq<Message>, id: FileId) {
    if messages == [] then exists i :: 0 <= i < |files| && files[i].id == id && files[i].content != ""
    else
      EverFilled(files, messages[..|messages| - 1], id)
      || match messages[|messages| - 1]
         case CodeChange(i, code) => i == id && code != ""
         case FileCreate(f) => f.id == id && f.content != ""
         case FileDelete(_) => false
  }

  /** Same files in the same order, and the same content wherever the writer's is not empty. */
  ghost predicate Mirrors(writer: seq<File>, peer: seq<File>) {
    && |writer| == |peer|
    && (forall i | 0 <= i < |writer| ::
          && writer[i].id == peer[i].id && writer[i].name == peer[i].name && writer[i].language == peer[i].language
          && (writer[i].content != "" ==> peer[i].content == writer[i].content))
  }

  ghost predicate PeerEmptyIff(start: seq<File>, messages: seq<Message>, peer: seq<File>) {
    forall i | 0 <= i < |peer| :: peer[i].content == "" <==> !EverFilled(start, messages, peer[i].id)
  }

  ghost predicate IdsNamed(files: seq<File>) {
    forall i | 0 <= i < |files| :: files[i].id != ""
  }

  /** Writer and peer are in step after the writer's messages so far. */
  ghost predicate InStep(start: seq<File>, s: State, peer: seq<File>) {
    && Inv(s) && IdsNamed(s.files)
    && Mirrors(s.files, peer) && PeerEmptyIff(start, s.outbox, peer)
  }

  lemma {:induction false} FindMirrors(writer: seq<File>, peer: seq<File>, id: FileId)
    requires Mirrors(writer, peer)
    ensures Find(writer, id).Some? <==> Find(peer, id).Some?
  {
    if writer != [] && writer[0].id != id {
      FindMirrors(writer[1..], peer[1..], id);
    }
  }

  lemma {:induction false} WithoutMirrors(writer: seq<File>, peer: seq<File>, id: FileId)
    requires Mirrors(writer, peer)
    ensures Mirrors(Without(writer, id), Without(peer, id))
  {
    if writer != [] {
      WithoutMirrors(writer[..|writer| - 1], peer[..|peer| - 1], id);
    }
  }

  lemma WriteInStep(start: seq<File>, s: State, t: State, peer: seq<File>, active: FileId, code: string)
    requires InStep(start, s, peer) && Inv(t)
    requires t.active == s.active && t.files == SetContent(s.files, s.active, code)
    requires t.outbox == s.outbox + [CodeChange(s.active, code)]
    ensures InStep(start, t, Receive(peer, active, Relay(CodeChange(s.active, code))))
  {
    assert t.outbox[..|s.outbox|] == s.outbox;
    FoundIn(s.files, s.active);
  }

  lemma CreateInStep(start: seq<File>, s: State, peer: seq<File>, active: FileId, newId: FileId, typed: string)
    requires InStep(start, s, peer) && Trim(typed) != "" && FreshId(s, newId)
    requires Inv(HandleCreate(s, newId, typed))
    ensures InStep(start, HandleCreate(s, newId, typed), Receive(peer, active, Relay(FileCreate(NewFile(newId, typed)))))
  {
    var t := HandleCreate(s, newId, typed);
    FindMirrors(s.files, peer, newId);
    assert t.outbox[..|s.outbox|] == s.outbox;
    forall i | 0 <= i < |s.files| ensures s.files[i].id != newId {
      FindSome(s.files, s.files[i]);
    }
  }

  lemma WithoutContents(start: seq<File>, messages: seq<Message>, peer: seq<File>, gone: FileId)
    requires PeerEmptyIff(start, messages, peer)
    ensures PeerEmptyIff(start, messages, Without(peer, gone))
  {
  }

  lemma DeleteMirrors(writer: seq<File>, peer: seq<File>, active: FileId, gone: FileId)
    requires Mirrors(writer, peer) && IdsNamed(writer)
    ensures Mirrors(Without(writer, gone), Receive(peer, active, DeleteSeen(gone)))
    ensures Receive(peer, active, DeleteSeen(gone)) == Without(peer, gone)
    ensures IdsNamed(Without(writer, gone))
  {
    WithoutMirrors(writer, peer, gone);
    WithoutSubset(writer, gone);
    if gone == "" {
      WithoutNone(peer, "");
    }
  }

  lemma DeleteInStep(start: seq<File>, s: State, peer: seq<File>, active: FileId, gone: FileId)
    requires InStep(start, s, peer) && |s.files| > 1
    requires Inv(HandleDelete(s, gone))
    ensures InStep(start, HandleDelete(s, gone), Receive(peer, active, Relay(FileDelete(gone))))
  {
    var t := HandleDelete(s, gone);
    assert t.outbox[..|s.outbox|] == s.outbox;
    DeleteMirrors(s.files, peer, active, gone);
    WithoutContents(start, s.outbox, peer, gone);
  }

  lemma {:induction false} WithoutSubset(files: seq<File>, gone: FileId)
    ensures forall i | 0 <= i < |Without(files, gone)| :: Without(files, gone)[i] in files
  {
    if files != [] {
      WithoutSubset(files[..|files| - 1], gone);
    }
  }

  lemma StepInStep(start: seq<File>, s: State, peer: seq<File>, active: FileId, e: Event)
    requires InStep(start, s, peer)
    ensures var t := Step(s, e);
            && s.outbox <= t.outbox && |t.outbox| <= |s.outbox| + 1
            && (t.outbox == s.outbox ==> InStep(start, t, peer))
            && (t.outbox != s.outbox ==> InStep(start, t, Receive(peer, active, Relay(t.outbox[|s.outbox|]))))
  {
    var t := Step(s, e);
    StepRefines(s, e, s.active);
    match e
    case Edit(code) => WriteInStep(start, s, t, peer, active, code);
    case Undo => if CanUndo(s) { WriteInStep(start, s, t, peer, active, t.outbox[|s.outbox|].code); }
    case Redo => if CanRedo(s) { WriteInStep(start, s, t, peer, active, t.outbox[|s.outbox|].code); }
    case Select(_) =>
    case CreateFile(newId, typed) =>
      if Trim(typed) != "" && FreshId(s, newId) { CreateInStep(start, s, peer, active, newId, typed); }
    case DeleteFile(gone) => if |s.files| > 1 { DeleteInStep(start, s, peer, active, gone); }
  }

  /** Both pages open with the same non-empty list of distinctly named files. */
  ghost predicate Opens(s: State) {
    Inv(s) && s.history == map[] && s.outbox == [] && IdsNamed(s.files)
  }

  lemma StartInStep(s: State)
    requires Opens(s)
    ensures InStep(s.files, s, s.files)
  {
  }

  lemma StepReplays(start: seq<File>, s: State, active: FileId, e: Event)
    requires InStep(start, s, Replay(start, s.outbox, active))
    ensures InStep(start, Step(s, e), Replay(start, Step(s, e).outbox, active))
  {
    var t := Step(s, e);
    StepInStep(start, s, Replay(start, s.outbox, active), active, e);
    if t.outbox != s.outbox {
      assert t.outbox[..|t.outbox| - 1] == s.outbox;
    }
  }

  /** In any run of the writer, the peer that has received everything sent so far is in step. */
  lemma {:induction false} RunInStep(s: State, es: seq<Event>, active: FileId)
    requires Opens(s)
    ensures InStep(s.files, Run(s, es), Replay(s.files, Run(s, es).outbox, active))
  {
    if es == [] {
      StartInStep(s);
    } else {
      RunInStep(s, es[..|es| - 1], active);
      StepReplays(s.files, Run(s, es[..|es| - 1]), active, es[|es| - 1]);
    }
  }

  /** After any prefix of the messages, the peer mirrors the writer as it was when the last
      of them was sent. */
  lemma {:induction false} PrefixMirrors(s: State, es: seq<Event>, active: FileId, k: nat) returns (j: nat)
    requires Opens(s) && k <= |Run(s, es).outbox|
    ensures j <= |es| && Run(s, es[..j]).outbox == Run(s, es).outbox[..k]
    ensures InStep(s.files, Run(s, es[..j]), Replay(s.files, Run(s, es).outbox[..k], active))
  {
    RunInStep(s, es, active);
    if k == |Run(s, es).outbox| {
      j := |es|;
      assert es[..j] == es && Run(s, es).outbox[..k] == Run(s, es).outbox;
    } else {
      var init := es[..|es| - 1];
      RunInStep(s, init, active);
      StepInStep(s.files, Run(s, init), Replay(s.files, Run(s, init).outbox, active), active, es[|es| - 1]);
      j := PrefixMirrors(s, init, active, k);
      assert init[..j] == es[..j];
      assert Run(s, init).outbox[..k] == Run(s, es).outbox[..k];
    }
  }

  /** Single-writer replication, for every run of the writer. After every prefix of what was
      sent the peer has the writer's files of that moment, in order and with distinct ids,
      and every content the writer sees unless it is empty. After all of it the two lists
      are equal exactly if every file the writer sees empty has been empty throughout. */
  lemma SingleWriterReplication(s: State, es: seq<Event>, active: FileId, k: nat)
    requires Opens(s) && k <= |Run(s, es).outbox|
    ensures var t := Run(s, es);
            && (exists j :: 0 <= j <= |es| && Run(s, es[..j]).outbox == t.outbox[..k]
                  && Mirrors(Run(s, es[..j]).files, Replay(s.files, t.outbox[..k], active)))
            && Distinct(Replay(s.files, t.outbox[..k], active))
            && (Replay(s.files, t.outbox, active) == t.files <==>
                  forall i | 0 <= i < |t.files| && t.files[i].content == "" :: !EverFilled(s.files, t.outbox, t.files[i].id))
  {
    var t := Run(s, es);
    var peer := Replay(s.files, t.outbox, active);
    RunInStep(s, es, active);
    var j := PrefixMirrors(s, es, active, k);
    var moment := Run(s, es[..j]);
    MirrorsDistinct(moment.files, Replay(s.files, t.outbox[..k], active));
    if forall i | 0 <= i < |t.files| && t.files[i].content == "" :: !EverFilled(s.files, t.outbox, t.files[i].id) {
      forall i | 0 <= i < |peer| ensures peer[i] == t.files[i] {}
      assert peer == t.files;
    }
  }

  lemma MirrorsDistinct(writer: seq<File>, peer: seq<File>)
    requires Mirrors(writer, peer) && Distinct(writer)
    ensures Distinct(peer)
  {
  }

  /** Clearing a filled file is the message the peer never sees. */
  lemma ClearingIsLost(s: State, active: FileId)
    requires Opens(s) && ActiveFile(s).Some? && ActiveFile(s).value.content != ""
    ensures var t := Step(s, Edit(""));
            Content(t, s.active) == Some("") && Replay(s.files, t.outbox, active) == s.files != t.files
  {
    var t := Step(s, Edit(""));
    FindSetContent(s.files, s.active, "", s.active);
    assert t.outbox == [CodeChange(s.active, "")];
    assert t.outbox[..0] == [];
    assert Replay(s.files, t.outbox[..0], active) == s.files;
  }
}

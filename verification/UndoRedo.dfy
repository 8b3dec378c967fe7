// The undo histories are zippers: a past, a present that is the file's content, a future.
module UndoRedo {
  import opened Common
  import opened Workspace

  datatype Zipper = Zipper(past: seq<string>, present: string, future: seq<string>)

  datatype Action = Push(code: string) | Back | Forward

  function Act(z: Zipper, a: Action): Zipper {
    match a
    case Push(code) => Zipper(z.past + [z.present], code, [])
    case Back =>
      if z.past == [] then z
      else Zipper(z.past[..|z.past| - 1], z.past[|z.past| - 1], [z.present] + z.future)
    case Forward =>
      if z.future == [] then z
      else Zipper(z.past + [z.present], z.future[0], z.future[1..])
  }

  function ActAll(z: Zipper, actions: seq<Action>): Zipper {
    if actions == [] then z else Act(ActAll(z, actions[..|actions| - 1]), actions[|actions| - 1])
  }

  // ------------------------------------------------------------------ the workspace

  ghost predicate Distinct(files: seq<File>) {
    forall i, j | 0 <= i < j < |files| :: files[i].id != files[j].id
  }

  /** Indices are in bounds, and every edited file that still exists shows stack[index]. */
  ghost predicate Inv(s: State) {
    && Distinct(s.files)
    && Find(s.files, s.active).Some?
    && s.history.Keys == s.index.Keys
    && (forall id | id in s.history :: s.index[id] < |s.history[id]|)
    && (forall id | id in s.history && Find(s.files, id).Some? :: Content(s, id) == Some(s.history[id][s.index[id]]))
  }

  /** The zipper of a file: its history, or just its content while it has none. */
  function Zip(s: State, id: FileId): Zipper
    requires id in s.history ==> id in s.index && s.index[id] < |s.history[id]|
  {
    if id in s.history then
      var at := s.index[id];
      Zipper(s.history[id][..at], s.history[id][at], s.history[id][at + 1..])
    else Zipper([], (match Content(s, id) case Some(c) => c case None => ""), [])
  }

  lemma {:induction false} FindSetContent(files: seq<File>, target: FileId, content: string, id: FileId)
    ensures Find(SetContent(files, target, content), id) ==
              (match Find(files, id)
               case None => None
               case Some(f) => Some(if id == target then f.(content := content) else f))
  {
    if files != [] {
      assert SetContent(files, target, content)[1..] == SetContent(files[1..], target, content);
      if files[0].id != id {
        FindSetContent(files[1..], target, content, id);
      }
    }
  }

  lemma {:induction false} FindAppend(a: seq<File>, b: seq<File>, id: FileId)
    ensures Find(a + b, id) == if Find(a, id).Some? then Find(a, id) else Find(b, id)
  {
    if a == [] {
      assert a + b == b;
    } else {
      assert (a + b)[1..] == a[1..] + b;
      FindAppend(a[1..], b, id);
    }
  }

  lemma {:induction false} FindWithout(files: seq<File>, gone: FileId, id: FileId)
    ensures Find(Without(files, gone), id) == if id == gone then None else Find(files, id)
  {
    if files != [] {
      var init, last := files[..|files| - 1], files[|files| - 1];
      FindWithout(init, gone, id);
      FindAppend(Without(init, gone), [last], id);
      FindAppend(init, [last], id);
      assert files == init + [last];
      assert [last][1..] == [];
      if last.id == gone {
        assert Without(files, gone) == Without(init, gone);
      }
    }
  }

  lemma {:induction false} WithoutDistinct(files: seq<File>, gone: FileId)
    requires Distinct(files)
    ensures Distinct(Without(files, gone))
    ensures forall i | 0 <= i < |Without(files, gone)| :: Without(files, gone)[i] in files
  {
    if files != [] {
      WithoutDistinct(files[..|files| - 1], gone);
    }
  }

  lemma {:induction false} FindSome(files: seq<File>, f: File)
    requires f in files
    ensures Find(files, f.id).Some?
  {
    if files[0] != f {
      FindSome(files[1..], f);
    }
  }

  lemma {:induction false} WithoutLeavesOne(files: seq<File>, gone: FileId)
    requires Distinct(files)
    ensures |Without(files, gone)| >= |files| - 1
    ensures Find(files, gone).None? ==> Without(files, gone) == files
  {
    if files != [] {
      var init, last := files[..|files| - 1], files[|files| - 1];
      WithoutLeavesOne(init, gone);
      FindAppend(init, [last], gone);
      assert files == init + [last] && [last][1..] == [];
      if last.id == gone {
        if Find(init, gone).Some? {
          FoundIn(init, gone);
        }
      }
    }
  }

  lemma {:induction false} FoundIn(files: seq<File>, id: FileId)
    requires Find(files, id).Some?
    ensures exists i :: 0 <= i < |files| && files[i].id == id && files[i] == Find(files, id).value
  {
    if files[0].id == id {
      assert files[0] == Find(files, id).value;
    } else {
      FoundIn(files[1..], id);
      var i :| 0 <= i < |files[1..]| && files[1..][i].id == id && files[1..][i] == Find(files, id).value;
      assert files[i + 1].id == id;
    }
  }

  // ------------------------------------------------------------------ refinement

  /** The zipper action an event stands for, in the history of file id. */
  function ActionOf(s: State, e: Event, id: FileId): Option<Action> {
    if s.active != id then None
    else
      match e
      case Edit(code) => Some(Push(code))
      case Undo => Some(Back)
      case Redo => Some(Forward)
      case _ => None
  }

  lemma EditRefines(s: State, code: string, id: FileId)
    requires Inv(s) && Find(s.files, id).Some?
    ensures Inv(HandleEdit(s, code))
    ensures Zip(HandleEdit(s, code), id) == if s.active == id then Act(Zip(s, id), Push(code)) else Zip(s, id)
  {
    hide Find;
    var t := HandleEdit(s, code);
    forall i { FindSetContent(s.files, s.active, code, i); }
    var stack := if s.active in s.history then s.history[s.active] else [Content(s, s.active).value];
    assert stack == Zip(s, s.active).past + [Zip(s, s.active).present] + Zip(s, s.active).future;
  }

  /** Moving the index of the active file's history and showing what is there. */
  function MoveTo(s: State, at: nat): State
    requires s.active in s.history && at < |s.history[s.active]|
  {
    Write(s.(index := s.index[s.active := at]), s.history[s.active][at])
  }

  lemma MoveKeeps(s: State, at: nat)
    requires Inv(s) && s.active in s.history && at < |s.history[s.active]|
    ensures Inv(MoveTo(s, at))
  {
    forall i { FindSetContent(s.files, s.active, s.history[s.active][at], i); }
  }

  lemma MoveZips(s: State, at: nat, id: FileId)
    requires Inv(s) && s.active in s.history && at < |s.history[s.active]|
    ensures var t := MoveTo(s, at);
            && (id in t.history ==> id in t.index && t.index[id] < |t.history[id]|)
            && (id != s.active ==> Zip(t, id) == Zip(s, id))
            && (id == s.active ==> Zip(t, id) == Zipper(s.history[id][..at], s.history[id][at], s.history[id][at + 1..]))
  {
    FindSetContent(s.files, s.active, s.history[s.active][at], id);
  }

  lemma UndoRefines(s: State, id: FileId)
    requires Inv(s) && Find(s.files, id).Some?
    ensures Inv(HandleUndo(s))
    ensures Zip(HandleUndo(s), id) == if s.active == id then Act(Zip(s, id), Back) else Zip(s, id)
  {
    hide Find, SetContent;
    if CanUndo(s) {
      var at := s.index[s.active] - 1;
      var stack := s.history[s.active];
      MoveKeeps(s, at);
      MoveZips(s, at, id);
      assert HandleUndo(s) == MoveTo(s, at);
      assert stack[..at + 1][..at] == stack[..at];
      assert stack[at + 1..] == [stack[at + 1]] + stack[at + 2..];
    }
  }

  lemma RedoRefines(s: State, id: FileId)
    requires Inv(s) && Find(s.files, id).Some?
    ensures Inv(HandleRedo(s))
    ensures Zip(HandleRedo(s), id) == if s.active == id then Act(Zip(s, id), Forward) else Zip(s, id)
  {
    hide Find, SetContent;
    if CanRedo(s) {
      var at := s.index[s.active] + 1;
      var stack := s.history[s.active];
      MoveKeeps(s, at);
      MoveZips(s, at, id);
      assert HandleRedo(s) == MoveTo(s, at);
      assert stack[..at] == stack[..at - 1] + [stack[at - 1]];
      assert stack[at..][1..] == stack[at + 1..];
    }
  }

  lemma CreateRefines(s: State, newId: FileId, typed: string, id: FileId)
    requires Inv(s) && Find(s.files, id).Some?
    ensures Inv(HandleCreate(s, newId, typed)) && Zip(HandleCreate(s, newId, typed), id) == Zip(s, id)
  {
    if Trim(typed) != "" && FreshId(s, newId) {
      var f := NewFile(newId, typed);
      assert [f][1..] == [];
      forall i ensures Find(s.files + [f], i) == if Find(s.files, i).Some? then Find(s.files, i) else if i == newId then Some(f) else None {
        FindAppend(s.files, [f], i);
      }
      forall i | 0 <= i < |s.files| ensures s.files[i].id != newId {
        FindSome(s.files, s.files[i]);
      }
    }
  }

  lemma DeleteRefines(s: State, gone: FileId, id: FileId)
    requires Inv(s) && Find(s.files, id).Some?
    ensures Inv(HandleDelete(s, gone))
    ensures Find(HandleDelete(s, gone).files, id).Some? ==> Zip(HandleDelete(s, gone), id) == Zip(s, id)
  {
    hide Find, Without;
    if |s.files| > 1 {
      forall i ensures Find(Without(s.files, gone), i) == if i == gone then None else Find(s.files, i) {
        FindWithout(s.files, gone, i);
      }
      WithoutDistinct(s.files, gone);
      WithoutLeavesOne(s.files, gone);
      FindSome(Without(s.files, gone), Without(s.files, gone)[0]);
    }
  }

  lemma StepRefines(s: State, e: Event, id: FileId)
    requires Inv(s) && Find(s.files, id).Some?
    ensures Inv(Step(s, e))
    ensures Find(Step(s, e).files, id).Some? ==>
              Zip(Step(s, e), id) == match ActionOf(s, e, id) case Some(a) => Act(Zip(s, id), a) case None => Zip(s, id)
  {
    match e
    case Edit(code) => EditRefines(s, code, id);
    case Undo => UndoRefines(s, id);
    case Redo => RedoRefines(s, id);
    case Select(_) =>
    case CreateFile(newId, typed) => CreateRefines(s, newId, typed, id);
    case DeleteFile(gone) => DeleteRefines(s, gone, id);
  }

  /** The actions of a run on the history of file id. */
  function Actions(s: State, es: seq<Event>, id: FileId): seq<Action> {
    if es == [] then []
    else
      var before := Run(s, es[..|es| - 1]);
      Actions(s, es[..|es| - 1], id)
      + match ActionOf(before, es[|es| - 1], id) case Some(a) => [a] case None => []
  }

  /** The file exists before, during and after the run. */
  predicate Survives(s: State, es: seq<Event>, id: FileId) {
    Find(Run(s, es).files, id).Some? && (es == [] || Survives(s, es[..|es| - 1], id))
  }

  /** Any run of edits, undos, redos, selections, creations and deletions acts on each
      surviving file's history as the zipper of its own actions does, and the file's content
      is the zipper's present. */
  lemma {:induction false} HistoriesAreZippers(s: State, es: seq<Event>, id: FileId)
    requires Inv(s) && Survives(s, es, id)
    ensures Inv(Run(s, es)) && Zip(Run(s, es), id) == ActAll(Zip(s, id), Actions(s, es, id))
    ensures Content(Run(s, es), id) == Some(Zip(Run(s, es), id).present)
  {
    if es != [] {
      var init, e := es[..|es| - 1], es[|es| - 1];
      HistoriesAreZippers(s, init, id);
      StepRefines(Run(s, init), e, id);
      var actions := Actions(s, init, id);
      match ActionOf(Run(s, init), e, id)
      case Some(a) => assert (actions + [a])[..|actions|] == actions;
      case None => assert actions + [] == actions;
    }
  }

  // ------------------------------------------------------------------ laws

  /** Undo and redo undo each other wherever they do anything. */
  lemma BackForwardInverse(z: Zipper)
    ensures z.past != [] ==> Act(Act(z, Back), Forward) == z
    ensures z.future != [] ==> Act(Act(z, Forward), Back) == z
  {
    if z.past != [] {
      assert z.past[..|z.past| - 1] + [z.past[|z.past| - 1]] == z.past;
    }
    if z.future != [] {
      assert [z.future[0]] + z.future[1..] == z.future;
      assert (z.past + [z.present])[..|z.past|] == z.past;
    }
  }

  function Pushes(codes: seq<string>): seq<Action> {
    seq(|codes|, i requires 0 <= i < |codes| => Push(codes[i]))
  }

  function Backs(k: nat): seq<Action> {
    seq(k, _ => Back)
  }

  lemma {:induction false} ActAllAppend(z: Zipper, a: seq<Action>, b: seq<Action>)
    ensures ActAll(z, a + b) == ActAll(ActAll(z, a), b)
  {
    if b == [] {
      assert a + b == a;
    } else {
      assert (a + b)[..|a + b| - 1] == a + b[..|b| - 1];
      ActAllAppend(z, a, b[..|b| - 1]);
    }
  }

  lemma SingleAct(z: Zipper, a: Action)
    ensures ActAll(z, [a]) == Act(z, a)
  {
  }

  lemma Sandwich(z: Zipper, first: Action, middle: seq<Action>, last: Action)
    ensures ActAll(z, [first] + middle + [last]) == Act(ActAll(Act(z, first), middle), last)
  {
    SingleAct(z, first);
    ActAllAppend(z, [first], middle);
    SingleAct(ActAll(z, [first] + middle), last);
    ActAllAppend(z, [first] + middle, [last]);
  }

  /** k edits and then k undos bring the content and the undo part back, and leave exactly
      those edits to redo. */
  lemma {:induction false} EditsUndone(z: Zipper, codes: seq<string>)
    requires codes != []
    ensures ActAll(z, Pushes(codes) + Backs(|codes|)) == Zipper(z.past, z.present, codes)
    decreases |codes|
  {
    var rest := codes[1..];
    var pushed := Act(z, Push(codes[0]));
    var middle := Pushes(rest) + Backs(|rest|);
    if rest != [] {
      EditsUndone(pushed, rest);
    } else {
      assert middle == [];
    }
    Sandwich(z, Push(codes[0]), middle, Back);
    assert Pushes(codes) + Backs(|codes|) == [Push(codes[0])] + middle + [Back];
    assert [codes[0]] + rest == codes;
  }

  /** An edit keeps the undo part, adds the present to it, and discards exactly the redo part. */
  lemma EditDiscardsRedo(s: State, code: string, id: FileId)
    requires Inv(s) && Find(s.files, id).Some?
    ensures var z, w := Zip(s, id), Zip(HandleEdit(s, code), id);
            if id == s.active then w.past == z.past + [z.present] && w.present == code && w.future == [] else w == z
  {
    EditRefines(s, code, id);
  }

  // ------------------------------------------------------------------ remote edits

  /** A peer's edit goes into the file but not into its history. The next undo then returns
      to what the local history holds: the invariant survives exactly when the file has no
      history yet or already showed that content. */
  lemma RemoteEditKeepsIff(s: State, id: FileId, code: string)
    requires Inv(s) && id != "" && Find(s.files, id).Some?
    ensures var t := s.(files := Receive(s.files, s.active, CodeSeen(id, Some(code))));
            Inv(t) <==> id !in s.history || s.history[id][s.index[id]] == code
  {
    var t := s.(files := Receive(s.files, s.active, CodeSeen(id, Some(code))));
    forall i { FindSetContent(s.files, id, code, i); }
    assert Content(t, id) == Some(code);
  }
}

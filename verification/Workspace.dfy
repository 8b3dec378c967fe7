// The shared workspace of a room: a list of files, the file being edited, an undo history
// per file, and the messages that local actions send to the peer.
module Workspace {
  import opened Common
  import opened Frames

  type FileId = string

  datatype File = File(id: FileId, name: string, language: string, content: string)

  datatype Message =
    | CodeChange(id: FileId, code: string)
    | FileCreate(file: File)
    | FileDelete(id: FileId)

  datatype State = State(
    files: seq<File>,
    active: FileId,
    history: map<FileId, seq<string>>,
    index: map<FileId, nat>,
    outbox: seq<Message>)

  datatype Event =
    | Edit(code: string)
    | Undo
    | Redo
    | Select(id: FileId)
    | CreateFile(id: FileId, typed: string)
    | DeleteFile(id: FileId)

  /** Every file with this id gets the content. */
  function SetContent(files: seq<File>, id: FileId, content: string): (out: seq<File>)
    ensures |out| == |files|
  {
    seq(|files|, i requires 0 <= i < |files| => if files[i].id == id then files[i].(content := content) else files[i])
  }

  function Without(files: seq<File>, id: FileId): seq<File> {
    if files == [] then []
    else Without(files[..|files| - 1], id) + if files[|files| - 1].id == id then [] else [files[|files| - 1]]
  }

  function Find(files: seq<File>, id: FileId): Option<File> {
    if files == [] then None
    else if files[0].id == id then Some(files[0])
    else Find(files[1..], id)
  }

  // The file shown in the editor: the active one, or the first if there is none.
  function ActiveFile(s: State): Option<File> {
    match Find(s.files, s.active)
    case Some(f) => Some(f)
    case None => if s.files == [] then None else Some(s.files[0])
  }

  function Content(s: State, id: FileId): Option<string> {
    match Find(s.files, id)
    case Some(f) => Some(f.content)
    case None => None
  }

  /** The content goes into the active file and to the peer. */
  function Write(s: State, code: string): State {
    s.(files := SetContent(s.files, s.active, code), outbox := s.outbox + [CodeChange(s.active, code)])
  }

  // An edit starts a history from the content on screen, drops what was undone, and pushes.
  function Pushed(s: State, code: string): State {
    var shown := match ActiveFile(s) case Some(f) => f.content case None => "";
    var stack := if s.active in s.history then s.history[s.active] else [shown];
    var at := if s.active in s.history && s.active in s.index then s.index[s.active] else |stack| - 1;
    var kept := if at + 1 <= |stack| then stack[..at + 1] else stack;
    var pushed := kept + [code];
    s.(history := s.history[s.active := pushed], index := s.index[s.active := |pushed| - 1])
  }

  function HandleEdit(s: State, code: string): State {
    Write(Pushed(s, code), code)
  }

  predicate CanUndo(s: State) {
    s.active in s.history && s.active in s.index && 0 < s.index[s.active] <= |s.history[s.active]|
  }

  predicate CanRedo(s: State) {
    s.active in s.history && s.active in s.index && s.index[s.active] + 1 < |s.history[s.active]|
  }

  function HandleUndo(s: State): State {
    if !CanUndo(s) then s
    else
      var at := s.index[s.active] - 1;
      Write(s.(index := s.index[s.active := at]), s.history[s.active][at])
  }

  function HandleRedo(s: State): State {
    if !CanRedo(s) then s
    else
      var at := s.index[s.active] + 1;
      Write(s.(index := s.index[s.active := at]), s.history[s.active][at])
  }

  function Trim(text: string): string {
    if text == "" then ""
    else if IsSpace(text[0]) then Trim(text[1..])
    else if IsSpace(text[|text| - 1]) then Trim(text[..|text| - 1])
    else text
  }

  /** What follows the last dot; the whole name if there is none. */
  function Extension(name: string): string {
    if name == "" then ""
    else if name[|name| - 1] == '.' then ""
    else Extension(name[..|name| - 1]) + [name[|name| - 1]]
  }

  function LanguageOf(name: string): string {
    var ext := Extension(name);
    if ext == "go" then "go" else if ext == "ts" || ext == "js" then "typescript" else "text"
  }

  lemma Outwards(c: char, left: string, inner: string, right: string)
    ensures [c] + (left + inner + right) == ([c] + left) + inner + right
    ensures (left + inner + right) + [c] == left + inner + (right + [c])
  {
  }

  lemma BlankGrows(c: char, text: string)
    requires IsSpace(c) && Blank(text)
    ensures Blank([c] + text) && Blank(text + [c])
  {
  }

  /** Trim takes white space off both ends, all of it and nothing else. */
  lemma {:induction false} TrimIsInner(text: string) returns (left: string, right: string)
    ensures Blank(left) && Blank(right) && text == left + Trim(text) + right
    ensures Trim(text) != "" ==> !IsSpace(Trim(text)[0]) && !IsSpace(Trim(text)[|Trim(text)| - 1])
    decreases |text|
  {
    left, right := "", "";
    if text == "" {
    } else if IsSpace(text[0]) {
      left, right := TrimIsInner(text[1..]);
      BlankGrows(text[0], left);
      Outwards(text[0], left, Trim(text), right);
      assert text == [text[0]] + text[1..];
      left := [text[0]] + left;
    } else if IsSpace(text[|text| - 1]) {
      var last := text[|text| - 1];
      left, right := TrimIsInner(text[..|text| - 1]);
      BlankGrows(last, right);
      Outwards(last, left, Trim(text), right);
      assert text == text[..|text| - 1] + [last];
      right := right + [last];
    } else {
      assert "" + text + "" == text;
    }
  }

  predicate Dotless(text: string) {
    forall i | 0 <= i < |text| :: text[i] != '.'
  }

  /** The extension is what follows the last dot, and the whole of a name without one. */
  lemma {:induction false} ExtensionFollowsLastDot(stem: string, ext: string)
    requires Dotless(ext)
    ensures Extension(stem + "." + ext) == ext && Extension(ext) == ext
    decreases |ext|
  {
    if ext != "" {
      var init := ext[..|ext| - 1];
      ExtensionFollowsLastDot(stem, init);
      assert ext == init + [ext[|ext| - 1]];
      assert (stem + "." + ext)[..|stem + "." + ext| - 1] == stem + "." + init;
    }
  }

  /** Files named .go are Go, files named .ts or .js are TypeScript, all others are text. */
  lemma LanguageByExtension(stem: string, ext: string)
    requires Dotless(ext)
    ensures var language := LanguageOf(stem + "." + ext);
            && (language == "go" <==> ext == "go")
            && (language == "typescript" <==> ext == "ts" || ext == "js")
            && (language == "text" <==> ext != "go" && ext != "ts" && ext != "js")
  {
    ExtensionFollowsLastDot(stem, ext);
  }

  function NewFile(id: FileId, typed: string): File {
    var name := Trim(typed);
    File(id, name, LanguageOf(name), "// Arquivo: " + name + "\n\n")
  }

  /** No file and no history has had this id. */
  predicate FreshId(s: State, id: FileId) {
    id != "" && Find(s.files, id).None? && id !in s.history
  }

  // A blank name creates nothing, and new ids are fresh.
  function HandleCreate(s: State, id: FileId, typed: string): State {
    if Trim(typed) == "" || !FreshId(s, id) then s
    else
      var f := NewFile(id, typed);
      s.(files := s.files + [f], active := id, outbox := s.outbox + [FileCreate(f)])
  }

  // The last file stays; deleting the active one selects the first that is left.
  function HandleDelete(s: State, id: FileId): State {
    if |s.files| <= 1 then s
    else
      var left := Without(s.files, id);
      s.(files := left,
         active := if s.active == id && left != [] then left[0].id else s.active,
         outbox := s.outbox + [FileDelete(id)])
  }

  function HandleSelect(s: State, id: FileId): State {
    if Find(s.files, id).Some? then s.(active := id) else s
  }

  function Step(s: State, e: Event): State {
    match e
    case Edit(code) => HandleEdit(s, code)
    case Undo => HandleUndo(s)
    case Redo => HandleRedo(s)
    case Select(id) => HandleSelect(s, id)
    case CreateFile(id, typed) => HandleCreate(s, id, typed)
    case DeleteFile(id) => HandleDelete(s, id)
  }

  function Run(s: State, es: seq<Event>): State {
    if es == [] then s else Step(Run(s, es[..|es| - 1]), es[|es| - 1])
  }

  // ------------------------------------------------------------------ what is selected

  predicate IsFile(files: seq<File>, id: FileId) {
    exists i :: 0 <= i < |files| && files[i].id == id
  }

  lemma {:induction false} FoundIff(files: seq<File>, id: FileId)
    ensures Find(files, id).Some? <==> IsFile(files, id)
    ensures Find(files, id).Some? ==> Find(files, id).value.id == id
  {
    if files != [] && files[0].id != id {
      FoundIff(files[1..], id);
      if IsFile(files[1..], id) {
        var i :| 0 <= i < |files[1..]| && files[1..][i].id == id;
        assert files[i + 1].id == id;
      }
      if IsFile(files, id) {
        var i :| 0 <= i < |files| && files[i].id == id;
        assert files[1..][i - 1].id == id;
      }
    }
  }

  /** The first file that is left is the earliest one with another id. */
  lemma {:induction false} FirstLeft(files: seq<File>, gone: FileId, k: nat)
    requires k < |files| && files[k].id != gone && forall i | 0 <= i < k :: files[i].id == gone
    ensures Without(files, gone) != [] && Without(files, gone)[0] == files[k]
  {
    var init := files[..|files| - 1];
    if k == |init| {
      NothingLeft(init, gone);
    } else {
      FirstLeft(init, gone, k);
    }
  }

  lemma {:induction false} NothingLeft(files: seq<File>, gone: FileId)
    requires forall i | 0 <= i < |files| :: files[i].id == gone
    ensures Without(files, gone) == []
  {
    if files != [] {
      NothingLeft(files[..|files| - 1], gone);
    }
  }

  lemma {:induction false} WithoutNone(files: seq<File>, gone: FileId)
    requires forall i | 0 <= i < |files| :: files[i].id != gone
    ensures Without(files, gone) == files
  {
    if files != [] {
      var init, last := files[..|files| - 1], files[|files| - 1];
      WithoutNone(init, gone);
      assert files == init + [last] && last.id != gone;
    }
  }

  lemma {:induction false} WithoutOne(files: seq<File>, k: nat)
    requires k < |files| && forall i | 0 <= i < |files| && i != k :: files[i].id != files[k].id
    ensures Without(files, files[k].id) == files[..k] + files[k + 1..]
  {
    var init, last := files[..|files| - 1], files[|files| - 1];
    if k == |init| {
      WithoutNone(init, last.id);
      assert files[..k] == init && files[k + 1..] == [];
    } else {
      WithoutOne(init, k);
      assert files[..k] + files[k + 1..] == init[..k] + init[k + 1..] + [last];
    }
  }

  /** Deleting a file, when it is not the last one, takes it and nothing else out of the list
      and tells the peer. Deleting another file leaves the selection alone; deleting the
      selected one selects the earliest that is left. */
  lemma DeletionSelects(s: State, k: nat, first: nat)
    requires k < |s.files| && forall i | 0 <= i < |s.files| && i != k :: s.files[i].id != s.files[k].id
    requires first == if k == 0 then 1 else 0
    ensures var gone, t := s.files[k].id, HandleDelete(s, s.files[k].id);
            if |s.files| == 1 then t == s
            else
              && t.files == s.files[..k] + s.files[k + 1..]
              && t.outbox == s.outbox + [FileDelete(gone)]
              && t.history == s.history && t.index == s.index
              && (s.active != gone ==> t.active == s.active)
              && (s.active == gone ==> t.active == s.files[first].id)
  {
    WithoutOne(s.files, k);
    if |s.files| > 1 {
      FirstLeft(s.files, s.files[k].id, first);
    }
  }

  /** A new file goes to the end of the list, becomes the selected one, and is sent to the
      peer; a blank name creates none. */
  lemma CreationSelects(s: State, id: FileId, typed: string)
    requires id != "" && id !in s.history && !IsFile(s.files, id)
    ensures var t := HandleCreate(s, id, typed);
            if Blank(typed) then t == s
            else
              && |t.files| == |s.files| + 1 && t.files[..|s.files|] == s.files
              && var f := t.files[|s.files|];
                 && f.id == id && f.name == Trim(typed) && f.language == LanguageOf(f.name)
                 && f.content == "// Arquivo: " + f.name + "\n\n"
                 && t.active == id && t.outbox == s.outbox + [FileCreate(f)]
                 && t.history == s.history && t.index == s.index
  {
    FoundIff(s.files, id);
    var left, right := TrimIsInner(typed);
    if Trim(typed) == "" {
      assert typed == left + right;
    } else {
      assert typed[|left|] == Trim(typed)[0];
    }
  }

  /** Choosing a file of the list selects it, and changes nothing else. */
  lemma ChoiceSelects(s: State, id: FileId)
    ensures var t := HandleSelect(s, id);
            && t.active == (if IsFile(s.files, id) then id else s.active)
            && t.files == s.files && t.history == s.history && t.index == s.index && t.outbox == s.outbox
  {
    FoundIff(s.files, id);
  }

  /** The editor shows the selected file, and the first one if a peer has deleted it. */
  lemma EditorShows(s: State)
    ensures var f := ActiveFile(s);
            && (f.None? <==> s.files == [])
            && (IsFile(s.files, s.active) ==> f.value.id == s.active)
            && (!IsFile(s.files, s.active) && s.files != [] ==> f.value == s.files[0])
  {
    FoundIff(s.files, s.active);
    if s.files == [] {
      assert !IsFile(s.files, s.active);
    }
  }

  // ------------------------------------------------------------------ remote changes

  // A message as the peer's browser sees it. An absent code is undefined there.
  datatype Seen =
    | CodeSeen(id: FileId, code: Option<string>)
    | CreateSeen(file: File)
    | DeleteSeen(id: FileId)

  /** The server re-encodes room messages; an empty `code` is omitted from the result. */
  function Relay(m: Message): Seen {
    match m
    case CodeChange(id, code) => CodeSeen(id, if code == "" then None else Some(code))
    case FileCreate(f) => CreateSeen(f)
    case FileDelete(id) => DeleteSeen(id)
  }

  /** What the peer's handlers do to its file list. */
  function Receive(files: seq<File>, active: FileId, seen: Seen): seq<File> {
    match seen
    case CodeSeen(id, None) => files
    case CodeSeen(id, Some(code)) => SetContent(files, if id == "" then active else id, code)
    case CreateSeen(f) => if Find(files, f.id).Some? then files else files + [f]
    case DeleteSeen(id) => if id == "" then files else Without(files, id)
  }

  // ------------------------------------------------------------------ the window of an edit

  const EDIT_WINDOW := 50

  // While it is open, remote changes are dropped. Every keystroke sets a timer of its own
  // that shuts it, in milliseconds; a later keystroke does not cancel it.
  datatype EditWindow = EditWindow(open: bool, timers: seq<int>)

  const SHUT := EditWindow(false, [])

  datatype WindowEvent = Typed(now: int) | Fires(now: int)

  function WindowStep(w: EditWindow, e: WindowEvent): EditWindow {
    match e
    case Typed(now) => EditWindow(true, w.timers + [now + EDIT_WINDOW])
    case Fires(now) => if w.timers != [] && w.timers[0] <= now then EditWindow(false, w.timers[1..]) else w
  }

  function WindowAfter(w: EditWindow, es: seq<WindowEvent>): EditWindow {
    if es == [] then w else WindowStep(WindowAfter(w, es[..|es| - 1]), es[|es| - 1])
  }

  /** Timers and nothing else, from one time to before another. */
  predicate OnlyFires(es: seq<WindowEvent>, from: int, before: int) {
    forall i | 0 <= i < |es| :: es[i].Fires? && from <= es[i].now < before
  }

  lemma {:induction false} StaysOpen(w: EditWindow, es: seq<WindowEvent>, from: int, before: int)
    requires w.open && (w.timers == [] || w.timers[0] >= before) && OnlyFires(es, from, before)
    ensures WindowAfter(w, es) == w
  {
    if es != [] {
      StaysOpen(w, es[..|es| - 1], from, before);
    }
  }

  /** The window stays open from one time to before another, whenever timers run. */
  ghost predicate OpenThroughout(w: EditWindow, from: int, before: int) {
    forall es | OnlyFires(es, from, before) :: WindowAfter(w, es).open
  }

  /** A keystroke shuts the peer out for its whole fifty milliseconds if and only if no timer
      of an earlier keystroke is left that may run before they are over. */
  lemma FullWindowIff(w: EditWindow, now: int)
    ensures OpenThroughout(WindowStep(w, Typed(now)), now, now + 50) <==> w.timers == [] || w.timers[0] >= now + 50
  {
    var t := WindowStep(w, Typed(now));
    if w.timers == [] || w.timers[0] >= now + EDIT_WINDOW {
      forall es | OnlyFires(es, now, now + EDIT_WINDOW) ensures WindowAfter(t, es).open {
        StaysOpen(t, es, now, now + EDIT_WINDOW);
      }
    } else {
      var early := [Fires(if w.timers[0] < now then now else w.timers[0])];
      assert early[..0] == [] && WindowAfter(t, []) == t;
      assert OnlyFires(early, now, now + EDIT_WINDOW) && !WindowAfter(t, early).open;
    }
  }

  /** And nobody is shut out for good: once all timers have run, the window is shut. */
  lemma {:induction false} NoTimersShut(es: seq<WindowEvent>)
    ensures WindowAfter(SHUT, es).timers == [] ==> !WindowAfter(SHUT, es).open
  {
    if es != [] {
      NoTimersShut(es[..|es| - 1]);
    }
  }

  // ------------------------------------------------------------------ the component

  class Room {
    var files: seq<File>
    var active: FileId
    var history: map<FileId, seq<string>>
    var index: map<FileId, nat>
    var outbox: seq<Message>
    var localEdit: bool
    var timers: seq<int>

    ghost function View(): State
      reads this
    {
      State(files, active, history, index, outbox)
    }

    ghost function Window(): EditWindow
      reads this
    {
      EditWindow(localEdit, timers)
    }

    constructor (files: seq<File>, active: FileId)
      ensures View() == State(files, active, map[], map[], []) && Window() == SHUT
    {
      this.files, this.active := files, active;
      history, index, outbox, localEdit, timers := map[], map[], [], false, [];
    }

    method WriteActive(code: string)
      modifies this`files, this`outbox
      ensures View() == Write(old(View()), code)
    {
      var i := 0;
      var updated: seq<File> := [];
      while i < |files|
        invariant 0 <= i <= |files| == |old(files)| && files == old(files)
        invariant updated == SetContent(files, active, code)[..i]
      {
        updated := updated + [if files[i].id == active then files[i].(content := code) else files[i]];
        i := i + 1;
      }
      files := updated;
      outbox := outbox + [CodeChange(active, code)];
    }

    /** Starts a history where there is none, drops what was undone, and pushes the code. */
    method PushHistory(code: string)
      modifies this`history, this`index
      ensures View() == Pushed(old(View()), code)
    {
      if active !in history {
        var shown := ActiveFile(State(files, active, history, index, outbox));
        history := history[active := [if shown.Some? then shown.value.content else ""]];
        index := index[active := 0];
      }
      var stack := history[active];
      var at := if active in index then index[active] else |stack| - 1;
      var pushed := (if at + 1 <= |stack| then stack[..at + 1] else stack) + [code];
      history := history[active := pushed];
      index := index[active := |pushed| - 1];
    }

    method HandleCodeChange(code: string, now: int)
      modifies this
      ensures View() == HandleEdit(old(View()), code) && Window() == WindowStep(old(Window()), Typed(now))
    {
      localEdit := true;
      PushHistory(code);
      WriteActive(code);
      timers := timers + [now + EDIT_WINDOW];
    }

    /** The callback of the oldest timer that is still to run, once its time has come. */
    method TimerFires(now: int)
      modifies this`localEdit, this`timers
      ensures Window() == WindowStep(old(Window()), Fires(now))
    {
      if timers != [] && timers[0] <= now {
        localEdit := false;
        timers := timers[1..];
      }
    }

    method Undo()
      modifies this
      ensures View() == HandleUndo(old(View())) && Window() == old(Window())
    {
      if active in history && active in index && 0 < index[active] <= |history[active]| {
        var code := history[active][index[active] - 1];
        index := index[active := index[active] - 1];
        WriteActive(code);
      }
    }

    method Redo()
      modifies this
      ensures View() == HandleRedo(old(View())) && Window() == old(Window())
    {
      if active in history && active in index && index[active] + 1 < |history[active]| {
        var code := history[active][index[active] + 1];
        index := index[active := index[active] + 1];
        WriteActive(code);
      }
    }

    method CreateFile(id: FileId, typed: string)
      requires FreshId(View(), id)
      modifies this
      ensures View() == HandleCreate(old(View()), id, typed) && Window() == old(Window())
    {
      if Trim(typed) == "" {
        return;
      }
      var f := NewFile(id, typed);
      files := files + [f];
      active := f.id;
      outbox := outbox + [FileCreate(f)];
    }

    method DeleteFile(id: FileId)
      modifies this
      ensures View() == HandleDelete(old(View()), id) && Window() == old(Window())
    {
      if |files| <= 1 {
        return;
      }
      var left := Without(files, id);
      files := left;
      if active == id && left != [] {
        active := left[0].id;
      }
      outbox := outbox + [FileDelete(id)];
    }

    // ---- the peer's side of the same page

    method OnCodeChange(id: FileId, code: Option<string>)
      modifies this`files
      ensures files == if localEdit then old(files) else Receive(old(files), active, CodeSeen(id, code))
    {
      if code.Some? && !localEdit {
        var target := if id == "" then active else id;
        files := SetContent(files, target, code.value);
      }
    }

    method OnFileCreate(f: File)
      modifies this`files
      ensures files == if localEdit then old(files) else Receive(old(files), active, CreateSeen(f))
    {
      if !localEdit && Find(files, f.id).None? {
        files := files + [f];
      }
    }

    method OnFileDelete(id: FileId)
      modifies this`files
      ensures files == if localEdit then old(files) else Receive(old(files), active, DeleteSeen(id))
    {
      if id != "" && !localEdit {
        files := Without(files, id);
      }
    }
  }
}

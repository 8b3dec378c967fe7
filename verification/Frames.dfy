// Text frames: the write pump joins queued messages with newlines, the browser splits them
// again, skips blank lines, and parses and dispatches the rest in order.
module Frames {
  const NEWLINE := '\n'

  /** The pieces of a text between newlines. */
  function Split(text: string): (lines: seq<string>)
    ensures lines != []
  {
    if text == "" then [""]
    else
      var lines := Split(text[..|text| - 1]);
      var c := text[|text| - 1];
      if c == NEWLINE then lines + [""]
      else lines[..|lines| - 1] + [lines[|lines| - 1] + [c]]
  }

  function Join(messages: seq<string>): string {
    if messages == [] then ""
    else if |messages| == 1 then messages[0]
    else Join(messages[..|messages| - 1]) + [NEWLINE] + messages[|messages| - 1]
  }

  // White space and line terminators, as String.prototype.trim removes them.
  predicate IsSpace(c: char) {
    var n := c as int;
    9 <= n <= 13 || n == 0x20 || n == 0xA0 || n == 0x1680 || 0x2000 <= n <= 0x200A
      || n == 0x2028 || n == 0x2029 || n == 0x202F || n == 0x205F || n == 0x3000 || n == 0xFEFF
  }

  predicate Blank(line: string) {
    forall i | 0 <= i < |line| :: IsSpace(line[i])
  }

  predicate OneLine(text: string) {
    forall i | 0 <= i < |text| :: text[i] != NEWLINE
  }

  /** A message that can share a frame: on one line, and not blank. */
  predicate Clean(message: string) {
    OneLine(message) && !Blank(message)
  }

  function Kept(line: string): seq<string> {
    if Blank(line) then [] else [line]
  }

  function NonBlank(lines: seq<string>): seq<string> {
    if lines == [] then [] else Kept(lines[0]) + NonBlank(lines[1..])
  }

  /** The messages of a frame. */
  function Messages(frame: string): seq<string> {
    NonBlank(Split(frame))
  }

  /** What the browser dispatches: everything before the first text that does not parse,
      whose exception ends the loop over the frame. */
  function Parsed(valid: string -> bool, messages: seq<string>): seq<string> {
    if messages == [] || !valid(messages[0]) then [] else [messages[0]] + Parsed(valid, messages[1..])
  }

  function Dispatch(valid: string -> bool, frame: string): seq<string> {
    Parsed(valid, Messages(frame))
  }

  lemma {:induction false} ParsedAll(valid: string -> bool, messages: seq<string>)
    requires forall i | 0 <= i < |messages| :: valid(messages[i])
    ensures Parsed(valid, messages) == messages
  {
    if messages != [] {
      ParsedAll(valid, messages[1..]);
    }
  }

  /** What is dispatched is the longest part of the messages from the front that parses. */
  lemma {:induction false} ParsedIsFront(valid: string -> bool, messages: seq<string>)
    ensures var front := Parsed(valid, messages);
            && front <= messages && (forall i | 0 <= i < |front| :: valid(front[i]))
            && (|front| < |messages| ==> !valid(messages[|front|]))
  {
    if messages != [] && valid(messages[0]) {
      ParsedIsFront(valid, messages[1..]);
    }
  }

  /** The white space of the language, code point by code point. */
  lemma SpaceIsListed(c: char)
    ensures IsSpace(c) <==>
              c as int in {0x9, 0xA, 0xB, 0xC, 0xD, 0x20, 0xA0, 0x1680, 0x2000, 0x2001, 0x2002, 0x2003, 0x2004, 0x2005, 0x2006,
                           0x2007, 0x2008, 0x2009, 0x200A, 0x2028, 0x2029, 0x202F, 0x205F, 0x3000, 0xFEFF}
  {
  }

  lemma {:induction false} SplitOneLine(text: string)
    requires OneLine(text)
    ensures Split(text) == [text]
  {
    if text != "" {
      SplitOneLine(text[..|text| - 1]);
      assert text == text[..|text| - 1] + [text[|text| - 1]];
    }
  }

  function AddChar(lines: seq<string>, c: char): seq<string>
    requires lines != []
  {
    if c == NEWLINE then lines + [""] else lines[..|lines| - 1] + [lines[|lines| - 1] + [c]]
  }

  lemma SplitSnoc(text: string, c: char)
    ensures Split(text + [c]) == AddChar(Split(text), c)
  {
  }

  lemma AddCharAppend(a: seq<string>, b: seq<string>, c: char)
    requires b != []
    ensures AddChar(a + b, c) == a + AddChar(b, c)
  {
  }

  /** Splitting at a newline splits both sides. */
  lemma {:induction false} SplitAtNewline(left: string, right: string)
    ensures Split(left + [NEWLINE] + right) == Split(left) + Split(right)
    decreases |right|
  {
    if right == "" {
      SplitSnoc(left, NEWLINE);
      assert left + [NEWLINE] + right == left + [NEWLINE];
    } else {
      var init, c := right[..|right| - 1], right[|right| - 1];
      SplitAtNewline(left, init);
      assert left + [NEWLINE] + right == (left + [NEWLINE] + init) + [c] && right == init + [c];
      SplitSnoc(left + [NEWLINE] + init, c);
      SplitSnoc(init, c);
      AddCharAppend(Split(left), Split(init), c);
    }
  }

  lemma {:induction false} NonBlankAppend(a: seq<string>, b: seq<string>)
    ensures NonBlank(a + b) == NonBlank(a) + NonBlank(b)
  {
    if a == [] {
      assert a + b == b;
    } else {
      NonBlankAppend(a[1..], b);
      assert (a + b)[1..] == a[1..] + b && (a + b)[0] == a[0];
      assert NonBlank(a + b) == Kept(a[0]) + NonBlank(a[1..] + b);
    }
  }

  /** Adding a newline and a clean message to a frame adds exactly that message. */
  lemma MessagesAppend(frame: string, message: string)
    requires Clean(message)
    ensures Messages(frame + [NEWLINE] + message) == Messages(frame) + [message]
    ensures Messages(message) == [message]
  {
    SplitAtNewline(frame, message);
    SplitOneLine(message);
    NonBlankAppend(Split(frame), [message]);
    assert NonBlank([message]) == [message] + NonBlank([]);
  }

  lemma {:induction false} JoinedMessages(messages: seq<string>)
    requires forall i | 0 <= i < |messages| :: Clean(messages[i])
    ensures Messages(Join(messages)) == messages
  {
    if messages == [] {
      assert Split("") == [""];
      assert NonBlank([""]) == [] + NonBlank([]);
    } else if |messages| == 1 {
      MessagesAppend("", messages[0]);
    } else {
      JoinedMessages(messages[..|messages| - 1]);
      MessagesAppend(Join(messages[..|messages| - 1]), messages[|messages| - 1]);
    }
  }

  lemma {:induction false} SplitLinesAreOneLine(text: string)
    ensures forall i | 0 <= i < |Split(text)| :: OneLine(Split(text)[i])
  {
    if text != "" {
      SplitLinesAreOneLine(text[..|text| - 1]);
    }
  }

  lemma {:induction false} NonBlankKeeps(lines: seq<string>)
    requires forall i | 0 <= i < |lines| :: OneLine(lines[i])
    ensures forall i | 0 <= i < |NonBlank(lines)| :: Clean(NonBlank(lines)[i])
  {
    if lines != [] {
      NonBlankKeeps(lines[1..]);
    }
  }

  /** Join followed by split-and-skip is the identity exactly on clean messages. */
  lemma RoundTripIff(messages: seq<string>)
    ensures Messages(Join(messages)) == messages <==> (forall i | 0 <= i < |messages| :: Clean(messages[i]))
  {
    if forall i | 0 <= i < |messages| :: Clean(messages[i]) {
      JoinedMessages(messages);
    }
    SplitLinesAreOneLine(Join(messages));
    NonBlankKeeps(Split(Join(messages)));
  }

  lemma JoinSnoc(lines: seq<string>, line: string)
    ensures Join(lines + [line]) == if lines == [] then line else Join(lines) + [NEWLINE] + line
  {
  }

  lemma JoinAddChar(lines: seq<string>, c: char)
    requires lines != []
    ensures Join(AddChar(lines, c)) == Join(lines) + [c]
  {
  }

  /** Split loses nothing: joining its pieces gives the text back. */
  lemma {:induction false} SplitJoin(text: string)
    ensures Join(Split(text)) == text
  {
    if text != "" {
      var init, c := text[..|text| - 1], text[|text| - 1];
      SplitJoin(init);
      assert text == init + [c];
      SplitSnoc(init, c);
      JoinAddChar(Split(init), c);
    }
  }

  /** One round of the browser's loop over the lines of a frame. */
  lemma NextLine(valid: string -> bool, lines: seq<string>, i: nat)
    requires i < |lines|
    ensures Parsed(valid, NonBlank(lines[i..])) ==
              if Blank(lines[i]) then Parsed(valid, NonBlank(lines[i + 1..]))
              else if !valid(lines[i]) then []
              else [lines[i]] + Parsed(valid, NonBlank(lines[i + 1..]))
  {
    var after := NonBlank(lines[i + 1..]);
    assert lines[i..][0] == lines[i] && lines[i..][1..] == lines[i + 1..];
    assert NonBlank(lines[i..]) == Kept(lines[i]) + after;
    if Blank(lines[i]) {
      assert [] + after == after;
    } else {
      assert ([lines[i]] + after)[1..] == after;
    }
  }

  class Browser {
    var shown: seq<string>

    constructor ()
      ensures shown == []
    {
      shown := [];
    }

    /** onmessage: dispatches the frame's messages in order, up to one that does not parse. */
    method OnMessage(frame: string, valid: string -> bool)
      modifies this
      ensures shown == old(shown) + Dispatch(valid, frame)
    {
      var lines := Split(frame);
      var i := 0;
      while i < |lines|
        invariant 0 <= i <= |lines|
        invariant old(shown) + Dispatch(valid, frame) == shown + Parsed(valid, NonBlank(lines[i..]))
      {
        NextLine(valid, lines, i);
        if !Blank(lines[i]) {
          if !valid(lines[i]) {
            return;
          }
          ghost var rest := Parsed(valid, NonBlank(lines[i + 1..]));
          assert shown + ([lines[i]] + rest) == shown + [lines[i]] + rest;
          shown := shown + [lines[i]];
        }
        i := i + 1;
      }
    }
  }
}

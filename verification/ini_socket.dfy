/**
  scripts/capture_retail_replay.py: `_patch_gdb_socket` writes a per-run debugger
  socket into Dolphin.ini, and `_canonical_dolphin_ini_sha256` undoes that before
  hashing.  Texts are code points: UTF-8 decoding, universal-newline reading and
  the digest itself are outside the model.
*/
module IniSocket {
  import opened Common
  import opened Text

  const CANONICAL_GDB_SOCKET := "<owned-gdb-socket>"

  predicate IsHeader(stripped: string) {
    stripped != "" && stripped[0] == '[' && stripped[|stripped| - 1] == ']'
  }

  /** Whether the text after this line belongs to the General section. */
  predicate InGeneral(body: string, before: bool) {
    var stripped := Strip(body);
    if IsHeader(stripped) then |stripped| > 1 && Lower(Strip(stripped[1..|stripped| - 1])) == "general" else before
  }

  predicate NamesSocket(body: string) {
    '=' in body && Lower(Strip(Before(body))) == "gdbsocket"
  }

  function KeyLine(socket: string): string { "GDBSocket = " + socket }

  // ---- Patching: what the loop must produce ----

  /** How many General/GDBSocket keys there are. */
  function KeyCount(lines: seq<string>, general: bool): nat {
    if lines == [] then 0
    else
      var g := InGeneral(lines[0], general);
      (if g && NamesSocket(lines[0]) then 1 else 0) + KeyCount(lines[1..], g)
  }

  /** The lines with every General/GDBSocket line replaced. */
  function Replaced(lines: seq<string>, general: bool, line: string): seq<string> {
    if lines == [] then []
    else
      var g := InGeneral(lines[0], general);
      [if g && NamesSocket(lines[0]) then line else lines[0]] + Replaced(lines[1..], g, line)
  }

  /** What is put behind a file that has no such key. */
  function Addition(lines: seq<string>, line: string): seq<string> {
    (if lines != [] && Strip(lines[|lines| - 1]) != "" then [""] else []) + ["[General]", line]
  }

  /** The lines, with a key to replace. */
  function WithKey(lines: seq<string>): seq<string> {
    if KeyCount(lines, false) == 0 then lines + Addition(lines, KeyLine("")) else lines
  }

  /** The text with its one socket line set; Rejected when there are several. */
  function Patch(text: string, socket: string): Result<string> {
    if KeyCount(Lines(text), false) > 1 then Rejected
    else Ok(Joined(Replaced(WithKey(Lines(text)), false, KeyLine(socket))))
  }

  method PatchGdbSocket(text: string, socket: string) returns (result: Result<string>)
    ensures result == Patch(text, socket)
  {
    hide InGeneral, NamesSocket, Joined, KeyLine, Strip, Replaced, KeyCount, Addition, WithKey, Lines;
    NoneLeft(KeyLine(socket));
    var lines := Lines(text);
    var inGeneral, replaced := false, false;
    var output: seq<string> := [];
    for i := 0 to |lines|
      invariant output + Replaced(lines[i..], inGeneral, KeyLine(socket)) == Replaced(lines, false, KeyLine(socket))
      invariant (if replaced then 1 else 0) + KeyCount(lines[i..], inGeneral) == KeyCount(lines, false)
      invariant !replaced ==> output == lines[..i]
    {
      OneLineOn(lines, i, inGeneral, KeyLine(socket));
      StrippedNames(lines[i]);
      inGeneral := InGeneral(lines[i], inGeneral);
      if inGeneral && NamesSocket(Strip(lines[i])) {
        if replaced {
          return Rejected;
        }
        output := output + [KeyLine(socket)];
        replaced := true;
      } else {
        output := output + [lines[i]];
      }
    }
    assert lines[|lines|..] == [];
    assert output + [] == output;
    if !replaced {
      assert output == lines;
      AdditionReplaced(lines, KeyLine(socket));
      if output != [] && Strip(output[|output| - 1]) != "" {
        output := output + [""];
      }
      output := output + ["[General]", KeyLine(socket)];
      AdditionParts(lines, KeyLine(socket));
    } else {
      KeyThere(lines);
    }
    return Ok(Joined(output));
  }

  lemma AdditionParts(lines: seq<string>, line: string)
    ensures lines + Addition(lines, line)
         == (if lines != [] && Strip(lines[|lines| - 1]) != "" then lines + [""] else lines) + ["[General]", line]
  {
    hide Strip;
    Associate(lines, [""], ["[General]", line]);
    assert [] + ["[General]", line] == ["[General]", line];
  }

  lemma KeyThere(lines: seq<string>)
    ensures KeyCount(lines, false) > 0 ==> WithKey(lines) == lines
  {
  }

  lemma NoneLeft(line: string)
    ensures forall g :: Replaced([], g, line) == [] && KeyCount([], g) == 0
  {
  }

  lemma OneLineOn(lines: seq<string>, i: nat, general: bool, line: string)
    requires i < |lines|
    ensures var g := InGeneral(lines[i], general);
            var key := g && NamesSocket(lines[i]);
            && Replaced(lines[i..], general, line)
               == [if key then line else lines[i]] + Replaced(lines[i + 1..], g, line)
            && KeyCount(lines[i..], general) == (if key then 1 else 0) + KeyCount(lines[i + 1..], g)
  {
    hide InGeneral, NamesSocket;
    assert lines[i..][1..] == lines[i + 1..];
  }

  lemma HasSeparator(body: string)
    ensures NamesSocket(body) ==> '=' in body
  {
  }

  lemma StrippedNames(line: string)
    ensures NamesSocket(Strip(line)) <==> NamesSocket(line)
  {
    KeyOfStrip(line);
  }

  // ---- The key line ----

  lemma KeyLineNames(socket: string)
    ensures NamesSocket(KeyLine(socket)) && !IsHeader(Strip(KeyLine(socket)))
    ensures Before(KeyLine(socket)) == "GDBSocket " && After(KeyLine(socket)) == " " + socket
  {
    hide Strip, IsSpace, Before, Lower, IsHeader;
    var line := KeyLine(socket);
    assert line == "GDBSocket " + "=" + (" " + socket);
    BeforeOf("GDBSocket ", " " + socket);
    KeyName();
    NoHeader(line);
  }

  lemma KeyName()
    ensures Lower(Strip("GDBSocket ")) == "gdbsocket"
  {
    hide Strip, Lower;
    StripDropsLast("GDBSocket", ' ');
    Trim("GDBSocket");
    assert "GDBSocket" + " " == "GDBSocket ";
    LowerKey();
  }

  lemma LowerKey()
    ensures Lower("GDBSocket") == "gdbsocket"
  {
  }

  lemma NoHeader(line: string)
    requires line != "" && line[0] == 'G'
    ensures !IsHeader(Strip(line))
  {
    hide RStrip;
    RStripPrefix(LStrip(line));
  }

  lemma GeneralHeader(before: bool)
    ensures InGeneral("[General]", before) && !NamesSocket("[General]")
  {
    hide Strip, Lower, NamesSocket;
    Trim("[General]");
    Trim("General");
    assert "[General]"[1..8] == "General";
    LowerGeneral();
    NoSeparator("[General]");
  }

  lemma Trim(s: string)
    requires s != "" && !IsSpace(s[0]) && !IsSpace(s[|s| - 1])
    ensures Strip(s) == s
  {
    hide IsSpace;
    StripOfTrimmed(s);
  }

  lemma LowerGeneral()
    ensures Lower("General") == "general"
  {
  }

  lemma NoSeparator(line: string)
    requires '=' !in line
    ensures !NamesSocket(line)
  {
    hide Strip, Lower, Before;
  }

  lemma BlankLine(before: bool)
    ensures InGeneral("", before) == before && !NamesSocket("")
  {
  }

  // ---- Replacing ----

  /** The section in force after some lines. */
  function SectionAfter(lines: seq<string>, general: bool): bool {
    if lines == [] then general else SectionAfter(lines[1..], InGeneral(lines[0], general))
  }

  lemma {:induction false} ReplacedAppend(a: seq<string>, b: seq<string>, general: bool, line: string)
    ensures var g := SectionAfter(a, general);
            && Replaced(a + b, general, line) == Replaced(a, general, line) + Replaced(b, g, line)
            && KeyCount(a + b, general) == KeyCount(a, general) + KeyCount(b, g)
  {
    hide InGeneral, NamesSocket;
    if a == [] {
      assert a + b == b;
    } else {
      var g := InGeneral(a[0], general);
      assert (a + b)[1..] == a[1..] + b;
      ReplacedAppend(a[1..], b, g, line);
      var rest := Replaced(b, SectionAfter(a, general), line);
      var head := if g && NamesSocket(a[0]) then line else a[0];
      assert [head] + (Replaced(a[1..], g, line) + rest) == ([head] + Replaced(a[1..], g, line)) + rest;
    }
  }

  lemma {:induction false} NothingToReplace(lines: seq<string>, general: bool, line: string)
    requires KeyCount(lines, general) == 0
    ensures Replaced(lines, general, line) == lines
  {
    hide InGeneral, NamesSocket;
    if lines == [] {
    } else {
      NothingToReplace(lines[1..], InGeneral(lines[0], general), line);
    }
  }

  lemma NewSection(general: bool, first: string, line: string)
    requires NamesSocket(first) && !IsHeader(Strip(first))
    ensures Replaced(["[General]", first], general, line) == ["[General]", line]
    ensures KeyCount(["[General]", first], general) == 1
  {
    hide NamesSocket, InGeneral, IsHeader, Strip;
    GeneralHeader(general);
    SameSection(first, first, true);
    var both := ["[General]", first];
    NoneLeft(line);
    assert both[1..] == [first] && [first][1..] == [];
    assert Replaced([first], true, line) == [line];
    assert KeyCount([first], true) == 1 + KeyCount([first][1..], true) == 1;
  }

  lemma AdditionHasOneKey(lines: seq<string>, general: bool, first: string, line: string)
    requires NamesSocket(first) && !IsHeader(Strip(first))
    ensures Replaced(Addition(lines, first), general, line) == Addition(lines, line)
    ensures KeyCount(Addition(lines, first), general) == 1
  {
    hide InGeneral, NamesSocket;
    NewSection(general, first, line);
    BlankLine(general);
    var section := ["[General]", first];
    if Addition(lines, first) != section {
      assert Addition(lines, first) == [""] + section;
      assert ([""] + section)[1..] == section;
    }
  }

  /** Appending the section is replacing the line of an appended one. */
  lemma AdditionReplaced(lines: seq<string>, line: string)
    requires KeyCount(lines, false) == 0
    ensures Replaced(WithKey(lines), false, line) == lines + Addition(lines, line)
  {
    hide InGeneral, NamesSocket, Addition;
    var more := Addition(lines, KeyLine(""));
    KeyLineNames("");
    NothingToReplace(lines, false, line);
    forall g: bool { AdditionHasOneKey(lines, g, KeyLine(""), line); }
    ReplacedAppend(lines, more, false, line);
  }

  /** A patchable file has exactly one key to set. */
  lemma WithKeyOnce(lines: seq<string>)
    requires KeyCount(lines, false) <= 1
    ensures KeyCount(WithKey(lines), false) == 1
  {
    hide InGeneral, NamesSocket, Addition;
    if KeyCount(lines, false) == 0 {
      var more := Addition(lines, KeyLine(""));
      KeyLineNames("");
      forall g: bool { AdditionHasOneKey(lines, g, KeyLine(""), ""); }
      ReplacedAppend(lines, more, false, "");
    }
  }

  /** Setting a line that is itself a key leaves the same lines to set. */
  lemma {:induction false} ReplacedTwice(lines: seq<string>, general: bool, line: string, later: string)
    requires NamesSocket(line) && !IsHeader(Strip(line))
    ensures KeyCount(Replaced(lines, general, line), general) == KeyCount(lines, general)
    ensures Replaced(Replaced(lines, general, line), general, later) == Replaced(lines, general, later)
  {
    hide NamesSocket, Strip, IsHeader;
    if lines == [] {
    } else {
      var g := InGeneral(lines[0], general);
      var head := if g && NamesSocket(lines[0]) then line else lines[0];
      if NamesSocket(lines[0]) { SameSection(lines[0], line, general); }
      ReplacedTwice(lines[1..], g, line, later);
      assert Replaced(lines, general, line)[1..] == Replaced(lines[1..], g, line);
    }
  }

  lemma HeaderIsNoKey(line: string)
    ensures !(IsHeader(Strip(line)) && NamesSocket(line))
  {
    if IsHeader(Strip(line)) && '=' in line {
      KeyOfStrip(line);
      var key := Before(Strip(line));
      assert key[0] == '[';
      RStripPrefix(key);
      assert Strip(key) != "" ==> Lower(Strip(key))[0] == LowerChar('[');
    }
  }

  /** Neither a key nor its replacement changes the section. */
  lemma SameSection(was: string, line: string, general: bool)
    requires NamesSocket(was) && !IsHeader(Strip(line))
    ensures InGeneral(was, general) == general == InGeneral(line, general)
  {
    HeaderIsNoKey(was);
  }

  // ---- Canonicalising ----

  /** line.rstrip("\r\n") */
  function Body(line: string): (body: string)
    ensures body <= line
  {
    if line != "" && line[|line| - 1] in "\r\n" then Body(line[..|line| - 1]) else line
  }

  function Bodies(lines: seq<string>): seq<string> {
    seq(|lines|, i requires 0 <= i < |lines| => Body(lines[i]))
  }

  /** A key line with its value, but not the space around it, replaced. */
  function Marked(body: string): string
    requires '=' in body
  {
    var value := After(body);
    LStripSuffix(value);
    RStripPrefix(value);
    Before(body) + "=" + value[..|value| - |LStrip(value)|] + CANONICAL_GDB_SOCKET + value[|RStrip(value)|..]
  }

  /** The lines with each socket value replaced; Rejected when one is not `owned`. */
  function MarkedLines(lines: seq<string>, general: bool, owned: string): Result<seq<string>> {
    if lines == [] then Ok([])
    else
      var body := Body(lines[0]);
      var g := InGeneral(body, general);
      var rest := MarkedLines(lines[1..], g, owned);
      if g && NamesSocket(body) then
        if Strip(After(body)) != owned then Rejected else Prepend(Ok([Marked(body) + lines[0][|body|..]]), rest)
      else
        Prepend(Ok([lines[0]]), rest)
  }

  /** The text whose digest is taken. */
  function Canonical(text: string, owned: string): Result<string> {
    var lines := KeepLines(text);
    var marked := MarkedLines(lines, false, owned);
    if marked.Ok? && KeyCount(Bodies(lines), false) == 1 then Ok(Concat(marked.value)) else Rejected
  }

  method CanonicalIni(text: string, owned: string) returns (result: Result<string>)
    ensures result == Canonical(text, owned)
  {
    hide InGeneral, NamesSocket, MarkedLines, KeyCount, Body, Concat;
    var kept := KeepLines(text);
    NoneLeft("");
    NoneMarked(owned);
    var lines: seq<string> := [];
    var inGeneral, socketCount := false, 0;
    PrependNothing(MarkedLines(kept, false, owned));
    for i := 0 to |kept|
      invariant Prepend(Ok(lines), MarkedLines(kept[i..], inGeneral, owned)) == MarkedLines(kept, false, owned)
      invariant socketCount + KeyCount(Bodies(kept)[i..], inGeneral) == KeyCount(Bodies(kept), false)
    {
      var line := kept[i];
      var body := Body(line);
      OneLineOn(Bodies(kept), i, inGeneral, "");
      OneMarked(kept, i, inGeneral, owned);
      HasSeparator(body);
      inGeneral := InGeneral(body, inGeneral);
      if inGeneral && NamesSocket(body) {
        socketCount := socketCount + 1;
        if Strip(After(body)) != owned {
          return Rejected;
        }
        line := Marked(body) + line[|body|..];
      }
      PrependAssociative(lines, [line], MarkedLines(kept[i + 1..], inGeneral, owned));
      lines := lines + [line];
    }
    assert kept[|kept|..] == [] && Bodies(kept)[|kept|..] == [];
    assert lines + [] == lines;
    if socketCount != 1 {
      return Rejected;
    }
    return Ok(Concat(lines));
  }

  lemma NoneMarked(owned: string)
    ensures forall g :: MarkedLines([], g, owned) == Ok([])
  {
  }

  lemma OneMarked(lines: seq<string>, i: nat, general: bool, owned: string)
    requires i < |lines|
    ensures var body := Body(lines[i]);
            var g := InGeneral(body, general);
            var rest := MarkedLines(lines[i + 1..], g, owned);
            MarkedLines(lines[i..], general, owned) ==
              if g && NamesSocket(body) then
                if Strip(After(body)) != owned then Rejected else Prepend(Ok([Marked(body) + lines[i][|body|..]]), rest)
              else
                Prepend(Ok([lines[i]]), rest)
  {
    hide InGeneral, NamesSocket, Body, Marked, Strip, After;
    assert lines[i..][1..] == lines[i + 1..];
  }

  // ---- Canonicalising undoes patching ----

  lemma BodyOfEnded(line: string)
    requires OneLine(line)
    ensures Body(line + "\n") == line
  {
    assert (line + "\n")[..|line|] == line;
    if line != "" { assert line[|line| - 1] in line; }
  }

  lemma BodiesOfEnded(lines: seq<string>)
    requires forall l :: l in lines ==> OneLine(l)
    ensures Bodies(Ended(lines)) == lines
  {
    hide Body, OneLine;
    forall i | 0 <= i < |lines| ensures Bodies(Ended(lines))[i] == lines[i] {
      assert lines[i] in lines;
      BodyOfEnded(lines[i]);
    }
  }

  /** Marking finds the line that was set and changes nothing else. */
  lemma {:induction false} MarkedReplaced(lines: seq<string>, general: bool, line: string, owned: string)
    requires forall l :: l in lines ==> OneLine(l)
    requires OneLine(line) && NamesSocket(line) && !IsHeader(Strip(line))
    requires Strip(After(line)) == owned
    ensures MarkedLines(Ended(Replaced(lines, general, line)), general, owned)
         == Ok(Ended(Replaced(lines, general, Marked(line))))
  {
    hide InGeneral, NamesSocket, IsHeader, Strip, After, Marked, OneLine, Body, MarkedLines, Ended;
    HasSeparator(line);
    if lines == [] {
      NoneMarked(owned);
      EndedOfNone();
    } else {
      var g := InGeneral(lines[0], general);
      var key := g && NamesSocket(lines[0]);
      var head := if key then line else lines[0];
      if key { SameSection(lines[0], line, general); }
      assert OneLine(head);
      BodyOfEnded(head);
      var was, now := Replaced(lines[1..], g, line), Replaced(lines[1..], g, Marked(line));
      MarkedReplaced(lines[1..], g, line, owned);
      EndedCons(head, was);
      EndedCons(if key then Marked(line) else lines[0], now);
      MarkedCons(head, Ended(was), general, owned);
    }
  }

  lemma EndedOfNone()
    ensures Ended([]) == []
  {
  }

  lemma EndedCons(head: string, rest: seq<string>)
    ensures Ended([head] + rest) == [head + "\n"] + Ended(rest)
  {
  }

  /** What marking does to a first line that ends in a newline. */
  lemma MarkedCons(head: string, rest: seq<string>, general: bool, owned: string)
    requires Body(head + "\n") == head
    ensures var g := InGeneral(head, general);
            MarkedLines([head + "\n"] + rest, general, owned) ==
              if g && NamesSocket(head) then
                if Strip(After(head)) != owned then Rejected
                else Prepend(Ok([Marked(head) + "\n"]), MarkedLines(rest, g, owned))
              else
                Prepend(Ok([head + "\n"]), MarkedLines(rest, g, owned))
  {
    hide InGeneral, NamesSocket, Strip, After, Marked, Body;
    assert ([head + "\n"] + rest)[1..] == rest;
    assert (head + "\n")[|head|..] == "\n";
  }

  lemma {:induction false} ReplacedStaysOneLine(lines: seq<string>, general: bool, line: string)
    requires OneLine(line) && forall l :: l in lines ==> OneLine(l)
    ensures forall l :: l in Replaced(lines, general, line) ==> OneLine(l)
  {
    hide InGeneral, NamesSocket, OneLine;
    if lines == [] {
    } else {
      ReplacedStaysOneLine(lines[1..], InGeneral(lines[0], general), line);
    }
  }

  lemma {:induction false} ReplacedInjective(lines: seq<string>, general: bool, a: string, b: string)
    requires KeyCount(lines, general) > 0 && Replaced(lines, general, a) == Replaced(lines, general, b)
    ensures a == b
  {
    hide InGeneral, NamesSocket;
    var g := InGeneral(lines[0], general);
    assert Replaced(lines, general, a)[1..] == Replaced(lines, general, b)[1..];
    if !(g && NamesSocket(lines[0])) { ReplacedInjective(lines[1..], g, a, b); }
  }

  lemma OneLineWithin(s: string, from: nat, to: nat)
    requires from <= to <= |s| && OneLine(s)
    ensures OneLine(s[from..to])
  {
    assert forall c :: c in s[from..to] ==> c in s;
  }

  lemma OneLineConcat(a: string, b: string)
    requires OneLine(a) && OneLine(b)
    ensures OneLine(a + b)
  {
    hide IsBreak;
  }

  lemma Literals()
    ensures OneLine("") && OneLine("[General]") && OneLine("GDBSocket = ") && OneLine("=")
            && OneLine(CANONICAL_GDB_SOCKET)
  {
  }

  lemma LinesOneLine(text: string)
    ensures forall l :: l in Lines(text) ==> OneLine(l)
  {
    hide OneLine, DropEnd;
    var kept := KeepLines(text);
    forall i | 0 <= i < |kept| ensures OneLine(Lines(text)[i]) { KeptLine(text, kept[i]); }
  }

  lemma WithKeyOneLine(text: string)
    ensures forall l :: l in WithKey(Lines(text)) ==> OneLine(l)
  {
    hide KeyCount, OneLine, KeyLine, Lines, Strip;
    LinesOneLine(text);
    Literals();
    KeyLineOneLine("");
  }

  lemma Patched(text: string, socket: string)
    requires OneLine(socket) && KeyCount(Lines(text), false) <= 1
    ensures var lines := Replaced(WithKey(Lines(text)), false, KeyLine(socket));
            && Patch(text, socket) == Ok(Joined(lines))
            && (forall l :: l in lines ==> OneLine(l))
            && Lines(Joined(lines)) == lines && KeepLines(Joined(lines)) == Ended(lines)
            && KeyCount(lines, false) == 1
  {
    hide KeyCount, Replaced, WithKey, NamesSocket, IsHeader, Strip;
    var base := WithKey(Lines(text));
    WithKeyOneLine(text);
    WithKeyOnce(Lines(text));
    KeyLineNames(socket);
    KeyLineOneLine(socket);
    ReplacedStaysOneLine(base, false, KeyLine(socket));
    ReplacedTwice(base, false, KeyLine(socket), "");
    SplitJoined(Replaced(base, false, KeyLine(socket)));
  }

  /** Whatever the socket was set to first, setting it again leaves one key with
      the last value. */
  lemma PatchTwice(text: string, first: string, second: string)
    requires OneLine(first)
    ensures Patch(text, first).Ok? ==> Patch(Patch(text, first).value, second) == Patch(text, second)
    ensures Patch(text, first).Ok? ==> KeyCount(Lines(Patch(text, first).value), false) == 1
  {
    hide KeyCount, Replaced, NamesSocket, IsHeader, Strip, Joined, KeyLine;
    if KeyCount(Lines(text), false) <= 1 {
      Patched(text, first);
      KeyLineNames(first);
      ReplacedTwice(WithKey(Lines(text)), false, KeyLine(first), KeyLine(second));
    }
  }

  // ---- Which first sockets a second patch replaces ----

  /** The position of the first socket line. */
  function KeyAt(lines: seq<string>, general: bool): nat {
    if lines == [] then 0
    else
      var g := InGeneral(lines[0], general);
      if g && NamesSocket(lines[0]) then 0 else 1 + KeyAt(lines[1..], g)
  }

  lemma {:induction false} KeyAtFirst(lines: seq<string>, general: bool)
    requires KeyCount(lines, general) > 0
    ensures var k := KeyAt(lines, general);
            && k < |lines| && KeyCount(lines[..k], general) == 0 && NamesSocket(lines[k])
            && InGeneral(lines[k], SectionAfter(lines[..k], general))
  {
    hide InGeneral, NamesSocket;
    var g := InGeneral(lines[0], general);
    if !(g && NamesSocket(lines[0])) {
      KeyAtFirst(lines[1..], g);
      var k := KeyAt(lines[1..], g);
      assert lines[..k + 1][1..] == lines[1..][..k];
    }
  }

  /** Around the first of the lines to set, nothing is replaced. */
  lemma ReplacedAround(before: seq<string>, key: string, after: seq<string>, line: string)
    requires KeyCount(before, false) == 0 && NamesSocket(key) && InGeneral(key, SectionAfter(before, false))
    ensures KeyCount(before + [key] + after, false) >= 1
    ensures KeyCount(before + [key] + after, false) == 1 ==>
              Replaced(before + [key] + after, false, line) == before + [line] + after
  {
    hide InGeneral, NamesSocket, KeyCount, Replaced, SectionAfter;
    var g := SectionAfter(before, false);
    assert before + [key] + after == before + ([key] + after);
    ReplacedAppend(before, [key] + after, false, line);
    NothingToReplace(before, false, line);
    KeyFirst(key, after, g, line);
    if KeyCount(before + [key] + after, false) == 1 {
      NothingToReplace(after, InGeneral(key, g), line);
    }
  }

  lemma KeyFirst(key: string, after: seq<string>, general: bool, line: string)
    requires NamesSocket(key) && InGeneral(key, general)
    ensures KeyCount([key] + after, general) == 1 + KeyCount(after, InGeneral(key, general))
    ensures Replaced([key] + after, general, line) == [line] + Replaced(after, InGeneral(key, general), line)
  {
    hide InGeneral, NamesSocket;
    assert ([key] + after)[1..] == after;
  }

  /** What splits into one line: no break, or only a carriage return that the
      newline behind it completes. */
  predicate SingleLine(socket: string) {
    OneLine(socket) || (socket != "" && socket[|socket| - 1] == '\r' && OneLine(socket[..|socket| - 1]))
  }

  lemma {:induction false} BrokenEarly(line: string)
    requires !SingleLine(line)
    ensures FirstLine(line + "\n") <= |line|
  {
    var text := line + "\n";
    if !(text[0] == '\r' && text[1] == '\n') && !IsBreak(text[0]) {
      assert line == [line[0]] + line[1..];
      if line[1..] != "" { assert line[..|line| - 1] == [line[0]] + line[1..][..|line| - 2]; }
      BrokenEarly(line[1..]);
      assert text[1..] == line[1..] + "\n";
    }
  }

  lemma {:induction false} FirstLinePast(start: string, rest: string)
    requires OneLine(start)
    ensures FirstLine(start + rest + "\n") > |start|
  {
    var text := start + rest + "\n";
    if start == "" {
    } else {
      assert start[0] in start;
      assert text[1..] == start[1..] + rest + "\n";
      assert OneLine(start[1..]);
      FirstLinePast(start[1..], rest);
    }
  }

  lemma DropEndKeeps(start: string, line: string)
    requires OneLine(start) && start < line
    ensures start <= DropEnd(line)
  {
    assert forall i :: 0 <= i < |start| ==> line[i] == start[i] && start[i] in start;
  }

  lemma KeyLineSingle(socket: string)
    ensures SingleLine(KeyLine(socket)) ==> SingleLine(socket)
  {
    hide OneLine;
    var line := KeyLine(socket);
    if OneLine(line) {
      OneLineWithin(line, 12, |line|);
      assert line[12..|line|] == socket;
    } else if SingleLine(line) {
      assert OneLine("GDBSocket = ") by { Literals(); }
      assert socket == "" ==> line == "GDBSocket = ";
      assert socket != "" && line[..|line| - 1] == "GDBSocket = " + socket[..|socket| - 1];
      OneLineWithin(line[..|line| - 1], 12, |line| - 1);
      assert line[..|line| - 1][12..|line| - 1] == socket[..|socket| - 1];
    }
  }

  /** A broken key line becomes a key line and more lines. */
  lemma BrokenKeyLine(socket: string)
    requires !SingleLine(socket)
    ensures var pieces := Lines(KeyLine(socket) + "\n");
            |pieces| >= 2 && NamesSocket(pieces[0]) && !IsHeader(Strip(pieces[0]))
  {
    hide NamesSocket, IsHeader, Strip, FirstLine;
    var line := KeyLine(socket);
    var text := line + "\n";
    KeyLineSingle(socket);
    BrokenEarly(line);
    Literals();
    FirstLinePast("GDBSocket = ", socket);
    assert "GDBSocket = " + socket + "\n" == text;
    var n := FirstLine(text);
    DropEndKeeps("GDBSocket = ", text[..n]);
    var piece := DropEnd(text[..n]);
    KeyLineNames(piece[12..]);
    assert piece == KeyLine(piece[12..]);
    assert |KeepLines(text)| == 1 + |KeepLines(text[n..])| >= 2;
  }

  /** A carriage return before the newline is no line of its own. */
  lemma ReturnVanishes(line: string)
    requires OneLine(line)
    ensures Lines(line + "\r" + "\n") == [line]
  {
    var text := line + "\r" + "\n";
    FirstLineReturn(line);
    assert text[..|line| + 2] == text && text[|line| + 2..] == "";
    assert DropEnd(text) == line;
    assert KeepLines("") == [] && KeepLines(text) == [text];
  }

  lemma {:induction false} FirstLineReturn(line: string)
    requires OneLine(line)
    ensures FirstLine(line + "\r" + "\n") == |line| + 2
  {
    var text := line + "\r" + "\n";
    if line == "" {
    } else {
      assert line[0] in line;
      assert text[1..] == line[1..] + "\r" + "\n";
      FirstLineReturn(line[1..]);
    }
  }

  /** A patched text, split again. */
  lemma PatchedLines(text: string, socket: string)
    requires KeyCount(Lines(text), false) <= 1
    ensures var base := WithKey(Lines(text));
            var k := KeyAt(base, false);
            && k < |base| && NamesSocket(base[k]) && InGeneral(base[k], SectionAfter(base[..k], false))
            && KeyCount(base, false) == 1 && KeyCount(base[..k], false) == 0
            && Patch(text, socket) == Ok(Joined(base[..k] + [KeyLine(socket)] + base[k + 1..]))
            && Lines(Patch(text, socket).value) == base[..k] + Lines(KeyLine(socket) + "\n") + base[k + 1..]
  {
    hide InGeneral, NamesSocket, Lines, WithKey, KeyLine, OneLine, Joined, KeyCount, KeyAt, Replaced, SectionAfter;
    var base := WithKey(Lines(text));
    WithKeyOnce(Lines(text));
    WithKeyOneLine(text);
    KeyAtFirst(base, false);
    var k := KeyAt(base, false);
    assert base == base[..k] + [base[k]] + base[k + 1..];
    ReplacedAround(base[..k], base[k], base[k + 1..], KeyLine(socket));
    JoinedAround(base[..k], KeyLine(socket), base[k + 1..]);
    assert forall l :: l in base[..k] + base[k + 1..] ==> l in base;
    LinesAround(base[..k], KeyLine(socket) + "\n", base[k + 1..]);
  }

  lemma JoinedAround(before: seq<string>, line: string, after: seq<string>)
    ensures Joined(before + [line] + after) == Joined(before) + (line + "\n") + Joined(after)
  {
    hide Joined;
    JoinedAppend(before + [line], after);
    JoinedAppend(before, [line]);
    JoinedOne(line);
  }

  lemma JoinedOne(line: string)
    ensures Joined([line]) == line + "\n"
  {
    assert [line][1..] == [];
    assert line + "\n" + "" == line + "\n";
  }

  /** What patching gives depends on the lines alone. */
  lemma SameLinesSamePatch(a: string, b: string, socket: string)
    requires Lines(a) == Lines(b)
    ensures Patch(a, socket) == Patch(b, socket)
  {
  }

  lemma ReturnReplaced(text: string, first: string, second: string)
    requires KeyCount(Lines(text), false) <= 1 && first != "" && first[|first| - 1] == '\r'
             && OneLine(first[..|first| - 1])
    ensures Patch(Patch(text, first).value, second) == Patch(text, second)
  {
    hide Patch, KeyCount, Lines, WithKey, NamesSocket, InGeneral, SectionAfter, KeyAt, OneLine, KeyLine;
    var kept := first[..|first| - 1];
    KeyLineOneLine(kept);
    KeyLineReturn(first);
    ReturnVanishes(KeyLine(kept));
    SplitOne(KeyLine(kept));
    PatchedLines(text, first);
    PatchedLines(text, kept);
    SameLinesSamePatch(Patch(text, first).value, Patch(text, kept).value, second);
    PatchTwice(text, kept, second);
  }

  lemma KeyLineReturn(first: string)
    requires first != "" && first[|first| - 1] == '\r'
    ensures KeyLine(first) + "\n" == KeyLine(first[..|first| - 1]) + "\r" + "\n"
  {
    assert first == first[..|first| - 1] + "\r";
  }

  lemma SplitOne(line: string)
    requires OneLine(line)
    ensures Lines(line + "\n") == [line]
  {
    hide KeepLines, OneLine;
    SplitJoined([line]);
    JoinedOne(line);
  }

  lemma BrokenSurvives(text: string, first: string, second: string)
    requires KeyCount(Lines(text), false) <= 1 && !SingleLine(first)
    ensures Patch(Patch(text, first).value, second) != Patch(text, second)
  {
    hide KeyCount, Lines, NamesSocket, InGeneral, SectionAfter, KeyAt, OneLine, KeyLine, Joined, Replaced, SingleLine,
         IsHeader, Strip;
    PatchedLines(text, first);
    PatchedLines(text, second);
    BrokenKeyLine(first);
    var base := WithKey(Lines(text));
    var k := KeyAt(base, false);
    var before, after, pieces := base[..k], base[k + 1..], Lines(KeyLine(first) + "\n");
    var again := Lines(Patch(text, first).value);
    assert again == before + [pieces[0]] + (pieces[1..] + after);
    SameSection(base[k], pieces[0], SectionAfter(before, false));
    ReplacedAround(before, pieces[0], pieces[1..] + after, KeyLine(second));
    if KeyCount(again, false) == 1 {
      JoinedAround(before, KeyLine(second), pieces[1..] + after);
      JoinedAround(before, KeyLine(second), after);
      JoinedAppend(pieces[1..], after);
      JoinedEnds(pieces[1..]);
    }
  }

  /** Patching twice is patching once with the last socket if and only if the
      first socket splits into one line. */
  lemma PatchTwiceExactly(text: string, first: string, second: string)
    requires Patch(text, first).Ok?
    ensures Patch(Patch(text, first).value, second) == Patch(text, second) <==> SingleLine(first)
  {
    hide Joined, Replaced, OneLine, KeyLine;
    if !SingleLine(first) {
      BrokenSurvives(text, first, second);
    } else if OneLine(first) {
      PatchTwice(text, first, second);
    } else {
      ReturnReplaced(text, first, second);
    }
  }

  predicate Trimmed(s: string) { Strip(s) == s }

  /** The key line as canonicalisation writes it. */
  lemma MarkedKeyLine(socket: string)
    requires Trimmed(socket)
    ensures NamesSocket(KeyLine(socket)) && Strip(After(KeyLine(socket))) == socket
    ensures Marked(KeyLine(socket)) == KeyLine(CANONICAL_GDB_SOCKET) <==> socket != ""
  {
    KeyLineNames(socket);
    var value := " " + socket;
    StripDropsFirst(' ', socket);
    assert value[1..] == socket;
    StripTrims(socket);
    StripOfTrimmed(socket);
    if socket != "" {
      assert value[|value| - 1] == socket[|socket| - 1];
      assert value[..1] == " " && value[|value|..] == "";
      assert Marked(KeyLine(socket)) == "GDBSocket " + "=" + " " + CANONICAL_GDB_SOCKET + "";
    } else {
      assert value == " " && value[..0] == "" && LStrip(value) == "" && RStrip(value) == "";
      assert |Marked(KeyLine(socket))| == |"GDBSocket " + "=" + " " + CANONICAL_GDB_SOCKET + " "|;
    }
  }

  /** The canonical form of a patched file is the file patched to the placeholder,
      save when the socket is empty. */
  lemma CanonicalOfPatched(text: string, socket: string)
    requires KeyCount(Lines(text), false) <= 1 && OneLine(socket) && Trimmed(socket)
    ensures Canonical(Patch(text, socket).value, socket) == Patch(text, CANONICAL_GDB_SOCKET) <==> socket != ""
  {
    hide KeyCount, Replaced, NamesSocket, IsHeader, Strip, KeyLine, Marked, After, Joined, MarkedLines, KeepLines,
         Lines, WithKey, Concat;
    var base := WithKey(Lines(text));
    KeyLineNames(socket);
    MarkedKeyLine(socket);
    Patched(text, socket);
    Patched(text, CANONICAL_GDB_SOCKET);
    WithKeyOneLine(text);
    WithKeyOnce(Lines(text));
    BodiesOfEnded(Replaced(base, false, KeyLine(socket)));
    KeyLineOneLine(socket);
    HasSeparator(KeyLine(socket));
    MarkedReplaced(base, false, KeyLine(socket), socket);
    var marked := Marked(KeyLine(socket));
    JoinedConcat(Replaced(base, false, marked));
    assert Canonical(Patch(text, socket).value, socket) == Ok(Joined(Replaced(base, false, marked)));
    if Joined(Replaced(base, false, marked)) == Joined(Replaced(base, false, KeyLine(CANONICAL_GDB_SOCKET))) {
      MarkedOneLine(KeyLine(socket));
      ReplacedStaysOneLine(base, false, marked);
      SplitJoined(Replaced(base, false, marked));
      ReplacedInjective(base, false, marked, KeyLine(CANONICAL_GDB_SOCKET));
    }
  }

  lemma KeyLineOneLine(socket: string)
    requires OneLine(socket)
    ensures OneLine(KeyLine(socket))
  {
    hide OneLine;
    Literals();
    OneLineConcat("GDBSocket = ", socket);
  }

  lemma MarkedOneLine(body: string)
    requires OneLine(body) && '=' in body
    ensures OneLine(Marked(body))
  {
    hide OneLine, LStrip, RStrip, Before, After;
    LStripSuffix(After(body));
    RStripPrefix(After(body));
    var value := After(body);
    var lead, trail := value[..|value| - |LStrip(value)|], value[|RStrip(value)|..];
    AfterParts(body);
    OneLineWithin(body, 0, |Before(body)|);
    OneLineWithin(body, |Before(body)| + 1, |body|);
    OneLineWithin(value, 0, |lead|);
    OneLineWithin(value, |RStrip(value)|, |value|);
    assert body[0..|Before(body)|] == Before(body) && value[0..|lead|] == lead;
    assert value[|RStrip(value)|..|value|] == trail;
    assert OneLine("=") && OneLine(CANONICAL_GDB_SOCKET) by { Literals(); }
    OneLineConcat(Before(body), "=");
    OneLineConcat(Before(body) + "=", lead);
    OneLineConcat(Before(body) + "=" + lead, CANONICAL_GDB_SOCKET);
    OneLineConcat(Before(body) + "=" + lead + CANONICAL_GDB_SOCKET, trail);
  }

  // ---- Which sockets a canonical text can own ----

  lemma {:induction false} MarkedOwns(lines: seq<string>, general: bool, owned: string)
    requires MarkedLines(lines, general, owned).Ok? && KeyCount(Bodies(lines), general) > 0
    ensures exists line :: line in lines && '=' in Body(line) && Strip(After(Body(line))) == owned
  {
    hide InGeneral, NamesSocket, Body, Strip, After;
    if lines == [] {
    } else {
      var g := InGeneral(Body(lines[0]), general);
      HasSeparator(Body(lines[0]));
      if g && NamesSocket(Body(lines[0])) {
        assert lines[0] in lines;
      } else {
        assert Bodies(lines)[1..] == Bodies(lines[1..]);
        MarkedOwns(lines[1..], g, owned);
        assert forall l :: l in lines[1..] ==> l in lines;
      }
    }
  }

  lemma SpaceBehind(line: string, inner: nat)
    requires inner <= |line| && forall c :: c in line[inner..] ==> IsSpace(c)
    ensures forall k :: inner <= k < |line| ==> IsSpace(line[k])
  {
    hide IsSpace;
    forall k | inner <= k < |line| ensures IsSpace(line[k]) {
      assert line[inner..][k - inner] == line[k];
    }
  }

  /** strip() of a stretch of a line that is followed only by whitespace. */
  lemma StrippedStretch(line: string, from: nat, to: nat, inner: nat)
    requires from <= to <= |line| && inner <= |line|
    requires OneLine(line[..inner]) && forall c :: c in line[inner..] ==> IsSpace(c)
    ensures OneLine(Strip(line[from..to])) && Trimmed(Strip(line[from..to]))
  {
    hide LStrip, RStrip, OneLine, IsSpace;
    Literals();
    var value := line[from..to];
    var s := Strip(value);
    StripTwice(value);
    StripTrims(value);
    LStripSuffix(value);
    RStripPrefix(LStrip(value));
    var at := from + |value| - |LStrip(value)|;
    assert s == line[at..at + |s|];
    SpaceBehind(line, inner);
    if s != "" {
      assert s[|s| - 1] == line[at + |s| - 1];
      assert at + |s| <= inner;
      assert s == line[..inner][at..at + |s|];
      OneLineWithin(line[..inner], at, at + |s|);
    }
  }

  lemma OwnedIsClean(text: string, owned: string)
    requires Canonical(text, owned).Ok?
    ensures OneLine(owned) && Trimmed(owned)
  {
    hide NamesSocket, InGeneral, Strip, KeyCount, MarkedLines, OneLine, IsSpace, Body, Before, After, DropEnd, Trimmed;
    MarkedOwns(KeepLines(text), false, owned);
    var line :| line in KeepLines(text) && '=' in Body(line) && Strip(After(Body(line))) == owned;
    KeptLine(text, line);
    var tail :| line == DropEnd(line) + tail && forall c :: c in tail ==> IsSpace(c);
    var inner := |DropEnd(line)|;
    assert line[..inner] == DropEnd(line) && line[inner..] == tail;
    AfterWithin(line);
    StrippedStretch(line, |Before(Body(line))| + 1, |Body(line)|, inner);
  }

  lemma AfterParts(body: string)
    requires '=' in body
    ensures |Before(body)| < |body| && Before(body) == body[0..|Before(body)|]
    ensures After(body) == body[|Before(body)| + 1..|body|]
  {
    BeforePrefix(body);
  }

  lemma AfterWithin(line: string)
    requires '=' in Body(line)
    ensures |Before(Body(line))| < |Body(line)| <= |line|
    ensures After(Body(line)) == line[|Before(Body(line))| + 1..|Body(line)|]
  {
    hide Body;
    BeforePrefix(Body(line));
  }

  /** Canonicalising a patched file gives the file patched to the placeholder,
      whatever the file was, exactly for the sockets that are one non-empty line
      without space around it. */
  lemma CanonicalUndoesPatch(text: string, socket: string)
    requires Patch(text, socket).Ok?
    ensures Canonical(Patch(text, socket).value, socket) == Patch(text, CANONICAL_GDB_SOCKET)
       <==> socket != "" && Trimmed(socket) && OneLine(socket)
  {
    hide Canonical, OneLine, Trimmed, Joined, Replaced, KeyLine;
    if OneLine(socket) && Trimmed(socket) {
      CanonicalOfPatched(text, socket);
    } else if Canonical(Patch(text, socket).value, socket).Ok? {
      OwnedIsClean(Patch(text, socket).value, socket);
    }
  }
}

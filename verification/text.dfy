/** Python string operations, over code points. */
module Text {
  import opened Common

  /** A boundary for str.splitlines(). */
  predicate IsBreak(c: char) {
    || '\n' <= c <= '\r' || '\U{1C}' <= c <= '\U{1E}'
    || c == '\U{85}' || c == '\U{2028}' || c == '\U{2029}'
  }

  /** str.isspace() of one code point. */
  predicate IsSpace(c: char) {
    || IsBreak(c) || c == '\t' || c == '\U{1F}' || c == ' ' || c == '\U{A0}' || c == '\U{1680}'
    || '\U{2000}' <= c <= '\U{200A}' || c == '\U{202F}' || c == '\U{205F}' || c == '\U{3000}'
  }

  /** The line boundaries and the whitespace of Python's strings, by code point. */
  lemma CodePoints(c: char)
    ensures IsBreak(c) <==> c as int in {10, 11, 12, 13, 28, 29, 30, 133, 8232, 8233}
    ensures IsSpace(c) <==>
            || 9 <= c as int <= 13 || 28 <= c as int <= 32 || 8192 <= c as int <= 8202
            || c as int in {133, 160, 5760, 8232, 8233, 8239, 8287, 12288}
  {
  }

  function LStrip(s: string): string { if s != "" && IsSpace(s[0]) then LStrip(s[1..]) else s }

  function RStrip(s: string): string { if s != "" && IsSpace(s[|s| - 1]) then RStrip(s[..|s| - 1]) else s }

  function Strip(s: string): string { RStrip(LStrip(s)) }

  /** str.lower() as far as comparison with an ASCII name without the letter i
      can tell: the ASCII capitals and the Kelvin sign. */
  function LowerChar(c: char): char {
    if 'A' <= c <= 'Z' then (c as int + 32) as char else if c == '\U{212A}' then 'k' else c
  }

  function Lower(s: string): string { seq(|s|, i requires 0 <= i < |s| => LowerChar(s[i])) }

  lemma {:induction false} LStripSuffix(s: string)
    ensures |LStrip(s)| <= |s| && LStrip(s) == s[|s| - |LStrip(s)|..]
    ensures LStrip(s) == "" || !IsSpace(LStrip(s)[0])
  {
    if s != "" && IsSpace(s[0]) { LStripSuffix(s[1..]); }
  }

  lemma {:induction false} RStripPrefix(s: string)
    ensures RStrip(s) <= s
    ensures RStrip(s) == "" || !IsSpace(RStrip(s)[|RStrip(s)| - 1])
  {
    if s != "" && IsSpace(s[|s| - 1]) { RStripPrefix(s[..|s| - 1]); }
  }

  /** What strip() returns is trimmed at both ends and lies inside its argument. */
  lemma StripTrims(s: string)
    ensures forall c :: c in Strip(s) ==> c in s
    ensures Strip(s) != "" ==> !IsSpace(Strip(s)[0]) && !IsSpace(Strip(s)[|Strip(s)| - 1])
  {
    LStripSuffix(s);
    RStripPrefix(LStrip(s));
    assert forall c :: c in LStrip(s) ==> c in s;
  }

  lemma StripOfTrimmed(s: string)
    requires s == "" || (!IsSpace(s[0]) && !IsSpace(s[|s| - 1]))
    ensures Strip(s) == s && LStrip(s) == s && RStrip(s) == s
  {
  }

  lemma StripTwice(s: string)
    ensures Strip(Strip(s)) == Strip(s)
  {
    StripTrims(s);
    StripOfTrimmed(Strip(s));
  }

  lemma {:induction false} LStripDropsLast(s: string)
    requires s != "" && IsSpace(s[|s| - 1])
    ensures RStrip(LStrip(s)) == RStrip(LStrip(s[..|s| - 1]))
  {
    var t := s[..|s| - 1];
    if t == "" {
    } else if IsSpace(s[0]) {
      assert s[1..][..|s| - 2] == t[1..];
      LStripDropsLast(s[1..]);
    }
  }

  /** Whitespace at either end does not matter to strip(). */
  lemma StripDropsFirst(c: char, s: string)
    requires IsSpace(c)
    ensures Strip([c] + s) == Strip(s)
  {
    assert ([c] + s)[1..] == s;
  }

  lemma StripDropsLast(s: string, c: char)
    requires IsSpace(c)
    ensures Strip(s + [c]) == Strip(s)
  {
    LStripDropsLast(s + [c]);
    assert (s + [c])[..|s|] == s;
  }

  // ---- Lines ----

  /** The length of the first line, its line end included. */
  function FirstLine(text: string): (n: nat)
    requires text != ""
    ensures 0 < n <= |text|
  {
    if text[0] == '\r' && |text| > 1 && text[1] == '\n' then 2
    else if IsBreak(text[0]) || |text| == 1 then 1
    else 1 + FirstLine(text[1..])
  }

  /** str.splitlines(keepends=True) */
  function KeepLines(text: string): seq<string> {
    if text == "" then [] else [text[..FirstLine(text)]] + KeepLines(text[FirstLine(text)..])
  }

  function DropEnd(line: string): string {
    if |line| >= 2 && line[|line| - 2] == '\r' && line[|line| - 1] == '\n' then line[..|line| - 2]
    else if line != "" && IsBreak(line[|line| - 1]) then line[..|line| - 1]
    else line
  }

  /** str.splitlines() */
  function Lines(text: string): seq<string> { DropEnds(KeepLines(text)) }

  function DropEnds(kept: seq<string>): seq<string> {
    seq(|kept|, i requires 0 <= i < |kept| => DropEnd(kept[i]))
  }

  predicate OneLine(s: string) { forall c :: c in s ==> !IsBreak(c) }

  /** "\n".join(lines) + "\n" for a non-empty list. */
  function Joined(lines: seq<string>): string {
    if lines == [] then "" else lines[0] + "\n" + Joined(lines[1..])
  }

  function Ended(lines: seq<string>): seq<string> {
    seq(|lines|, i requires 0 <= i < |lines| => lines[i] + "\n")
  }

  lemma {:induction false} FirstLineOf(line: string, rest: string)
    requires OneLine(line)
    ensures FirstLine(line + "\n" + rest) == |line| + 1
  {
    var all := line + "\n" + rest;
    if line != "" {
      assert line[0] in line;
      assert all[0] == line[0] && !IsBreak(line[0]);
      assert all[1..] == line[1..] + "\n" + rest;
      FirstLineOf(line[1..], rest);
    } else {
      assert all[0] == '\n';
    }
  }

  /** Splitting a joined text gives back its lines. */
  lemma {:induction false} SplitJoined(lines: seq<string>)
    requires forall l :: l in lines ==> OneLine(l)
    ensures KeepLines(Joined(lines)) == Ended(lines)
    ensures Lines(Joined(lines)) == lines
  {
    hide OneLine, FirstLine, DropEnd;
    if lines == [] {
    } else {
      var l, rest := lines[0], Joined(lines[1..]);
      assert l in lines;
      SplitJoined(lines[1..]);
      KeepFirst(l, rest);
      assert Ended(lines) == [l + "\n"] + Ended(lines[1..]);
    }
    DropsNewlines(lines);
  }

  lemma KeepFirst(line: string, rest: string)
    requires OneLine(line)
    ensures KeepLines(line + "\n" + rest) == [line + "\n"] + KeepLines(rest)
  {
    hide OneLine, FirstLine;
    FirstLineOf(line, rest);
    var text := line + "\n" + rest;
    assert text[..|line| + 1] == line + "\n" && text[|line| + 1..] == rest;
  }

  lemma DropsNewlines(lines: seq<string>)
    requires forall l :: l in lines ==> OneLine(l)
    ensures DropEnds(Ended(lines)) == lines
  {
    hide DropEnd;
    forall i | 0 <= i < |lines| ensures DropEnds(Ended(lines))[i] == lines[i] {
      assert lines[i] in lines;
      DropNewline(lines[i]);
    }
  }

  lemma DropNewline(l: string)
    requires OneLine(l)
    ensures DropEnd(l + "\n") == l
  {
    var s := l + "\n";
    if |s| >= 2 { assert s[|s| - 2] in l; }
    assert s[..|s| - 1] == l;
  }

  lemma {:induction false} JoinedConcat(lines: seq<string>)
    ensures Concat(Ended(lines)) == Joined(lines)
  {
    if lines == [] {
    } else {
      JoinedConcat(lines[1..]);
      assert Ended(lines)[1..] == Ended(lines[1..]);
    }
  }

  lemma {:induction false} JoinedAppend(a: seq<string>, b: seq<string>)
    ensures Joined(a + b) == Joined(a) + Joined(b)
  {
    if a == [] {
      assert a + b == b;
    } else {
      JoinedAppend(a[1..], b);
      assert (a + b)[1..] == a[1..] + b;
      Associate(a[0] + "\n", Joined(a[1..]), Joined(b));
    }
  }

  lemma {:induction false} JoinedEnds(lines: seq<string>)
    requires lines != []
    ensures Joined(lines) != "" && Joined(lines)[|Joined(lines)| - 1] == '\n'
  {
    if |lines| > 1 { JoinedEnds(lines[1..]); }
  }

  lemma {:induction false} FirstLineKept(u: string, v: string)
    requires u != "" && u[|u| - 1] == '\n'
    ensures FirstLine(u + v) == FirstLine(u)
  {
    if |u| > 1 && !(u[0] == '\r' && u[1] == '\n') && !IsBreak(u[0]) {
      FirstLineKept(u[1..], v);
      assert (u + v)[1..] == u[1..] + v;
    }
  }

  /** Behind a newline a new line starts. */
  lemma {:induction false} KeepLinesAppend(u: string, v: string)
    requires u == "" || u[|u| - 1] == '\n'
    ensures KeepLines(u + v) == KeepLines(u) + KeepLines(v)
    decreases |u|
  {
    hide FirstLine, IsBreak;
    if u == "" {
      assert u + v == v;
    } else {
      FirstLineKept(u, v);
      var n := FirstLine(u);
      assert (u + v)[..n] == u[..n] && (u + v)[n..] == u[n..] + v;
      KeepLinesAppend(u[n..], v);
      Associate([u[..n]], KeepLines(u[n..]), KeepLines(v));
    }
  }

  lemma DropEndsAppend(a: seq<string>, b: seq<string>)
    ensures DropEnds(a + b) == DropEnds(a) + DropEnds(b)
  {
    hide DropEnd;
  }

  /** Joining around a text keeps its lines between the joined ones. */
  lemma LinesAround(before: seq<string>, middle: string, after: seq<string>)
    requires forall l :: l in before + after ==> OneLine(l)
    requires middle != "" && middle[|middle| - 1] == '\n'
    ensures Lines(Joined(before) + middle + Joined(after)) == before + Lines(middle) + after
  {
    hide KeepLines, DropEnds, OneLine, Joined;
    assert forall l :: l in before ==> l in before + after;
    assert forall l :: l in after ==> l in before + after;
    SplitJoined(before);
    SplitJoined(after);
    if before != [] { JoinedEnds(before); } else { assert Joined([]) == "" by { JoinedNothing(); } }
    KeepLinesAppend(Joined(before), middle);
    KeepLinesAppend(Joined(before) + middle, Joined(after));
    DropEndsAppend(KeepLines(Joined(before)), KeepLines(middle));
    DropEndsAppend(KeepLines(Joined(before)) + KeepLines(middle), KeepLines(Joined(after)));
  }

  lemma JoinedNothing()
    ensures Joined([]) == ""
  {
  }

  lemma {:induction false} FirstLineInner(text: string, i: nat)
    requires text != "" && i < FirstLine(text) && IsBreak(text[i])
    ensures i == FirstLine(text) - 1 || (i == FirstLine(text) - 2 && text[i] == '\r' && text[i + 1] == '\n')
    decreases i
  {
    if i > 0 && !(text[0] == '\r' && |text| > 1 && text[1] == '\n') && !IsBreak(text[0]) && |text| > 1 {
      FirstLineInner(text[1..], i - 1);
    }
  }

  lemma {:induction false} KeptLine(text: string, line: string)
    requires line in KeepLines(text)
    ensures OneLine(DropEnd(line)) && (line == DropEnd(line) || IsBreak(line[|line| - 1]))
    ensures exists tail :: line == DropEnd(line) + tail && forall c :: c in tail ==> IsSpace(c)
    decreases |text|
  {
    hide OneLine, DropEnd, IsBreak, IsSpace, FirstLine;
    var n := FirstLine(text);
    if line == text[..n] {
      FirstKept(text);
    } else {
      KeptLine(text[n..], line);
    }
  }

  lemma FirstKept(text: string)
    requires text != ""
    ensures var line := text[..FirstLine(text)];
            && OneLine(DropEnd(line)) && (line == DropEnd(line) || IsBreak(line[|line| - 1]))
            && exists tail :: line == DropEnd(line) + tail && forall c :: c in tail ==> IsSpace(c)
  {
    hide FirstLine, IsBreak, IsSpace, DropEnd;
    var line := text[..FirstLine(text)];
    Dropped(line);
    FirstKeptOneLine(text);
    assert line == DropEnd(line) + line[|DropEnd(line)|..];
  }

  /** Only a line end is dropped, and it is space. */
  lemma Dropped(line: string)
    ensures DropEnd(line) <= line && (line == DropEnd(line) || IsBreak(line[|line| - 1]))
    ensures forall c :: c in line[|DropEnd(line)|..] ==> IsSpace(c)
  {
  }

  lemma FirstKeptOneLine(text: string)
    requires text != ""
    ensures OneLine(DropEnd(text[..FirstLine(text)]))
  {
    hide FirstLine, IsSpace;
    var kept := DropEnd(text[..FirstLine(text)]);
    forall c | c in kept ensures !IsBreak(c) {
      var i :| 0 <= i < |kept| && kept[i] == c;
      assert text[i] == c;
      if IsBreak(c) { FirstLineInner(text, i); }
    }
  }

  // ---- str.partition("=") ----

  function Before(s: string): string {
    if s == "" || s[0] == '=' then "" else [s[0]] + Before(s[1..])
  }

  lemma {:induction false} BeforePrefix(s: string)
    ensures Before(s) <= s && '=' !in Before(s)
    ensures '=' in s <==> |Before(s)| < |s|
    ensures '=' in s ==> s[|Before(s)|] == '='
  {
    if s == "" {
    } else {
      assert s == [s[0]] + s[1..];
      if s[0] != '=' { BeforePrefix(s[1..]); }
    }
  }

  lemma {:induction false} BeforeOf(key: string, rest: string)
    requires '=' !in key
    ensures Before(key + "=" + rest) == key
  {
    var s := key + "=" + rest;
    if key != "" {
      assert s[0] == key[0] && key[0] in key;
      assert s[1..] == key[1..] + "=" + rest;
      BeforeOf(key[1..], rest);
    } else {
      assert s[0] == '=';
    }
  }

  function After(s: string): string
    requires '=' in s
  {
    BeforePrefix(s);
    s[|Before(s)| + 1..]
  }

  lemma {:induction false} KeyOfLStrip(s: string)
    ensures '=' in LStrip(s) <==> '=' in s
    ensures '=' in s ==> Strip(Before(LStrip(s))) == Strip(Before(s))
  {
    if s != "" && IsSpace(s[0]) {
      KeyOfLStrip(s[1..]);
      assert s == [s[0]] + s[1..];
      StripDropsFirst(s[0], Before(s[1..]));
    }
  }

  lemma {:induction false} BeforeDropsLast(s: string, c: char)
    requires c != '='
    ensures '=' in s ==> Before(s + [c]) == Before(s)
  {
    if s == "" {
    } else {
      assert s == [s[0]] + s[1..];
      assert (s + [c])[1..] == s[1..] + [c];
      if s[0] != '=' { BeforeDropsLast(s[1..], c); }
    }
  }

  lemma {:induction false} KeyOfRStrip(s: string)
    ensures '=' in RStrip(s) <==> '=' in s
    ensures '=' in s ==> Before(RStrip(s)) == Before(s)
  {
    if s != "" && IsSpace(s[|s| - 1]) {
      var t := s[..|s| - 1];
      assert s == t + [s[|s| - 1]];
      KeyOfRStrip(t);
      BeforeDropsLast(t, s[|s| - 1]);
    }
  }

  /** The key of a line is the key of the stripped line. */
  lemma KeyOfStrip(s: string)
    ensures '=' in Strip(s) <==> '=' in s
    ensures '=' in s ==> Strip(Before(Strip(s))) == Strip(Before(s))
  {
    KeyOfLStrip(s);
    KeyOfRStrip(LStrip(s));
  }
}

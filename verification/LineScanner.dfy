/** The Go client's line-based event scanner, compared with the event-based clients. */
module LineScanner {
  import opened Chars
  import opened EventStream
  import opened StreamLines

  // Lines and payloads

  function DropCR(line: string): string {
    if line != "" && line[|line| - 1] == '\r' then line[..|line| - 1] else line
  }

  /** The lines bufio.ScanLines delivers: an unfinished last line counts unless it is empty. */
  function ScanLines(s: string): seq<string>
    decreases |s|
  {
    if s == "" then []
    else
      var j := RunEnd(s, 0, NotChar('\n'));
      if j == |s| then [DropCR(s)] else [DropCR(s[..j])] + ScanLines(s[j + 1..])
  }

  /** The payload of a line, as a list of at most one. */
  function ScanPayload(line: string): seq<string> {
    var text := Trim(line, GoSpace);
    if DATA <= text then [Trim(text[|DATA|..], GoSpace)] else []
  }

  function ScanPayloads(lines: seq<string>): seq<string> {
    if lines == [] then [] else ScanPayload(lines[0]) + ScanPayloads(lines[1..])
  }

  class SseScanner {
    var unread: string

    constructor (stream: string)
      ensures unread == stream
    {
      unread := stream;
    }

    /** bufio.Scanner.Scan followed by Text. */
    method Scan() returns (line: string, ok: bool)
      modifies this
      ensures ok == (old(unread) != "")
      ensures ok ==> ScanLines(old(unread)) == [line] + ScanLines(unread) && |unread| < |old(unread)|
      ensures !ok ==> ScanLines(old(unread)) == [] && unread == ""
    {
      hide DropCR, ScanLines;
      ScanLinesTurn(unread);
      ScanLinesTurn("");
      if unread == "" {
        return "", false;
      }
      var j := RunEnd(unread, 0, NotChar('\n'));
      if j == |unread| {
        line, unread := DropCR(unread), "";
      } else {
        line, unread := DropCR(unread[..j]), unread[j + 1..];
      }
      ok := true;
    }

    /** The next payload of the stream. */
    method Next() returns (payload: string, ok: bool)
      modifies this
      ensures ok ==> ScanPayloads(ScanLines(old(unread))) == [payload] + ScanPayloads(ScanLines(unread))
      ensures !ok ==> ScanPayloads(ScanLines(old(unread))) == [] && unread == ""
      ensures ok ==> |unread| < |old(unread)|
    {
      hide ScanLines, Trim;
      ghost var goal := ScanPayloads(ScanLines(unread));
      var line, more := Scan();
      while more
        invariant more ==> goal == ScanPayloads([line] + ScanLines(unread)) && |unread| < |old(unread)|
        invariant !more ==> goal == [] && unread == ""
        decreases |unread|, more
      {
        var text := Trim(line, GoSpace);
        assert ([line] + ScanLines(unread))[1..] == ScanLines(unread);
        if DATA <= text {
          return Trim(text[|DATA|..], GoSpace), true;
        }
        assert goal == ScanPayloads(ScanLines(unread));
        line, more := Scan();
      }
      return "", false;
    }
  }

  lemma {:induction false} ScanLinesTurn(s: string)
    ensures ScanLines(s) ==
            if s == "" then []
            else
              var j := RunEnd(s, 0, NotChar('\n'));
              if j == |s| then [DropCR(s)] + [] else [DropCR(s[..j])] + ScanLines(s[j + 1..])
  {
    hide DropCR;
  }

  /** Calling Next until it fails delivers the payloads of all lines, in order. */
  method Drain(stream: string) returns (payloads: seq<string>)
    ensures payloads == ScanPayloads(ScanLines(stream))
  {
    hide ScanPayloads, ScanLines;
    var scanner := new SseScanner(stream);
    payloads := [];
    var payload, ok := scanner.Next();
    while ok
      invariant ok ==> ScanPayloads(ScanLines(stream)) == payloads + [payload] + ScanPayloads(ScanLines(scanner.unread))
      invariant !ok ==> ScanPayloads(ScanLines(stream)) == payloads
      decreases |scanner.unread|, ok
    {
      payloads := payloads + [payload];
      payload, ok := scanner.Next();
    }
  }

  // One line

  /** What the scanner finds in a line that ends at a line feed. */
  function GoPayload(line: string): seq<string> {
    ScanPayload(DropCR(line))
  }

  /** A data line once it is trimmed is one as it stands, and both trim functions do the same to
      its payload. */
  predicate ScanAlike(line: string) {
    && (DATA <= Trim(line, GoSpace) ==> DATA <= line)
    && (DATA <= line ==> Trim(line[|DATA|..], GoSpace) == Trim(line[|DATA|..], JsSpace))
  }

  lemma {:induction false} TrimDropsCR(line: string, space: char -> bool)
    requires space('\r')
    ensures Trim(DropCR(line), space) == Trim(line, space)
  {
  }

  lemma {:induction false} DataLine(line: string, space: char -> bool)
    requires DATA <= line && !space('d') && !space(':')
    ensures Trim(line, space) == DATA + TrimRight(line[|DATA|..], space)
  {
    assert line == DATA + line[|DATA|..];
    TrimRightKeeps(DATA, line[|DATA|..], space);
  }

  /** What the scanner makes of a line that the event-based clients see as a data line. */
  lemma {:induction false} ScansDataLine(line: string)
    requires DATA <= line
    ensures GoPayload(line) == [Trim(line[|DATA|..], GoSpace)]
  {
    hide TrimRight, DropCR;
    TrimDropsCR(line, GoSpace);
    DataLine(line, GoSpace);
    TrimRightTwice(line[|DATA|..], GoSpace);
  }

  /** The scanner and the TypeScript client find the same in a line exactly when it is no indented
      data line and its payload is trimmed alike; the scanner never finds less. */
  lemma {:induction false} LineAgrees(line: string)
    ensures |GoPayload(line)| >= |TsPayload(line)|
    ensures GoPayload(line) == TsPayload(line) <==> ScanAlike(line)
  {
    hide Trim, DropCR;
    TrimDropsCR(line, GoSpace);
    if DATA <= line {
      ScansDataLine(line);
    }
  }

  // Streams

  lemma {:induction false} BlankLine()
    ensures GoPayload("") == []
  {
  }

  lemma {:induction false} ScanPayloadsStep(line: string, lines: seq<string>)
    ensures ScanPayloads([line] + lines) == ScanPayload(line) + ScanPayloads(lines)
  {
    assert ([line] + lines)[1..] == lines;
  }

  lemma {:induction false} ScanLinesStep(s: string)
    ensures s == "" ==> ScanPayloads(ScanLines(s)) == []
    ensures var j := RunEnd(s, 0, NotChar('\n'));
            if j == |s| then ScanPayloads(ScanLines(s)) == GoPayload(s)
            else ScanPayloads(ScanLines(s)) == GoPayload(s[..j]) + ScanPayloads(ScanLines(s[j + 1..]))
  {
    hide ScanPayload, DropCR, ScanPayloads;
    var j := RunEnd(s, 0, NotChar('\n'));
    ScanNothing();
    BlankLine();
    if s == "" {
    } else if j == |s| {
      ScanPayloadsStep(DropCR(s), []);
      assert [DropCR(s)] + [] == [DropCR(s)];
    } else {
      ScanPayloadsStep(DropCR(s[..j]), ScanLines(s[j + 1..]));
    }
  }

  lemma {:induction false} ScanNothing()
    ensures ScanPayloads([]) == []
  {
  }

  /** The scanner's lines carry the payloads of the text between the line feeds. */
  lemma {:induction false} ScanGathers(s: string)
    ensures ScanPayloads(ScanLines(s)) == Gather(SplitLines(s), GoPayload)
    decreases |s|
  {
    hide GoPayload, ScanPayloads, ScanLines, Gather, SplitLines;
    var j := RunEnd(s, 0, NotChar('\n'));
    ScanLinesStep(s);
    GatherNone(GoPayload);
    if j == |s| {
      assert s[0..j] == s;
      SplitOne(s);
      GatherCons(s, [], GoPayload);
      assert [s] + [] == [s];
    } else {
      assert s == s[..j] + "\n" + s[j + 1..] && s[0..j] == s[..j];
      SplitStep(s[..j], s[j + 1..]);
      GatherCons(s[..j], SplitLines(s[j + 1..]), GoPayload);
      ScanGathers(s[j + 1..]);
    }
  }

  /** No line is a data line, even when trimmed. */
  predicate NoData(lines: seq<string>) {
    forall k | 0 <= k < |lines| :: !(DATA <= Trim(lines[k], GoSpace))
  }

  lemma {:induction false} GathersNothing(lines: seq<string>)
    ensures Gather(lines, GoPayload) == [] <==> NoData(lines)
  {
    hide Trim, DropCR;
    if lines != [] {
      GathersNothing(lines[1..]);
      TrimDropsCR(lines[0], GoSpace);
      assert lines == [lines[0]] + lines[1..];
    }
  }

  predicate AllAlike(lines: seq<string>) {
    forall k | 0 <= k < |lines| :: ScanAlike(lines[k])
  }

  lemma {:induction false} AlikeLines(lines: seq<string>)
    ensures NoLess(lines, GoPayload, TsPayload)
    ensures SameOn(lines, GoPayload, TsPayload) <==> AllAlike(lines)
  {
    hide GoPayload, TsPayload, ScanAlike;
    forall k | 0 <= k < |lines|
      ensures |GoPayload(lines[k])| >= |TsPayload(lines[k])|
      ensures GoPayload(lines[k]) == TsPayload(lines[k]) <==> ScanAlike(lines[k])
    {
      LineAgrees(lines[k]);
    }
  }

  /** The scanner finds the payloads of the TypeScript client in a text that is sent to both exactly
      when both see all lines of the complete events alike and the unfinished text behind them has no
      data line. */
  lemma {:induction false} ScannerAgreesExactly(s: string)
    requires !MarkedData(s)
    ensures var c := CutEvents(s);
            ScanPayloads(ScanLines(s)) == Payloads(TypeScript(), CutEvents(Held(s)).events)
            <==> AllAlike(AllLines(c.events)) && NoData(SplitLines(c.rest))
  {
    hide CutEvents, Join, SplitLines, ScanPayloads, ScanLines, NoData, AllAlike, AllLines, Gather, NoBreak, EventsWhole,
      GoPayload, TsPayload, NoLess, SameOn, MarkedData, Payloads, Held;
    var c := CutEvents(s);
    HeldPayloads(s);
    CutSound(s);
    BlankLine();
    ScanGathers(s);
    StreamGathers(c.events, c.rest, GoPayload);
    TsGathers(c.events);
    AlikeLines(AllLines(c.events));
    GatherExact(AllLines(c.events), GoPayload, TsPayload);
    GathersNothing(SplitLines(c.rest));
    SplitEqual(Gather(AllLines(c.events), GoPayload), Gather(SplitLines(c.rest), GoPayload),
               Gather(AllLines(c.events), TsPayload), []);
    assert Gather(AllLines(c.events), TsPayload) + [] == Gather(AllLines(c.events), TsPayload);
  }

  // Streams without indented lines

  /** No line starts with white space; a line that is empty does not. */
  predicate NoIndent(s: string) {
    forall k | 0 <= k < |s| :: !IndentAt(s, k)
  }

  predicate IndentAt(s: string, k: nat)
    requires k < |s|
  {
    GoSpace(s[k]) && s[k] != '\n' && (k == 0 || s[k - 1] == '\n')
  }

  lemma {:induction false} NoIndentHead(s: string, j: nat)
    requires NoIndent(s) && j <= |s|
    ensures NoIndent(s[..j])
  {
    hide GoSpace;
    var head := s[..j];
    forall k | 0 <= k < |head| ensures !IndentAt(head, k) {
      assert !IndentAt(s, k);
    }
  }

  lemma {:induction false} NoIndentTail(s: string, j: nat)
    requires NoIndent(s) && j < |s| && s[j] == '\n'
    ensures NoIndent(s[j + 1..])
  {
    hide GoSpace;
    var tail := s[j + 1..];
    forall k | 0 <= k < |tail| ensures !IndentAt(tail, k) {
      assert !IndentAt(s, k + j + 1);
    }
  }

  /** Both clients trim the payload of the line alike, if it is a data line. */
  predicate TrimmedAlike(line: string) {
    DATA <= line ==> Trim(line[|DATA|..], GoSpace) == Trim(line[|DATA|..], JsSpace)
  }

  lemma {:induction false} NoIndentLine(line: string)
    requires NoIndent(line) && All(line, NotChar('\n'))
    ensures ScanAlike(line) <==> TrimmedAlike(line)
  {
    assert TrimRight(line, GoSpace) <= line;
    if line != "" {
      assert NotChar('\n')(line[0]);
      assert !IndentAt(line, 0);
    }
  }

  predicate AllTrimmedAlike(lines: seq<string>) {
    forall k | 0 <= k < |lines| :: TrimmedAlike(lines[k])
  }

  lemma {:induction false} NoIndentLines(s: string)
    requires NoIndent(s)
    ensures forall k | 0 <= k < |SplitLines(s)| :: ScanAlike(SplitLines(s)[k]) <==> TrimmedAlike(SplitLines(s)[k])
    decreases |s|
  {
    hide ScanAlike, TrimmedAlike, GoSpace;
    var j := RunEnd(s, 0, NotChar('\n'));
    assert s[0..j] == s[..j];
    NoIndentHead(s, j);
    NoIndentLine(s[..j]);
    if j < |s| {
      NoIndentTail(s, j);
      NoIndentLines(s[j + 1..]);
    } else {
      assert s[..j] == s;
    }
  }

  lemma {:induction false} NoIndentEvents(events: seq<string>, rest: string)
    requires NoIndent(Join(events) + rest)
    ensures AllAlike(AllLines(events)) <==> AllTrimmedAlike(AllLines(events))
  {
    hide NoIndent, SplitLines, ScanAlike, TrimmedAlike;
    if events != [] {
      var tail := Join(events[1..]) + rest;
      assert Join(events) + rest == events[0] + "\n\n" + tail;
      NoIndentParts(events[0], tail);
      NoIndentLines(events[0]);
      NoIndentEvents(events[1..], rest);
      AlikeConcat(SplitLines(events[0]), AllLines(events[1..]));
    }
  }

  lemma {:induction false} AlikeConcat(a: seq<string>, b: seq<string>)
    ensures AllAlike(a + b) <==> AllAlike(a) && AllAlike(b)
    ensures AllTrimmedAlike(a + b) <==> AllTrimmedAlike(a) && AllTrimmedAlike(b)
  {
    hide ScanAlike, TrimmedAlike;
    assert forall k | 0 <= k < |a| :: (a + b)[k] == a[k];
    assert forall k | 0 <= k < |b| :: (a + b)[|a| + k] == b[k];
  }

  lemma {:induction false} NoIndentParts(event: string, tail: string)
    requires NoIndent(event + "\n\n" + tail)
    ensures NoIndent(event) && NoIndent(tail)
  {
    hide GoSpace;
    var s := event + "\n\n" + tail;
    NoIndentHead(s, |event|);
    assert s[..|event|] == event;
    NoIndentTail(s, |event| + 1);
    assert s[|event| + 2..] == tail;
  }

  /** The text is over with a blank line, or empty. */
  predicate EndsBlank(s: string) {
    s == "" || (|s| >= 2 && s[|s| - 2..] == "\n\n")
  }

  lemma {:induction false} BreakAtEnd(a: string, rest: string)
    requires EndsBlank(a + rest) && |rest| >= 2
    ensures !NoBreak(rest)
  {
    var s, n := a + rest, |rest|;
    assert s[|s| - 2..] == rest[n - 2..];
    assert rest[n - 2..][0] == rest[n - 2] && rest[n - 2..][1] == rest[n - 1];
    assert IsBreak(rest, n - 2);
  }

  lemma {:induction false} FeedAtEnd(a: string, rest: string)
    requires EndsBlank(a + rest) && |rest| == 1
    ensures rest == "\n"
  {
    var s := a + rest;
    assert s[|s| - 2..][1] == s[|s| - 1] == rest[0];
  }

  /** Nothing, or one more line feed, stands behind the events of such a text. */
  lemma {:induction false} EndsBlankRest(s: string)
    requires EndsBlank(s)
    ensures CutEvents(s).rest == "" || CutEvents(s).rest == "\n"
  {
    hide CutEvents, EventsWhole, Join, NoBreak, EndsBlank;
    CutSound(s);
    var c := CutEvents(s);
    if |c.rest| >= 2 {
      BreakAtEnd(Join(c.events), c.rest);
    } else if |c.rest| == 1 {
      FeedAtEnd(Join(c.events), c.rest);
    }
  }

  /** On a text without indented lines that ends in a blank line, only trimming can make a difference:
      U+0085 is white space for Go and U+FEFF for JavaScript. */
  lemma {:induction false} ScannerAgreesOnPlain(s: string)
    requires NoIndent(s) && EndsBlank(s) && !MarkedData(s)
    ensures ScanPayloads(ScanLines(s)) == Payloads(TypeScript(), CutEvents(Held(s)).events)
            <==> AllTrimmedAlike(AllLines(CutEvents(s).events))
  {
    hide CutEvents, Join, NoIndent, ScanPayloads, ScanLines, AllAlike, AllTrimmedAlike, AllLines, NoBreak, EventsWhole,
      EndsBlank, MarkedData, Held, Payloads;
    CutSound(s);
    NoIndentEvents(CutEvents(s).events, CutEvents(s).rest);
    EndsBlankRest(s);
    NoDataInBlank();
    ScannerAgreesExactly(s);
  }

  lemma {:induction false} NoDataInBlank()
    ensures NoData(SplitLines("")) && NoData(SplitLines("\n"))
  {
    SplitStep("", "");
    assert "" + "\n" + "" == "\n";
  }

  lemma {:induction false} AsciiTrimmedAlike(line: string)
    requires IsAscii(line)
    ensures TrimmedAlike(line)
  {
    hide Trim;
    if DATA <= line {
      var value := line[|DATA|..];
      assert forall k | 0 <= k < |value| :: value[k] == line[k + |DATA|];
      TrimAgrees(value, GoSpace, JsSpace);
    }
  }

  lemma {:induction false} AsciiParts(a: string, b: string)
    ensures IsAscii(a + b) ==> IsAscii(a) && IsAscii(b)
  {
    if IsAscii(a + b) {
      assert forall k | 0 <= k < |a| :: a[k] == (a + b)[k];
      assert forall k | 0 <= k < |b| :: b[k] == (a + b)[|a| + k];
    }
  }

  lemma {:induction false} AsciiCut(e: string, j: nat)
    requires IsAscii(e) && j <= |e|
    ensures IsAscii(e[..j]) && IsAscii(e[j..])
    ensures j < |e| ==> IsAscii(e[j + 1..])
  {
  }

  lemma {:induction false} AsciiLines(e: string)
    requires IsAscii(e)
    ensures AllTrimmedAlike(SplitLines(e))
    decreases |e|
  {
    hide IsAscii, TrimmedAlike, SplitLines, All, AllTrimmedAlike;
    var j := RunEnd(e, 0, NotChar('\n'));
    AsciiCut(e, j);
    AsciiTrimmedAlike(e[..j]);
    OneAlike(e[..j]);
    assert e[0..j] == e[..j];
    if j == |e| {
      assert e[..j] == e;
      SplitOne(e);
    } else {
      AsciiLines(e[j + 1..]);
      assert e == e[..j] + "\n" + e[j + 1..];
      SplitStep(e[..j], e[j + 1..]);
      AlikeConcat([e[..j]], SplitLines(e[j + 1..]));
    }
  }

  lemma {:induction false} OneAlike(line: string)
    requires TrimmedAlike(line)
    ensures AllTrimmedAlike([line])
  {
    hide TrimmedAlike;
  }

  lemma {:induction false} AsciiEvents(events: seq<string>, rest: string)
    requires IsAscii(Join(events) + rest)
    ensures AllTrimmedAlike(AllLines(events))
  {
    hide IsAscii, SplitLines, TrimmedAlike;
    if events != [] {
      var tail := Join(events[1..]) + rest;
      assert Join(events) + rest == events[0] + ("\n\n" + tail);
      AsciiParts(events[0], "\n\n" + tail);
      AsciiParts("\n\n", tail);
      AsciiLines(events[0]);
      AsciiEvents(events[1..], rest);
    }
  }

  /** On ASCII text without indented lines that ends in a blank line the two find the same. */
  lemma {:induction false} ScannerAgreesOnAscii(s: string)
    requires IsAscii(s) && NoIndent(s) && EndsBlank(s)
    ensures ScanPayloads(ScanLines(s)) == Payloads(TypeScript(), CutEvents(Held(s)).events)
  {
    hide CutEvents, Join, NoIndent, IsAscii, ScanPayloads, ScanLines, AllTrimmedAlike, AllLines, NoBreak, EventsWhole,
      EndsBlank, MarkedData, Held, Payloads;
    CutSound(s);
    AsciiUnmarked(s);
    AsciiEvents(CutEvents(s).events, CutEvents(s).rest);
    ScannerAgreesOnPlain(s);
  }

  /** The scanner delivers the payload of an event that was never finished; the others do not. */
  lemma {:induction false} UnfinishedEvent()
    ensures ScanPayloads(ScanLines("data:x")) == ["x"]
    ensures Payloads(TypeScript(), CutEvents(Held("data:x")).events) == []
  {
    hide CutEvents, ScanLines, ScanPayloads, GoPayload, SplitLines, NoBreak, Gather;
    UnfinishedIsLine();
    assert Held("data:x") == "data:x";
    CutRest("data:x");
    ScanGathers("data:x");
    SplitOne("data:x");
    GatherCons("data:x", [], GoPayload);
    GatherNone(GoPayload);
    assert ["data:x"] + [] == ["data:x"];
  }

  lemma {:induction false} UnfinishedIsLine()
    ensures GoPayload("data:x") == ["x"] && All("data:x", NotChar('\n')) && NoBreak("data:x")
  {
  }

  /** And the payload of an indented data line. */
  lemma {:induction false} IndentedLine()
    ensures ScanPayloads(ScanLines(" data:x\n\n")) == ["x"]
    ensures Payloads(TypeScript(), CutEvents(Held(" data:x\n\n")).events) == []
  {
    hide CutEvents, SplitLines, ScanLines, ScanPayloads, Gather, GoPayload, TsPayload, NoBreak, Payloads;
    var line := " data:x";
    IndentedPayloads();
    IndentedIsLine();
    assert line + "\n\n" == " data:x\n\n";
    BlankLine();
    ScanGathers(line + "\n\n");
    OneLineStream(line, GoPayload);
    OneLineStream(line, TsPayload);
    TsGathers([line]);
  }

  lemma {:induction false} IndentedPayloads()
    ensures GoPayload(" data:x") == ["x"] && TsPayload(" data:x") == []
  {
    hide Trim;
    var line, text := " data:x", "data:x";
    assert DropCR(line) == line;
    assert line == " " + text + "";
    assert " "[0] == ' ' && All(" ", GoSpace) && All("", GoSpace);
    assert Trimmed(line, text, GoSpace);
    TrimExact(line, text, GoSpace);
    assert text[|DATA|..] == "x" && "x" == "" + "x" + "";
    assert Trimmed("x", "x", GoSpace);
    TrimExact("x", "x", GoSpace);
    assert line[0] != DATA[0];
  }

  lemma {:induction false} IndentedIsLine()
    ensures All(" data:x", NotChar('\n')) && NoBreak(" data:x" + "\n")
  {
  }

  /** A byte-order mark hides the first data line from the scanner. */
  lemma {:induction false} MarkedText()
    ensures ScanPayloads(ScanLines("\U{FEFF}data:x\n\n")) == []
    ensures Payloads(TypeScript(), CutEvents(Held("\U{FEFF}data:x\n\n")).events) == ["x"]
  {
    hide CutEvents, SplitLines, ScanLines, ScanPayloads, Gather, GoPayload, TsPayload, NoBreak, Payloads;
    var line, held := "\U{FEFF}data:x", "data:x";
    MarkedPayloads();
    assert line + "\n\n" == "\U{FEFF}data:x\n\n" && Held(line + "\n\n") == held + "\n\n";
    BlankLine();
    ScanGathers(line + "\n\n");
    OneLineStream(line, GoPayload);
    OneLineStream(held, TsPayload);
    TsGathers([held]);
  }

  lemma {:induction false} MarkedPayloads()
    ensures GoPayload("\U{FEFF}data:x") == [] && TsPayload("data:x") == ["x"]
    ensures All("\U{FEFF}data:x", NotChar('\n')) && NoBreak("\U{FEFF}data:x" + "\n")
    ensures All("data:x", NotChar('\n')) && NoBreak("data:x" + "\n")
  {
  }
}

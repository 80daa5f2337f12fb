/** When the Python and the TypeScript client make the same of a text that is sent to them. */
module ClientAgreement {
  import opened Chars
  import opened EventStream
  import opened StreamLines
  import opened StreamDecoder
  import opened BytewiseText

  // One line

  /** What the Python client finds in a line that ends at a line feed; it may see several lines. */
  function PyPayloads(line: string): seq<string> {
    LinesPayloads(PyLines(line), PySpace)
  }

  /** Of the line as the Python client holds it, the first of its own lines has the data of the line
      that was sent, trimmed alike, and the others have none. */
  predicate PyAlike(line: string) {
    var own := PyLines(Seen(line));
    && (own != [] ==> LinePayload(own[0], PySpace) == LinePayload(line, JsSpace))
    && forall k | 1 <= k < |own| :: !(DATA <= own[k])
  }

  lemma {:induction false} NoPayloads(lines: seq<string>, space: char -> bool)
    ensures LinesPayloads(lines, space) == [] <==> forall k | 0 <= k < |lines| :: !(DATA <= lines[k])
  {
    if lines != [] {
      NoPayloads(lines[1..], space);
      assert lines == [lines[0]] + lines[1..];
    }
  }

  lemma {:induction false} FirstOwnLine(line: string)
    ensures PyLines(line) == [] <==> line == ""
    ensures line != "" ==> (DATA <= PyLines(line)[0] <==> DATA <= line)
  {
    if line != "" {
      var j := RunEnd(line, 0, NotPyBreak());
      assert PyLines(line)[0] == line[..j];
      assert forall k | 0 <= k < |DATA| :: !IsPyBreak(DATA[k]);
    }
  }

  /** What the Python client finds in a line that was sent. */
  function PySeen(line: string): seq<string> {
    PyPayloads(Seen(line))
  }

  /** The two clients find the same in a line exactly when the Python client sees it alike; it never
      finds less. */
  lemma {:induction false} PyLineAgrees(line: string)
    ensures |PySeen(line)| >= |TsPayload(line)|
    ensures PySeen(line) == TsPayload(line) <==> PyAlike(line)
  {
    hide PyLines, Trim, Seen;
    var own := PyLines(Seen(line));
    FirstOwnLine(Seen(line));
    SeenPrefix(DATA, line);
    if Seen(line) != "" {
      var first, later := LinePayload(own[0], PySpace), LinesPayloads(own[1..], PySpace);
      NoPayloads(own[1..], PySpace);
      assert forall k | 1 <= k < |own| :: own[k] == own[1..][k - 1];
      SplitEqual(first, later, TsPayload(line), []);
      assert TsPayload(line) + [] == TsPayload(line);
    }
  }

  // All lines of the events

  /** The end of the first of Python's lines, with its line end if it has one. */
  function OwnEnd(s: string): (n: nat)
    ensures n <= |s|
  {
    var j := RunEnd(s, 0, NotPyBreak());
    if j == |s| then j else if s[j] == '\r' && j + 1 < |s| && s[j + 1] == '\n' then j + 2 else j + 1
  }

  lemma {:induction false} PyStep(s: string)
    ensures PyPayloads(s) == LinePayload(s[..RunEnd(s, 0, NotPyBreak())], PySpace) + PyPayloads(s[OwnEnd(s)..])
  {
    hide LinePayload, LinesPayloads;
    var line, rest := s[..RunEnd(s, 0, NotPyBreak())], s[OwnEnd(s)..];
    NothingInBlank();
    if s != "" {
      assert PyLines("") == [];
      if RunEnd(s, 0, NotPyBreak()) == |s| {
        assert line == s && rest == "";
      }
      assert PyLines(s) == [line] + PyLines(rest);
      PayloadsCons(line, PyLines(rest));
    }
  }

  lemma {:induction false} NothingInBlank()
    ensures LinePayload("", PySpace) == [] && PyPayloads("") == []
  {
  }

  lemma {:induction false} PayloadsCons(line: string, lines: seq<string>)
    ensures LinesPayloads([line] + lines, PySpace) == LinePayload(line, PySpace) + LinesPayloads(lines, PySpace)
  {
    hide LinePayload;
    assert ([line] + lines)[1..] == lines;
  }

  lemma {:induction false} RunEndBefore(a: string, b: string)
    ensures RunEnd(a + "\n" + b, 0, NotPyBreak()) == RunEnd(a, 0, NotPyBreak())
  {
    var s, j := a + "\n" + b, RunEnd(a, 0, NotPyBreak());
    assert s[0..j] == a[0..j];
    assert j < |a| ==> s[j] == a[j];
    RunEndUnique(s, 0, j, NotPyBreak());
  }

  /** The line feed behind `a` ends the last of its lines, alone or together with a "\r". */
  lemma {:induction false} OwnEndBefore(a: string, b: string)
    requires All(a, NotChar('\n'))
    ensures var s, n := a + "\n" + b, OwnEnd(a);
            || (n < |a| && OwnEnd(s) == n)
            || (n == |a| && OwnEnd(s) == n + 1)
            || (0 < n == |a| && OwnEnd(s) == n && s[n..] == "\n" + b)
  {
    RunEndBefore(a, b);
    var s, j := a + "\n" + b, RunEnd(a, 0, NotPyBreak());
    if j + 1 < |a| {
      assert NotChar('\n')(a[j + 1]) && s[j + 1] == a[j + 1] && s[j] == a[j];
    }
  }

  lemma {:induction false} NoFeedTail(a: string, n: nat)
    requires All(a, NotChar('\n')) && n <= |a|
    ensures All(a[n..], NotChar('\n'))
  {
    forall k | 0 <= k < |a| - n ensures NotChar('\n')(a[n..][k]) {
      assert NotChar('\n')(a[n + k]);
    }
  }

  lemma {:induction false} FeedFirst(b: string)
    ensures PyPayloads("\n" + b) == PyPayloads(b)
  {
    hide PyPayloads;
    var s := "\n" + b;
    NothingInBlank();
    RunEndUnique(s, 0, 0, NotPyBreak());
    PyStep(s);
    assert s[..0] == "" && s[1..] == b;
  }

  /** A line feed always separates Python's lines, too. */
  lemma {:induction false} PyCut(a: string, b: string)
    requires All(a, NotChar('\n'))
    ensures PyPayloads(a + "\n" + b) == PyPayloads(a) + PyPayloads(b)
    decreases |a|
  {
    hide PyPayloads, LinePayload, All;
    var s, j, n := a + "\n" + b, RunEnd(a, 0, NotPyBreak()), OwnEnd(a);
    RunEndBefore(a, b);
    OwnEndBefore(a, b);
    PyStep(a);
    PyStep(s);
    NothingInBlank();
    assert s[..j] == a[..j];
    if n < |a| {
      NoFeedTail(a, n);
      OwnEndMoves(a);
      PyCut(a[n..], b);
      assert s[n..] == a[n..] + "\n" + b;
    } else {
      assert a[n..] == "";
      FeedFirst(b);
      assert OwnEnd(s) == n + 1 ==> s[n + 1..] == b;
    }
  }

  lemma {:induction false} OwnEndMoves(s: string)
    requires s != ""
    ensures OwnEnd(s) > 0
  {
  }

  lemma {:induction false} PyEvent(e: string)
    ensures EventPayloads(Python(), e) == Gather(SplitLines(e), PyPayloads)
    decreases |e|
  {
    hide PyPayloads, SplitLines, Gather, EventPayloads, Python, All;
    PyIsPayloads(e);
    var j := RunEnd(e, 0, NotChar('\n'));
    assert e[0..j] == e[..j];
    if j == |e| {
      assert e[..j] == e;
      SplitOne(e);
      GatherCons(e, [], PyPayloads);
      GatherNone(PyPayloads);
      assert [e] + [] == [e];
    } else {
      var line, tail := e[..j], e[j + 1..];
      assert e == line + "\n" + tail;
      PyIsPayloads(tail);
      PyCut(line, tail);
      PyEvent(tail);
      SplitStep(line, tail);
      GatherCons(line, SplitLines(tail), PyPayloads);
    }
  }

  lemma {:induction false} PyIsPayloads(e: string)
    ensures EventPayloads(Python(), e) == PyPayloads(e)
  {
  }

  lemma {:induction false} PyGathers(events: seq<string>)
    ensures Payloads(Python(), events) == Gather(AllLines(events), PyPayloads)
  {
    hide Gather, SplitLines, PyPayloads, EventPayloads;
    if events == [] {
      GatherNone(PyPayloads);
    } else {
      PyGathers(events[1..]);
      PyEvent(events[0]);
      GatherConcat(SplitLines(events[0]), AllLines(events[1..]), PyPayloads);
    }
  }

  predicate AllPyAlike(lines: seq<string>) {
    forall k | 0 <= k < |lines| :: PyAlike(lines[k])
  }

  lemma {:induction false} PyAlikeLines(lines: seq<string>)
    ensures NoLess(lines, PySeen, TsPayload)
    ensures SameOn(lines, PySeen, TsPayload) <==> AllPyAlike(lines)
  {
    hide PySeen, TsPayload, PyAlike;
    forall k | 0 <= k < |lines|
      ensures |PySeen(lines[k])| >= |TsPayload(lines[k])|
      ensures PySeen(lines[k]) == TsPayload(lines[k]) <==> PyAlike(lines[k])
    {
      PyLineAgrees(lines[k]);
    }
  }

  lemma {:induction false} SeenGathers(lines: seq<string>)
    ensures Gather(SeenAll(lines), PyPayloads) == Gather(lines, PySeen)
  {
    hide PyPayloads, Seen;
    if lines != [] {
      SeenGathers(lines[1..]);
      assert SeenAll(lines)[1..] == SeenAll(lines[1..]);
    }
  }

  /** The payloads the TypeScript client finds when `t` was sent. */
  function TsFinds(t: string): seq<string> {
    Payloads(TypeScript(), CutEvents(Held(t)).events)
  }

  /** The payloads the Python client finds when `t` was sent. */
  function PyFinds(t: string): seq<string> {
    Payloads(Python(), CutEvents(Seen(t)).events)
  }

  lemma {:induction false} PyFindsGathers(t: string)
    ensures PyFinds(t) == Gather(AllLines(CutEvents(t).events), PySeen)
  {
    hide Payloads, CutEvents, AllLines, Gather, Seen, SeenAll, PySeen, PyPayloads;
    var events := CutEvents(t).events;
    SeenCut(t);
    PyGathers(SeenAll(events));
    SeenLines(events);
    SeenGathers(AllLines(events));
  }

  /** The two clients find the same payloads in a text that was sent exactly when they see every line
      of its events alike. */
  lemma {:induction false} PayloadsAgreeExactly(t: string)
    requires !MarkedData(t)
    ensures PyFinds(t) == TsFinds(t) <==> AllPyAlike(AllLines(CutEvents(t).events))
  {
    hide CutEvents, Payloads, AllLines, Gather, PyFinds, PySeen, TsPayload, NoLess, SameOn, AllPyAlike, Held,
      MarkedData;
    var events := CutEvents(t).events;
    HeldPayloads(t);
    PyFindsGathers(t);
    TsGathers(events);
    PyAlikeLines(AllLines(events));
    GatherExact(AllLines(events), PySeen, TsPayload);
  }

  // Invalid JSON

  /** The payloads bring nothing to yield until one makes the client throw. */
  predicate QuietThrow<D(==)>(payloads: seq<string>, decode: string -> Decoded<D>) {
    && payloads != []
    && payloads[0] != "[DONE]"
    && match decode(payloads[0])
       case Marker => false
       case Deltas(ds) => ds == [] && QuietThrow(payloads[1..], decode)
       case Misshapen(ds) => ds == []
       case BadJson => QuietThrow(payloads[1..], decode)
  }

  /** Invalid JSON comes before the stream ends, and what follows it does not just throw as well. */
  predicate BadJsonMatters<D(==)>(payloads: seq<string>, decode: string -> Decoded<D>) {
    && payloads != []
    && payloads[0] != "[DONE]"
    && match decode(payloads[0])
       case Deltas(_) => BadJsonMatters(payloads[1..], decode)
       case BadJson => !QuietThrow(payloads[1..], decode)
       case _ => false
  }

  lemma {:induction false} QuietThrowExactly<D>(p: Progress<D>, payloads: seq<string>, decode: string -> Decoded<D>)
    requires p.ending.Open?
    ensures HandleAll(p, payloads, decode, true) == Progress(p.yielded, Thrown) <==> QuietThrow(payloads, decode)
    decreases |payloads|
  {
    if payloads != [] {
      var q := Handle(p, payloads[0], decode, true);
      if q.ending.Open? {
        QuietThrowExactly(q, payloads[1..], decode);
        HandleAllGrows(q, payloads[1..], decode, true);
      } else {
        HandleAllEnded(q, payloads[1..], decode, true);
      }
    }
  }

  /** A client that throws on invalid JSON and one that skips it make the same of the payloads
      exactly when invalid JSON does not matter; the one that throws never yields more. */
  lemma {:induction false} SkippingExactly<D>(p: Progress<D>, payloads: seq<string>, decode: string -> Decoded<D>)
    requires p.ending.Open?
    ensures HandleAll(p, payloads, decode, false) == HandleAll(p, payloads, decode, true)
            <==> !BadJsonMatters(payloads, decode)
    ensures HandleAll(p, payloads, decode, false).yielded <= HandleAll(p, payloads, decode, true).yielded
    decreases |payloads|
  {
    if payloads != [] {
      var strict, lenient := Handle(p, payloads[0], decode, false), Handle(p, payloads[0], decode, true);
      if strict.ending.Open? {
        SkippingExactly(strict, payloads[1..], decode);
      } else {
        HandleAllEnded(strict, payloads[1..], decode, false);
        if lenient.ending.Open? {
          HandleAllGrows(lenient, payloads[1..], decode, true);
          QuietThrowExactly(lenient, payloads[1..], decode);
        } else {
          HandleAllEnded(lenient, payloads[1..], decode, true);
        }
      }
    }
  }

  /** What the TypeScript client makes of a text that is sent. */
  function TsOutcome<D>(t: string, decode: string -> Decoded<D>): Progress<D> {
    Whole(TypeScript(), Held(t), decode)
  }

  /** What the Python client makes of it (see StreamDecoder.PythonChatStream). */
  function PyOutcome<D>(t: string, decode: string -> Decoded<D>): Progress<D> {
    Whole(Python(), Seen(t), decode)
  }

  lemma {:induction false} Outcomes<D>(t: string, decode: string -> Decoded<D>)
    ensures TsOutcome(t, decode) == HandleAll(Start(), TsFinds(t), decode, false)
    ensures PyOutcome(t, decode) == HandleAll(Start(), PyFinds(t), decode, true)
  {
    hide CutEvents, Payloads, HandleAll, Seen, Held;
  }

  /** On a text whose lines both clients see alike they make the same exactly when invalid JSON does
      not matter, and the TypeScript client never yields more. */
  lemma {:induction false} ClientsAgree<D>(t: string, decode: string -> Decoded<D>)
    requires !MarkedData(t) && AllPyAlike(AllLines(CutEvents(t).events))
    ensures TsOutcome(t, decode) == PyOutcome(t, decode) <==> !BadJsonMatters(TsFinds(t), decode)
    ensures TsOutcome(t, decode).yielded <= PyOutcome(t, decode).yielded
  {
    hide CutEvents, HandleAll, BadJsonMatters, AllPyAlike, AllLines, TsFinds, PyFinds, TsOutcome, PyOutcome, MarkedData;
    Outcomes(t, decode);
    PayloadsAgreeExactly(t);
    SkippingExactly(Start<D>(), TsFinds(t), decode);
  }

  // Whatever the payloads say

  /** The payloads up to the first "[DONE]", that one included. */
  function UntilDone(payloads: seq<string>): seq<string> {
    if payloads == [] then []
    else if payloads[0] == "[DONE]" then ["[DONE]"]
    else [payloads[0]] + UntilDone(payloads[1..])
  }

  lemma {:induction false} OnlyUntilDone<D>(p: Progress<D>, payloads: seq<string>, decode: string -> Decoded<D>,
                                            skips: bool)
    requires p.ending.Open?
    ensures HandleAll(p, payloads, decode, skips) == HandleAll(p, UntilDone(payloads), decode, skips)
    decreases |payloads|
  {
    if payloads != [] {
      var q, rest := Handle(p, payloads[0], decode, skips), payloads[1..];
      if payloads[0] == "[DONE]" {
        HandleAllEnded(q, rest, decode, skips);
        assert ["[DONE]"][1..] == [];
      } else {
        assert UntilDone(payloads)[1..] == UntilDone(rest);
        if q.ending.Open? {
          OnlyUntilDone(q, rest, decode, skips);
        } else {
          HandleAllEnded(q, rest, decode, skips);
          HandleAllEnded(q, UntilDone(rest), decode, skips);
        }
      }
    }
  }

  ghost predicate AlwaysJson<D(!new)>(decode: string -> Decoded<D>) {
    forall x :: !decode(x).BadJson?
  }

  lemma {:induction false} JsonNeverMatters<D>(payloads: seq<string>, decode: string -> Decoded<D>)
    requires forall k | 0 <= k < |payloads| :: !decode(payloads[k]).BadJson?
    ensures !BadJsonMatters(payloads, decode)
  {
    if payloads != [] {
      JsonNeverMatters(payloads[1..], decode);
    }
  }

  /** Takes every payload for the content it is. */
  function Echo(): string -> Decoded<string> {
    x => Deltas([x])
  }

  function Contents(payloads: seq<string>): seq<string> {
    if payloads == [] || payloads[0] == "[DONE]" then [] else [payloads[0]] + Contents(payloads[1..])
  }

  predicate HasDone(payloads: seq<string>) {
    payloads != [] && (payloads[0] == "[DONE]" || HasDone(payloads[1..]))
  }

  lemma {:induction false} EchoTells(p: Progress<string>, payloads: seq<string>, skips: bool)
    requires p.ending.Open?
    ensures HandleAll(p, payloads, Echo(), skips)
         == Progress(p.yielded + Contents(payloads), if HasDone(payloads) then Done else Open)
    ensures UntilDone(payloads) == Contents(payloads) + (if HasDone(payloads) then ["[DONE]"] else [])
    decreases |payloads|
  {
    if payloads != [] {
      var q, rest := Handle(p, payloads[0], Echo(), skips), payloads[1..];
      if payloads[0] == "[DONE]" {
        HandleAllEnded(q, rest, Echo(), skips);
      } else {
        EchoTells(q, rest, skips);
      }
    }
  }

  lemma {:induction false} SameByEcho(a: seq<string>, b: seq<string>)
    requires HandleAll(Start(), a, Echo(), false) == HandleAll(Start(), b, Echo(), true)
    ensures UntilDone(a) == UntilDone(b)
  {
    hide HandleAll, Contents, HasDone, UntilDone;
    EchoTells(Start(), a, false);
    EchoTells(Start(), b, true);
    assert [] + Contents(a) == Contents(a) && [] + Contents(b) == Contents(b);
    assert HasDone(a) == HasDone(b);
  }

  lemma {:induction false} SameUntilDone<D>(a: seq<string>, b: seq<string>, decode: string -> Decoded<D>)
    requires UntilDone(a) == UntilDone(b) && forall x :: !decode(x).BadJson?
    ensures HandleAll(Start(), a, decode, false) == HandleAll(Start(), b, decode, true)
  {
    hide HandleAll, BadJsonMatters, UntilDone;
    OnlyUntilDone(Start<D>(), a, decode, false);
    OnlyUntilDone(Start<D>(), b, decode, false);
    JsonNeverMatters(b, decode);
    SkippingExactly(Start<D>(), b, decode);
  }

  /** The two clients agree on a text, whatever its payloads mean as long as they are JSON, exactly
      when they find the same payloads in it up to the first "[DONE]". */
  lemma {:induction false} ClientsAgreeExactly(t: string)
    ensures (forall decode: string -> Decoded<string> :: AlwaysJson(decode) ==>
               TsOutcome(t, decode) == PyOutcome(t, decode))
            <==> UntilDone(TsFinds(t)) == UntilDone(PyFinds(t))
  {
    hide TsFinds, PyFinds, TsOutcome, PyOutcome, HandleAll, UntilDone;
    if UntilDone(TsFinds(t)) == UntilDone(PyFinds(t)) {
      forall decode: string -> Decoded<string> | AlwaysJson(decode)
        ensures TsOutcome(t, decode) == PyOutcome(t, decode)
      {
        Outcomes(t, decode);
        SameUntilDone(TsFinds(t), PyFinds(t), decode);
      }
    }
    if forall decode: string -> Decoded<string> :: AlwaysJson(decode) ==>
        TsOutcome(t, decode) == PyOutcome(t, decode)
    {
      assert AlwaysJson(Echo());
      Outcomes(t, Echo());
      SameByEcho(TsFinds(t), PyFinds(t));
    }
  }

  // ASCII

  /** A character on which the two clients' notions of line end and white space agree. */
  predicate PlainChar(c: char) {
    (IsPyBreak(c) ==> c == '\n') && (JsSpace(c) <==> PySpace(c))
  }

  /** ASCII without the control characters that only one client takes for a line end or white space. */
  predicate Plain(s: string) {
    IsAscii(s) && forall k | 0 <= k < |s| :: PlainChar(s[k])
  }

  lemma {:induction false} PlainParts(a: string, b: string)
    ensures Plain(a + b) <==> Plain(a) && Plain(b)
  {
    hide PlainChar;
    forall k | 0 <= k < |a| ensures (a + b)[k] == a[k] {}
    forall k | 0 <= k < |b| ensures (a + b)[|a| + k] == b[k] {}
    if Plain(a + b) {
      assert forall k | 0 <= k < |a| :: a[k] == (a + b)[k];
      assert forall k | 0 <= k < |b| :: b[k] == (a + b)[|a| + k];
    }
  }

  lemma {:induction false} PlainPayload(line: string)
    requires Plain(line)
    ensures LinePayload(line, PySpace) == LinePayload(line, JsSpace)
  {
    hide IsBlankChar, IsAscii;
    if DATA <= line {
      var value := line[|DATA|..];
      assert forall k | 0 <= k < |value| :: value[k] == line[k + |DATA|];
      TrimAgrees(value, PySpace, JsSpace);
    }
  }

  lemma {:induction false} PlainLine(line: string)
    requires Plain(line) && All(line, NotChar('\n'))
    ensures PyAlike(line)
  {
    hide LinePayload, JsSpace, PySpace, IsPyBreak, IsAscii, Seen;
    PlainPayload(line);
    SeenAscii(line);
    if line != "" {
      forall k | 0 <= k < |line| ensures NotPyBreak()(line[k]) {
        assert NotChar('\n')(line[k]) && PlainChar(line[k]);
      }
      assert line[0..|line|] == line && line[..|line|] == line;
      RunEndUnique(line, 0, |line|, NotPyBreak());
    }
  }

  lemma {:induction false} PlainLines(e: string)
    requires Plain(e)
    ensures AllPyAlike(SplitLines(e))
    decreases |e|
  {
    hide Plain, PyAlike;
    var j := RunEnd(e, 0, NotChar('\n'));
    assert e[0..j] == e[..j] && e == e[..j] + e[j..];
    PlainParts(e[..j], e[j..]);
    PlainLine(e[..j]);
    if j == |e| {
      assert e[..j] == e;
    } else {
      assert e[j..] == e[j..j + 1] + e[j + 1..];
      PlainParts(e[j..j + 1], e[j + 1..]);
      PlainLines(e[j + 1..]);
    }
  }

  lemma {:induction false} PlainEvents(events: seq<string>, rest: string)
    requires Plain(Join(events) + rest)
    ensures AllPyAlike(AllLines(events))
  {
    hide Plain, SplitLines, PyAlike;
    if events != [] {
      var tail := Join(events[1..]) + rest;
      assert Join(events) + rest == events[0] + ("\n\n" + tail);
      PlainParts(events[0], "\n\n" + tail);
      PlainParts("\n\n", tail);
      PlainLines(events[0]);
      PlainEvents(events[1..], rest);
    }
  }

  /** In particular on plain ASCII text. */
  lemma {:induction false} ClientsAgreeOnPlain<D>(t: string, decode: string -> Decoded<D>)
    requires Plain(t)
    ensures TsOutcome(t, decode) == PyOutcome(t, decode) <==> !BadJsonMatters(TsFinds(t), decode)
  {
    hide CutEvents, PlainChar, TsFinds, TsOutcome, PyOutcome, BadJsonMatters, AllPyAlike, AllLines, NoBreak,
      EventsWhole, Join, MarkedData;
    CutSound(t);
    AsciiUnmarked(t);
    PlainEvents(CutEvents(t).events, CutEvents(t).rest);
    ClientsAgree(t, decode);
  }

  // Where they differ

  /** Trimming and cutting bring no new characters. */
  lemma {:induction false} TrimIsPart(s: string, space: char -> bool)
    ensures forall c | c in Trim(s, space) :: c in s
  {
    hide TrimLeft, TrimRight;
    var b := TrimRightParts(s, space);
    var a := TrimLeftParts(TrimRight(s, space), space);
    assert s == a + Trim(s, space) + b;
  }

  lemma {:induction false} OwnLineIsPart(s: string)
    requires s != ""
    ensures PyLines(s) != [] && forall c | c in PyLines(s)[0] :: c in s
  {
    var j := RunEnd(s, 0, NotPyBreak());
    assert PyLines(s)[0] == s[..j] || PyLines(s)[0] == s;
  }

  lemma {:induction false} SeenHas(t: string, c: char)
    requires c in Seen(t)
    ensures c as int < 0x80 || c == REPLACEMENT
  {
    hide Seen;
    SeenIs(t);
  }

  /** Non-ASCII characters never reach the Python client: no data line with one in its payload is seen
      alike, unless it is the replacement character itself. */
  lemma {:induction false} NonAsciiDiffers(line: string, c: char)
    requires DATA <= line && c in Trim(line[|DATA|..], JsSpace) && c as int >= 0x80 && c != REPLACEMENT
    ensures !PyAlike(line)
  {
    hide Trim, PyLines, Seen;
    SeenPrefix(DATA, line);
    var own := PyLines(Seen(line));
    OwnLineIsPart(Seen(line));
    FirstOwnLine(Seen(line));
    if PyAlike(line) {
      var value := own[0][|DATA|..];
      TrimIsPart(value, PySpace);
      assert LinePayload(own[0], PySpace)[0] == LinePayload(line, JsSpace)[0];
      assert c in value;
      assert c in own[0];
      SeenHas(line, c);
      assert false;
    }
  }

  lemma {:induction false} DialectLines(e: string)
    ensures EventPayloads(TypeScript(), e) == LinesPayloads(SplitLines(e), JsSpace)
    ensures EventPayloads(Python(), e) == LinesPayloads(PyLines(e), PySpace)
  {
  }

  lemma {:induction false} TrimNothing(s: string, space: char -> bool)
    requires s != "" && !space(s[0]) && !space(s[|s| - 1])
    ensures Trim(s, space) == s
  {
  }

  lemma {:induction false} PyTwoLines(a: string, c: char, b: string)
    requires All(a, NotPyBreak()) && IsPyBreak(c) && All(b, NotPyBreak()) && b != ""
    ensures PyLines(a + [c] + b) == [a, b]
  {
    var s := a + [c] + b;
    assert s[..|a|] == a && s[|a| + 1..] == b && b[..|b|] == b;
    RunEndUnique(s, 0, |a|, NotPyBreak());
    RunEndUnique(b, 0, |b|, NotPyBreak());
    assert b[0..|b|] == b && NotPyBreak()(b[0]);
  }

  /** A carriage return, which JSON allows between its tokens, ends a line for the Python client only. */
  lemma {:induction false} ReturnDivides(a: string, b: string)
    requires IsAscii(a) && All(a, NotPyBreak()) && a != "" && !PySpace(a[0]) && !PySpace(a[|a| - 1])
    requires IsAscii(b) && All(b, NotPyBreak()) && b != "" && !(DATA <= b)
    requires !JsSpace(b[|b| - 1])
    ensures var e := DATA + a + "\r" + b;
            EventPayloads(TypeScript(), e) == [a + "\r" + b] && EventPayloads(Python(), Seen(e)) == [a]
  {
    hide PyLines, SplitLines, Trim, PySpace, IsBlankChar, Seen;
    var value := a + "\r" + b;
    var e := DATA + a + "\r" + b;
    assert e == DATA + value;
    assert IsAscii(e);
    SeenAscii(e);
    forall k | 0 <= k < |e| ensures NotChar('\n')(e[k]) {
      if |DATA| <= k < |DATA| + |a| {
        assert NotPyBreak()(a[k - |DATA|]);
      } else if |DATA| + |a| < k {
        assert NotPyBreak()(b[k - |DATA| - |a| - 1]);
      }
    }
    SplitOne(e);
    NarrowSpace(a[0]);
    TrimNothing(value, JsSpace);
    assert e[|DATA|..] == value;
    assert [e][1..] == [];
    DialectLines(e);
    OnePayload(e, JsSpace);
    var first := DATA + a;
    assert All(first, NotPyBreak());
    PyTwoLines(first, '\r', b);
    TrimNothing(a, PySpace);
    assert first[|DATA|..] == a;
    assert [first, b][1..] == [b] && [b][1..] == [];
    assert e == first + "\r" + b;
    OnePayload(first, PySpace);
    assert LinePayload(b, PySpace) == [];
    assert LinesPayloads([b], PySpace) == [];
    assert EventPayloads(Python(), e) == LinesPayloads([first, b], PySpace);
  }

  lemma {:induction false} NarrowSpace(c: char)
    requires c as int < 0x80 && !PySpace(c)
    ensures !JsSpace(c)
  {
  }

  lemma {:induction false} OnePayload(line: string, space: char -> bool)
    requires DATA <= line
    ensures LinePayload(line, space) == [Trim(line[|DATA|..], space)]
  {
  }

  /** A text on which they differ: one letter with an accent arrives as two replacement characters. */
  lemma {:induction false} AccentDiffers()
    ensures TsFinds("data:\U{00E9}\n\n") == ["\U{00E9}"] && PyFinds("data:\U{00E9}\n\n") == ["\U{FFFD}\U{FFFD}"]
  {
    hide PyFinds, CutEvents, Payloads, AllLines, Gather, PySeen, TsPayload, NoBreak;
    var line := "data:\U{00E9}";
    AccentLine();
    assert line + "\n\n" == "data:\U{00E9}\n\n" && Held(line + "\n\n") == line + "\n\n";
    OneLineStream(line, PySeen);
    OneLineStream(line, TsPayload);
    PyFindsGathers(line + "\n\n");
    TsGathers([line]);
  }

  lemma {:induction false} AccentLine()
    ensures TsPayload("data:\U{00E9}") == ["\U{00E9}"] && PySeen("data:\U{00E9}") == ["\U{FFFD}\U{FFFD}"]
    ensures All("data:\U{00E9}", NotChar('\n')) && NoBreak("data:\U{00E9}" + "\n")
  {
    hide PyLines, Trim, Seen;
    var line, value, seen := "data:\U{00E9}", "\U{00E9}", "data:\U{FFFD}\U{FFFD}";
    assert line[|DATA|..] == value && seen[|DATA|..] == "\U{FFFD}\U{FFFD}";
    TrimNothing(value, JsSpace);
    OnePayload(line, JsSpace);
    TrimNothing("\U{FFFD}\U{FFFD}", PySpace);
    OnePayload(seen, PySpace);
    SeenAccent();
    SeenAscii("data:");
    SeenConcat("data:", value);
    assert line == "data:" + value && seen == "data:" + "\U{FFFD}\U{FFFD}";
    OneOwnLine(seen);
    assert [seen][1..] == [];
  }

  lemma {:induction false} SeenAccent()
    ensures Seen("\U{00E9}") == "\U{FFFD}\U{FFFD}"
  {
    assert Utf8("\U{00E9}") == Utf8Char('\U{00E9}') + Utf8("");
    assert Utf8Char('\U{00E9}') == [0xC3, 0xA9];
  }

  lemma {:induction false} OneOwnLine(s: string)
    requires s != "" && All(s, NotPyBreak())
    ensures PyLines(s) == [s]
  {
    assert s[0..|s|] == s && s[..|s|] == s;
    RunEndUnique(s, 0, |s|, NotPyBreak());
  }

  /** A byte-order mark hides the first data line from the Python client. */
  lemma {:induction false} MarkDiffers()
    ensures TsFinds("\U{FEFF}data:x\n\n") == ["x"] && PyFinds("\U{FEFF}data:x\n\n") == []
  {
    hide PyFinds, CutEvents, Payloads, AllLines, Gather, PySeen, TsPayload, NoBreak;
    var line, held := "\U{FEFF}data:x", "data:x";
    MarkedLine();
    assert line + "\n\n" == "\U{FEFF}data:x\n\n" && Held(line + "\n\n") == held + "\n\n";
    OneLineStream(line, PySeen);
    OneLineStream(held, TsPayload);
    PyFindsGathers(line + "\n\n");
    TsGathers([held]);
  }

  lemma {:induction false} MarkedLine()
    ensures PySeen("\U{FEFF}data:x") == [] && TsPayload("data:x") == ["x"]
    ensures All("\U{FEFF}data:x", NotChar('\n')) && NoBreak("\U{FEFF}data:x" + "\n")
    ensures All("data:x", NotChar('\n')) && NoBreak("data:x" + "\n")
  {
    hide PyLines, Seen;
    var seen := "\U{FFFD}\U{FFFD}\U{FFFD}data:x";
    SeenMark();
    SeenAscii("data:x");
    SeenConcat("\U{FEFF}", "data:x");
    assert "\U{FEFF}" + "data:x" == "\U{FEFF}data:x";
    assert "\U{FFFD}\U{FFFD}\U{FFFD}" + "data:x" == seen;
    OneOwnLine(seen);
    assert seen[0] != DATA[0];
    var lines: seq<string> := [seen];
    assert lines[1..] == [];
  }

  lemma {:induction false} SeenMark()
    ensures Seen("\U{FEFF}") == "\U{FFFD}\U{FFFD}\U{FFFD}"
  {
    assert Utf8("\U{FEFF}") == Utf8Char('\U{FEFF}') + Utf8("");
    assert Utf8Char('\U{FEFF}') == [0xEF, 0xBB, 0xBF];
  }

  /** The replacement character is a true exception: here it is the payload sent, and what comes of
      other white space in front of it is the payload received. */
  lemma {:induction false} ReplacementAgrees()
    ensures PyAlike("data:\U{00A0}\U{000B}\U{FFFD}\U{FFFD}")
    ensures TsPayload("data:\U{00A0}\U{000B}\U{FFFD}\U{FFFD}") == ["\U{FFFD}\U{FFFD}"]
  {
    hide PyLines, Trim, Seen;
    var line, two := "data:\U{00A0}\U{000B}\U{FFFD}\U{FFFD}", "\U{FFFD}\U{FFFD}";
    var six := "\U{FFFD}\U{FFFD}\U{FFFD}\U{FFFD}\U{FFFD}\U{FFFD}";
    var first := "data:" + two;
    SeenReplaced();
    PyTwoLines(first, '\U{000B}', six);
    TrimNothing(two, PySpace);
    OnePayload(first, PySpace);
    assert first[|DATA|..] == two;
    var value := line[|DATA|..];
    assert value == "\U{00A0}\U{000B}" + two;
    var lead, trail := "\U{00A0}\U{000B}", "";
    assert lead[0] == '\U{00A0}' && lead[1] == '\U{000B}' && |lead| == 2;
    assert All(lead, JsSpace) && All(trail, JsSpace);
    assert value == lead + two + trail;
    assert Trimmed(value, two, JsSpace);
    TrimExact(value, two, JsSpace);
    OnePayload(line, JsSpace);
    assert six[0] != DATA[0];
    assert !(DATA <= six);
    assert first == "data:\U{FFFD}\U{FFFD}";
    assert PyLines(Seen(line)) == [first, six];
  }

  lemma {:induction false} SeenReplaced()
    ensures Seen("data:\U{00A0}\U{000B}\U{FFFD}\U{FFFD}")
         == "data:\U{FFFD}\U{FFFD}" + ['\U{000B}'] + "\U{FFFD}\U{FFFD}\U{FFFD}\U{FFFD}\U{FFFD}\U{FFFD}"
  {
    hide Seen;
    SeenAscii("data:");
    SeenAscii("\U{000B}");
    SeenWide();
    SeenConcat("data:", "\U{00A0}");
    SeenConcat("data:\U{00A0}", "\U{000B}");
    SeenConcat("\U{FFFD}", "\U{FFFD}");
    SeenConcat("data:\U{00A0}\U{000B}", "\U{FFFD}\U{FFFD}");
    assert "data:" + "\U{00A0}" == "data:\U{00A0}" && "data:\U{00A0}" + "\U{000B}" == "data:\U{00A0}\U{000B}";
    assert "\U{FFFD}" + "\U{FFFD}" == "\U{FFFD}\U{FFFD}";
    assert "data:\U{00A0}\U{000B}" + "\U{FFFD}\U{FFFD}" == "data:\U{00A0}\U{000B}\U{FFFD}\U{FFFD}";
  }

  lemma {:induction false} SeenWide()
    ensures Seen("\U{00A0}") == "\U{FFFD}\U{FFFD}" && Seen("\U{FFFD}") == "\U{FFFD}\U{FFFD}\U{FFFD}"
  {
    assert Utf8("\U{00A0}") == Utf8Char('\U{00A0}') + Utf8("");
    assert Utf8Char('\U{00A0}') == [0xC2, 0xA0];
    assert Utf8("\U{FFFD}") == Utf8Char('\U{FFFD}') + Utf8("");
    assert Utf8Char('\U{FFFD}') == [0xEF, 0xBF, 0xBD];
  }
}

/** Streams line by line: what each client finds in the lines between two line feeds, and when two
    clients that go through the same lines find the same payloads. */
module StreamLines {
  import opened Chars
  import opened EventStream

  // Collecting from lines

  /** What `find` finds in the lines, one line after another. */
  function Gather(lines: seq<string>, find: string -> seq<string>): seq<string> {
    if lines == [] then [] else find(lines[0]) + Gather(lines[1..], find)
  }

  lemma {:induction false} GatherCons(line: string, lines: seq<string>, find: string -> seq<string>)
    ensures Gather([line] + lines, find) == find(line) + Gather(lines, find)
  {
    assert ([line] + lines)[1..] == lines;
  }

  lemma {:induction false} GatherNone(find: string -> seq<string>)
    ensures Gather([], find) == []
  {
  }

  lemma {:induction false} GatherConcat(a: seq<string>, b: seq<string>, find: string -> seq<string>)
    ensures Gather(a + b, find) == Gather(a, find) + Gather(b, find)
  {
    hide Gather;
    if a == [] {
      GatherNone(find);
      assert a + b == b;
    } else {
      GatherConcat(a[1..], b, find);
      GatherCons(a[0], a[1..], find);
      GatherCons(a[0], a[1..] + b, find);
      assert a == [a[0]] + a[1..] && a + b == [a[0]] + (a[1..] + b);
    }
  }

  /** Every line gives at least as much by `f` as by `g`. */
  predicate NoLess(lines: seq<string>, f: string -> seq<string>, g: string -> seq<string>) {
    forall k | 0 <= k < |lines| :: |f(lines[k])| >= |g(lines[k])|
  }

  predicate SameOn(lines: seq<string>, f: string -> seq<string>, g: string -> seq<string>) {
    forall k | 0 <= k < |lines| :: f(lines[k]) == g(lines[k])
  }

  lemma {:induction false} SameOnCons(lines: seq<string>, f: string -> seq<string>, g: string -> seq<string>)
    requires lines != []
    ensures SameOn(lines, f, g) <==> f(lines[0]) == g(lines[0]) && SameOn(lines[1..], f, g)
    ensures NoLess(lines, f, g) ==> |f(lines[0])| >= |g(lines[0])| && NoLess(lines[1..], f, g)
  {
    assert lines == [lines[0]] + lines[1..];
  }

  /** Where no line gives less, the whole is the same exactly when every line gives the same. */
  lemma {:induction false} GatherExact(lines: seq<string>, f: string -> seq<string>, g: string -> seq<string>)
    requires NoLess(lines, f, g)
    ensures |Gather(lines, f)| >= |Gather(lines, g)|
    ensures Gather(lines, f) == Gather(lines, g) <==> SameOn(lines, f, g)
  {
    hide SameOn, NoLess;
    if lines == [] {
      assert SameOn(lines, f, g) by { NoLines(f, g); }
    } else {
      SameOnCons(lines, f, g);
      GatherExact(lines[1..], f, g);
      SplitEqual(f(lines[0]), Gather(lines[1..], f), g(lines[0]), Gather(lines[1..], g));
    }
  }

  lemma {:induction false} NoLines(f: string -> seq<string>, g: string -> seq<string>)
    ensures SameOn([], f, g)
  {
  }

  lemma {:induction false} SplitEqual(a: seq<string>, b: seq<string>, c: seq<string>, d: seq<string>)
    requires |a| >= |c| && |b| >= |d|
    ensures a + b == c + d <==> a == c && b == d
  {
    if a + b == c + d {
      assert |a + b| == |c + d|;
      assert a == (a + b)[..|a|] && b == (a + b)[|a|..];
      assert c == (c + d)[..|c|] && d == (c + d)[|c|..];
    }
  }

  // The lines of a stream

  lemma {:induction false} SplitStep(line: string, tail: string)
    requires All(line, NotChar('\n'))
    ensures SplitLines(line + "\n" + tail) == [line] + SplitLines(tail)
  {
    var s := line + "\n" + tail;
    assert s[..|line|] == line && s[|line| + 1..] == tail;
    RunEndUnique(s, 0, |line|, NotChar('\n'));
  }

  lemma {:induction false} SplitOne(line: string)
    requires All(line, NotChar('\n'))
    ensures SplitLines(line) == [line]
  {
    assert line[..|line|] == line;
    RunEndUnique(line, 0, |line|, NotChar('\n'));
  }

  lemma {:induction false} SplitBlank()
    ensures SplitLines("") == [""]
  {
  }

  lemma {:induction false} SplitConcat(a: string, b: string)
    ensures SplitLines(a + "\n" + b) == SplitLines(a) + SplitLines(b)
    decreases |a|
  {
    hide SplitLines, All;
    var j := RunEnd(a, 0, NotChar('\n'));
    if j == |a| {
      assert a[0..j] == a;
      SplitOne(a);
      SplitStep(a, b);
    } else {
      var line, tail := a[0..j], a[j + 1..];
      SplitConcat(tail, b);
      assert a == line + "\n" + tail;
      assert a + "\n" + b == line + "\n" + (tail + "\n" + b);
      SplitStep(line, tail);
      SplitStep(line, tail + "\n" + b);
    }
  }

  /** The lines of all events. */
  function AllLines(events: seq<string>): seq<string> {
    if events == [] then [] else SplitLines(events[0]) + AllLines(events[1..])
  }

  lemma {:induction false} OneEvent(event: string)
    ensures AllLines([event]) == SplitLines(event)
  {
    hide SplitLines;
    assert [event][1..] == [];
  }

  /** A stream of one event of one line. */
  lemma {:induction false} OneLineStream(line: string, find: string -> seq<string>)
    requires All(line, NotChar('\n')) && NoBreak(line + "\n")
    ensures CutEvents(line + "\n\n") == Cut([line], "")
    ensures Gather(AllLines([line]), find) == find(line)
    ensures find("") == [] ==> Gather(SplitLines(line + "\n\n"), find) == find(line)
  {
    hide SplitLines, Gather, NoBreak, CutEvents;
    assert line + "\n\n" == line + "\n\n" + "";
    NothingBreaks();
    CutCons(line, "");
    CutRest("");
    assert [line] + [] == [line] && [""] + [] == [""];
    SplitOne(line);
    SplitBlank();
    OneEvent(line);
    GatherNone(find);
    GatherCons(line, [], find);
    GatherCons("", [], find);
    if find("") == [] {
      EventGathers(line, "", find);
    }
  }

  lemma {:induction false} NothingBreaks()
    ensures NoBreak("")
  {
  }

  /** Events and rest go through the same lines as the stream they make up; only a search that finds
      nothing in a blank line cannot tell the difference. */
  lemma {:induction false} StreamGathers(events: seq<string>, rest: string, find: string -> seq<string>)
    requires find("") == []
    ensures Gather(SplitLines(Join(events) + rest), find)
         == Gather(AllLines(events), find) + Gather(SplitLines(rest), find)
    decreases |events|
  {
    hide SplitLines, Gather;
    if events == [] {
      GatherNone(find);
      assert Join(events) + rest == rest;
    } else {
      var tail := Join(events[1..]) + rest;
      assert Join(events) + rest == events[0] + "\n\n" + tail;
      EventGathers(events[0], tail, find);
      StreamGathers(events[1..], rest, find);
      GatherConcat(SplitLines(events[0]), AllLines(events[1..]), find);
      var a, b, c := Gather(SplitLines(events[0]), find), Gather(AllLines(events[1..]), find),
          Gather(SplitLines(rest), find);
      assert a + (b + c) == (a + b) + c;
    }
  }

  lemma {:induction false} EventGathers(event: string, tail: string, find: string -> seq<string>)
    requires find("") == []
    ensures Gather(SplitLines(event + "\n\n" + tail), find)
         == Gather(SplitLines(event), find) + Gather(SplitLines(tail), find)
  {
    hide SplitLines, Gather;
    assert event + "\n\n" + tail == event + "\n" + ("" + "\n" + tail);
    SplitConcat(event, "" + "\n" + tail);
    SplitConcat("", tail);
    SplitBlank();
    GatherConcat(SplitLines(event), [""] + SplitLines(tail), find);
    GatherCons("", SplitLines(tail), find);
    assert [] + Gather(SplitLines(tail), find) == Gather(SplitLines(tail), find);
  }

  // The TypeScript client, line by line

  function TsPayload(line: string): seq<string> {
    LinePayload(line, JsSpace)
  }

  lemma {:induction false} TsLines(lines: seq<string>)
    ensures LinesPayloads(lines, JsSpace) == Gather(lines, TsPayload)
  {
    hide LinePayload;
    if lines != [] {
      TsLines(lines[1..]);
    }
  }

  lemma {:induction false} TsGathers(events: seq<string>)
    ensures Payloads(TypeScript(), events) == Gather(AllLines(events), TsPayload)
  {
    hide Gather, SplitLines, TsPayload, JsSpace;
    if events == [] {
      GatherNone(TsPayload);
    } else {
      TsGathers(events[1..]);
      TsEvent(events[0]);
      GatherConcat(SplitLines(events[0]), AllLines(events[1..]), TsPayload);
    }
  }

  lemma {:induction false} TsEvent(event: string)
    ensures EventPayloads(TypeScript(), event) == Gather(SplitLines(event), TsPayload)
  {
    TsLines(SplitLines(event));
  }

  // Byte-order marks

  const MARK := '\U{FEFF}'

  /** The text the TypeScript client holds when `t` was sent: its decoder drops a mark in front. */
  function Held(t: string): string {
    if t != "" && t[0] == MARK then t[1..] else t
  }

  /** A mark hides the word "data:" directly behind it from a client that does not drop it. */
  predicate MarkedData(t: string) {
    t != "" && t[0] == MARK && DATA <= t[1..]
  }

  lemma {:induction false} AsciiUnmarked(t: string)
    requires IsAscii(t)
    ensures !MarkedData(t)
  {
  }

  lemma {:induction false} NoBreakCons(a: string, b: string)
    requires NoBreak(b) && forall k | 0 <= k < |a| :: a[k] == '\n' ==> |a| == 1 && (b == "" || b[0] != '\n')
    ensures NoBreak(a + b)
  {
    forall k | 0 <= k < |a + b| ensures !IsBreak(a + b, k) {
      if k >= |a| {
        assert !IsBreak(b, k - |a|);
      }
    }
  }

  lemma {:induction false} MarkSplit(e: string)
    ensures SplitLines(e) != []
    ensures SplitLines([MARK] + e) == [[MARK] + SplitLines(e)[0]] + SplitLines(e)[1..]
    ensures SplitLines(e)[0] <= e
  {
    hide SplitLines;
    var j := RunEnd(e, 0, NotChar('\n'));
    var line := e[..j];
    assert e[0..j] == line;
    if j == |e| {
      assert line == e;
      SplitOne(e);
      SplitOne([MARK] + e);
    } else {
      var tail := e[j + 1..];
      assert e == line + "\n" + tail;
      assert [MARK] + e == ([MARK] + line) + "\n" + tail;
      SplitStep(line, tail);
      SplitStep([MARK] + line, tail);
    }
  }

  lemma {:induction false} MarkEvent(e: string)
    requires !(DATA <= e)
    ensures EventPayloads(TypeScript(), [MARK] + e) == EventPayloads(TypeScript(), e)
  {
    hide SplitLines, JsSpace, Trim;
    MarkSplit(e);
    var first, later := SplitLines(e)[0], SplitLines(e)[1..];
    assert SplitLines(e) == [first] + later;
    assert ([MARK] + first)[0] == MARK && DATA[0] == 'd';
    assert !(DATA <= first) && !(DATA <= [MARK] + first);
    PayloadsStep(first, later);
    PayloadsStep([MARK] + first, later);
  }

  lemma {:induction false} PayloadsStep(line: string, lines: seq<string>)
    ensures LinesPayloads([line] + lines, JsSpace) == LinePayload(line, JsSpace) + LinesPayloads(lines, JsSpace)
  {
    hide LinePayload;
    assert ([line] + lines)[1..] == lines;
  }

  lemma {:induction false} MarkCut(u: string)
    ensures var c := CutEvents(u);
            CutEvents([MARK] + u) == if c.events == [] then Cut([], [MARK] + u)
                                     else Cut([[MARK] + c.events[0]] + c.events[1..], c.rest)
  {
    hide CutEvents, EventsWhole, NoBreak;
    var c := CutEvents(u);
    CutSound(u);
    if c.events == [] {
      assert u == c.rest;
      NoBreakCons([MARK], u);
      CutRest([MARK] + u);
    } else {
      var e, es := c.events[0], c.events[1..];
      assert c.events == [e] + es;
      JoinCons(e, es);
      NoBreakCons([MARK], e + "\n");
      assert [MARK] + (e + "\n") == ([MARK] + e) + "\n";
      JoinCons([MARK] + e, es);
      assert [MARK] + u == Join([[MARK] + e] + es) + c.rest;
      CutComplete([MARK] + u, [[MARK] + e] + es, c.rest);
    }
  }

  /** Unless the mark stands directly before "data:", dropping it makes no difference. */
  lemma {:induction false} HeldPayloads(t: string)
    requires !MarkedData(t)
    ensures Payloads(TypeScript(), CutEvents(Held(t)).events) == Payloads(TypeScript(), CutEvents(t).events)
  {
    hide CutEvents, EventPayloads, NoBreak, EventsWhole;
    if t != "" && t[0] == MARK {
      var u := t[1..];
      var c := CutEvents(u);
      assert t == [MARK] + u;
      MarkCut(u);
      if c.events != [] {
        CutSound(u);
        assert c.events[0] <= u;
        MarkEvent(c.events[0]);
        assert ([[MARK] + c.events[0]] + c.events[1..])[1..] == c.events[1..];
      }
    }
  }

  // Trimming

  lemma {:induction false} TrimRightAgrees(s: string, p: char -> bool, q: char -> bool)
    requires forall k | 0 <= k < |s| :: p(s[k]) == q(s[k])
    ensures TrimRight(s, p) == TrimRight(s, q)
  {
    if s != "" {
      TrimRightAgrees(s[..|s| - 1], p, q);
    }
  }

  lemma {:induction false} TrimLeftAgrees(s: string, p: char -> bool, q: char -> bool)
    requires forall k | 0 <= k < |s| :: p(s[k]) == q(s[k])
    ensures TrimLeft(s, p) == TrimLeft(s, q)
  {
    if s != "" {
      TrimLeftAgrees(s[1..], p, q);
    }
  }

  /** Trimming depends only on the white space that occurs in the text. */
  lemma {:induction false} TrimAgrees(s: string, p: char -> bool, q: char -> bool)
    requires forall k | 0 <= k < |s| :: p(s[k]) == q(s[k])
    ensures Trim(s, p) == Trim(s, q)
  {
    TrimRightAgrees(s, p, q);
    assert TrimRight(s, q) <= s;
    TrimLeftAgrees(TrimRight(s, q), p, q);
  }

  /** A text that starts with non-blank characters keeps them when trimmed on the right. */
  lemma {:induction false} TrimRightKeeps(head: string, tail: string, space: char -> bool)
    requires head != "" && !space(head[|head| - 1])
    ensures TrimRight(head + tail, space) == head + TrimRight(tail, space)
    decreases |tail|
  {
    if tail == "" {
      assert head + tail == head;
    } else if space(tail[|tail| - 1]) {
      TrimRightKeeps(head, tail[..|tail| - 1], space);
      assert (head + tail)[..|head + tail| - 1] == head + tail[..|tail| - 1];
    }
  }

  lemma {:induction false} TrimRightTwice(s: string, space: char -> bool)
    ensures TrimRight(TrimRight(s, space), space) == TrimRight(s, space)
  {
  }
}

/** Server-sent event streams as whole strings: events, lines, payloads, and what a chat client
    makes of the payloads. Strings are decoded text. */
module EventStream {
  import opened Outcomes
  import opened Chars

  // Cutting a stream at blank lines

  /** The leftmost "\n\n" at or after `i`. */
  function BreakFrom(s: string, i: nat): (r: Option<nat>)
    ensures r.Some? ==> i <= r.value && r.value + 1 < |s| && s[r.value] == '\n' && s[r.value + 1] == '\n'
    ensures r.Some? ==> forall k | i <= k < r.value :: !IsBreak(s, k)
    ensures r.None? ==> forall k | i <= k < |s| :: !IsBreak(s, k)
    decreases |s| - i
  {
    if i + 1 >= |s| then None
    else if IsBreak(s, i) then Some(i)
    else BreakFrom(s, i + 1)
  }

  predicate IsBreak(s: string, k: nat) {
    k + 1 < |s| && s[k] == '\n' && s[k + 1] == '\n'
  }

  predicate NoBreak(s: string) {
    forall k | 0 <= k < |s| :: !IsBreak(s, k)
  }

  /** The complete events of a stream, and the text behind the last of them. */
  datatype Cut = Cut(events: seq<string>, rest: string)

  function CutEvents(s: string): Cut
    decreases |s|
  {
    match BreakFrom(s, 0)
    case None => Cut([], s)
    case Some(i) =>
      var c := CutEvents(s[i + 2..]);
      Cut([s[..i]] + c.events, c.rest)
  }

  /** The events written one after another, each with its blank line. */
  function Join(events: seq<string>): string {
    if events == [] then "" else events[0] + "\n\n" + Join(events[1..])
  }

  /** No event contains a break, not even with the line break that ends it. */
  predicate EventsWhole(events: seq<string>) {
    forall k | 0 <= k < |events| :: NoBreak(events[k] + "\n")
  }

  lemma {:induction false} BreakUnique(s: string, i: nat)
    requires IsBreak(s, i) && forall k | 0 <= k < i :: !IsBreak(s, k)
    ensures BreakFrom(s, 0) == Some(i)
  {
    var r := BreakFrom(s, 0);
    assert r.None? ==> !IsBreak(s, i);
    assert r.Some? ==> IsBreak(s, r.value) && (i < r.value ==> !IsBreak(s, i));
  }

  /** What stands before the leftmost break is one whole event. */
  lemma {:induction false} HeadWhole(s: string, i: nat)
    requires BreakFrom(s, 0) == Some(i)
    ensures s == s[..i] + "\n\n" + s[i + 2..] && NoBreak(s[..i] + "\n")
  {
    var e := s[..i];
    forall k | 0 <= k < |e + "\n"| ensures !IsBreak(e + "\n", k) {
      assert k < i ==> !IsBreak(s, k);
    }
  }

  lemma {:induction false} JoinCons(e: string, events: seq<string>)
    ensures Join([e] + events) == e + "\n\n" + Join(events)
    ensures EventsWhole([e] + events) <==> NoBreak(e + "\n") && EventsWhole(events)
  {
    hide NoBreak;
    assert ([e] + events)[1..] == events;
    if EventsWhole([e] + events) {
      assert NoBreak(([e] + events)[0] + "\n");
      assert forall k | 0 <= k < |events| :: events[k] == ([e] + events)[k + 1];
    }
  }

  lemma {:induction false} CutSound(s: string)
    ensures var c := CutEvents(s); s == Join(c.events) + c.rest && NoBreak(c.rest) && EventsWhole(c.events)
    decreases |s|
  {
    hide NoBreak, EventsWhole, Join, CutEvents;
    match BreakFrom(s, 0)
    case None => NothingCut(s);
    case Some(i) =>
      var tail := s[i + 2..];
      CutSound(tail);
      HeadWhole(s, i);
      FirstCut(s, i);
      var c := CutEvents(tail);
      JoinCons(s[..i], c.events);
      Regroup(s, s[..i] + "\n\n", Join(c.events), c.rest);
  }

  lemma {:induction false} Regroup(s: string, a: string, b: string, c: string)
    requires s == a + (b + c)
    ensures s == (a + b) + c
  {
  }

  lemma {:induction false} FirstCut(s: string, i: nat)
    requires BreakFrom(s, 0) == Some(i)
    ensures var c := CutEvents(s[i + 2..]); CutEvents(s) == Cut([s[..i]] + c.events, c.rest)
  {
  }

  lemma {:induction false} NothingCut(s: string)
    requires BreakFrom(s, 0).None?
    ensures CutEvents(s) == Cut([], s) && NoBreak(s) && EventsWhole([]) && s == Join([]) + s
  {
  }

  /** A whole event and a blank line in front are cut off first. */
  lemma {:induction false} CutCons(e: string, tail: string)
    requires NoBreak(e + "\n")
    ensures CutEvents(e + "\n\n" + tail) == Cut([e] + CutEvents(tail).events, CutEvents(tail).rest)
  {
    var s := e + "\n\n" + tail;
    forall k | 0 <= k < |e| ensures !IsBreak(s, k) {
      assert !IsBreak(e + "\n", k);
    }
    BreakUnique(s, |e|);
    assert s[|e| + 2..] == tail && s[..|e|] == e;
  }

  lemma {:induction false} CutRest(rest: string)
    requires NoBreak(rest)
    ensures CutEvents(rest) == Cut([], rest)
  {
    match BreakFrom(rest, 0)
    case None =>
    case Some(j) => assert IsBreak(rest, j);
  }

  lemma {:induction false} CutComplete(s: string, events: seq<string>, rest: string)
    requires s == Join(events) + rest && NoBreak(rest) && EventsWhole(events)
    ensures CutEvents(s) == Cut(events, rest)
    decreases |events|
  {
    hide NoBreak, EventsWhole, CutEvents;
    if events == [] {
      CutRest(rest);
      assert s == rest;
    } else {
      var tail := Join(events[1..]) + rest;
      assert events == [events[0]] + events[1..];
      JoinCons(events[0], events[1..]);
      CutComplete(tail, events[1..], rest);
      CutCons(events[0], tail);
      assert s == events[0] + "\n\n" + tail;
    }
  }

  /** Conservation: the cut of a stream is its only decomposition into whole events, each closed
      by a blank line, and an unfinished rest. */
  lemma {:induction false} CutExact(s: string, events: seq<string>, rest: string)
    ensures CutEvents(s) == Cut(events, rest) <==> s == Join(events) + rest && NoBreak(rest) && EventsWhole(events)
  {
    hide Join, NoBreak, EventsWhole, CutEvents;
    CutSound(s);
    if s == Join(events) + rest && NoBreak(rest) && EventsWhole(events) {
      CutComplete(s, events, rest);
    }
  }

  lemma {:induction false} JoinConcat(a: seq<string>, b: seq<string>)
    ensures Join(a + b) == Join(a) + Join(b)
  {
    if a == [] {
      assert a + b == b;
    } else {
      JoinConcat(a[1..], b);
      assert (a + b)[1..] == a[1..] + b;
    }
  }

  /** What arrives later is cut together with what was left over, and changes no earlier event. */
  lemma {:induction false} CutAppend(s: string, more: string)
    ensures var c := CutEvents(s);
            var d := CutEvents(c.rest + more);
            CutEvents(s + more) == Cut(c.events + d.events, d.rest)
  {
    hide CutEvents, Join;
    var c := CutEvents(s);
    var d := CutEvents(c.rest + more);
    CutSound(s);
    CutSound(c.rest + more);
    JoinConcat(c.events, d.events);
    assert s + more == Join(c.events) + (c.rest + more);
    CutComplete(s + more, c.events + d.events, d.rest);
  }

  // Lines, trimming, payloads

  /** split("\n"): always at least one line. */
  function SplitLines(s: string): seq<string>
    decreases |s|
  {
    var j := RunEnd(s, 0, NotChar('\n'));
    if j == |s| then [s] else [s[..j]] + SplitLines(s[j + 1..])
  }

  /** The lines with a line feed between neighbours. */
  function JoinLines(lines: seq<string>): string
    requires lines != []
  {
    if |lines| == 1 then lines[0] else lines[0] + "\n" + JoinLines(lines[1..])
  }

  predicate NoLineFeeds(lines: seq<string>) {
    forall k | 0 <= k < |lines| :: All(lines[k], NotChar('\n'))
  }

  lemma {:induction false} SplitSound(s: string)
    ensures SplitLines(s) != [] && JoinLines(SplitLines(s)) == s && NoLineFeeds(SplitLines(s))
    decreases |s|
  {
    hide All;
    var j := RunEnd(s, 0, NotChar('\n'));
    assert s[0..j] == s[..j];
    if j == |s| {
      assert s[..j] == s;
    } else {
      SplitSound(s[j + 1..]);
      assert SplitLines(s)[1..] == SplitLines(s[j + 1..]);
      assert s == s[..j] + "\n" + s[j + 1..];
    }
  }

  lemma {:induction false} SplitComplete(lines: seq<string>)
    requires lines != [] && NoLineFeeds(lines)
    ensures SplitLines(JoinLines(lines)) == lines
  {
    var s, line := JoinLines(lines), lines[0];
    assert s[0..|line|] == line;
    RunEndUnique(s, 0, |line|, NotChar('\n'));
    if |lines| == 1 {
      assert lines == [line];
    } else {
      assert s[..|line|] == line && s[|line| + 1..] == JoinLines(lines[1..]);
      SplitComplete(lines[1..]);
    }
  }

  /** Splitting at line feeds and joining with them are inverse to each other. */
  lemma {:induction false} SplitExact(s: string, lines: seq<string>)
    ensures SplitLines(s) == lines <==> lines != [] && NoLineFeeds(lines) && JoinLines(lines) == s
  {
    hide NoLineFeeds, SplitLines, JoinLines;
    SplitSound(s);
    if lines != [] && NoLineFeeds(lines) && JoinLines(lines) == s {
      SplitComplete(lines);
    }
  }

  /** Python's str.splitlines ends lines at these characters, and "\r\n" is one end. */
  predicate IsPyBreak(c: char) {
    || '\n' <= c <= '\r' || '\U{001C}' <= c <= '\U{001E}' || c == '\U{0085}'
    || c == '\U{2028}' || c == '\U{2029}'
  }

  function NotPyBreak(): char -> bool {
    c => !IsPyBreak(c)
  }

  function PyLines(s: string): seq<string>
    decreases |s|
  {
    if s == "" then []
    else
      var j := RunEnd(s, 0, NotPyBreak());
      if j == |s| then [s]
      else if s[j] == '\r' && j + 1 < |s| && s[j + 1] == '\n' then [s[..j]] + PyLines(s[j + 2..])
      else [s[..j]] + PyLines(s[j + 1..])
  }

  /** White space of the three trim functions, from the Unicode blank characters. */
  predicate IsBlankChar(c: char) {
    || '\t' <= c <= '\r' || c == ' ' || c == '\U{00A0}' || c == '\U{1680}' || '\U{2000}' <= c <= '\U{200A}'
    || c == '\U{2028}' || c == '\U{2029}' || c == '\U{202F}' || c == '\U{205F}' || c == '\U{3000}'
  }

  predicate JsSpace(c: char) { IsBlankChar(c) || c == '\U{FEFF}' }
  predicate GoSpace(c: char) { IsBlankChar(c) || c == '\U{0085}' }
  predicate PySpace(c: char) { IsBlankChar(c) || c == '\U{0085}' || '\U{001C}' <= c <= '\U{001F}' }

  function TrimRight(s: string, space: char -> bool): (r: string)
    ensures r <= s && (r != "" ==> !space(r[|r| - 1]))
  {
    if s != "" && space(s[|s| - 1]) then TrimRight(s[..|s| - 1], space) else s
  }

  function TrimLeft(s: string, space: char -> bool): string {
    if s != "" && space(s[0]) then TrimLeft(s[1..], space) else s
  }

  function Trim(s: string, space: char -> bool): string {
    TrimLeft(TrimRight(s, space), space)
  }

  /** `t` is `s` without the white space around it. */
  ghost predicate Trimmed(s: string, t: string, space: char -> bool) {
    && (t != "" ==> !space(t[0]) && !space(t[|t| - 1]))
    && exists a: string, b: string :: s == a + t + b && All(a, space) && All(b, space)
  }

  lemma {:induction false} TrimRightParts(s: string, space: char -> bool) returns (b: string)
    ensures s == TrimRight(s, space) + b && All(b, space)
  {
    if s != "" && space(s[|s| - 1]) {
      var c := TrimRightParts(s[..|s| - 1], space);
      b := c + [s[|s| - 1]];
    } else {
      b := "";
    }
  }

  lemma {:induction false} TrimLeftParts(s: string, space: char -> bool) returns (a: string)
    ensures s == a + TrimLeft(s, space) && All(a, space)
    ensures TrimLeft(s, space) != "" ==> !space(TrimLeft(s, space)[0])
  {
    if s != "" && space(s[0]) {
      var c := TrimLeftParts(s[1..], space);
      a := [s[0]] + c;
    } else {
      a := "";
    }
  }

  lemma {:induction false} TrimRightDrops(t: string, b: string, space: char -> bool)
    requires All(b, space) && (t != "" ==> !space(t[|t| - 1]))
    ensures TrimRight(t + b, space) == t
    decreases |b|
  {
    if b == "" {
      assert t + b == t;
    } else {
      assert (t + b)[..|t + b| - 1] == t + b[..|b| - 1];
      TrimRightDrops(t, b[..|b| - 1], space);
    }
  }

  lemma {:induction false} TrimLeftDrops(a: string, t: string, space: char -> bool)
    requires All(a, space) && (t != "" ==> !space(t[0]))
    ensures TrimLeft(a + t, space) == t
    decreases |a|
  {
    if a == "" {
      assert a + t == t;
    } else {
      assert (a + t)[1..] == a[1..] + t;
      TrimLeftDrops(a[1..], t, space);
    }
  }

  /** Trim removes the white space around a text, all of it and nothing else. */
  lemma {:induction false} TrimExact(s: string, t: string, space: char -> bool)
    ensures Trim(s, space) == t <==> Trimmed(s, t, space)
  {
    hide TrimLeft, TrimRight, All;
    var u := TrimRight(s, space);
    var b := TrimRightParts(s, space);
    var a := TrimLeftParts(u, space);
    var v := TrimLeft(u, space);
    assert s == a + v + b;
    assert v != "" ==> v[|v| - 1] == u[|u| - 1];
    assert Trimmed(s, v, space);
    if Trimmed(s, t, space) {
      var x: string, y: string :| s == x + t + y && All(x, space) && All(y, space);
      if t == "" {
        AllConcat(x, y, space);
        assert s == "" + (x + y);
        TrimRightDrops("", x + y, space);
        TrimLeftDrops("", "", space);
        assert "" + "" == "";
      } else {
        assert (x + t)[|x + t| - 1] == t[|t| - 1];
        TrimRightDrops(x + t, y, space);
        TrimLeftDrops(x, t, space);
      }
    }
  }

  lemma {:induction false} AllConcat(a: string, b: string, p: char -> bool)
    ensures All(a, p) && All(b, p) ==> All(a + b, p)
  {
  }

  const DATA := "data:"

  /** The payload of a line that starts with "data:", as a list of at most one. */
  function LinePayload(line: string, space: char -> bool): seq<string> {
    if DATA <= line then [Trim(line[5..], space)] else []
  }

  function LinesPayloads(lines: seq<string>, space: char -> bool): seq<string> {
    if lines == [] then [] else LinePayload(lines[0], space) + LinesPayloads(lines[1..], space)
  }

  // Clients

  /** How a client splits an event into lines, trims a payload and treats invalid JSON. */
  datatype Dialect = Dialect(lines: string -> seq<string>, space: char -> bool, skipsBadJson: bool)

  /** chatStream of the TypeScript client throws on invalid JSON. */
  function TypeScript(): Dialect {
    Dialect(SplitLines, JsSpace, false)
  }

  /** chat_stream of the Python client skips invalid JSON. */
  function Python(): Dialect {
    Dialect(PyLines, PySpace, true)
  }

  function EventPayloads(d: Dialect, event: string): seq<string> {
    LinesPayloads(d.lines(event), d.space)
  }

  function Payloads(d: Dialect, events: seq<string>): seq<string> {
    if events == [] then [] else EventPayloads(d, events[0]) + Payloads(d, events[1..])
  }

  /** What JSON decoding makes of a payload: the done marker, the contents to yield, a value whose
      shape makes the client throw after some contents, or no JSON at all. */
  datatype Decoded<+D> = Marker | Deltas(contents: seq<D>) | Misshapen(contents: seq<D>) | BadJson

  datatype Ending = Open | Done | Thrown

  /** What a client has yielded, and whether it goes on. */
  datatype Progress<+D> = Progress(yielded: seq<D>, ending: Ending)

  /** One payload after `p`: nothing more happens once the stream has ended. */
  function Handle<D>(p: Progress<D>, payload: string, decode: string -> Decoded<D>, skipsBadJson: bool): Progress<D> {
    if !p.ending.Open? then p
    else if payload == "[DONE]" then p.(ending := Done)
    else
      match decode(payload)
      case Marker => p.(ending := Done)
      case Deltas(ds) => p.(yielded := p.yielded + ds)
      case Misshapen(ds) => Progress(p.yielded + ds, Thrown)
      case BadJson => if skipsBadJson then p else p.(ending := Thrown)
  }

  function HandleAll<D>(p: Progress<D>, payloads: seq<string>, decode: string -> Decoded<D>,
                        skipsBadJson: bool): Progress<D>
    decreases |payloads|
  {
    if payloads == [] then p
    else HandleAll(Handle(p, payloads[0], decode, skipsBadJson), payloads[1..], decode, skipsBadJson)
  }

  function Start<D>(): Progress<D> {
    Progress([], Open)
  }

  /** What a client makes of a whole stream: the payloads of its complete events, in order, up to
      the first terminator. */
  function Whole<D>(d: Dialect, s: string, decode: string -> Decoded<D>): Progress<D> {
    HandleAll(Start(), Payloads(d, CutEvents(s).events), decode, d.skipsBadJson)
  }

  lemma {:induction false} HandleAllConcat<D>(p: Progress<D>, a: seq<string>, b: seq<string>,
                                              decode: string -> Decoded<D>, skips: bool)
    ensures HandleAll(p, a + b, decode, skips) == HandleAll(HandleAll(p, a, decode, skips), b, decode, skips)
    decreases |a|
  {
    hide Handle;
    if a == [] {
      assert a + b == b;
    } else {
      HandleAllConcat(Handle(p, a[0], decode, skips), a[1..], b, decode, skips);
      assert (a + b)[1..] == a[1..] + b;
    }
  }

  lemma {:induction false} HandleAllEnded<D>(p: Progress<D>, a: seq<string>, decode: string -> Decoded<D>, skips: bool)
    requires !p.ending.Open?
    ensures HandleAll(p, a, decode, skips) == p
    decreases |a|
  {
    if a != [] {
      HandleAllEnded(p, a[1..], decode, skips);
    }
  }

  /** What has been yielded is never taken back. */
  lemma {:induction false} HandleAllGrows<D>(p: Progress<D>, payloads: seq<string>, decode: string -> Decoded<D>,
                                             skips: bool)
    ensures p.yielded <= HandleAll(p, payloads, decode, skips).yielded
    decreases |payloads|
  {
    if payloads != [] {
      HandleAllGrows(Handle(p, payloads[0], decode, skips), payloads[1..], decode, skips);
    }
  }

  lemma {:induction false} PayloadsConcat(d: Dialect, a: seq<string>, b: seq<string>)
    ensures Payloads(d, a + b) == Payloads(d, a) + Payloads(d, b)
  {
    hide EventPayloads;
    if a == [] {
      assert a + b == b;
    } else {
      PayloadsConcat(d, a[1..], b);
      assert (a + b)[1..] == a[1..] + b;
    }
  }

  /** A client that goes on is never ahead: with more input it has yielded at least as much, in
      the same order, and once it has ended no input changes anything. */
  lemma {:induction false} WholeAppend<D>(d: Dialect, s: string, more: string, decode: string -> Decoded<D>)
    ensures var p := Whole(d, s, decode);
            Whole(d, s + more, decode) ==
            HandleAll(p, Payloads(d, CutEvents(CutEvents(s).rest + more).events), decode, d.skipsBadJson)
    ensures !Whole(d, s, decode).ending.Open? ==> Whole(d, s + more, decode) == Whole(d, s, decode)
  {
    hide CutEvents, Payloads, HandleAll;
    var a, b := CutEvents(s).events, CutEvents(CutEvents(s).rest + more).events;
    CutAppend(s, more);
    PayloadsConcat(d, a, b);
    HandleAllConcat(Start(), Payloads(d, a), Payloads(d, b), decode, d.skipsBadJson);
    if !Whole(d, s, decode).ending.Open? {
      HandleAllEnded(Whole(d, s, decode), Payloads(d, b), decode, d.skipsBadJson);
    }
  }
}

/** White space and line ends of the three clients by code point, as they show in the payloads that
    come out. Nothing here is stated through the clients' own tables. */
module Blanks {
  import opened Chars
  import opened EventStream
  import opened StreamLines
  import LineScanner
  import opened ClientAgreement

  // Codes

  /** White space of all three clients, from the Unicode blanks. */
  predicate CommonCode(n: int) {
    || 0x09 <= n <= 0x0D || n == 0x20 || n == 0xA0 || n == 0x1680 || 0x2000 <= n <= 0x200A
    || n == 0x2028 || n == 0x2029 || n == 0x202F || n == 0x205F || n == 0x3000
  }

  predicate JsCode(n: int) { CommonCode(n) || n == 0xFEFF }
  predicate GoCode(n: int) { CommonCode(n) || n == 0x85 }
  predicate PyCode(n: int) { CommonCode(n) || n == 0x85 || 0x1C <= n <= 0x1F }

  /** Line ends of Python. */
  predicate PyEndCode(n: int) {
    0x0A <= n <= 0x0D || 0x1C <= n <= 0x1E || n == 0x85 || n == 0x2028 || n == 0x2029
  }

  lemma {:induction false} Codes(c: char)
    ensures JsSpace(c) <==> JsCode(c as int)
    ensures GoSpace(c) <==> GoCode(c as int)
    ensures PySpace(c) <==> PyCode(c as int)
    ensures IsPyBreak(c) <==> PyEndCode(c as int)
  {
  }

  // Payloads of printable texts

  /** The first and the last character are printable ASCII and no blank. */
  predicate PrintableEnds(t: string) {
    t != "" && 0x21 <= t[0] as int <= 0x7E && 0x21 <= t[|t| - 1] as int <= 0x7E
  }

  /** Nothing but blanks, tabs and carriage returns. */
  predicate BlankRun(a: string) {
    forall k | 0 <= k < |a| :: a[k] as int == 0x20 || a[k] as int == 0x09 || a[k] as int == 0x0D
  }

  /** Nothing but blanks and tabs. */
  predicate PlainBlanks(a: string) {
    forall k | 0 <= k < |a| :: a[k] as int == 0x20 || a[k] as int == 0x09
  }

  lemma {:induction false} TrimsTo(a: string, t: string, b: string, space: char -> bool)
    requires PrintableEnds(t) && BlankRun(a) && BlankRun(b)
    requires space(' ') && space('\t') && space('\r') && forall c: char | 0x21 <= c as int <= 0x7E :: !space(c)
    ensures Trim(a + t + b, space) == t
  {
    forall k | 0 <= k < |a| ensures space(a[k]) {
      assert a[k] == ' ' || a[k] == '\t' || a[k] == '\r';
    }
    forall k | 0 <= k < |b| ensures space(b[k]) {
      assert b[k] == ' ' || b[k] == '\t' || b[k] == '\r';
    }
    var s := a + t + b;
    assert All(a, space) && All(b, space);
    assert !space(t[0]) && !space(t[|t| - 1]);
    assert s == a + t + b;
    assert Trimmed(s, t, space);
    TrimExact(s, t, space);
  }

  lemma {:induction false} Spaces()
    ensures JsSpace(' ') && JsSpace('\t') && JsSpace('\r') && forall c: char | 0x21 <= c as int <= 0x7E :: !JsSpace(c)
    ensures GoSpace(' ') && GoSpace('\t') && GoSpace('\r') && forall c: char | 0x21 <= c as int <= 0x7E :: !GoSpace(c)
    ensures PySpace(' ') && PySpace('\t') && PySpace('\r') && forall c: char | 0x21 <= c as int <= 0x7E :: !PySpace(c)
  {
  }

  lemma {:induction false} DataCut(v: string)
    ensures DATA <= "data:" + v && ("data:" + v)[|DATA|..] == v
  {
  }

  lemma {:induction false} NoFeeds(a: string, t: string, b: string)
    requires BlankRun(a) && BlankRun(b) && '\n' !in t
    ensures All("data:" + (a + t + b), NotChar('\n'))
  {
    var s := "data:" + (a + t + b);
    forall k | 0 <= k < |s| ensures s[k] != '\n' {
      if k >= 5 {
        var m := k - 5;
        assert s[k] == (a + t + b)[m];
        if |a| <= m < |a| + |t| {
          assert s[k] == t[m - |a|];
          assert t[m - |a|] in t;
        }
      }
    }
  }

  /** The TypeScript client finds the text of a data line, whatever blanks, tabs and carriage returns
      stand around it. */
  lemma {:induction false} TypeScriptPayload(a: string, t: string, b: string)
    requires PrintableEnds(t) && '\n' !in t && BlankRun(a) && BlankRun(b)
    ensures EventPayloads(TypeScript(), "data:" + (a + t + b)) == [t]
  {
    hide Trim, JsSpace, BlankRun, PrintableEnds, SplitLines;
    var line := "data:" + (a + t + b);
    NoFeeds(a, t, b);
    SplitOne(line);
    DialectLines(line);
    DataCut(a + t + b);
    Spaces();
    TrimsTo(a, t, b, JsSpace);
    OnePayload(line, JsSpace);
    assert [line][1..] == [];
  }

  /** So does the Go client. */
  lemma {:induction false} GoPayload(a: string, t: string, b: string)
    requires PrintableEnds(t) && '\n' !in t && BlankRun(a) && BlankRun(b)
    ensures LineScanner.ScanPayloads(LineScanner.ScanLines("data:" + (a + t + b))) == [t]
  {
    hide Trim, GoSpace, BlankRun, PrintableEnds, SplitLines, Gather, LineScanner.GoPayload, LineScanner.ScanLines,
      LineScanner.ScanPayloads;
    var line := "data:" + (a + t + b);
    NoFeeds(a, t, b);
    SplitOne(line);
    DataCut(a + t + b);
    Spaces();
    TrimsTo(a, t, b, GoSpace);
    LineScanner.ScanGathers(line);
    LineScanner.ScansDataLine(line);
    GatherCons(line, [], LineScanner.GoPayload);
    GatherNone(LineScanner.GoPayload);
    assert [line] + [] == [line];
  }

  lemma {:induction false} BlankRuns(a: string)
    requires PlainBlanks(a)
    ensures BlankRun(a)
  {
  }

  lemma {:induction false} OneOwn(a: string, t: string, b: string)
    requires PlainBlanks(a) && PlainBlanks(b) && forall k | 0 <= k < |t| :: !PyEndCode(t[k] as int)
    ensures All("data:" + (a + t + b), NotPyBreak())
  {
    var s := "data:" + (a + t + b);
    forall k | 0 <= k < |s| ensures NotPyBreak()(s[k]) {
      Codes(s[k]);
      if k >= 5 {
        var m := k - 5;
        assert s[k] == (a + t + b)[m];
        assert |a| <= m < |a| + |t| ==> s[k] == t[m - |a|];
      }
    }
  }

  /** And the Python client, as long as none of its line ends stands in the line. */
  lemma {:induction false} PythonPayload(a: string, t: string, b: string)
    requires PrintableEnds(t) && PlainBlanks(a) && PlainBlanks(b) && forall k | 0 <= k < |t| :: !PyEndCode(t[k] as int)
    ensures EventPayloads(Python(), "data:" + (a + t + b)) == [t]
  {
    hide Trim, PySpace, BlankRun, PlainBlanks, PrintableEnds, PyLines;
    var line := "data:" + (a + t + b);
    BlankRuns(a);
    BlankRuns(b);
    OneOwn(a, t, b);
    OneOwnLine(line);
    DialectLines(line);
    DataCut(a + t + b);
    Spaces();
    TrimsTo(a, t, b, PySpace);
    OnePayload(line, PySpace);
    assert [line][1..] == [];
  }

  // Every single character

  lemma {:induction false} OneInFront(c: char, space: char -> bool)
    requires !space('x')
    ensures Trim([c] + "x", space) == if space(c) then "x" else [c] + "x"
  {
    var s := [c] + "x";
    if space(c) {
      assert s == [c] + "x" + "" && All([c], space) && All("", space);
      assert Trimmed(s, "x", space);
      TrimExact(s, "x", space);
    } else {
      TrimNothing(s, space);
    }
  }

  /** What the TypeScript client trims. */
  lemma {:induction false} TypeScriptTrims(c: char)
    requires c != '\n'
    ensures EventPayloads(TypeScript(), "data:" + ([c] + "x")) == [if JsCode(c as int) then "x" else [c] + "x"]
  {
    hide Trim, SplitLines, JsSpace;
    var line := "data:" + ([c] + "x");
    Codes(c);
    Spaces();
    assert All(line, NotChar('\n'));
    SplitOne(line);
    DialectLines(line);
    DataCut([c] + "x");
    OneInFront(c, JsSpace);
    OnePayload(line, JsSpace);
    assert [line][1..] == [];
  }

  /** What the Go client trims. */
  lemma {:induction false} GoTrims(c: char)
    requires c != '\n'
    ensures LineScanner.ScanPayloads(LineScanner.ScanLines("data:" + ([c] + "x")))
         == [if GoCode(c as int) then "x" else [c] + "x"]
  {
    hide Trim, SplitLines, GoSpace, Gather, LineScanner.GoPayload, LineScanner.ScanLines, LineScanner.ScanPayloads;
    var line := "data:" + ([c] + "x");
    Codes(c);
    Spaces();
    assert All(line, NotChar('\n'));
    SplitOne(line);
    DataCut([c] + "x");
    OneInFront(c, GoSpace);
    LineScanner.ScanGathers(line);
    LineScanner.ScansDataLine(line);
    GatherCons(line, [], LineScanner.GoPayload);
    GatherNone(LineScanner.GoPayload);
    assert [line] + [] == [line];
  }

  /** What the Python client trims, and where it ends lines. */
  lemma {:induction false} PythonTrims(c: char)
    ensures EventPayloads(Python(), "data:" + ([c] + "x"))
         == [if PyEndCode(c as int) then "" else if PyCode(c as int) then "x" else [c] + "x"]
  {
    hide Trim, PyLines, PySpace, IsPyBreak;
    var line := "data:" + ([c] + "x");
    Codes(c);
    Spaces();
    DataCut([c] + "x");
    DialectLines(line);
    DataNoEnd();
    if PyEndCode(c as int) {
      assert line == DATA + [c] + "x";
      PyTwoLines(DATA, c, "x");
      OnePayload(DATA, PySpace);
      assert DATA[|DATA|..] == "" && Trim("", PySpace) == "" by { TrimBlank(); }
      assert "x"[0] != DATA[0];
      assert [DATA, "x"][1..] == ["x"] && ["x"][1..] == [];
      assert LinesPayloads(["x"], PySpace) == [];
    } else {
      assert All(line, NotPyBreak());
      OneOwnLine(line);
      OneInFront(c, PySpace);
      OnePayload(line, PySpace);
      assert [line][1..] == [];
    }
  }

  lemma {:induction false} DataNoEnd()
    ensures All(DATA, NotPyBreak()) && All("x", NotPyBreak())
  {
  }

  lemma {:induction false} TrimBlank()
    ensures Trim("", PySpace) == ""
  {
  }

  // Python's lines

  /** One line end of Python: "\r\n", or one of its single characters. */
  predicate IsPyEnd(e: string) {
    e == "\r\n" || (|e| == 1 && PyEndCode(e[0] as int))
  }

  predicate NoPyEnds(line: string) {
    forall k | 0 <= k < |line| :: !PyEndCode(line[k] as int)
  }

  /** The lines of `s`, each closed by a line end but the last, which need not be; a "\r" with a line
      feed behind it is no line end by itself. */
  ghost predicate OwnLines(s: string, lines: seq<string>)
    decreases |lines|
  {
    if lines == [] then s == ""
    else
      && NoPyEnds(lines[0])
      && ((s == lines[0] && s != "" && |lines| == 1)
          || exists e: string, rest: string ::
               s == lines[0] + e + rest && IsPyEnd(e) && (e == "\r" ==> rest == "" || rest[0] != '\n')
               && OwnLines(rest, lines[1..]))
  }

  lemma {:induction false} NoPyEndsAre(line: string)
    ensures NoPyEnds(line) <==> All(line, NotPyBreak())
  {
    forall k | 0 <= k < |line| ensures NotPyBreak()(line[k]) <==> !PyEndCode(line[k] as int) {
      Codes(line[k]);
    }
  }

  lemma {:induction false} OwnLinesCons(line: string, e: string, rest: string, lines: seq<string>)
    requires NoPyEnds(line) && IsPyEnd(e) && (e == "\r" ==> rest == "" || rest[0] != '\n') && OwnLines(rest, lines)
    ensures OwnLines(line + e + rest, [line] + lines)
  {
    hide IsPyEnd, NoPyEnds;
    assert ([line] + lines)[1..] == lines;
  }

  /** The first line of a text and its end. */
  lemma {:induction false} FirstEnd(s: string) returns (line: string, e: string, rest: string)
    requires RunEnd(s, 0, NotPyBreak()) < |s|
    ensures s == line + e + rest && NoPyEnds(line) && IsPyEnd(e) && (e == "\r" ==> rest == "" || rest[0] != '\n')
  {
    var j := RunEnd(s, 0, NotPyBreak());
    line := s[..j];
    assert s[0..j] == line;
    NoPyEndsAre(line);
    Codes(s[j]);
    var n := if s[j] == '\r' && j + 1 < |s| && s[j + 1] == '\n' then j + 2 else j + 1;
    e, rest := s[j..n], s[n..];
  }

  lemma {:induction false} LastOwn(s: string)
    requires s != "" && NoPyEnds(s)
    ensures OwnLines(s, [s])
  {
  }

  lemma {:induction false} OwnLinesSound(s: string)
    ensures OwnLines(s, PyLines(s))
    decreases |s|
  {
    hide PyLines, OwnLines, NoPyEnds, IsPyEnd;
    if s == "" {
      NoOwn();
    } else if RunEnd(s, 0, NotPyBreak()) == |s| {
      assert s[0..|s|] == s;
      NoPyEndsAre(s);
      OneOwnLine(s);
      LastOwn(s);
    } else {
      var line, e, rest := FirstEnd(s);
      EndNotEmpty(e);
      NoPyEndsAre(line);
      OwnLinesSound(rest);
      EndFound(s, line, e, rest);
      OwnLinesCons(line, e, rest, PyLines(rest));
    }
  }

  lemma {:induction false} NoOwn()
    ensures PyLines("") == [] && OwnLines("", [])
  {
  }

  lemma {:induction false} EndNotEmpty(e: string)
    requires IsPyEnd(e)
    ensures e != ""
  {
  }

  lemma {:induction false} OwnLinesComplete(s: string, lines: seq<string>)
    requires OwnLines(s, lines)
    ensures PyLines(s) == lines
    decreases |lines|
  {
    if lines != [] {
      var line := lines[0];
      NoPyEndsAre(line);
      if s == line && s != "" && |lines| == 1 {
        OneOwnLine(s);
        assert lines == [line];
      } else {
        var e: string, rest: string :| s == line + e + rest && IsPyEnd(e)
          && (e == "\r" ==> rest == "" || rest[0] != '\n') && OwnLines(rest, lines[1..]);
        OwnLinesComplete(rest, lines[1..]);
        EndFound(s, line, e, rest);
        assert lines == [line] + lines[1..];
      }
    }
  }

  lemma {:induction false} EndFound(s: string, line: string, e: string, rest: string)
    requires s == line + e + rest && IsPyEnd(e) && All(line, NotPyBreak())
    requires e == "\r" ==> rest == "" || rest[0] != '\n'
    ensures PyLines(s) == [line] + PyLines(rest)
  {
    var j := |line|;
    Codes(e[0]);
    assert s[0..j] == line && s[..j] == line && s[j] == e[0];
    RunEndUnique(s, 0, j, NotPyBreak());
    assert s[j + |e|..] == rest;
    if |e| == 1 {
      assert rest != "" ==> s[j + 1] == rest[0];
    }
  }

  /** How Python cuts a text into lines, exactly. */
  lemma {:induction false} PyLinesExact(s: string, lines: seq<string>)
    ensures PyLines(s) == lines <==> OwnLines(s, lines)
  {
    hide PyLines, OwnLines;
    if PyLines(s) == lines {
      OwnLinesSound(s);
    }
    if OwnLines(s, lines) {
      OwnLinesComplete(s, lines);
    }
  }

  // Go's lines

  /** The Go scanner's first line ends at the first line feed, without the carriage return before it. */
  lemma {:induction false} GoLines(a: string, b: string)
    requires '\n' !in a && (a != "" ==> a[|a| - 1] != '\r')
    ensures LineScanner.ScanLines(a + "\n" + b) == [a] + LineScanner.ScanLines(b)
    ensures LineScanner.ScanLines(a + "\r\n" + b) == [a] + LineScanner.ScanLines(b)
    ensures LineScanner.ScanLines(a) == if a == "" then [] else [a]
  {
    hide LineScanner.ScanLines;
    FeedEnds(a, a, b);
    FeedEnds(a, a + "\r", b);
    assert a + "\r\n" + b == a + "\r" + "\n" + b;
    LineScanner.ScanLinesTurn(a);
    assert All(a, NotChar('\n'));
    assert a[0..|a|] == a;
    RunEndUnique(a, 0, |a|, NotChar('\n'));
    assert [LineScanner.DropCR(a)] + [] == [a];
  }

  lemma {:induction false} FeedEnds(a: string, line: string, b: string)
    requires '\n' !in line && LineScanner.DropCR(line) == a
    ensures LineScanner.ScanLines(line + "\n" + b) == [a] + LineScanner.ScanLines(b)
  {
    hide LineScanner.ScanLines;
    var s := line + "\n" + b;
    assert s[0..|line|] == line && s[..|line|] == line && s[|line| + 1..] == b;
    assert All(line, NotChar('\n'));
    RunEndUnique(s, 0, |line|, NotChar('\n'));
    LineScanner.ScanLinesTurn(s);
  }

  // Events

  /** Blank lines are two line feeds in a row, and nothing else. */
  lemma {:induction false} BreakExactly(s: string)
    ensures NoBreak(s) <==> !exists a: string, b: string :: s == a + "\n\n" + b
  {
    if !NoBreak(s) {
      var k :| 0 <= k < |s| && IsBreak(s, k);
      assert s == s[..k] + "\n\n" + s[k + 2..];
    }
    if a: string, b: string :| s == a + "\n\n" + b {
      assert s[|a|] == '\n' && s[|a| + 1] == '\n';
      assert IsBreak(s, |a|);
    }
  }
}

/** What becomes of a text that is sent as UTF-8 and decoded byte by byte, and that its events and
    lines stay where they were. */
module BytewiseText {
  import opened Chars
  import opened EventStream
  import opened StreamDecoder
  import opened StreamLines

  /** The text the Python client holds when `t` was sent. */
  function Seen(t: string): string {
    DecodeBytes(Utf8(t))
  }

  function SeenAll(ts: seq<string>): seq<string> {
    seq(|ts|, k requires 0 <= k < |ts| => Seen(ts[k]))
  }

  const REPLACEMENT := '\U{FFFD}'

  /** An ASCII character stays, any other one becomes several replacement characters. */
  lemma {:induction false} SeenChar(c: char)
    ensures c as int < 0x80 ==> Seen([c]) == [c]
    ensures c as int >= 0x80 ==> |Seen([c])| > 1 && forall k | 0 <= k < |Seen([c])| :: Seen([c])[k] == REPLACEMENT
  {
    assert Utf8([c]) == Utf8Char(c) + Utf8("");
  }

  lemma {:induction false} DecodeConcat(a: seq<byte>, b: seq<byte>)
    ensures DecodeBytes(a + b) == DecodeBytes(a) + DecodeBytes(b)
  {
  }

  lemma {:induction false} Utf8Concat(a: string, b: string)
    ensures Utf8(a + b) == Utf8(a) + Utf8(b)
  {
    hide Utf8Char;
    if a == "" {
      assert a + b == b;
    } else {
      Utf8Concat(a[1..], b);
      assert (a + b)[1..] == a[1..] + b;
      assert Utf8Char(a[0]) + (Utf8(a[1..]) + Utf8(b)) == (Utf8Char(a[0]) + Utf8(a[1..])) + Utf8(b);
    }
  }

  lemma {:induction false} SeenConcat(a: string, b: string)
    ensures Seen(a + b) == Seen(a) + Seen(b)
  {
    hide DecodeBytes, Utf8;
    Utf8Concat(a, b);
    DecodeConcat(Utf8(a), Utf8(b));
  }

  lemma {:induction false} SeenCons(t: string)
    requires t != ""
    ensures Seen(t) == Seen([t[0]]) + Seen(t[1..])
  {
    hide Seen;
    assert t == [t[0]] + t[1..];
    SeenConcat([t[0]], t[1..]);
  }

  lemma {:induction false} SeenAscii(t: string)
    requires IsAscii(t)
    ensures Seen(t) == t
  {
    hide DecodeBytes, Utf8;
    AsciiBytes(t);
  }

  /** The first character of a text shows. */
  lemma {:induction false} SeenHead(t: string)
    requires t != ""
    ensures Seen(t) != "" && Seen(t)[0] == if t[0] as int < 0x80 then t[0] else REPLACEMENT
  {
    hide Seen;
    SeenCons(t);
    SeenChar(t[0]);
  }

  /** Everything the client holds is ASCII or a replacement. */
  lemma {:induction false} SeenIs(t: string)
    ensures forall k | 0 <= k < |Seen(t)| :: Seen(t)[k] as int < 0x80 || Seen(t)[k] == REPLACEMENT
  {
  }

  // Events

  lemma {:induction false} NoBreakTail(s: string)
    requires NoBreak(s) && s != ""
    ensures NoBreak(s[1..])
    ensures s[0] == '\n' ==> s[1..] == "" || s[1..][0] != '\n'
  {
    assert !IsBreak(s, 0);
    forall k | 0 <= k < |s[1..]| ensures !IsBreak(s[1..], k) {
      assert !IsBreak(s, k + 1);
    }
  }

  lemma {:induction false} SeenNoBreak(s: string)
    requires NoBreak(s)
    ensures NoBreak(Seen(s))
  {
    hide Seen, NoBreak;
    if s == "" {
      SeenAscii(s);
    } else {
      NoBreakTail(s);
      SeenNoBreak(s[1..]);
      SeenCons(s);
      SeenChar(s[0]);
      if s[1..] != "" {
        SeenHead(s[1..]);
      } else {
        SeenAscii(s[1..]);
      }
      NoBreakCons(Seen([s[0]]), Seen(s[1..]));
    }
  }

  lemma {:induction false} SeenJoin(events: seq<string>)
    ensures Join(SeenAll(events)) == Seen(Join(events))
  {
    hide Seen;
    if events == [] {
      SeenAscii("");
    } else {
      var tail := events[1..];
      SeenJoin(tail);
      assert SeenAll(events)[1..] == SeenAll(tail);
      SeenConcat(events[0] + "\n\n", Join(tail));
      SeenConcat(events[0], "\n\n");
      SeenAscii("\n\n");
    }
  }

  lemma {:induction false} SeenWhole(events: seq<string>)
    requires EventsWhole(events)
    ensures EventsWhole(SeenAll(events))
  {
    hide Seen, NoBreak;
    SeenAscii("\n");
    forall k | 0 <= k < |events| ensures NoBreak(SeenAll(events)[k] + "\n") {
      SeenNoBreak(events[k] + "\n");
      SeenConcat(events[k], "\n");
    }
  }

  /** The events of the text the client holds are those of the text sent, as the client sees them. */
  lemma {:induction false} SeenCut(t: string)
    ensures var c := CutEvents(t); CutEvents(Seen(t)) == Cut(SeenAll(c.events), Seen(c.rest))
  {
    hide Seen, SeenAll, CutEvents, NoBreak, EventsWhole, Join;
    var c := CutEvents(t);
    CutSound(t);
    SeenConcat(Join(c.events), c.rest);
    SeenJoin(c.events);
    SeenWhole(c.events);
    SeenNoBreak(c.rest);
    CutComplete(Seen(t), SeenAll(c.events), Seen(c.rest));
  }

  // Lines

  lemma {:induction false} SeenNoFeed(line: string)
    requires All(line, NotChar('\n'))
    ensures All(Seen(line), NotChar('\n'))
  {
    hide Seen;
    if line == "" {
      SeenAscii(line);
    } else {
      assert NotChar('\n')(line[0]);
      assert forall k | 0 <= k < |line[1..]| :: line[1..][k] == line[k + 1];
      SeenNoFeed(line[1..]);
      SeenCons(line);
      SeenChar(line[0]);
    }
  }

  lemma {:induction false} SeenSplit(s: string)
    ensures SplitLines(Seen(s)) == SeenAll(SplitLines(s))
    decreases |s|
  {
    hide Seen, SplitLines, All;
    var j := RunEnd(s, 0, NotChar('\n'));
    assert s[0..j] == s[..j];
    SeenNoFeed(s[..j]);
    if j == |s| {
      assert s[..j] == s;
      SplitOne(s);
      SplitOne(Seen(s));
    } else {
      var line, tail := s[..j], s[j + 1..];
      assert s == line + "\n" + tail;
      SeenConcat(line + "\n", tail);
      SeenConcat(line, "\n");
      SeenAscii("\n");
      SplitStep(line, tail);
      SplitStep(Seen(line), Seen(tail));
      SeenSplit(tail);
    }
  }

  lemma {:induction false} SeenLines(events: seq<string>)
    ensures AllLines(SeenAll(events)) == SeenAll(AllLines(events))
  {
    hide Seen, SplitLines;
    if events != [] {
      SeenLines(events[1..]);
      assert SeenAll(events)[1..] == SeenAll(events[1..]);
      SeenSplit(events[0]);
    }
  }

  /** ASCII beginnings show. */
  lemma {:induction false} SeenPrefix(head: string, t: string)
    requires IsAscii(head)
    ensures head <= Seen(t) <==> head <= t
    ensures head <= t ==> Seen(t)[|head|..] == Seen(t[|head|..])
    decreases |head|
  {
    hide Seen;
    if t == "" {
      SeenAscii(t);
    } else if head != "" {
      SeenHead(t);
      SeenChar(t[0]);
      SeenCons(t);
      if t[0] == head[0] {
        SeenPrefix(head[1..], t[1..]);
        PrefixCons(head, t);
        PrefixCons(head, Seen(t));
        assert Seen(t)[1..] == Seen(t[1..]);
        if head <= t {
          assert Seen(t)[|head|..] == Seen(t)[1..][|head| - 1..] && t[|head|..] == t[1..][|head| - 1..];
        }
      }
    }
  }

  lemma {:induction false} PrefixCons(head: string, t: string)
    requires head != "" && t != ""
    ensures head <= t <==> head[0] == t[0] && head[1..] <= t[1..]
  {
    assert t == [t[0]] + t[1..] && head == [head[0]] + head[1..];
    if head[0] == t[0] && head[1..] <= t[1..] {
      assert t[1..][..|head| - 1] == head[1..];
      assert t[..|head|] == head;
    }
    if head <= t {
      assert t[1..][..|head| - 1] == t[..|head|][1..];
    }
  }
}

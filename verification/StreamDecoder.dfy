/** The incremental stream decoders of the TypeScript and Python clients: a buffer that grows chunk
    by chunk and is emptied event by event. They differ only in their dialect. */
module StreamDecoder {
  import opened Chars
  import opened EventStream
  import opened StreamContents

  /** The chunks one after another. */
  function Concat(chunks: seq<string>): string {
    if chunks == [] then "" else chunks[0] + Concat(chunks[1..])
  }

  lemma {:induction false} ConcatSnoc(chunks: seq<string>, chunk: string)
    ensures Concat(chunks + [chunk]) == Concat(chunks) + chunk
  {
    if chunks != [] {
      ConcatSnoc(chunks[1..], chunk);
      assert (chunks + [chunk])[1..] == chunks[1..] + [chunk];
    } else {
      assert chunks + [chunk] == [chunk];
    }
  }

  class Decoder<D> {
    const dialect: Dialect
    const decode: string -> Decoded<D>
    var buffer: string
    var yielded: seq<D>
    var ending: Ending
    /** Everything that has arrived. */
    ghost var received: string

    /** The contents yielded so far are those of everything received, taken as one string; while
        the stream is open, the buffer is the text behind its last complete event. */
    ghost predicate Valid()
      reads this
    {
      && Progress(yielded, ending) == Whole(dialect, received, decode)
      && (ending.Open? ==> buffer == CutEvents(received).rest)
    }

    constructor (dialect: Dialect, decode: string -> Decoded<D>)
      ensures Valid() && received == "" && ending.Open? && yielded == []
      ensures this.dialect == dialect && this.decode == decode
    {
      this.dialect, this.decode := dialect, decode;
      buffer, yielded, ending, received := "", [], Open, "";
    }

    /** One payload, as the innermost loop treats it. */
    method Take(payload: string)
      requires ending.Open?
      modifies this`yielded, this`ending
      ensures Progress(yielded, ending)
           == Handle(Progress(old(yielded), Open), payload, decode, dialect.skipsBadJson)
      ensures yielded == old(yielded) + Items(payload, decode)
      ensures ending == EndedBy(payload, decode, dialect.skipsBadJson)
    {
      if payload == "[DONE]" {
        ending := Done;
        return;
      }
      match decode(payload)
      case Marker => ending := Done;
      case Deltas(contents) => yielded := yielded + contents;
      case Misshapen(contents) => yielded, ending := yielded + contents, Thrown;
      case BadJson =>
        if !dialect.skipsBadJson {
          ending := Thrown;
        }
    }

    /** The lines of one event, up to a terminator. */
    method TakeEvent(event: string)
      requires ending.Open?
      modifies this`yielded, this`ending
      ensures Progress(yielded, ending)
           == HandleAll(Progress(old(yielded), Open), EventPayloads(dialect, event), decode, dialect.skipsBadJson)
    {
      hide Handle;
      var lines := dialect.lines(event);
      var i := 0;
      ghost var goal := HandleAll(Progress(yielded, ending), EventPayloads(dialect, event), decode,
          dialect.skipsBadJson);
      while i < |lines| && ending.Open?
        invariant 0 <= i <= |lines|
        invariant goal == HandleAll(Progress(yielded, ending), LinesPayloads(lines[i..], dialect.space), decode,
                  dialect.skipsBadJson)
      {
        var line := lines[i];
        ghost var later := LinesPayloads(lines[i + 1..], dialect.space);
        LinesStep(lines, i, dialect.space);
        if DATA <= line {
          var payload := Trim(line[|DATA|..], dialect.space);
          HandleCons(Progress(yielded, ending), payload, later, decode, dialect.skipsBadJson);
          Take(payload);
        } else {
          assert LinesPayloads(lines[i..], dialect.space) == later;
        }
        i := i + 1;
      }
      if ending.Open? {
        assert lines[i..] == [];
      } else {
        HandleAllEnded(Progress(yielded, ending), LinesPayloads(lines[i..], dialect.space), decode,
            dialect.skipsBadJson);
      }
    }

    /** One chunk: it is appended to the buffer, and every event that is now complete is handled.
        While the stream stays open nothing received is lost: the handled events, each with its
        blank line, and the buffer are all that was received, and no event is left in the buffer. */
    method Receive(chunk: string)
      requires Valid() && ending.Open?
      modifies this
      ensures Valid() && received == old(received) + chunk
      ensures ending.Open? ==> received == Join(CutEvents(received).events) + buffer && NoBreak(buffer)
      ensures old(yielded) <= yielded
    {
      hide CutEvents, EventPayloads, Payloads, HandleAll, Join, NoBreak;
      ghost var all := received + chunk;
      ghost var before := CutEvents(received).rest + chunk;
      WholeAppend(dialect, received, chunk, decode);
      CutAppend(received, chunk);
      ghost var skips := dialect.skipsBadJson;
      buffer := buffer + chunk;
      received := all;
      var sep := BreakFrom(buffer, 0);
      while sep.Some? && ending.Open?
        invariant ending.Open? ==> sep == BreakFrom(buffer, 0)
        invariant received == all
        invariant ending.Open? ==> CutEvents(buffer).rest == CutEvents(all).rest
        invariant Whole(dialect, all, decode)
               == HandleAll(Progress(yielded, ending), Payloads(dialect, CutEvents(buffer).events), decode, skips)
        invariant old(yielded) <= yielded
        decreases |buffer|
      {
        var event := buffer[..sep.value];
        CutStep(buffer, dialect);
        ghost var later := Payloads(dialect, CutEvents(buffer[sep.value + 2..]).events);
        HandleAllConcat(Progress(yielded, ending), EventPayloads(dialect, event), later, decode, skips);
        HandleAllGrows(Progress(yielded, ending), EventPayloads(dialect, event), decode, skips);
        buffer := buffer[sep.value + 2..];
        TakeEvent(event);
        sep := BreakFrom(buffer, 0);
      }
      CutSound(all);
      if ending.Open? {
        CutEmpty(buffer, dialect, Progress(yielded, ending), decode, skips);
      } else {
        HandleAllEnded(Progress(yielded, ending), Payloads(dialect, CutEvents(buffer).events), decode, skips);
      }
    }
  }

  // Steps of the loops

  lemma {:induction false} LinesStep(lines: seq<string>, i: nat, space: char -> bool)
    requires i < |lines|
    ensures LinesPayloads(lines[i..], space) == LinePayload(lines[i], space) + LinesPayloads(lines[i + 1..], space)
  {
    assert lines[i..][1..] == lines[i + 1..];
  }

  lemma {:induction false} HandleCons<D>(p: Progress<D>, payload: string, later: seq<string>,
                                         decode: string -> Decoded<D>, skips: bool)
    ensures HandleAll(p, [payload] + later, decode, skips)
            == HandleAll(Handle(p, payload, decode, skips), later, decode, skips)
  {
    hide Handle;
    assert ([payload] + later)[1..] == later;
  }

  lemma {:induction false} CutStep(buffer: string, d: Dialect)
    requires BreakFrom(buffer, 0).Some?
    ensures var sep := BreakFrom(buffer, 0).value;
            var tail := CutEvents(buffer[sep + 2..]);
            && CutEvents(buffer).rest == tail.rest
            && Payloads(d, CutEvents(buffer).events) == EventPayloads(d, buffer[..sep]) + Payloads(d, tail.events)
  {
    hide EventPayloads;
    var sep := BreakFrom(buffer, 0).value;
    var tail := CutEvents(buffer[sep + 2..]);
    assert ([buffer[..sep]] + tail.events)[1..] == tail.events;
  }

  lemma {:induction false} CutEmpty<D>(buffer: string, d: Dialect, p: Progress<D>, decode: string -> Decoded<D>,
                                       skips: bool)
    requires BreakFrom(buffer, 0).None?
    ensures CutEvents(buffer).rest == buffer
    ensures HandleAll(p, Payloads(d, CutEvents(buffer).events), decode, skips) == p
  {
  }

  // Whole streams

  /** A client reading chunk after chunk until the input or the conversation ends. The outcome does
      not depend on where the chunks were cut. */
  method ChatStream<D>(dialect: Dialect, decode: string -> Decoded<D>, chunks: seq<string>) returns (p: Progress<D>)
    ensures p == Whole(dialect, Concat(chunks), decode)
  {
    hide Whole, CutEvents, Concat, Join, NoBreak;
    var decoder := new Decoder(dialect, decode);
    var i := 0;
    ConcatNil(chunks);
    while i < |chunks| && decoder.ending.Open?
      invariant 0 <= i <= |chunks|
      invariant decoder.Valid() && decoder.dialect == dialect && decoder.decode == decode
      invariant decoder.received == Concat(chunks[..i])
    {
      decoder.Receive(chunks[i]);
      ConcatSnoc(chunks[..i], chunks[i]);
      assert chunks[..i + 1] == chunks[..i] + [chunks[i]];
      i := i + 1;
    }
    p := Progress(decoder.yielded, decoder.ending);
    ConcatSplit(chunks, i);
    if decoder.ending.Open? {
      assert chunks[..i] == chunks;
    } else {
      EndedStays(dialect, decoder.received, Concat(chunks[i..]), decode);
    }
  }

  lemma {:induction false} ConcatNil(chunks: seq<string>)
    ensures Concat(chunks[..0]) == ""
  {
  }

  lemma {:induction false} ConcatSplit(chunks: seq<string>, i: nat)
    requires i <= |chunks|
    ensures Concat(chunks) == Concat(chunks[..i]) + Concat(chunks[i..])
    decreases i
  {
    hide Concat;
    if i == 0 {
      ConcatNil(chunks);
      assert chunks[0..] == chunks;
    } else {
      var before, chunk, after := chunks[..i - 1], chunks[i - 1], chunks[i..];
      ConcatSplit(chunks, i - 1);
      ConcatSnoc(before, chunk);
      ConcatCons(chunk, after);
      assert chunks[..i] == before + [chunk] && chunks[i - 1..] == [chunk] + after;
      assert Concat(before) + (chunk + Concat(after)) == (Concat(before) + chunk) + Concat(after);
    }
  }

  lemma {:induction false} ConcatCons(chunk: string, chunks: seq<string>)
    ensures Concat([chunk] + chunks) == chunk + Concat(chunks)
  {
    assert ([chunk] + chunks)[1..] == chunks;
  }

  lemma {:induction false} EndedStays<D>(d: Dialect, s: string, more: string, decode: string -> Decoded<D>)
    requires !Whole(d, s, decode).ending.Open?
    ensures Whole(d, s + more, decode) == Whole(d, s, decode)
  {
    hide Whole;
    WholeAppend(d, s, more, decode);
  }

  // Python reads byte by byte

  type byte = b: int | 0 <= b < 256

  /** One byte decoded on its own as UTF-8 with replacement: only ASCII bytes are whole characters. */
  function DecodeByte(b: byte): char {
    if b < 128 then b as char else '\U{FFFD}'
  }

  function DecodeBytes(bytes: seq<byte>): string {
    seq(|bytes|, i requires 0 <= i < |bytes| => DecodeByte(bytes[i]))
  }

  /** chat_stream of the Python client, which asks for one byte at a time. */
  method PythonChatStream<D>(decode: string -> Decoded<D>, bytes: seq<byte>) returns (p: Progress<D>)
    ensures p == Whole(Python(), DecodeBytes(bytes), decode)
  {
    hide Whole, Python, DecodeBytes;
    var singles := seq(|bytes|, i requires 0 <= i < |bytes| => [DecodeByte(bytes[i])]);
    ConcatSingles(bytes, singles);
    p := ChatStream(Python(), decode, singles);
  }

  lemma {:induction false} ConcatSingles(bytes: seq<byte>, singles: seq<string>)
    requires |singles| == |bytes| && forall i | 0 <= i < |bytes| :: singles[i] == [DecodeByte(bytes[i])]
    ensures Concat(singles) == DecodeBytes(bytes)
  {
    if bytes != [] {
      ConcatSingles(bytes[1..], singles[1..]);
      assert DecodeBytes(bytes) == [DecodeByte(bytes[0])] + DecodeBytes(bytes[1..]);
    }
  }

  /** The UTF-8 encoding of a character. */
  function Utf8Char(c: char): (bytes: seq<byte>)
    ensures |bytes| > 1 <==> c as int >= 0x80
  {
    var n := c as int;
    if n < 0x80 then [n]
    else if n < 0x800 then [0xC0 + n / 0x40, Tail(n)]
    else if n < 0x1_0000 then [0xE0 + n / 0x1000, Tail(n / 0x40), Tail(n)]
    else [0xF0 + n / 0x4_0000, Tail(n / 0x1000), Tail(n / 0x40), Tail(n)]
  }

  function Tail(n: nat): byte {
    0x80 + n % 0x40
  }

  /** The payload bits of a byte that has `mark` in front of them. */
  function Bits(b: byte, mark: int): int {
    b as int - mark
  }

  /** The bytes are those UTF-8 defines: the leading byte tells how many follow, each of those carries
      six bits, and no shorter form would do. */
  lemma {:induction false} Utf8Exactly(c: char)
    ensures var n, b := c as int, Utf8Char(c);
            match |b|
            case 1 => n == b[0] < 0x80
            case 2 => 0x80 <= n < 0x800 && 0xC0 <= b[0] < 0xE0 && n == Bits(b[0], 0xC0) * 64 + Bits(b[1], 0x80)
            case 3 =>
              && 0x800 <= n < 0x1_0000 && 0xE0 <= b[0] < 0xF0
              && n == (Bits(b[0], 0xE0) * 64 + Bits(b[1], 0x80)) * 64 + Bits(b[2], 0x80)
            case 4 =>
              && 0x1_0000 <= n < 0x11_0000 && 0xF0 <= b[0] < 0xF8
              && n == ((Bits(b[0], 0xF0) * 64 + Bits(b[1], 0x80)) * 64 + Bits(b[2], 0x80)) * 64 + Bits(b[3], 0x80)
            case _ => false
    ensures forall k | 1 <= k < |Utf8Char(c)| :: 0x80 <= Utf8Char(c)[k] < 0xC0
  {
    var n := c as int;
    assert n / 0x1000 == (n / 0x40) / 0x40 && n / 0x4_0000 == (n / 0x1000) / 0x40;
  }

  function Utf8(text: string): seq<byte> {
    if text == "" then [] else Utf8Char(text[0]) + Utf8(text[1..])
  }

  lemma {:induction false} Utf8Length(text: string)
    ensures |Utf8(text)| >= |text|
    ensures |Utf8(text)| == |text| ==> IsAscii(text)
  {
    if text != "" {
      Utf8Length(text[1..]);
    }
  }

  lemma {:induction false} AsciiBytes(text: string)
    requires IsAscii(text)
    ensures DecodeBytes(Utf8(text)) == text
  {
    if text != "" {
      AsciiBytes(text[1..]);
      assert Utf8(text) == [text[0] as int] + Utf8(text[1..]);
      assert DecodeBytes(Utf8(text)) == [text[0]] + DecodeBytes(Utf8(text[1..]));
    }
  }

  /** A text sent as UTF-8 arrives as it was sent exactly when it is ASCII: every byte of a longer
      character becomes a replacement character of its own. */
  lemma {:induction false} BytesOfText(text: string)
    ensures DecodeBytes(Utf8(text)) == text <==> IsAscii(text)
    ensures forall k | 0 <= k < |Utf8(text)| && Utf8(text)[k] >= 0x80 :: DecodeBytes(Utf8(text))[k] == '\U{FFFD}'
  {
    Utf8Length(text);
    if IsAscii(text) {
      AsciiBytes(text);
    }
  }
}

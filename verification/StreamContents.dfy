/** What a client yields, payload by payload: the contents of every payload up to the one that ends
    the conversation, all of them and in order. */
module StreamContents {
  import opened EventStream

  /** The contents of one payload. */
  function Items<D>(payload: string, decode: string -> Decoded<D>): seq<D> {
    if payload == "[DONE]" then []
    else
      match decode(payload)
      case Deltas(ds) => ds
      case Misshapen(ds) => ds
      case _ => []
  }

  /** How a payload ends the stream, if it does. */
  function EndedBy<D>(payload: string, decode: string -> Decoded<D>, skipsBadJson: bool): Ending {
    if payload == "[DONE]" || decode(payload).Marker? then Done
    else if decode(payload).Misshapen? || (decode(payload).BadJson? && !skipsBadJson) then Thrown
    else Open
  }

  /** Payload `n` is the first that ends the stream; there is none when `n` is their number. */
  predicate EndsAt<D>(payloads: seq<string>, n: nat, decode: string -> Decoded<D>, skipsBadJson: bool) {
    && n <= |payloads|
    && (forall k | 0 <= k < n :: EndedBy(payloads[k], decode, skipsBadJson) == Open)
    && (n < |payloads| ==> EndedBy(payloads[n], decode, skipsBadJson) != Open)
  }

  function Flatten<D>(parts: seq<seq<D>>): seq<D> {
    if parts == [] then [] else parts[0] + Flatten(parts[1..])
  }

  function ItemsOf<D>(payloads: seq<string>, decode: string -> Decoded<D>): seq<seq<D>> {
    seq(|payloads|, k requires 0 <= k < |payloads| => Items(payloads[k], decode))
  }

  /** The payloads a client looks at: up to the one that ends the stream, that one included. */
  function LookedAt(payloads: seq<string>, n: nat): seq<string> {
    if n < |payloads| then payloads[..n + 1] else payloads
  }

  /** Some payload is the first to end the stream, or none is. */
  lemma {:induction false} FirstEnd<D>(payloads: seq<string>, decode: string -> Decoded<D>, skips: bool)
    returns (n: nat)
    ensures EndsAt(payloads, n, decode, skips)
  {
    if payloads == [] || EndedBy(payloads[0], decode, skips) != Open {
      n := 0;
    } else {
      var m := FirstEnd(payloads[1..], decode, skips);
      n := m + 1;
      assert payloads == [payloads[0]] + payloads[1..];
    }
  }

  lemma {:induction false} ItemsCons<D>(payload: string, payloads: seq<string>, decode: string -> Decoded<D>)
    ensures Flatten(ItemsOf([payload] + payloads, decode))
         == Items(payload, decode) + Flatten(ItemsOf(payloads, decode))
  {
    hide Items;
    assert ItemsOf([payload] + payloads, decode)[1..] == ItemsOf(payloads, decode);
  }

  /** One payload: its contents come behind what is there, and the stream ends as it says. */
  lemma {:induction false} HandleYields<D>(p: Progress<D>, payload: string, decode: string -> Decoded<D>, skips: bool)
    requires p.ending.Open?
    ensures Handle(p, payload, decode, skips)
         == Progress(p.yielded + Items(payload, decode), EndedBy(payload, decode, skips))
  {
  }

  /** All payloads: what comes out is everything the payloads looked at contain, in order, and the
      stream ends as the last of them says. */
  lemma {:induction false} YieldsExactly<D>(p: Progress<D>, payloads: seq<string>, n: nat, decode: string -> Decoded<D>,
                                            skips: bool)
    requires p.ending.Open? && EndsAt(payloads, n, decode, skips)
    ensures HandleAll(p, payloads, decode, skips)
         == Progress(p.yielded + Flatten(ItemsOf(LookedAt(payloads, n), decode)),
                     if n < |payloads| then EndedBy(payloads[n], decode, skips) else Open)
    decreases |payloads|
  {
    hide Handle, Items, EndedBy;
    if payloads == [] {
      assert p.yielded + [] == p.yielded;
    } else {
      var q, rest := Handle(p, payloads[0], decode, skips), payloads[1..];
      HandleYields(p, payloads[0], decode, skips);
      assert payloads == [payloads[0]] + rest;
      if n == 0 {
        HandleAllEnded(q, rest, decode, skips);
        assert LookedAt(payloads, n) == [payloads[0]] + [];
        ItemsCons(payloads[0], [], decode);
        NoItems(decode);
      } else {
        EndsLater(payloads, n, decode, skips);
        YieldsExactly(q, rest, n - 1, decode, skips);
        assert LookedAt(payloads, n) == [payloads[0]] + LookedAt(rest, n - 1);
        ItemsCons(payloads[0], LookedAt(rest, n - 1), decode);
        Regroup(p.yielded, Items(payloads[0], decode), Flatten(ItemsOf(LookedAt(rest, n - 1), decode)));
      }
    }
  }

  lemma {:induction false} NoItems<D>(decode: string -> Decoded<D>)
    ensures Flatten(ItemsOf([], decode)) == []
  {
  }

  lemma {:induction false} Regroup<D>(a: seq<D>, b: seq<D>, c: seq<D>)
    ensures (a + b) + c == a + (b + c) && b + [] == b
  {
  }

  lemma {:induction false} EndsLater<D>(payloads: seq<string>, n: nat, decode: string -> Decoded<D>, skips: bool)
    requires payloads != [] && n > 0 && EndsAt(payloads, n, decode, skips)
    ensures EndsAt(payloads[1..], n - 1, decode, skips) && EndedBy(payloads[0], decode, skips) == Open
  {
    hide EndedBy;
  }

  /** A whole stream: the payloads of its complete events, up to the one that ends it. */
  lemma {:induction false} StreamYields<D>(d: Dialect, s: string, decode: string -> Decoded<D>, n: nat)
    requires EndsAt(Payloads(d, CutEvents(s).events), n, decode, d.skipsBadJson)
    ensures var payloads := Payloads(d, CutEvents(s).events);
            Whole(d, s, decode)
            == Progress(Flatten(ItemsOf(LookedAt(payloads, n), decode)),
                        if n < |payloads| then EndedBy(payloads[n], decode, d.skipsBadJson) else Open)
  {
    hide Payloads, CutEvents, Flatten, ItemsOf, LookedAt, HandleAll, EndsAt, EndedBy;
    var payloads := Payloads(d, CutEvents(s).events);
    YieldsExactly(Start<D>(), payloads, n, decode, d.skipsBadJson);
    assert [] + Flatten(ItemsOf(LookedAt(payloads, n), decode)) == Flatten(ItemsOf(LookedAt(payloads, n), decode));
  }

  /** Two contents in one payload are both yielded. */
  lemma {:induction false} TwoContents(skips: bool)
    ensures HandleAll(Start(), ["{}"], x => Deltas(["a", "b"]), skips) == Progress(["a", "b"], Open)
  {
    assert ["{}"][1..] == [];
  }
}

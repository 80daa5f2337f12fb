/** Every accepted source has a printable policy, so printing is a normal form of sources; and
    a source keeps its meaning in every other layout of its tokens. */
module NormalForm {
  import opened Outcomes
  import opened PolicyAst
  import opened Chars
  import opened Decimals
  import opened Tokens
  import opened Lexing
  import opened Layout
  import opened Parsing
  import opened Grammar
  import opened Printing
  import opened Spans
  import opened Soundness
  import Accepted
  import Bodies
  import Completeness
  import RoundTrip

  /** What the lexer makes: punctuation of any kind, or a token with a spelling. */
  predicate LexedToken(t: Token) {
    t.kind == Punct || t.kind == EOF || LegalToken(t)
  }

  predicate AllLexed(ts: seq<Token>) {
    forall k | 0 <= k < |ts| :: LexedToken(ts[k])
  }

  lemma {:induction false} LexedConcat(a: seq<Token>, b: seq<Token>)
    ensures AllLexed(a + b) <==> AllLexed(a) && AllLexed(b)
  {
    hide LexedToken;
    if AllLexed(a + b) {
      assert forall k | 0 <= k < |a| :: a[k] == (a + b)[k];
      assert forall k | 0 <= k < |b| :: b[k] == (a + b)[|a| + k];
    }
  }

  lemma {:induction false} LexedIdent(s: string)
    requires LexedToken(Token(Ident, s))
    ensures IsIdent(s)
  {
  }

  lemma {:induction false} LiteralQuotable(t: Token)
    requires IsLiteralToken(t) && LexedToken(t)
    ensures IsQuotable(t.text) && PrintableOperand(LiteralAst(t))
  {
  }

  lemma {:induction false} StepsPrintable(steps: seq<Step>)
    requires AllLexed(StepsTokens(steps))
    ensures |StepNames(steps)| == |steps| && forall k | 0 <= k < |steps| :: IsIdent(StepNames(steps)[k])
  {
    hide LexedToken, IsIdent;
    if steps != [] {
      LexedConcat([steps[0].dot, Token(Ident, steps[0].name)], StepsTokens(steps[1..]));
      assert LexedToken([steps[0].dot, Token(Ident, steps[0].name)][1]);
      LexedIdent(steps[0].name);
      StepsPrintable(steps[1..]);
    }
  }

  lemma {:induction false} OperandPrintable(o: OperandTree)
    requires OperandOk(o) && AllLexed(OperandTokens(o))
    ensures PrintableOperand(OperandAst(o))
  {
    hide LexedToken, IsIdent;
    match o
    case LiteralTree(t) =>
      assert OperandTokens(o)[0] == t;
      LiteralQuotable(t);
    case NotTree(inner) =>
      LexedConcat([Token(Ident, "not")], OperandTokens(inner));
      OperandPrintable(inner);
    case PathTree(ns, first, tail) =>
      var head := [Token(Ident, ns), first.dot, Token(Ident, first.name)];
      LexedConcat(head, StepsTokens(tail));
      assert LexedToken(head[0]) && LexedToken(head[2]);
      LexedIdent(ns);
      LexedIdent(first.name);
      StepsPrintable(tail);
    case CallTree(ns, first, open, args) =>
      var head := [Token(Ident, ns), first.dot, Token(Ident, first.name), open];
      LexedConcat(head, ArgsTokens(args));
      assert LexedToken(head[0]) && LexedToken(head[2]);
      LexedIdent(ns);
      LexedIdent(first.name);
      ArgsPrintable(args);
  }

  lemma {:induction false} ArgsPrintable(a: ArgsTree)
    requires ArgsOk(a) && AllLexed(ArgsTokens(a))
    ensures PrintableTexts(ArgsAst(a), ")")
  {
    hide LexedToken, IsQuotable;
    if a.MoreArgs? {
      LexedConcat(OperandTokens(a.arg), OptionTokens(a.comma) + ArgsTokens(a.rest));
      LexedConcat(OptionTokens(a.comma), ArgsTokens(a.rest));
      ArgsPrintable(a.rest);
      if a.arg.LiteralTree? {
        assert OperandTokens(a.arg)[0] == a.arg.token;
        LiteralQuotable(a.arg.token);
      }
    }
  }

  lemma {:induction false} ItemsPrintable(a: ItemsTree)
    requires ItemsOk(a) && AllLexed(ItemsTokens(a))
    ensures PrintableTexts(ItemsAst(a), "]")
  {
    hide LexedToken, IsQuotable;
    if a.MoreItems? {
      LexedConcat([a.item], OptionTokens(a.comma) + ItemsTokens(a.rest));
      LexedConcat(OptionTokens(a.comma), ItemsTokens(a.rest));
      ItemsPrintable(a.rest);
      assert LexedToken([a.item][0]);
      LiteralQuotable(a.item);
    }
  }

  lemma {:induction false} GatePrintable(c: CmpTree)
    requires CmpOk(c) && !c.BareTree? && AllLexed(CmpTokens(c))
    ensures PrintableGate(CmpAst(c))
  {
    hide LexedToken, OperandOk, OperandTokens, OperandAst, PrintableOperand, ItemsOk, ItemsTokens, PrintableTexts;
    match c
    case InTree(o, items) =>
      LexedConcat(OperandTokens(o), [Token(Ident, "in"), Token(Punct, "[")] + ItemsTokens(items));
      LexedConcat([Token(Ident, "in"), Token(Punct, "[")], ItemsTokens(items));
      OperandPrintable(o);
      ItemsPrintable(items);
    case CompareTree(l, op, r) =>
      LexedConcat(OperandTokens(l), [Token(Punct, op)] + OperandTokens(r));
      LexedConcat([Token(Punct, op)], OperandTokens(r));
      OperandPrintable(l);
      OperandPrintable(r);
  }

  // Clauses

  lemma {:induction false} WeightDecimal(text: string)
    requires IsWeight(text)
    ensures IsDecimal(Weight(text)) && Weight(text).Floor >= 0
  {
    ParseFloatIsDecimal(text);
  }

  lemma {:induction false} DimsPrintable(dims: seq<Token>)
    requires AllLexed(dims) && forall k | 0 <= k < |dims| :: !IsLexStop(dims[k])
    ensures forall k | 0 <= k < |dims| :: PrintableDim(DimNames(dims)[k])
  {
    hide LexedToken, IsIdent;
    forall k | 0 <= k < |dims| ensures PrintableDim(DimNames(dims)[k]) {
      if dims[k].kind == Ident {
        LexedIdent(dims[k].text);
      }
    }
  }

  lemma {:induction false} PairsLexed(ps: seq<Pair>, k: nat)
    requires AllLexed(PairsTokens(ps)) && k < |ps|
    ensures LexedToken(ps[k].dim)
  {
    hide LexedToken;
    LexedConcat([ps[0].dim, Token(Number, ps[0].weight)], PairsTokens(ps[1..]));
    if k > 0 {
      PairsLexed(ps[1..], k - 1);
    } else {
      assert LexedToken([ps[0].dim, Token(Number, ps[0].weight)][0]);
    }
  }

  lemma {:induction false} WeightsDecimal(ps: seq<Pair>)
    requires forall k | 0 <= k < |ps| :: IsWeight(ps[k].weight)
    ensures forall s | s in WeightsOf(ps) :: IsDecimal(WeightsOf(ps)[s])
  {
    hide IsDecimal, IsWeight, Weight;
    if ps != [] {
      WeightsDecimal(ps[..|ps| - 1]);
      WeightDecimal(ps[|ps| - 1].weight);
    }
  }

  lemma {:induction false} PairKey(p: Pair, first: string)
    requires LexedToken(p.dim)
    requires IsDim(p.dim.text) || (IdentText(p.dim) == first && first != "lexicographic")
    ensures PrintableKey(IdentText(p.dim), first)
  {
  }

  lemma {:induction false} WeightedPrintable(c: ClauseTree)
    requires c.WeightedTree? && ClauseOk(c) && AllLexed(ClauseTail(c))
    ensures PrintableOptimize(ClauseAst(c).optimize)
  {
    hide LexedToken, IsDim, IsWeight, PrintableKey, IsDecimal, WeightsOf, PairsTokens;
    var ps := [c.first] + c.more;
    var first := IdentText(c.first.dim);
    assert forall k | 0 < k < |ps| :: ps[k] == c.more[k - 1];
    Accepted.WeightsKeys(ps);
    WeightsDecimal(ps);
    assert IdentText(ps[0].dim) == first;
    assert first in WeightsOf(ps);
    forall s | s in WeightsOf(ps) ensures PrintableKey(s, first) {
      var k :| 0 <= k < |ps| && IdentText(ps[k].dim) == s;
      PairsLexed(ps, k);
      PairKey(ps[k], first);
    }
    assert PrintableWeights(WeightsOf(ps), first);
  }

  lemma {:induction false} LexPrintable(c: ClauseTree)
    requires c.LexTree? && ClauseOk(c) && AllLexed(ClauseTail(c))
    ensures PrintableOptimize(ClauseAst(c).optimize)
  {
    hide LexedToken, PrintableDim, IsLexStop;
    LexedConcat([Token(Ident, "lexicographic")], c.dims);
    DimsPrintable(c.dims);
  }

  /** What one printable clause contributes. */
  ghost predicate ClausePrintable(c: Clause) {
    match c
    case RequireClause(e) => PrintableGate(e)
    case PreferClause(f) => IsIdent(f.feature) && IsDecimal(f.weight)
    case OptimizeClause(o) => PrintableOptimize(o)
    case FallbackClause(f) => IsIdent(f.cls) && f.maxAttempts >= 0
    case SwitchClause(s) => IsDecimal(s.minGain) && s.minHoldSeconds >= 0
  }

  lemma {:induction false} LimitPrintable(l: Option<Limit>, word: string)
    requires LimitOk(l, word)
    ensures LimitAst(l) >= 0
  {
    if l.Some? {
      WeightDecimal(l.value.number);
    }
  }

  lemma {:induction false} ClauseIsPrintable(c: ClauseTree)
    requires ClauseOk(c) && AllLexed(ClauseTail(c))
    ensures ClausePrintable(ClauseAst(c))
  {
    hide LexedToken, IsIdent, IsDecimal, PrintableGate, PrintableOptimize, CmpOk, CmpTokens, CmpAst, Weight,
      LimitAst, LimitOk, IsWeight;
    match c
    case RequireTree(cmp) => GatePrintable(cmp);
    case PreferTree(f, w, n) =>
      assert LexedToken(ClauseTail(c)[0]);
      LexedIdent(f);
      WeightDecimal(n);
    case LexTree(_) => LexPrintable(c);
    case WeightedTree(_, _) => WeightedPrintable(c);
    case FallbackTree(cls, limit) =>
      assert LexedToken(ClauseTail(c)[0]);
      LexedIdent(cls);
      LimitPrintable(limit, "max_attempts");
    case SwitchTree(_, _, g, limit) =>
      WeightDecimal(g);
      LimitPrintable(limit, "min_hold_seconds");
  }

  /** One clause more keeps a policy printable. */
  lemma {:induction false} ApplyPrintable(p: Policy, c: Clause)
    requires Printable(p) && ClausePrintable(c)
    ensures Printable(Apply(p, c)) && Apply(p, c).name == p.name
  {
    hide IsIdent, IsDecimal, PrintableGate, PrintableOptimize;
  }

  lemma {:induction false} BodyPrintable(p: Policy, cs: seq<ClauseTree>)
    requires Printable(p) && (forall k | 0 <= k < |cs| :: ClauseOk(cs[k])) && AllLexed(BodyTokens(cs))
    ensures Printable(Merge(p, BodyAst(p.name, cs)))
    decreases |cs|
  {
    hide LexedToken, ClauseOk, ClauseTail, Printable, ClausePrintable, ClauseAst, Apply, Merge, BodyAst;
    if cs == [] {
      MergeNothing(p);
    } else {
      var c := cs[0];
      LexedConcat(ClauseTokens(c), BodyTokens(cs[1..]));
      LexedConcat([Token(Ident, Keyword(c))], ClauseTail(c));
      ClauseIsPrintable(c);
      ApplyPrintable(p, ClauseAst(c));
      BodyPrintable(Apply(p, ClauseAst(c)), cs[1..]);
      ApplyThenBody(p.name, c, cs[1..], p);
      assert cs == [c] + cs[1..];
    }
  }

  lemma {:induction false} EmptyPrintable(name: string)
    requires IsIdent(name)
    ensures Printable(EmptyPolicy(name))
  {
  }

  /** Every accepted source has a printable policy. */
  lemma {:induction false} AcceptedIsPrintable(src: string)
    requires ParseSource(src).Ok?
    ensures Printable(ParseSource(src).value)
  {
    hide LexFrom, PolicyAt, BodyTokens, BodyAst, Merge, Printable, LegalToken, At;
    var ls := LexFrom(src, 0).value;
    var toks := Bare(ls);
    LexedShape(src, 0);
    LexedTokensLegal(src, 0);
    assert AllLexed(toks);
    var t := SoundPolicy(toks);
    var ts := PolicyTokens(t);
    ReadTokensLexed(toks, ts);
    LexedConcat(HeaderTokens(t), BodyTokens(t.clauses) + [Token(Punct, "}")]);
    LexedConcat(BodyTokens(t.clauses), [Token(Punct, "}")]);
    assert LexedToken(HeaderTokens(t)[1]);
    LexedIdent(t.name);
    EmptyPrintable(t.name);
    BodyPrintable(EmptyPolicy(t.name), t.clauses);
    Bodies.NamedBody(t.name, t.clauses);
    Completeness.MergeEmpty(t.name, BodyAst(t.name, t.clauses));
  }

  lemma {:induction false} ReadTokensLexed(toks: seq<Token>, ts: seq<Token>)
    requires AllLexed(toks) && At(toks, 0, ts)
    ensures AllLexed(ts)
  {
    hide LexedToken;
    assert forall k | 0 <= k < |ts| :: ts[k] == toks[k];
  }

  /** Printing is a normal form: for every accepted source, without any condition, the text
      printed for its policy is accepted with the same policy. */
  lemma {:induction false} PrintIsNormalForm(src: string)
    requires ParseSource(src).Ok?
    ensures Printable(ParseSource(src).value)
    ensures ParseSource(Print(ParseSource(src).value)) == ParseSource(src)
  {
    hide ParseSource, Printable, Print;
    AcceptedIsPrintable(src);
    RoundTrip.PrintRoundTrip(ParseSource(src).value);
  }

  /** The policies that some source has are exactly the printable ones. */
  lemma {:induction false} PrintableExactly(p: Policy)
    ensures Printable(p) <==> exists src :: ParseSource(src) == Ok(p)
  {
    hide ParseSource, Printable, Print;
    if Printable(p) {
      RoundTrip.PrintRoundTrip(p);
    }
    if src :| ParseSource(src) == Ok(p) {
      AcceptedIsPrintable(src);
    }
  }

  /** The tokens of a source, without the end marker. */
  function SourceTokens(src: string): seq<Token>
    requires LexFrom(src, 0).Ok?
  {
    var ts := Bare(LexFrom(src, 0).value);
    if ts == [] then [] else ts[..|ts| - 1]
  }

  /** Layout and comments never matter: any other layout of the tokens of a source lexes to
      the same tokens and parses to the same result, success or not. */
  lemma {:induction false} RelayoutSame(src: string, gaps: seq<string>)
    requires LexFrom(src, 0).Ok?
    requires |gaps| == |SourceTokens(src)| + 1 && LayoutOk(SourceTokens(src), gaps)
    ensures LexFrom(Render(SourceTokens(src), gaps), 0).Ok?
    ensures Bare(LexFrom(Render(SourceTokens(src), gaps), 0).value) == Bare(LexFrom(src, 0).value)
    ensures ParseSource(Render(SourceTokens(src), gaps)) == ParseSource(src)
  {
    hide LexFrom, LayoutOk, Render, PolicyAt;
    var ts := SourceTokens(src);
    LexedShape(src, 0);
    RenderLexes(ts, gaps);
    assert ts + [EOF_TOKEN] == Bare(LexFrom(src, 0).value);
  }

  /** Every ASCII source that lexes has such layouts: one space between its tokens is one. */
  lemma {:induction false} ReformatSame(src: string)
    requires LexFrom(src, 0).Ok? && IsAscii(src)
    ensures ParseSource(Render(SourceTokens(src), Spaces(|SourceTokens(src)|))) == ParseSource(src)
  {
    hide LexFrom, LayoutOk, Render, PolicyAt, LegalToken, IsAscii, ParseSource;
    var ts := SourceTokens(src);
    LexedTokensLegal(src, 0);
    assert forall k | 0 <= k < |ts| :: LegalToken(ts[k]);
    SpacesOk(ts);
    RelayoutSame(src, Spaces(|ts|));
  }
}

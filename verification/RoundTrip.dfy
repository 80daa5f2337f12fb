/** Printing and parsing are inverse: every printable policy is read back from its text in any
    layout, and every accepted source has a printable policy. */
module RoundTrip {
  import opened Outcomes
  import opened PolicyAst
  import opened Decimals
  import opened Chars
  import opened Tokens
  import opened Lexing
  import opened Layout
  import opened Parsing
  import opened Grammar
  import opened Printing
  import opened Soundness
  import opened Completeness
  import opened Bodies
  import Accepted

  // Trees of printable policies are legal, mean the policy and have spellable tokens

  lemma {:induction false} TailStepsOk(segs: seq<string>)
    requires forall k | 0 <= k < |segs| :: IsIdent(segs[k])
    ensures StepNames(TailSteps(segs)) == segs && LegalTokens(StepsTokens(TailSteps(segs)))
    ensures forall k | 0 <= k < |TailSteps(segs)| :: TailSteps(segs)[k].dot.text == "."
  {
    hide IsIdent, LegalTokens;
    if segs == [] {
      NothingLegal();
    } else {
      TailStepsOk(segs[1..]);
      StepLegal(segs[0]);
      LegalConcat([DOT, Token(Ident, segs[0])], StepsTokens(TailSteps(segs[1..])));
      assert TailSteps(segs)[1..] == TailSteps(segs[1..]);
    }
  }

  lemma {:induction false} NothingLegal()
    ensures LegalTokens([])
  {
  }

  lemma {:induction false} StepLegal(name: string)
    requires IsIdent(name)
    ensures LegalTokens([DOT, Token(Ident, name)])
  {
    hide LegalPunct;
    PunctsLegal();
  }

  lemma {:induction false} PunctsLegal()
    ensures LegalToken(Token(Punct, "(")) && LegalToken(Token(Punct, ")")) && LegalToken(Token(Punct, ","))
    ensures LegalToken(Token(Punct, "[")) && LegalToken(Token(Punct, "]")) && LegalToken(DOT)
    ensures LegalToken(Token(Punct, "{")) && LegalToken(Token(Punct, "}"))
  {
    hide LegalToken;
    PunctLegal('(');
    PunctLegal(')');
    PunctLegal(',');
    PunctLegal('[');
    PunctLegal(']');
    PunctLegal('.');
    PunctLegal('{');
    PunctLegal('}');
  }

  lemma {:induction false} PunctLegal(c: char)
    requires c as int < 0x80 && !IsSpace(c) && c != '#' && !IsQuote(c) && !IsDigit(c) && !IsIdentStart(c)
    ensures LegalToken(Token(Punct, [c]))
  {
  }

  lemma {:induction false} TextsArgsOk(texts: seq<string>)
    requires PrintableTexts(texts, ")")
    ensures ArgsOk(TextsArgs(texts)) && ArgsAst(TextsArgs(texts)) == texts && LegalTokens(ArgsTokens(TextsArgs(texts)))
  {
    hide LegalToken, LegalTokens, ArgsTokens, IsQuotable;
    if texts == [] {
      NoArgsLegal();
    } else {
      TextsArgsOk(texts[1..]);
      ArgLegal(texts);
    }
  }

  lemma {:induction false} NoArgsLegal()
    ensures LegalTokens(ArgsTokens(TextsArgs([])))
  {
    hide LegalPunct;
    PunctsLegal();
  }

  lemma {:induction false} ArgLegal(texts: seq<string>)
    requires texts != [] && PrintableTexts(texts, ")") && LegalTokens(ArgsTokens(TextsArgs(texts[1..])))
    ensures LegalTokens(ArgsTokens(TextsArgs(texts)))
  {
    hide LegalTokens, LegalPunct, PrintableTexts;
    var a := TextsArgs(texts);
    CommaLegal(a.comma);
    TextLegal(texts);
    LegalConcat(OptionTokens(a.comma), ArgsTokens(a.rest));
    LegalConcat(OperandTokens(a.arg), OptionTokens(a.comma) + ArgsTokens(a.rest));
  }

  lemma {:induction false} CommaLegal(comma: Option<Token>)
    requires comma == None || comma == Some(Token(Punct, ","))
    ensures LegalTokens(OptionTokens(comma))
  {
    hide LegalPunct;
    PunctsLegal();
  }

  lemma {:induction false} TextLegal(texts: seq<string>)
    requires texts != [] && PrintableTexts(texts, ")")
    ensures LegalTokens([Token(String, texts[0])])
  {
  }

  lemma {:induction false} TextsItemsOk(texts: seq<string>)
    requires PrintableTexts(texts, "]")
    ensures ItemsOk(TextsItems(texts)) && ItemsAst(TextsItems(texts)) == texts
            && LegalTokens(ItemsTokens(TextsItems(texts)))
  {
    hide LegalPunct;
    PunctsLegal();
    if texts != [] {
      TextsItemsOk(texts[1..]);
      var a := TextsItems(texts);
      LegalConcat(OptionTokens(a.comma), ItemsTokens(a.rest));
      LegalConcat([a.item], OptionTokens(a.comma) + ItemsTokens(a.rest));
    }
  }

  lemma {:induction false} OperandWords(s: string)
    requires IsBoolean(s) || s == "not" || s == "in" || s == "lexicographic"
    ensures LegalToken(Token(Ident, s))
  {
  }

  lemma {:induction false} KeywordLegal(c: ClauseTree)
    ensures LegalToken(Token(Ident, Keyword(c)))
  {
  }

  lemma {:induction false} LimitWords(s: string)
    requires s == "max_attempts" || s == "min_hold_seconds"
    ensures LegalToken(Token(Ident, s))
  {
  }

  lemma {:induction false} FillerWords(s: string)
    requires s == "policy" || s == "weight" || s == "only_if" || s == "expected_gain"
    ensures LegalToken(Token(Ident, s))
  {
  }

  lemma {:induction false} DimLegal(s: string)
    requires IsDim(s)
    ensures LegalToken(Token(Ident, s))
  {
  }

  lemma {:induction false} OperandOfOk(e: Expr)
    requires PrintableOperand(e)
    ensures OperandOk(OperandOf(e)) && OperandAst(OperandOf(e)) == e && LegalTokens(OperandTokens(OperandOf(e)))
  {
    match e
    case Literal(kind, s) => LiteralOfOk(e);
    case Path(ns, segs) => PathOfOk(e);
    case Call(ns, name, args) => CallOfOk(e);
    case Not(inner) =>
      OperandOfOk(inner);
      OperandWords("not");
      LegalConcat([Token(Ident, "not")], OperandTokens(OperandOf(inner)));
  }

  lemma {:induction false} LiteralOfOk(e: Expr)
    requires e.Literal? && PrintableOperand(e)
    ensures OperandOk(OperandOf(e)) && OperandAst(OperandOf(e)) == e && LegalTokens(OperandTokens(OperandOf(e)))
  {
    if e.kind == BooleanLiteral {
      OperandWords(e.text);
    }
  }

  lemma {:induction false} DottedLegal(ns: string, name: string)
    requires IsIdent(ns) && IsIdent(name)
    ensures LegalTokens([Token(Ident, ns), DOT, Token(Ident, name)])
  {
    hide LegalPunct;
    PunctsLegal();
  }

  lemma {:induction false} PathOfOk(e: Expr)
    requires e.Path? && PrintableOperand(e)
    ensures OperandOk(OperandOf(e)) && OperandAst(OperandOf(e)) == e && LegalTokens(OperandTokens(OperandOf(e)))
  {
    hide LegalTokens, IsIdent;
    DottedLegal(e.ns, e.segments[0]);
    TailStepsOk(e.segments[1..]);
    LegalConcat([Token(Ident, e.ns), DOT, Token(Ident, e.segments[0])], StepsTokens(TailSteps(e.segments[1..])));
  }

  lemma {:induction false} OpenLegal()
    ensures LegalTokens([Token(Punct, "(")])
  {
    PunctsLegal();
  }

  lemma {:induction false} CallOfOk(e: Expr)
    requires e.Call? && PrintableOperand(e)
    ensures OperandOk(OperandOf(e)) && OperandAst(OperandOf(e)) == e && LegalTokens(OperandTokens(OperandOf(e)))
  {
    hide LegalTokens, IsIdent, PrintableTexts;
    DottedLegal(e.ns, e.name);
    OpenLegal();
    TextsArgsOk(e.args);
    LegalConcat([Token(Ident, e.ns), DOT, Token(Ident, e.name)], [Token(Punct, "(")]);
    LegalConcat([Token(Ident, e.ns), DOT, Token(Ident, e.name)] + [Token(Punct, "(")], ArgsTokens(TextsArgs(e.args)));
    assert OperandTokens(OperandOf(e))
        == [Token(Ident, e.ns), DOT, Token(Ident, e.name)] + [Token(Punct, "(")] + ArgsTokens(TextsArgs(e.args));
  }

  lemma {:induction false} OpLegal(op: string)
    requires IsCompareOp(op)
    ensures LegalToken(Token(Punct, op))
  {
  }

  lemma {:induction false} GateOfOk(e: Expr)
    requires PrintableGate(e)
    ensures !GateOf(e).BareTree? && CmpOk(GateOf(e)) && CmpAst(GateOf(e)) == e && LegalTokens(CmpTokens(GateOf(e)))
  {
    hide PrintableOperand, OperandOk, OperandOf, OperandTokens, OperandAst, ItemsOk, ItemsTokens, LegalToken,
      PrintableTexts, TextsItems;
    match e
    case In(o, items) =>
      OperandOfOk(o);
      TextsItemsOk(items);
      PunctsLegal();
      OperandWords("in");
      var word := [Token(Ident, "in"), Token(Punct, "[")];
      LegalConcat(word, ItemsTokens(TextsItems(items)));
      LegalConcat(OperandTokens(OperandOf(o)), word + ItemsTokens(TextsItems(items)));
    case Compare(l, op, r) =>
      OperandOfOk(l);
      OperandOfOk(r);
      OpLegal(op);
      LegalConcat([Token(Punct, op)], OperandTokens(OperandOf(r)));
      LegalConcat(OperandTokens(OperandOf(l)), [Token(Punct, op)] + OperandTokens(OperandOf(r)));
  }

  // Numbers

  lemma {:induction false} DecimalTextLegal(n: nat, k: nat)
    ensures IsNumber(DecimalText(n, k))
  {
    if k > 0 {
      var s := Padded(n, k + 1);
      assert DecimalText(n, k)[0] == s[0];
    }
  }

  lemma {:induction false} WeightTextOk(w: real)
    requires IsDecimal(w)
    ensures IsWeight(WeightText(w)) && Weight(WeightText(w)) == w && LegalToken(Token(Number, WeightText(w)))
  {
    hide DecimalText, ParseFloat;
    var n: nat, k: nat :| w == DecimalValue(n, k) && WeightText(w) == DecimalText(n, k);
    DecimalRoundTrip(n, k);
    DecimalTextLegal(n, k);
  }

  lemma {:induction false} LimitOfOk(word: string, n: int)
    requires n >= 0 && (word == "max_attempts" || word == "min_hold_seconds")
    ensures LimitOk(IntegerLimit(word, n), word) && LimitAst(IntegerLimit(word, n)) == n
    ensures LegalTokens(LimitTokens(IntegerLimit(word, n)))
  {
    hide DecimalText, ParseFloat;
    IntegerRoundTrip(n);
    DecimalTextLegal(n, 0);
    LimitWords(word);
  }

  // Clauses

  /** A list of clauses that can be printed. */
  ghost predicate ClausesLegal(cs: seq<ClauseTree>) {
    (forall k | 0 <= k < |cs| :: ClauseOk(cs[k])) && LegalTokens(BodyTokens(cs))
  }

  lemma {:induction false} ClausesLegalConcat(a: seq<ClauseTree>, b: seq<ClauseTree>)
    requires ClausesLegal(a) && ClausesLegal(b)
    ensures ClausesLegal(a + b)
  {
    hide ClauseOk, LegalTokens, BodyTokens;
    BodyTokensConcat(a, b);
    LegalConcat(BodyTokens(a), BodyTokens(b));
  }

  lemma {:induction false} ClauseLegal(c: ClauseTree)
    requires ClauseOk(c) && LegalTokens(ClauseTail(c))
    ensures ClausesLegal([c])
  {
    hide LegalToken, ClauseOk, ClauseTail;
    KeywordLegal(c);
    LegalConcat([Token(Ident, Keyword(c))], ClauseTail(c));
    assert BodyTokens([c]) == ClauseTokens(c) + BodyTokens([]);
    assert BodyTokens([c]) == ClauseTokens(c);
  }

  lemma {:induction false} RequireTreesOk(name: string, gates: seq<Expr>)
    requires forall k | 0 <= k < |gates| :: PrintableGate(gates[k])
    ensures ClausesLegal(RequireTrees(gates))
    ensures BodyAst(name, RequireTrees(gates)) == Policy(name, gates, [], None, None, None)
  {
    hide PrintableGate, GateOf, CmpAst, CmpOk, CmpTokens, ClausesLegal, BodyAst;
    var cs := RequireTrees(gates);
    if gates == [] {
      NoClauses(name);
      assert cs == [];
    } else {
      RequireTreesOk(name, gates[1..]);
      assert cs[1..] == RequireTrees(gates[1..]);
      GateOfOk(gates[0]);
      ClauseLegal(cs[0]);
      ClausesLegalConcat([cs[0]], cs[1..]);
      assert cs == [cs[0]] + cs[1..];
      assert gates == [gates[0]] + gates[1..];
      RequireCons(name, cs[0], cs[1..]);
    }
  }

  lemma {:induction false} RequireCons(name: string, c: ClauseTree, cs: seq<ClauseTree>)
    requires c.RequireTree?
    ensures var p := BodyAst(name, cs);
            BodyAst(name, [c] + cs) == p.(gates := [CmpAst(c.cmp)] + p.gates)
  {
    hide CmpAst;
    assert ([c] + cs)[1..] == cs;
  }

  lemma {:induction false} NoClauses(name: string)
    ensures ClausesLegal([])
    ensures BodyAst(name, []) == EmptyPolicy(name)
  {
  }

  lemma {:induction false} PreferTreesOk(name: string, prefers: seq<Prefer>)
    requires forall k | 0 <= k < |prefers| :: IsIdent(prefers[k].feature) && IsDecimal(prefers[k].weight)
    ensures ClausesLegal(PreferTrees(prefers))
    ensures BodyAst(name, PreferTrees(prefers)) == Policy(name, [], prefers, None, None, None)
  {
    hide IsDecimal, WeightText, IsWeight, Weight, ClausesLegal, IsIdent, BodyAst, PreferTrees;
    PreferTreesCons(prefers);
    if prefers == [] {
      NoClauses(name);
    } else {
      var first, rest := PreferTree(prefers[0].feature, "weight", WeightText(prefers[0].weight)),
          PreferTrees(prefers[1..]);
      PreferTreesOk(name, prefers[1..]);
      PreferLegal(prefers[0]);
      ClausesLegalConcat([first], rest);
      PreferCons(name, first, rest);
      assert prefers == [prefers[0]] + prefers[1..];
    }
  }

  lemma {:induction false} PreferTreesCons(prefers: seq<Prefer>)
    requires forall k | 0 <= k < |prefers| :: IsDecimal(prefers[k].weight)
    ensures PreferTrees(prefers) ==
            if prefers == [] then []
            else [PreferTree(prefers[0].feature, "weight", WeightText(prefers[0].weight))] + PreferTrees(prefers[1..])
  {
    hide IsDecimal, WeightText;
  }

  lemma {:induction false} PreferCons(name: string, c: ClauseTree, cs: seq<ClauseTree>)
    requires c.PreferTree?
    ensures var p := BodyAst(name, cs);
            BodyAst(name, [c] + cs) == p.(prefers := [Prefer(c.feature, Weight(c.weight))] + p.prefers)
  {
    hide Weight;
    assert ([c] + cs)[1..] == cs;
  }

  lemma {:induction false} PreferLegal(p: Prefer)
    requires IsIdent(p.feature) && IsDecimal(p.weight)
    ensures ClausesLegal([PreferTree(p.feature, "weight", WeightText(p.weight))])
    ensures Weight(WeightText(p.weight)) == p.weight
  {
    hide ClausesLegal, IsDecimal, WeightText, Weight, IsWeight, IsIdent;
    PreferTail(p);
    ClauseLegal(PreferTree(p.feature, "weight", WeightText(p.weight)));
  }

  lemma {:induction false} PreferTail(p: Prefer)
    requires IsIdent(p.feature) && IsDecimal(p.weight)
    ensures LegalTokens(ClauseTail(PreferTree(p.feature, "weight", WeightText(p.weight))))
    ensures IsWeight(WeightText(p.weight)) && Weight(WeightText(p.weight)) == p.weight
  {
    hide IsDecimal, WeightText, Weight, IsWeight;
    WeightTextOk(p.weight);
    FillerWords("weight");
  }

  // The optimize clause

  lemma {:induction false} DimTokenOk(s: string)
    requires PrintableDim(s)
    ensures LegalToken(DimToken(s)) && IdentText(DimToken(s)) == s && !IsLexStop(DimToken(s))
  {
  }

  lemma {:induction false} LexOfOk(o: Optimize)
    requires PrintableOptimize(o) && o.lexicographic
    ensures ClausesLegal([OptimizeOf(o)]) && ClauseAst(OptimizeOf(o)) == OptimizeClause(o)
  {
    hide PrintableDim, DimToken, IsLexStop, ClausesLegal;
    var c, dims := OptimizeOf(o), DimTokens(o.order);
    forall k | 0 <= k < |dims| ensures LegalToken(dims[k]) && IdentText(dims[k]) == o.order[k] && !IsLexStop(dims[k]) {
      DimTokenOk(o.order[k]);
    }
    assert DimNames(dims) == o.order;
    OperandWords("lexicographic");
    LegalConcat([Token(Ident, "lexicographic")], dims);
    ClauseLegal(c);
  }

  lemma {:induction false} KeyTokenOk(s: string, first: string)
    requires PrintableKey(s, first)
    ensures LegalToken(KeyToken(s)) && IdentText(KeyToken(s)) == s && s != "lexicographic"
    ensures s != first || IsDim(s) || s == "" ==> IsDim(KeyToken(s).text)
  {
    if IsDim(s) {
      DimLegal(s);
    }
  }

  /** Every name that is a key gets a pair. */
  lemma {:induction false} PairsCover(names: seq<string>, weights: map<string, real>, first: string, s: string)
    requires PrintableWeights(weights, first) && s in names && s in weights
    ensures HasKey(PairsOf(names, weights), s)
  {
    hide IsDecimal, KeyToken, WeightText, PrintableKey;
    var ps := PairsOf(names, weights);
    if s == names[0] {
      KeyTokenOk(s, first);
      assert IdentText(ps[0].dim) == s;
    } else {
      assert s in names[1..];
      PairsCover(names[1..], weights, first, s);
      var tail := PairsOf(names[1..], weights);
      var k :| 0 <= k < |tail| && IdentText(tail[k].dim) == s;
      assert ps[k + (|ps| - |tail|)] == tail[k];
    }
  }

  ghost predicate HasKey(ps: seq<Pair>, s: string) {
    exists k | 0 <= k < |ps| :: IdentText(ps[k].dim) == s
  }

  /** Every pair is right about its key and can be spelled. */
  lemma {:induction false} PairsOfOk(names: seq<string>, weights: map<string, real>, first: string)
    requires PrintableWeights(weights, first)
    ensures var ps := PairsOf(names, weights);
            LegalTokens(PairsTokens(ps)) && forall k | 0 <= k < |ps| :: PairOk(ps[k], weights)
  {
    hide IsDecimal, LegalToken, KeyToken, WeightText, Weight, PrintableKey;
    if names != [] {
      PairsOfOk(names[1..], weights, first);
      var s := names[0];
      if s in weights {
        var ps := PairsOf(names, weights);
        KeyTokenOk(s, first);
        WeightTextOk(weights[s]);
        LegalConcat([ps[0].dim, Token(Number, ps[0].weight)], PairsTokens(PairsOf(names[1..], weights)));
        assert ps[1..] == PairsOf(names[1..], weights);
      } else {
        assert PairsOf(names, weights) == PairsOf(names[1..], weights);
      }
    }
  }

  ghost predicate PairOk(p: Pair, weights: map<string, real>) {
    IdentText(p.dim) in weights && IsWeight(p.weight) && Weight(p.weight) == weights[IdentText(p.dim)]
    && IdentText(p.dim) != "lexicographic"
  }

  /** Pairs that agree with a map and cover its keys write that map. */
  lemma {:induction false} PairsWrite(ps: seq<Pair>, weights: map<string, real>)
    requires forall k | 0 <= k < |ps| :: PairOk(ps[k], weights)
    ensures forall s | s in WeightsOf(ps) :: s in weights && WeightsOf(ps)[s] == weights[s]
  {
    hide IsWeight, Weight;
    if ps != [] {
      PairsWrite(ps[..|ps| - 1], weights);
    }
  }

  /** Behind the first name all pairs are of known names. */
  lemma {:induction false} KnownPairsOk(names: seq<string>, weights: map<string, real>)
    requires forall s | s in weights :: IsDecimal(weights[s])
    requires forall k | 0 <= k < |names| :: IsDim(names[k]) || names[k] == ""
    ensures PairsOk(PairsOf(names, weights))
  {
    hide IsDecimal, IsDim, IsWeight, WeightText, KeyToken;
    if names != [] {
      KnownPairsOk(names[1..], weights);
      if names[0] in weights {
        KnownToken(names[0]);
        WeightTextOk(weights[names[0]]);
      }
    }
  }

  lemma {:induction false} KnownToken(s: string)
    requires IsDim(s) || s == ""
    ensures IsDim(KeyToken(s).text)
  {
  }

  lemma {:induction false} KnownKeys()
    ensures forall k | 0 <= k < |KNOWN_KEYS| :: IsDim(KNOWN_KEYS[k]) || KNOWN_KEYS[k] == ""
    ensures forall s | IsDim(s) || s == "" :: s in KNOWN_KEYS
  {
    assert KNOWN_KEYS[0] == "" && KNOWN_KEYS[1] == "quality" && KNOWN_KEYS[2] == "latency" && KNOWN_KEYS[3] == "tcos";
    assert KNOWN_KEYS[4] == "reliability" && KNOWN_KEYS[5] == "energy" && KNOWN_KEYS[6] == "capacity";
  }

  lemma {:induction false} WeightedPairs(weights: map<string, real>, first: string)
    requires PrintableWeights(weights, first) && weights != map[]
    ensures var ps := PairsOf([first] + KNOWN_KEYS, weights);
            && ps != [] && PairsOk(ps[1..]) && WeightsOf(ps) == weights
            && LegalTokens(PairsTokens(ps)) && PairOk(ps[0], weights)
  {
    hide PairsOf, PairsOk, WeightsOf, PairsTokens, KNOWN_KEYS, PairOk, LegalTokens, IsDim;
    var names := [first] + KNOWN_KEYS;
    var ps := PairsOf(names, weights);
    KnownKeys();
    PairsOfOk(names, weights, first);
    PairsWrite(ps, weights);
    forall s | s in weights ensures s in WeightsOf(ps) {
      assert PrintableKey(s, first);
      assert s in names;
      PairsCover(names, weights, first, s);
      Accepted.WeightsKeys(ps);
    }
    assert WeightsOf(ps) == weights;
    NotEmptyWeights(ps);
    PairsTail(first, weights);
  }

  lemma {:induction false} NotEmptyWeights(ps: seq<Pair>)
    requires WeightsOf(ps) != map[]
    ensures ps != []
  {
  }

  lemma {:induction false} PairsTail(first: string, weights: map<string, real>)
    requires forall s | s in weights :: IsDecimal(weights[s])
    requires PairsOf([first] + KNOWN_KEYS, weights) != []
    ensures PairsOk(PairsOf([first] + KNOWN_KEYS, weights)[1..])
  {
    hide PairsOk, IsDim, KNOWN_KEYS, IsDecimal, KeyToken, WeightText;
    KnownKeys();
    KnownPairsOk(KNOWN_KEYS, weights);
    assert ([first] + KNOWN_KEYS)[1..] == KNOWN_KEYS;
    var tail := PairsOf(KNOWN_KEYS, weights);
    if first !in weights {
      assert [] + tail == tail;
      PairsOkTail(tail);
    }
  }

  lemma {:induction false} WeightedOfOk(o: Optimize)
    requires PrintableOptimize(o) && !o.lexicographic
    ensures ClausesLegal([OptimizeOf(o)]) && ClauseAst(OptimizeOf(o)) == OptimizeClause(o)
  {
    hide PairsOf, PairsOk, WeightsOf, PairsTokens, KNOWN_KEYS, IsDecimal, PrintableKey, PairOk, LegalTokens,
      ClausesLegal;
    var first :| PrintableWeights(o.weights, first) && OptimizeOf(o) == WeightedOf(o.weights, first);
    WeightedPairs(o.weights, first);
    var ps := PairsOf([first] + KNOWN_KEYS, o.weights);
    assert [ps[0]] + ps[1..] == ps;
    PairFacts(ps[0], o.weights);
    ClauseLegal(OptimizeOf(o));
  }

  lemma {:induction false} PairFacts(p: Pair, weights: map<string, real>)
    requires PairOk(p, weights)
    ensures IdentText(p.dim) != "lexicographic" && IsWeight(p.weight)
  {
  }

  lemma {:induction false} SingleClause(name: string, c: ClauseTree)
    ensures BodyAst(name, [c]) == Apply(EmptyPolicy(name), ClauseAst(c))
  {
    hide BodyAst, Merge, ClauseAst;
    assert [c] + [] == [c];
    ApplyThenBody(name, c, [], EmptyPolicy(name));
    MergeNothing(Apply(EmptyPolicy(name), ClauseAst(c)));
    NamedBody(name, [c]);
    MergeEmpty(name, BodyAst(name, [c]));
  }

  lemma {:induction false} OptimizeTreesOk(name: string, o: Option<Optimize>)
    requires o.Some? ==> PrintableOptimize(o.value)
    ensures ClausesLegal(OptimizeTrees(o)) && |OptimizeTrees(o)| <= 1
    ensures BodyAst(name, OptimizeTrees(o)) == Policy(name, [], [], o, None, None)
  {
    hide PrintableOptimize, ClausesLegal, OptimizeOf, ClauseAst, BodyAst;
    if o.Some? {
      OneOptimize(o.value);
      SingleClause(name, OptimizeOf(o.value));
    } else {
      NoClauses(name);
    }
  }

  lemma {:induction false} OneOptimize(o: Optimize)
    requires PrintableOptimize(o)
    ensures ClausesLegal([OptimizeOf(o)]) && ClauseAst(OptimizeOf(o)) == OptimizeClause(o)
    ensures Keyword(OptimizeOf(o)) == "optimize"
  {
    hide ClausesLegal;
    if o.lexicographic {
      LexOfOk(o);
    } else {
      WeightedOfOk(o);
    }
  }

  lemma {:induction false} FallbackTreesOk(name: string, f: Option<Fallback>)
    requires f.Some? ==> IsIdent(f.value.cls) && f.value.maxAttempts >= 0
    ensures ClausesLegal(FallbackTrees(f))
    ensures BodyAst(name, FallbackTrees(f)) == Policy(name, [], [], None, f, None)
  {
    hide ClausesLegal, IntegerLimit, LimitAst, LimitOk, BodyAst;
    if f.Some? {
      var l := IntegerLimit("max_attempts", f.value.maxAttempts);
      LimitOfOk("max_attempts", f.value.maxAttempts);
      LegalConcat([Token(Ident, f.value.cls)], LimitTokens(l));
      ClauseLegal(FallbackTree(f.value.cls, l));
      SingleClause(name, FallbackTree(f.value.cls, l));
    } else {
      NoClauses(name);
    }
  }

  lemma {:induction false} SwitchTreesOk(name: string, s: Option<Switch>)
    requires s.Some? ==> IsDecimal(s.value.minGain) && s.value.minHoldSeconds >= 0
    ensures ClausesLegal(SwitchTrees(s))
    ensures BodyAst(name, SwitchTrees(s)) == Policy(name, [], [], None, None, s)
  {
    hide ClausesLegal, IntegerLimit, LimitAst, LimitOk, IsDecimal, WeightText, Weight, IsWeight, BodyAst;
    if s.Some? {
      SwitchLegal(s.value);
      SingleClause(name, SwitchTrees(s)[0]);
    } else {
      NoClauses(name);
    }
  }

  lemma {:induction false} SwitchLegal(s: Switch)
    requires IsDecimal(s.minGain) && s.minHoldSeconds >= 0
    ensures var l := IntegerLimit("min_hold_seconds", s.minHoldSeconds);
            && ClausesLegal([SwitchTree("only_if", "expected_gain", WeightText(s.minGain), l)])
            && Weight(WeightText(s.minGain)) == s.minGain && LimitAst(l) == s.minHoldSeconds
  {
    hide ClausesLegal, IntegerLimit, LimitAst, LimitOk, IsDecimal, WeightText, Weight, IsWeight;
    var l := IntegerLimit("min_hold_seconds", s.minHoldSeconds);
    LimitOfOk("min_hold_seconds", s.minHoldSeconds);
    WeightTextOk(s.minGain);
    FillerWords("only_if");
    FillerWords("expected_gain");
    OpLegal(">=");
    var head := [Token(Ident, "only_if"), Token(Ident, "expected_gain"), Token(Punct, ">="),
        Token(Number, WeightText(s.minGain))];
    LegalConcat(head, LimitTokens(l));
    ClauseLegal(SwitchTree("only_if", "expected_gain", WeightText(s.minGain), l));
  }

  lemma {:induction false} ClausesOfOk(p: Policy)
    requires Printable(p)
    ensures BodyOk(ClausesOf(p)) && LegalTokens(BodyTokens(ClausesOf(p)))
    ensures BodyAst(p.name, ClausesOf(p)) == p
  {
    hide PrintableGate, PrintableOptimize, IsDecimal, IsIdent, RequireTrees, PreferTrees, OptimizeTrees, FallbackTrees,
      SwitchTrees, ClausesLegal, BodyAst, BodyOk, BodyTokens, LegalTokens;
    var g, f, o, b, s := RequireTrees(p.gates), PreferTrees(p.prefers), OptimizeTrees(p.optimize),
        FallbackTrees(p.fallback), SwitchTrees(p.switch);
    RequireTreesOk(p.name, p.gates);
    PreferTreesOk(p.name, p.prefers);
    OptimizeTreesOk(p.name, p.optimize);
    FallbackTreesOk(p.name, p.fallback);
    SwitchTreesOk(p.name, p.switch);
    ClausesLegalConcat(b, s);
    ClausesLegalConcat(o, b + s);
    ClausesLegalConcat(f, o + (b + s));
    ClausesLegalConcat(g, f + (o + (b + s)));
    AstConcat(p.name, b, s);
    AstConcat(p.name, o, b + s);
    AstConcat(p.name, f, o + (b + s));
    AstConcat(p.name, g, f + (o + (b + s)));
    MergedParts(p);
    LexThenOther(p);
    LegalClauses(ClausesOf(p));
  }

  lemma {:induction false} MergedParts(p: Policy)
    ensures var n := p.name;
            Merge(Policy(n, p.gates, [], None, None, None),
                  Merge(Policy(n, [], p.prefers, None, None, None),
                        Merge(Policy(n, [], [], p.optimize, None, None),
                              Merge(Policy(n, [], [], None, p.fallback, None),
                                  Policy(n, [], [], None, None, p.switch))))) == p
  {
    assert p.gates + [] == p.gates && p.prefers + [] == p.prefers;
    assert [] + ([] + p.prefers) == p.prefers;
  }

  /** Clauses that are no optimize clauses. */
  predicate NoOptimizes(cs: seq<ClauseTree>) {
    forall k | 0 <= k < |cs| :: Keyword(cs[k]) != "optimize"
  }

  lemma {:induction false} PlainBody(cs: seq<ClauseTree>)
    requires ClausesLegal(cs) && (NoOptimizes(cs) || |cs| <= 1)
    ensures BodyOk(cs)
  {
    hide ClauseOk, BodyTokens, LegalTokens;
    forall k | 0 <= k < |cs| && cs[k].LexTree? ensures Keyword(cs[k]) == "optimize" {
    }
  }

  lemma {:induction false} PlainJoin(a: seq<ClauseTree>, b: seq<ClauseTree>)
    requires BodyOk(a) && BodyOk(b) && (NoOptimizes(a) || NoOptimizes(b))
    ensures BodyOk(a + b) && (NoOptimizes(a) && NoOptimizes(b) ==> NoOptimizes(a + b))
  {
    hide ClauseOk;
    if a != [] && a[|a| - 1].LexTree? {
      assert Keyword(a[|a| - 1]) == "optimize";
    }
    JoinBodies(a, b);
  }

  lemma {:induction false} PlainParts(p: Policy)
    requires Printable(p)
    ensures NoOptimizes(RequireTrees(p.gates)) && NoOptimizes(PreferTrees(p.prefers))
    ensures NoOptimizes(FallbackTrees(p.fallback)) && NoOptimizes(SwitchTrees(p.switch))
  {
  }

  /** In the printed order only one clause can be lexicographic, and no optimize follows it. */
  lemma {:induction false} LexThenOther(p: Policy)
    requires Printable(p) && ClausesLegal(RequireTrees(p.gates)) && ClausesLegal(PreferTrees(p.prefers))
    requires ClausesLegal(OptimizeTrees(p.optimize)) && |OptimizeTrees(p.optimize)| <= 1
    requires ClausesLegal(FallbackTrees(p.fallback)) && ClausesLegal(SwitchTrees(p.switch))
    ensures BodyOk(ClausesOf(p))
  {
    hide BodyOk, RequireTrees, PreferTrees, OptimizeTrees, FallbackTrees, SwitchTrees, ClausesLegal, NoOptimizes,
      PrintableGate, PrintableOptimize, IsDecimal, IsIdent;
    var g, f, o, b, s := RequireTrees(p.gates), PreferTrees(p.prefers), OptimizeTrees(p.optimize),
        FallbackTrees(p.fallback), SwitchTrees(p.switch);
    PlainParts(p);
    PlainBody(g);
    PlainBody(f);
    PlainBody(o);
    PlainBody(b);
    PlainBody(s);
    PlainJoin(b, s);
    PlainJoin(o, b + s);
    PlainJoin(f, o + (b + s));
    PlainJoin(g, f + (o + (b + s)));
  }

  lemma {:induction false} LegalClauses(cs: seq<ClauseTree>)
    requires ClausesLegal(cs)
    ensures LegalTokens(BodyTokens(cs))
  {
  }

  // Any layout of any tree

  /** A source that spells a legal tree in any layout parses to the meaning of the tree. */
  lemma {:induction false} RenderedTreeParses(t: PolicyTree, gaps: seq<string>)
    requires BodyOk(t.clauses) && |gaps| == |PolicyTokens(t)| + 1 && LayoutOk(PolicyTokens(t), gaps)
    ensures ParseSource(Render(PolicyTokens(t), gaps)) == Ok(BodyAst(t.name, t.clauses))
  {
    hide PolicyTokens, BodyOk, LayoutOk, Render, LexFrom, PolicyAt, BodyAst;
    var ts := PolicyTokens(t);
    RenderLexes(ts, gaps);
    assert (ts + [EOF_TOKEN])[0..|ts|] == ts;
    CompletePolicy(ts + [EOF_TOKEN], t);
  }

  lemma {:induction false} TreeOfOk(p: Policy)
    requires Printable(p)
    ensures var t := TreeOf(p); BodyOk(t.clauses) && LegalTokens(PolicyTokens(t)) && BodyAst(t.name, t.clauses) == p
  {
    hide Printable, BodyOk, ClausesOf, BodyAst, BodyTokens;
    var t := TreeOf(p);
    ClausesOfOk(p);
    NameLegal(p);
    FillerWords("policy");
    PunctsLegal();
    LegalConcat(BodyTokens(t.clauses), [Token(Punct, "}")]);
    LegalConcat(HeaderTokens(t), BodyTokens(t.clauses) + [Token(Punct, "}")]);
  }

  lemma {:induction false} NameLegal(p: Policy)
    requires Printable(p)
    ensures LegalToken(Token(Ident, p.name))
  {
  }

  /** The character-level round trip, in every layout. */
  lemma {:induction false} LayoutRoundTrip(p: Policy, gaps: seq<string>)
    requires Printable(p) && |gaps| == |PolicyTokens(TreeOf(p))| + 1 && LayoutOk(PolicyTokens(TreeOf(p)), gaps)
    ensures ParseSource(Render(PolicyTokens(TreeOf(p)), gaps)) == Ok(p)
  {
    hide Printable, TreeOf, PolicyTokens, LayoutOk, Render, BodyOk, BodyAst;
    TreeOfOk(p);
    RenderedTreeParses(TreeOf(p), gaps);
  }

  /** Parsing undoes printing. */
  lemma {:induction false} PrintRoundTrip(p: Policy)
    requires Printable(p)
    ensures ParseSource(Print(p)) == Ok(p)
  {
    hide Printable, TreeOf, PolicyTokens, LayoutOk, Render, BodyOk, BodyAst, LegalToken;
    var ts := PolicyTokens(TreeOf(p));
    TreeOfOk(p);
    SpacesOk(ts);
    LayoutRoundTrip(p, Spaces(|ts|));
  }
}

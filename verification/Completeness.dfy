/** Whatever the grammar spells is accepted: where the tokens of a legal tree stand, the parser
    reads exactly them and returns the meaning of the tree. */
module Completeness {
  import opened Outcomes
  import opened PolicyAst
  import opened Tokens
  import opened Parsing
  import opened Grammar
  import opened Spans
  import Soundness

  lemma {:induction false} CompleteSegments(toks: seq<Token>, i: nat, steps: seq<Step>)
    requires At(toks, i, StepsTokens(steps)) && forall k | 0 <= k < |steps| :: steps[k].dot.text == "."
    requires i + |StepsTokens(steps)| < |toks| && toks[i + |StepsTokens(steps)|].text != "."
    ensures Segments(toks, i) == Ok((StepNames(steps), i + |StepsTokens(steps)|))
    decreases |steps|
  {
    if steps != [] {
      var head := [steps[0].dot, Token(Ident, steps[0].name)];
      AtConcat(toks, i, head, StepsTokens(steps[1..]));
      assert toks[i] == head[0] && toks[i + 1] == head[1];
      CompleteSegments(toks, i + 2, steps[1..]);
    }
  }

  lemma {:induction false} CompleteOperand(toks: seq<Token>, i: nat, o: OperandTree)
    requires OperandOk(o) && At(toks, i, OperandTokens(o))
    requires i + |OperandTokens(o)| < |toks| && OperandEnds(o, toks[i + |OperandTokens(o)|])
    ensures Operand(toks, i) == Ok((OperandAst(o), i + |OperandTokens(o)|))
    decreases o
  {
    hide Operand, Args, Segments;
    AtHead(toks, i, OperandTokens(o));
    match o
    case LiteralTree(t) => LiteralReads(toks, i, t);
    case NotTree(inner) =>
      assert OperandTokens(o)[1..] == OperandTokens(inner);
      CompleteOperand(toks, i + 1, inner);
      NotReads(toks, i);
    case PathTree(ns, first, tail) =>
      CompletePath(toks, i, o);
    case CallTree(ns, first, open, args) =>
      var head := [Token(Ident, ns), first.dot, Token(Ident, first.name), open];
      AtConcat(toks, i, head, ArgsTokens(args));
      assert toks[i + 1] == head[1] && toks[i + 2] == head[2] && toks[i + 3] == head[3];
      CompleteArgs(toks, i + 4, args);
      CallReads(toks, i, ns);
  }

  lemma {:induction false} LiteralReads(toks: seq<Token>, i: nat, t: Token)
    requires i < |toks| && toks[i] == t && IsLiteralToken(t)
    ensures Operand(toks, i) == Ok((LiteralAst(t), i + 1))
  {
  }

  lemma {:induction false} NotReads(toks: seq<Token>, i: nat)
    requires i < |toks| && toks[i] == Token(Ident, "not") && Operand(toks, i + 1).Ok?
    ensures var (inner, k) := Operand(toks, i + 1).value; Operand(toks, i) == Ok((Not(inner), k))
  {
  }

  lemma {:induction false} CallReads(toks: seq<Token>, i: nat, ns: string)
    requires i + 3 < |toks| && toks[i] == Token(Ident, ns) && IsNamespace(ns)
    requires toks[i + 1].text == "." && toks[i + 2].kind == Ident && toks[i + 3].text == "(" && Args(toks, i + 4).Ok?
    ensures var (args, k) := Args(toks, i + 4).value; Operand(toks, i) == Ok((Call(ns, toks[i + 2].text, args), k))
  {
    hide Args;
  }

  lemma {:induction false} CompletePath(toks: seq<Token>, i: nat, o: OperandTree)
    requires o.PathTree? && OperandOk(o) && At(toks, i, OperandTokens(o))
    requires i + |OperandTokens(o)| < |toks| && OperandEnds(o, toks[i + |OperandTokens(o)|])
    ensures Operand(toks, i) == Ok((OperandAst(o), i + |OperandTokens(o)|))
  {
    var head := [Token(Ident, o.ns), o.first.dot, Token(Ident, o.first.name)];
    AtConcat(toks, i, head, StepsTokens(o.tail));
    assert toks[i] == head[0] && toks[i + 1] == head[1] && toks[i + 2] == head[2];
    if o.tail != [] {
      AtHead(toks, i + 3, StepsTokens(o.tail));
      assert toks[i + 3].text == ".";
    }
    CompleteSegments(toks, i + 3, o.tail);
  }

  lemma {:induction false} CompleteComma(toks: seq<Token>, i: nat, comma: Option<Token>, first: Token)
    requires At(toks, i, OptionTokens(comma)) && CommaOk(comma, first)
    requires i + |OptionTokens(comma)| < |toks| && toks[i + |OptionTokens(comma)|] == first
    ensures SkipComma(toks, i) == Ok(i + |OptionTokens(comma)|)
    ensures toks[i] == AfterArg(comma, first)
  {
    if comma.Some? {
      AtHead(toks, i, OptionTokens(comma));
    }
  }

  lemma {:induction false} ArgPieces(toks: seq<Token>, i: nat, a: ArgsTree)
    requires a.MoreArgs? && At(toks, i, ArgsTokens(a))
    ensures var n := i + |OperandTokens(a.arg)|;
            var m := n + |OptionTokens(a.comma)|;
            && At(toks, i, OperandTokens(a.arg)) && At(toks, n, OptionTokens(a.comma))
                && At(toks, m, ArgsTokens(a.rest))
            && m < |toks| && toks[m] == FirstOfArgs(a.rest) && toks[i] == FirstToken(a.arg)
            && i + |ArgsTokens(a)| == m + |ArgsTokens(a.rest)|
  {
    hide At, OperandTokens;
    var n := i + |OperandTokens(a.arg)|;
    AtConcat(toks, i, OperandTokens(a.arg), OptionTokens(a.comma) + ArgsTokens(a.rest));
    AtConcat(toks, n, OptionTokens(a.comma), ArgsTokens(a.rest));
    AtHead(toks, n + |OptionTokens(a.comma)|, ArgsTokens(a.rest));
    AtHead(toks, i, OperandTokens(a.arg));
  }

  lemma {:induction false} ArgsTurn(toks: seq<Token>, i: nat, e: Expr, k: nat, next: nat, rest: seq<string>, m: nat)
    requires i < |toks| && toks[i].text != ")" && Operand(toks, i) == Ok((e, k))
    requires SkipComma(toks, k) == Ok(next) && Args(toks, next) == Ok((rest, m))
    ensures Args(toks, i) == Ok((Kept(e) + rest, m))
  {
    hide Operand, SkipComma, Kept;
  }

  lemma {:induction false} CompleteEndArgs(toks: seq<Token>, i: nat, close: Token)
    requires close.text == ")" && At(toks, i, ArgsTokens(EndArgs(close)))
    ensures Args(toks, i) == Ok(([], i + 1)) && |ArgsTokens(EndArgs(close))| == 1
  {
    AtHead(toks, i, ArgsTokens(EndArgs(close)));
  }

  lemma {:induction false} CompleteArgs(toks: seq<Token>, i: nat, a: ArgsTree)
    requires ArgsOk(a) && At(toks, i, ArgsTokens(a))
    ensures Args(toks, i) == Ok((ArgsAst(a), i + |ArgsTokens(a)|))
    decreases a
  {
    hide At, Operand, Args, OperandOk, OperandEnds, OperandTokens, OperandAst, CommaOk, SkipComma, Kept, ArgsTokens;
    if a.EndArgs? {
      CompleteEndArgs(toks, i, a.close);
    } else {
      var n := i + |OperandTokens(a.arg)|;
      var m := n + |OptionTokens(a.comma)|;
      ArgPieces(toks, i, a);
      CompleteComma(toks, n, a.comma, FirstOfArgs(a.rest));
      CompleteOperand(toks, i, a.arg);
      CompleteArgs(toks, m, a.rest);
      KeptArg(a.arg);
      ArgsTurn(toks, i, OperandAst(a.arg), n, m, ArgsAst(a.rest), m + |ArgsTokens(a.rest)|);
    }
  }

  lemma {:induction false} KeptArg(o: OperandTree)
    ensures Kept(OperandAst(o)) == if o.LiteralTree? then [o.token.text] else []
  {
  }

  lemma {:induction false} ItemPieces(toks: seq<Token>, i: nat, a: ItemsTree)
    requires a.MoreItems? && At(toks, i, ItemsTokens(a))
    ensures var m := i + 1 + |OptionTokens(a.comma)|;
            && At(toks, i + 1, OptionTokens(a.comma)) && At(toks, m, ItemsTokens(a.rest))
            && m < |toks| && toks[m] == FirstOfItems(a.rest) && toks[i] == a.item
            && i + |ItemsTokens(a)| == m + |ItemsTokens(a.rest)|
  {
    hide At;
    AtCons(toks, i, a.item, OptionTokens(a.comma) + ItemsTokens(a.rest));
    AtConcat(toks, i + 1, OptionTokens(a.comma), ItemsTokens(a.rest));
    AtHead(toks, i + 1 + |OptionTokens(a.comma)|, ItemsTokens(a.rest));
  }

  lemma {:induction false} ItemsTurn(toks: seq<Token>, i: nat, next: nat, rest: seq<string>, m: nat)
    requires i < |toks| && toks[i].text != "]" && IsLiteralToken(toks[i])
    requires SkipComma(toks, i + 1) == Ok(next) && Items(toks, next) == Ok((rest, m))
    ensures Items(toks, i) == Ok(([toks[i].text] + rest, m))
  {
    LiteralReads(toks, i, toks[i]);
    hide Operand, SkipComma, IsLiteralToken;
  }

  lemma {:induction false} CompleteEndItems(toks: seq<Token>, i: nat, close: Token)
    requires close.text == "]" && At(toks, i, ItemsTokens(EndItems(close)))
    ensures Items(toks, i) == Ok(([], i + 1)) && |ItemsTokens(EndItems(close))| == 1
  {
    AtHead(toks, i, ItemsTokens(EndItems(close)));
  }

  lemma {:induction false} CompleteItems(toks: seq<Token>, i: nat, a: ItemsTree)
    requires ItemsOk(a) && At(toks, i, ItemsTokens(a))
    ensures Items(toks, i) == Ok((ItemsAst(a), i + |ItemsTokens(a)|))
    decreases a
  {
    hide At, Items, IsLiteralToken, CommaOk, SkipComma, ItemsTokens;
    if a.EndItems? {
      CompleteEndItems(toks, i, a.close);
    } else {
      var m := i + 1 + |OptionTokens(a.comma)|;
      ItemPieces(toks, i, a);
      CompleteComma(toks, i + 1, a.comma, FirstOfItems(a.rest));
      CompleteItems(toks, m, a.rest);
      ItemsTurn(toks, i, m, ItemsAst(a.rest), m + |ItemsTokens(a.rest)|);
    }
  }

  lemma {:induction false} OperatorEnds(o: OperandTree, next: Token)
    requires next.text != "." && next.text != "("
    ensures OperandEnds(o, next)
  {
    if o.NotTree? {
      OperatorEnds(o.inner, next);
    }
  }

  lemma {:induction false} CompleteCmp(toks: seq<Token>, i: nat, c: CmpTree)
    requires CmpOk(c) && At(toks, i, CmpTokens(c))
    requires i + |CmpTokens(c)| < |toks| && CmpEnds(c, toks[i + |CmpTokens(c)|])
    ensures Cmp(toks, i) == Ok((CmpAst(c), i + |CmpTokens(c)|))
  {
    hide At, Operand, OperandOk, OperandTokens, OperandAst, Items, ItemsOk, ItemsTokens, ItemsAst;
    match c
    case BareTree(o) =>
      CompleteOperand(toks, i, o);
    case InTree(o, items) =>
      CompleteIn(toks, i, c);
    case CompareTree(l, op, r) =>
      var n := i + |OperandTokens(l)|;
      AtConcat(toks, i, OperandTokens(l), [Token(Punct, op)] + OperandTokens(r));
      AtCons(toks, n, Token(Punct, op), OperandTokens(r));
      OperatorEnds(l, toks[n]);
      CompleteOperand(toks, i, l);
      CompleteOperand(toks, n + 1, r);
  }

  lemma {:induction false} InPieces(toks: seq<Token>, i: nat, c: CmpTree)
    requires c.InTree? && At(toks, i, CmpTokens(c))
    ensures var n := i + |OperandTokens(c.operand)|;
            && At(toks, i, OperandTokens(c.operand)) && n + 1 < |toks|
            && toks[n] == Token(Ident, "in") && toks[n + 1] == Token(Punct, "[")
            && At(toks, n + 2, ItemsTokens(c.items)) && i + |CmpTokens(c)| == n + 2 + |ItemsTokens(c.items)|
  {
    hide At, OperandTokens, ItemsTokens;
    var n := i + |OperandTokens(c.operand)|;
    var word, open, tail := Token(Ident, "in"), Token(Punct, "["), ItemsTokens(c.items);
    AtConcat(toks, i, OperandTokens(c.operand), [word, open] + tail);
    TwoThen(toks, n, word, open, tail);
  }

  lemma {:induction false} TwoThen(toks: seq<Token>, n: nat, a: Token, b: Token, tail: seq<Token>)
    requires At(toks, n, [a, b] + tail)
    ensures n + 1 < |toks| && toks[n] == a && toks[n + 1] == b && At(toks, n + 2, tail)
  {
    hide At;
    assert [a, b] + tail == [a] + ([b] + tail);
    AtCons(toks, n, a, [b] + tail);
    AtCons(toks, n + 1, b, tail);
  }

  lemma {:induction false} CompleteIn(toks: seq<Token>, i: nat, c: CmpTree)
    requires c.InTree? && CmpOk(c) && At(toks, i, CmpTokens(c))
    ensures Cmp(toks, i) == Ok((CmpAst(c), i + |CmpTokens(c)|))
  {
    hide At, Operand, OperandOk, OperandTokens, OperandAst, OperandEnds, Items, ItemsOk, ItemsTokens, ItemsAst,
      CmpTokens;
    var n := i + |OperandTokens(c.operand)|;
    InPieces(toks, i, c);
    OperatorEnds(c.operand, toks[n]);
    CompleteOperand(toks, i, c.operand);
    CompleteItems(toks, n + 2, c.items);
  }

  lemma {:induction false} CompleteGate(toks: seq<Token>, i: nat)
    requires Cmp(toks, i).Ok? && Cmp(toks, i).value.1 < |toks|
    requires toks[Cmp(toks, i).value.1].text != "and" && toks[Cmp(toks, i).value.1].text != "or"
    ensures OrChain(toks, i) == Cmp(toks, i)
  {
  }

  // Clauses

  lemma {:induction false} CompleteOrder(toks: seq<Token>, i: nat, dims: seq<Token>)
    requires At(toks, i, dims) && forall k | 0 <= k < |dims| :: !IsLexStop(dims[k])
    requires i + |dims| < |toks| && IsLexStop(toks[i + |dims|])
    ensures Order(toks, i) == Ok((DimNames(dims), i + |dims|))
    decreases |dims|
  {
    if dims != [] {
      AtHead(toks, i, dims);
      CompleteOrder(toks, i + 1, dims[1..]);
      assert DimNames(dims) == [IdentText(dims[0])] + DimNames(dims[1..]);
    }
  }

  lemma {:induction false} CompleteDimWeights(toks: seq<Token>, i: nat, read: seq<Pair>, more: seq<Pair>)
    requires At(toks, i, PairsTokens(more)) && PairsOk(more)
    requires i + |PairsTokens(more)| < |toks| && !IsDim(toks[i + |PairsTokens(more)|].text)
    ensures DimWeights(toks, i, WeightsOf(read)) == Ok((WeightsOf(read + more), i + |PairsTokens(more)|))
    decreases |more|
  {
    hide At, IsDim, WeightsOf, DimWeights, PairsTokens, PairsOk;
    if more == [] {
      CompleteDimEnd(toks, i, read, more);
    } else {
      PairAt(toks, i, more);
      PairsOkTail(more);
      CompleteDimStep(toks, i, read, more[0]);
      CompleteDimWeights(toks, i + 2, read + [more[0]], more[1..]);
      assert read + [more[0]] + more[1..] == read + more;
    }
  }

  lemma {:induction false} PairsOkTail(ps: seq<Pair>)
    requires PairsOk(ps) && ps != []
    ensures IsDim(ps[0].dim.text) && IsWeight(ps[0].weight) && PairsOk(ps[1..])
  {
    hide IsDim, IsWeight;
  }

  lemma {:induction false} CompleteDimEnd(toks: seq<Token>, i: nat, read: seq<Pair>, more: seq<Pair>)
    requires more == [] && i < |toks| && !IsDim(toks[i + |PairsTokens(more)|].text)
    ensures DimWeights(toks, i, WeightsOf(read)) == Ok((WeightsOf(read + more), i + |PairsTokens(more)|))
  {
    hide IsDim;
    assert read + more == read;
  }

  lemma {:induction false} CompleteDimStep(toks: seq<Token>, i: nat, read: seq<Pair>, p: Pair)
    requires i + 1 < |toks| && toks[i] == p.dim && toks[i + 1] == Token(Number, p.weight)
    requires IsDim(p.dim.text) && IsWeight(p.weight)
    ensures DimWeights(toks, i, WeightsOf(read)) == DimWeights(toks, i + 2, WeightsOf(read + [p]))
  {
    hide IsDim;
    assert (read + [p])[..|read + [p]| - 1] == read;
  }

  lemma {:induction false} PairAt(toks: seq<Token>, i: nat, ps: seq<Pair>)
    requires ps != [] && At(toks, i, PairsTokens(ps))
    ensures i + 1 < |toks| && toks[i] == ps[0].dim && toks[i + 1] == Token(Number, ps[0].weight)
    ensures |PairsTokens(ps)| == 2 + |PairsTokens(ps[1..])| && At(toks, i + 2, PairsTokens(ps[1..]))
  {
    hide At;
    TwoThen(toks, i, ps[0].dim, Token(Number, ps[0].weight), PairsTokens(ps[1..]));
  }

  lemma {:induction false} CompleteLimit(toks: seq<Token>, i: nat, l: Option<Limit>, word: string)
    requires LimitOk(l, word) && At(toks, i, LimitTokens(l))
    requires l.None? ==> i < |toks| && toks[i].text != word
    ensures OptionalInteger(toks, i, word) == Ok((LimitAst(l), i + |LimitTokens(l)|))
  {
    if l.Some? {
      assert toks[i] == LimitTokens(l)[0] && toks[i + 1] == LimitTokens(l)[1];
    }
  }

  lemma {:induction false} CompleteOptimize(toks: seq<Token>, i: nat, c: ClauseTree)
    requires Keyword(c) == "optimize" && ClauseOk(c) && At(toks, i, ClauseTail(c))
    requires i + |ClauseTail(c)| < |toks| && Soundness.ClauseEnds(c, toks[i + |ClauseTail(c)|])
    ensures OptimizeAt(toks, i) == Ok((ClauseAst(c).optimize, i + |ClauseTail(c)|))
  {
    hide At, OptimizeAt, WeightsOf, PairsOk, PairsTokens, IsDim, IsLexStop;
    if c.LexTree? {
      CompleteLex(toks, i, c);
    } else {
      CompleteWeighted(toks, i, c);
    }
  }

  lemma {:induction false} CompleteLex(toks: seq<Token>, i: nat, c: ClauseTree)
    requires c.LexTree? && ClauseOk(c) && At(toks, i, ClauseTail(c))
    requires i + |ClauseTail(c)| < |toks| && IsLexStop(toks[i + |ClauseTail(c)|])
    ensures OptimizeAt(toks, i) == Ok((ClauseAst(c).optimize, i + |ClauseTail(c)|))
  {
    hide At, Order, DimWeights, IsDim, IsLexStop;
    AtCons(toks, i, Token(Ident, "lexicographic"), c.dims);
    CompleteOrder(toks, i + 1, c.dims);
  }

  lemma {:induction false} CompleteWeighted(toks: seq<Token>, i: nat, c: ClauseTree)
    requires c.WeightedTree? && ClauseOk(c) && At(toks, i, ClauseTail(c))
    requires i + |ClauseTail(c)| < |toks| && !IsDim(toks[i + |ClauseTail(c)|].text)
    ensures OptimizeAt(toks, i) == Ok((ClauseAst(c).optimize, i + |ClauseTail(c)|))
  {
    hide At, WeightsOf, PairsOk, PairsTokens, DimWeights, IsDim;
    PairAt(toks, i, [c.first] + c.more);
    assert ([c.first] + c.more)[1..] == c.more;
    FirstWeights(c.first);
    CompleteDimWeights(toks, i + 2, [c.first], c.more);
  }

  lemma {:induction false} FirstWeights(p: Pair)
    ensures WeightsOf([p]) == map[IdentText(p.dim) := Weight(p.weight)]
  {
    assert [p][..0] == [];
  }

  lemma {:induction false} CompleteRequire(toks: seq<Token>, i: nat, c: ClauseTree)
    requires c.RequireTree? && ClauseOk(c) && At(toks, i, ClauseTail(c))
    requires i + |ClauseTail(c)| < |toks| && Soundness.ClauseEnds(c, toks[i + |ClauseTail(c)|])
    ensures OrChain(toks, i) == Ok((CmpAst(c.cmp), i + |ClauseTail(c)|))
    ensures CmpAst(c.cmp).Compare? || CmpAst(c.cmp).In?
  {
    CompleteCmp(toks, i, c.cmp);
    CompleteGate(toks, i);
  }

  lemma {:induction false} CompleteClause(toks: seq<Token>, i: nat, c: ClauseTree)
    requires ClauseOk(c) && At(toks, i, ClauseTokens(c))
    requires i + |ClauseTokens(c)| < |toks| && Soundness.ClauseEnds(c, toks[i + |ClauseTokens(c)|])
    ensures ClauseAt(toks, i) == Ok((ClauseAst(c), i + |ClauseTokens(c)|))
  {
    hide At, ClauseOk, ClauseAt, ClauseTail, Soundness.ClauseEnds, OptimizeAt, OrChain;
    AtCons(toks, i, Token(Ident, Keyword(c)), ClauseTail(c));
    match c
    case RequireTree(_) =>
      CompleteRequire(toks, i + 1, c);
      RequireReads(toks, i, c);
    case PreferTree(_, _, _) => CompletePrefer(toks, i, c);
    case LexTree(_) =>
      CompleteOptimize(toks, i + 1, c);
      OptimizeReads(toks, i);
    case WeightedTree(_, _) =>
      CompleteOptimize(toks, i + 1, c);
      OptimizeReads(toks, i);
    case FallbackTree(_, _) => CompleteFallback(toks, i, c);
    case SwitchTree(_, _, _, _) => CompleteSwitch(toks, i, c);
  }

  lemma {:induction false} OptimizeReads(toks: seq<Token>, i: nat)
    requires i < |toks| && toks[i] == Token(Ident, "optimize") && OptimizeAt(toks, i + 1).Ok?
    ensures var (o, k) := OptimizeAt(toks, i + 1).value; ClauseAt(toks, i) == Ok((OptimizeClause(o), k))
  {
    hide OptimizeAt, OrChain;
  }

  lemma {:induction false} RequireReads(toks: seq<Token>, i: nat, c: ClauseTree)
    requires i < |toks| && toks[i] == Token(Ident, "require") && c.RequireTree? && ClauseOk(c)
    requires OrChain(toks, i + 1) == Ok((CmpAst(c.cmp), i + 1 + |ClauseTail(c)|))
    ensures ClauseAt(toks, i) == Ok((ClauseAst(c), i + |ClauseTokens(c)|))
  {
    hide OptimizeAt, OrChain, CmpOk, CmpTokens;
  }

  lemma {:induction false} FallbackReads(toks: seq<Token>, i: nat)
    requires i + 1 < |toks| && toks[i] == Token(Ident, "fallback") && toks[i + 1].kind == Ident
    requires OptionalInteger(toks, i + 2, "max_attempts").Ok?
    ensures var (n, k) := OptionalInteger(toks, i + 2, "max_attempts").value;
            ClauseAt(toks, i) == Ok((FallbackClause(Fallback(toks[i + 1].text, n)), k))
  {
    hide OptionalInteger, OrChain, OptimizeAt;
  }

  lemma {:induction false} CompletePrefer(toks: seq<Token>, i: nat, c: ClauseTree)
    requires c.PreferTree? && ClauseOk(c) && At(toks, i, ClauseTokens(c))
    ensures ClauseAt(toks, i) == Ok((ClauseAst(c), i + |ClauseTokens(c)|))
  {
    var ts := ClauseTokens(c);
    assert toks[i] == ts[0] && toks[i + 1] == ts[1] && toks[i + 2] == ts[2] && toks[i + 3] == ts[3];
  }

  lemma {:induction false} CompleteFallback(toks: seq<Token>, i: nat, c: ClauseTree)
    requires c.FallbackTree? && ClauseOk(c) && At(toks, i, ClauseTokens(c))
    requires i + |ClauseTokens(c)| < |toks| && Soundness.ClauseEnds(c, toks[i + |ClauseTokens(c)|])
    ensures ClauseAt(toks, i) == Ok((ClauseAst(c), i + |ClauseTokens(c)|))
  {
    hide ClauseAt, OptionalInteger, IsWeight;
    var head := [Token(Ident, "fallback"), Token(Ident, c.cls)];
    assert ClauseTokens(c) == head + LimitTokens(c.limit);
    AtConcat(toks, i, head, LimitTokens(c.limit));
    assert toks[i] == head[0] && toks[i + 1] == head[1];
    CompleteLimit(toks, i + 2, c.limit, "max_attempts");
    FallbackReads(toks, i);
  }

  lemma {:induction false} CompleteSwitch(toks: seq<Token>, i: nat, c: ClauseTree)
    requires c.SwitchTree? && ClauseOk(c) && At(toks, i, ClauseTokens(c))
    requires i + |ClauseTokens(c)| < |toks| && Soundness.ClauseEnds(c, toks[i + |ClauseTokens(c)|])
    ensures ClauseAt(toks, i) == Ok((ClauseAst(c), i + |ClauseTokens(c)|))
  {
    hide ClauseAt, OptionalInteger, IsWeight;
    var head := [Token(Ident, "switch"), Token(Ident, c.word1), Token(Ident, c.word2), Token(Punct, ">="),
        Token(Number, c.gain)];
    assert ClauseTokens(c) == head + LimitTokens(c.limit);
    AtConcat(toks, i, head, LimitTokens(c.limit));
    assert toks[i] == head[0] && toks[i + 1] == head[1] && toks[i + 2] == head[2] && toks[i + 3] == head[3]
           && toks[i + 4] == head[4];
    CompleteLimit(toks, i + 5, c.limit, "min_hold_seconds");
    SwitchReads(toks, i, c.gain);
  }

  lemma {:induction false} SwitchReads(toks: seq<Token>, i: nat, gain: string)
    requires i + 4 < |toks| && toks[i] == Token(Ident, "switch") && toks[i + 1].kind == Ident
             && toks[i + 2].kind == Ident
    requires toks[i + 3] == Token(Punct, ">=") && toks[i + 4] == Token(Number, gain) && IsWeight(gain)
    requires OptionalInteger(toks, i + 5, "min_hold_seconds").Ok?
    ensures var (n, k) := OptionalInteger(toks, i + 5, "min_hold_seconds").value;
            ClauseAt(toks, i) == Ok((SwitchClause(Switch(Weight(gain), n)), k))
  {
    hide OptionalInteger, OrChain, OptimizeAt;
  }

  // Bodies and policies

  /** A token that can follow a clause inside a body: a clause keyword or the closing token. */
  predicate IsBoundary(t: Token) {
    || t.kind == EOF || t.text == "}"
    || (t.kind == Ident && (t.text == "require" || t.text == "prefer" || t.text == "optimize"
        || t.text == "fallback" || t.text == "switch"))
  }

  /** Every boundary ends every clause, but `optimize` does not end a lexicographic one. */
  lemma {:induction false} BoundaryEnds(c: ClauseTree, next: Token)
    requires ClauseOk(c) && IsBoundary(next) && next.kind != EOF
    requires c.LexTree? ==> next.text != "optimize"
    ensures Soundness.ClauseEnds(c, next)
  {
    if c.RequireTree? {
      match c.cmp
      case BareTree(o) =>
      case InTree(_, _) =>
      case CompareTree(_, _, r) => OperatorEnds(r, next);
    }
  }

  lemma {:induction false} KeywordIsNotClosing(c: ClauseTree)
    ensures Keyword(c) != "}"
  {
  }

  /** `next` can follow the whole body `cs`. */
  predicate BodyEnds(cs: seq<ClauseTree>, next: Token) {
    && IsBoundary(next) && next.kind != EOF
    && (cs != [] && cs[|cs| - 1].LexTree? ==> next.text != "optimize")
  }

  lemma {:induction false} NextBoundary(toks: seq<Token>, n: nat, cs: seq<ClauseTree>)
    requires cs != [] && BodyOk(cs) && At(toks, n, BodyTokens(cs[1..]))
    requires n + |BodyTokens(cs[1..])| < |toks| && BodyEnds(cs, toks[n + |BodyTokens(cs[1..])|])
    ensures IsBoundary(toks[n]) && toks[n].kind != EOF && (cs[0].LexTree? ==> toks[n].text != "optimize")
  {
    if |cs| > 1 {
      AtConcat(toks, n, ClauseTokens(cs[1]), BodyTokens(cs[1..][1..]));
      Soundness.ClauseStart(toks, n, cs[1]);
    }
  }

  /** The clause loop runs through the tokens of a legal body and comes out behind them with
      the body merged into the policy. */
  lemma {:induction false} BodyPrefix(toks: seq<Token>, i: nat, p: Policy, cs: seq<ClauseTree>)
    requires BodyOk(cs) && At(toks, i, BodyTokens(cs))
    requires i + |BodyTokens(cs)| < |toks| && BodyEnds(cs, toks[i + |BodyTokens(cs)|])
    ensures Body(toks, i, p) == Body(toks, i + |BodyTokens(cs)|, Merge(p, BodyAst(p.name, cs)))
    decreases |cs|
  {
    hide ClauseOk, ClauseTokens, ClauseAt, ClauseAst, Merge, BodyAst, Apply, Body, IsBoundary;
    if cs == [] {
      Soundness.MergeNothing(p);
    } else {
      var c, rest := cs[0], cs[1..];
      var n := i + |ClauseTokens(c)|;
      AtConcat(toks, i, ClauseTokens(c), BodyTokens(rest));
      NextBoundary(toks, n, cs);
      BoundaryEnds(c, toks[n]);
      CompleteClause(toks, i, c);
      Soundness.ClauseStart(toks, i, c);
      BodyPrefix(toks, n, Apply(p, ClauseAst(c)), rest);
      Soundness.ApplyThenBody(p.name, c, rest, p);
      assert cs == [c] + rest;
      KeywordIsNotClosing(c);
      BodyTurn(toks, i, p);
    }
  }

  lemma {:induction false} BodyTurn(toks: seq<Token>, i: nat, p: Policy)
    requires i < |toks| && toks[i].kind != EOF && toks[i].text != "}" && ClauseAt(toks, i).Ok?
    ensures var (c, k) := ClauseAt(toks, i).value; Body(toks, i, p) == Body(toks, k, Apply(p, c))
  {
    hide ClauseAt, Apply;
  }

  lemma {:induction false} CompleteBody(toks: seq<Token>, i: nat, p: Policy, cs: seq<ClauseTree>)
    requires BodyOk(cs) && At(toks, i, BodyTokens(cs))
    requires i + |BodyTokens(cs)| < |toks| && toks[i + |BodyTokens(cs)|] == Token(Punct, "}")
    ensures Body(toks, i, p) == Ok((Merge(p, BodyAst(p.name, cs)), i + |BodyTokens(cs)|))
  {
    hide BodyOk, BodyTokens, At, Merge, BodyAst;
    BodyPrefix(toks, i, p, cs);
  }

  lemma {:induction false} CompletePolicy(toks: seq<Token>, t: PolicyTree)
    requires BodyOk(t.clauses) && At(toks, 0, PolicyTokens(t))
    ensures PolicyAt(toks) == Ok((BodyAst(t.name, t.clauses), |PolicyTokens(t)|))
  {
    hide BodyOk, Body;
    var head, body := HeaderTokens(t), BodyTokens(t.clauses);
    AtConcat(toks, 0, head, body + [Token(Punct, "}")]);
    AtConcat(toks, 3, body, [Token(Punct, "}")]);
    AtHead(toks, 3 + |body|, [Token(Punct, "}")]);
    assert toks[0] == head[0] && toks[1] == head[1] && toks[2] == head[2];
    CompleteBody(toks, 3, EmptyPolicy(t.name), t.clauses);
    MergeEmpty(t.name, BodyAst(t.name, t.clauses));
  }

  lemma {:induction false} MergeEmpty(name: string, b: Policy)
    requires b.name == name
    ensures Merge(EmptyPolicy(name), b) == b
  {
    assert [] + b.gates == b.gates && [] + b.prefers == b.prefers;
  }

  /** The grammar is exactly the parser: policy `p` comes out with `k` tokens consumed when and
      only when the first `k` tokens derive `p`. No condition on the token list. */
  lemma {:induction false} PolicyExact(toks: seq<Token>, p: Policy, k: nat)
    ensures PolicyAt(toks) == Ok((p, k)) <==> k <= |toks| && Derives(toks[..k], p)
  {
    hide PolicyAt, BodyOk, BodyAst, PolicyTokens;
    if PolicyAt(toks) == Ok((p, k)) {
      var t := Soundness.SoundPolicy(toks);
      assert toks[0..k] == toks[..k];
    }
    if k <= |toks| && Derives(toks[..k], p) {
      var t: PolicyTree :| BodyOk(t.clauses) && PolicyTokens(t) == toks[..k] && BodyAst(t.name, t.clauses) == p;
      assert toks[0..k] == toks[..k];
      CompletePolicy(toks, t);
    }
  }
}

/** Whatever the parser accepts is in the grammar: for every successful read there is a legal
    tree that spells the tokens read and means the value returned. */
module Soundness {
  import opened Outcomes
  import opened PolicyAst
  import opened Tokens
  import opened Parsing
  import opened Grammar
  import opened Spans

  /** `ts` are the tokens from `i` up to `k`. */
  predicate Reads(toks: seq<Token>, i: nat, k: nat, ts: seq<Token>) {
    k == i + |ts| && At(toks, i, ts)
  }

  lemma {:induction false} ReadsConcat(toks: seq<Token>, i: nat, j: nat, k: nat, a: seq<Token>, b: seq<Token>)
    requires Reads(toks, i, j, a) && Reads(toks, j, k, b)
    ensures Reads(toks, i, k, a + b)
  {
    AtConcat(toks, i, a, b);
  }

  lemma {:induction false} ReadsOne(toks: seq<Token>, i: nat)
    requires i < |toks|
    ensures Reads(toks, i, i + 1, [toks[i]])
  {
  }

  lemma {:induction false} ReadsCons(toks: seq<Token>, i: nat, k: nat, ts: seq<Token>)
    requires i < |toks| && Reads(toks, i + 1, k, ts)
    ensures Reads(toks, i, k, [toks[i]] + ts)
  {
    AtCons(toks, i, toks[i], ts);
  }

  lemma {:induction false} SoundSegments(toks: seq<Token>, i: nat) returns (steps: seq<Step>)
    requires Segments(toks, i).Ok?
    ensures var (names, k) := Segments(toks, i).value;
            && Reads(toks, i, k, StepsTokens(steps)) && StepNames(steps) == names && |steps| == |names|
            && (forall j | 0 <= j < |steps| :: steps[j].dot.text == ".")
            && toks[k].text != "."
    decreases |toks| - i
  {
    if toks[i].text != "." {
      steps := [];
    } else {
      var tail := SoundSegments(toks, i + 2);
      var step := Step(toks[i], toks[i + 1].text);
      steps := [step] + tail;
      var k := Segments(toks, i).value.1;
      ReadsCons(toks, i + 1, k, StepsTokens(tail));
      ReadsCons(toks, i, k, [toks[i + 1]] + StepsTokens(tail));
      assert StepsTokens(steps) == [toks[i]] + ([toks[i + 1]] + StepsTokens(tail));
    }
  }

  /** What a sound operand tree promises about a successful read. */
  ghost predicate OperandRead(toks: seq<Token>, i: nat, o: OperandTree, r: (Expr, nat)) {
    && OperandOk(o) && Reads(toks, i, r.1, OperandTokens(o)) && OperandAst(o) == r.0
    && (r.1 < |toks| ==> OperandEnds(o, toks[r.1]))
  }

  lemma {:induction false} SoundOperand(toks: seq<Token>, i: nat) returns (o: OperandTree)
    requires Operand(toks, i).Ok?
    ensures OperandRead(toks, i, o, Operand(toks, i).value)
    decreases |toks| - i, 1
  {
    var t := toks[i];
    if t.kind == Ident && t.text == "not" {
      var inner := SoundOperand(toks, i + 1);
      ReadsCons(toks, i, Operand(toks, i).value.1, OperandTokens(inner));
      o := NotTree(inner);
    } else if t.kind == Ident && !IsBoolean(t.text) {
      o := SoundDotted(toks, i);
    } else {
      o := LiteralTree(t);
    }
  }

  lemma {:induction false} SoundDotted(toks: seq<Token>, i: nat) returns (o: OperandTree)
    requires i < |toks| && toks[i].kind == Ident && IsNamespace(toks[i].text)
    requires Dotted(toks, i, toks[i].text).Ok?
    ensures OperandRead(toks, i, o, Dotted(toks, i, toks[i].text).value)
    decreases |toks| - i, 0
  {
    var (e, k) := Dotted(toks, i, toks[i].text).value;
    var ns, dot, name := toks[i], toks[i + 1], toks[i + 2];
    assert Reads(toks, i, i + 3, [ns, dot, name]);
    if toks[i + 3].text == "(" {
      var args := SoundArgs(toks, i + 4);
      o := CallTree(ns.text, Step(dot, name.text), toks[i + 3], args);
      assert Reads(toks, i, i + 4, [ns, dot, name, toks[i + 3]]);
      ReadsConcat(toks, i, i + 4, k, [ns, dot, name, toks[i + 3]], ArgsTokens(args));
    } else {
      var tail := SoundSegments(toks, i + 3);
      o := PathTree(ns.text, Step(dot, name.text), tail);
      ReadsConcat(toks, i, i + 3, k, [ns, dot, name], StepsTokens(tail));
    }
  }

  /** The comma the parser skips, if there is one. */
  function CommaAt(toks: seq<Token>, i: nat): Option<Token>
    requires i < |toks|
  {
    if toks[i].text == "," then Some(toks[i]) else None
  }

  lemma {:induction false} SoundComma(toks: seq<Token>, i: nat, first: Token)
    requires SkipComma(toks, i).Ok?
    requires SkipComma(toks, i).value < |toks| ==> toks[SkipComma(toks, i).value] == first
    ensures Reads(toks, i, SkipComma(toks, i).value, OptionTokens(CommaAt(toks, i)))
    ensures SkipComma(toks, i).value < |toks| ==>
              CommaOk(CommaAt(toks, i), first) && AfterArg(CommaAt(toks, i), first) == toks[i]
  {
  }

  lemma {:induction false} SoundArgs(toks: seq<Token>, i: nat) returns (a: ArgsTree)
    requires Args(toks, i).Ok?
    ensures var (args, k) := Args(toks, i).value;
            ArgsOk(a) && Reads(toks, i, k, ArgsTokens(a)) && ArgsAst(a) == args
    decreases |toks| - i, 2
  {
    if toks[i].text == ")" {
      a := EndArgs(toks[i]);
    } else {
      var (e, k) := Operand(toks, i).value;
      var next := SkipComma(toks, k).value;
      var m := Args(toks, next).value.1;
      var arg := SoundOperand(toks, i);
      var rest := SoundArgs(toks, next);
      AtHead(toks, next, ArgsTokens(rest));
      AtHead(toks, i, OperandTokens(arg));
      SoundComma(toks, k, FirstOfArgs(rest));
      a := MoreArgs(arg, CommaAt(toks, k), rest);
      ReadsConcat(toks, k, next, m, OptionTokens(CommaAt(toks, k)), ArgsTokens(rest));
      ReadsConcat(toks, i, k, m, OperandTokens(arg), OptionTokens(CommaAt(toks, k)) + ArgsTokens(rest));
    }
  }

  /** An operand is a literal exactly when one literal token spells it. */
  lemma {:induction false} LiteralOperand(toks: seq<Token>, i: nat)
    requires Operand(toks, i).Ok? && Operand(toks, i).value.0.Literal?
    ensures i < |toks| && IsLiteralToken(toks[i])
    ensures Operand(toks, i).value == (LiteralAst(toks[i]), i + 1)
  {
  }

  lemma {:induction false} SoundItems(toks: seq<Token>, i: nat) returns (a: ItemsTree)
    requires Items(toks, i).Ok?
    ensures var (items, k) := Items(toks, i).value;
            ItemsOk(a) && Reads(toks, i, k, ItemsTokens(a)) && ItemsAst(a) == items
    decreases |toks| - i
  {
    if toks[i].text == "]" {
      a := EndItems(toks[i]);
    } else {
      LiteralOperand(toks, i);
      var next := SkipComma(toks, i + 1).value;
      var m := Items(toks, next).value.1;
      var rest := SoundItems(toks, next);
      AtHead(toks, next, ItemsTokens(rest));
      SoundComma(toks, i + 1, FirstOfItems(rest));
      a := MoreItems(toks[i], CommaAt(toks, i + 1), rest);
      ReadsConcat(toks, i + 1, next, m, OptionTokens(CommaAt(toks, i + 1)), ItemsTokens(rest));
      ReadsCons(toks, i, m, OptionTokens(CommaAt(toks, i + 1)) + ItemsTokens(rest));
    }
  }

  lemma {:induction false} SoundCmp(toks: seq<Token>, i: nat) returns (c: CmpTree)
    requires Cmp(toks, i).Ok?
    ensures var (e, k) := Cmp(toks, i).value;
            && CmpOk(c) && Reads(toks, i, k, CmpTokens(c)) && CmpAst(c) == e
            && (k < |toks| ==> CmpEnds(c, toks[k]))
  {
    hide Operand, OperandOk, OperandTokens, OperandAst, Items, ItemsOk, ItemsTokens, ItemsAst;
    var (e, m) := Cmp(toks, i).value;
    var k := Operand(toks, i).value.1;
    var left := SoundOperand(toks, i);
    var t := toks[k];
    if t == Token(Ident, "in") {
      var items := SoundItems(toks, k + 2);
      c := InTree(left, items);
      assert Reads(toks, k, k + 2, [t, toks[k + 1]]);
      ReadsConcat(toks, k, k + 2, m, [t, toks[k + 1]], ItemsTokens(items));
      ReadsConcat(toks, i, k, m, OperandTokens(left), [t, toks[k + 1]] + ItemsTokens(items));
    } else if t.kind == Punct && IsCompareOp(t.text) {
      var right := SoundOperand(toks, k + 1);
      c := CompareTree(left, t.text, right);
      ReadsCons(toks, k, m, OperandTokens(right));
      ReadsConcat(toks, i, k, m, OperandTokens(left), [t] + OperandTokens(right));
    } else {
      c := BareTree(left);
    }
  }

  // Chains: a comparison comes out of parseOr only when no connective follows it

  lemma {:induction false} AndRestTop(toks: seq<Token>, i: nat, left: Expr)
    requires AndRest(toks, i, left).Ok?
    ensures var (e, k) := AndRest(toks, i, left).value;
            (e == left && k == i && toks[i].text != "and") || e.And?
    decreases |toks| - i
  {
    if toks[i].text == "and" {
      var (right, k) := Cmp(toks, i + 1).value;
      AndRestTop(toks, k, And(left, right));
    }
  }

  lemma {:induction false} OrRestTop(toks: seq<Token>, i: nat, left: Expr)
    requires OrRest(toks, i, left).Ok?
    ensures var (e, k) := OrRest(toks, i, left).value;
            (e == left && k == i && toks[i].text != "or") || e.Or?
    decreases |toks| - i
  {
    if toks[i].text == "or" {
      var (right, k) := AndChain(toks, i + 1).value;
      OrRestTop(toks, k, Or(left, right));
    }
  }

  lemma {:induction false} SoundGate(toks: seq<Token>, i: nat)
    requires OrChain(toks, i).Ok? && (OrChain(toks, i).value.0.Compare? || OrChain(toks, i).value.0.In?)
    ensures Cmp(toks, i) == OrChain(toks, i)
  {
    var (left, k) := Cmp(toks, i).value;
    AndRestTop(toks, k, left);
    var (chain, m) := AndChain(toks, i).value;
    OrRestTop(toks, m, chain);
  }

  // Clauses

  lemma {:induction false} SoundOrder(toks: seq<Token>, i: nat)
    requires Order(toks, i).Ok?
    ensures var (names, k) := Order(toks, i).value;
            && i <= k < |toks| && DimNames(toks[i..k]) == names && IsLexStop(toks[k])
            && forall j | i <= j < k :: !IsLexStop(toks[j])
    decreases |toks| - i
  {
    if !IsLexStop(toks[i]) {
      SoundOrder(toks, i + 1);
      var k := Order(toks, i).value.1;
      assert toks[i..k] == [toks[i]] + toks[i + 1..k];
      assert DimNames(toks[i..k]) == [IdentText(toks[i])] + DimNames(toks[i + 1..k]);
    }
  }

  lemma {:induction false} PairsTokensSnoc(ps: seq<Pair>, p: Pair)
    ensures PairsTokens(ps + [p]) == PairsTokens(ps) + [p.dim, Token(Number, p.weight)]
  {
    if ps == [] {
      assert ps + [p] == [p];
    } else {
      PairsTokensSnoc(ps[1..], p);
      assert (ps + [p])[1..] == ps[1..] + [p];
    }
  }

  /** One turn of the weight loop, seen as one more pair. */
  lemma {:induction false} DimStep(toks: seq<Token>, start: nat, i: nat, read: seq<Pair>) returns (p: Pair)
    requires Reads(toks, start, i, PairsTokens(read))
    requires DimWeights(toks, i, WeightsOf(read)).Ok? && IsDim(toks[i].text)
    ensures i + 2 < |toks| && IsDim(p.dim.text) && IsWeight(p.weight)
    ensures Reads(toks, start, i + 2, PairsTokens(read + [p]))
    ensures DimWeights(toks, i + 2, WeightsOf(read + [p])) == DimWeights(toks, i, WeightsOf(read))
  {
    p := Pair(toks[i], toks[i + 1].text);
    PairsTokensSnoc(read, p);
    assert Reads(toks, i, i + 2, [p.dim, Token(Number, p.weight)]);
    ReadsConcat(toks, start, i, i + 2, PairsTokens(read), [p.dim, Token(Number, p.weight)]);
    assert (read + [p])[..|read + [p]| - 1] == read;
  }

  /** From pairs already read up to `i`, the weight loop reads on and leaves the weights of all
      pairs together. */
  lemma {:induction false} SoundDimWeights(toks: seq<Token>, start: nat, i: nat, read: seq<Pair>)
    returns (more: seq<Pair>)
    requires Reads(toks, start, i, PairsTokens(read))
    requires DimWeights(toks, i, WeightsOf(read)).Ok?
    ensures PairsRead(toks, start, read + more, DimWeights(toks, i, WeightsOf(read)).value) && PairsOk(more)
    decreases |toks| - i
  {
    hide WeightsOf, PairsTokens, DimWeights, PairsRead, PairsOk, IsDim, IsWeight;
    DimsInside(toks, i, WeightsOf(read));
    if !IsDim(toks[i].text) {
      more := [];
      DimEnd(toks, start, i, read);
    } else {
      var p := DimStep(toks, start, i, read);
      more := SoundDimWeights(toks, start, i + 2, read + [p]);
      assert read + [p] + more == read + ([p] + more);
      PairsOkCons(p, more);
      more := [p] + more;
    }
  }

  lemma {:induction false} DimsInside(toks: seq<Token>, i: nat, weights: map<string, real>)
    requires DimWeights(toks, i, weights).Ok?
    ensures i < |toks|
  {
  }

  lemma {:induction false} DimEnd(toks: seq<Token>, start: nat, i: nat, read: seq<Pair>)
    requires Reads(toks, start, i, PairsTokens(read)) && i < |toks| && !IsDim(toks[i].text)
    ensures PairsRead(toks, start, read + [], DimWeights(toks, i, WeightsOf(read)).value) && PairsOk([])
  {
    assert read + [] == read;
  }

  lemma {:induction false} PairsOkCons(p: Pair, ps: seq<Pair>)
    requires IsDim(p.dim.text) && IsWeight(p.weight) && PairsOk(ps)
    ensures PairsOk([p] + ps)
  {
    hide IsDim, IsWeight;
    assert forall k | 0 < k < |[p] + ps| :: ([p] + ps)[k] == ps[k - 1];
  }

  ghost predicate PairsRead(toks: seq<Token>, start: nat, ps: seq<Pair>, r: (map<string, real>, nat)) {
    && Reads(toks, start, r.1, PairsTokens(ps)) && WeightsOf(ps) == r.0
    && r.1 < |toks| && !IsDim(toks[r.1].text)
  }

  /** The clause is complete when `next` follows it. */
  predicate ClauseEnds(c: ClauseTree, next: Token) {
    match c
    case RequireTree(cmp) => CmpEnds(cmp, next) && next.text != "and" && next.text != "or"
    case PreferTree(_, _, _) => true
    case LexTree(_) => IsLexStop(next)
    case WeightedTree(_, _) => !IsDim(next.text)
    case FallbackTree(_, limit) => limit.None? ==> next.text != "max_attempts"
    case SwitchTree(_, _, _, limit) => limit.None? ==> next.text != "min_hold_seconds"
  }

  ghost predicate ClauseRead(toks: seq<Token>, i: nat, c: ClauseTree, r: (Clause, nat)) {
    && ClauseOk(c) && Reads(toks, i, r.1, ClauseTokens(c)) && ClauseAst(c) == r.0
    && (r.1 < |toks| ==> ClauseEnds(c, toks[r.1]))
  }

  lemma {:induction false} SoundLexicographic(toks: seq<Token>, i: nat) returns (c: ClauseTree)
    requires i < |toks| && toks[i] == Token(Ident, "lexicographic") && Order(toks, i + 1).Ok?
    ensures var (order, k) := Order(toks, i + 1).value;
            && c.LexTree? && ClauseOk(c) && Reads(toks, i, k, ClauseTail(c))
            && DimNames(c.dims) == order && IsLexStop(toks[k])
  {
    var k := Order(toks, i + 1).value.1;
    SoundOrder(toks, i + 1);
    c := LexTree(toks[i + 1..k]);
    ReadsCons(toks, i, k, toks[i + 1..k]);
  }

  lemma {:induction false} SoundWeighted(toks: seq<Token>, i: nat) returns (c: ClauseTree)
    requires i + 1 < |toks| && IdentText(toks[i]) != "lexicographic" && NumberAt(toks, i + 1).Ok?
    requires DimWeights(toks, i + 2, map[IdentText(toks[i]) := NumberAt(toks, i + 1).value]).Ok?
    ensures var (weights, k) := DimWeights(toks, i + 2, map[IdentText(toks[i]) := NumberAt(toks, i + 1).value]).value;
            && c.WeightedTree? && ClauseOk(c) && Reads(toks, i, k, ClauseTail(c))
            && WeightsOf([c.first] + c.more) == weights && !IsDim(toks[k].text)
  {
    var first := Pair(toks[i], toks[i + 1].text);
    assert PairsTokens([first]) == [toks[i], toks[i + 1]];
    assert [first][..0] == [];
    assert WeightsOf([first]) == map[IdentText(toks[i]) := Weight(first.weight)];
    hide DimWeights, WeightsOf, PairsTokens, PairsOk;
    var more := SoundDimWeights(toks, i, i + 2, [first]);
    c := WeightedTree(first, more);
  }

  lemma {:induction false} SoundOptimize(toks: seq<Token>, i: nat) returns (c: ClauseTree)
    requires OptimizeAt(toks, i).Ok?
    ensures var (o, k) := OptimizeAt(toks, i).value;
            && Keyword(c) == "optimize" && ClauseOk(c) && Reads(toks, i, k, ClauseTail(c))
            && ClauseAst(c) == OptimizeClause(o) && (k < |toks| ==> ClauseEnds(c, toks[k]))
  {
    hide Order, DimWeights, ClauseOk, ClauseTail, WeightsOf;
    if IdentText(toks[i]) == "lexicographic" {
      c := SoundLexicographic(toks, i);
    } else {
      c := SoundWeighted(toks, i);
    }
  }

  lemma {:induction false} SoundLimit(toks: seq<Token>, i: nat, word: string) returns (l: Option<Limit>)
    requires OptionalInteger(toks, i, word).Ok?
    ensures var (n, k) := OptionalInteger(toks, i, word).value;
            && LimitOk(l, word) && Reads(toks, i, k, LimitTokens(l)) && LimitAst(l) == n
            && (l.None? ==> k < |toks| && toks[k].text != word)
  {
    if toks[i].text != word {
      l := None;
    } else {
      l := Some(Limit(toks[i], toks[i + 1].text));
      assert Reads(toks, i, i + 2, [toks[i], toks[i + 1]]);
    }
  }

  lemma {:induction false} GateEnds(toks: seq<Token>, i: nat)
    requires OrChain(toks, i).Ok? && (OrChain(toks, i).value.0.Compare? || OrChain(toks, i).value.0.In?)
    ensures var k := OrChain(toks, i).value.1; k < |toks| && toks[k].text != "and" && toks[k].text != "or"
  {
    var (left, k) := Cmp(toks, i).value;
    AndRestTop(toks, k, left);
    var (chain, m) := AndChain(toks, i).value;
    OrRestTop(toks, m, chain);
  }

  lemma {:induction false} GateIsNotBare(toks: seq<Token>, i: nat, c: CmpTree)
    requires Cmp(toks, i).Ok? && CmpAst(c) == Cmp(toks, i).value.0
    requires CmpAst(c).Compare? || CmpAst(c).In?
    ensures !c.BareTree?
  {
  }

  lemma {:induction false} SoundRequire(toks: seq<Token>, i: nat) returns (c: ClauseTree)
    requires OrChain(toks, i).Ok? && (OrChain(toks, i).value.0.Compare? || OrChain(toks, i).value.0.In?)
    ensures var (e, k) := OrChain(toks, i).value;
            && c.RequireTree? && ClauseOk(c) && Reads(toks, i, k, ClauseTail(c)) && CmpAst(c.cmp) == e
            && k < |toks| && ClauseEnds(c, toks[k])
  {
    SoundGate(toks, i);
    GateEnds(toks, i);
    hide OrChain, Cmp, CmpTokens, CmpOk, CmpEnds;
    var cmp := SoundCmp(toks, i);
    GateIsNotBare(toks, i, cmp);
    c := RequireTree(cmp);
  }

  lemma {:induction false} SoundFallback(toks: seq<Token>, i: nat) returns (c: ClauseTree)
    requires IdentAt(toks, i).Ok? && OptionalInteger(toks, i + 1, "max_attempts").Ok?
    ensures var (n, k) := OptionalInteger(toks, i + 1, "max_attempts").value;
            && c.FallbackTree? && ClauseOk(c) && Reads(toks, i, k, ClauseTail(c))
            && ClauseAst(c) == FallbackClause(Fallback(toks[i].text, n)) && (k < |toks| ==> ClauseEnds(c, toks[k]))
  {
    var l := SoundLimit(toks, i + 1, "max_attempts");
    ReadsCons(toks, i, OptionalInteger(toks, i + 1, "max_attempts").value.1, LimitTokens(l));
    c := FallbackTree(toks[i].text, l);
  }

  lemma {:induction false} SoundSwitch(toks: seq<Token>, i: nat) returns (c: ClauseTree)
    requires IdentAt(toks, i).Ok? && IdentAt(toks, i + 1).Ok? && PunctAt(toks, i + 2, ">=").Ok?
    requires NumberAt(toks, i + 3).Ok? && OptionalInteger(toks, i + 4, "min_hold_seconds").Ok?
    ensures var (n, k) := OptionalInteger(toks, i + 4, "min_hold_seconds").value;
            && c.SwitchTree? && ClauseOk(c) && Reads(toks, i, k, ClauseTail(c))
            && ClauseAst(c) == SwitchClause(Switch(NumberAt(toks, i + 3).value, n))
            && (k < |toks| ==> ClauseEnds(c, toks[k]))
  {
    hide OptionalInteger;
    var k := OptionalInteger(toks, i + 4, "min_hold_seconds").value.1;
    var l := SoundLimit(toks, i + 4, "min_hold_seconds");
    c := SwitchTree(toks[i].text, toks[i + 1].text, toks[i + 3].text, l);
    SwitchHead(toks, i, k, LimitTokens(l));
  }

  lemma {:induction false} SwitchHead(toks: seq<Token>, i: nat, k: nat, tail: seq<Token>)
    requires i + 4 <= |toks| && Reads(toks, i + 4, k, tail)
    ensures Reads(toks, i, k, [toks[i], toks[i + 1], toks[i + 2], toks[i + 3]] + tail)
  {
    var head := [toks[i], toks[i + 1], toks[i + 2], toks[i + 3]];
    assert Reads(toks, i, i + 4, head);
    ReadsConcat(toks, i, i + 4, k, head, tail);
  }

  lemma {:induction false} SoundClause(toks: seq<Token>, i: nat) returns (c: ClauseTree)
    requires ClauseAt(toks, i).Ok?
    ensures ClauseRead(toks, i, c, ClauseAt(toks, i).value)
  {
    hide OrChain, OptimizeAt, OptionalInteger, ClauseOk, ClauseEnds, Reads;
    var kw := toks[i].text;
    if kw == "require" {
      c := SoundRequire(toks, i + 1);
    } else if kw == "prefer" {
      c := SoundPrefer(toks, i + 1);
    } else if kw == "optimize" {
      c := SoundOptimize(toks, i + 1);
    } else if kw == "fallback" {
      c := SoundFallback(toks, i + 1);
    } else {
      c := SoundSwitch(toks, i + 1);
    }
    ReadsCons(toks, i, ClauseAt(toks, i).value.1, ClauseTail(c));
  }

  lemma {:induction false} SoundPrefer(toks: seq<Token>, i: nat) returns (c: ClauseTree)
    requires IdentAt(toks, i).Ok? && IdentAt(toks, i + 1).Ok? && NumberAt(toks, i + 2).Ok?
    ensures && c.PreferTree? && ClauseOk(c) && Reads(toks, i, i + 3, ClauseTail(c))
            && ClauseAst(c) == PreferClause(Prefer(toks[i].text, NumberAt(toks, i + 2).value))
            && (i + 3 < |toks| ==> ClauseEnds(c, toks[i + 3]))
  {
    c := PreferTree(toks[i].text, toks[i + 1].text, toks[i + 2].text);
    assert Reads(toks, i, i + 3, [toks[i], toks[i + 1], toks[i + 2]]);
  }

  // Bodies and policies

  lemma {:induction false} BodyTokensSnoc(cs: seq<ClauseTree>, c: ClauseTree)
    ensures BodyTokens(cs + [c]) == BodyTokens(cs) + ClauseTokens(c)
  {
    hide ClauseTokens;
    if cs == [] {
      assert cs + [c] == [c];
      assert [c][1..] == [];
    } else {
      BodyTokensSnoc(cs[1..], c);
      assert (cs + [c])[1..] == cs[1..] + [c];
    }
  }

  lemma {:induction false} EmptyBodyOk()
    ensures BodyOk([])
  {
  }

  lemma {:induction false} MergeNothing(p: Policy)
    ensures Merge(p, BodyAst(p.name, [])) == p
  {
    assert p.gates + [] == p.gates && p.prefers + [] == p.prefers;
  }

  /** What a clause adds to a policy it adds to the body that follows. */
  lemma {:induction false} ApplyThenBody(name: string, c: ClauseTree, cs: seq<ClauseTree>, p: Policy)
    ensures Merge(p, BodyAst(name, [c] + cs)) == Merge(Apply(p, ClauseAst(c)), BodyAst(name, cs))
    ensures Apply(p, ClauseAst(c)).name == p.name
  {
    hide CmpAst, Weight, WeightsOf, LimitAst;
    assert ([c] + cs)[1..] == cs;
    assert p.gates + [] == p.gates && p.prefers + [] == p.prefers;
    assert [] + Gates(cs) == Gates(cs) && [] + Prefers(cs) == Prefers(cs);
    match c
    case RequireTree(cmp) => assert p.gates + ([CmpAst(cmp)] + Gates(cs)) == p.gates + [CmpAst(cmp)] + Gates(cs);
    case PreferTree(f, _, w) =>
      var g := Prefer(f, Weight(w));
      assert p.prefers + ([g] + Prefers(cs)) == p.prefers + [g] + Prefers(cs);
    case _ =>
  }

  /** From position `i` the clause loop reads a legal body and merges it into the policy. */
  lemma {:induction false} SoundBody(toks: seq<Token>, i: nat, p: Policy, prev: seq<ClauseTree>)
    returns (cs: seq<ClauseTree>)
    requires Body(toks, i, p).Ok? && i < |toks|
    requires |prev| <= 1 && BodyOk(prev) && (prev != [] ==> ClauseEnds(prev[0], toks[i]))
    ensures var (q, k) := Body(toks, i, p).value;
            && BodyOk(prev + cs) && Reads(toks, i, k, BodyTokens(cs)) && q == Merge(p, BodyAst(p.name, cs))
            && (toks[k].kind == EOF || toks[k].text == "}")
    decreases |toks| - i
  {
    hide ClauseAt, ClauseOk, ClauseEnds, BodyAst, Merge, ClauseAst, ClauseTokens, Apply;
    if toks[i].kind == EOF || toks[i].text == "}" {
      cs := [];
      assert prev + [] == prev;
      MergeNothing(p);
    } else {
      var c := SoundClause(toks, i);
      var (v, k) := ClauseAt(toks, i).value;
      assert BodyOk([c]);
      var tail := SoundBody(toks, k, Apply(p, v), [c]);
      cs := [c] + tail;
      var m := Body(toks, i, p).value.1;
      assert cs[1..] == tail;
      ReadsConcat(toks, i, k, m, ClauseTokens(c), BodyTokens(tail));
      ApplyThenBody(p.name, c, tail, p);
      ClauseStart(toks, i, c);
      if prev != [] {
        NotOptimizeAfterLex(prev[0], toks[i]);
      }
      JoinBodies(prev, [c] + tail);
    }
  }

  lemma {:induction false} ClauseStart(toks: seq<Token>, i: nat, c: ClauseTree)
    requires At(toks, i, ClauseTokens(c))
    ensures toks[i] == Token(Ident, Keyword(c))
  {
    AtHead(toks, i, ClauseTokens(c));
  }

  lemma {:induction false} NotOptimizeAfterLex(c: ClauseTree, next: Token)
    requires ClauseEnds(c, next) && next.kind == Ident
    ensures c.LexTree? ==> next.text != "optimize"
  {
  }

  lemma {:induction false} JoinBodies(a: seq<ClauseTree>, b: seq<ClauseTree>)
    requires BodyOk(a) && BodyOk(b)
    requires a != [] && b != [] && a[|a| - 1].LexTree? ==> Keyword(b[0]) != "optimize"
    ensures BodyOk(a + b)
  {
  }

  /** An accepted policy is in the grammar. */
  lemma {:induction false} SoundPolicy(toks: seq<Token>) returns (t: PolicyTree)
    requires PolicyAt(toks).Ok?
    ensures var (p, k) := PolicyAt(toks).value;
            BodyOk(t.clauses) && Reads(toks, 0, k, PolicyTokens(t)) && p == BodyAst(t.name, t.clauses)
  {
    hide Body;
    var name := toks[1].text;
    var cs := SoundBody(toks, 3, EmptyPolicy(name), []);
    assert [] + cs == cs;
    t := PolicyTree(toks[0].text, name, cs);
    var m := Body(toks, 3, EmptyPolicy(name)).value.1;
    assert Reads(toks, 0, 3, HeaderTokens(t));
    ReadsOne(toks, m);
    ReadsConcat(toks, 3, m, m + 1, BodyTokens(cs), [Token(Punct, "}")]);
    ReadsConcat(toks, 0, 3, m + 1, HeaderTokens(t), BodyTokens(cs) + [Token(Punct, "}")]);
    assert [] + Gates(cs) == Gates(cs) && [] + Prefers(cs) == Prefers(cs);
  }
}

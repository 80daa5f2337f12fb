/** What the parser makes of the documented language: which documented policies it accepts, which
    it rejects, and which come out as documented. */
module Coverage {
  import opened Outcomes
  import opened PolicyAst
  import opened Tokens
  import opened Parsing
  import opened Grammar
  import opened Spans
  import opened Soundness
  import opened Completeness
  import opened Bodies
  import opened Safety
  import opened Documented
  import Accepted
  import Layout
  import Lexing

  // Optimize clauses behind a lexicographic one

  /** The last optimize clause survives: wherever optimize clauses stand directly behind a
      lexicographic one, which swallows them, another optimize clause follows further on. */
  predicate OptimizeKept(cs: seq<ClauseTree>)
    decreases |cs|
  {
    if cs == [] then true
    else if cs[0].LexTree? then
      var n := OptimizeRun(cs[1..]);
      (n == 0 || LastOptimize(cs[n + 1..]).Some?) && OptimizeKept(cs[n + 1..])
    else OptimizeKept(cs[1..])
  }

  /** The clauses as the parser reads them: a lexicographic clause takes the optimize clauses
      directly behind it for more dimensions. */
  function Absorb(cs: seq<ClauseTree>): seq<ClauseTree>
    decreases |cs|
  {
    if cs == [] then []
    else if cs[0].LexTree? then
      var n := OptimizeRun(cs[1..]);
      [Swallow(cs[0].dims, cs[1..n + 1])] + Absorb(cs[n + 1..])
    else [cs[0]] + Absorb(cs[1..])
  }

  predicate Absorbable(cs: seq<ClauseTree>) {
    forall k | 0 <= k < |cs| ::
      ClauseOk(cs[k]) && (Keyword(cs[k]) == "optimize" ==> Swallowed(cs[k]) && NoEof(ClauseTokens(cs[k])))
  }

  lemma {:induction false} ConsOk(c: ClauseTree, cs: seq<ClauseTree>)
    requires ClauseOk(c) && BodyOk(cs) && (c.LexTree? && cs != [] ==> Keyword(cs[0]) != "optimize")
    ensures BodyOk([c] + cs)
  {
    hide ClauseOk, Keyword;
  }

  lemma {:induction false} SwallowKeyword(dims: seq<Token>, run: seq<ClauseTree>)
    ensures Keyword(Swallow(dims, run)) == Keyword(LexTree(dims))
  {
  }

  lemma {:induction false} AbsorbReads(cs: seq<ClauseTree>)
    requires Absorbable(cs)
    ensures BodyOk(Absorb(cs)) && BodyTokens(Absorb(cs)) == BodyTokens(cs)
    ensures cs != [] ==> Absorb(cs) != [] && Keyword(Absorb(cs)[0]) == Keyword(cs[0])
    decreases |cs|
  {
    hide ClauseOk, Swallow, BodyOk, BodyTokens, ClauseTokens, NoStops, Keyword, Absorbable, AllOptimize, OptimizeRun;
    if cs == [] {
      EmptyBodyOk();
    } else {
      var n := if cs[0].LexTree? then OptimizeRun(cs[1..]) else 0;
      var run, rest := cs[1..n + 1], cs[n + 1..];
      AbsorbableParts(cs, n);
      AbsorbReads(rest);
      if cs[0].LexTree? {
        ThreeWays(cs, n);
        RunParts(cs[1..]);
        assert run == cs[1..][..n] && rest == cs[1..][n..];
        SwallowReads(cs[0].dims, run, rest, Absorb(rest));
      } else {
        assert cs == [cs[0]] + rest;
        ConsOk(cs[0], Absorb(rest));
        BodyTokensConcat([cs[0]], rest);
        BodyTokensConcat([cs[0]], Absorb(rest));
      }
    }
  }

  lemma {:induction false} ThreeWays(cs: seq<ClauseTree>, n: nat)
    requires n < |cs|
    ensures cs == [cs[0]] + cs[1..n + 1] + cs[n + 1..]
    ensures cs[0].LexTree? ==> cs[0] == LexTree(cs[0].dims)
  {
  }

  lemma {:induction false} AbsorbableParts(cs: seq<ClauseTree>, n: nat)
    requires Absorbable(cs) && n < |cs|
    ensures ClauseOk(cs[0]) && Absorbable(cs[1..n + 1]) && Absorbable(cs[n + 1..])
  {
    hide ClauseOk, Swallowed, NoEof, ClauseTokens, Keyword;
  }

  lemma {:induction false} RunParts(cs: seq<ClauseTree>)
    ensures var n := OptimizeRun(cs);
            AllOptimize(cs[..n]) && (cs[n..] != [] ==> Keyword(cs[n..][0]) != "optimize")
  {
    hide Keyword;
  }

  lemma {:induction false} SwallowReads(dims: seq<Token>, run: seq<ClauseTree>, rest: seq<ClauseTree>,
                                        read: seq<ClauseTree>)
    requires ClauseOk(LexTree(dims)) && Absorbable(run) && AllOptimize(run)
    requires BodyOk(read) && BodyTokens(read) == BodyTokens(rest) && (read != [] ==> Keyword(read[0]) != "optimize")
    ensures BodyOk([Swallow(dims, run)] + read)
    ensures BodyTokens([Swallow(dims, run)] + read) == BodyTokens([LexTree(dims)] + run + rest)
    ensures Keyword(Swallow(dims, run)) == Keyword(LexTree(dims))
  {
    hide ClauseOk, Swallow, BodyOk, BodyTokens, NoStops, Keyword, Absorbable, AllOptimize;
    RunNoEof(run);
    AbsorbableSwallowed(run);
    RunNotStops(run);
    LexNoStops(LexTree(dims));
    SwallowOk(dims, run);
    SwallowKeyword(dims, run);
    ConsOk(Swallow(dims, run), read);
    SwallowTokens(dims, run);
    BodyTokensConcat([LexTree(dims)], run);
    BodyTokensConcat([LexTree(dims)] + run, rest);
    BodyTokensConcat([Swallow(dims, run)], read);
  }

  lemma {:induction false} AbsorbableSwallowed(run: seq<ClauseTree>)
    requires Absorbable(run) && AllOptimize(run)
    ensures AllSwallowed(run)
  {
    hide ClauseOk, Swallowed;
  }

  lemma {:induction false} RunNoEof(run: seq<ClauseTree>)
    requires Absorbable(run) && AllOptimize(run)
    ensures NoEof(BodyTokens(run))
  {
    hide ClauseOk, Swallowed, ClauseTokens, Keyword, NoEof;
    if run == [] {
      NothingNoEof();
    } else {
      RunNoEof(run[1..]);
      NoEofConcat(ClauseTokens(run[0]), BodyTokens(run[1..]));
    }
  }

  lemma {:induction false} NothingNoEof()
    ensures NoEof([])
  {
  }

  lemma {:induction false} LexNoStops(c: ClauseTree)
    requires c.LexTree? && ClauseOk(c)
    ensures NoStops(c.dims)
  {
    hide IsLexStop;
  }

  /** Absorbing changes nothing but the optimize clause, and not even that exactly when the last
      one survives. */
  lemma {:induction false} AbsorbMeans(name: string, cs: seq<ClauseTree>)
    ensures var read, written := BodyAst(name, Absorb(cs)), BodyAst(name, cs);
            && read == written.(optimize := read.optimize)
            && (read.optimize.Some? <==> written.optimize.Some?)
            && (read == written <==> OptimizeKept(cs))
    decreases |cs|
  {
    hide Swallow, BodyAst, BodyTokens, LastOptimize, Keyword;
    if cs != [] {
      var n := if cs[0].LexTree? then OptimizeRun(cs[1..]) else 0;
      var run, rest := cs[1..n + 1], cs[n + 1..];
      AbsorbMeans(name, rest);
      NamedBody(name, rest);
      NamedBody(name, Absorb(rest));
      OptimizeOfBody(name, rest);
      OptimizeOfBody(name, Absorb(rest));
      if n == 0 {
        if cs[0].LexTree? {
          SwallowNothing(cs[0].dims);
        }
        assert cs == [cs[0]] + rest;
        AstConcat(name, [cs[0]], rest);
        AstConcat(name, [cs[0]], Absorb(rest));
        NamedBody(name, [cs[0]]);
      } else {
        var dims := cs[0].dims;
        assert cs == [LexTree(dims)] + run + rest;
        SwallowMeans(name, dims, run, Absorb(rest));
        RunOverwrites(name, dims, run, Absorb(rest));
        NamedBody(name, [LexTree(dims)] + run);
        AstConcat(name, [LexTree(dims)] + run, rest);
        AstConcat(name, [LexTree(dims)] + run, Absorb(rest));
      }
    }
  }

  lemma {:induction false} SwallowNothing(dims: seq<Token>)
    ensures Swallow(dims, []) == LexTree(dims)
  {
    assert dims + [] == dims;
  }

  lemma {:induction false} OptimizeOfBody(name: string, cs: seq<ClauseTree>)
    ensures BodyAst(name, cs).optimize == LastOptimize(cs)
  {
  }

  // Coverage

  lemma {:induction false} PairsNoEof(ps: seq<DocPair>)
    ensures NoEof(PairsSpelling(ps))
  {
    hide NoEof;
    if ps == [] {
      NothingNoEof();
    } else {
      PairsNoEof(ps[1..]);
      TwoNoEof(ps[0]);
      NoEofConcat([Id(ps[0].dim), Nu(ps[0].weight)], PairsSpelling(ps[1..]));
    }
  }

  lemma {:induction false} TwoNoEof(p: DocPair)
    ensures NoEof([Id(p.dim), Nu(p.weight)])
  {
  }

  lemma {:induction false} OptimizeSwallowed(c: DocClause)
    requires ClauseDoc(c) && IsOptimize(c)
    ensures Swallowed(ClauseTreeOf(c)) && NoEof(ClauseSpelling(c))
  {
    hide IsNumeral, PairsSpelling, NoEof;
    match c
    case DocWeighted(first, more) =>
      DimNotStop(Id(first.dim));
      PairsNoEof([first] + more);
      TokenNoEof(Id("optimize"));
      NoEofConcat([Id("optimize")], PairsSpelling([first] + more));
    case DocLexicographic(dims) => IdentsNoEof(dims);
    case DocLexWeighted(first, more) =>
      PairsNoEof([first] + more);
      TokenNoEof(Id("optimize"));
      TokenNoEof(Id("lexicographic"));
      NoEofConcat([Id("lexicographic")], PairsSpelling([first] + more));
      NoEofConcat([Id("optimize")], [Id("lexicographic")] + PairsSpelling([first] + more));
  }

  lemma {:induction false} IdentsNoEof(dims: seq<string>)
    ensures NoEof([Id("optimize")] + ([Id("lexicographic")] + Idents(dims)))
  {
  }

  /** The clauses of a documented policy as the parser reads them. */
  function ReadAs(d: DocPolicy): seq<ClauseTree> {
    Absorb(ClauseTreesOf(d.clauses))
  }

  /** Every documented policy within the supported part is accepted whole. */
  lemma {:induction false} SupportedIsAccepted(d: DocPolicy)
    requires PolicyDoc(d) && Supported(d)
    ensures PolicyAt(Spelling(d) + [EOF_TOKEN]) == Ok((BodyAst(d.name, ReadAs(d)), |Spelling(d)|))
    ensures UpToOptimize(Meaning(d), BodyAst(d.name, ReadAs(d)))
  {
    hide ClauseDoc, ClauseSupported, ClauseOk, ClauseTreesOf, ClausesSpelling, ClausesMeaning, BodyAst, Merge, PolicyAt,
      BodyTokens, At, BodyOk, Absorb, Absorbable;
    var cs := ClauseTreesOf(d.clauses);
    var t := PolicyTree("policy", d.name, Absorb(cs));
    ClausesAgree(d.clauses);
    MeaningAgrees(EmptyPolicy(d.name), d.clauses);
    TreesAbsorbable(d.clauses);
    AbsorbReads(cs);
    AbsorbMeans(d.name, cs);
    NamedBody(d.name, cs);
    MergeEmpty(d.name, BodyAst(d.name, cs));
    SpellingAt(d);
    CompletePolicy(Spelling(d) + [EOF_TOKEN], t);
  }

  lemma {:induction false} SpellingAt(d: DocPolicy)
    ensures At(Spelling(d) + [EOF_TOKEN], 0, Spelling(d))
  {
    hide Spelling;
  }

  lemma {:induction false} TreesAbsorbable(cs: seq<DocClause>)
    requires forall k | 0 <= k < |cs| :: ClauseDoc(cs[k]) && ClauseSupported(cs[k])
    ensures Absorbable(ClauseTreesOf(cs))
  {
    hide ClauseOk, ClauseDoc, ClauseSupported, ClauseTreeOf, ClauseTokens, ClauseSpelling, Swallowed, Keyword, NoEof;
    forall k | 0 <= k < |cs|
      ensures var t := ClauseTreesOf(cs)[k];
              ClauseOk(t) && (Keyword(t) == "optimize" ==> Swallowed(t) && NoEof(ClauseTokens(t)))
    {
      ClauseAgrees(cs[k]);
      OptimizeTreeOf(cs[k]);
      if IsOptimize(cs[k]) {
        OptimizeSwallowed(cs[k]);
      }
    }
  }

  // No end marker in a documented policy

  lemma {:induction false} PathTailNoEof(more: seq<string>)
    ensures NoEof(PathTail(more))
  {
    hide NoEof;
    if more == [] {
      NothingNoEof();
    } else {
      PathTailNoEof(more[1..]);
      StepNoEof(more[0]);
      NoEofConcat([Pu("."), Id(more[0])], PathTail(more[1..]));
    }
  }

  lemma {:induction false} StepNoEof(name: string)
    ensures NoEof([Pu("."), Id(name)])
  {
  }

  lemma {:induction false} OperandNoEof(o: DocOperand)
    requires OperandDoc(o)
    ensures NoEof(OperandSpelling(o))
  {
    if o.DocPath? {
      PathTailNoEof(o.more);
    }
  }

  lemma {:induction false} ListTailNoEof(more: seq<Token>)
    requires forall k | 0 <= k < |more| :: LiteralDoc(more[k])
    ensures NoEof(ListTail(more))
  {
    hide NoEof;
    if more == [] {
      TokenNoEof(Pu("]"));
    } else {
      ListTailNoEof(more[1..]);
      TokenNoEof(Pu(","));
      TokenNoEof(more[0]);
      NoEofConcat([Pu(",")], [more[0]]);
      NoEofConcat([Pu(",")] + [more[0]], ListTail(more[1..]));
      assert ListTail(more) == [Pu(",")] + [more[0]] + ListTail(more[1..]);
    }
  }

  lemma {:induction false} TokenNoEof(t: Token)
    requires t.kind != EOF
    ensures NoEof([t])
  {
  }

  lemma {:induction false} CmpNoEof(c: DocCmp)
    requires CmpDoc(c)
    ensures NoEof(CmpSpelling(c))
  {
    hide NoEof, OperandDoc, OperandSpelling, ListTail;
    match c
    case DocCompare(l, op, r) =>
      OperandNoEof(l);
      OperandNoEof(r);
      TokenNoEof(Pu(op));
      NoEofConcat([Pu(op)], OperandSpelling(r));
      NoEofConcat(OperandSpelling(l), [Pu(op)] + OperandSpelling(r));
    case DocIn(o, first, more) =>
      OperandNoEof(o);
      ListTailNoEof(more);
      InNoEof(first);
      NoEofConcat([Id("in"), Pu("["), first], ListTail(more));
      NoEofConcat(OperandSpelling(o), [Id("in"), Pu("["), first] + ListTail(more));
  }

  lemma {:induction false} InNoEof(first: Token)
    requires LiteralDoc(first)
    ensures NoEof([Id("in"), Pu("["), first])
  {
  }

  lemma {:induction false} AndTailNoEof(more: seq<DocCmp>)
    requires forall k | 0 <= k < |more| :: CmpDoc(more[k])
    ensures NoEof(AndTail(more))
  {
    hide NoEof, CmpDoc, CmpSpelling;
    if more == [] {
      NothingNoEof();
    } else {
      CmpNoEof(more[0]);
      AndTailNoEof(more[1..]);
      TokenNoEof(Id("and"));
      NoEofConcat([Id("and")], CmpSpelling(more[0]));
      NoEofConcat([Id("and")] + CmpSpelling(more[0]), AndTail(more[1..]));
    }
  }

  lemma {:induction false} AndNoEof(a: DocAnd)
    requires AndDoc(a)
    ensures NoEof(AndSpelling(a))
  {
    hide NoEof, CmpDoc, CmpSpelling, AndTail;
    CmpNoEof(a.first);
    AndTailNoEof(a.more);
    NoEofConcat(CmpSpelling(a.first), AndTail(a.more));
  }

  lemma {:induction false} OrTailNoEof(more: seq<DocAnd>)
    requires forall k | 0 <= k < |more| :: AndDoc(more[k])
    ensures NoEof(OrTail(more))
  {
    hide NoEof, AndDoc, AndSpelling;
    if more == [] {
      NothingNoEof();
    } else {
      AndNoEof(more[0]);
      OrTailNoEof(more[1..]);
      TokenNoEof(Id("or"));
      NoEofConcat([Id("or")], AndSpelling(more[0]));
      NoEofConcat([Id("or")] + AndSpelling(more[0]), OrTail(more[1..]));
    }
  }

  lemma {:induction false} RequireNoEof(e: DocOr)
    requires OrDoc(e)
    ensures NoEof([Id("require")] + OrSpelling(e))
  {
    hide NoEof, AndDoc, AndSpelling, OrTail;
    AndNoEof(e.first);
    OrTailNoEof(e.more);
    TokenNoEof(Id("require"));
    NoEofConcat(AndSpelling(e.first), OrTail(e.more));
    NoEofConcat([Id("require")], OrSpelling(e));
  }

  lemma {:induction false} ClauseNoEof(c: DocClause)
    requires ClauseDoc(c)
    ensures NoEof(ClauseSpelling(c))
  {
    hide OrDoc, OrSpelling, IsNumeral, PairDoc, PairsSpelling, LexDim;
    if c.DocRequire? {
      RequireNoEof(c.expr);
    } else if IsOptimize(c) {
      OptimizeSwallowed(c);
    }
  }

  lemma {:induction false} ClausesNoEof(cs: seq<DocClause>)
    requires forall k | 0 <= k < |cs| :: ClauseDoc(cs[k])
    ensures NoEof(ClausesSpelling(cs))
  {
    hide NoEof, ClauseDoc, ClauseSpelling;
    if cs == [] {
      NothingNoEof();
    } else {
      ClauseNoEof(cs[0]);
      ClausesNoEof(cs[1..]);
      NoEofConcat(ClauseSpelling(cs[0]), ClausesSpelling(cs[1..]));
    }
  }

  /** The token list of a documented policy ends as lexed ones do. */
  lemma {:induction false} SpellingEnds(d: DocPolicy)
    requires PolicyDoc(d)
    ensures EndsInEof(Spelling(d) + [EOF_TOKEN])
  {
    hide ClauseDoc, ClausesSpelling;
    ClausesNoEof(d.clauses);
    var body := ClausesSpelling(d.clauses);
    NoEofConcat(body, [CLOSE]);
    NoEofConcat([Id("policy"), Id(d.name), Pu("{")], body + [CLOSE]);
  }

  // Requires that are not supported

  /** A token that no clause starts with and no expression goes on with. */
  predicate IsLeftOver(t: Token) {
    t.kind == Punct && (t.text == ")" || t.text == "," || t.text == "]")
  }

  /** `r` is no expression of which a require clause could be made. */
  predicate IsDead(toks: seq<Token>, r: Result<(Expr, nat)>) {
    match r
    case Ok((e, k)) => e.And? || e.Or? || (k < |toks| && IsLeftOver(toks[k]))
    case Err => true
    case Crash => false
  }

  lemma {:induction false} OperandDead(toks: seq<Token>, i: nat, o: DocOperand)
    requires OperandDoc(o) && !OperandSupported(o) && At(toks, i, OperandSpelling(o))
    ensures i + 5 < |toks| && Operand(toks, i).Ok? && Operand(toks, i).value.1 == i + 5 && toks[i + 5] == Pu(")")
  {
    var ts := OperandSpelling(o);
    assert forall k | 0 <= k < 6 :: toks[i + k] == ts[k];
    assert toks[i] == ts[0] && toks[i + 1] == ts[1] && toks[i + 2] == ts[2];
    assert toks[i + 3] == ts[3] && toks[i + 4] == ts[4] && toks[i + 5] == ts[5];
    assert Args(toks, i + 4) == Ok(([], i + 5));
    CallReads(toks, i, "model");
  }

  lemma {:induction false} ListTailStart(more: seq<Token>)
    ensures ListTail(more) != [] && ListTail(more)[0] == if more == [] then Pu("]") else Pu(",")
  {
  }

  lemma {:induction false} ItemsDead(toks: seq<Token>, i: nat, first: Token, more: seq<Token>)
    requires LiteralDoc(first) && forall k | 0 <= k < |more| :: LiteralDoc(more[k])
    requires first.text == "]" || exists k | 0 <= k < |more| :: more[k].text == "]"
    requires At(toks, i, [first] + ListTail(more))
    ensures Items(toks, i).Ok?
    ensures Items(toks, i).value.1 < |toks| && IsLeftOver(toks[Items(toks, i).value.1])
    decreases |more|
  {
    hide IsLiteralToken, LiteralDoc, At, Items, IsLeftOver;
    DocLiterals(first);
    AtCons(toks, i, first, ListTail(more));
    ListTailStart(more);
    AtHead(toks, i + 1, ListTail(more));
    if first.text == "]" {
      ItemsStop(toks, i);
      LeftOvers();
    } else {
      ListStep(more);
      AtCons(toks, i + 1, Pu(","), [more[0]] + ListTail(more[1..]));
      ItemsDead(toks, i + 2, more[0], more[1..]);
      var (rest, m) := Items(toks, i + 2).value;
      ItemsTurn(toks, i, i + 2, rest, m);
    }
  }

  lemma {:induction false} ItemsStop(toks: seq<Token>, i: nat)
    requires i < |toks| && toks[i].text == "]"
    ensures Items(toks, i) == Ok(([], i + 1))
  {
  }

  lemma {:induction false} LeftOvers()
    ensures IsLeftOver(Pu(")")) && IsLeftOver(Pu(",")) && IsLeftOver(Pu("]"))
  {
  }

  lemma {:induction false} ListStep(more: seq<Token>)
    requires more != []
    ensures ListTail(more) == [Pu(",")] + ([more[0]] + ListTail(more[1..]))
  {
  }

  /** An unsupported comparison leaves a token behind. */
  lemma {:induction false} CmpDead(toks: seq<Token>, i: nat, c: DocCmp)
    requires CmpDoc(c) && !CmpSupported(c) && At(toks, i, CmpSpelling(c))
    ensures Cmp(toks, i).Ok? && Cmp(toks, i).value.1 < |toks| && IsLeftOver(toks[Cmp(toks, i).value.1])
  {
    hide At, Operand, OperandDoc, OperandSupported, OperandSpelling, LiteralDoc, Items, ListTail, OperandTreeOf,
      OperandTokens, OperandOk, OperandAst, OperandMeaning, OperandEnds;
    LeftOvers();
    match c
    case DocCompare(l, op, r) =>
      var n := i + |OperandSpelling(l)|;
      AtConcat(toks, i, OperandSpelling(l), [Pu(op)] + OperandSpelling(r));
      AtCons(toks, n, Pu(op), OperandSpelling(r));
      if OperandSupported(l) {
        LeftReads(toks, i, l);
        OperandDead(toks, n + 1, r);
      } else {
        OperandDead(toks, i, l);
      }
    case DocIn(o, first, more) =>
      var n := i + |OperandSpelling(o)|;
      var items := [first] + ListTail(more);
      assert [Id("in"), Pu("["), first] + ListTail(more) == [Id("in"), Pu("[")] + items;
      AtConcat(toks, i, OperandSpelling(o), [Id("in"), Pu("[")] + items);
      TwoThen(toks, n, Id("in"), Pu("["), items);
      if OperandSupported(o) {
        LeftReads(toks, i, o);
        ItemsDead(toks, n + 2, first, more);
      } else {
        OperandDead(toks, i, o);
      }
  }

  /** A supported operand before an operator is read whole. */
  lemma {:induction false} LeftReads(toks: seq<Token>, i: nat, o: DocOperand)
    requires OperandDoc(o) && OperandSupported(o) && At(toks, i, OperandSpelling(o))
    requires i + |OperandSpelling(o)| < |toks|
    requires toks[i + |OperandSpelling(o)|].text != "." && toks[i + |OperandSpelling(o)|].text != "("
    ensures Operand(toks, i) == Ok((OperandMeaning(o), i + |OperandSpelling(o)|))
  {
    hide At, Operand, OperandDoc, OperandSupported, OperandSpelling, OperandTreeOf, OperandTokens, OperandOk,
      OperandAst,
      OperandMeaning, OperandEnds;
    OperandAgrees(o);
    OperatorEnds(OperandTreeOf(o), toks[i + |OperandSpelling(o)|]);
    CompleteOperand(toks, i, OperandTreeOf(o));
  }

  /** The token behind the first atom of an expression with connectives. */
  lemma {:induction false} FirstConnective(toks: seq<Token>, i: nat, e: DocOr)
    requires At(toks, i, OrSpelling(e)) && (e.more != [] || e.first.more != [])
    ensures At(toks, i, CmpSpelling(e.first.first))
    ensures var k := i + |CmpSpelling(e.first.first)|;
            k < |toks| && (toks[k] == Id("and") || toks[k] == Id("or"))
  {
    hide At, CmpSpelling;
    var cmp := CmpSpelling(e.first.first);
    AtConcat(toks, i, AndSpelling(e.first), OrTail(e.more));
    AtConcat(toks, i, cmp, AndTail(e.first.more));
    if e.first.more != [] {
      AtHead(toks, i + |cmp|, AndTail(e.first.more));
    } else {
      AtHead(toks, i + |cmp|, OrTail(e.more));
    }
  }

  lemma {:induction false} SupportedCmpReads(toks: seq<Token>, i: nat, c: DocCmp)
    requires CmpDoc(c) && CmpSupported(c) && At(toks, i, CmpSpelling(c)) && i + |CmpSpelling(c)| < |toks|
    requires toks[i + |CmpSpelling(c)|].text != "." && toks[i + |CmpSpelling(c)|].text != "("
    ensures Cmp(toks, i) == Ok((CmpMeaning(c), i + |CmpSpelling(c)|))
  {
    hide At, Cmp, CmpDoc, CmpSupported, CmpSpelling, CmpTokens, CmpOk, CmpAst, CmpMeaning;
    CmpAgrees(c);
    AtomEnds(c, toks[i + |CmpSpelling(c)|]);
    CompleteCmp(toks, i, CmpTreeOf(c));
  }

  lemma {:induction false} AtomEnds(c: DocCmp, next: Token)
    requires next.text != "." && next.text != "("
    ensures CmpEnds(CmpTreeOf(c), next)
  {
    hide OperandEnds, OperandTreeOf, ItemsTreeOf;
    if c.DocCompare? {
      OperatorEnds(OperandTreeOf(c.right), next);
    }
  }

  lemma {:induction false} RequireDead(toks: seq<Token>, i: nat, e: DocOr)
    requires EndsInEof(toks) && OrDoc(e) && !ClauseSupported(DocRequire(e)) && At(toks, i, OrSpelling(e)) && i < |toks|
    ensures IsDead(toks, OrChain(toks, i))
  {
    hide EndsInEof, At, Cmp, CmpDoc, CmpSupported, CmpSpelling, CmpMeaning, OrChain, IsLeftOver, AndTail, OrTail;
    var c := e.first.first;
    AtConcat(toks, i, AndSpelling(e.first), OrTail(e.more));
    AtConcat(toks, i, CmpSpelling(c), AndTail(e.first.more));
    if CmpSupported(c) {
      FirstConnective(toks, i, e);
      SupportedCmpReads(toks, i, c);
      SafeOrChain(toks, i);
      if OrChain(toks, i).Ok? {
        Accepted.ConnectiveTop(toks, i);
      }
    } else {
      CmpDead(toks, i, c);
      LeftOverEnds(toks[Cmp(toks, i).value.1]);
      CompleteGate(toks, i);
    }
  }

  lemma {:induction false} LeftOverEnds(t: Token)
    requires IsLeftOver(t)
    ensures t.text != "and" && t.text != "or" && t.text != "}" && t.kind != EOF && t.kind != Ident
  {
  }

  lemma {:induction false} DeadClause(toks: seq<Token>, i: nat, p: Policy)
    requires i < |toks| && toks[i] == Id("require") && IsDead(toks, OrChain(toks, i + 1))
    ensures Body(toks, i, p) == Err
  {
    hide OrChain, IsLeftOver;
    var r := OrChain(toks, i + 1);
    if r.Ok? && (r.value.0.Compare? || r.value.0.In?) {
      LeftOverEnds(toks[r.value.1]);
      StuckBody(toks, r.value.1, Apply(p, RequireClause(r.value.0)));
    }
  }

  lemma {:induction false} StuckBody(toks: seq<Token>, i: nat, p: Policy)
    requires i < |toks| && toks[i].kind != EOF && toks[i].kind != Ident && toks[i].text != "}"
    ensures Body(toks, i, p) == Err
  {
  }

  // Policies that are not supported

  predicate AllSupported(cs: seq<DocClause>) {
    forall k | 0 <= k < |cs| :: ClauseSupported(cs[k])
  }

  function FirstUnsupported(cs: seq<DocClause>): (n: nat)
    requires !AllSupported(cs)
    ensures n < |cs| && AllSupported(cs[..n]) && !ClauseSupported(cs[n])
  {
    if !ClauseSupported(cs[0]) then 0
    else
      var n := 1 + FirstUnsupported(cs[1..]);
      assert cs[..n] == [cs[0]] + cs[1..][..n - 1];
      n
  }

  lemma {:induction false} SpellingConcat(a: seq<DocClause>, b: seq<DocClause>)
    ensures ClausesSpelling(a + b) == ClausesSpelling(a) + ClausesSpelling(b)
  {
    hide ClausesSpelling, ClauseSpelling;
    if a == [] {
      NoSpelling();
      assert a + b == b;
    } else {
      SpellingConcat(a[1..], b);
      SpellingCons(a[0], a[1..]);
      SpellingCons(a[0], a[1..] + b);
      assert a == [a[0]] + a[1..] && a + b == [a[0]] + (a[1..] + b);
    }
  }

  lemma {:induction false} NoSpelling()
    ensures ClausesSpelling([]) == []
  {
  }

  /** The tokens of a policy up to one of its clauses. */
  lemma {:induction false} ClauseStands(d: DocPolicy, n: nat)
    requires n < |d.clauses|
    ensures var toks := Spelling(d) + [EOF_TOKEN];
            var m := 3 + |ClausesSpelling(d.clauses[..n])|;
            && toks[..3] == [Id("policy"), Id(d.name), Pu("{")] && At(toks, 3, ClausesSpelling(d.clauses[..n]))
            && At(toks, m, ClauseSpelling(d.clauses[n]))
  {
    hide ClausesSpelling, ClauseSpelling, At;
    var pre, c, post := d.clauses[..n], d.clauses[n], d.clauses[n + 1..];
    assert d.clauses == pre + ([c] + post);
    SpellingConcat(pre, [c] + post);
    SpellingCons(c, post);
    var head := [Id("policy"), Id(d.name), Pu("{")];
    var toks := Spelling(d) + [EOF_TOKEN];
    var tail := ClausesSpelling(post) + [CLOSE] + [EOF_TOKEN];
    assert toks == head + (ClausesSpelling(pre) + (ClauseSpelling(c) + tail));
    WholeAt(toks);
    AtConcat(toks, 0, head, ClausesSpelling(pre) + (ClauseSpelling(c) + tail));
    AtConcat(toks, 3, ClausesSpelling(pre), ClauseSpelling(c) + tail);
    AtConcat(toks, 3 + |ClausesSpelling(pre)|, ClauseSpelling(c), tail);
  }

  lemma {:induction false} SpellingCons(c: DocClause, cs: seq<DocClause>)
    ensures ClausesSpelling([c] + cs) == ClauseSpelling(c) + ClausesSpelling(cs)
  {
    hide ClauseSpelling;
    assert ([c] + cs)[1..] == cs;
  }

  /** Supported clauses before a require are read through. */
  lemma {:induction false} ReadThrough(toks: seq<Token>, i: nat, p: Policy, cs: seq<DocClause>) returns (q: Policy)
    requires forall k | 0 <= k < |cs| :: ClauseDoc(cs[k]) && ClauseSupported(cs[k])
    requires At(toks, i, ClausesSpelling(cs))
    requires i + |ClausesSpelling(cs)| < |toks| && toks[i + |ClausesSpelling(cs)|] == Id("require")
    ensures Body(toks, i, p) == Body(toks, i + |ClausesSpelling(cs)|, q)
  {
    hide At, ClauseDoc, ClauseSupported, ClausesSpelling, ClauseTreesOf, Body, BodyOk, BodyTokens, BodyAst, Merge,
      Absorb, Absorbable;
    var ts := Absorb(ClauseTreesOf(cs));
    ClausesAgree(cs);
    TreesAbsorbable(cs);
    AbsorbReads(ClauseTreesOf(cs));
    BodyPrefix(toks, i, p, ts);
    q := Merge(p, BodyAst(p.name, ts));
  }

  /** A documented policy with an unsupported require is an error. */
  lemma {:induction false} UnsupportedIsRejected(d: DocPolicy)
    requires PolicyDoc(d) && !Supported(d)
    ensures PolicyAt(Spelling(d) + [EOF_TOKEN]) == Err
  {
    hide Spelling, ClausesSpelling, ClauseDoc, ClauseSupported, Body, At, OrSpelling, EndsInEof, OrDoc, IsDead;
    var toks := Spelling(d) + [EOF_TOKEN];
    var n := FirstUnsupported(d.clauses);
    var pre, c := d.clauses[..n], d.clauses[n];
    var m := 3 + |ClausesSpelling(pre)|;
    ClauseStands(d, n);
    UnsupportedShape(c);
    assert ClauseSpelling(c) == [Id("require")] + OrSpelling(c.expr);
    AtCons(toks, m, Id("require"), OrSpelling(c.expr));
    var q := ReadThrough(toks, 3, EmptyPolicy(d.name), pre);
    SpellingEnds(d);
    MoreTokens(toks, m);
    RequireDead(toks, m + 1, c.expr);
    DeadClause(toks, m, q);
    HeaderReads(toks, d.name);
  }

  lemma {:induction false} UnsupportedShape(c: DocClause)
    requires !ClauseSupported(c)
    ensures c.DocRequire? && !ClauseSupported(DocRequire(c.expr))
    ensures ClauseDoc(c) ==> OrDoc(c.expr)
  {
    hide CmpSupported, OrDoc;
  }

  lemma {:induction false} MoreTokens(toks: seq<Token>, i: nat)
    requires EndsInEof(toks) && i < |toks| && toks[i].kind != EOF
    ensures i + 1 < |toks|
  {
  }

  lemma {:induction false} HeaderReads(toks: seq<Token>, name: string)
    requires |toks| >= 3 && toks[..3] == [Id("policy"), Id(name), Pu("{")] && Body(toks, 3, EmptyPolicy(name)) == Err
    ensures PolicyAt(toks) == Err
  {
    hide Body;
    assert toks[0] == toks[..3][0] && toks[1] == toks[..3][1] && toks[2] == toks[..3][2];
  }

  // The exact results

  /** What the parser accepts of the documented language, exactly: a documented policy is accepted
      if and only if every require is a single comparison or list test without the two literals
      that end a list or a call; every other one is an error. */
  lemma {:induction false} AcceptedExactly(d: DocPolicy)
    requires PolicyDoc(d)
    ensures PolicyAt(Spelling(d) + [EOF_TOKEN]).Ok? <==> Supported(d)
    ensures PolicyAt(Spelling(d) + [EOF_TOKEN]).Err? <==> !Supported(d)
  {
    hide PolicyDoc, Supported, PolicyAt, Spelling;
    if Supported(d) {
      SupportedIsAccepted(d);
    } else {
      UnsupportedIsRejected(d);
    }
  }

  /** What it gets right of that, exactly: the policy comes out as documented if and only if it is
      supported, its last optimize clause is not swallowed, and that clause is not lexicographic
      with weights. Nothing but the optimize clause can come out differently. */
  lemma {:induction false} CoverageExactly(d: DocPolicy)
    requires PolicyDoc(d)
    ensures PolicyAt(Spelling(d) + [EOF_TOKEN]) == Ok((Meaning(d), |Spelling(d)|))
            <==> Supported(d) && OptimizeKept(ClauseTreesOf(d.clauses)) && !LastLexWeighted(d.clauses)
    ensures Supported(d) ==>
              PolicyAt(Spelling(d) + [EOF_TOKEN]).Ok?
                  && UpToOptimize(Meaning(d), PolicyAt(Spelling(d) + [EOF_TOKEN]).value.0)
  {
    hide ClauseDoc, PolicyAt, Spelling, ClausesMeaning, ClauseSupported, ClauseTreesOf, OptimizeKept, Absorb,
      BodyAst, LastLexWeighted,
      DocOptimize;
    AcceptedExactly(d);
    if Supported(d) {
      SupportedIsAccepted(d);
      var trees := ClauseTreesOf(d.clauses);
      AbsorbMeans(d.name, trees);
      MeaningAgrees(EmptyPolicy(d.name), d.clauses);
      NamedBody(d.name, trees);
      MergeEmpty(d.name, BodyAst(d.name, trees));
      OptimizeOfBody(d.name, trees);
      LastAgrees(d.clauses);
      Accepted.AcceptedOptimize(Spelling(d) + [EOF_TOKEN]);
    }
  }

  /** The same for source texts: what is said of a documented policy holds of it in every layout. */
  lemma {:induction false} SourceExactly(d: DocPolicy, gaps: seq<string>)
    requires PolicyDoc(d) && |gaps| == |Spelling(d)| + 1 && Layout.LayoutOk(Spelling(d), gaps)
    ensures var r := ParseSource(Layout.Render(Spelling(d), gaps));
            && (r.Ok? <==> Supported(d)) && (r.Err? <==> !Supported(d))
            && (r == Ok(Meaning(d))
                <==> Supported(d) && OptimizeKept(ClauseTreesOf(d.clauses)) && !LastLexWeighted(d.clauses))
  {
    hide PolicyDoc, Supported, PolicyAt, Spelling, Meaning, OptimizeKept, LastLexWeighted, ClauseTreesOf,
      Layout.LayoutOk, Layout.Render, Lexing.LexFrom;
    Layout.RenderLexes(Spelling(d), gaps);
    AcceptedExactly(d);
    CoverageExactly(d);
    if Supported(d) {
      SupportedIsAccepted(d);
    }
  }

  /** How the lexicographic form with weights comes out: every weight is one more dimension, with
      an empty name. */
  lemma {:induction false} LexicographicWeights(d: DocPolicy, pre: seq<DocClause>, c: DocClause, post: seq<DocClause>)
    requires PolicyDoc(d) && Supported(d) && OptimizeKept(ClauseTreesOf(d.clauses))
    requires d.clauses == pre + [c] + post && c.DocLexWeighted? && forall k | 0 <= k < |post| :: !IsOptimize(post[k])
    ensures var names := Interleaved([c.first] + c.more);
            && PolicyAt(Spelling(d) + [EOF_TOKEN]).Ok?
            && PolicyAt(Spelling(d) + [EOF_TOKEN]).value.0.optimize == Some(Optimize(true, map[], names))
            && |names| == 2 * (|c.more| + 1)
            && forall k | 0 <= k <= |c.more| :: names[2 * k] == ([c.first] + c.more)[k].dim && names[2 * k + 1] == ""
  {
    hide ClauseDoc, PolicyAt, Spelling, ClausesMeaning, ClauseSupported, OptimizeKept, Absorb, BodyAst, Interleaved,
      ClauseTreeOf, ReadMeaning, IsOptimize, LastOptimize, ClauseAst;
    var trees := ClauseTreesOf(d.clauses);
    SupportedIsAccepted(d);
    AbsorbMeans(d.name, trees);
    OptimizeOfBody(d.name, trees);
    InterleavedAt([c.first] + c.more);
    assert d.clauses[|pre|] == c;
    assert trees == ClauseTreesOf(pre) + [ClauseTreeOf(c)] + ClauseTreesOf(post);
    assert forall k | 0 <= k < |post| :: post[k] == d.clauses[|pre| + 1 + k];
    NoLaterOptimize(post);
    ClauseAgrees(c);
    LexWeightedKeyword(c);
    LastOf(d.name, ClauseTreesOf(pre), ClauseTreeOf(c), ClauseTreesOf(post));
  }

  lemma {:induction false} LexWeightedKeyword(c: DocClause)
    requires c.DocLexWeighted?
    ensures Keyword(ClauseTreeOf(c)) == "optimize"
    ensures ReadMeaning(c) == OptimizeClause(Optimize(true, map[], Interleaved([c.first] + c.more)))
  {
    hide Interleaved;
  }

  lemma {:induction false} NoLaterOptimize(cs: seq<DocClause>)
    requires forall k | 0 <= k < |cs| :: !IsOptimize(cs[k]) && ClauseDoc(cs[k]) && ClauseSupported(cs[k])
    ensures LastOptimize(ClauseTreesOf(cs)).None?
  {
    hide IsOptimize, ClauseDoc, ClauseSupported, ClauseTreeOf, Keyword;
    if cs != [] {
      NoLaterOptimize(cs[1..]);
      assert ClauseTreesOf(cs)[1..] == ClauseTreesOf(cs[1..]);
      OptimizeTreeOf(cs[0]);
    }
  }

  lemma {:induction false} LastOfOne(c: ClauseTree)
    requires Keyword(c) == "optimize"
    ensures LastOptimize([c]) == Some(ClauseAst(c).optimize)
  {
    hide BodyAst, LastOptimize;
    RunMeans("", [c]);
  }

  lemma {:induction false} LastOf(name: string, a: seq<ClauseTree>, c: ClauseTree, b: seq<ClauseTree>)
    requires Keyword(c) == "optimize" && LastOptimize(b).None?
    ensures LastOptimize(a + [c] + b) == Some(ClauseAst(c).optimize)
  {
    hide BodyAst, ClauseAst, Keyword, LastOptimize;
    AstConcat(name, a + [c], b);
    AstConcat(name, a, [c]);
    OptimizeOfBody(name, a + [c] + b);
    OptimizeOfBody(name, a + [c]);
    OptimizeOfBody(name, [c]);
    OptimizeOfBody(name, b);
    LastOfOne(c);
  }

  // Inputs for which the parser and the documentation differ

  function Region(s: string): DocCmp {
    DocCompare(DocPath("data", "region", []), "==", DocLiteral(Token(String, s)))
  }

  /** A documented policy that is rejected: its require is a disjunction. */
  lemma {:induction false} RejectedDisjunction(name: string)
    ensures var d := DocPolicy(name, [DocRequire(DocOr(DocAnd(Region("sg"), []), [DocAnd(Region("eu"), [])]))]);
            PolicyDoc(d) && PolicyAt(Spelling(d) + [EOF_TOKEN]) == Err
  {
    hide PolicyAt, Spelling;
    var d := DocPolicy(name, [DocRequire(DocOr(DocAnd(Region("sg"), []), [DocAnd(Region("eu"), [])]))]);
    assert !ClauseSupported(d.clauses[0]);
    AcceptedExactly(d);
  }

  /** One that is rejected for the literal in its list. */
  lemma {:induction false} RejectedBracket(name: string)
    ensures var d := DocPolicy(name,
            [DocRequire(DocOr(DocAnd(DocIn(DocPath("data", "region", []), Token(String, "]"), []), []), []))]);
            PolicyDoc(d) && PolicyAt(Spelling(d) + [EOF_TOKEN]) == Err
  {
    hide PolicyAt, Spelling;
    var d := DocPolicy(name, [DocRequire(DocOr(DocAnd(DocIn(DocPath("data", "region", []), Token(String, "]"), []),
        []), []))]);
    assert !ClauseSupported(d.clauses[0]);
    AcceptedExactly(d);
  }

  /** One that is accepted and misread: the second optimize clause is swallowed. */
  lemma {:induction false} MisreadOptimize(name: string)
    ensures var d := DocPolicy(name, [DocLexicographic(["quality"]), DocWeighted(DocPair("latency", "1"), [])]);
            && PolicyDoc(d) && PolicyAt(Spelling(d) + [EOF_TOKEN]).Ok?
            && PolicyAt(Spelling(d) + [EOF_TOKEN]).value.0 != Meaning(d)
  {
    hide PolicyAt, Spelling, Meaning, LastLexWeighted;
    var d := DocPolicy(name, [DocLexicographic(["quality"]), DocWeighted(DocPair("latency", "1"), [])]);
    var trees := ClauseTreesOf(d.clauses);
    OneIsNumeral();
    assert d.clauses[0].DocLexicographic? && d.clauses[1].DocWeighted?;
    assert trees == [ClauseTreeOf(d.clauses[0]), ClauseTreeOf(d.clauses[1])];
    assert OptimizeRun(trees[1..]) == 1;
    assert trees[2..] == [];
    assert !OptimizeKept(trees);
    AcceptedExactly(d);
    CoverageExactly(d);
    SupportedIsAccepted(d);
  }

  lemma {:induction false} OneIsNumeral()
    ensures IsNumeral("1")
  {
  }
}

/** Clause bodies compose: one body written after another gives the merge of their policies,
    except where a lexicographic clause swallows the optimize clause behind it. */
module Bodies {
  import opened Outcomes
  import opened PolicyAst
  import opened Chars
  import opened Tokens
  import opened Parsing
  import opened Grammar
  import opened Spans
  import opened Soundness
  import opened Completeness

  /** `ts` is read as a complete body and gives policy `p`. */
  predicate IsBody(ts: seq<Token>, p: Policy) {
    Body(ts + [CLOSE], 0, EmptyPolicy(p.name)) == Ok((p, |ts|))
  }

  /** A tree of the body `ts`. */
  ghost predicate BodyTree(cs: seq<ClauseTree>, ts: seq<Token>) {
    BodyOk(cs) && BodyTokens(cs) == ts
  }

  /** Complete bodies are exactly the spellings of legal clause lists. */
  lemma {:induction false} BodyExact(ts: seq<Token>, p: Policy)
    ensures IsBody(ts, p) <==> exists cs :: BodyTree(cs, ts) && BodyAst(p.name, cs) == p
  {
    hide Body, BodyOk, BodyTokens, Merge, BodyAst;
    var toks := ts + [CLOSE];
    if IsBody(ts, p) {
      EmptyBodyOk();
      var cs := SoundBody(toks, 0, EmptyPolicy(p.name), []);
      assert [] + cs == cs;
      assert toks[0..|ts|] == ts;
      NamedBody(p.name, cs);
      MergeEmpty(p.name, BodyAst(p.name, cs));
      assert BodyTree(cs, ts);
    }
    if cs :| BodyTree(cs, ts) && BodyAst(p.name, cs) == p {
      assert toks[0..|ts|] == ts;
      CompleteBody(toks, 0, EmptyPolicy(p.name), cs);
      NamedBody(p.name, cs);
      MergeEmpty(p.name, BodyAst(p.name, cs));
    }
  }

  lemma {:induction false} NamedBody(name: string, cs: seq<ClauseTree>)
    ensures BodyAst(name, cs).name == name
  {
  }

  lemma {:induction false} TokensCons(c: ClauseTree, cs: seq<ClauseTree>)
    ensures BodyTokens([c] + cs) == ClauseTokens(c) + BodyTokens(cs)
  {
    hide ClauseTokens;
    assert ([c] + cs)[1..] == cs;
  }

  lemma {:induction false} BodyTokensConcat(a: seq<ClauseTree>, b: seq<ClauseTree>)
    ensures BodyTokens(a + b) == BodyTokens(a) + BodyTokens(b)
  {
    hide BodyTokens, ClauseTokens;
    if a == [] {
      assert a + b == b;
      NoTokens();
    } else {
      BodyTokensConcat(a[1..], b);
      assert a == [a[0]] + a[1..] && a + b == [a[0]] + (a[1..] + b);
      TokensCons(a[0], a[1..]);
      TokensCons(a[0], a[1..] + b);
    }
  }

  lemma {:induction false} NoTokens()
    ensures BodyTokens([]) == []
  {
  }

  lemma {:induction false} MergeConcat(p: Policy, a: seq<ClauseTree>, b: seq<ClauseTree>)
    ensures Merge(p, BodyAst(p.name, a + b)) == Merge(Merge(p, BodyAst(p.name, a)), BodyAst(p.name, b))
    decreases |a|
  {
    hide Merge, BodyAst, Apply, ClauseAst;
    if a == [] {
      assert a + b == b;
      MergeNothing(p);
    } else {
      assert a == [a[0]] + a[1..] && a + b == [a[0]] + (a[1..] + b);
      ApplyThenBody(p.name, a[0], a[1..], p);
      ApplyThenBody(p.name, a[0], a[1..] + b, p);
      MergeConcat(Apply(p, ClauseAst(a[0])), a[1..], b);
    }
  }

  lemma {:induction false} AstConcat(name: string, a: seq<ClauseTree>, b: seq<ClauseTree>)
    ensures BodyAst(name, a + b) == Merge(BodyAst(name, a), BodyAst(name, b))
  {
    hide BodyAst, Merge;
    NamedBody(name, a);
    NamedBody(name, a + b);
    MergeConcat(EmptyPolicy(name), a, b);
    MergeEmpty(name, BodyAst(name, a));
    MergeEmpty(name, BodyAst(name, a + b));
  }

  // The exception

  ghost predicate EndsLexicographic(ts: seq<Token>) {
    exists cs: seq<ClauseTree> :: BodyTree(cs, ts) && cs != [] && cs[|cs| - 1].LexTree?
  }

  predicate StartsOptimize(ts: seq<Token>) {
    ts != [] && ts[0].text == "optimize"
  }

  lemma {:induction false} BodyStart(cs: seq<ClauseTree>, ts: seq<Token>)
    requires BodyTree(cs, ts) && cs != []
    ensures ts != [] && ts[0] == Token(Ident, Keyword(cs[0]))
  {
  }

  /** Outside the exception two bodies compose. */
  lemma {:induction false} BodiesCompose(a: seq<Token>, b: seq<Token>, pa: Policy, pb: Policy)
    requires IsBody(a, pa) && IsBody(b, pb) && pa.name == pb.name
    requires !(EndsLexicographic(a) && StartsOptimize(b))
    ensures IsBody(a + b, Merge(pa, pb))
  {
    hide IsBody, BodyOk, BodyTokens, BodyAst, ClauseOk;
    BodyExact(a, pa);
    BodyExact(b, pb);
    var ca: seq<ClauseTree> :| BodyTree(ca, a) && BodyAst(pa.name, ca) == pa;
    var cb: seq<ClauseTree> :| BodyTree(cb, b) && BodyAst(pb.name, cb) == pb;
    if ca != [] && ca[|ca| - 1].LexTree? && cb != [] {
      BodyStart(cb, b);
    }
    JoinBodies(ca, cb);
    BodyTokensConcat(ca, cb);
    AstConcat(pa.name, ca, cb);
    assert BodyTree(ca + cb, a + b);
    BodyExact(a + b, Merge(pa, pb));
  }

  // Inside the exception the run of optimize clauses is swallowed as more dimensions, or the list
  // stops inside it and the body is not read at all.

  lemma {:induction false} WeightNotStop(text: string)
    requires IsWeight(text)
    ensures !IsLexStop(Token(Number, text))
  {
    assert text[0] == '.' || IsDigit(text[0]);
  }

  lemma {:induction false} DimNotStop(t: Token)
    requires IsDim(t.text) && t.kind != EOF
    ensures !IsLexStop(t)
  {
  }

  /** No end marker among the tokens. */
  predicate NoEof(ts: seq<Token>) {
    forall k | 0 <= k < |ts| :: ts[k].kind != EOF
  }

  lemma {:induction false} PairsNotStops(ps: seq<Pair>)
    requires PairsOk(ps) && NoEof(PairsTokens(ps))
    ensures forall k | 0 <= k < |PairsTokens(ps)| :: !IsLexStop(PairsTokens(ps)[k])
  {
    hide IsLexStop, IsDim, IsWeight;
    if ps != [] {
      var ts := PairsTokens(ps);
      assert ts[2..] == PairsTokens(ps[1..]);
      assert forall k | 0 <= k < |ts[2..]| :: ts[2..][k] == ts[k + 2];
      PairsNotStops(ps[1..]);
      DimNotStop(ts[0]);
      WeightNotStop(ps[0].weight);
    }
  }

  /** No token of the clause behind its keyword stops a lexicographic list, unless it is the
      first name of a weighted clause. */
  predicate Swallowed(c: ClauseTree) {
    c.LexTree? || (c.WeightedTree? && !IsLexStop(c.first.dim))
  }

  lemma {:induction false} PairsCons(first: Pair, more: seq<Pair>)
    ensures PairsTokens([first] + more) == [first.dim, Token(Number, first.weight)] + PairsTokens(more)
  {
    assert ([first] + more)[1..] == more;
  }

  lemma {:induction false} TailNotStops(c: ClauseTree)
    requires Swallowed(c) && ClauseOk(c) && NoEof(ClauseTail(c))
    ensures forall k | 0 <= k < |ClauseTail(c)| :: !IsLexStop(ClauseTail(c)[k])
  {
    hide IsLexStop, PairsTokens, IsWeight, IsDim;
    match c
    case LexTree(dims) => KeywordNotStop();
    case WeightedTree(first, more) =>
      PairsCons(first, more);
      assert forall k | 0 <= k < |PairsTokens(more)| :: PairsTokens(more)[k] == ClauseTail(c)[k + 2];
      PairsNotStops(more);
      WeightNotStop(first.weight);
  }

  /** The first body up to its last clause, which is lexicographic, then the second body: what
      the clause loop sees when it gets to that clause. */
  lemma {:induction false} AtLexicographic(toks: seq<Token>, p: Policy, ca: seq<ClauseTree>)
    requires BodyOk(ca) && ca != [] && ca[|ca| - 1].LexTree? && At(toks, 0, BodyTokens(ca))
    ensures var init, dims := ca[..|ca| - 1], ca[|ca| - 1].dims;
            var j := |BodyTokens(init)|;
            && Body(toks, 0, p) == Body(toks, j, Merge(p, BodyAst(p.name, init)))
            && j + 2 + |dims| == |BodyTokens(ca)| && At(toks, j + 2, dims)
            && toks[j] == Token(Ident, "optimize") && toks[j + 1] == Token(Ident, "lexicographic")
  {
    hide Body, Merge, BodyAst, BodyTokens, At, ClauseOk, ClauseTokens, Keyword;
    var n := |ca| - 1;
    var init, c := ca[..n], ca[n];
    assert ca == init + [c];
    BodyTokensSnoc(init, c);
    AtConcat(toks, 0, BodyTokens(init), ClauseTokens(c));
    var j := |BodyTokens(init)|;
    LexTokens(c.dims);
    TwoThen(toks, j, Token(Ident, "optimize"), Token(Ident, "lexicographic"), c.dims);
    BeforeOptimize(ca);
    BodyPrefix(toks, 0, p, init);
  }

  /** Before a lexicographic clause stands no other. */
  lemma {:induction false} BeforeOptimize(ca: seq<ClauseTree>)
    requires BodyOk(ca) && ca != [] && ca[|ca| - 1].LexTree?
    ensures var init := ca[..|ca| - 1]; BodyOk(init) && BodyEnds(init, Token(Ident, "optimize"))
  {
    hide ClauseOk;
    var n := |ca| - 1;
    assert n > 0 ==> ca[n - 1].LexTree? ==> Keyword(ca[n - 1 + 1]) != "optimize";
  }

  /** The clause loop at a lexicographic clause whose list has been read. */
  lemma {:induction false} LexicographicTurn(toks: seq<Token>, j: nat, p: Policy)
    requires j + 1 < |toks| && toks[j] == Token(Ident, "optimize") && toks[j + 1] == Token(Ident, "lexicographic")
    ensures match Order(toks, j + 2)
            case Ok((names, k)) => Body(toks, j, p) == Body(toks, k, p.(optimize := Some(Optimize(true, map[], names))))
            case Err => Body(toks, j, p) == Err
            case Crash => Body(toks, j, p) == Crash
  {
    hide Order;
    var r := ClauseAt(toks, j);
    assert r == match OptimizeAt(toks, j + 1) case Ok((o, k)) => Ok((OptimizeClause(o), k)) case Err => Err
           case Crash => Crash;
  }

  lemma {:induction false} KeywordNotStop()
    ensures !IsLexStop(Token(Ident, "optimize")) && !IsLexStop(Token(Ident, "lexicographic"))
  {
  }

  /** A clause keyword or the closing brace. */
  predicate IsNextClause(t: Token) {
    IsBoundary(t) && t.kind != EOF
  }

  /** When the first name of a clause stops the list, what is left of the clause is no body. */
  lemma {:induction false} StoppedInside(toks: seq<Token>, k: nat, q: Policy, c: ClauseTree, next: Token)
    requires c.WeightedTree? && ClauseOk(c) && IsLexStop(c.first.dim) && c.first.dim.kind != EOF
    requires At(toks, k, ClauseTail(c)) && k + |ClauseTail(c)| < |toks| && toks[k + |ClauseTail(c)|] == next
             && IsNextClause(next)
    ensures Body(toks, k, q).Err? || Body(toks, k, q) == Ok((q, k))
  {
    hide PairsTokens, Cmp, PairsOk, At;
    assert ([c.first] + c.more)[1..] == c.more;
    PairAt(toks, k, [c.first] + c.more);
    if toks[k].text != "}" {
      if toks[k] == Token(Ident, "require") {
        AfterWeight(toks, k + 2, c.more, next);
        NumberIsNoGate(toks, k + 1);
      }
      StopClause(toks, k);
    }
  }

  lemma {:induction false} AfterWeight(toks: seq<Token>, i: nat, ps: seq<Pair>, next: Token)
    requires At(toks, i, PairsTokens(ps)) && i + |PairsTokens(ps)| < |toks| && toks[i + |PairsTokens(ps)|] == next
    requires PairsOk(ps) && IsNextClause(next)
    ensures IsDim(toks[i].text) || IsNextClause(toks[i])
  {
    if ps != [] {
      PairAt(toks, i, ps);
    }
  }

  lemma {:induction false} NumberIsNoGate(toks: seq<Token>, i: nat)
    requires i + 1 < |toks| && toks[i].kind == Number && (IsDim(toks[i + 1].text) || IsNextClause(toks[i + 1]))
    ensures OrChain(toks, i) == Ok((Literal(NumberLiteral, toks[i].text), i + 1))
  {
    assert Operand(toks, i) == Ok((Literal(NumberLiteral, toks[i].text), i + 1));
    hide Operand;
    assert Cmp(toks, i) == Ok((Literal(NumberLiteral, toks[i].text), i + 1));
  }

  lemma {:induction false} StopClause(toks: seq<Token>, k: nat)
    requires k + 1 < |toks| && IsLexStop(toks[k]) && toks[k].kind != EOF && toks[k].text != "}"
    requires toks[k + 1].kind == Number
    requires toks[k] == Token(Ident, "require") ==> OrChain(toks, k + 1).Ok? && OrChain(toks, k + 1).value.0.Literal?
    ensures ClauseAt(toks, k) == Err
  {
    hide OrChain;
  }

  /** The keyword behind the dimensions reads as one more of them, and the rest of its clause
      follows. */
  lemma {:induction false} KeywordSwallowed(toks: seq<Token>, i: nat, dims: seq<Token>, c: ClauseTree)
    requires At(toks, i, dims) && At(toks, i + |dims|, ClauseTokens(c)) && Keyword(c) == "optimize"
    requires forall k | 0 <= k < |dims| :: !IsLexStop(dims[k])
    ensures var all := dims + [Token(Ident, "optimize")];
            && At(toks, i, all) && (forall k | 0 <= k < |all| :: !IsLexStop(all[k]))
            && At(toks, i + |all|, ClauseTail(c)) && |ClauseTokens(c)| == 1 + |ClauseTail(c)|
  {
    hide At, IsLexStop, ClauseTail, Keyword;
    AtConcat(toks, i + |dims|, [Token(Ident, "optimize")], ClauseTail(c));
    AtConcat(toks, i, dims, [Token(Ident, "optimize")]);
    KeywordNotStop();
  }

  /** What the keyword of clause `cb[0]` and everything behind it come to when the first name of
      the clause stops the list. */
  lemma {:induction false} StoppedBody(toks: seq<Token>, j: nat, p: Policy, dims: seq<Token>, cb: seq<ClauseTree>)
    requires j + 1 < |toks| && toks[j] == Token(Ident, "optimize") && toks[j + 1] == Token(Ident, "lexicographic")
    requires At(toks, j + 2, dims) && forall k | 0 <= k < |dims| :: !IsLexStop(dims[k])
    requires cb != [] && ClauseOk(cb[0]) && At(toks, j + 2 + |dims|, BodyTokens(cb))
    requires j + 2 + |dims| + |BodyTokens(cb)| < |toks| && toks[j + 2 + |dims| + |BodyTokens(cb)|] == CLOSE
    requires Keyword(cb[0]) == "optimize" && !Swallowed(cb[0]) && NoEof(ClauseTail(cb[0]))
    ensures Body(toks, j, p).Ok? ==> Body(toks, j, p).value.1 < j + 2 + |dims| + |BodyTokens(cb)|
  {
    hide Order, Body, At, IsLexStop, ClauseTokens, ClauseTail, PairsTokens, ClauseOk, NoEof, IsNextClause;
    var c, rest := cb[0], cb[1..];
    var n := j + 2 + |dims|;
    AtConcat(toks, n, ClauseTokens(c), BodyTokens(rest));
    NextIsClause(toks, n + |ClauseTokens(c)|, rest);
    KeywordSwallowed(toks, j + 2, dims, c);
    FirstDim(toks, n + 1, c);
    var all := dims + [Token(Ident, "optimize")];
    CompleteOrder(toks, j + 2, all);
    LexicographicTurn(toks, j, p);
    var q := p.(optimize := Some(Optimize(true, map[], DimNames(all))));
    StoppedInside(toks, n + 1, q, c, toks[n + |ClauseTokens(c)|]);
  }

  /** Behind a clause stands another clause or the closing brace. */
  lemma {:induction false} NextIsClause(toks: seq<Token>, k: nat, rest: seq<ClauseTree>)
    requires At(toks, k, BodyTokens(rest)) && k + |BodyTokens(rest)| < |toks| && toks[k + |BodyTokens(rest)|] == CLOSE
    ensures IsNextClause(toks[k])
  {
    hide At;
    if rest != [] {
      AtConcat(toks, k, ClauseTokens(rest[0]), BodyTokens(rest[1..]));
      ClauseStart(toks, k, rest[0]);
    }
  }

  lemma {:induction false} FirstDim(toks: seq<Token>, i: nat, c: ClauseTree)
    requires c.WeightedTree? && At(toks, i, ClauseTail(c)) && NoEof(ClauseTail(c))
    ensures i < |toks| && toks[i] == c.first.dim && c.first.dim.kind != EOF
    ensures |ClauseTail(c)| > 0
  {
    AtHead(toks, i, ClauseTail(c));
    assert ClauseTail(c)[0] == c.first.dim;
  }

  // Runs of optimize clauses

  /** The number of optimize clauses at the start. */
  function OptimizeRun(cs: seq<ClauseTree>): (n: nat)
    ensures n <= |cs| && (forall k | 0 <= k < n :: Keyword(cs[k]) == "optimize")
    ensures n < |cs| ==> Keyword(cs[n]) != "optimize"
  {
    if cs == [] || Keyword(cs[0]) != "optimize" then 0 else 1 + OptimizeRun(cs[1..])
  }

  predicate AllOptimize(cs: seq<ClauseTree>) {
    forall k | 0 <= k < |cs| :: Keyword(cs[k]) == "optimize"
  }

  predicate AllSwallowed(cs: seq<ClauseTree>) {
    forall k | 0 <= k < |cs| :: Swallowed(cs[k]) && ClauseOk(cs[k])
  }

  lemma {:induction false} NoEofConcat(a: seq<Token>, b: seq<Token>)
    ensures NoEof(a + b) <==> NoEof(a) && NoEof(b)
  {
    if NoEof(a + b) {
      assert forall k | 0 <= k < |a| :: a[k] == (a + b)[k];
      assert forall k | 0 <= k < |b| :: b[k] == (a + b)[|a| + k];
    }
  }

  predicate NoStops(ts: seq<Token>) {
    forall k | 0 <= k < |ts| :: !IsLexStop(ts[k])
  }

  /** A run whose clauses are swallowed stops no list. */
  lemma {:induction false} RunNotStops(run: seq<ClauseTree>)
    requires AllSwallowed(run) && AllOptimize(run) && NoEof(BodyTokens(run))
    ensures NoStops(BodyTokens(run))
  {
    hide Swallowed, ClauseOk, IsLexStop, NoEof, ClauseTail, Keyword;
    if run != [] {
      NoEofConcat(ClauseTokens(run[0]), BodyTokens(run[1..]));
      NoEofConcat([Token(Ident, "optimize")], ClauseTail(run[0]));
      RunNotStops(run[1..]);
      TailNotStops(run[0]);
      KeywordNotStop();
    }
  }

  /** A run says nothing but its last optimize clause. */
  lemma {:induction false} RunMeans(name: string, run: seq<ClauseTree>)
    requires AllOptimize(run)
    ensures BodyAst(name, run) == Policy(name, [], [], LastOptimize(run), None, None)
    ensures LastOptimize(run) == if run == [] then None else Some(ClauseAst(run[|run| - 1]).optimize)
  {
    hide ClauseAst;
    if run != [] {
      RunMeans(name, run[1..]);
    }
  }

  /** Lists of dimensions in which a run has been swallowed are longer than any the run writes. */
  lemma {:induction false} RunIsLost(dims: seq<Token>, run: seq<ClauseTree>)
    requires AllOptimize(run) && run != []
    ensures LastOptimize(run).Some?
            && LastOptimize(run) != Some(Optimize(true, map[], DimNames(dims + BodyTokens(run))))
  {
    hide BodyTokens, BodyAst, LastOptimize, ClauseTokens;
    RunMeans("", run);
    var c := run[|run| - 1];
    assert run == run[..|run| - 1] + [c];
    BodyTokensSnoc(run[..|run| - 1], c);
    LastLonger(c);
  }

  lemma {:induction false} LastLonger(c: ClauseTree)
    requires Keyword(c) == "optimize"
    ensures var o := ClauseAst(c).optimize; o.lexicographic ==> |o.order| < |ClauseTokens(c)|
  {
  }

  /** The lexicographic clause that a list of dimensions and a swallowed run amount to. */
  function Swallow(dims: seq<Token>, run: seq<ClauseTree>): ClauseTree {
    LexTree(dims + BodyTokens(run))
  }

  lemma {:induction false} SwallowTokens(dims: seq<Token>, run: seq<ClauseTree>)
    ensures ClauseTokens(Swallow(dims, run)) == ClauseTokens(LexTree(dims)) + BodyTokens(run)
    ensures BodyTokens([Swallow(dims, run)]) == BodyTokens([LexTree(dims)]) + BodyTokens(run)
  {
    hide BodyTokens, ClauseTokens;
    LexTokens(dims);
    LexTokens(dims + BodyTokens(run));
    OneToken(Swallow(dims, run));
    OneToken(LexTree(dims));
  }

  lemma {:induction false} LexTokens(dims: seq<Token>)
    ensures ClauseTokens(LexTree(dims)) == [Token(Ident, "optimize"), Token(Ident, "lexicographic")] + dims
  {
  }

  lemma {:induction false} OneToken(c: ClauseTree)
    ensures BodyTokens([c]) == ClauseTokens(c)
  {
    hide BodyTokens, ClauseTokens;
    TokensCons(c, []);
    NoTokens();
    assert [c] + [] == [c];
  }

  /** Swallowing a run changes what the body means, unless a later optimize clause overwrites it. */
  lemma {:induction false} SwallowMeans(name: string, dims: seq<Token>, run: seq<ClauseTree>, rest: seq<ClauseTree>)
    requires AllOptimize(run) && run != []
    ensures var read := BodyAst(name, [Swallow(dims, run)] + rest);
            var written := BodyAst(name, [LexTree(dims)] + run + rest);
            && read == written.(optimize := read.optimize) && written == read.(optimize := written.optimize)
            && (read.optimize == written.optimize <==> LastOptimize(rest).Some?)
  {
    hide BodyTokens, LastOptimize, Swallow, Gates, Prefers, LastFallback, LastSwitch;
    RunMeans(name, run);
    RunIsLost(dims, run);
    AstConcat(name, [Swallow(dims, run)], rest);
    AstConcat(name, [LexTree(dims)], run);
    AstConcat(name, [LexTree(dims)] + run, rest);
    OneLex(name, dims);
    OneLex(name, dims + BodyTokens(run));
    SwallowIsLex(dims, run);
  }

  lemma {:induction false} SwallowIsLex(dims: seq<Token>, run: seq<ClauseTree>)
    ensures Swallow(dims, run) == LexTree(dims + BodyTokens(run))
  {
  }

  lemma {:induction false} OneLex(name: string, dims: seq<Token>)
    ensures BodyAst(name, [LexTree(dims)])
            == Policy(name, [], [], Some(Optimize(true, map[], DimNames(dims))), None, None)
  {
    hide BodyAst, LastOptimize;
    RunMeans(name, [LexTree(dims)]);
  }

  // Composition in general

  /** The second body starts with optimize clauses behind a lexicographic clause. */
  predicate Clash(ca: seq<ClauseTree>, cb: seq<ClauseTree>) {
    ca != [] && ca[|ca| - 1].LexTree? && cb != [] && Keyword(cb[0]) == "optimize"
  }

  /** When clauses clash, the whole run has to be swallowed, and an optimize clause has to follow
      behind some other clause to overwrite what came of it. */
  predicate Composable(ca: seq<ClauseTree>, cb: seq<ClauseTree>) {
    Clash(ca, cb) ==>
      var n := OptimizeRun(cb);
      AllSwallowed(cb[..n]) && LastOptimize(cb[n..]).Some?
  }

  /** What the clauses of both bodies are read as when the run is swallowed. */
  function Joined(ca: seq<ClauseTree>, cb: seq<ClauseTree>): seq<ClauseTree>
    requires Clash(ca, cb)
  {
    var n := OptimizeRun(cb);
    ca[..|ca| - 1] + ([Swallow(ca[|ca| - 1].dims, cb[..n])] + cb[n..])
  }

  lemma {:induction false} LastDims(ca: seq<ClauseTree>, dims: seq<Token>)
    requires BodyOk(ca) && ca != [] && ca[|ca| - 1] == LexTree(dims)
    ensures NoStops(dims)
  {
    hide IsLexStop;
    assert ClauseOk(ca[|ca| - 1]);
  }

  lemma {:induction false} JoinedTokens(ca: seq<ClauseTree>, cb: seq<ClauseTree>)
    requires Clash(ca, cb)
    ensures BodyTokens(Joined(ca, cb)) == BodyTokens(ca) + BodyTokens(cb)
  {
    hide BodyTokens, Swallow, ClauseTokens, Keyword, OptimizeRun;
    var n, m := OptimizeRun(cb), |ca| - 1;
    var init, dims, run, rest := ca[..m], ca[m].dims, cb[..n], cb[n..];
    var c := Swallow(dims, run);
    assert ca == init + [LexTree(dims)] && cb == run + rest;
    BodyTokensConcat(init, [LexTree(dims)]);
    BodyTokensConcat(run, rest);
    BodyTokensConcat(init, [c] + rest);
    BodyTokensConcat([c], rest);
    SwallowTokens(dims, run);
  }

  lemma {:induction false} JoinedReads(ca: seq<ClauseTree>, cb: seq<ClauseTree>)
    requires BodyOk(ca) && BodyOk(cb) && Clash(ca, cb) && NoEof(BodyTokens(cb))
    requires AllSwallowed(cb[..OptimizeRun(cb)])
    ensures BodyOk(Joined(ca, cb)) && BodyTokens(Joined(ca, cb)) == BodyTokens(ca) + BodyTokens(cb)
  {
    hide BodyTokens, Swallow, ClauseOk, IsLexStop, NoEof, AllSwallowed, ClauseTokens;
    var n, m := OptimizeRun(cb), |ca| - 1;
    var run, dims := cb[..n], ca[m].dims;
    assert cb == run + cb[n..];
    JoinedTokens(ca, cb);
    BodyTokensConcat(run, cb[n..]);
    NoEofConcat(BodyTokens(run), BodyTokens(cb[n..]));
    RunNotStops(run);
    LastDims(ca, dims);
    SwallowOk(dims, run);
    JoinedOk(ca[..m], Swallow(dims, run), cb[n..]);
  }

  lemma {:induction false} JoinedOk(init: seq<ClauseTree>, c: ClauseTree, rest: seq<ClauseTree>)
    requires BodyOk(init) && ClauseOk(c) && BodyOk(rest) && c.LexTree?
    requires init != [] ==> !init[|init| - 1].LexTree?
    requires rest != [] ==> Keyword(rest[0]) != "optimize"
    ensures BodyOk(init + ([c] + rest))
  {
    hide ClauseOk, Keyword;
  }

  lemma {:induction false} SwallowOk(dims: seq<Token>, run: seq<ClauseTree>)
    requires NoStops(dims) && NoStops(BodyTokens(run))
    ensures Swallow(dims, run).LexTree? && ClauseOk(Swallow(dims, run))
  {
    hide IsLexStop, BodyTokens;
  }

  /** A body has one meaning. */
  lemma {:induction false} OneMeaning(ts: seq<Token>, p: Policy, q: Policy)
    requires IsBody(ts, p) && IsBody(ts, q) && p.name == q.name
    ensures p == q
  {
  }

  /** All trees of a body mean the same policy. */
  lemma {:induction false} TreeMeans(ts: seq<Token>, p: Policy, cs: seq<ClauseTree>)
    requires IsBody(ts, p) && BodyTree(cs, ts)
    ensures BodyAst(p.name, cs) == p
  {
    hide BodyAst, Merge, Body, BodyTree;
    NamedBody(p.name, cs);
    BodyExact(ts, BodyAst(p.name, cs));
    OneMeaning(ts, p, BodyAst(p.name, cs));
  }

  /** Case one: the run is swallowed. */
  lemma {:induction false} SwallowedWhole(name: string, ca: seq<ClauseTree>, cb: seq<ClauseTree>)
    requires BodyOk(ca) && BodyOk(cb) && Clash(ca, cb) && AllSwallowed(cb[..OptimizeRun(cb)]) && NoEof(BodyTokens(cb))
    ensures IsBody(BodyTokens(ca) + BodyTokens(cb), BodyAst(name, Joined(ca, cb)))
    ensures BodyAst(name, Joined(ca, cb)) == BodyAst(name, ca + cb) <==> LastOptimize(cb[OptimizeRun(cb)..]).Some?
  {
    hide BodyTokens, BodyAst, Swallow, BodyOk, IsBody, NoEof, AllSwallowed, LastOptimize;
    JoinedReads(ca, cb);
    NamedBody(name, Joined(ca, cb));
    BodyExact(BodyTokens(ca) + BodyTokens(cb), BodyAst(name, Joined(ca, cb)));
    var n, m := OptimizeRun(cb), |ca| - 1;
    var init, dims, run, rest := ca[..m], ca[m].dims, cb[..n], cb[n..];
    SwallowMeans(name, dims, run, rest);
    assert ca + cb == init + ([LexTree(dims)] + run + rest);
    AstConcat(name, init, [LexTree(dims)] + run + rest);
    AstConcat(name, init, [Swallow(dims, run)] + rest);
    RunOverwrites(name, dims, run, rest);
  }

  lemma {:induction false} RunOverwrites(name: string, dims: seq<Token>, run: seq<ClauseTree>, rest: seq<ClauseTree>)
    ensures BodyAst(name, [Swallow(dims, run)] + rest).optimize.Some?
    ensures BodyAst(name, [LexTree(dims)] + run + rest).optimize.Some?
  {
    hide BodyTokens;
    assert ([Swallow(dims, run)] + rest)[0] == Swallow(dims, run);
    assert ([LexTree(dims)] + run + rest)[0] == LexTree(dims);
  }

  /** The first clause of the run that is not swallowed. */
  function FirstStop(cs: seq<ClauseTree>): (m: nat)
    requires !AllSwallowed(cs)
    ensures m < |cs| && AllSwallowed(cs[..m]) && !(Swallowed(cs[m]) && ClauseOk(cs[m]))
  {
    if !(Swallowed(cs[0]) && ClauseOk(cs[0])) then 0
    else
      var m := 1 + FirstStop(cs[1..]);
      assert cs[..m] == [cs[0]] + cs[1..][..m - 1];
      m
  }

  /** Case two: the list stops inside the run, and the two bodies are no body. */
  lemma {:induction false} StoppedRun(ca: seq<ClauseTree>, cb: seq<ClauseTree>, p: Policy)
    requires BodyOk(ca) && BodyOk(cb) && Clash(ca, cb) && !AllSwallowed(cb[..OptimizeRun(cb)]) && NoEof(BodyTokens(cb))
    ensures !IsBody(BodyTokens(ca) + BodyTokens(cb), p)
  {
    hide Body, BodyOk, BodyTokens, BodyAst, At, Order, IsLexStop, ClauseOk, NoEof, Swallowed, ClauseTail;
    var m := FirstStop(cb[..OptimizeRun(cb)]);
    var run, rest := cb[..m], cb[m..];
    assert run == cb[..OptimizeRun(cb)][..m] && cb == run + rest;
    BodyTokensConcat(run, rest);
    NoEofConcat(BodyTokens(run), BodyTokens(rest));
    RunNotStops(run);
    ClauseIn(cb, m);
    NoEofHead(rest);
    StoppedAfter(ca, run, rest, p);
  }

  lemma {:induction false} StoppedAfter(ca: seq<ClauseTree>, run: seq<ClauseTree>, rest: seq<ClauseTree>, p: Policy)
    requires BodyOk(ca) && ca != [] && ca[|ca| - 1].LexTree? && NoStops(BodyTokens(run))
    requires rest != [] && ClauseOk(rest[0]) && Keyword(rest[0]) == "optimize" && !Swallowed(rest[0])
             && NoEof(ClauseTail(rest[0]))
    ensures !IsBody(BodyTokens(ca) + (BodyTokens(run) + BodyTokens(rest)), p)
  {
    hide Body, BodyOk, BodyTokens, BodyAst, Merge, At, Order, IsLexStop, ClauseOk, NoEof, Swallowed, ClauseTail,
      Keyword;
    var toks := BodyTokens(ca) + (BodyTokens(run) + BodyTokens(rest)) + [CLOSE];
    ThreeParts(toks, BodyTokens(ca), BodyTokens(run), BodyTokens(rest));
    var empty := EmptyPolicy(p.name);
    AtLexicographic(toks, empty, ca);
    var init, dims := ca[..|ca| - 1], ca[|ca| - 1].dims;
    var j, q := |BodyTokens(init)|, Merge(empty, BodyAst(p.name, init));
    LastDims(ca, dims);
    AtConcat(toks, j + 2, dims, BodyTokens(run));
    StoppedBody(toks, j, q, dims + BodyTokens(run), rest);
  }

  lemma {:induction false} ThreeParts(toks: seq<Token>, a: seq<Token>, b: seq<Token>, c: seq<Token>)
    requires toks == a + (b + c) + [CLOSE]
    ensures At(toks, 0, a) && At(toks, |a|, b) && At(toks, |a| + |b|, c) && toks[|a| + |b| + |c|] == CLOSE
  {
    hide At;
    assert toks == a + (b + (c + [CLOSE]));
    WholeAt(toks);
    AtConcat(toks, 0, a, b + (c + [CLOSE]));
    AtConcat(toks, |a|, b, c + [CLOSE]);
    AtConcat(toks, |a| + |b|, c, [CLOSE]);
  }

  lemma {:induction false} ClauseIn(cs: seq<ClauseTree>, m: nat)
    requires BodyOk(cs) && m < |cs|
    ensures ClauseOk(cs[m])
  {
    hide ClauseOk;
  }

  lemma {:induction false} NoEofHead(cs: seq<ClauseTree>)
    requires cs != [] && NoEof(BodyTokens(cs))
    ensures NoEof(ClauseTail(cs[0]))
  {
    hide ClauseTail, NoEof;
    NoEofConcat(ClauseTokens(cs[0]), BodyTokens(cs[1..]));
    NoEofConcat([Token(Ident, Keyword(cs[0]))], ClauseTail(cs[0]));
  }

  /** Bodies compose exactly: two complete bodies, one after the other, read as the merge of their
      policies if and only if their clauses do not clash at the seam, or clash without harm. */
  lemma {:induction false} BodiesComposeExactly(a: seq<Token>, b: seq<Token>, pa: Policy, pb: Policy,
                                                ca: seq<ClauseTree>, cb: seq<ClauseTree>)
    requires IsBody(a, pa) && IsBody(b, pb) && pa.name == pb.name && NoEof(b)
    requires BodyTree(ca, a) && BodyTree(cb, b)
    ensures IsBody(a + b, Merge(pa, pb)) <==> Composable(ca, cb)
  {
    hide IsBody, Merge, Keyword, NoEof, BodyAst, BodyOk, BodyTokens, AllSwallowed, LastOptimize, Joined;
    TreeMeans(a, pa, ca);
    TreeMeans(b, pb, cb);
    AstConcat(pa.name, ca, cb);
    if !Clash(ca, cb) {
      JoinSeam(ca, cb);
      BodyTokensConcat(ca, cb);
      assert BodyTree(ca + cb, a + b);
      NamedBody(pa.name, ca + cb);
      BodyExact(a + b, BodyAst(pa.name, ca + cb));
    } else if AllSwallowed(cb[..OptimizeRun(cb)]) {
      SwallowedWhole(pa.name, ca, cb);
      NamedBody(pa.name, Joined(ca, cb));
      NamedBody(pa.name, ca + cb);
      if IsBody(a + b, Merge(pa, pb)) {
        OneMeaning(a + b, BodyAst(pa.name, Joined(ca, cb)), Merge(pa, pb));
      }
    } else {
      StoppedRun(ca, cb, Merge(pa, pb));
    }
  }

  lemma {:induction false} JoinSeam(ca: seq<ClauseTree>, cb: seq<ClauseTree>)
    requires BodyOk(ca) && BodyOk(cb) && !Clash(ca, cb)
    ensures BodyOk(ca + cb)
  {
    hide ClauseOk, Keyword;
    JoinBodies(ca, cb);
  }

  /** Two bodies that do not compose: each optimizes lexicographically. */
  lemma {:induction false} ClashingBodies(name: string)
    ensures var word, first, second := Token(Ident, "optimize"), Token(Ident, "quality"), Token(Ident, "latency");
            var a, b := [word, Token(Ident, "lexicographic"), first], [word, Token(Ident, "lexicographic"), second];
            exists pa, pb :: IsBody(a, pa) && IsBody(b, pb) && pa.name == pb.name && !IsBody(a + b, Merge(pa, pb))
  {
    hide IsBody, BodyAst, Merge, IsLexStop;
    var first, second := Token(Ident, "quality"), Token(Ident, "latency");
    var ca, cb := [LexTree([first])], [LexTree([second])];
    var a, b := [Token(Ident, "optimize"), Token(Ident, "lexicographic"), first],
                [Token(Ident, "optimize"), Token(Ident, "lexicographic"), second];
    NamesNotStops();
    OneToken(ca[0]);
    OneToken(cb[0]);
    LexTokens([first]);
    LexTokens([second]);
    assert BodyTree(ca, a) && BodyTree(cb, b);
    NamedBody(name, ca);
    NamedBody(name, cb);
    var pa, pb := BodyAst(name, ca), BodyAst(name, cb);
    BodyExact(a, pa);
    BodyExact(b, pb);
    assert cb[OptimizeRun(cb)..] == [];
    assert Clash(ca, cb) && !Composable(ca, cb);
    BodiesComposeExactly(a, b, pa, pb, ca, cb);
  }

  lemma {:induction false} NamesNotStops()
    ensures !IsLexStop(Token(Ident, "quality")) && !IsLexStop(Token(Ident, "latency"))
  {
  }
}

/** What holds of every policy the parser accepts, and of every longer input. */
module Accepted {
  import opened Outcomes
  import opened PolicyAst
  import opened Chars
  import opened Tokens
  import opened Lexing
  import opened Parsing
  import opened Grammar
  import opened Soundness
  import opened Completeness

  // Shape of accepted policies

  /** A literal, a path with a segment, a call that does not keep ")" as an argument, or a chain
      of `not` over one of those. */
  predicate FlatOperand(e: Expr) {
    match e
    case Literal(_, _) => true
    case Path(_, segments) => segments != []
    case Call(_, _, args) => ")" !in args
    case Not(inner) => FlatOperand(inner)
    case _ => false
  }

  /** A single comparison or list test over flat operands, no "]" in the list: no and/or anywhere. */
  predicate FlatGate(e: Expr) {
    match e
    case In(o, items) => FlatOperand(o) && "]" !in items
    case Compare(l, op, r) => FlatOperand(l) && IsCompareOp(op) && FlatOperand(r)
    case _ => false
  }

  lemma {:induction false} OperandAstFlat(o: OperandTree)
    requires OperandOk(o)
    ensures FlatOperand(OperandAst(o))
  {
    if o.NotTree? {
      OperandAstFlat(o.inner);
    }
    if o.CallTree? {
      ArgsAstFlat(o.args);
    }
  }

  lemma {:induction false} ArgsAstFlat(a: ArgsTree)
    requires ArgsOk(a)
    ensures ")" !in ArgsAst(a)
  {
    if a.MoreArgs? {
      ArgsAstFlat(a.rest);
    }
  }

  lemma {:induction false} ItemsAstFlat(a: ItemsTree)
    requires ItemsOk(a)
    ensures "]" !in ItemsAst(a)
  {
    if a.MoreItems? {
      ItemsAstFlat(a.rest);
    }
  }

  lemma {:induction false} GatesFlat(cs: seq<ClauseTree>)
    requires forall k | 0 <= k < |cs| :: ClauseOk(cs[k])
    ensures forall k | 0 <= k < |Gates(cs)| :: FlatGate(Gates(cs)[k])
  {
    if cs != [] {
      GatesFlat(cs[1..]);
      if cs[0].RequireTree? {
        match cs[0].cmp
        case InTree(o, items) => OperandAstFlat(o); ItemsAstFlat(items);
        case CompareTree(l, _, r) => OperandAstFlat(l); OperandAstFlat(r);
      }
    }
  }

  /** Accepted policies are flat. */
  lemma {:induction false} AcceptedIsFlat(toks: seq<Token>)
    requires PolicyAt(toks).Ok?
    ensures forall k | 0 <= k < |PolicyAt(toks).value.0.gates| :: FlatGate(PolicyAt(toks).value.0.gates[k])
  {
    hide PolicyAt, PolicyTokens, ClauseOk, FlatGate, Gates;
    var t := SoundPolicy(toks);
    GatesFlat(t.clauses);
  }

  lemma {:induction false} AndRestTop(toks: seq<Token>, i: nat, left: Expr)
    requires AndRest(toks, i, left).Ok? && left.And?
    ensures AndRest(toks, i, left).value.0.And?
    decreases |toks| - i
  {
    hide Cmp;
    if toks[i].text == "and" {
      var (right, k) := Cmp(toks, i + 1).value;
      AndRestTop(toks, k, And(left, right));
    }
  }

  lemma {:induction false} OrRestTop(toks: seq<Token>, i: nat, left: Expr)
    requires OrRest(toks, i, left).Ok? && (left.And? || left.Or?)
    ensures OrRest(toks, i, left).value.0.And? || OrRest(toks, i, left).value.0.Or?
    decreases |toks| - i
  {
    hide AndChain;
    if toks[i].text == "or" {
      var (right, k) := AndChain(toks, i + 1).value;
      OrRestTop(toks, k, Or(left, right));
    }
  }

  /** A connective behind the first atom ends up at the top of the expression. */
  lemma {:induction false} ConnectiveTop(toks: seq<Token>, i: nat)
    requires Cmp(toks, i).Ok? && Cmp(toks, i).value.1 < |toks| && OrChain(toks, i).Ok?
    requires toks[Cmp(toks, i).value.1].text == "and" || toks[Cmp(toks, i).value.1].text == "or"
    ensures OrChain(toks, i).value.0.And? || OrChain(toks, i).value.0.Or?
  {
    hide Cmp;
    var (left, k) := Cmp(toks, i).value;
    if toks[k].text == "and" {
      var (right, m) := Cmp(toks, k + 1).value;
      AndRestTop(toks, m, And(left, right));
      var (all, n) := AndRest(toks, m, And(left, right)).value;
      OrRestTop(toks, n, all);
    } else {
      var (right, m) := AndChain(toks, k + 1).value;
      OrRestTop(toks, m, Or(left, right));
    }
  }

  /** Where a connective follows the first atom of a require, no body is read, whatever comes after. */
  lemma {:induction false} ConnectiveRejected(toks: seq<Token>, i: nat, p: Policy)
    requires i < |toks| && toks[i] == Token(Ident, "require") && Cmp(toks, i + 1).Ok?
    requires var k := Cmp(toks, i + 1).value.1; k < |toks| && (toks[k].text == "and" || toks[k].text == "or")
    ensures !Body(toks, i, p).Ok?
  {
    hide OrChain, Cmp;
    if OrChain(toks, i + 1).Ok? {
      ConnectiveTop(toks, i + 1);
    }
  }

  // Optimize clauses

  /** The names that pairs can write: the six dimensions, the first name, the empty name. */
  predicate KeysOk(keys: set<string>, first: string) {
    forall s | s in keys :: IsDim(s) || s == first || s == ""
  }

  ghost predicate OptimizeOk(o: Optimize) {
    if o.lexicographic then o.weights == map[]
    else o.order == [] && o.weights != map[] && exists first :: KeysOk(o.weights.Keys, first)
  }

  lemma {:induction false} WeightsKeys(ps: seq<Pair>)
    ensures forall s :: s in WeightsOf(ps) <==> exists k | 0 <= k < |ps| :: IdentText(ps[k].dim) == s
  {
    if ps != [] {
      var init := ps[..|ps| - 1];
      WeightsKeys(init);
      forall s ensures s in WeightsOf(ps) <==> exists k | 0 <= k < |ps| :: IdentText(ps[k].dim) == s {
        if s in WeightsOf(init) {
          var k :| 0 <= k < |init| && IdentText(init[k].dim) == s;
          assert ps[k] == init[k];
        }
        if k :| 0 <= k < |ps| && IdentText(ps[k].dim) == s {
          assert k < |init| ==> init[k] == ps[k];
        }
      }
    }
  }

  /** Each key holds the weight its last pair wrote. */
  lemma {:induction false} LastWriteWins(ps: seq<Pair>, k: nat)
    requires k < |ps| && forall j | k < j < |ps| :: IdentText(ps[j].dim) != IdentText(ps[k].dim)
    ensures IdentText(ps[k].dim) in WeightsOf(ps)
    ensures WeightsOf(ps)[IdentText(ps[k].dim)] == Weight(ps[k].weight)
    decreases |ps|
  {
    if k < |ps| - 1 {
      LastWriteWins(ps[..|ps| - 1], k);
    }
  }

  lemma {:induction false} WeightedOptimizeOk(c: ClauseTree)
    requires c.WeightedTree? && ClauseOk(c)
    ensures OptimizeOk(ClauseAst(c).optimize)
  {
    hide WeightsOf, IsDim, IsWeight;
    var ps := [c.first] + c.more;
    WeightsKeys(ps);
    assert ps[0] == c.first;
    var keys := WeightsOf(ps).Keys;
    assert IdentText(c.first.dim) in WeightsOf(ps);
    forall s | s in keys ensures IsDim(s) || s == IdentText(c.first.dim) || s == "" {
      var k :| 0 <= k < |ps| && IdentText(ps[k].dim) == s;
      if k > 0 {
        assert ps[k] == c.more[k - 1];
      }
    }
    assert KeysOk(keys, IdentText(c.first.dim));
  }

  lemma {:induction false} LastOptimizeOk(cs: seq<ClauseTree>)
    requires forall k | 0 <= k < |cs| :: ClauseOk(cs[k])
    ensures LastOptimize(cs).Some? ==> OptimizeOk(LastOptimize(cs).value)
  {
    hide ClauseOk, OptimizeOk, WeightsOf;
    if cs != [] {
      LastOptimizeOk(cs[1..]);
      if cs[0].WeightedTree? {
        WeightedOptimizeOk(cs[0]);
      }
      if cs[0].LexTree? {
        LexOptimizeOk(cs[0]);
      }
    }
  }

  lemma {:induction false} LexOptimizeOk(c: ClauseTree)
    requires c.LexTree?
    ensures OptimizeOk(ClauseAst(c).optimize)
  {
  }

  /** In an accepted policy a lexicographic optimize has no weights; a weighted one has no order,
      some weights, and keys among the six dimensions, one more name and the empty name. */
  lemma {:induction false} AcceptedOptimize(toks: seq<Token>)
    requires PolicyAt(toks).Ok?
    ensures var o := PolicyAt(toks).value.0.optimize; o.Some? ==> OptimizeOk(o.value)
  {
    hide PolicyAt, PolicyTokens, ClauseOk, OptimizeOk, LastOptimize;
    var t := SoundPolicy(toks);
    LastOptimizeOk(t.clauses);
  }

  // Longer inputs

  /** A successful parse depends on the tokens it consumed and on nothing behind them. */
  lemma {:induction false} PrefixDeterminism(toks: seq<Token>, other: seq<Token>)
    requires PolicyAt(toks).Ok?
    requires PolicyAt(toks).value.1 <= |other| && other[..PolicyAt(toks).value.1] == toks[..PolicyAt(toks).value.1]
    ensures PolicyAt(other) == PolicyAt(toks)
  {
    hide PolicyAt, Derives;
    var (p, k) := PolicyAt(toks).value;
    PolicyExact(toks, p, k);
    PolicyExact(other, p, k);
  }

  lemma {:induction false} TriviaExtends(src: string, more: string, i: nat, j: nat)
    requires i <= j < |src| && Trivia(src, i, j)
    ensures Trivia(src + more, i, j)
    decreases j - i
  {
    var all := src + more;
    if i < j {
      if IsSpace(src[i]) && Trivia(src, i + 1, j) {
        TriviaExtends(src, more, i + 1, j);
      } else {
        var e :| i < e <= j && CommentSpan(src, i, e) && Trivia(src, e, j);
        TriviaExtends(src, more, e, j);
        assert all[i..e] == src[i..e];
        assert CommentSpan(all, i, e);
      }
    }
  }

  /** A token that ends before its source does, or is a closing brace, cannot grow. */
  lemma {:induction false} SpanExtends(src: string, more: string, p: nat, q: nat, t: Token)
    requires p < q <= |src| && TokenSpan(src, p, q, t) && (q < |src| || t == CLOSE)
    ensures TokenSpan(src + more, p, q, t)
  {
    var all := src + more;
    assert all[p..q] == src[p..q];
    if t.kind == String {
      assert all[p + 1..q - 1] == src[p + 1..q - 1];
    }
    if t.kind == Punct && q < |all| {
      assert q < |src| ==> all[p..p + 2] == src[p..p + 2];
      assert t == CLOSE ==> src[p] == '}' && all[p..p + 2][0] == '}';
    }
  }

  /** Whatever is written behind a source, its tokens up to any closing brace stay. */
  lemma {:induction false} LexExtends(src: string, more: string, i: nat, n: nat)
    requires i <= |src| && LexFrom(src, i).Ok? && LexFrom(src + more, i).Ok?
    requires n + 1 < |LexFrom(src, i).value| && LexFrom(src, i).value[n].token == CLOSE
    ensures var ls, all := LexFrom(src, i).value, LexFrom(src + more, i).value;
            n < |all| && all[..n + 1] == ls[..n + 1]
    decreases n
  {
    hide LexFrom, Scan, SkipTrivia, NextToken, TokenSpan, Trivia, Tokenizes;
    var ls := LexFrom(src, i).value;
    var l := ls[0];
    var q := FirstSpan(src, i);
    if n > 0 {
      var _ := LexTail(src, q);
    }
    TriviaExtends(src, more, i, l.pos);
    SpanExtends(src, more, l.pos, q, l.token);
    NextTokenAt(src + more, i, l.pos, l.token);
    LexStep(src + more, i, l, q);
    if n > 0 {
      LexExtends(src, more, q, n - 1);
      var all, tail := LexFrom(src + more, i).value, LexFrom(src + more, q).value;
      assert all[..n + 1] == [l] + tail[..n] && ls[..n + 1] == [l] + ls[1..][..n];
    }
  }

  lemma {:induction false} LexStep(src: string, i: nat, l: Located, q: nat)
    requires i < q <= |src| && NextToken(src, i) == Ok((l, q)) && l.token.kind != EOF && LexFrom(src, i).Ok?
    ensures LexFrom(src, q).Ok? && LexFrom(src, i).value == [l] + LexFrom(src, q).value
  {
    hide NextToken;
  }

  /** The first token of a lexed source, as the declarative side describes it. */
  lemma {:induction false} FirstSpan(src: string, i: nat) returns (q: nat)
    requires i <= |src| && LexFrom(src, i).Ok? && |LexFrom(src, i).value| > 1
    ensures var l := LexFrom(src, i).value[0];
            && i <= l.pos < q == l.pos + Width(l.token) <= |src| && l.token.kind != EOF
            && Trivia(src, i, l.pos) && TokenSpan(src, l.pos, q, l.token)
    ensures LexFrom(src, q) == Ok(LexFrom(src, i).value[1..])
  {
    hide TokenSpan, Trivia, LexFrom;
    LexSound(src, i);
    q := LexTail(src, i);
    SpanKind(src, LexFrom(src, i).value[0].pos, q, LexFrom(src, i).value[0].token);
  }

  lemma {:induction false} SpanKind(src: string, p: nat, q: nat, t: Token)
    requires p < q <= |src| && TokenSpan(src, p, q, t)
    ensures t.kind != EOF
  {
  }

  /** What is written behind an accepted source changes nothing, as long as it lexes; if it does
      not, that is the only reason for an error. */
  lemma {:induction false} AcceptedSourceExtends(src: string, more: string)
    requires ParseSource(src).Ok?
    ensures ParseSource(src + more) == if LexFrom(src + more, 0).Ok? then ParseSource(src) else Err
  {
    hide LexFrom, PolicyAt;
    if LexFrom(src + more, 0).Ok? {
      LexedShape(src, 0);
      var ls, all := LexFrom(src, 0).value, LexFrom(src + more, 0).value;
      var k := PolicyAt(Bare(ls)).value.1;
      ConsumesNoEof(Bare(ls));
      EndsClosing(Bare(ls));
      LexExtends(src, more, 0, k - 1);
      assert forall m | 0 <= m < k :: all[m] == all[..k][m] == ls[..k][m];
      assert Bare(all)[..k] == Bare(ls)[..k];
      PrefixDeterminism(Bare(ls), Bare(all));
    }
  }

  /** The last token an accepted policy consumes is its closing brace. */
  lemma {:induction false} EndsClosing(toks: seq<Token>)
    requires PolicyAt(toks).Ok?
    ensures 0 < PolicyAt(toks).value.1 <= |toks| && toks[PolicyAt(toks).value.1 - 1] == CLOSE
  {
    hide Body;
  }

  /** The end marker is never among the tokens an accepted policy consumes. */
  lemma {:induction false} ConsumesNoEof(toks: seq<Token>)
    requires PolicyAt(toks).Ok? && toks != [] && toks[|toks| - 1] == EOF_TOKEN
    ensures PolicyAt(toks).value.1 <= |toks| - 1
  {
    hide Body;
  }
}

/** The grammar as it is documented: contracts/dsl/grammar.ebnf, and beside its lexicographic form
    with weights the one without, and with `safety`, of contracts/dsl/routing-policy.md. */
module Documented {
  import opened Outcomes
  import opened PolicyAst
  import opened Chars
  import opened Decimals
  import opened Tokens
  import opened Parsing
  import opened Grammar
  import opened Soundness
  import opened Bodies
  import opened Expressions

  datatype DocOperand =
    | DocPath(ns: string, first: string, more: seq<string>)
    | DocCall(name: string, arg: string)
    | DocLiteral(token: Token)

  datatype DocCmp =
    | DocCompare(left: DocOperand, op: string, right: DocOperand)
    | DocIn(operand: DocOperand, first: Token, more: seq<Token>)

  datatype DocAnd = DocAnd(first: DocCmp, more: seq<DocCmp>)
  datatype DocOr = DocOr(first: DocAnd, more: seq<DocAnd>)

  datatype DocPair = DocPair(dim: string, weight: string)

  datatype DocClause =
    | DocRequire(expr: DocOr)
    | DocPrefer(feature: string, weight: string)
    | DocWeighted(first: DocPair, more: seq<DocPair>)
    | DocLexicographic(dims: seq<string>)
    | DocLexWeighted(first: DocPair, more: seq<DocPair>)
    | DocFallback(cls: string, attempts: Option<string>)
    | DocSwitch(gain: string, hold: Option<string>)

  datatype DocPolicy = DocPolicy(name: string, clauses: seq<DocClause>)

  // The tokens the grammar spells

  function Id(s: string): Token { Token(Ident, s) }
  function Pu(s: string): Token { Token(Punct, s) }
  function Nu(s: string): Token { Token(Number, s) }

  function PathTail(more: seq<string>): seq<Token> {
    if more == [] then [] else [Pu("."), Id(more[0])] + PathTail(more[1..])
  }

  function OperandSpelling(o: DocOperand): seq<Token> {
    match o
    case DocPath(ns, first, more) => [Id(ns), Pu("."), Id(first)] + PathTail(more)
    case DocCall(f, arg) => [Id("model"), Pu("."), Id(f), Pu("("), Token(String, arg), Pu(")")]
    case DocLiteral(t) => [t]
  }

  function ListTail(more: seq<Token>): seq<Token> {
    if more == [] then [Pu("]")] else [Pu(","), more[0]] + ListTail(more[1..])
  }

  function CmpSpelling(c: DocCmp): seq<Token> {
    match c
    case DocCompare(l, op, r) => OperandSpelling(l) + ([Pu(op)] + OperandSpelling(r))
    case DocIn(o, first, more) => OperandSpelling(o) + ([Id("in"), Pu("["), first] + ListTail(more))
  }

  function AndTail(more: seq<DocCmp>): seq<Token> {
    if more == [] then [] else [Id("and")] + CmpSpelling(more[0]) + AndTail(more[1..])
  }

  function AndSpelling(a: DocAnd): seq<Token> {
    CmpSpelling(a.first) + AndTail(a.more)
  }

  function OrTail(more: seq<DocAnd>): seq<Token> {
    if more == [] then [] else [Id("or")] + AndSpelling(more[0]) + OrTail(more[1..])
  }

  function OrSpelling(o: DocOr): seq<Token> {
    AndSpelling(o.first) + OrTail(o.more)
  }

  function PairsSpelling(ps: seq<DocPair>): seq<Token> {
    if ps == [] then [] else [Id(ps[0].dim), Nu(ps[0].weight)] + PairsSpelling(ps[1..])
  }

  function Idents(names: seq<string>): seq<Token> {
    seq(|names|, k requires 0 <= k < |names| => Id(names[k]))
  }

  function OptionalSpelling(word: string, n: Option<string>): seq<Token> {
    match n case None => [] case Some(t) => [Id(word), Nu(t)]
  }

  function ClauseSpelling(c: DocClause): seq<Token> {
    match c
    case DocRequire(e) => [Id("require")] + OrSpelling(e)
    case DocPrefer(f, w) => [Id("prefer"), Id(f), Id("weight"), Nu(w)]
    case DocWeighted(first, more) => [Id("optimize")] + PairsSpelling([first] + more)
    case DocLexicographic(dims) => [Id("optimize")] + ([Id("lexicographic")] + Idents(dims))
    case DocLexWeighted(first, more) => [Id("optimize")] + ([Id("lexicographic")] + PairsSpelling([first] + more))
    case DocFallback(cls, n) => [Id("fallback")] + ([Id(cls)] + OptionalSpelling("max_attempts", n))
    case DocSwitch(g, n) =>
      [Id("switch")] + ([Id("only_if"), Id("expected_gain"), Pu(">="), Nu(g)] + OptionalSpelling("min_hold_seconds", n))
  }

  function ClausesSpelling(cs: seq<DocClause>): seq<Token> {
    if cs == [] then [] else ClauseSpelling(cs[0]) + ClausesSpelling(cs[1..])
  }

  function Spelling(d: DocPolicy): seq<Token> {
    [Id("policy"), Id(d.name), Pu("{")] + (ClausesSpelling(d.clauses) + [Pu("}")])
  }

  // Which trees the grammar allows

  predicate IsNumeral(s: string) {
    || (s != [] && All(s, IsDigit))
    || exists k | 0 < k < |s| - 1 :: s[k] == '.' && All(s[..k], IsDigit) && All(s[k + 1..], IsDigit)
  }

  /** The comparison operators and the dimensions as the grammar lists them. */
  const OPERATORS: seq<string> := ["==", "!=", ">=", "<=", ">", "<"]
  const DIMENSIONS: seq<string> := ["quality", "latency", "tcos", "reliability", "energy", "capacity"]

  lemma {:induction false} DocOperators(op: string)
    requires op in OPERATORS
    ensures IsCompareOp(op)
  {
  }

  lemma {:induction false} DocDimensions(dim: string)
    requires dim in DIMENSIONS
    ensures IsDim(dim)
  {
  }

  /** A string, a number, or one of the two boolean words. */
  predicate LiteralDoc(t: Token) {
    t.kind == String || t.kind == Number || t == Token(Ident, "true") || t == Token(Ident, "false")
  }

  lemma {:induction false} DocLiterals(t: Token)
    requires LiteralDoc(t)
    ensures IsLiteralToken(t) && LiteralMeaning(t) == LiteralAst(t)
  {
  }

  predicate OperandDoc(o: DocOperand) {
    match o
    case DocPath(ns, _, _) => ns == "data" || ns == "model" || ns == "endpoint" || ns == "contract"
    case DocCall(f, _) => f == "eval" || f == "capability"
    case DocLiteral(t) => LiteralDoc(t)
  }

  predicate CmpDoc(c: DocCmp) {
    match c
    case DocCompare(l, op, r) => OperandDoc(l) && op in OPERATORS && OperandDoc(r)
    case DocIn(o, first, more) =>
      OperandDoc(o) && LiteralDoc(first) && forall k | 0 <= k < |more| :: LiteralDoc(more[k])
  }

  predicate AndDoc(a: DocAnd) {
    CmpDoc(a.first) && forall k | 0 <= k < |a.more| :: CmpDoc(a.more[k])
  }

  predicate OrDoc(o: DocOr) {
    AndDoc(o.first) && forall k | 0 <= k < |o.more| :: AndDoc(o.more[k])
  }

  predicate PairDoc(p: DocPair) {
    p.dim in DIMENSIONS && IsNumeral(p.weight)
  }

  predicate IntegerDoc(n: Option<string>) {
    n.Some? ==> n.value != [] && All(n.value, IsDigit)
  }

  /** Lexicographic dimensions: the six, and `safety` as in the documentation's example. */
  predicate LexDim(s: string) {
    s in DIMENSIONS || s == "safety"
  }

  predicate ClauseDoc(c: DocClause) {
    match c
    case DocRequire(e) => OrDoc(e)
    case DocPrefer(_, w) => IsNumeral(w)
    case DocWeighted(first, more) => PairDoc(first) && forall k | 0 <= k < |more| :: PairDoc(more[k])
    case DocLexWeighted(first, more) => PairDoc(first) && forall k | 0 <= k < |more| :: PairDoc(more[k])
    case DocLexicographic(dims) => dims != [] && forall k | 0 <= k < |dims| :: LexDim(dims[k])
    case DocFallback(cls, n) =>
      && (cls == "none" || cls == "same_or_higher_quality" || cls == "any_compliant" || cls == "degrade_allowed")
      && IntegerDoc(n)
    case DocSwitch(g, n) => IsNumeral(g) && IntegerDoc(n)
  }

  predicate PolicyDoc(d: DocPolicy) {
    forall k | 0 <= k < |d.clauses| :: ClauseDoc(d.clauses[k])
  }

  // What the grammar means

  function LiteralMeaning(t: Token): Expr {
    match t.kind
    case String => Literal(StringLiteral, t.text)
    case Number => Literal(NumberLiteral, t.text)
    case _ => Literal(BooleanLiteral, t.text)
  }

  function OperandMeaning(o: DocOperand): Expr {
    match o
    case DocPath(ns, first, more) => Path(ns, [first] + more)
    case DocCall(f, arg) => Call("model", f, [arg])
    case DocLiteral(t) => LiteralMeaning(t)
  }

  function Texts(ts: seq<Token>): seq<string> {
    seq(|ts|, k requires 0 <= k < |ts| => ts[k].text)
  }

  function CmpMeaning(c: DocCmp): Expr {
    match c
    case DocCompare(l, op, r) => Compare(OperandMeaning(l), op, OperandMeaning(r))
    case DocIn(o, first, more) => In(OperandMeaning(o), [first.text] + Texts(more))
  }

  function CmpMeanings(cs: seq<DocCmp>): seq<Expr> {
    seq(|cs|, k requires 0 <= k < |cs| => CmpMeaning(cs[k]))
  }

  function AndMeaning(a: DocAnd): Expr {
    NestAnd(CmpMeaning(a.first), CmpMeanings(a.more))
  }

  /** The left-nested or-chain, over the meanings of its and-parts. */
  function NestOrs(first: Expr, more: seq<DocAnd>): Expr
    decreases |more|
  {
    if more == [] then first else NestOrs(Or(first, AndMeaning(more[0])), more[1..])
  }

  function OrMeaning(o: DocOr): Expr {
    NestOrs(AndMeaning(o.first), o.more)
  }

  /** Each dimension with the weight written last. */
  function DocWeights(ps: seq<DocPair>): map<string, real> {
    if ps == [] then map[] else DocWeights(ps[..|ps| - 1])[ps[|ps| - 1].dim := Weight(ps[|ps| - 1].weight)]
  }

  function DimsOf(ps: seq<DocPair>): seq<string> {
    seq(|ps|, k requires 0 <= k < |ps| => ps[k].dim)
  }

  function DocInteger(n: Option<string>): int {
    match n case None => 0 case Some(t) => Weight(t).Floor
  }

  function ClauseMeaning(c: DocClause): Clause {
    match c
    case DocRequire(e) => RequireClause(OrMeaning(e))
    case DocPrefer(f, w) => PreferClause(Prefer(f, Weight(w)))
    case DocWeighted(first, more) => OptimizeClause(Optimize(false, DocWeights([first] + more), []))
    case DocLexicographic(dims) => OptimizeClause(Optimize(true, map[], dims))
    case DocLexWeighted(first, more) =>
      OptimizeClause(Optimize(true, DocWeights([first] + more), DimsOf([first] + more)))
    case DocFallback(cls, n) => FallbackClause(Fallback(cls, DocInteger(n)))
    case DocSwitch(g, n) => SwitchClause(Switch(Weight(g), DocInteger(n)))
  }

  function ClausesMeaning(p: Policy, cs: seq<DocClause>): Policy
    decreases |cs|
  {
    if cs == [] then p else ClausesMeaning(Apply(p, ClauseMeaning(cs[0])), cs[1..])
  }

  function Meaning(d: DocPolicy): Policy {
    ClausesMeaning(EmptyPolicy(d.name), d.clauses)
  }

  // Which of it the parser supports

  predicate OperandSupported(o: DocOperand) {
    o.DocCall? ==> o.arg != ")"
  }

  predicate CmpSupported(c: DocCmp) {
    match c
    case DocCompare(l, _, r) => OperandSupported(l) && OperandSupported(r)
    case DocIn(o, first, more) =>
      OperandSupported(o) && first.text != "]" && forall k | 0 <= k < |more| :: more[k].text != "]"
  }

  /** A require is one comparison or list test, without the literal "]" in its list or ")" as
      the argument of a call. */
  predicate ClauseSupported(c: DocClause) {
    c.DocRequire? ==> c.expr.more == [] && c.expr.first.more == [] && CmpSupported(c.expr.first.first)
  }

  predicate Supported(d: DocPolicy) {
    forall k | 0 <= k < |d.clauses| :: ClauseSupported(d.clauses[k])
  }

  // Supported policies as trees of the implemented grammar

  function StepsOf(more: seq<string>): seq<Step> {
    seq(|more|, k requires 0 <= k < |more| => Step(Pu("."), more[k]))
  }

  function OperandTreeOf(o: DocOperand): OperandTree {
    match o
    case DocPath(ns, first, more) => PathTree(ns, Step(Pu("."), first), StepsOf(more))
    case DocCall(f, arg) =>
      CallTree("model", Step(Pu("."), f), Pu("("), MoreArgs(LiteralTree(Token(String, arg)), None, EndArgs(Pu(")"))))
    case DocLiteral(t) => LiteralTree(t)
  }

  function ItemsTreeOf(first: Token, more: seq<Token>): ItemsTree
    decreases |more|
  {
    if more == [] then MoreItems(first, None, EndItems(Pu("]")))
    else MoreItems(first, Some(Pu(",")), ItemsTreeOf(more[0], more[1..]))
  }

  function CmpTreeOf(c: DocCmp): CmpTree {
    match c
    case DocCompare(l, op, r) => CompareTree(OperandTreeOf(l), op, OperandTreeOf(r))
    case DocIn(o, first, more) => InTree(OperandTreeOf(o), ItemsTreeOf(first, more))
  }

  function PairTreesOf(ps: seq<DocPair>): seq<Pair> {
    seq(|ps|, k requires 0 <= k < |ps| => Pair(Id(ps[k].dim), ps[k].weight))
  }

  function LimitOf(word: string, n: Option<string>): Option<Limit> {
    match n case None => None case Some(t) => Some(Limit(Id(word), t))
  }

  function ClauseTreeOf(c: DocClause): ClauseTree {
    match c
    case DocRequire(e) => RequireTree(CmpTreeOf(e.first.first))
    case DocPrefer(f, w) => PreferTree(f, "weight", w)
    case DocWeighted(first, more) => WeightedTree(Pair(Id(first.dim), first.weight), PairTreesOf(more))
    case DocLexicographic(dims) => LexTree(Idents(dims))
    case DocLexWeighted(first, more) => LexTree(PairsSpelling([first] + more))
    case DocFallback(cls, n) => FallbackTree(cls, LimitOf("max_attempts", n))
    case DocSwitch(g, n) => SwitchTree("only_if", "expected_gain", g, LimitOf("min_hold_seconds", n))
  }

  function ClauseTreesOf(cs: seq<DocClause>): seq<ClauseTree> {
    seq(|cs|, k requires 0 <= k < |cs| => ClauseTreeOf(cs[k]))
  }

  lemma {:induction false} StepsAgree(more: seq<string>)
    ensures StepsTokens(StepsOf(more)) == PathTail(more) && StepNames(StepsOf(more)) == more
  {
    if more != [] {
      StepsAgree(more[1..]);
      assert StepsOf(more)[1..] == StepsOf(more[1..]);
    }
  }

  lemma {:induction false} OperandAgrees(o: DocOperand)
    requires OperandDoc(o)
    ensures OperandTokens(OperandTreeOf(o)) == OperandSpelling(o) && OperandAst(OperandTreeOf(o)) == OperandMeaning(o)
    ensures OperandSupported(o) ==> OperandOk(OperandTreeOf(o))
  {
    match o
    case DocPath(ns, first, more) =>
      StepsAgree(more);
      assert OperandTokens(OperandTreeOf(o)) == [Id(ns), Pu("."), Id(first)] + StepsTokens(StepsOf(more));
    case DocCall(f, arg) =>
      var args := MoreArgs(LiteralTree(Token(String, arg)), None, EndArgs(Pu(")")));
      assert ArgsTokens(args) == [Token(String, arg), Pu(")")];
      assert ArgsAst(args) == [arg];
      assert OperandTokens(OperandTreeOf(o)) == [Id("model"), Pu("."), Id(f), Pu("(")] + ArgsTokens(args);
    case DocLiteral(_) =>
  }

  lemma {:induction false} ItemsAgree(first: Token, more: seq<Token>)
    requires LiteralDoc(first) && forall k | 0 <= k < |more| :: LiteralDoc(more[k])
    ensures ItemsTokens(ItemsTreeOf(first, more)) == [first] + ListTail(more)
    ensures ItemsAst(ItemsTreeOf(first, more)) == [first.text] + Texts(more)
    ensures first.text != "]" && (forall k | 0 <= k < |more| :: more[k].text != "]")
            ==> ItemsOk(ItemsTreeOf(first, more))
    decreases |more|
  {
    hide IsLiteralToken, LiteralDoc;
    DocLiterals(first);
    if more != [] {
      ItemsAgree(more[0], more[1..]);
      assert Texts(more) == [more[0].text] + Texts(more[1..]);
      assert [Pu(",")] + ([more[0]] + ListTail(more[1..])) == ListTail(more);
    }
  }

  lemma {:induction false} CmpAgrees(c: DocCmp)
    requires CmpDoc(c)
    ensures CmpTokens(CmpTreeOf(c)) == CmpSpelling(c) && CmpAst(CmpTreeOf(c)) == CmpMeaning(c)
    ensures CmpSupported(c) ==> CmpOk(CmpTreeOf(c))
    ensures !CmpTreeOf(c).BareTree?
  {
    hide OperandDoc, OperandTreeOf, OperandSpelling, OperandMeaning, OperandSupported, OperandTokens, OperandAst,
      OperandOk, LiteralDoc, ListTail, ItemsTokens, ItemsAst, ItemsTreeOf, ItemsOk;
    match c
    case DocCompare(l, op, r) =>
      OperandAgrees(l);
      OperandAgrees(r);
    case DocIn(o, first, more) =>
      OperandAgrees(o);
      ItemsAgree(first, more);
      assert [Id("in"), Pu("[")] + ([first] + ListTail(more)) == [Id("in"), Pu("["), first] + ListTail(more);
  }

  lemma {:induction false} NumeralIsWeight(s: string)
    requires IsNumeral(s)
    ensures IsWeight(s)
  {
    if s != [] && All(s, IsDigit) {
      ParseDigits(s);
    } else {
      var k :| 0 < k < |s| - 1 && s[k] == '.' && All(s[..k], IsDigit) && All(s[k + 1..], IsDigit);
      assert s == s[..k] + "." + s[k + 1..];
      ParseDotted(s, s[..k], s[k + 1..]);
    }
  }

  lemma {:induction false} PairsAgree(ps: seq<DocPair>)
    ensures PairsTokens(PairTreesOf(ps)) == PairsSpelling(ps)
  {
    if ps != [] {
      PairsAgree(ps[1..]);
      assert PairTreesOf(ps)[1..] == PairTreesOf(ps[1..]);
    }
  }

  lemma {:induction false} WeightsAgree(ps: seq<DocPair>)
    ensures WeightsOf(PairTreesOf(ps)) == DocWeights(ps)
  {
    hide Weight;
    if ps != [] {
      var n := |ps| - 1;
      WeightsAgree(ps[..n]);
      assert PairTreesOf(ps)[..n] == PairTreesOf(ps[..n]);
    }
  }

  lemma {:induction false} WeightedAgrees(c: DocClause)
    requires c.DocWeighted? && ClauseDoc(c)
    ensures var t := ClauseTreeOf(c);
            ClauseOk(t) && ClauseTokens(t) == ClauseSpelling(c) && ClauseAst(t) == ClauseMeaning(c)
  {
    hide IsNumeral, IsWeight, WeightsOf, DocWeights, PairsTokens, PairsSpelling;
    var ps := [c.first] + c.more;
    assert PairTreesOf(ps) == [Pair(Id(c.first.dim), c.first.weight)] + PairTreesOf(c.more);
    PairsAgree(ps);
    WeightsAgree(ps);
    NumeralIsWeight(c.first.weight);
    forall k | 0 <= k < |c.more| ensures IsDim(c.more[k].dim) && IsWeight(c.more[k].weight) {
      assert PairDoc(c.more[k]);
      NumeralIsWeight(c.more[k].weight);
    }
  }

  lemma {:induction false} LexDimNotStop(s: string)
    requires LexDim(s)
    ensures !IsLexStop(Id(s))
  {
  }

  lemma {:induction false} LexAgrees(c: DocClause)
    requires c.DocLexicographic? && ClauseDoc(c)
    ensures var t := ClauseTreeOf(c);
            ClauseOk(t) && ClauseTokens(t) == ClauseSpelling(c) && ClauseAst(t) == ClauseMeaning(c)
  {
    hide LexDim, IsLexStop;
    forall k | 0 <= k < |c.dims| ensures !IsLexStop(Idents(c.dims)[k]) {
      LexDimNotStop(c.dims[k]);
    }
    assert DimNames(Idents(c.dims)) == c.dims;
  }

  lemma {:induction false} LimitAgrees(word: string, n: Option<string>)
    requires IntegerDoc(n)
    ensures LimitOk(LimitOf(word, n), word) && LimitAst(LimitOf(word, n)) == DocInteger(n)
    ensures LimitTokens(LimitOf(word, n)) == OptionalSpelling(word, n)
  {
    hide ParseFloat;
    if n.Some? {
      NumeralIsWeight(n.value);
    }
  }

  lemma {:induction false} SingleGate(e: DocOr)
    requires e.more == [] && e.first.more == []
    ensures OrMeaning(e) == CmpMeaning(e.first.first) && OrSpelling(e) == CmpSpelling(e.first.first)
  {
    hide CmpMeaning, CmpSpelling;
  }

  /** What the pairs of a weighted lexicographic clause are read as: every weight is one more
      dimension, with an empty name. */
  function Interleaved(ps: seq<DocPair>): seq<string> {
    if ps == [] then [] else [ps[0].dim, ""] + Interleaved(ps[1..])
  }

  lemma {:induction false} InterleavedAt(ps: seq<DocPair>)
    ensures |Interleaved(ps)| == 2 * |ps|
    ensures forall k | 0 <= k < |ps| :: Interleaved(ps)[2 * k] == ps[k].dim && Interleaved(ps)[2 * k + 1] == ""
  {
    if ps != [] {
      var tail := Interleaved(ps[1..]);
      InterleavedAt(ps[1..]);
      forall k | 0 <= k < |ps| ensures Interleaved(ps)[2 * k] == ps[k].dim && Interleaved(ps)[2 * k + 1] == "" {
        if k > 0 {
          assert tail[2 * (k - 1)] == ps[1..][k - 1].dim && tail[2 * (k - 1) + 1] == "";
        }
      }
    }
  }

  lemma {:induction false} PairsNames(ps: seq<DocPair>)
    requires forall k | 0 <= k < |ps| :: PairDoc(ps[k])
    ensures DimNames(PairsSpelling(ps)) == Interleaved(ps)
    ensures NoStops(PairsSpelling(ps))
  {
    hide IsLexStop, IsNumeral, IsDim;
    if ps != [] {
      PairsNames(ps[1..]);
      NumeralIsWeight(ps[0].weight);
      WeightNotStop(ps[0].weight);
      DimNotStop(Id(ps[0].dim));
      assert PairsSpelling(ps) == [Id(ps[0].dim), Nu(ps[0].weight)] + PairsSpelling(ps[1..]);
    }
  }

  /** What a clause is read as; only the weighted lexicographic form is not read as documented. */
  function ReadMeaning(c: DocClause): Clause {
    if c.DocLexWeighted? then OptimizeClause(Optimize(true, map[], Interleaved([c.first] + c.more)))
    else ClauseMeaning(c)
  }

  lemma {:induction false} LexWeightedAgrees(c: DocClause)
    requires c.DocLexWeighted? && ClauseDoc(c)
    ensures var t := ClauseTreeOf(c);
            ClauseOk(t) && ClauseTokens(t) == ClauseSpelling(c) && ClauseAst(t) == ReadMeaning(c)
  {
    hide IsLexStop, PairDoc, PairsSpelling, Interleaved;
    PairsNames([c.first] + c.more);
  }

  lemma {:induction false} ClauseAgrees(c: DocClause)
    requires ClauseDoc(c) && ClauseSupported(c)
    ensures var t := ClauseTreeOf(c);
            ClauseOk(t) && ClauseTokens(t) == ClauseSpelling(c) && ClauseAst(t) == ReadMeaning(c)
  {
    hide OrMeaning, OrSpelling, CmpTreeOf, CmpTokens, CmpOk, CmpAst, CmpSupported, CmpDoc, CmpMeaning, CmpSpelling,
      IsNumeral, IsWeight, LimitOf, LimitTokens, LimitOk, LimitAst, OptionalSpelling, DocInteger, WeightsOf,
          DocWeights,
      PairsTokens, PairsSpelling, IsDim;
    match c
    case DocRequire(e) =>
      SingleGate(e);
      CmpAgrees(e.first.first);
    case DocPrefer(f, w) => NumeralIsWeight(w);
    case DocWeighted(_, _) => WeightedAgrees(c);
    case DocLexicographic(_) => LexAgrees(c);
    case DocLexWeighted(_, _) => LexWeightedAgrees(c);
    case DocFallback(cls, n) => LimitAgrees("max_attempts", n);
    case DocSwitch(g, n) =>
      NumeralIsWeight(g);
      LimitAgrees("min_hold_seconds", n);
  }

  lemma {:induction false} ClausesAgree(cs: seq<DocClause>)
    requires forall k | 0 <= k < |cs| :: ClauseDoc(cs[k]) && ClauseSupported(cs[k])
    ensures BodyTokens(ClauseTreesOf(cs)) == ClausesSpelling(cs)
    decreases |cs|
  {
    hide ClauseDoc, ClauseSupported, ClauseTreeOf, ClauseSpelling, ClauseTokens, ClauseAst, ReadMeaning, ClauseOk;
    var ts := ClauseTreesOf(cs);
    if cs != [] {
      ClauseAgrees(cs[0]);
      assert ts == [ts[0]] + ts[1..] && ts[1..] == ClauseTreesOf(cs[1..]);
      ClausesAgree(cs[1..]);
    }
  }

  /** The documented meaning of the last optimize clause. */
  function DocOptimize(cs: seq<DocClause>): Option<Optimize> {
    if cs == [] then None
    else Later(if IsOptimize(cs[0]) then Some(ClauseMeaning(cs[0]).optimize) else None, DocOptimize(cs[1..]))
  }

  predicate IsOptimize(c: DocClause) {
    c.DocWeighted? || c.DocLexicographic? || c.DocLexWeighted?
  }

  /** The last optimize clause is lexicographic with weights. */
  predicate LastLexWeighted(cs: seq<DocClause>) {
    cs != [] && if DocOptimize(cs[1..]).Some? then LastLexWeighted(cs[1..]) else cs[0].DocLexWeighted?
  }

  /** Two policies that differ in the optimize clause at most. */
  predicate UpToOptimize(p: Policy, q: Policy) {
    p == q.(optimize := p.optimize)
  }

  lemma {:induction false} ApplyUpTo(p: Policy, c: DocClause, b: Policy)
    ensures var m, q := Apply(p, ClauseMeaning(c)), Apply(p, ReadMeaning(c));
            && UpToOptimize(Merge(m, b), Merge(q, b)) && m.name == p.name
            && m.optimize == Later(p.optimize, if IsOptimize(c) then Some(ClauseMeaning(c).optimize) else None)
  {
    hide OrMeaning, DocWeights, Weight, DocInteger;
  }

  /** But for the optimize clause, the trees mean what is documented. */
  lemma {:induction false} MeaningAgrees(p: Policy, cs: seq<DocClause>)
    requires forall k | 0 <= k < |cs| :: ClauseDoc(cs[k]) && ClauseSupported(cs[k])
    ensures UpToOptimize(ClausesMeaning(p, cs), Merge(p, BodyAst(p.name, ClauseTreesOf(cs))))
    ensures ClausesMeaning(p, cs).optimize == Later(p.optimize, DocOptimize(cs))
    decreases |cs|
  {
    hide ClauseDoc, ClauseSupported, ClauseTreeOf, ClauseMeaning, ReadMeaning, ClauseTokens, ClauseSpelling,
      ClauseAst, ClauseOk,
      Merge, BodyAst, Apply, IsOptimize;
    var ts := ClauseTreesOf(cs);
    if cs == [] {
      assert ts == [];
      MergeNothing(p);
    } else {
      ClauseAgrees(cs[0]);
      assert ts == [ts[0]] + ts[1..] && ts[1..] == ClauseTreesOf(cs[1..]);
      ApplyThenBody(p.name, ts[0], ts[1..], p);
      ApplyUpTo(p, cs[0], BodyAst(p.name, ts[1..]));
      MeaningAgrees(Apply(p, ClauseMeaning(cs[0])), cs[1..]);
    }
  }

  lemma {:induction false} OptimizeTreeOf(c: DocClause)
    requires ClauseDoc(c) && ClauseSupported(c)
    ensures Keyword(ClauseTreeOf(c)) == "optimize" <==> IsOptimize(c)
    ensures IsOptimize(c) && !c.DocLexWeighted? ==> ClauseAst(ClauseTreeOf(c)).optimize == ClauseMeaning(c).optimize
  {
    hide ClauseDoc, ClauseSupported, ClauseAst, ClauseMeaning, ClauseSpelling, ClauseTokens;
    ClauseAgrees(c);
  }

  /** The last optimize clause as written in the trees is the documented one, unless it is the
      weighted lexicographic form, which then still has its weights. */
  lemma {:induction false} LastAgrees(cs: seq<DocClause>)
    requires forall k | 0 <= k < |cs| :: ClauseDoc(cs[k]) && ClauseSupported(cs[k])
    ensures LastOptimize(ClauseTreesOf(cs)).Some? <==> DocOptimize(cs).Some?
    ensures !LastLexWeighted(cs) ==> DocOptimize(cs) == LastOptimize(ClauseTreesOf(cs))
    ensures LastLexWeighted(cs) ==>
              DocOptimize(cs).Some? && DocOptimize(cs).value.lexicographic && DocOptimize(cs).value.weights != map[]
    decreases |cs|
  {
    hide ClauseDoc, ClauseSupported, ClauseTreeOf, ClauseAst, ClauseMeaning, IsOptimize, Keyword;
    var ts := ClauseTreesOf(cs);
    if cs != [] {
      OptimizeTreeOf(cs[0]);
      LastAgrees(cs[1..]);
      assert ts[1..] == ClauseTreesOf(cs[1..]);
      HasWeights(cs[0]);
    }
  }

  lemma {:induction false} HasWeights(c: DocClause)
    ensures c.DocLexWeighted? ==>
              IsOptimize(c) && ClauseMeaning(c).optimize.lexicographic && ClauseMeaning(c).optimize.weights != map[]
  {
    hide Weight;
    if c.DocLexWeighted? {
      var ps := [c.first] + c.more;
      assert ps[|ps| - 1].dim in DocWeights(ps);
    }
  }
}

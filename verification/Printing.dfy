/** Writing a policy as source text. `Printable` describes the policies that have a text. */
module Printing {
  import opened Outcomes
  import opened PolicyAst
  import opened Chars
  import opened Decimals
  import opened Tokens
  import opened Lexing
  import opened Layout
  import opened Parsing
  import opened Grammar

  predicate IsIdent(s: string) {
    s != [] && IsIdentStart(s[0]) && All(s, IsIdentChar)
  }

  predicate IsNumber(s: string) {
    s != [] && StartsNumber(s, 0) && All(s, IsNumberChar)
  }

  /** A text that fits between one of the two quotes. */
  predicate IsQuotable(s: string) {
    '"' !in s || '\'' !in s
  }

  predicate PrintableTexts(texts: seq<string>, close: string) {
    forall k | 0 <= k < |texts| :: IsQuotable(texts[k]) && texts[k] != close
  }

  predicate PrintableOperand(e: Expr) {
    match e
    case Literal(StringLiteral, s) => IsQuotable(s)
    case Literal(NumberLiteral, s) => IsNumber(s)
    case Literal(BooleanLiteral, s) => IsBoolean(s)
    case Path(ns, segs) =>
      IsIdent(ns) && IsNamespace(ns) && segs != [] && forall k | 0 <= k < |segs| :: IsIdent(segs[k])
    case Call(ns, name, args) => IsIdent(ns) && IsNamespace(ns) && IsIdent(name) && PrintableTexts(args, ")")
    case Not(inner) => PrintableOperand(inner)
    case _ => false
  }

  predicate PrintableGate(e: Expr) {
    match e
    case In(o, items) => PrintableOperand(o) && PrintableTexts(items, "]")
    case Compare(l, op, r) => PrintableOperand(l) && IsCompareOp(op) && PrintableOperand(r)
    case _ => false
  }

  predicate PrintableDim(s: string) {
    s == "" || (IsIdent(s) && !IsLexStop(Token(Ident, s)))
  }

  /** A name a weighted clause can write beside the dimensions: its first token may be any
      identifier but `lexicographic`, and a token that is no identifier leaves the empty name. */
  predicate PrintableKey(s: string, first: string) {
    IsDim(s) || s == "" || (s == first && IsIdent(s) && s != "lexicographic")
  }

  ghost predicate PrintableWeights(weights: map<string, real>, first: string) {
    forall s | s in weights :: PrintableKey(s, first) && IsDecimal(weights[s])
  }

  ghost predicate PrintableOptimize(o: Optimize) {
    if o.lexicographic then o.weights == map[] && forall k | 0 <= k < |o.order| :: PrintableDim(o.order[k])
    else o.order == [] && o.weights != map[] && exists first :: PrintableWeights(o.weights, first)
  }

  ghost predicate Printable(p: Policy) {
    && IsIdent(p.name)
    && (forall k | 0 <= k < |p.gates| :: PrintableGate(p.gates[k]))
    && (forall k | 0 <= k < |p.prefers| :: IsIdent(p.prefers[k].feature) && IsDecimal(p.prefers[k].weight))
    && (p.optimize.Some? ==> PrintableOptimize(p.optimize.value))
    && (p.fallback.Some? ==> IsIdent(p.fallback.value.cls) && p.fallback.value.maxAttempts >= 0)
    && (p.switch.Some? ==> IsDecimal(p.switch.value.minGain) && p.switch.value.minHoldSeconds >= 0)
  }

  // Trees of printable policies

  const DOT := Token(Punct, ".")

  predicate LegalTokens(ts: seq<Token>) {
    forall k | 0 <= k < |ts| :: LegalToken(ts[k])
  }

  lemma {:induction false} LegalConcat(a: seq<Token>, b: seq<Token>)
    ensures LegalTokens(a + b) <==> LegalTokens(a) && LegalTokens(b)
  {
    hide LegalToken;
    if LegalTokens(a + b) {
      assert forall k | 0 <= k < |a| :: a[k] == (a + b)[k];
      assert forall k | 0 <= k < |b| :: b[k] == (a + b)[|a| + k];
    }
  }

  function TailSteps(segs: seq<string>): seq<Step> {
    if segs == [] then [] else [Step(DOT, segs[0])] + TailSteps(segs[1..])
  }

  function TextsArgs(texts: seq<string>): ArgsTree {
    if texts == [] then EndArgs(Token(Punct, ")"))
    else
      MoreArgs(LiteralTree(Token(String, texts[0])),
               if |texts| == 1 then None else Some(Token(Punct, ",")),
               TextsArgs(texts[1..]))
  }

  function TextsItems(texts: seq<string>): ItemsTree {
    if texts == [] then EndItems(Token(Punct, "]"))
    else
      MoreItems(Token(String, texts[0]),
                if |texts| == 1 then None else Some(Token(Punct, ",")),
                TextsItems(texts[1..]))
  }

  function LiteralToken(kind: LiteralKind, text: string): Token {
    Token(match kind case StringLiteral => String case NumberLiteral => Number case BooleanLiteral => Ident, text)
  }

  function OperandOf(e: Expr): OperandTree
    requires PrintableOperand(e)
  {
    match e
    case Literal(kind, s) => LiteralTree(LiteralToken(kind, s))
    case Path(ns, segs) => PathTree(ns, Step(DOT, segs[0]), TailSteps(segs[1..]))
    case Call(ns, name, args) => CallTree(ns, Step(DOT, name), Token(Punct, "("), TextsArgs(args))
    case Not(inner) => NotTree(OperandOf(inner))
  }

  function GateOf(e: Expr): CmpTree
    requires PrintableGate(e)
  {
    match e
    case In(o, items) => InTree(OperandOf(o), TextsItems(items))
    case Compare(l, op, r) => CompareTree(OperandOf(l), op, OperandOf(r))
  }

  /** A numeral of the decimal `w`. */
  ghost function WeightText(w: real): (text: string)
    requires IsDecimal(w)
    ensures exists n: nat, k: nat :: w == DecimalValue(n, k) && text == DecimalText(n, k)
  {
    var n: nat, k: nat :| w == DecimalValue(n, k);
    DecimalText(n, k)
  }

  function IntegerLimit(word: string, n: int): Option<Limit>
    requires n >= 0
  {
    Some(Limit(Token(Ident, word), DecimalText(n, 0)))
  }

  /** A token that a lexicographic list reads as the name `s`. */
  function DimToken(s: string): Token {
    if s == "" then Token(Number, "0") else Token(Ident, s)
  }

  function DimTokens(names: seq<string>): seq<Token> {
    seq(|names|, k requires 0 <= k < |names| => DimToken(names[k]))
  }

  /** A token that a weight list reads as the name `s`: a string is no identifier, so it leaves
      the empty name, and its text may spell a dimension. */
  function KeyToken(s: string): Token {
    if s == "" then Token(String, "quality") else Token(Ident, s)
  }

  const KNOWN_KEYS: seq<string> := ["", "quality", "latency", "tcos", "reliability", "energy", "capacity"]

  /** The members of `names` that are keys, in order, each with its weight. */
  ghost function PairsOf(names: seq<string>, weights: map<string, real>): seq<Pair>
    requires forall s | s in weights :: IsDecimal(weights[s])
  {
    if names == [] then []
    else
      (if names[0] in weights then [Pair(KeyToken(names[0]), WeightText(weights[names[0]]))] else [])
      + PairsOf(names[1..], weights)
  }

  ghost function WeightedOf(weights: map<string, real>, first: string): ClauseTree
    requires PrintableWeights(weights, first)
  {
    var ps := PairsOf([first] + KNOWN_KEYS, weights);
    if ps == [] then LexTree([]) else WeightedTree(ps[0], ps[1..])
  }

  ghost function OptimizeOf(o: Optimize): (c: ClauseTree)
    requires PrintableOptimize(o)
    ensures !o.lexicographic ==> exists first :: PrintableWeights(o.weights, first) && c == WeightedOf(o.weights, first)
  {
    if o.lexicographic then LexTree(DimTokens(o.order))
    else
      var first :| PrintableWeights(o.weights, first);
      WeightedOf(o.weights, first)
  }

  ghost function RequireTrees(gates: seq<Expr>): seq<ClauseTree>
    requires forall k | 0 <= k < |gates| :: PrintableGate(gates[k])
  {
    seq(|gates|, k requires 0 <= k < |gates| => RequireTree(GateOf(gates[k])))
  }

  ghost function PreferTrees(prefers: seq<Prefer>): seq<ClauseTree>
    requires forall k | 0 <= k < |prefers| :: IsDecimal(prefers[k].weight)
  {
    seq(|prefers|, k requires 0 <= k < |prefers| => PreferTree(prefers[k].feature, "weight",
        WeightText(prefers[k].weight)))
  }

  ghost function OptimizeTrees(o: Option<Optimize>): seq<ClauseTree>
    requires o.Some? ==> PrintableOptimize(o.value)
  {
    match o case None => [] case Some(v) => [OptimizeOf(v)]
  }

  function FallbackTrees(f: Option<Fallback>): seq<ClauseTree>
    requires f.Some? ==> f.value.maxAttempts >= 0
  {
    match f case None => [] case Some(v) => [FallbackTree(v.cls, IntegerLimit("max_attempts", v.maxAttempts))]
  }

  ghost function SwitchTrees(s: Option<Switch>): seq<ClauseTree>
    requires s.Some? ==> IsDecimal(s.value.minGain) && s.value.minHoldSeconds >= 0
  {
    match s
    case None => []
    case Some(v) =>
      [SwitchTree("only_if", "expected_gain", WeightText(v.minGain),
          IntegerLimit("min_hold_seconds", v.minHoldSeconds))]
  }

  ghost function ClausesOf(p: Policy): seq<ClauseTree>
    requires Printable(p)
  {
    RequireTrees(p.gates) + (PreferTrees(p.prefers)
        + (OptimizeTrees(p.optimize) + (FallbackTrees(p.fallback) + SwitchTrees(p.switch))))
  }

  /** A tree that spells the policy. */
  ghost function TreeOf(p: Policy): PolicyTree
    requires Printable(p)
  {
    PolicyTree("policy", p.name, ClausesOf(p))
  }

  /** The policy as text, tokens one space apart. */
  ghost function Print(p: Policy): string
    requires Printable(p)
  {
    var ts := PolicyTokens(TreeOf(p));
    Render(ts, Spaces(|ts|))
  }
}

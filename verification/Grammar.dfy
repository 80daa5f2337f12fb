/** The grammar the parser implements, as trees: what tokens a tree spells, what it means,
    and which trees are legal. Tokens that the parser recognises by text alone keep their kind
    in the tree, so a string token can stand where the parser lets it. */
module Grammar {
  import opened Outcomes
  import opened PolicyAst
  import opened Decimals
  import opened Tokens
  import opened Parsing

  // Operands

  datatype Step = Step(dot: Token, name: string)

  datatype OperandTree =
    | LiteralTree(token: Token)
    | NotTree(inner: OperandTree)
    | PathTree(ns: string, first: Step, tail: seq<Step>)
    | CallTree(ns: string, first: Step, open: Token, args: ArgsTree)

  datatype ArgsTree =
    | EndArgs(close: Token)
    | MoreArgs(arg: OperandTree, comma: Option<Token>, rest: ArgsTree)

  function OptionTokens(o: Option<Token>): seq<Token> {
    match o case None => [] case Some(t) => [t]
  }

  function StepsTokens(steps: seq<Step>): seq<Token> {
    if steps == [] then []
    else [steps[0].dot, Token(Ident, steps[0].name)] + StepsTokens(steps[1..])
  }

  function OperandTokens(o: OperandTree): (ts: seq<Token>)
    ensures ts != [] && ts[0] == FirstToken(o)
  {
    match o
    case LiteralTree(t) => [t]
    case NotTree(inner) => [Token(Ident, "not")] + OperandTokens(inner)
    case PathTree(ns, first, tail) =>
      [Token(Ident, ns), first.dot, Token(Ident, first.name)] + StepsTokens(tail)
    case CallTree(ns, first, open, args) =>
      [Token(Ident, ns), first.dot, Token(Ident, first.name), open] + ArgsTokens(args)
  }

  function ArgsTokens(a: ArgsTree): (ts: seq<Token>)
    ensures ts != [] && ts[0] == FirstOfArgs(a)
  {
    match a
    case EndArgs(close) => [close]
    case MoreArgs(arg, comma, rest) => OperandTokens(arg) + (OptionTokens(comma) + ArgsTokens(rest))
  }

  function FirstToken(o: OperandTree): Token {
    match o
    case LiteralTree(t) => t
    case NotTree(_) => Token(Ident, "not")
    case PathTree(ns, _, _) => Token(Ident, ns)
    case CallTree(ns, _, _, _) => Token(Ident, ns)
  }

  function FirstOfArgs(a: ArgsTree): Token {
    match a
    case EndArgs(close) => close
    case MoreArgs(arg, _, _) => FirstToken(arg)
  }

  /** The token after an argument: its comma, or the start of what follows. */
  function AfterArg(comma: Option<Token>, rest: Token): Token {
    match comma case None => rest case Some(t) => t
  }

  predicate IsBoolean(s: string) {
    s == "true" || s == "false"
  }

  predicate IsLiteralToken(t: Token) {
    t.kind == String || t.kind == Number || (t.kind == Ident && IsBoolean(t.text))
  }

  predicate IsNamespace(s: string) {
    !IsBoolean(s) && s != "not"
  }

  predicate OperandOk(o: OperandTree) {
    match o
    case LiteralTree(t) => IsLiteralToken(t)
    case NotTree(inner) => OperandOk(inner)
    case PathTree(ns, first, tail) =>
      IsNamespace(ns) && first.dot.text == "." && forall k | 0 <= k < |tail| :: tail[k].dot.text == "."
    case CallTree(ns, first, open, args) =>
      IsNamespace(ns) && first.dot.text == "." && open.text == "(" && ArgsOk(args)
  }

  predicate CommaOk(comma: Option<Token>, rest: Token) {
    match comma case None => rest.text != "," case Some(t) => t.text == ","
  }

  predicate ArgsOk(a: ArgsTree) {
    match a
    case EndArgs(close) => close.text == ")"
    case MoreArgs(arg, comma, rest) =>
      && OperandOk(arg) && FirstToken(arg).text != ")"
      && CommaOk(comma, FirstOfArgs(rest))
      && OperandEnds(arg, AfterArg(comma, FirstOfArgs(rest)))
      && ArgsOk(rest)
  }

  /** The operand is complete when `next` follows it. */
  predicate OperandEnds(o: OperandTree, next: Token) {
    match o
    case LiteralTree(_) => true
    case NotTree(inner) => OperandEnds(inner, next)
    case PathTree(_, _, tail) => next.text != "." && (tail == [] ==> next.text != "(")
    case CallTree(_, _, _, _) => true
  }

  function LiteralAst(t: Token): Expr {
    var kind := if t.kind == String then StringLiteral else if t.kind == Number then NumberLiteral else BooleanLiteral;
    Literal(kind, t.text)
  }

  function StepNames(steps: seq<Step>): seq<string> {
    if steps == [] then [] else [steps[0].name] + StepNames(steps[1..])
  }

  function OperandAst(o: OperandTree): Expr {
    match o
    case LiteralTree(t) => LiteralAst(t)
    case NotTree(inner) => Not(OperandAst(inner))
    case PathTree(ns, first, tail) => Path(ns, [first.name] + StepNames(tail))
    case CallTree(ns, first, _, args) => Call(ns, first.name, ArgsAst(args))
  }

  /** The literal arguments only: what else stands between the parentheses has no meaning. */
  function ArgsAst(a: ArgsTree): seq<string> {
    match a
    case EndArgs(_) => []
    case MoreArgs(arg, _, rest) => (if arg.LiteralTree? then [arg.token.text] else []) + ArgsAst(rest)
  }

  // Comparisons

  datatype ItemsTree =
    | EndItems(close: Token)
    | MoreItems(item: Token, comma: Option<Token>, rest: ItemsTree)

  function FirstOfItems(a: ItemsTree): Token {
    match a case EndItems(close) => close case MoreItems(item, _, _) => item
  }

  function ItemsTokens(a: ItemsTree): (ts: seq<Token>)
    ensures ts != [] && ts[0] == FirstOfItems(a)
  {
    match a
    case EndItems(close) => [close]
    case MoreItems(item, comma, rest) => [item] + (OptionTokens(comma) + ItemsTokens(rest))
  }

  predicate ItemsOk(a: ItemsTree) {
    match a
    case EndItems(close) => close.text == "]"
    case MoreItems(item, comma, rest) =>
      && IsLiteralToken(item) && item.text != "]"
      && CommaOk(comma, FirstOfItems(rest)) && ItemsOk(rest)
  }

  function ItemsAst(a: ItemsTree): seq<string> {
    match a case EndItems(_) => [] case MoreItems(item, _, rest) => [item.text] + ItemsAst(rest)
  }

  datatype CmpTree =
    | BareTree(operand: OperandTree)
    | InTree(operand: OperandTree, items: ItemsTree)
    | CompareTree(left: OperandTree, op: string, right: OperandTree)

  function CmpTokens(c: CmpTree): (ts: seq<Token>)
    ensures ts != []
  {
    match c
    case BareTree(o) => OperandTokens(o)
    case InTree(o, items) => OperandTokens(o) + ([Token(Ident, "in"), Token(Punct, "[")] + ItemsTokens(items))
    case CompareTree(l, op, r) => OperandTokens(l) + ([Token(Punct, op)] + OperandTokens(r))
  }

  predicate CmpOk(c: CmpTree) {
    match c
    case BareTree(o) => OperandOk(o)
    case InTree(o, items) => OperandOk(o) && ItemsOk(items)
    case CompareTree(l, op, r) => OperandOk(l) && IsCompareOp(op) && OperandOk(r)
  }

  predicate CmpEnds(c: CmpTree, next: Token) {
    match c
    case BareTree(o) =>
      OperandEnds(o, next) && next != Token(Ident, "in") && !(next.kind == Punct && IsCompareOp(next.text))
    case InTree(_, _) => true
    case CompareTree(_, _, r) => OperandEnds(r, next)
  }

  function CmpAst(c: CmpTree): Expr {
    match c
    case BareTree(o) => OperandAst(o)
    case InTree(o, items) => In(OperandAst(o), ItemsAst(items))
    case CompareTree(l, op, r) => Compare(OperandAst(l), op, OperandAst(r))
  }

  // Clauses

  /** A dimension and its weight, as written. */
  datatype Pair = Pair(dim: Token, weight: string)

  /** An optional word and number, as written. */
  datatype Limit = Limit(word: Token, number: string)

  datatype ClauseTree =
    | RequireTree(cmp: CmpTree)
    | PreferTree(feature: string, word: string, weight: string)
    | LexTree(dims: seq<Token>)
    | WeightedTree(first: Pair, more: seq<Pair>)
    | FallbackTree(cls: string, limit: Option<Limit>)
    | SwitchTree(word1: string, word2: string, gain: string, limit: Option<Limit>)

  function PairsTokens(ps: seq<Pair>): seq<Token> {
    if ps == [] then [] else [ps[0].dim, Token(Number, ps[0].weight)] + PairsTokens(ps[1..])
  }

  function LimitTokens(l: Option<Limit>): seq<Token> {
    match l case None => [] case Some(m) => [m.word, Token(Number, m.number)]
  }

  function Keyword(c: ClauseTree): string {
    match c
    case RequireTree(_) => "require"
    case PreferTree(_, _, _) => "prefer"
    case LexTree(_) => "optimize"
    case WeightedTree(_, _) => "optimize"
    case FallbackTree(_, _) => "fallback"
    case SwitchTree(_, _, _, _) => "switch"
  }

  /** The tokens of a clause after its keyword. */
  function ClauseTail(c: ClauseTree): seq<Token> {
    match c
    case RequireTree(cmp) => CmpTokens(cmp)
    case PreferTree(f, w, n) => [Token(Ident, f), Token(Ident, w), Token(Number, n)]
    case LexTree(dims) => [Token(Ident, "lexicographic")] + dims
    case WeightedTree(first, more) => PairsTokens([first] + more)
    case FallbackTree(cls, limit) => [Token(Ident, cls)] + LimitTokens(limit)
    case SwitchTree(w1, w2, g, limit) =>
      [Token(Ident, w1), Token(Ident, w2), Token(Punct, ">="), Token(Number, g)] + LimitTokens(limit)
  }

  function ClauseTokens(c: ClauseTree): seq<Token> {
    [Token(Ident, Keyword(c))] + ClauseTail(c)
  }

  predicate IsWeight(text: string) {
    ParseFloat(text).Some?
  }

  predicate LimitOk(l: Option<Limit>, word: string) {
    match l case None => true case Some(m) => m.word.text == word && IsWeight(m.number)
  }

  predicate ClauseOk(c: ClauseTree) {
    match c
    case RequireTree(cmp) => !cmp.BareTree? && CmpOk(cmp)
    case PreferTree(_, _, n) => IsWeight(n)
    case LexTree(dims) => forall k | 0 <= k < |dims| :: !IsLexStop(dims[k])
    case WeightedTree(first, more) =>
      && IdentText(first.dim) != "lexicographic" && IsWeight(first.weight)
      && PairsOk(more)
    case FallbackTree(_, limit) => LimitOk(limit, "max_attempts")
    case SwitchTree(_, _, g, limit) => IsWeight(g) && LimitOk(limit, "min_hold_seconds")
  }

  predicate PairsOk(ps: seq<Pair>) {
    forall k | 0 <= k < |ps| :: IsDim(ps[k].dim.text) && IsWeight(ps[k].weight)
  }

  function Weight(text: string): real {
    match ParseFloat(text) case Some(v) => v case None => 0.0
  }

  function LimitAst(l: Option<Limit>): int {
    match l case None => 0 case Some(m) => Weight(m.number).Floor
  }

  /** The weights a list of pairs leaves: for each name, the weight of its last pair. */
  function WeightsOf(ps: seq<Pair>): map<string, real> {
    if ps == [] then map[]
    else WeightsOf(ps[..|ps| - 1])[IdentText(ps[|ps| - 1].dim) := Weight(ps[|ps| - 1].weight)]
  }

  function DimNames(dims: seq<Token>): seq<string> {
    seq(|dims|, k requires 0 <= k < |dims| => IdentText(dims[k]))
  }

  function ClauseAst(c: ClauseTree): Clause {
    match c
    case RequireTree(cmp) => RequireClause(CmpAst(cmp))
    case PreferTree(f, _, n) => PreferClause(Prefer(f, Weight(n)))
    case LexTree(dims) => OptimizeClause(Optimize(true, map[], DimNames(dims)))
    case WeightedTree(first, more) => OptimizeClause(Optimize(false, WeightsOf([first] + more), []))
    case FallbackTree(cls, limit) => FallbackClause(Fallback(cls, LimitAst(limit)))
    case SwitchTree(_, _, g, limit) => SwitchClause(Switch(Weight(g), LimitAst(limit)))
  }

  // Policies

  datatype PolicyTree = PolicyTree(word: string, name: string, clauses: seq<ClauseTree>)

  function BodyTokens(cs: seq<ClauseTree>): seq<Token> {
    if cs == [] then [] else ClauseTokens(cs[0]) + BodyTokens(cs[1..])
  }

  function HeaderTokens(t: PolicyTree): seq<Token> {
    [Token(Ident, t.word), Token(Ident, t.name), Token(Punct, "{")]
  }

  function PolicyTokens(t: PolicyTree): seq<Token> {
    HeaderTokens(t) + (BodyTokens(t.clauses) + [Token(Punct, "}")])
  }

  /** Every clause is legal, and no optimize clause directly follows a lexicographic one, which
      would read its keyword as one more dimension. */
  predicate BodyOk(cs: seq<ClauseTree>) {
    && (forall k | 0 <= k < |cs| :: ClauseOk(cs[k]))
    && forall k | 0 <= k < |cs| - 1 :: cs[k].LexTree? ==> Keyword(cs[k + 1]) != "optimize"
  }

  // The meaning of a body, clause kind by clause kind

  function Gates(cs: seq<ClauseTree>): seq<Expr> {
    if cs == [] then []
    else (if cs[0].RequireTree? then [CmpAst(cs[0].cmp)] else []) + Gates(cs[1..])
  }

  function Prefers(cs: seq<ClauseTree>): seq<Prefer> {
    if cs == [] then []
    else (if cs[0].PreferTree? then [Prefer(cs[0].feature, Weight(cs[0].weight))] else []) + Prefers(cs[1..])
  }

  /** `b` if it is there, else `a`. */
  function Later<T>(a: Option<T>, b: Option<T>): Option<T> {
    if b.Some? then b else a
  }

  function LastOptimize(cs: seq<ClauseTree>): Option<Optimize> {
    if cs == [] then None
    else Later(if Keyword(cs[0]) == "optimize" then Some(ClauseAst(cs[0]).optimize) else None, LastOptimize(cs[1..]))
  }

  function LastFallback(cs: seq<ClauseTree>): Option<Fallback> {
    if cs == [] then None
    else Later(if cs[0].FallbackTree? then Some(ClauseAst(cs[0]).fallback) else None, LastFallback(cs[1..]))
  }

  function LastSwitch(cs: seq<ClauseTree>): Option<Switch> {
    if cs == [] then None
    else Later(if cs[0].SwitchTree? then Some(ClauseAst(cs[0]).switch) else None, LastSwitch(cs[1..]))
  }

  function BodyAst(name: string, cs: seq<ClauseTree>): Policy {
    Policy(name, Gates(cs), Prefers(cs), LastOptimize(cs), LastFallback(cs), LastSwitch(cs))
  }

  /** The tokens `ts` are spelled by a legal policy tree that means `p`. */
  ghost predicate Derives(ts: seq<Token>, p: Policy) {
    exists t: PolicyTree :: BodyOk(t.clauses) && PolicyTokens(t) == ts && BodyAst(t.name, t.clauses) == p
  }

  /** Two policies as one body after the other gives them. */
  function Merge(a: Policy, b: Policy): Policy {
    Policy(a.name, a.gates + b.gates, a.prefers + b.prefers,
           Later(a.optimize, b.optimize), Later(a.fallback, b.fallback), Later(a.switch, b.switch))
  }
}

/** The recursive-descent parser as functions of the token list and a cursor: each returns
    what it read and the cursor after it. `Crash` is a read past the end of the list. */
module Parsing {
  import opened Outcomes
  import opened PolicyAst
  import opened Decimals
  import opened Tokens
  import Lexing

  // Single tokens

  function TokenAt(toks: seq<Token>, i: nat): (r: Result<Token>)
    ensures !r.Err?
    ensures r.Ok? <==> i < |toks|
    ensures r.Ok? ==> r.value == toks[i]
  {
    if i < |toks| then Ok(toks[i]) else Crash
  }

  function IdentAt(toks: seq<Token>, i: nat): Result<string> {
    var t :- TokenAt(toks, i);
    if t.kind == Ident then Ok(t.text) else Err
  }

  function PunctAt(toks: seq<Token>, i: nat, s: string): Result<()> {
    var t :- TokenAt(toks, i);
    if t == Token(Punct, s) then Ok(()) else Err
  }

  function NumberAt(toks: seq<Token>, i: nat): Result<real> {
    var t :- TokenAt(toks, i);
    if t.kind != Number then Err
    else match ParseFloat(t.text) case Some(v) => Ok(v) case None => Err
  }

  function IntegerAt(toks: seq<Token>, i: nat): Result<int> {
    var t :- TokenAt(toks, i);
    if t.kind != Number then Err
    else match ParseInteger(t.text) case Some(v) => Ok(v) case None => Err
  }

  /** The text of an identifier taken with its error ignored: a failed read leaves "". */
  function IdentText(t: Token): string {
    if t.kind == Ident then t.text else ""
  }

  // Expressions

  function Operand(toks: seq<Token>, i: nat): (r: Result<(Expr, nat)>)
    ensures r.Ok? ==> i < r.value.1 <= |toks|
    decreases |toks| - i, 1
  {
    var t :- TokenAt(toks, i);
    match t.kind
    case String => Ok((Literal(StringLiteral, t.text), i + 1))
    case Number => Ok((Literal(NumberLiteral, t.text), i + 1))
    case Ident =>
      if t.text == "true" || t.text == "false" then Ok((Literal(BooleanLiteral, t.text), i + 1))
      else if t.text == "not" then
        var (inner, k) :- Operand(toks, i + 1);
        Ok((Not(inner), k))
      else
        Dotted(toks, i, t.text)
    case _ => Err
  }

  /** ns.name, then either call arguments or more path segments. */
  function Dotted(toks: seq<Token>, i: nat, ns: string): (r: Result<(Expr, nat)>)
    requires i < |toks|
    ensures r.Ok? ==> i < r.value.1 <= |toks|
    decreases |toks| - i, 0
  {
    var dot :- TokenAt(toks, i + 1);
    if dot.text != "." then Err
    else
      var name :- IdentAt(toks, i + 2);
      var next :- TokenAt(toks, i + 3);
      if next.text == "(" then
        var (args, k) :- Args(toks, i + 4);
        Ok((Call(ns, name, args), k))
      else
        var (more, k) :- Segments(toks, i + 3);
        Ok((Path(ns, [name] + more), k))
  }

  function Segments(toks: seq<Token>, i: nat): (r: Result<(seq<string>, nat)>)
    ensures r.Ok? ==> i <= r.value.1 < |toks|
    decreases |toks| - i
  {
    var t :- TokenAt(toks, i);
    if t.text != "." then Ok(([], i))
    else
      var s :- IdentAt(toks, i + 1);
      var (rest, k) :- Segments(toks, i + 2);
      Ok(([s] + rest, k))
  }

  /** The cursor after an optional comma. */
  function SkipComma(toks: seq<Token>, i: nat): (r: Result<nat>)
    ensures r.Ok? ==> i <= r.value <= |toks|
  {
    var t :- TokenAt(toks, i);
    Ok(if t.text == "," then i + 1 else i)
  }

  /** Call arguments up to ")": any operands, of which only the literals are kept. */
  function Args(toks: seq<Token>, i: nat): (r: Result<(seq<string>, nat)>)
    ensures r.Ok? ==> i < r.value.1 <= |toks|
    decreases |toks| - i, 2
  {
    var t :- TokenAt(toks, i);
    if t.text == ")" then Ok(([], i + 1))
    else
      var (e, k) :- Operand(toks, i);
      var next :- SkipComma(toks, k);
      var (rest, m) :- Args(toks, next);
      Ok((Kept(e) + rest, m))
  }

  function Kept(e: Expr): seq<string> {
    if e.Literal? then [e.text] else []
  }

  /** List items up to "]": literals only. */
  function Items(toks: seq<Token>, i: nat): (r: Result<(seq<string>, nat)>)
    ensures r.Ok? ==> i < r.value.1 <= |toks|
    decreases |toks| - i
  {
    var t :- TokenAt(toks, i);
    if t.text == "]" then Ok(([], i + 1))
    else
      var (e, k) :- Operand(toks, i);
      if !e.Literal? then Err
      else
        var next :- SkipComma(toks, k);
        var (rest, m) :- Items(toks, next);
        Ok(([e.text] + rest, m))
  }

  function Cmp(toks: seq<Token>, i: nat): (r: Result<(Expr, nat)>)
    ensures r.Ok? ==> i < r.value.1 <= |toks|
  {
    var (left, k) :- Operand(toks, i);
    var t :- TokenAt(toks, k);
    if t == Token(Ident, "in") then
      var _ :- PunctAt(toks, k + 1, "[");
      var (items, m) :- Items(toks, k + 2);
      Ok((In(left, items), m))
    else if t.kind == Punct && IsCompareOp(t.text) then
      var (right, m) :- Operand(toks, k + 1);
      Ok((Compare(left, t.text, right), m))
    else
      Ok((left, k))
  }

  /** The rest of an and-chain whose first part is `left`. */
  function AndRest(toks: seq<Token>, i: nat, left: Expr): (r: Result<(Expr, nat)>)
    ensures r.Ok? ==> i <= r.value.1 < |toks|
    decreases |toks| - i
  {
    var t :- TokenAt(toks, i);
    if t.text != "and" then Ok((left, i))
    else
      var (right, k) :- Cmp(toks, i + 1);
      AndRest(toks, k, And(left, right))
  }

  function AndChain(toks: seq<Token>, i: nat): (r: Result<(Expr, nat)>)
    ensures r.Ok? ==> i < r.value.1 < |toks|
  {
    var (left, k) :- Cmp(toks, i);
    AndRest(toks, k, left)
  }

  /** The rest of an or-chain whose first part is `left`. */
  function OrRest(toks: seq<Token>, i: nat, left: Expr): (r: Result<(Expr, nat)>)
    ensures r.Ok? ==> i <= r.value.1 < |toks|
    decreases |toks| - i
  {
    var t :- TokenAt(toks, i);
    if t.text != "or" then Ok((left, i))
    else
      var (right, k) :- AndChain(toks, i + 1);
      OrRest(toks, k, Or(left, right))
  }

  function OrChain(toks: seq<Token>, i: nat): (r: Result<(Expr, nat)>)
    ensures r.Ok? ==> i < r.value.1 < |toks|
  {
    var (left, k) :- AndChain(toks, i);
    OrRest(toks, k, left)
  }

  // Clauses

  datatype Clause =
    | RequireClause(gate: Expr)
    | PreferClause(prefer: Prefer)
    | OptimizeClause(optimize: Optimize)
    | FallbackClause(fallback: Fallback)
    | SwitchClause(switch: Switch)

  /** What a clause does to the policy: gates and preferences add up, the others overwrite. */
  function Apply(p: Policy, c: Clause): Policy {
    match c
    case RequireClause(e) => p.(gates := p.gates + [e])
    case PreferClause(f) => p.(prefers := p.prefers + [f])
    case OptimizeClause(o) => p.(optimize := Some(o))
    case FallbackClause(f) => p.(fallback := Some(f))
    case SwitchClause(s) => p.(switch := Some(s))
  }

  predicate IsLexStop(t: Token) {
    || t.kind == EOF || t.text == "}" || t.text == "fallback"
    || t.text == "switch" || t.text == "require" || t.text == "prefer"
  }

  /** The dimensions of a lexicographic clause: every token up to a stop word. */
  function Order(toks: seq<Token>, i: nat): (r: Result<(seq<string>, nat)>)
    ensures r.Ok? ==> i <= r.value.1 < |toks|
    decreases |toks| - i
  {
    var t :- TokenAt(toks, i);
    if IsLexStop(t) then Ok(([], i))
    else
      var (rest, k) :- Order(toks, i + 1);
      Ok(([IdentText(t)] + rest, k))
  }

  /** Dimension and weight pairs for as long as a dimension name is next. */
  function DimWeights(toks: seq<Token>, i: nat, weights: map<string, real>): (r: Result<(map<string, real>, nat)>)
    ensures r.Ok? ==> i <= r.value.1 < |toks|
    decreases |toks| - i
  {
    var t :- TokenAt(toks, i);
    if !IsDim(t.text) then Ok((weights, i))
    else
      var w :- NumberAt(toks, i + 1);
      DimWeights(toks, i + 2, weights[IdentText(t) := w])
  }

  function OptimizeAt(toks: seq<Token>, i: nat): (r: Result<(Optimize, nat)>)
    ensures r.Ok? ==> i < r.value.1 < |toks|
  {
    var t :- TokenAt(toks, i);
    var first := IdentText(t);
    if first == "lexicographic" then
      var (order, k) :- Order(toks, i + 1);
      Ok((Optimize(true, map[], order), k))
    else
      var w :- NumberAt(toks, i + 1);
      var (weights, k) :- DimWeights(toks, i + 2, map[first := w]);
      Ok((Optimize(false, weights, []), k))
  }

  /** An optional word followed by an integer; 0 when the word is not next. */
  function OptionalInteger(toks: seq<Token>, i: nat, word: string): (r: Result<(int, nat)>)
    ensures r.Ok? ==> i <= r.value.1 <= |toks|
  {
    var t :- TokenAt(toks, i);
    if t.text != word then Ok((0, i))
    else
      var n :- IntegerAt(toks, i + 1);
      Ok((n, i + 2))
  }

  /** One clause, keyword included. */
  function ClauseAt(toks: seq<Token>, i: nat): (r: Result<(Clause, nat)>)
    ensures r.Ok? ==> i < r.value.1 <= |toks|
  {
    var kw :- IdentAt(toks, i);
    if kw == "require" then
      var (e, k) :- OrChain(toks, i + 1);
      if e.Compare? || e.In? then Ok((RequireClause(e), k)) else Err
    else if kw == "prefer" then
      var feature :- IdentAt(toks, i + 1);
      var _ :- IdentAt(toks, i + 2);
      var w :- NumberAt(toks, i + 3);
      Ok((PreferClause(Prefer(feature, w)), i + 4))
    else if kw == "optimize" then
      var (o, k) :- OptimizeAt(toks, i + 1);
      Ok((OptimizeClause(o), k))
    else if kw == "fallback" then
      var cls :- IdentAt(toks, i + 1);
      var (n, k) :- OptionalInteger(toks, i + 2, "max_attempts");
      Ok((FallbackClause(Fallback(cls, n)), k))
    else if kw == "switch" then
      var _ :- IdentAt(toks, i + 1);
      var _ :- IdentAt(toks, i + 2);
      var _ :- PunctAt(toks, i + 3, ">=");
      var gain :- NumberAt(toks, i + 4);
      var (n, k) :- OptionalInteger(toks, i + 5, "min_hold_seconds");
      Ok((SwitchClause(Switch(gain, n)), k))
    else
      Err
  }

  /** Clauses up to a token that is the end marker or spells "}". */
  function Body(toks: seq<Token>, i: nat, p: Policy): (r: Result<(Policy, nat)>)
    ensures r.Ok? ==> i <= r.value.1 < |toks|
    decreases |toks| - i
  {
    var t :- TokenAt(toks, i);
    if t.kind == EOF || t.text == "}" then Ok((p, i))
    else
      var (c, k) :- ClauseAt(toks, i);
      Body(toks, k, Apply(p, c))
  }

  /** A whole policy; tokens after its closing brace are not looked at. */
  function PolicyAt(toks: seq<Token>): (r: Result<(Policy, nat)>)
    ensures r.Ok? ==> r.value.1 <= |toks|
  {
    var _ :- IdentAt(toks, 0);
    var name :- IdentAt(toks, 1);
    var _ :- PunctAt(toks, 2, "{");
    var (p, k) :- Body(toks, 3, EmptyPolicy(name));
    var _ :- PunctAt(toks, k, "}");
    Ok((p, k + 1))
  }

  /** Parse of a whole source: lex everything, then parse from the first token. */
  function ParseSource(src: string): Result<Policy> {
    var ls :- Lexing.LexFrom(src, 0);
    var (p, _) :- PolicyAt(Bare(ls));
    Ok(p)
  }
}

/** The abstract syntax of routing policies. */
module PolicyAst {
  import opened Outcomes

  datatype LiteralKind = StringLiteral | NumberLiteral | BooleanLiteral

  /** `In` and `Call` keep only the texts of their literals, not the literal kinds. */
  datatype Expr =
    | Path(ns: string, segments: seq<string>)
    | Call(ns: string, name: string, args: seq<string>)
    | Literal(kind: LiteralKind, text: string)
    | In(operand: Expr, items: seq<string>)
    | Compare(left: Expr, op: string, right: Expr)
    | Not(inner: Expr)
    | And(left: Expr, right: Expr)
    | Or(left: Expr, right: Expr)

  datatype Prefer = Prefer(feature: string, weight: real)

  datatype Optimize = Optimize(lexicographic: bool, weights: map<string, real>, order: seq<string>)

  datatype Fallback = Fallback(cls: string, maxAttempts: int)

  datatype Switch = Switch(minGain: real, minHoldSeconds: int)

  datatype Policy = Policy(
    name: string,
    gates: seq<Expr>,
    prefers: seq<Prefer>,
    optimize: Option<Optimize>,
    fallback: Option<Fallback>,
    switch: Option<Switch>)

  /** The policy a parse starts from, before any clause. */
  function EmptyPolicy(name: string): Policy {
    Policy(name, [], [], None, None, None)
  }

  predicate IsDim(s: string) {
    || s == "quality" || s == "latency" || s == "tcos"
    || s == "reliability" || s == "energy" || s == "capacity"
  }

  predicate IsCompareOp(s: string) {
    s == "==" || s == "!=" || s == ">=" || s == "<=" || s == ">" || s == "<"
  }
}

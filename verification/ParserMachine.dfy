/** The parser as the Go code runs it: a token list and a cursor that every read advances,
    slices and a weight map that loops fill. Each method computes what its function in
    `Parsing` says and leaves the cursor where that function says. */
module ParserMachine {
  import opened Outcomes
  import opened PolicyAst
  import opened Decimals
  import opened Tokens
  import opened Parsing
  import LexerMachine

  /** Result and cursor agree with the function value `f`. */
  ghost predicate Matches<T>(r: Result<T>, pos: nat, f: Result<(T, nat)>) {
    match f
    case Ok((v, k)) => r == Ok(v) && pos == k
    case Err => r == Err
    case Crash => r == Crash
  }

  /** A loop that has collected `done` and still has `rest` to read computes `whole`. */
  ghost predicate Extends<T>(done: seq<T>, rest: Result<(seq<T>, nat)>, whole: Result<(seq<T>, nat)>) {
    match rest
    case Ok((v, k)) => whole.Ok? && whole.value.0 == done + v && whole.value.1 == k
    case Err => whole == Err
    case Crash => whole == Crash
  }

  /** One turn of a collecting loop: what it has just read moves from `rest` to `done`. */
  lemma {:induction false} Collect<T>(done: seq<T>, x: seq<T>, rest: Result<(seq<T>, nat)>, whole: Result<(seq<T>,
                                      nat)>)
    requires match rest
             case Ok((v, k)) => whole.Ok? && whole.value.0 == done + (x + v) && whole.value.1 == k
             case Err => whole == Err
             case Crash => whole == Crash
    ensures Extends(done + x, rest, whole)
  {
    if rest.Ok? {
      assert done + (x + rest.value.0) == done + x + rest.value.0;
    }
  }

  class Parser {
    const toks: seq<Token>
    var pos: nat

    constructor (tokens: seq<Token>)
      ensures toks == tokens && pos == 0
    {
      toks := tokens;
      pos := 0;
    }

    method Peek() returns (r: Result<Token>)
      ensures r == TokenAt(toks, pos)
    {
      r := if pos < |toks| then Ok(toks[pos]) else Crash;
    }

    method Take() returns (r: Result<Token>)
      modifies this
      ensures r == TokenAt(toks, old(pos))
      ensures pos == if r.Ok? then old(pos) + 1 else old(pos)
    {
      if pos >= |toks| {
        return Crash;
      }
      r := Ok(toks[pos]);
      pos := pos + 1;
    }

    method ExpectPunct(s: string) returns (r: Result<()>)
      modifies this
      ensures r == PunctAt(toks, old(pos), s)
      ensures r.Ok? ==> pos == old(pos) + 1
    {
      var t :- Take();
      if t.kind != Punct || t.text != s {
        return Err;
      }
      r := Ok(());
    }

    /** Takes a token even when it is not an identifier; some callers ignore that error. */
    method ExpectIdent() returns (r: Result<Token>)
      modifies this
      ensures r == (match TokenAt(toks, old(pos)) case Ok(t) => if t.kind == Ident then Ok(t) else Err
              case Err => Err case Crash => Crash)
      ensures old(pos) < |toks| ==> pos == old(pos) + 1
    {
      var t :- Take();
      if t.kind != Ident {
        return Err;
      }
      r := Ok(t);
    }

    method ParseNumber() returns (r: Result<real>)
      modifies this
      ensures r == NumberAt(toks, old(pos))
      ensures r.Ok? ==> pos == old(pos) + 1
    {
      var t :- Take();
      if t.kind != Number {
        return Err;
      }
      match ParseFloat(t.text) {
        case Some(v) => r := Ok(v);
        case None => r := Err;
      }
    }

    method ParseInteger() returns (r: Result<int>)
      modifies this
      ensures r == IntegerAt(toks, old(pos))
      ensures r.Ok? ==> pos == old(pos) + 1
    {
      var t :- Take();
      if t.kind != Number {
        return Err;
      }
      match ParseFloat(t.text) {
        case Some(v) => r := Ok(v.Floor);
        case None => r := Err;
      }
    }

    method ParseOperand() returns (r: Result<Expr>)
      modifies this
      ensures Matches(r, pos, Operand(toks, old(pos)))
      decreases |toks| - pos, 1
    {
      var t :- Take();
      match t.kind {
        case String => return Ok(Literal(StringLiteral, t.text));
        case Number => return Ok(Literal(NumberLiteral, t.text));
        case Ident =>
          if t.text == "true" || t.text == "false" {
            return Ok(Literal(BooleanLiteral, t.text));
          } else if t.text == "not" {
            var inner :- ParseOperand();
            return Ok(Not(inner));
          } else {
            r := ParseDotted(t.text);
          }
        case _ => return Err;
      }
    }

    /** The part of an operand after its namespace `ns`, which the cursor has just passed. */
    method ParseDotted(ns: string) returns (r: Result<Expr>)
      requires 0 < pos <= |toks|
      modifies this
      ensures Matches(r, pos, Dotted(toks, old(pos) - 1, ns))
      decreases |toks| - pos, 2
    {
      var next :- Peek();
      if next.text != "." {
        return Err;
      }
      var _ := Take();
      var name :- ExpectIdent();
      var open :- Peek();
      if open.text == "(" {
        var _ := Take();
        var args :- ParseArgs();
        return Ok(Call(ns, name.text, args));
      }
      var segs :- ParseSegments(name.text);
      r := Ok(Path(ns, segs));
    }

    /** The segments of a path after its first one. */
    method ParseSegments(first: string) returns (r: Result<seq<string>>)
      modifies this
      ensures match Segments(toks, old(pos))
              case Ok((v, k)) => r.Ok? && r.value == [first] + v && pos == k
              case Err => r == Err
              case Crash => r == Crash
      decreases |toks| - pos, 0
    {
      var segs := [first];
      ghost var more := [];
      while true
        invariant segs == [first] + more
        invariant Extends(more, Segments(toks, pos), Segments(toks, old(pos)))
        decreases |toks| - pos
      {
        var t :- Peek();
        if t.text != "." {
          break;
        }
        var _ := Take();
        var s :- ExpectIdent();
        Collect(more, [s.text], Segments(toks, pos), Segments(toks, old(pos)));
        segs := segs + [s.text];
        more := more + [s.text];
      }
      r := Ok(segs);
    }

    method ParseArgs() returns (r: Result<seq<string>>)
      modifies this
      ensures Matches(r, pos, Args(toks, old(pos)))
      decreases |toks| - pos, 2
    {
      hide Operand, Dotted;
      var args := [];
      while true
        invariant old(pos) <= pos
        invariant Extends(args, Args(toks, pos), Args(toks, old(pos)))
        decreases |toks| - pos
      {
        var t :- Peek();
        if t.text == ")" {
          break;
        }
        var lit :- ParseOperand();
        ghost var done := args;
        if lit.Literal? {
          args := args + [lit.text];
        }
        var sep :- Peek();
        if sep.text == "," {
          var _ := Take();
        }
        assert args == done + Kept(lit);
        Collect(done, Kept(lit), Args(toks, pos), Args(toks, old(pos)));
      }
      var _ := Take();
      assert args + [] == args;
      r := Ok(args);
    }

    method ParseItems() returns (r: Result<seq<string>>)
      modifies this
      ensures Matches(r, pos, Items(toks, old(pos)))
    {
      hide Operand;
      var items := [];
      while true
        invariant old(pos) <= pos
        invariant Extends(items, Items(toks, pos), Items(toks, old(pos)))
        decreases |toks| - pos
      {
        var t :- Peek();
        if t.text == "]" {
          break;
        }
        var lit :- ParseOperand();
        if !lit.Literal? {
          return Err;
        }
        ghost var done := items;
        items := items + [lit.text];
        var sep :- Peek();
        if sep.text == "," {
          var _ := Take();
        }
        Collect(done, [lit.text], Items(toks, pos), Items(toks, old(pos)));
      }
      var _ := Take();
      assert items + [] == items;
      r := Ok(items);
    }

    method ParseCmp() returns (r: Result<Expr>)
      modifies this
      ensures Matches(r, pos, Cmp(toks, old(pos)))
    {
      var left :- ParseOperand();
      var t :- Peek();
      if t.kind == Ident && t.text == "in" {
        var _ := Take();
        var _ :- ExpectPunct("[");
        var items :- ParseItems();
        return Ok(In(left, items));
      }
      if t.kind == Punct && IsCompareOp(t.text) {
        var _ := Take();
        var right :- ParseOperand();
        return Ok(Compare(left, t.text, right));
      }
      r := Ok(left);
    }

    method ParseAnd() returns (r: Result<Expr>)
      modifies this
      ensures Matches(r, pos, AndChain(toks, old(pos)))
    {
      hide Cmp;
      var left :- ParseCmp();
      while true
        invariant AndRest(toks, pos, left) == AndChain(toks, old(pos))
        decreases |toks| - pos
      {
        var t :- Peek();
        if t.text != "and" {
          break;
        }
        var _ := Take();
        var right :- ParseCmp();
        left := And(left, right);
      }
      r := Ok(left);
    }

    method ParseOr() returns (r: Result<Expr>)
      modifies this
      ensures Matches(r, pos, OrChain(toks, old(pos)))
    {
      hide AndChain, AndRest, Cmp;
      var left :- ParseAnd();
      while true
        invariant OrRest(toks, pos, left) == OrChain(toks, old(pos))
        decreases |toks| - pos
      {
        var t :- Peek();
        if t.text != "or" {
          break;
        }
        var _ := Take();
        var right :- ParseAnd();
        left := Or(left, right);
      }
      r := Ok(left);
    }

    method ParseOrder() returns (r: Result<seq<string>>)
      modifies this
      ensures Matches(r, pos, Order(toks, old(pos)))
    {
      var order := [];
      while true
        invariant Extends(order, Order(toks, pos), Order(toks, old(pos)))
        decreases |toks| - pos
      {
        var next :- Peek();
        if IsLexStop(next) {
          break;
        }
        var dim := ExpectIdent();
        Collect(order, [IdentText(next)], Order(toks, pos), Order(toks, old(pos)));
        order := order + [if dim.Ok? then dim.value.text else ""];
      }
      assert order + [] == order;
      r := Ok(order);
    }

    method ParseDimWeights(first: map<string, real>) returns (r: Result<map<string, real>>)
      modifies this
      ensures Matches(r, pos, DimWeights(toks, old(pos), first))
    {
      hide IsDim, NumberAt;
      var weights := first;
      while true
        invariant DimWeights(toks, pos, weights) == DimWeights(toks, old(pos), first)
        decreases |toks| - pos
      {
        var next :- Peek();
        if !IsDim(next.text) {
          break;
        }
        var dim := ExpectIdent();
        var w :- ParseNumber();
        weights := weights[(if dim.Ok? then dim.value.text else "") := w];
      }
      r := Ok(weights);
    }

    method ParseOptimize() returns (r: Result<Optimize>)
      modifies this
      ensures Matches(r, pos, OptimizeAt(toks, old(pos)))
    {
      hide Order, DimWeights, NumberAt;
      var t := ExpectIdent();
      if t.Crash? {
        return Crash;
      }
      var first := if t.Ok? then t.value.text else "";
      if first == "lexicographic" {
        var order :- ParseOrder();
        r := Ok(Optimize(true, map[], order));
      } else {
        var w :- ParseNumber();
        var weights :- ParseDimWeights(map[first := w]);
        r := Ok(Optimize(false, weights, []));
      }
    }

    /** Takes `word` and an integer when `word` is next. */
    method ParseOptionalInteger(word: string) returns (r: Result<int>)
      modifies this
      ensures Matches(r, pos, OptionalInteger(toks, old(pos), word))
    {
      var t :- Peek();
      if t.text != word {
        return Ok(0);
      }
      var _ := Take();
      r := ParseInteger();
    }

    /** One turn of the clause loop: reads a clause and updates the policy with it. */
    method ParseClause(pol: Policy) returns (r: Result<Policy>)
      modifies this
      ensures match ClauseAt(toks, old(pos))
              case Ok((c, k)) => r == Ok(Apply(pol, c)) && pos == k
              case Err => r == Err
              case Crash => r == Crash
    {
      hide OrChain, OptimizeAt, OptionalInteger, NumberAt, PunctAt;
      var kw :- ExpectIdent();
      match kw.text {
        case "require" =>
          var expr :- ParseOr();
          if !expr.Compare? && !expr.In? {
            return Err;
          }
          return Ok(pol.(gates := pol.gates + [expr]));
        case "prefer" =>
          var feat :- ExpectIdent();
          var _ :- ExpectIdent();
          var w :- ParseNumber();
          return Ok(pol.(prefers := pol.prefers + [Prefer(feat.text, w)]));
        case "optimize" =>
          var opt :- ParseOptimize();
          return Ok(pol.(optimize := Some(opt)));
        case "fallback" =>
          var cls :- ExpectIdent();
          var n :- ParseOptionalInteger("max_attempts");
          return Ok(pol.(fallback := Some(Fallback(cls.text, n))));
        case "switch" =>
          var _ :- ExpectIdent();
          var _ :- ExpectIdent();
          var _ :- ExpectPunct(">=");
          var gain :- ParseNumber();
          var secs :- ParseOptionalInteger("min_hold_seconds");
          return Ok(pol.(switch := Some(Switch(gain, secs))));
        case _ =>
          return Err;
      }
    }

    method ParsePolicy() returns (r: Result<Policy>)
      requires pos == 0
      modifies this
      ensures Matches(r, pos, PolicyAt(toks))
    {
      hide ClauseAt, PunctAt;
      var _ :- ExpectIdent();
      var name :- ExpectIdent();
      var _ :- ExpectPunct("{");
      var pol := EmptyPolicy(name.text);
      while true
        invariant Body(toks, pos, pol) == Body(toks, 3, EmptyPolicy(name.text))
        decreases |toks| - pos
      {
        var t :- Peek();
        if t.kind == EOF || t.text == "}" {
          break;
        }
        pol :- ParseClause(pol);
      }
      var _ :- ExpectPunct("}");
      r := Ok(pol);
    }
  }

  method Parse(input: string) returns (r: Result<Policy>)
    ensures r == ParseSource(input)
  {
    var ls :- LexerMachine.Tokenize(input);
    var p := new Parser(Bare(ls));
    r := p.ParsePolicy();
  }
}

/** The implemented grammar is unambiguous: the tokens of a policy have one tree. */
module Unambiguous {
  import opened Outcomes
  import opened Tokens
  import opened Parsing
  import opened Grammar
  import opened Spans
  import opened Soundness
  import opened Completeness
  import opened Bodies

  /** Where two token lists of one length stand in the same place they are the same. */
  lemma {:induction false} AtSame(toks: seq<Token>, i: nat, a: seq<Token>, b: seq<Token>)
    requires At(toks, i, a) && At(toks, i, b) && |a| == |b|
    ensures a == b
  {
  }

  // Operands

  /** Legal operands whose trees have one shape. */
  lemma {:induction false} SameShape(a: OperandTree, b: OperandTree)
    requires OperandOk(a) && OperandOk(b) && FirstToken(a) == FirstToken(b)
    ensures a.LiteralTree? == b.LiteralTree? && a.NotTree? == b.NotTree?
  {
  }

  lemma {:induction false} SameSteps(a: seq<Step>, b: seq<Step>)
    requires StepsTokens(a) == StepsTokens(b)
    ensures a == b
  {
    if a != [] && b != [] {
      var s, t := StepsTokens(a), StepsTokens(b);
      assert s[0] == t[0] && s[1] == t[1];
      assert s[2..] == StepsTokens(a[1..]) && t[2..] == StepsTokens(b[1..]);
      SameSteps(a[1..], b[1..]);
      assert a == [a[0]] + a[1..] && b == [b[0]] + b[1..];
    }
  }

  /** The token behind the first name of a path or call, which tells the two apart. */
  lemma {:induction false} DottedPieces(toks: seq<Token>, i: nat, o: OperandTree)
    requires (o.PathTree? || o.CallTree?) && OperandOk(o) && At(toks, i, OperandTokens(o))
    requires i + |OperandTokens(o)| < |toks| && OperandEnds(o, toks[i + |OperandTokens(o)|])
    ensures i + 3 < |toks| && toks[i] == Token(Ident, o.ns) && toks[i + 1] == o.first.dot
    ensures toks[i + 2] == Token(Ident, o.first.name) && (o.CallTree? <==> toks[i + 3].text == "(")
    ensures o.CallTree? ==> toks[i + 3] == o.open && At(toks, i + 4, ArgsTokens(o.args))
    ensures o.PathTree? ==> At(toks, i + 3, StepsTokens(o.tail)) && |OperandTokens(o)| == 3 + |StepsTokens(o.tail)|
  {
    hide ArgsOk, ArgsTokens;
    match o
    case PathTree(ns, first, tail) =>
      var head := [Token(Ident, ns), first.dot, Token(Ident, first.name)];
      AtConcat(toks, i, head, StepsTokens(tail));
      assert toks[i] == head[0] && toks[i + 1] == head[1] && toks[i + 2] == head[2];
      if tail != [] {
        AtHead(toks, i + 3, StepsTokens(tail));
        assert toks[i + 3].text == ".";
      }
    case CallTree(ns, first, open, args) =>
      var head := [Token(Ident, ns), first.dot, Token(Ident, first.name), open];
      AtConcat(toks, i, head, ArgsTokens(args));
      assert toks[i] == head[0] && toks[i + 1] == head[1] && toks[i + 2] == head[2] && toks[i + 3] == head[3];
  }

  lemma {:induction false} SameOperand(toks: seq<Token>, i: nat, a: OperandTree, b: OperandTree)
    requires OperandOk(a) && OperandOk(b) && At(toks, i, OperandTokens(a)) && At(toks, i, OperandTokens(b))
    requires i + |OperandTokens(a)| < |toks| && OperandEnds(a, toks[i + |OperandTokens(a)|])
    requires i + |OperandTokens(b)| < |toks| && OperandEnds(b, toks[i + |OperandTokens(b)|])
    ensures a == b
    decreases a
  {
    hide At, Operand, OperandAst, IsLiteralToken, ArgsOk, ArgsTokens, StepsTokens;
    AtHead(toks, i, OperandTokens(a));
    AtHead(toks, i, OperandTokens(b));
    SameShape(a, b);
    if a.LiteralTree? {
    } else if a.NotTree? {
      assert OperandTokens(a)[1..] == OperandTokens(a.inner) && OperandTokens(b)[1..] == OperandTokens(b.inner);
      SameOperand(toks, i + 1, a.inner, b.inner);
    } else {
      DottedPieces(toks, i, a);
      DottedPieces(toks, i, b);
      CompleteOperand(toks, i, a);
      CompleteOperand(toks, i, b);
      if a.PathTree? {
        AtSame(toks, i + 3, StepsTokens(a.tail), StepsTokens(b.tail));
        SameSteps(a.tail, b.tail);
      } else {
        SameArgs(toks, i + 4, a.args, b.args);
      }
    }
  }

  /** Whether a comma was written shows in the token at its place. */
  lemma {:induction false} SameComma(toks: seq<Token>, i: nat, a: Option<Token>, b: Option<Token>, afterA: Token,
                                     afterB: Token)
    requires i < |toks| && toks[i] == AfterArg(a, afterA) && toks[i] == AfterArg(b, afterB)
    requires CommaOk(a, afterA) && CommaOk(b, afterB)
    ensures a == b
  {
  }

  lemma {:induction false} SameArgs(toks: seq<Token>, i: nat, a: ArgsTree, b: ArgsTree)
    requires ArgsOk(a) && ArgsOk(b) && At(toks, i, ArgsTokens(a)) && At(toks, i, ArgsTokens(b))
    ensures a == b
    decreases a
  {
    hide At, OperandOk, OperandEnds, OperandTokens, CommaOk, ArgsTokens, AfterArg;
    AtHead(toks, i, ArgsTokens(a));
    AtHead(toks, i, ArgsTokens(b));
    if a.MoreArgs? {
      ArgPieces(toks, i, a);
      ArgPieces(toks, i, b);
      var n, m := i + |OperandTokens(a.arg)|, i + |OperandTokens(b.arg)|;
      CompleteComma(toks, n, a.comma, FirstOfArgs(a.rest));
      CompleteComma(toks, m, b.comma, FirstOfArgs(b.rest));
      SameOperand(toks, i, a.arg, b.arg);
      SameComma(toks, n, a.comma, b.comma, FirstOfArgs(a.rest), FirstOfArgs(b.rest));
      SameArgs(toks, n + |OptionTokens(a.comma)|, a.rest, b.rest);
    }
  }

  // Comparisons

  lemma {:induction false} SameItems(toks: seq<Token>, i: nat, a: ItemsTree, b: ItemsTree)
    requires ItemsOk(a) && ItemsOk(b) && At(toks, i, ItemsTokens(a)) && At(toks, i, ItemsTokens(b))
    ensures a == b
    decreases a
  {
    hide At, IsLiteralToken, CommaOk, ItemsTokens, AfterArg;
    AtHead(toks, i, ItemsTokens(a));
    AtHead(toks, i, ItemsTokens(b));
    if a.MoreItems? {
      ItemPieces(toks, i, a);
      ItemPieces(toks, i, b);
      CompleteComma(toks, i + 1, a.comma, FirstOfItems(a.rest));
      CompleteComma(toks, i + 1, b.comma, FirstOfItems(b.rest));
      SameComma(toks, i + 1, a.comma, b.comma, FirstOfItems(a.rest), FirstOfItems(b.rest));
      SameItems(toks, i + 1 + |OptionTokens(a.comma)|, a.rest, b.rest);
    }
  }

  function LeftOf(c: CmpTree): OperandTree {
    match c case BareTree(o) => o case InTree(o, _) => o case CompareTree(l, _, _) => l
  }

  /** The left operand of a comparison or list test, and the token behind it. */
  lemma {:induction false} CmpPieces(toks: seq<Token>, i: nat, c: CmpTree)
    requires !c.BareTree? && CmpOk(c) && At(toks, i, CmpTokens(c))
    ensures var n := i + |OperandTokens(LeftOf(c))|;
            && At(toks, i, OperandTokens(LeftOf(c))) && OperandOk(LeftOf(c))
            && n < |toks| && OperandEnds(LeftOf(c), toks[n])
            && (c.InTree? ==> toks[n] == Token(Ident, "in"))
            && (c.InTree? ==> At(toks, n + 2, ItemsTokens(c.items)) && ItemsOk(c.items))
            && (c.CompareTree? ==> toks[n] == Token(Punct, c.op))
            && (c.CompareTree? ==> At(toks, n + 1, OperandTokens(c.right)) && OperandOk(c.right))
            && (c.CompareTree? ==> i + |CmpTokens(c)| == n + 1 + |OperandTokens(c.right)|)
  {
    hide At, OperandOk, OperandTokens, OperandEnds, ItemsOk, ItemsTokens;
    var n := i + |OperandTokens(LeftOf(c))|;
    if c.InTree? {
      InPieces(toks, i, c);
    } else {
      AtConcat(toks, i, OperandTokens(c.left), [Token(Punct, c.op)] + OperandTokens(c.right));
      AtCons(toks, n, Token(Punct, c.op), OperandTokens(c.right));
    }
    OperatorEnds(LeftOf(c), toks[n]);
  }

  lemma {:induction false} SameCmp(toks: seq<Token>, i: nat, a: CmpTree, b: CmpTree)
    requires !a.BareTree? && !b.BareTree? && CmpOk(a) && CmpOk(b) && At(toks, i, CmpTokens(a))
             && At(toks, i, CmpTokens(b))
    requires i + |CmpTokens(a)| < |toks| && CmpEnds(a, toks[i + |CmpTokens(a)|])
    requires i + |CmpTokens(b)| < |toks| && CmpEnds(b, toks[i + |CmpTokens(b)|])
    ensures a == b
  {
    hide At, CmpOk, CmpTokens, OperandOk, OperandTokens, OperandEnds, ItemsOk, ItemsTokens;
    CmpPieces(toks, i, a);
    CmpPieces(toks, i, b);
    SameOperand(toks, i, LeftOf(a), LeftOf(b));
    var n := i + |OperandTokens(LeftOf(a))|;
    if a.InTree? {
      SameItems(toks, n + 2, a.items, b.items);
    } else {
      SameOperand(toks, n + 1, a.right, b.right);
    }
  }

  // Clauses

  lemma {:induction false} SamePairs(a: seq<Pair>, b: seq<Pair>)
    requires PairsTokens(a) == PairsTokens(b)
    ensures a == b
  {
    if a != [] && b != [] {
      var s, t := PairsTokens(a), PairsTokens(b);
      assert s[0] == t[0] && s[1] == t[1];
      assert s[2..] == PairsTokens(a[1..]) && t[2..] == PairsTokens(b[1..]);
      SamePairs(a[1..], b[1..]);
      assert a == [a[0]] + a[1..] && b == [b[0]] + b[1..];
    }
  }

  lemma {:induction false} SameLimit(a: Option<Limit>, b: Option<Limit>)
    requires LimitTokens(a) == LimitTokens(b)
    ensures a == b
  {
    if a.Some? && b.Some? {
      assert LimitTokens(a)[0] == LimitTokens(b)[0] && LimitTokens(a)[1] == LimitTokens(b)[1];
    }
  }

  lemma {:induction false} SameKeyword(a: ClauseTree, b: ClauseTree)
    requires Keyword(a) == Keyword(b)
    ensures a.RequireTree? == b.RequireTree? && a.PreferTree? == b.PreferTree? && a.FallbackTree? == b.FallbackTree?
    ensures a.SwitchTree? == b.SwitchTree?
  {
  }

  /** Clauses other than require are told by their tokens alone. */
  lemma {:induction false} SameTail(a: ClauseTree, b: ClauseTree)
    requires Keyword(a) == Keyword(b) && ClauseTail(a) == ClauseTail(b) && ClauseOk(a) && ClauseOk(b) && !a.RequireTree?
    ensures a == b
  {
    hide IsWeight, IsLexStop, PairsTokens, PairsOk, LimitOk, LimitTokens;
    SameKeyword(a, b);
    var s, t := ClauseTail(a), ClauseTail(b);
    match a
    case PreferTree(f, w, n) =>
      assert s[0] == t[0] && s[1] == t[1] && s[2] == t[2];
    case LexTree(dims) =>
      LexOrWeighted(a, b);
      assert dims == s[1..] && b.dims == t[1..];
    case WeightedTree(first, more) =>
      LexOrWeighted(a, b);
      SamePairs([first] + more, [b.first] + b.more);
      assert [first] + more == [b.first] + b.more;
      assert ([first] + more)[0] == ([b.first] + b.more)[0] && ([first] + more)[1..] == ([b.first] + b.more)[1..];
      assert ([first] + more)[1..] == more && ([b.first] + b.more)[1..] == b.more;
    case FallbackTree(cls, limit) =>
      assert s[0] == t[0] && s[1..] == LimitTokens(limit) && t[1..] == LimitTokens(b.limit);
      SameLimit(limit, b.limit);
    case SwitchTree(w1, w2, g, limit) =>
      assert s[0] == t[0] && s[1] == t[1] && s[3] == t[3];
      assert s[4..] == LimitTokens(limit) && t[4..] == LimitTokens(b.limit);
      SameLimit(limit, b.limit);
  }

  lemma {:induction false} LexOrWeighted(a: ClauseTree, b: ClauseTree)
    requires Keyword(a) == Keyword(b) == "optimize" && ClauseTail(a) == ClauseTail(b) && ClauseOk(a) && ClauseOk(b)
    ensures a.LexTree? == b.LexTree? && a.WeightedTree? == b.WeightedTree?
  {
    hide IsWeight, IsLexStop, PairsOk;
    assert ClauseTail(a) != [] && ClauseTail(a)[0] == ClauseTail(b)[0];
  }

  lemma {:induction false} SameClause(toks: seq<Token>, i: nat, a: ClauseTree, b: ClauseTree)
    requires ClauseOk(a) && ClauseOk(b) && At(toks, i, ClauseTokens(a)) && At(toks, i, ClauseTokens(b))
    requires i + |ClauseTokens(a)| < |toks| && ClauseEnds(a, toks[i + |ClauseTokens(a)|])
    requires i + |ClauseTokens(b)| < |toks| && ClauseEnds(b, toks[i + |ClauseTokens(b)|])
    ensures a == b
  {
    hide At, ClauseTail, CmpOk, CmpEnds, Keyword, ClauseAt, ClauseAst;
    CompleteClause(toks, i, a);
    CompleteClause(toks, i, b);
    AtSame(toks, i, ClauseTokens(a), ClauseTokens(b));
    assert ClauseTokens(a)[0] == ClauseTokens(b)[0];
    assert ClauseTokens(a)[1..] == ClauseTail(a) && ClauseTokens(b)[1..] == ClauseTail(b);
    if a.RequireTree? {
      SameKeyword(a, b);
      RequireTail(a);
      RequireTail(b);
      AtCons(toks, i, Token(Ident, Keyword(a)), ClauseTail(a));
      SameCmp(toks, i + 1, a.cmp, b.cmp);
    } else {
      SameTail(a, b);
    }
  }

  lemma {:induction false} RequireTail(c: ClauseTree)
    requires c.RequireTree?
    ensures ClauseTail(c) == CmpTokens(c.cmp)
  {
  }

  // Bodies

  lemma {:induction false} FirstEnds(toks: seq<Token>, i: nat, cs: seq<ClauseTree>)
    requires cs != [] && BodyOk(cs) && At(toks, i, BodyTokens(cs))
    requires i + |BodyTokens(cs)| < |toks| && toks[i + |BodyTokens(cs)|] == CLOSE
    ensures var n := i + |ClauseTokens(cs[0])|;
            && ClauseOk(cs[0]) && BodyOk(cs[1..]) && At(toks, i, ClauseTokens(cs[0]))
                && At(toks, n, BodyTokens(cs[1..]))
            && n < |toks| && ClauseEnds(cs[0], toks[n]) && n + |BodyTokens(cs[1..])| == i + |BodyTokens(cs)|
  {
    hide At, ClauseOk, ClauseTokens, ClauseEnds;
    AtConcat(toks, i, ClauseTokens(cs[0]), BodyTokens(cs[1..]));
    NextBoundary(toks, i + |ClauseTokens(cs[0])|, cs);
    BoundaryEnds(cs[0], toks[i + |ClauseTokens(cs[0])|]);
  }

  lemma {:induction false} NoEmptyClause(c: ClauseTree, cs: seq<ClauseTree>)
    ensures BodyTokens([c] + cs) != []
  {
    hide ClauseTail;
    TokensCons(c, cs);
  }

  lemma {:induction false} SameBodies(toks: seq<Token>, i: nat, a: seq<ClauseTree>, b: seq<ClauseTree>)
    requires BodyOk(a) && BodyOk(b) && At(toks, i, BodyTokens(a)) && BodyTokens(a) == BodyTokens(b)
    requires i + |BodyTokens(a)| < |toks| && toks[i + |BodyTokens(a)|] == CLOSE
    ensures a == b
    decreases |a|
  {
    hide At, BodyOk, BodyTokens, ClauseOk, ClauseTokens, ClauseEnds;
    NoTokens();
    if a == [] || b == [] {
      if a != [] {
        assert a == [a[0]] + a[1..];
        NoEmptyClause(a[0], a[1..]);
      }
      if b != [] {
        assert b == [b[0]] + b[1..];
        NoEmptyClause(b[0], b[1..]);
      }
    } else {
      FirstEnds(toks, i, a);
      FirstEnds(toks, i, b);
      SameClause(toks, i, a[0], b[0]);
      AtSame(toks, i + |ClauseTokens(a[0])|, BodyTokens(a[1..]), BodyTokens(b[1..]));
      SameBodies(toks, i + |ClauseTokens(a[0])|, a[1..], b[1..]);
      assert a == [a[0]] + a[1..] && b == [b[0]] + b[1..];
    }
  }

  /** A complete body is spelled by one list of clauses. */
  lemma {:induction false} OneBodyTree(ts: seq<Token>, a: seq<ClauseTree>, b: seq<ClauseTree>)
    requires BodyTree(a, ts) && BodyTree(b, ts)
    ensures a == b
  {
    hide BodyOk, BodyTokens;
    var toks := ts + [CLOSE];
    assert toks[0..|ts|] == ts;
    SameBodies(toks, 0, a, b);
  }

  /** Unambiguous: the tokens of a policy are spelled by one legal tree. */
  lemma {:induction false} OneTree(a: PolicyTree, b: PolicyTree)
    requires BodyOk(a.clauses) && BodyOk(b.clauses) && PolicyTokens(a) == PolicyTokens(b)
    ensures a == b
  {
    hide BodyOk, BodyTokens;
    var s, t := PolicyTokens(a), PolicyTokens(b);
    assert s[0] == t[0] && s[1] == t[1];
    assert s[3..] == BodyTokens(a.clauses) + [CLOSE] && t[3..] == BodyTokens(b.clauses) + [CLOSE];
    assert BodyTokens(a.clauses) == s[3..][..|s| - 4] && BodyTokens(b.clauses) == t[3..][..|t| - 4];
    OneBodyTree(BodyTokens(a.clauses), a.clauses, b.clauses);
  }
}

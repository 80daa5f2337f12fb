/** Where the parser reads past its tokens: on a list whose only end marker is the last token
    it does so exactly when an `optimize` keyword stands directly before that marker. */
module Safety {
  import opened Outcomes
  import opened PolicyAst
  import opened Tokens
  import opened Parsing
  import Layout
  import Lexing
  import opened Grammar
  import opened Spans
  import opened Soundness
  import opened Completeness

  /** What the lexer hands over (see Lexing.LexedShape). */
  predicate EndsInEof(toks: seq<Token>) {
    && toks != [] && toks[|toks| - 1] == EOF_TOKEN
    && forall k | 0 <= k < |toks| - 1 :: toks[k].kind != EOF
  }

  /** No crash, and on success there is still a token to look at. */
  predicate Inside<T>(toks: seq<Token>, r: Result<(T, nat)>) {
    !r.Crash? && (r.Ok? ==> r.value.1 < |toks|)
  }

  lemma {:induction false} SafeSegments(toks: seq<Token>, i: nat)
    requires EndsInEof(toks) && i < |toks|
    ensures Inside(toks, Segments(toks, i))
    decreases |toks| - i
  {
    if toks[i].text == "." && toks[i + 1].kind == Ident {
      SafeSegments(toks, i + 2);
    }
  }

  lemma {:induction false} SafeComma(toks: seq<Token>, i: nat)
    requires EndsInEof(toks) && i < |toks|
    ensures SkipComma(toks, i).Ok? && SkipComma(toks, i).value < |toks|
  {
  }

  lemma {:induction false} SafeOperand(toks: seq<Token>, i: nat)
    requires EndsInEof(toks) && i < |toks|
    ensures Inside(toks, Operand(toks, i))
    decreases |toks| - i, 1
  {
    if toks[i].kind == Ident {
      if toks[i].text == "not" {
        SafeOperand(toks, i + 1);
      } else if !IsBoolean(toks[i].text) {
        SafeDotted(toks, i);
      }
    }
  }

  lemma {:induction false} SafeDotted(toks: seq<Token>, i: nat)
    requires EndsInEof(toks) && i < |toks| && toks[i].kind == Ident
    ensures Inside(toks, Dotted(toks, i, toks[i].text))
    decreases |toks| - i, 0
  {
    hide Args, Segments, Operand;
    if toks[i + 1].text == "." && toks[i + 2].kind == Ident {
      if toks[i + 3].text == "(" {
        SafeArgs(toks, i + 4);
      } else {
        SafeSegments(toks, i + 3);
      }
    }
  }

  lemma {:induction false} SafeArgs(toks: seq<Token>, i: nat)
    requires EndsInEof(toks) && i < |toks|
    ensures Inside(toks, Args(toks, i))
    decreases |toks| - i, 2
  {
    hide Operand, SkipComma, Kept;
    if toks[i].text != ")" {
      SafeOperand(toks, i);
      if Operand(toks, i).Ok? {
        var k := Operand(toks, i).value.1;
        SafeComma(toks, k);
        SafeArgs(toks, SkipComma(toks, k).value);
      }
    }
  }

  lemma {:induction false} SafeItems(toks: seq<Token>, i: nat)
    requires EndsInEof(toks) && i < |toks|
    ensures Inside(toks, Items(toks, i))
    decreases |toks| - i
  {
    hide Operand, SkipComma;
    if toks[i].text != "]" {
      SafeOperand(toks, i);
      if Operand(toks, i).Ok? {
        var k := Operand(toks, i).value.1;
        SafeComma(toks, k);
        SafeItems(toks, SkipComma(toks, k).value);
      }
    }
  }

  lemma {:induction false} SafeCmp(toks: seq<Token>, i: nat)
    requires EndsInEof(toks) && i < |toks|
    ensures Inside(toks, Cmp(toks, i))
  {
    hide Operand, Items;
    SafeOperand(toks, i);
    if Operand(toks, i).Ok? {
      var k := Operand(toks, i).value.1;
      var t := toks[k];
      if t == Token(Ident, "in") {
        if toks[k + 1] == Token(Punct, "[") {
          SafeItems(toks, k + 2);
        }
      } else if t.kind == Punct && IsCompareOp(t.text) {
        SafeOperand(toks, k + 1);
      }
    }
  }

  lemma {:induction false} SafeAndRest(toks: seq<Token>, i: nat, left: Expr)
    requires EndsInEof(toks) && i < |toks|
    ensures Inside(toks, AndRest(toks, i, left))
    decreases |toks| - i
  {
    hide Cmp;
    if toks[i].text == "and" {
      SafeCmp(toks, i + 1);
      if Cmp(toks, i + 1).Ok? {
        var (right, k) := Cmp(toks, i + 1).value;
        SafeAndRest(toks, k, And(left, right));
      }
    }
  }

  lemma {:induction false} SafeAndChain(toks: seq<Token>, i: nat)
    requires EndsInEof(toks) && i < |toks|
    ensures Inside(toks, AndChain(toks, i))
  {
    hide Cmp, AndRest;
    SafeCmp(toks, i);
    if Cmp(toks, i).Ok? {
      SafeAndRest(toks, Cmp(toks, i).value.1, Cmp(toks, i).value.0);
    }
  }

  lemma {:induction false} SafeOrRest(toks: seq<Token>, i: nat, left: Expr)
    requires EndsInEof(toks) && i < |toks|
    ensures Inside(toks, OrRest(toks, i, left))
    decreases |toks| - i
  {
    hide AndChain;
    if toks[i].text == "or" {
      SafeAndChain(toks, i + 1);
      if AndChain(toks, i + 1).Ok? {
        var (right, k) := AndChain(toks, i + 1).value;
        SafeOrRest(toks, k, Or(left, right));
      }
    }
  }

  lemma {:induction false} SafeOrChain(toks: seq<Token>, i: nat)
    requires EndsInEof(toks) && i < |toks|
    ensures Inside(toks, OrChain(toks, i))
  {
    hide AndChain, OrRest;
    SafeAndChain(toks, i);
    if AndChain(toks, i).Ok? {
      SafeOrRest(toks, AndChain(toks, i).value.1, AndChain(toks, i).value.0);
    }
  }

  lemma {:induction false} SafeOrder(toks: seq<Token>, i: nat)
    requires EndsInEof(toks) && i < |toks|
    ensures Inside(toks, Order(toks, i))
    decreases |toks| - i
  {
    if !IsLexStop(toks[i]) {
      SafeOrder(toks, i + 1);
    }
  }

  lemma {:induction false} SafeDimWeights(toks: seq<Token>, i: nat, weights: map<string, real>)
    requires EndsInEof(toks) && i < |toks|
    ensures Inside(toks, DimWeights(toks, i, weights))
    decreases |toks| - i
  {
    if IsDim(toks[i].text) && NumberAt(toks, i + 1).Ok? {
      SafeDimWeights(toks, i + 2, weights[IdentText(toks[i]) := NumberAt(toks, i + 1).value]);
    }
  }

  /** Reading an optimize clause crashes exactly when the end marker is its first token: the
      failed identifier is ignored and the number behind it is read. */
  lemma {:induction false} OptimizeCrash(toks: seq<Token>, i: nat)
    requires EndsInEof(toks) && i < |toks|
    ensures OptimizeAt(toks, i).Crash? <==> i == |toks| - 1
    ensures i < |toks| - 1 ==> Inside(toks, OptimizeAt(toks, i))
  {
    hide Order, DimWeights;
    if i < |toks| - 1 {
      if IdentText(toks[i]) == "lexicographic" {
        SafeOrder(toks, i + 1);
      } else if NumberAt(toks, i + 1).Ok? {
        SafeDimWeights(toks, i + 2, map[IdentText(toks[i]) := NumberAt(toks, i + 1).value]);
      }
    }
  }

  lemma {:induction false} SafeOptional(toks: seq<Token>, i: nat, word: string)
    requires EndsInEof(toks) && i < |toks| && word != ""
    ensures Inside(toks, OptionalInteger(toks, i, word))
  {
  }

  predicate OptimizeBeforeEof(toks: seq<Token>, i: nat) {
    i + 2 == |toks| && toks[i] == Token(Ident, "optimize")
  }

  lemma {:induction false} ClauseCrash(toks: seq<Token>, i: nat)
    requires EndsInEof(toks) && i < |toks|
    ensures ClauseAt(toks, i).Crash? <==> OptimizeBeforeEof(toks, i)
    ensures ClauseAt(toks, i).Ok? ==> ClauseAt(toks, i).value.1 < |toks|
  {
    hide OrChain, OptimizeAt, OptionalInteger;
    if toks[i].kind == Ident {
      var kw := toks[i].text;
      if kw == "require" {
        SafeOrChain(toks, i + 1);
      } else if kw == "optimize" {
        OptimizeCrash(toks, i + 1);
      } else if kw == "fallback" && toks[i + 1].kind == Ident {
        SafeOptional(toks, i + 2, "max_attempts");
      } else if kw == "switch" && toks[i + 1].kind == Ident && toks[i + 2].kind == Ident
                && PunctAt(toks, i + 3, ">=").Ok? && NumberAt(toks, i + 4).Ok? {
        SafeOptional(toks, i + 5, "min_hold_seconds");
      }
    }
  }

  /** A crash inside a body happens behind a legal body, at an `optimize` before the end marker. */
  lemma {:induction false} BodyCrash(toks: seq<Token>, i: nat, p: Policy, prev: seq<ClauseTree>)
    returns (cs: seq<ClauseTree>)
    requires EndsInEof(toks) && i < |toks| && Body(toks, i, p).Crash?
    requires |prev| <= 1 && BodyOk(prev) && (prev != [] ==> ClauseEnds(prev[0], toks[i]))
    ensures BodyOk(prev + cs) && At(toks, i, BodyTokens(cs))
    ensures OptimizeBeforeEof(toks, i + |BodyTokens(cs)|)
    ensures prev + cs != [] ==> !(prev + cs)[|prev + cs| - 1].LexTree?
    decreases |toks| - i
  {
    hide Body, Apply, ClauseAt, ClauseOk, ClauseEnds, ClauseTokens, ClauseAst, EndsInEof;
    BodyCrashTurn(toks, i, p);
    ClauseCrash(toks, i);
    if OptimizeBeforeEof(toks, i) {
      cs := [];
      assert prev + [] == prev;
      if prev != [] {
        NotOptimizeAfterLex(prev[0], toks[i]);
      }
    } else {
      var c := SoundClause(toks, i);
      var (v, k) := ClauseAt(toks, i).value;
      assert BodyOk([c]);
      var tail := BodyCrash(toks, k, Apply(p, v), [c]);
      cs := [c] + tail;
      assert cs[1..] == tail;
      AtConcat(toks, i, ClauseTokens(c), BodyTokens(tail));
      ClauseStart(toks, i, c);
      if prev != [] {
        NotOptimizeAfterLex(prev[0], toks[i]);
      }
      JoinBodies(prev, [c] + tail);
      assert (prev + cs)[|prev + cs| - 1] == ([c] + tail)[|[c] + tail| - 1];
    }
  }

  lemma {:induction false} BodyCrashTurn(toks: seq<Token>, i: nat, p: Policy)
    requires Body(toks, i, p).Crash? && i < |toks|
    ensures toks[i].kind != EOF && toks[i].text != "}" && !ClauseAt(toks, i).Err?
    ensures ClauseAt(toks, i).Ok? ==>
              var (c, k) := ClauseAt(toks, i).value; Body(toks, k, Apply(p, c)).Crash?
  {
    hide ClauseAt, Apply;
  }

  /** The tokens after which a crash comes: a header and a legal body that does not end in a
      lexicographic clause, then `optimize`, then the end marker. */
  ghost predicate CrashShape(toks: seq<Token>) {
    exists t: PolicyTree ::
      && BodyOk(t.clauses) && (t.clauses != [] ==> !t.clauses[|t.clauses| - 1].LexTree?)
      && toks == HeaderTokens(t) + (BodyTokens(t.clauses) + [Token(Ident, "optimize"), EOF_TOKEN])
  }

  lemma {:induction false} CrashHasShape(toks: seq<Token>)
    requires EndsInEof(toks) && PolicyAt(toks).Crash?
    ensures CrashShape(toks)
  {
    hide Body, BodyOk, BodyTokens, EndsInEof, At;
    HeaderInside(toks);
    var name := toks[1].text;
    assert BodyOk([]) by { EmptyBodyOk(); }
    var cs := BodyCrash(toks, 3, EmptyPolicy(name), []);
    assert [] + cs == cs;
    var t := PolicyTree(toks[0].text, name, cs);
    ShapeOf(toks, t);
  }

  lemma {:induction false} HeaderInside(toks: seq<Token>)
    requires EndsInEof(toks) && PolicyAt(toks).Crash?
    ensures 3 < |toks| && toks[0].kind == Ident && toks[1].kind == Ident && toks[2] == Token(Punct, "{")
  {
    hide Body;
  }

  lemma {:induction false} ShapeOf(toks: seq<Token>, t: PolicyTree)
    requires EndsInEof(toks) && 3 < |toks| && toks[0] == Token(Ident, t.word) && toks[1] == Token(Ident, t.name)
    requires toks[2] == Token(Punct, "{") && At(toks, 3, BodyTokens(t.clauses))
    requires OptimizeBeforeEof(toks, 3 + |BodyTokens(t.clauses)|)
    ensures toks == HeaderTokens(t) + (BodyTokens(t.clauses) + [Token(Ident, "optimize"), EOF_TOKEN])
  {
    hide BodyTokens;
    var n := 3 + |BodyTokens(t.clauses)|;
    assert toks == toks[..3] + toks[3..n] + toks[n..];
    assert toks[..3] == HeaderTokens(t);
    assert toks[n..] == [Token(Ident, "optimize"), EOF_TOKEN];
  }

  lemma {:induction false} ShapeCrashes(toks: seq<Token>, t: PolicyTree)
    requires EndsInEof(toks) && BodyOk(t.clauses) && (t.clauses != [] ==> !t.clauses[|t.clauses| - 1].LexTree?)
    requires toks == HeaderTokens(t) + (BodyTokens(t.clauses) + [Token(Ident, "optimize"), EOF_TOKEN])
    ensures PolicyAt(toks).Crash?
  {
    hide BodyOk, BodyTokens, Body, EndsInEof, Merge, BodyAst;
    var head, tail := HeaderTokens(t), BodyTokens(t.clauses) + [Token(Ident, "optimize"), EOF_TOKEN];
    var n := 3 + |BodyTokens(t.clauses)|;
    WholeAt(toks);
    AtConcat(toks, 0, head, tail);
    AtConcat(toks, 3, BodyTokens(t.clauses), [Token(Ident, "optimize"), EOF_TOKEN]);
    TwoThen(toks, n, Token(Ident, "optimize"), EOF_TOKEN, []);
    assert toks[0] == head[0] && toks[1] == head[1] && toks[2] == head[2];
    BodyPrefix(toks, 3, EmptyPolicy(t.name), t.clauses);
    CrashHere(toks, n, Merge(EmptyPolicy(t.name), BodyAst(EmptyPolicy(t.name).name, t.clauses)));
  }

  lemma {:induction false} CrashHere(toks: seq<Token>, i: nat, p: Policy)
    requires EndsInEof(toks) && OptimizeBeforeEof(toks, i)
    ensures Body(toks, i, p).Crash?
  {
    hide ClauseAt;
    ClauseCrash(toks, i);
  }

  /** Cursor safety, exactly. */
  lemma {:induction false} CrashExactly(toks: seq<Token>)
    requires EndsInEof(toks)
    ensures PolicyAt(toks).Crash? <==> CrashShape(toks)
  {
    hide EndsInEof, PolicyAt, BodyOk, BodyTokens, HeaderTokens;
    if PolicyAt(toks).Crash? {
      CrashHasShape(toks);
    }
    if CrashShape(toks) {
      var t: PolicyTree :|
        && BodyOk(t.clauses) && (t.clauses != [] ==> !t.clauses[|t.clauses| - 1].LexTree?)
        && toks == HeaderTokens(t) + (BodyTokens(t.clauses) + [Token(Ident, "optimize"), EOF_TOKEN]);
      ShapeCrashes(toks, t);
    }
  }

  /** Parsing a source panics exactly when its tokens have that shape. */
  lemma {:induction false} ParseCrashesExactly(src: string)
    ensures ParseSource(src).Crash? <==> Lexing.LexFrom(src, 0).Ok? && CrashShape(Bare(Lexing.LexFrom(src, 0).value))
  {
    hide PolicyAt, CrashShape, Lexing.LexFrom;
    if Lexing.LexFrom(src, 0).Ok? {
      Lexing.LexedShape(src, 0);
      CrashExactly(Bare(Lexing.LexFrom(src, 0).value));
    }
  }

  /** The shortest such list: a header and the keyword. */
  lemma {:induction false} ShortestCrash(name: string)
    ensures PolicyAt([Token(Ident, "policy"), Token(Ident, name), Token(Punct, "{"), Token(Ident, "optimize"),
            EOF_TOKEN]) == Crash
  {
    hide PolicyAt;
    var toks := [Token(Ident, "policy"), Token(Ident, name), Token(Punct, "{"), Token(Ident, "optimize"), EOF_TOKEN];
    var t := PolicyTree("policy", name, []);
    assert BodyTokens(t.clauses) == [];
    assert toks == HeaderTokens(t) + (BodyTokens(t.clauses) + [Token(Ident, "optimize"), EOF_TOKEN]);
    CrashExactly(toks);
  }

  /** A source that makes `Parse` panic. */
  lemma {:induction false} PanickingSource()
    ensures ParseSource("policy p { optimize") == Crash
  {
    hide PolicyAt, Lexing.LexFrom, Layout.LayoutOk, Layout.Render;
    var ts := [Token(Ident, "policy"), Token(Ident, "p"), Token(Punct, "{"), Token(Ident, "optimize")];
    PanickingTokens(ts);
    Layout.SpacesOk(ts);
    PanickingText(ts);
    Layout.RenderLexes(ts, Layout.Spaces(4));
    ShortestCrash("p");
    assert ts + [EOF_TOKEN]
        == [Token(Ident, "policy"), Token(Ident, "p"), Token(Punct, "{"), Token(Ident, "optimize"), EOF_TOKEN];
  }

  lemma {:induction false} PanickingTokens(ts: seq<Token>)
    requires ts == [Token(Ident, "policy"), Token(Ident, "p"), Token(Punct, "{"), Token(Ident, "optimize")]
    ensures forall t | t in ts :: Layout.LegalToken(t)
  {
  }

  lemma {:induction false} PanickingText(ts: seq<Token>)
    requires ts == [Token(Ident, "policy"), Token(Ident, "p"), Token(Punct, "{"), Token(Ident, "optimize")]
    ensures Layout.Render(ts, Layout.Spaces(4)) == "policy p { optimize"
  {
    hide Layout.Render;
    assert Layout.Spaces(4) == [""] + ([" "] + ([" "] + ([" "] + [""])));
    assert ts == [ts[0]] + ([ts[1]] + ([ts[2]] + ([ts[3]] + [])));
    RenderNothing();
    RenderCons(ts[3], [], " ", [""]);
    RenderCons(ts[2], [ts[3]] + [], " ", [" "] + [""]);
    RenderCons(ts[1], [ts[2]] + ([ts[3]] + []), " ", [" "] + ([" "] + [""]));
    RenderCons(ts[0], [ts[1]] + ([ts[2]] + ([ts[3]] + [])), "", [" "] + ([" "] + ([" "] + [""])));
  }

  lemma {:induction false} RenderNothing()
    ensures Layout.Render([], [""]) == ""
  {
  }

  lemma {:induction false} RenderCons(t: Token, ts: seq<Token>, gap: string, gaps: seq<string>)
    requires |gaps| == |ts| + 1
    ensures Layout.Render([t] + ts, [gap] + gaps) == gap + Layout.Spell(t) + Layout.Render(ts, gaps)
  {
    assert ([t] + ts)[1..] == ts && ([gap] + gaps)[1..] == gaps;
  }
}

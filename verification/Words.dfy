/** The words and signs the parser knows, each by its text, and that it knows no others. */
module Words {
  import opened Outcomes
  import opened PolicyAst
  import opened Decimals
  import opened Tokens
  import opened Parsing
  import opened Spans

  /** Which tokens are literals, and of which kind. */
  lemma {:induction false} LiteralExactly(toks: seq<Token>, i: nat)
    requires i < |toks|
    ensures var t := toks[i];
            (Operand(toks, i).Ok? && Operand(toks, i).value.0.Literal?)
            <==> (t.kind == String || t.kind == Number || (t.kind == Ident && (t.text == "true" || t.text == "false")))
    ensures var t := toks[i];
            && (t.kind == String ==> Operand(toks, i) == Ok((Literal(StringLiteral, t.text), i + 1)))
            && (t.kind == Number ==> Operand(toks, i) == Ok((Literal(NumberLiteral, t.text), i + 1)))
            && (t.kind == Ident && (t.text == "true" || t.text == "false") ==>
                  Operand(toks, i) == Ok((Literal(BooleanLiteral, t.text), i + 1)))
  {
  }

  /** Which signs compare: these six between two literals, and no other punctuation. */
  lemma {:induction false} CompareExactly(toks: seq<Token>, i: nat, a: string, s: string, b: string)
    requires i + 2 < |toks|
    requires toks[i] == Token(String, a) && toks[i + 1] == Token(Punct, s) && toks[i + 2] == Token(String, b)
    ensures var left, right := Literal(StringLiteral, a), Literal(StringLiteral, b);
            Cmp(toks, i) ==
            if s == "==" || s == "!=" || s == ">=" || s == "<=" || s == ">" || s == "<"
            then Ok((Compare(left, s, right), i + 3))
            else Ok((left, i + 1))
  {
    LiteralExactly(toks, i);
    LiteralExactly(toks, i + 2);
    hide Operand, Items;
  }

  /** Which word tests a list. */
  lemma {:induction false} InExactly(toks: seq<Token>, i: nat, a: string, w: string)
    requires i + 3 < |toks|
    requires toks[i] == Token(String, a) && toks[i + 1] == Token(Ident, w)
    requires toks[i + 2] == Token(Punct, "[") && toks[i + 3] == Token(Punct, "]")
    ensures Cmp(toks, i) ==
            if w == "in" then Ok((In(Literal(StringLiteral, a), []), i + 4)) else Ok((Literal(StringLiteral, a), i + 1))
  {
    LiteralExactly(toks, i);
    hide Operand;
  }

  /** Which words are dimensions: the weight loop goes on at these six, and at no other. */
  lemma {:induction false} DimensionExactly(toks: seq<Token>, i: nat, d: string, n: string, weights: map<string, real>)
    requires i + 2 < |toks| && toks[i] == Token(Ident, d) && toks[i + 1] == Token(Number, n) && toks[i + 2] == CLOSE
    requires ParseFloat(n).Some?
    ensures DimWeights(toks, i, weights) ==
            if d == "quality" || d == "latency" || d == "tcos" || d == "reliability" || d == "energy" || d == "capacity"
            then Ok((weights[d := ParseFloat(n).value], i + 2))
            else Ok((weights, i))
  {
    hide ParseFloat;
    NoDimension(toks, i + 2);
  }

  lemma {:induction false} NoDimension(toks: seq<Token>, i: nat)
    requires i < |toks| && toks[i] == CLOSE
    ensures forall weights: map<string, real> :: DimWeights(toks, i, weights) == Ok((weights, i))
  {
  }

  /** Which tokens end a lexicographic list: the end marker and these five texts. What is no identifier
      becomes a dimension without a name. */
  lemma {:induction false} StopExactly(toks: seq<Token>, i: nat)
    requires i + 1 < |toks| && toks[i + 1] == CLOSE
    ensures var t := toks[i];
            Order(toks, i) ==
            if t.kind == EOF || t.text == "}" || t.text == "fallback" || t.text == "switch" || t.text == "require"
               || t.text == "prefer"
            then Ok(([], i))
            else Ok(([if t.kind == Ident then t.text else ""], i + 1))
  {
    assert Order(toks, i + 1) == Ok(([], i + 1));
    assert [IdentText(toks[i])] + [] == [IdentText(toks[i])];
  }

  /** Which words start a clause. */
  lemma {:induction false} KeywordExactly(toks: seq<Token>, i: nat)
    requires i < |toks|
    ensures var t := toks[i];
            !(t.kind == Ident && (t.text == "require" || t.text == "prefer" || t.text == "optimize"
                                  || t.text == "fallback" || t.text == "switch"))
            ==> ClauseAt(toks, i) == Err
  {
    hide OrChain, OptimizeAt, OptionalInteger;
  }

  /** Which words join atoms. */
  lemma {:induction false} ConnectivesExactly(toks: seq<Token>, i: nat, a: string, b: string)
    requires i + 3 < |toks| && toks[i] == Token(String, a) && toks[i + 2] == Token(String, b) && toks[i + 3] == CLOSE
    requires toks[i + 1].kind == Ident && toks[i + 1].text != "in"
    ensures var w, left, right := toks[i + 1].text, Literal(StringLiteral, a), Literal(StringLiteral, b);
            OrChain(toks, i) ==
            if w == "and" then Ok((And(left, right), i + 3))
            else if w == "or" then Ok((Or(left, right), i + 3))
            else Ok((left, i + 1))
  {
    AtomReads(toks, i, a);
    AtomReads(toks, i + 2, b);
    hide Cmp;
    var left, right := Literal(StringLiteral, a), Literal(StringLiteral, b);
    assert AndRest(toks, i + 3, right) == Ok((right, i + 3)) && AndRest(toks, i + 3, And(left, right)).Ok?;
    assert OrRest(toks, i + 3, And(left, right)) == Ok((And(left, right), i + 3));
    assert OrRest(toks, i + 3, Or(left, right)) == Ok((Or(left, right), i + 3));
  }

  lemma {:induction false} AtomReads(toks: seq<Token>, i: nat, a: string)
    requires i + 1 < |toks| && toks[i] == Token(String, a)
    requires (toks[i + 1].kind == Ident && toks[i + 1].text != "in") || toks[i + 1] == CLOSE
    ensures Cmp(toks, i) == Ok((Literal(StringLiteral, a), i + 1))
  {
    LiteralExactly(toks, i);
    hide Operand;
  }

  // Arguments and items

  /** Literals with commas between them and `close` behind the last. */
  function Listed(lits: seq<Token>, close: Token): seq<Token> {
    if lits == [] then [close]
    else if |lits| == 1 then [lits[0], close]
    else [lits[0], Token(Punct, ",")] + Listed(lits[1..], close)
  }

  predicate PlainLiteral(t: Token) {
    (t.kind == String || t.kind == Number) && t.text != ")" && t.text != "]"
  }

  function TextsOf(lits: seq<Token>): seq<string> {
    seq(|lits|, k requires 0 <= k < |lits| => lits[k].text)
  }

  lemma {:induction false} ListedStep(toks: seq<Token>, i: nat, lits: seq<Token>, close: Token)
    requires At(toks, i, Listed(lits, close)) && lits != []
    ensures i + 1 < |toks| && toks[i] == lits[0]
    ensures |lits| == 1 ==> toks[i + 1] == close
    ensures |lits| > 1 ==> toks[i + 1] == Token(Punct, ",") && At(toks, i + 2, Listed(lits[1..], close))
    ensures |Listed(lits, close)| == if |lits| == 1 then 2 else 2 + |Listed(lits[1..], close)|
  {
    if |lits| > 1 {
      AtConcat(toks, i, [lits[0], Token(Punct, ",")], Listed(lits[1..], close));
      assert [lits[0], Token(Punct, ",")][1] == toks[i..i + 2][1];
      assert toks[i] == [lits[0], Token(Punct, ",")][0];
    } else {
      assert toks[i] == Listed(lits, close)[0] && toks[i + 1] == Listed(lits, close)[1];
    }
  }

  /** Calls keep the text of every literal argument, in order. */
  lemma {:induction false} ArgumentsKept(toks: seq<Token>, i: nat, lits: seq<Token>)
    requires At(toks, i, Listed(lits, Token(Punct, ")"))) && forall k | 0 <= k < |lits| :: PlainLiteral(lits[k])
    ensures Args(toks, i) == Ok((TextsOf(lits), i + |Listed(lits, Token(Punct, ")"))|))
    decreases |lits|
  {
    hide Operand, Args, At, Listed;
    if lits == [] {
      NoneListed(toks, i, Token(Punct, ")"));
      ArgsStop(toks, i);
    } else {
      ListedStep(toks, i, lits, Token(Punct, ")"));
      LiteralExactly(toks, i);
      assert TextsOf(lits) == [lits[0].text] + TextsOf(lits[1..]);
      if |lits| == 1 {
        ArgsStop(toks, i + 1);
        ArgsStep(toks, i, i + 1);
      } else {
        ArgumentsKept(toks, i + 2, lits[1..]);
        ArgsStep(toks, i, i + 2);
      }
    }
  }

  lemma {:induction false} NoneListed(toks: seq<Token>, i: nat, close: Token)
    requires At(toks, i, Listed([], close))
    ensures i < |toks| && toks[i] == close && |Listed([], close)| == 1
  {
    AtHead(toks, i, Listed([], close));
  }

  lemma {:induction false} ArgsStop(toks: seq<Token>, i: nat)
    requires i < |toks| && toks[i].text == ")"
    ensures Args(toks, i) == Ok(([], i + 1))
  {
  }

  lemma {:induction false} ArgsStep(toks: seq<Token>, i: nat, next: nat)
    requires i + 1 < |toks| && toks[i].text != ")" && Operand(toks, i).Ok?
    requires Operand(toks, i).value.0.Literal? && Operand(toks, i).value.1 == i + 1
    requires next == if toks[i + 1].text == "," then i + 2 else i + 1
    requires Args(toks, next).Ok?
    ensures var (rest, m) := Args(toks, next).value; Args(toks, i) == Ok(([Operand(toks, i).value.0.text] + rest, m))
  {
    hide Operand;
  }

  /** Lists do, too. */
  lemma {:induction false} ItemsKept(toks: seq<Token>, i: nat, lits: seq<Token>)
    requires At(toks, i, Listed(lits, Token(Punct, "]"))) && forall k | 0 <= k < |lits| :: PlainLiteral(lits[k])
    ensures Items(toks, i) == Ok((TextsOf(lits), i + |Listed(lits, Token(Punct, "]"))|))
    decreases |lits|
  {
    hide Operand, Items, At, Listed;
    if lits == [] {
      NoneListed(toks, i, Token(Punct, "]"));
      ItemsStop(toks, i);
    } else {
      ListedStep(toks, i, lits, Token(Punct, "]"));
      LiteralExactly(toks, i);
      assert TextsOf(lits) == [lits[0].text] + TextsOf(lits[1..]);
      if |lits| == 1 {
        ItemsStop(toks, i + 1);
        ItemsStep(toks, i, i + 1);
      } else {
        ItemsKept(toks, i + 2, lits[1..]);
        ItemsStep(toks, i, i + 2);
      }
    }
  }

  lemma {:induction false} ItemsStop(toks: seq<Token>, i: nat)
    requires i < |toks| && toks[i].text == "]"
    ensures Items(toks, i) == Ok(([], i + 1))
  {
  }

  lemma {:induction false} ItemsStep(toks: seq<Token>, i: nat, next: nat)
    requires i + 1 < |toks| && toks[i].text != "]" && Operand(toks, i).Ok?
    requires Operand(toks, i).value.0.Literal? && Operand(toks, i).value.1 == i + 1
    requires next == if toks[i + 1].text == "," then i + 2 else i + 1
    requires Items(toks, next).Ok?
    ensures var (rest, m) := Items(toks, next).value; Items(toks, i) == Ok(([Operand(toks, i).value.0.text] + rest, m))
  {
    hide Operand;
  }

  /** A path among the arguments is dropped; among the items it is an error. */
  lemma {:induction false} PathsDropped(toks: seq<Token>, i: nat, ns: string, name: string, close: string)
    requires i + 3 < |toks| && ns != "true" && ns != "false" && ns != "not" && ns != ")" && ns != "]"
    requires toks[i] == Token(Ident, ns) && toks[i + 1] == Token(Punct, ".") && toks[i + 2] == Token(Ident, name)
    requires toks[i + 3] == Token(Punct, close)
    ensures close == ")" ==> Args(toks, i) == Ok(([], i + 4))
    ensures close == "]" ==> Items(toks, i) == Err
  {
    if close == ")" || close == "]" {
      assert Segments(toks, i + 3) == Ok(([], i + 3));
      assert Operand(toks, i) == Ok((Path(ns, [name] + []), i + 3));
    }
    if close == ")" {
      ArgsStop(toks, i + 3);
      ArgsSkip(toks, i, i + 3);
    }
  }

  lemma {:induction false} ArgsSkip(toks: seq<Token>, i: nat, k: nat)
    requires k < |toks| && i < |toks| && toks[i].text != ")" && toks[k].text != ","
    requires Operand(toks, i).Ok? && !Operand(toks, i).value.0.Literal? && Operand(toks, i).value.1 == k
    ensures i < k && Args(toks, i) == Args(toks, k)
  {
    hide Operand;
    assert SkipComma(toks, k) == Ok(k);
    var r := Args(toks, k);
    assert r.Ok? ==> [] + r.value.0 == r.value.0;
  }

  // Words that are not looked at

  /** The word before a preference's weight may be any identifier. */
  lemma {:induction false} AnyPreferWord(toks: seq<Token>, i: nat)
    requires i + 3 < |toks| && toks[i] == Token(Ident, "prefer")
    requires toks[i + 1].kind == Ident && toks[i + 2].kind == Ident
    requires toks[i + 3].kind == Number && ParseFloat(toks[i + 3].text).Some?
    ensures ClauseAt(toks, i) == Ok((PreferClause(Prefer(toks[i + 1].text, ParseFloat(toks[i + 3].text).value)), i + 4))
  {
    hide ParseFloat, OrChain, OptimizeAt, OptionalInteger;
  }

  /** So may the two words of a switch clause. */
  lemma {:induction false} AnySwitchWords(toks: seq<Token>, i: nat)
    requires i + 5 < |toks| && toks[i] == Token(Ident, "switch")
    requires toks[i + 1].kind == Ident && toks[i + 2].kind == Ident
    requires toks[i + 3] == Token(Punct, ">=") && toks[i + 4].kind == Number && ParseFloat(toks[i + 4].text).Some?
    requires toks[i + 5] == CLOSE
    ensures ClauseAt(toks, i) == Ok((SwitchClause(Switch(ParseFloat(toks[i + 4].text).value, 0)), i + 5))
  {
    hide ParseFloat, OrChain, OptimizeAt;
  }

  /** And the word before the policy's name. */
  lemma {:induction false} AnyPolicyWord(word: string, name: string)
    ensures PolicyAt([Token(Ident, word), Token(Ident, name), Token(Punct, "{"), CLOSE, EOF_TOKEN])
         == Ok((Policy(name, [], [], None, None, None), 4))
  {
  }

  /** The first name of a weighted clause may be any token; what is no identifier is the empty name. */
  lemma {:induction false} AnyFirstName(toks: seq<Token>, i: nat)
    requires i + 2 < |toks| && toks[i] != Token(Ident, "lexicographic")
    requires toks[i + 1].kind == Number && ParseFloat(toks[i + 1].text).Some? && toks[i + 2] == CLOSE
    ensures var name := if toks[i].kind == Ident then toks[i].text else "";
            OptimizeAt(toks, i) == Ok((Optimize(false, map[name := ParseFloat(toks[i + 1].text).value], []), i + 2))
  {
    hide ParseFloat, Order;
    NoDimension(toks, i + 2);
  }
}

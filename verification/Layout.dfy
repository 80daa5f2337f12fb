/** Writing tokens down with any layout between them, and reading them back. */
module Layout {
  import opened Chars
  import opened Tokens
  import opened Lexing
  import opened Spans

  /** Tokens that have a spelling: what the lexer makes of ASCII sources (see LexedTokensLegal). */
  predicate LegalToken(t: Token) {
    match t.kind
    case Ident => t.text != [] && IsIdentStart(t.text[0]) && All(t.text, IsIdentChar)
    case Number => t.text != [] && StartsNumber(t.text, 0) && All(t.text, IsNumberChar)
    case String => '"' !in t.text || '\'' !in t.text
    case Punct => IsTwoCharOp(t.text) || (|t.text| == 1 && LegalPunct(t.text[0]))
    case EOF => false
  }

  predicate LegalPunct(c: char) {
    && !IsSpace(c) && c != '#' && !IsQuote(c) && !IsDigit(c) && !IsIdentStart(c)
    && ByteText(c) == [c]
  }

  /** The quote a string is written with: the double one unless the text contains it. */
  function QuoteFor(text: string): char {
    if '"' in text then '\'' else '"'
  }

  function Spell(t: Token): string {
    if t.kind == String then [QuoteFor(t.text)] + t.text + [QuoteFor(t.text)] else t.text
  }

  /** White space and newline-terminated comments; the layout allowed before a token. */
  ghost predicate Blank(gap: string)
    decreases |gap|
  {
    || gap == []
    || (IsSpace(gap[0]) && Blank(gap[1..]))
    || exists e | 0 < e < |gap| :: IsComment(gap, e) && Blank(gap[e..])
  }

  /** gap[..e] is a comment and a newline follows it. */
  ghost predicate IsComment(gap: string, e: nat)
    requires 0 < e < |gap|
  {
    gap[0] == '#' && All(gap[..e], NotChar('\n')) && gap[e] == '\n'
  }

  /** Token `t` ends where its spelling ends when `rest` is what follows it. */
  predicate Fits(t: Token, rest: string) {
    rest == [] ||
    match t.kind
    case Ident => !IsIdentChar(rest[0])
    case Number => !IsNumberChar(rest[0])
    case Punct => |t.text| == 1 ==> !IsTwoCharOp(t.text + rest[..1]) && !(t.text == "." && IsDigit(rest[0]))
    case _ => true
  }

  /** gaps[0] ts[0] gaps[1] ts[1] … gaps[|ts|] */
  function Render(ts: seq<Token>, gaps: seq<string>): string
    requires |gaps| == |ts| + 1
  {
    if ts == [] then gaps[0] else gaps[0] + Spell(ts[0]) + Render(ts[1..], gaps[1..])
  }

  /** A layout that keeps neighbours apart: a gap may be empty only where they cannot merge. */
  ghost predicate LayoutOk(ts: seq<Token>, gaps: seq<string>)
    requires |gaps| == |ts| + 1
  {
    if ts == [] then Trivia(gaps[0], 0, |gaps[0]|)
    else
      && Blank(gaps[0]) && LegalToken(ts[0])
      && Fits(ts[0], Render(ts[1..], gaps[1..]))
      && LayoutOk(ts[1..], gaps[1..])
  }

  // Reading back

  lemma {:induction false} CommentAt(src: string, i: nat, gap: string, e: nat)
    requires At(src, i, gap) && 0 < e < |gap| && IsComment(gap, e)
    ensures CommentSpan(src, i, i + e) && At(src, i + e, gap[e..])
  {
    AtConcat(src, i, gap[..e], gap[e..]);
    assert gap == gap[..e] + gap[e..];
    AtHead(src, i, gap);
    AtHead(src, i + e, gap[e..]);
  }

  lemma {:induction false} BlankIsTrivia(src: string, i: nat, gap: string)
    requires At(src, i, gap) && Blank(gap)
    ensures Trivia(src, i, i + |gap|)
    decreases |gap|
  {
    hide At, IsComment, CommentSpan, IsSpace;
    if gap != [] {
      if IsSpace(gap[0]) && Blank(gap[1..]) {
        AtHead(src, i, gap);
        BlankIsTrivia(src, i + 1, gap[1..]);
      } else {
        var e :| 0 < e < |gap| && IsComment(gap, e) && Blank(gap[e..]);
        CommentAt(src, i, gap, e);
        BlankIsTrivia(src, i + e, gap[e..]);
      }
    }
  }

  lemma {:induction false} TrailingTrivia(src: string, i: nat, gap: string, a: nat)
    requires i <= |src| && src[i..] == gap && a <= |gap| && Trivia(gap, a, |gap|)
    ensures Trivia(src, i + a, |src|)
    decreases |gap| - a
  {
    if a < |gap| {
      assert src[i + a] == gap[a];
      if IsSpace(gap[a]) && Trivia(gap, a + 1, |gap|) {
        TrailingTrivia(src, i, gap, a + 1);
      } else {
        var e :| a < e <= |gap| && CommentSpan(gap, a, e) && Trivia(gap, e, |gap|);
        TrailingTrivia(src, i, gap, e);
        assert src[i + a..i + e] == gap[a..e];
        assert CommentSpan(src, i + a, i + e);
      }
    }
  }

  lemma {:induction false} StringSpan(src: string, p: nat, t: Token)
    requires t.kind == String && LegalToken(t) && At(src, p, Spell(t))
    ensures TokenSpan(src, p, p + |t.text| + 2, t)
  {
    var q := QuoteFor(t.text);
    assert Spell(t) == [q] + (t.text + [q]);
    AtCons(src, p, q, t.text + [q]);
    AtConcat(src, p + 1, t.text, [q]);
    AtHead(src, p + 1 + |t.text|, [q]);
    forall k | 0 <= k < |t.text| ensures t.text[k] != q {
      assert t.text[k] in t.text;
    }
  }

  lemma {:induction false} SpelledSpan(src: string, p: nat, t: Token, rest: string)
    requires LegalToken(t) && Fits(t, rest)
    requires At(src, p, Spell(t)) && src[p + |Spell(t)|..] == rest
    ensures Width(t) == |Spell(t)| > 0 && TokenSpan(src, p, p + Width(t), t)
  {
    if t.kind == String {
      StringSpan(src, p, t);
    } else {
      var q := p + |t.text|;
      assert src[p] == t.text[0];
      assert q < |src| ==> src[q] == rest[0];
      if t.kind == Number && src[p] == '.' {
        assert src[p + 1] == t.text[1];
      }
      if t.kind == Punct {
        if |t.text| == 2 {
          assert t.text[0] == '=' || t.text[0] == '!' || t.text[0] == '<' || t.text[0] == '>';
        } else if q < |src| {
          assert src[p..p + 2] == t.text + rest[..1];
        }
      }
    }
  }

  lemma {:induction false} GapThenToken(src: string, i: nat, g: string, t: Token, rest: string)
    requires At(src, i, g) && At(src, i + |g|, Spell(t)) && src[i + |g| + |Spell(t)|..] == rest
    requires Blank(g) && LegalToken(t) && Fits(t, rest)
    ensures Trivia(src, i, i + |g|)
    ensures Width(t) == |Spell(t)| > 0 && TokenSpan(src, i + |g|, i + |g| + Width(t), t)
  {
    BlankIsTrivia(src, i, g);
    SpelledSpan(src, i + |g|, t, rest);
  }

  lemma {:induction false} CutRender(src: string, i: nat, g: string, s: string, rest: string)
    requires i <= |src| && src[i..] == g + s + rest
    ensures At(src, i, g) && At(src, i + |g|, s) && src[i + |g| + |s|..] == rest
  {
    assert At(src, i, g + s + rest);
    AtConcat(src, i, g + s, rest);
    AtConcat(src, i, g, s);
  }

  lemma {:induction false} TokenizesStep(src: string, i: nat, p: nat, t: Token, ls: seq<Located>, ts: seq<Token>)
    requires i <= p && p < p + Width(t) <= |src| && Trivia(src, i, p)
    requires TokenSpan(src, p, p + Width(t), t) && Tokenizes(src, p + Width(t), ls)
    requires Bare(ls) == ts + [EOF_TOKEN]
    ensures Tokenizes(src, i, [Located(t, p)] + ls)
    ensures Bare([Located(t, p)] + ls) == [t] + ts + [EOF_TOKEN]
  {
    hide Trivia, TokenSpan, Tokenizes;
    TokenizesCons(src, i, p, t, ls);
    assert Bare([Located(t, p)] + ls) == [t] + Bare(ls);
  }

  lemma {:induction false} TokenizesEnd(src: string, i: nat, gap: string)
    requires i <= |src| && src[i..] == gap && Trivia(gap, 0, |gap|)
    ensures Tokenizes(src, i, [Located(EOF_TOKEN, |src|)])
  {
    TrailingTrivia(src, i, gap, 0);
  }

  lemma {:induction false} RenderTokenizes(src: string, i: nat, ts: seq<Token>, gaps: seq<string>)
    returns (ls: seq<Located>)
    requires i <= |src| && |gaps| == |ts| + 1 && LayoutOk(ts, gaps)
    requires src[i..] == Render(ts, gaps)
    ensures Tokenizes(src, i, ls) && Bare(ls) == ts + [EOF_TOKEN]
    decreases |ts|
  {
    hide Blank, LegalToken, Fits, TokenSpan, Spell, Trivia, Tokenizes;
    if ts == [] {
      TokenizesEnd(src, i, gaps[0]);
      ls := [Located(EOF_TOKEN, |src|)];
    } else {
      var g, t, rest := gaps[0], ts[0], Render(ts[1..], gaps[1..]);
      CutRender(src, i, g, Spell(t), rest);
      GapThenToken(src, i, g, t, rest);
      ls := RenderTokenizes(src, i + |g| + |Spell(t)|, ts[1..], gaps[1..]);
      TokenizesStep(src, i, i + |g|, t, ls, ts[1..]);
      ls := [Located(t, i + |g|)] + ls;
      assert ts == [t] + ts[1..];
    }
  }

  /** Lexing undoes every layout: a rendering lexes to exactly the tokens that were rendered. */
  lemma {:induction false} RenderLexes(ts: seq<Token>, gaps: seq<string>)
    requires |gaps| == |ts| + 1 && LayoutOk(ts, gaps)
    ensures LexFrom(Render(ts, gaps), 0).Ok?
    ensures Bare(LexFrom(Render(ts, gaps), 0).value) == ts + [EOF_TOKEN]
  {
    var src := Render(ts, gaps);
    assert src[0..] == src;
    var ls := RenderTokenizes(src, 0, ts, gaps);
    LexComplete(src, 0, ls);
  }

  // One gap that always works

  lemma {:induction false} GapStart(gap: string, ts: seq<Token>, gaps: seq<string>)
    requires |gaps| == |ts| + 1 && gap == gaps[0] && Render(ts, gaps) != []
    requires if ts == [] then Trivia(gap, 0, |gap|) else gap != [] && Blank(gap)
    ensures var c := Render(ts, gaps)[0]; IsSpace(c) || c == '#'
  {
  }

  lemma {:induction false} SeparatorFits(t: Token, rest: string)
    requires rest == [] || IsSpace(rest[0]) || rest[0] == '#'
    ensures Fits(t, rest)
  {
    if rest != [] {
      assert (t.text + rest[..1])[|t.text|] == rest[0];
    }
  }

  /** Every layout whose inner gaps are not empty is a legal one. */
  lemma {:induction false} NonEmptyGapsOk(ts: seq<Token>, gaps: seq<string>)
    requires |gaps| == |ts| + 1
    requires forall k | 0 <= k < |ts| :: LegalToken(ts[k])
    requires forall k | 0 <= k < |ts| :: Blank(gaps[k])
    requires forall k | 0 < k < |ts| :: gaps[k] != []
    requires Trivia(gaps[|ts|], 0, |gaps[|ts|]|)
    ensures LayoutOk(ts, gaps)
    decreases |ts|
  {
    if ts != [] {
      NonEmptyGapsOk(ts[1..], gaps[1..]);
      if Render(ts[1..], gaps[1..]) != [] {
        GapStart(gaps[1], ts[1..], gaps[1..]);
      }
      SeparatorFits(ts[0], Render(ts[1..], gaps[1..]));
    }
  }

  /** One space between neighbours, nothing at the ends. */
  function Spaces(n: nat): seq<string> {
    seq(n + 1, k => if k == 0 || k == n then "" else " ")
  }

  lemma {:induction false} SpacesOk(ts: seq<Token>)
    requires forall t | t in ts :: LegalToken(t)
    ensures LayoutOk(ts, Spaces(|ts|))
  {
    assert Blank(" "[1..]);
    assert Blank(" ");
    NonEmptyGapsOk(ts, Spaces(|ts|));
  }

  lemma {:induction false} SpanLegal(src: string, p: nat, q: nat, t: Token)
    requires p < q <= |src| && TokenSpan(src, p, q, t)
    ensures t.kind != EOF && ((t.kind == Punct && !IsAscii(src)) || LegalToken(t))
  {
    if t.kind == Number && src[p] == '.' {
      assert IsNumberChar(src[p + 1]);
      assert q >= p + 2;
    }
  }

  /** Lexed tokens can be spelled again; of a source that is not ASCII, all but some punctuation. */
  lemma {:induction false} LexedTokensLegal(src: string, i: nat)
    requires i <= |src| && LexFrom(src, i).Ok?
    ensures var ls := LexFrom(src, i).value;
            forall k | 0 <= k < |ls| - 1 :: (ls[k].token.kind == Punct && !IsAscii(src)) || LegalToken(ls[k].token)
    decreases |src| - i
  {
    hide LegalToken, Scan, TokenSpan, SkipTrivia, IsAscii;
    if |LexFrom(src, i).value| > 1 {
      var ls := LexFrom(src, i).value;
      LexSound(src, i);
      var q := LexTail(src, i);
      SpanLegal(src, ls[0].pos, q, ls[0].token);
      LexedTokensLegal(src, q);
      assert forall k | 0 < k < |ls| - 1 :: ls[k] == ls[1..][k - 1];
    }
  }
}

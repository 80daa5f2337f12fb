/** The lexer's tables by code point: which bytes are white space, which belong to names and numbers,
    and what a source of one or two bytes lexes to. Nothing here is stated through the tables. */
module ByteClasses {
  import opened Outcomes
  import opened Chars
  import opened Tokens
  import opened Lexing

  predicate SpaceCode(n: int) {
    0x09 <= n <= 0x0D || n == 0x20 || n == 0x85 || n == 0xA0
  }

  predicate DigitCode(n: int) {
    0x30 <= n <= 0x39
  }

  predicate LetterCode(n: int) {
    || 0x41 <= n <= 0x5A || 0x61 <= n <= 0x7A
    || n == 0xAA || n == 0xB5 || n == 0xBA || 0xC0 <= n <= 0xD6 || 0xD8 <= n <= 0xF6 || 0xF8 <= n <= 0xFF
  }

  /** Letters and the underscore. */
  predicate StartCode(n: int) {
    LetterCode(n) || n == 0x5F
  }

  /** Those, digits and the hyphen. */
  predicate NameCode(n: int) {
    StartCode(n) || DigitCode(n) || n == 0x2D
  }

  /** Digits and the dot. */
  predicate NumberCode(n: int) {
    DigitCode(n) || n == 0x2E
  }

  predicate QuoteCode(n: int) {
    n == 0x22 || n == 0x27
  }

  /** The tables, character by character. */
  lemma {:induction false} Tables(c: char)
    ensures IsSpace(c) <==> SpaceCode(c as int)
    ensures IsDigit(c) <==> DigitCode(c as int)
    ensures IsIdentStart(c) <==> StartCode(c as int)
    ensures IsIdentChar(c) <==> NameCode(c as int)
    ensures IsNumberChar(c) <==> NumberCode(c as int)
    ensures IsQuote(c) <==> QuoteCode(c as int)
  {
  }

  // Tokens by the codes of their bytes

  predicate IsName(t: string) {
    t != "" && StartCode(t[0] as int) && forall k | 0 <= k < |t| :: NameCode(t[k] as int)
  }

  predicate IsNumberText(t: string) {
    && t != "" && (forall k | 0 <= k < |t| :: NumberCode(t[k] as int))
    && (DigitCode(t[0] as int) || (|t| > 1 && DigitCode(t[1] as int)))
  }

  lemma {:induction false} NameSpan(src: string, p: nat, q: nat)
    requires p < q <= |src| && IsName(src[p..q]) && (q < |src| ==> !NameCode(src[q] as int))
    ensures TokenSpan(src, p, q, Token(Ident, src[p..q])) && Trivia(src, p, p)
  {
    var t := src[p..q];
    Tables(t[0]);
    forall k | 0 <= k < |t| ensures IsIdentChar(t[k]) {
      Tables(t[k]);
    }
    if q < |src| {
      Tables(src[q]);
    }
  }

  /** A name is one identifier, up to the first byte that is no letter, digit, underscore or hyphen. */
  lemma {:induction false} NameLexes(t: string, rest: string)
    requires IsName(t) && (rest != "" ==> !NameCode(rest[0] as int))
    ensures NextToken(t + rest, 0) == Ok((Located(Token(Ident, t), 0), |t|))
  {
    hide TokenSpan, Trivia, NextToken, IsName, NameCode;
    var src := t + rest;
    assert src[0..|t|] == t;
    assert rest != "" ==> src[|t|] == rest[0];
    assert t != "" by { NotEmpty(t); }
    NameSpan(src, 0, |t|);
    NextTokenAt(src, 0, 0, Token(Ident, t));
  }

  lemma {:induction false} NotEmpty(t: string)
    requires IsName(t)
    ensures t != ""
  {
  }

  /** A number, a leading dot included, is one token up to the first byte that is no digit or dot. */
  lemma {:induction false} NumberLexes(t: string, rest: string)
    requires IsNumberText(t) && (rest != "" ==> !NumberCode(rest[0] as int))
    ensures NextToken(t + rest, 0) == Ok((Located(Token(Number, t), 0), |t|))
  {
    var src := t + rest;
    assert src[0..|t|] == t;
    forall k | 0 <= k < |t| ensures IsNumberChar(t[k]) {
      Tables(t[k]);
    }
    Tables(t[0]);
    if |t| > 1 {
      Tables(t[1]);
    }
    if rest != "" {
      Tables(rest[0]);
    }
    assert TokenSpan(src, 0, |t|, Token(Number, t));
    NextTokenAt(src, 0, 0, Token(Number, t));
  }

  /** A quoted text is one string, with everything up to the next quote of its kind. */
  lemma {:induction false} StringLexes(quote: char, t: string, rest: string)
    requires QuoteCode(quote as int) && quote !in t
    ensures NextToken([quote] + t + [quote] + rest, 0) == Ok((Located(Token(String, t), 0), |t| + 2))
    ensures NextToken([quote] + t, 0) == Err
  {
    hide TokenSpan, NextToken;
    StringSpan(quote, t, rest);
    NextTokenAt([quote] + t + [quote] + rest, 0, 0, Token(String, t));
    OpenString(quote, t);
  }

  lemma {:induction false} NoQuote(quote: char, t: string)
    requires quote !in t
    ensures All(t, NotChar(quote))
  {
    forall k | 0 <= k < |t| ensures NotChar(quote)(t[k]) {
      assert t[k] in t;
    }
  }

  lemma {:induction false} StringSpan(quote: char, t: string, rest: string)
    requires QuoteCode(quote as int) && quote !in t
    ensures var src := [quote] + t + [quote] + rest;
            TokenSpan(src, 0, |t| + 2, Token(String, t)) && Trivia(src, 0, 0)
  {
    hide All;
    var src := [quote] + t + [quote] + rest;
    Tables(quote);
    NoQuote(quote, t);
    assert src[0] == quote && src[|t| + 1] == quote;
    assert src[1..|t| + 1] == t;
  }

  lemma {:induction false} OpenString(quote: char, t: string)
    requires QuoteCode(quote as int) && quote !in t
    ensures NextToken([quote] + t, 0) == Err
  {
    hide All;
    var src := [quote] + t;
    Tables(quote);
    NoQuote(quote, t);
    assert src[1..|src|] == t;
    RunEndUnique(src, 1, |src|, NotChar(quote));
    SkipTurn(src, 0);
    assert SkipTrivia(src, 0) == 0;
    assert Scan(src, 0) == Err;
  }

  // Sources of one and of two bytes

  /** What every single byte is to the lexer. */
  lemma {:induction false} OneByte(c: char)
    requires c as int < 0x100
    ensures var n := c as int;
            NextToken([c], 0) ==
            if QuoteCode(n) then Err
            else if SpaceCode(n) || n == 0x23 then Ok((Located(Token(EOF, ""), 1), 1))
            else if DigitCode(n) then Ok((Located(Token(Number, [c]), 0), 1))
            else if StartCode(n) then Ok((Located(Token(Ident, [c]), 0), 1))
            else if n < 0x80 then Ok((Located(Token(Punct, [c]), 0), 1))
            else Ok((Located(Token(Punct, [(0xC0 + n / 0x40) as char, (0x80 + n % 0x40) as char]), 0), 1))
  {
    var n := c as int;
    var src := [c];
    Tables(c);
    assert src[0..1] == src;
    if QuoteCode(n) {
      StringLexes(c, "", "");
      assert [c] + "" == [c];
    } else if SpaceCode(n) {
      BlankOne(c);
    } else if n == 0x23 {
      CommentOne(c);
    } else if DigitCode(n) {
      NumberLexes(src, "");
      assert src + "" == src;
    } else if StartCode(n) {
      NameLexes(src, "");
      assert src + "" == src;
    } else {
      SkipTurn(src, 0);
    }
  }

  lemma {:induction false} BlankOne(c: char)
    requires IsSpace(c)
    ensures NextToken([c], 0) == Ok((Located(EOF_TOKEN, 1), 1))
  {
    SkipTurn([c], 0);
    SkipTurn([c], 1);
  }

  lemma {:induction false} CommentOne(c: char)
    requires c == '#'
    ensures NextToken([c], 0) == Ok((Located(EOF_TOKEN, 1), 1))
  {
    SkipTurn([c], 0);
    RunTurn([c], 0, NotChar('\n'));
    RunTurn([c], 1, NotChar('\n'));
    SkipTurn([c], 1);
  }

  /** A byte that starts punctuation. */
  predicate PunctCode(n: int) {
    n < 0x80 && !QuoteCode(n) && !SpaceCode(n) && n != 0x23 && !DigitCode(n) && !StartCode(n)
  }

  /** The only operators of two bytes are `==`, `!=`, `>=` and `<=`; a dot before a digit is a number. */
  lemma {:induction false} TwoBytes(c: char, d: char)
    requires PunctCode(c as int)
    ensures NextToken([c, d], 0) ==
            if d as int == 0x3D && (c as int == 0x3D || c as int == 0x21 || c as int == 0x3E || c as int == 0x3C)
            then Ok((Located(Token(Punct, [c, d]), 0), 2))
            else if c as int == 0x2E && DigitCode(d as int) then NextToken([c, d], 0)
            else Ok((Located(Token(Punct, [c]), 0), 1))
    ensures c as int == 0x2E && DigitCode(d as int) ==>
              NextToken([c, d], 0) == Ok((Located(Token(Number, [c, d]), 0), 2))
  {
    var src := [c, d];
    Tables(c);
    Tables(d);
    SkipTurn(src, 0);
    assert src[0..2] == src;
    if c as int == 0x2E && DigitCode(d as int) {
      NumberLexes(src, "");
      assert src + "" == src;
    }
  }

  // White space between tokens

  /** Two names with one byte between them are two tokens exactly when that byte is white space. */
  lemma {:induction false} SpaceExactly(a: string, c: char, b: string)
    requires IsName(a) && IsName(b)
    ensures (var r := LexFrom(a + [c] + b, 0);
             r.Ok? && Bare(r.value) == [Token(Ident, a), Token(Ident, b), EOF_TOKEN])
            <==> SpaceCode(c as int)
  {
    hide LexFrom, TokenSpan, Trivia, Tokenizes;
    var src := a + [c] + b;
    Tables(c);
    if SpaceCode(c as int) {
      SpaceSeparates(a, c, b);
    }
    var r := LexFrom(src, 0);
    if r.Ok? && Bare(r.value) == [Token(Ident, a), Token(Ident, b), EOF_TOKEN] {
      LexSound(src, 0);
      TwoNames(a, c, b, r.value);
    }
  }

  lemma {:induction false} SpaceSeparates(a: string, c: char, b: string)
    requires IsName(a) && IsName(b) && IsSpace(c)
    ensures var r := LexFrom(a + [c] + b, 0);
            r.Ok? && Bare(r.value) == [Token(Ident, a), Token(Ident, b), EOF_TOKEN]
  {
    hide TokenSpan, Tokenizes, LexFrom, IsName, NameCode;
    var src := a + [c] + b;
    var n := |a|;
    NotEmpty(a);
    NotEmpty(b);
    SpaceIsNoName(c);
    assert src[0..n] == a && src[n + 1..|src|] == b && src[n] == c;
    NameSpan(src, 0, n);
    NameSpan(src, n + 1, |src|);
    var one := [Located(EOF_TOKEN, |src|)];
    TokenizesEof(src, |src|);
    TokenizesCons(src, n, n + 1, Token(Ident, b), one);
    var two := [Located(Token(Ident, b), n + 1)] + one;
    TokenizesCons(src, 0, 0, Token(Ident, a), two);
    LexComplete(src, 0, [Located(Token(Ident, a), 0)] + two);
  }

  lemma {:induction false} SpaceIsNoName(c: char)
    requires IsSpace(c)
    ensures !NameCode(c as int)
  {
  }

  lemma {:induction false} TwoNames(a: string, c: char, b: string, ls: seq<Located>)
    requires IsName(a) && IsName(b) && Tokenizes(a + [c] + b, 0, ls)
    requires Bare(ls) == [Token(Ident, a), Token(Ident, b), EOF_TOKEN]
    ensures IsSpace(c)
  {
    hide TokenSpan, Trivia;
    var src := a + [c] + b;
    assert ls[0].token == Token(Ident, a) && ls[1].token == Token(Ident, b);
    assert ls[1..][0] == ls[1];
    var p := ls[1].pos;
    NameStart(src, 0, ls[0].pos, a);
    assert |a| <= p && p + |b| <= |src|;
    assert Trivia(src, |a|, p) && TokenSpan(src, p, p + |b|, Token(Ident, b));
    NameStops(src, |a|, a);
    if p == |a| {
      NameGoesOn(src, |a|, |a| + |b|, b);
    } else {
      assert src[|a| + 1] == b[0];
      NameIsNoFeed(b);
      OneTrivia(src, |a|);
    }
  }

  lemma {:induction false} NameStart(src: string, i: nat, p: nat, a: string)
    requires IsName(a) && i <= p <= |src| && Trivia(src, i, p) && |a| <= |src| - i && src[i..i + |a|] == a
    ensures p == i
  {
    Tables(a[0]);
    assert src[i] == a[0];
  }

  lemma {:induction false} NameStops(src: string, n: nat, a: string)
    requires 0 < n < |src| && TokenSpan(src, 0, n, Token(Ident, a))
    ensures !IsIdentChar(src[n])
  {
  }

  lemma {:induction false} NameGoesOn(src: string, n: nat, m: nat, b: string)
    requires n < m <= |src| && TokenSpan(src, n, m, Token(Ident, b))
    ensures IsIdentChar(src[n])
  {
  }

  lemma {:induction false} NameIsNoFeed(b: string)
    requires IsName(b)
    ensures b[0] != '\n'
  {
  }

  lemma {:induction false} OneTrivia(src: string, n: nat)
    requires n + 1 < |src| && Trivia(src, n, n + 1)
    ensures IsSpace(src[n]) || src[n + 1] == '\n'
  {
    if !IsSpace(src[n]) {
      var e :| n < e <= n + 1 && CommentSpan(src, n, e) && Trivia(src, e, n + 1);
      assert e == n + 1;
    }
  }

  /** A comment reaches to the line feed and no further. */
  lemma {:induction false} CommentSkipped(t: string, b: string)
    requires '\n' !in t && IsName(b)
    ensures var r := LexFrom("#" + t + "\n" + b, 0); r.Ok? && Bare(r.value) == [Token(Ident, b), EOF_TOKEN]
  {
    hide TokenSpan, Tokenizes, LexFrom, IsName, NameCode;
    var src := "#" + t + "\n" + b;
    var n := |t| + 2;
    NotEmpty(b);
    assert src[n..|src|] == b;
    NameSpan(src, n, |src|);
    assert src[n - 1] == '\n';
    assert CommentSpan(src, 0, n - 1);
    assert Trivia(src, n - 1, n);
    assert Trivia(src, 0, n);
    TokenizesEof(src, |src|);
    TokenizesCons(src, 0, n, Token(Ident, b), [Located(EOF_TOKEN, |src|)]);
    LexComplete(src, 0, [Located(Token(Ident, b), n)] + [Located(EOF_TOKEN, |src|)]);
  }
}

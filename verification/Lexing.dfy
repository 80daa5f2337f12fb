/** The lexer as functions of the source and a position, and the declarative meaning of
    "these are the tokens of this source". */
module Lexing {
  import opened Outcomes
  import opened Chars
  import opened Tokens

  predicate IsTwoCharOp(s: string) {
    s == "==" || s == "!=" || s == ">=" || s == "<="
  }

  /** A number starts with a digit, or with a dot that a digit follows. */
  predicate StartsNumber(src: string, i: nat)
    requires i < |src|
  {
    IsDigit(src[i]) || (src[i] == '.' && i + 1 < |src| && IsDigit(src[i + 1]))
  }

  /** Go's string(c) of one byte: the UTF-8 encoding of that code point. */
  function ByteText(c: char): string {
    var n := c as int;
    if n < 128 || n > 255 then [c] else [(192 + n / 64) as char, (128 + n % 64) as char]
  }

  /** The first position from `i` on that is in no white space and no comment. */
  function SkipTrivia(src: string, i: nat): (j: nat)
    requires i <= |src|
    ensures i <= j <= |src|
    ensures j < |src| ==> !IsSpace(src[j]) && src[j] != '#'
    decreases |src| - i
  {
    if i < |src| && IsSpace(src[i]) then SkipTrivia(src, i + 1)
    else if i < |src| && src[i] == '#' then SkipTrivia(src, RunEnd(src, i, NotChar('\n')))
    else i
  }

  /** One step over trivia. */
  lemma {:induction false} SkipTurn(src: string, i: nat)
    requires i <= |src|
    ensures SkipTrivia(src, i) ==
            if i < |src| && IsSpace(src[i]) then SkipTrivia(src, i + 1)
            else if i < |src| && src[i] == '#' then SkipTrivia(src, RunEnd(src, i, NotChar('\n')))
            else i
  {
  }

  /** The token that starts at `i`, and where it ends. */
  function Scan(src: string, i: nat): (r: Result<(Token, nat)>)
    requires i < |src|
    ensures !r.Crash?
    ensures r.Ok? ==> i < r.value.1 <= |src| && r.value.0.kind != EOF
  {
    var c := src[i];
    if IsQuote(c) then
      var j := RunEnd(src, i + 1, NotChar(c));
      if j == |src| then Err else Ok((Token(String, src[i + 1..j]), j + 1))
    else if StartsNumber(src, i) then
      var j := RunEnd(src, i, IsNumberChar);
      Ok((Token(Number, src[i..j]), j))
    else if IsIdentStart(c) then
      var j := RunEnd(src, i, IsIdentChar);
      Ok((Token(Ident, src[i..j]), j))
    else if i + 1 < |src| && IsTwoCharOp(src[i..i + 2]) then
      Ok((Token(Punct, src[i..i + 2]), i + 2))
    else
      Ok((Token(Punct, ByteText(c)), i + 1))
  }

  /** One call of the lexer: the next token and the position after it. */
  function NextToken(src: string, i: nat): (r: Result<(Located, nat)>)
    requires i <= |src|
    ensures !r.Crash?
    ensures r.Ok? ==> i <= r.value.1 <= |src|
    ensures r.Ok? && r.value.0.token.kind != EOF ==> i < r.value.1
  {
    var p := SkipTrivia(src, i);
    if p == |src| then Ok((Located(EOF_TOKEN, p), p))
    else
      var (t, k) :- Scan(src, p);
      Ok((Located(t, p), k))
  }

  /** All tokens from position `i`, the end marker included. */
  function LexFrom(src: string, i: nat): (r: Result<seq<Located>>)
    requires i <= |src|
    ensures !r.Crash?
    decreases |src| - i
  {
    var (t, k) :- NextToken(src, i);
    if t.token.kind == EOF then Ok([t])
    else
      var rest :- LexFrom(src, k);
      Ok([t] + rest)
  }

  // The declarative side: trivia, token spans, tokenizations

  /** src[i..e] is a comment: it starts with `#` and runs to the line end or the source end. */
  ghost predicate CommentSpan(src: string, i: nat, e: nat)
    requires i < e <= |src|
  {
    src[i] == '#' && All(src[i..e], NotChar('\n')) && (e < |src| ==> src[e] == '\n')
  }

  /** src[i..j] is made of white space and comments only. */
  ghost predicate Trivia(src: string, i: nat, j: nat)
    requires i <= j <= |src|
    decreases j - i
  {
    || i == j
    || (IsSpace(src[i]) && Trivia(src, i + 1, j))
    || exists e | i < e <= j :: CommentSpan(src, i, e) && Trivia(src, e, j)
  }

  /** How many bytes of source a token takes. */
  function Width(t: Token): nat {
    match t.kind
    case String => |t.text| + 2
    case Punct => if IsTwoCharOp(t.text) then 2 else 1
    case _ => |t.text|
  }

  /** src[p..q] is a legal spelling of token `t`, and no longer token could start at `p`. */
  ghost predicate TokenSpan(src: string, p: nat, q: nat, t: Token)
    requires p < q <= |src|
  {
    match t.kind
    case String =>
      && IsQuote(src[p]) && src[q - 1] == src[p] && q == p + |t.text| + 2
      && t.text == src[p + 1..q - 1] && All(t.text, NotChar(src[p]))
    case Number =>
      && StartsNumber(src, p) && t.text == src[p..q] && All(t.text, IsNumberChar)
      && (q < |src| ==> !IsNumberChar(src[q]))
    case Ident =>
      && IsIdentStart(src[p]) && t.text == src[p..q] && All(t.text, IsIdentChar)
      && (q < |src| ==> !IsIdentChar(src[q]))
    case Punct =>
      && !IsQuote(src[p]) && !StartsNumber(src, p) && !IsIdentStart(src[p])
      && !IsSpace(src[p]) && src[p] != '#'
      && (if q == p + 2 then t.text == src[p..q] && IsTwoCharOp(t.text)
          else q == p + 1 && t.text == ByteText(src[p]) && (q < |src| ==> !IsTwoCharOp(src[p..p + 2])))
    case EOF => false
  }

  /** `ls` covers src[i..] in order: trivia, a token, trivia, a token, …, trivia, the end marker. */
  ghost predicate Tokenizes(src: string, i: nat, ls: seq<Located>)
    requires i <= |src|
    decreases |ls|
  {
    && ls != [] && i <= ls[0].pos <= |src| && Trivia(src, i, ls[0].pos)
    && if |ls| == 1 then ls[0] == Located(EOF_TOKEN, |src|)
       else
         var q := ls[0].pos + Width(ls[0].token);
         && ls[0].pos < q <= |src|
         && TokenSpan(src, ls[0].pos, q, ls[0].token)
         && Tokenizes(src, q, ls[1..])
  }

  // The two sides agree

  lemma {:induction false} SkipTriviaSound(src: string, i: nat)
    requires i <= |src|
    ensures Trivia(src, i, SkipTrivia(src, i))
    decreases |src| - i
  {
    if i < |src| && IsSpace(src[i]) {
      SkipTriviaSound(src, i + 1);
    } else if i < |src| && src[i] == '#' {
      var e := RunEnd(src, i, NotChar('\n'));
      SkipTriviaSound(src, e);
      assert CommentSpan(src, i, e);
    }
  }

  lemma {:induction false} SkipTriviaComplete(src: string, i: nat, j: nat)
    requires i <= j <= |src| && Trivia(src, i, j)
    requires j < |src| ==> !IsSpace(src[j]) && src[j] != '#'
    ensures SkipTrivia(src, i) == j
    decreases j - i
  {
    if i < j {
      if IsSpace(src[i]) {
        SkipTriviaComplete(src, i + 1, j);
      } else {
        var e :| i < e <= j && CommentSpan(src, i, e) && Trivia(src, e, j);
        RunEndUnique(src, i, e, NotChar('\n'));
        SkipTriviaComplete(src, e, j);
      }
    }
  }

  lemma {:induction false} ByteTextNotOp(c: char)
    ensures !IsTwoCharOp(ByteText(c))
  {
    var n := c as int;
    if 128 <= n <= 255 {
      assert ByteText(c)[0] as int >= 192;
    }
  }

  lemma {:induction false} ScanSound(src: string, p: nat)
    requires p < |src| && !IsSpace(src[p]) && src[p] != '#' && Scan(src, p).Ok?
    ensures var (t, q) := Scan(src, p).value; q == p + Width(t) && TokenSpan(src, p, q, t)
  {
    var c := src[p];
    ByteTextNotOp(c);
    if IsQuote(c) {
      var j := RunEnd(src, p + 1, NotChar(c));
      assert !NotChar(c)(src[j]);
    }
  }

  lemma {:induction false} ScanComplete(src: string, p: nat, q: nat, t: Token)
    requires p < q <= |src| && TokenSpan(src, p, q, t)
    ensures Scan(src, p) == Ok((t, q))
  {
    match t.kind
    case String => RunEndUnique(src, p + 1, q - 1, NotChar(src[p]));
    case Number => RunEndUnique(src, p, q, IsNumberChar);
    case Ident => RunEndUnique(src, p, q, IsIdentChar);
    case Punct =>
  }

  lemma {:induction false} TokenSpanStart(src: string, p: nat, q: nat, t: Token)
    requires p < q <= |src| && TokenSpan(src, p, q, t)
    ensures !IsSpace(src[p]) && src[p] != '#'
  {
  }

  /** Trivia and then a token span: that token is what the lexer returns next. */
  lemma {:induction false} NextTokenAt(src: string, i: nat, p: nat, t: Token)
    requires i <= p && p < p + Width(t) <= |src|
    requires Trivia(src, i, p) && TokenSpan(src, p, p + Width(t), t)
    ensures NextToken(src, i) == Ok((Located(t, p), p + Width(t)))
  {
    TokenSpanStart(src, p, p + Width(t), t);
    SkipTriviaComplete(src, i, p);
    ScanComplete(src, p, p + Width(t), t);
  }

  lemma {:induction false} TokenizesCons(src: string, i: nat, p: nat, t: Token, ls: seq<Located>)
    requires i <= p && p < p + Width(t) <= |src| && Trivia(src, i, p)
    requires TokenSpan(src, p, p + Width(t), t) && Tokenizes(src, p + Width(t), ls)
    ensures Tokenizes(src, i, [Located(t, p)] + ls)
  {
    hide Trivia, TokenSpan;
    assert ([Located(t, p)] + ls)[1..] == ls;
  }

  lemma {:induction false} TokenizesEof(src: string, i: nat)
    requires i <= |src| && Trivia(src, i, |src|)
    ensures Tokenizes(src, i, [Located(EOF_TOKEN, |src|)])
  {
  }

  lemma {:induction false} LexSound(src: string, i: nat)
    requires i <= |src| && LexFrom(src, i).Ok?
    ensures Tokenizes(src, i, LexFrom(src, i).value)
    decreases |src| - i
  {
    hide Trivia, TokenSpan, Tokenizes, SkipTrivia, Scan;
    var p := SkipTrivia(src, i);
    SkipTriviaSound(src, i);
    if p < |src| {
      ScanSound(src, p);
      var (t, q) := Scan(src, p).value;
      LexSound(src, q);
      TokenizesCons(src, i, p, t, LexFrom(src, q).value);
    } else {
      TokenizesEof(src, i);
    }
  }

  lemma {:induction false} LexComplete(src: string, i: nat, ls: seq<Located>)
    requires i <= |src| && Tokenizes(src, i, ls)
    ensures LexFrom(src, i) == Ok(ls)
    decreases |ls|
  {
    if |ls| == 1 {
      SkipTriviaComplete(src, i, |src|);
      assert ls == [ls[0]];
    } else {
      var p, t := ls[0].pos, ls[0].token;
      var q := p + Width(t);
      NextTokenAt(src, i, p, t);
      LexComplete(src, q, ls[1..]);
      assert ls == [ls[0]] + ls[1..];
    }
  }

  /** Lossless lexing with maximal munch, both ways: the lexer returns `ls` exactly when `ls`
      covers the source with longest-possible tokens and nothing but trivia between them. */
  lemma {:induction false} LexExact(src: string, i: nat, ls: seq<Located>)
    requires i <= |src|
    ensures LexFrom(src, i) == Ok(ls) <==> Tokenizes(src, i, ls)
  {
    if LexFrom(src, i) == Ok(ls) {
      LexSound(src, i);
    }
    if Tokenizes(src, i, ls) {
      LexComplete(src, i, ls);
    }
  }

  /** Positions strictly increase and exactly one end marker closes the list. */
  lemma {:induction false} LexedShape(src: string, i: nat)
    requires i <= |src| && LexFrom(src, i).Ok?
    ensures var ls := LexFrom(src, i).value;
            && ls != [] && ls[|ls| - 1] == Located(EOF_TOKEN, |src|)
            && (forall k | 0 <= k < |ls| - 1 :: ls[k].token.kind != EOF)
            && (forall k | 0 <= k < |ls| :: i <= ls[k].pos)
            && (forall j, k | 0 <= j < k < |ls| :: ls[j].pos < ls[k].pos)
    decreases |src| - i
  {
    hide NextToken;
    var (t, q) := NextToken(src, i).value;
    NextTokenPlace(src, i);
    if t.token.kind != EOF {
      LexedShape(src, q);
      PlacesCons(t, q, LexFrom(src, q).value);
    }
  }

  lemma {:induction false} NextTokenPlace(src: string, i: nat)
    requires i <= |src| && NextToken(src, i).Ok?
    ensures var (t, q) := NextToken(src, i).value;
            i <= t.pos && if t.token.kind == EOF then t == Located(EOF_TOKEN, |src|) else t.pos < q
  {
    hide SkipTrivia, Scan;
  }

  lemma {:induction false} PlacesCons(l: Located, q: nat, ls: seq<Located>)
    requires l.pos < q && l.token.kind != EOF && ls != [] && forall k | 0 <= k < |ls| :: q <= ls[k].pos
    requires forall j, k | 0 <= j < k < |ls| :: ls[j].pos < ls[k].pos
    requires forall k | 0 <= k < |ls| - 1 :: ls[k].token.kind != EOF
    ensures var all := [l] + ls;
            && all[|all| - 1] == ls[|ls| - 1] && (forall k | 0 <= k < |all| - 1 :: all[k].token.kind != EOF)
            && (forall k | 0 <= k < |all| :: l.pos <= all[k].pos)
            && (forall j, k | 0 <= j < k < |all| :: all[j].pos < all[k].pos)
  {
  }

  /** Lexing again from the end of token `n` gives the tokens after it, positions included. */
  lemma {:induction false} LexFromBoundary(src: string, i: nat, n: nat)
    requires i <= |src| && LexFrom(src, i).Ok? && n + 1 < |LexFrom(src, i).value|
    ensures var ls := LexFrom(src, i).value;
            var q := ls[n].pos + Width(ls[n].token);
            q <= |src| && LexFrom(src, q) == Ok(ls[n + 1..])
    decreases n
  {
    hide LexFrom, NextToken;
    var q := LexTail(src, i);
    if n > 0 {
      LexFromBoundary(src, q, n - 1);
      assert LexFrom(src, i).value[1..][n..] == LexFrom(src, i).value[n + 1..];
    }
  }

  lemma {:induction false} LexTail(src: string, i: nat) returns (q: nat)
    requires i <= |src| && LexFrom(src, i).Ok? && |LexFrom(src, i).value| > 1
    ensures var l := LexFrom(src, i).value[0];
            i < q == l.pos + Width(l.token) <= |src|
    ensures LexFrom(src, q) == Ok(LexFrom(src, i).value[1..])
  {
    hide TokenSpan;
    var p := SkipTrivia(src, i);
    ScanSound(src, p);
    hide Scan, SkipTrivia;
    q := NextToken(src, i).value.1;
  }
}

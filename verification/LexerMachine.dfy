/** The lexer as the Go code runs it: a cursor that `Next` moves over the source. */
module LexerMachine {
  import opened Outcomes
  import opened Chars
  import opened Tokens
  import opened Lexing

  class Lexer {
    const src: string
    var pos: nat

    predicate Valid()
      reads this
    {
      pos <= |src|
    }

    constructor (input: string)
      ensures Valid() && src == input && pos == 0
    {
      src := input;
      pos := 0;
    }

    /** Moves over white space and comments. */
    method SkipBlanks()
      requires Valid()
      modifies this
      ensures Valid() && pos == SkipTrivia(src, old(pos))
    {
      hide SkipTrivia, RunEnd;
      while pos < |src|
        invariant Valid() && SkipTrivia(src, pos) == SkipTrivia(src, old(pos))
        decreases |src| - pos
      {
        SkipTurn(src, pos);
        var c := src[pos];
        if IsSpace(c) {
          pos := pos + 1;
          continue;
        }
        if c == '#' {
          ghost var hash := pos;
          while pos < |src| && src[pos] != '\n'
            invariant hash <= pos <= |src|
            invariant RunEnd(src, pos, NotChar('\n')) == RunEnd(src, hash, NotChar('\n'))
          {
            RunTurn(src, pos, NotChar('\n'));
            pos := pos + 1;
          }
          RunTurn(src, pos, NotChar('\n'));
          continue;
        }
        break;
      }
      SkipTurn(src, pos);
    }

    /** Moves over a run of `p`-characters and returns it. */
    method TakeRun(p: char -> bool) returns (text: string)
      requires Valid()
      modifies this
      ensures Valid() && pos == RunEnd(src, old(pos), p) && text == src[old(pos)..pos]
    {
      text := "";
      while pos < |src| && p(src[pos])
        invariant old(pos) <= pos <= |src| && text == src[old(pos)..pos]
        invariant RunEnd(src, pos, p) == RunEnd(src, old(pos), p)
      {
        text := text + [src[pos]];
        pos := pos + 1;
      }
    }

    /** Reads the longest token at the cursor; only an open string is an error. */
    method ReadToken() returns (r: Result<Token>)
      requires Valid() && pos < |src|
      modifies this
      ensures Valid()
      ensures match Scan(src, old(pos))
              case Ok(v) => r == Ok(v.0) && pos == v.1
              case Err => r == Err
    {
      var c := src[pos];
      if IsQuote(c) {
        pos := pos + 1;
        var text := TakeRun(NotChar(c));
        if pos >= |src| {
          return Err;
        }
        pos := pos + 1;
        return Ok(Token(String, text));
      } else if StartsNumber(src, pos) {
        var text := TakeRun(IsNumberChar);
        return Ok(Token(Number, text));
      } else if IsIdentStart(c) {
        var text := TakeRun(IsIdentChar);
        return Ok(Token(Ident, text));
      } else {
        if pos + 1 < |src| {
          var two := src[pos..pos + 2];
          if IsTwoCharOp(two) {
            pos := pos + 2;
            return Ok(Token(Punct, two));
          }
        }
        pos := pos + 1;
        return Ok(Token(Punct, ByteText(c)));
      }
    }

    /** The next token, or the end marker once only trivia is left. */
    method Next() returns (r: Result<Located>)
      requires Valid()
      modifies this
      ensures Valid()
      ensures match NextToken(src, old(pos))
              case Ok(v) => r == Ok(v.0) && pos == v.1
              case Err => r == Err
    {
      SkipBlanks();
      if pos >= |src| {
        return Ok(Located(EOF_TOKEN, pos));
      }
      var start := pos;
      var t :- ReadToken();
      r := Ok(Located(t, start));
    }
  }

  /** The token loop at the head of Parse. */
  method Tokenize(input: string) returns (r: Result<seq<Located>>)
    ensures r == LexFrom(input, 0)
  {
    var l := new Lexer(input);
    var toks := [];
    while true
      invariant l.Valid() && l.src == input && fresh(l)
      invariant LexFrom(input, 0).Ok? <==> LexFrom(input, l.pos).Ok?
      invariant LexFrom(input, 0).Ok? ==> LexFrom(input, 0).value == toks + LexFrom(input, l.pos).value
      decreases |input| - l.pos
    {
      var t :- l.Next();
      toks := toks + [t];
      if t.token.kind == EOF {
        break;
      }
    }
    r := Ok(toks);
  }
}

/** Tokens of the policy language. Positions are kept beside a token by the lexer only:
    the parser uses them in error wording and nowhere else. */
module Tokens {

  datatype Kind = Ident | Number | String | Punct | EOF

  datatype Token = Token(kind: Kind, text: string)

  const EOF_TOKEN := Token(EOF, "")

  const CLOSE := Token(Punct, "}")

  datatype Located = Located(token: Token, pos: nat)

  /** The tokens without their positions. */
  function Bare(ls: seq<Located>): (ts: seq<Token>)
    ensures |ts| == |ls|
    ensures forall k | 0 <= k < |ls| :: ts[k] == ls[k].token
  {
    seq(|ls|, k requires 0 <= k < |ls| => ls[k].token)
  }
}

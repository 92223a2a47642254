/** The token stream the C/C++ lexer hands to the comment pipeline. The lexer
    itself is not part of this model: a file's tokens, and the tokens of a
    re-lexed comment body, arrive as values of these types. */
module Tokens {

  /** The kinds a token can have; the pipeline compares them by name
      (`"COMMENT"`, `"IDENTIFIER"`). */
  datatype TokenKind = Punctuation | Keyword | Identifier | Literal | Comment

  /** One token: its kind and its spelling (for a comment, the whole comment
      text with its markers). */
  datatype Token = Token(kind: TokenKind, spelling: string)

  predicate IsComment(t: Token)
  {
    t.kind == Comment
  }

  /** The kind names of `tokens`, position by position. */
  function KindsOf(tokens: seq<Token>): seq<TokenKind>
  {
    seq(|tokens|, i requires 0 <= i < |tokens| => tokens[i].kind)
  }
}

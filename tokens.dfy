/** The token stream that PHP's token_get_all produces. The lexer itself is
    not modelled: a file's tokens are given. */
module Tokens {

  /** The token kinds the checker distinguishes; every other kind is
      `OtherKind` with PHP's numeric token id. */
  datatype TokenKind = OpenTag | ConstantEncapsedString | OtherKind(id: int)

  /** token_get_all yields an array [kind, text, line] for most tokens and
      a bare one-character string for punctuation such as `;` or `{`. */
  datatype Token =
    | Tagged(kind: TokenKind, text: string, line: nat)
    | Bare(symbol: char)

  /** `($tokens[0][0] ?? null) === T_OPEN_TAG`: the stream is not empty and
      its first token is an open tag. A bare first token compares its own
      character against the token id and never matches. */
  predicate StartsWithOpenTag(tokens: seq<Token>)
  {
    |tokens| > 0 && tokens[0].Tagged? && tokens[0].kind == OpenTag
  }

  /** `$token[0] == T_CONSTANT_ENCAPSED_STRING`: a quoted string literal
      without interpolation. */
  predicate IsStringLiteral(t: Token)
  {
    t.Tagged? && t.kind == ConstantEncapsedString
  }
}

/** The token trees the macro receives from the compiler, reduced to what
    the parsers look at: identifiers, punctuation characters, literals (as
    their source text) and delimited groups. */
module Tokens {
  datatype Delimiter = Parenthesis | Brace | Bracket | NoDelimiter

  datatype Token =
    | Ident(text: string)
    | Punct(ch: char)
    | Literal(text: string)
    | Group(delimiter: Delimiter, stream: seq<Token>)

  /** What the compiler's lexer guarantees about a token tree, as far as
      the generator depends on it: no identifier, at any depth, holds a
      '$' or a '('. This holds for ASCII identifiers (`V1`), non-ASCII
      ones and raw ones (`r#type`, whose text keeps the `r#`) alike. */
  predicate WellLexed(t: Token)
    decreases t
  {
    match t
    case Ident(s) => '$' !in s && '(' !in s
    case Group(_, ts) => forall i :: 0 <= i < |ts| ==> WellLexed(ts[i])
    case _ => true
  }
}

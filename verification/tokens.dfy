/** The vocabulary shared by the lexer and the parser of the search language:
    token kinds (the names the lexer declares), token values, tokens and the
    ways a call to `SearchParser.parse` can fail. */
module Tokens {

  /** Token kinds: the four declared token names, the nine kinds taken from
      the binary-operator table, and the five single-character literals. */
  datatype Kind =
    | ATTRIBUTE | STRING | INTEGER | NOT
    | EQUAL | NOTEQUAL | GREATEREQUAL | GREATER | LESSEQUAL | LESS
    | IN | AND | OR
    | LBRACKET | RBRACKET | LPAREN | RPAREN | COMMA

  /** A token value: the lexer stores an `int` for INTEGER and a `str` for
      every other kind. */
  datatype Value = Str(s: string) | Int(i: int)

  /** A token; `pos` is the character offset (`lexpos`) where it starts.
      The line number is left out: it stays 1 because no rule advances it. */
  datatype Token = Token(kind: Kind, value: Value, pos: nat)

  /** The value carries a number exactly for INTEGER tokens. */
  predicate Wellformed(t: Token) {
    t.value.Int? <==> t.kind == INTEGER
  }

  predicate AllWellformed(ts: seq<Token>) {
    forall k :: 0 <= k < |ts| ==> Wellformed(ts[k])
  }

  /** The lexeme of each operator and punctuation kind, as the lexer stores
      it in the token's value. */
  function Spelling(k: Kind): string {
    match k
    case EQUAL => "=" case NOTEQUAL => "!=" case GREATEREQUAL => ">=" case GREATER => ">"
    case LESSEQUAL => "<=" case LESS => "<" case IN => "in" case AND => "and" case OR => "or"
    case NOT => "not" case LBRACKET => "[" case RBRACKET => "]" case LPAREN => "(" case RPAREN => ")"
    case COMMA => "," case _ => ""
  }

  /** Why a parse fails.
      - TokenizeError: `t_error` raises ParserException with the rest of the
        input from the offending position and that position;
      - UnknownOperator: the operator lexeme, once re-escaped, is not a key of
        the operator table, and the dictionary lookup raises KeyError;
      - SyntaxError: `p_error` raises ParserException with the offending
        token's value and position;
      - EndOfInput: `p_error` is called with None at end of input and fails
        itself when it reads `p.value` (an AttributeError, not a
        ParserException). */
  datatype Error =
    | TokenizeError(rest: string, pos: nat)
    | UnknownOperator(lexeme: string)
    | SyntaxError(value: Value, pos: nat)
    | EndOfInput
}

/** Token kinds, token payloads and the (ASCII) character classes the lexer tests. */
module Tokens {

  /** The closed set of token types; the names are the lexer's own string constants. */
  datatype Kind =
    | INTEGER | PLUS | MINUS | MUL | DIV | LPAREN | RPAREN | ASSIGN | IDENTIFIER | EOF
    | GREATER | LESS | EQUALS | IF | THEN | ELSE | WHILE | DO | SEMICOLON | LBRACE | RBRACE
    | ERROR

  /** A token's `value`: the matched text, the literal's integer, or None. */
  datatype TokenValue = Str(s: string) | IntVal(n: int) | NoValue

  datatype Token = Token(kind: Kind, value: TokenValue)

  /** `str.isspace` restricted to ASCII: space, \t \n \v \f \r and the separators 0x1C-0x1F. */
  predicate IsSpace(c: char) {
    c == ' ' || '\t' <= c <= '\r' || '\U{1C}' <= c <= '\U{1F}'
  }

  /** `str.isdigit` restricted to ASCII. */
  predicate IsDigit(c: char) {
    '0' <= c <= '9'
  }

  /** `str.isalpha` restricted to ASCII. */
  predicate IsAlpha(c: char) {
    'a' <= c <= 'z' || 'A' <= c <= 'Z'
  }

  /** The characters for which the lexer has a one-character operator or punctuation token. */
  predicate IsOperatorChar(c: char) {
    c == '-' || c == '+' || c == '*' || c == '/' || c == '>' || c == '<' || c == '='
    || c == '(' || c == ')' || c == ';' || c == '{' || c == '}'
  }

  /** A character that the lexer can step over as part of whitespace or a token. */
  predicate KnownChar(c: char) {
    IsSpace(c) || IsDigit(c) || IsAlpha(c) || IsOperatorChar(c)
  }

  /** Kinds whose tokens always consume at least one character of the text. */
  predicate Advances(k: Kind) {
    k != EOF && k != ERROR && k != IDENTIFIER
  }

  /** The operators the parser places in a BinOp node. */
  predicate IsBinaryOperator(k: Kind) {
    k == PLUS || k == MINUS || k == MUL || k == DIV || k == GREATER || k == LESS || k == EQUALS
  }

  predicate IsArithmetic(k: Kind) {
    k == PLUS || k == MINUS || k == MUL || k == DIV
  }

  predicate IsComparison(k: Kind) {
    k == GREATER || k == LESS || k == EQUALS
  }
}

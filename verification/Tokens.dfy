/** Lexical tokens and keyword lookup. A token's position only serves error texts and is
    not kept. */
module Tokens {

  datatype TokenType =
    | IDENT | STRING | INT | FLOAT | PARAM
    | MATCH | WHERE | RETURN | CREATE | MERGE | SET | DELETE | ORDER | BY | LIMIT | SKIP | AS
    | AND | OR | NOT | CONTAINS | IN | CALL | YIELD | ASC | DESC | COUNT | WITH | UNWIND
    | TRUE | FALSE | NULL
    | LPAREN | RPAREN | LBRACKET | RBRACKET | LBRACE | RBRACE | COLON | COMMA | DOT | STAR
    | EQ | NEQ | LT | GT | LTE | GTE | DASH | ARROW | LARROW | PIPE
    | EOF | ILLEGAL

  datatype Token = Token(kind: TokenType, lit: string)

  const KEYWORDS: map<string, TokenType> := map[
    "MATCH" := MATCH, "WHERE" := WHERE, "RETURN" := RETURN, "CREATE" := CREATE, "MERGE" := MERGE,
    "SET" := SET, "DELETE" := DELETE, "ORDER" := ORDER, "BY" := BY, "LIMIT" := LIMIT, "SKIP" := SKIP,
    "AS" := AS, "AND" := AND, "OR" := OR, "NOT" := NOT, "CONTAINS" := CONTAINS, "IN" := IN,
    "CALL" := CALL, "YIELD" := YIELD, "ASC" := ASC, "DESC" := DESC, "COUNT" := COUNT,
    "WITH" := WITH, "UNWIND" := UNWIND, "TRUE" := TRUE, "FALSE" := FALSE, "NULL" := NULL]

  function LookupIdent(upper: string): TokenType {
    if upper in KEYWORDS then KEYWORDS[upper] else IDENT
  }

  /** Upper-casing as far as keyword lookup can tell: dotless i and long s are the only
      non-ASCII letters whose upper case is ASCII. */
  function Upper(c: char): char {
    if 'a' <= c <= 'z' then (c - 'a') + 'A'
    else if c == '\U{131}' then 'I'
    else if c == '\U{17F}' then 'S'
    else c
  }

  function ToUpper(s: string): (r: string)
    ensures |r| == |s| && forall i | 0 <= i < |s| :: r[i] == Upper(s[i])
  {
    seq(|s|, i requires 0 <= i < |s| => Upper(s[i]))
  }

  predicate Ends(t: Token) {
    t.kind.EOF? || t.kind.ILLEGAL?
  }
}

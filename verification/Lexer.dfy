/** The lexer: an object advancing over the input, and the tokens it reads off. */
module Lexer {
  import opened Results
  import opened Tokens

  /** Unicode character classes. Beyond ASCII only their disjointness is used. */
  datatype CharClass = CharClass(isSpace: char -> bool, isDigit: char -> bool, isLetter: char -> bool) {
    ghost predicate Ok() {
      && (forall c: char :: !(isSpace(c) && isDigit(c)) && !(isSpace(c) && isLetter(c)) && !(isDigit(c) && isLetter(c)))
      && (forall c: char | c as int < 128 ::
            && (isSpace(c) <==> c == ' ' || '\t' <= c <= '\r')
            && (isDigit(c) <==> '0' <= c <= '9')
            && (isLetter(c) <==> 'a' <= c <= 'z' || 'A' <= c <= 'Z'))
    }

    predicate IdentChar(c: char) {
      isLetter(c) || isDigit(c) || c == '_'
    }
  }

  // ---------- the tokens of a text ----------

  function SkipSpace(s: string, cc: CharClass): (r: string)
    ensures |r| <= |s| && r == s[|s| - |r|..]
    ensures r != [] ==> !cc.isSpace(r[0])
  {
    if s != [] && cc.isSpace(s[0]) then SkipSpace(s[1..], cc) else s
  }

  /** A string literal's text, unescaped, and what follows its closing quote; or the text
      of a literal that is never closed. */
  datatype Body = Closed(text: string, rest: string) | Open(text: string) {
    function After(front: string): Body {
      if Closed? then Closed(front + text, rest) else Open(front + text)
    }
  }

  function StringBody(s: string, quote: char): (r: Body)
    ensures r.Closed? ==> |r.rest| < |s| && r.rest == s[|s| - |r.rest|..]
  {
    if s == [] then Open("")
    else if s[0] == quote then Closed("", s[1..])
    else if s[0] == '\\' && |s| > 1 then StringBody(s[2..], quote).After([Unescape(s[1])])
    else StringBody(s[1..], quote).After([s[0]])
  }

  lemma AfterAfter(b: Body, x: string, y: string)
    ensures b.After(y).After(x) == b.After(x + y)
  {
    assert x + (y + b.text) == (x + y) + b.text;
  }

  lemma AfterNothing(b: Body)
    ensures b.After("") == b
  {
  }

  lemma AfterEnds(front: string, rest: string)
    ensures Closed("", rest).After(front) == Closed(front, rest) && Open("").After(front) == Open(front)
  {
  }

  lemma BodyStep(s: string, i: nat, quote: char)
    requires i <= |s|
    ensures i == |s| ==> StringBody(s[i..], quote) == Open("")
    ensures i < |s| && s[i] == quote ==> StringBody(s[i..], quote) == Closed("", s[i + 1..])
    ensures i + 1 < |s| && s[i] != quote && s[i] == '\\'
        ==> StringBody(s[i..], quote) == StringBody(s[i + 2..], quote).After([Unescape(s[i + 1])])
    ensures i < |s| && s[i] != quote && (s[i] != '\\' || i + 1 == |s|)
        ==> StringBody(s[i..], quote) == StringBody(s[i + 1..], quote).After([s[i]])
  {
    if i < |s| {
      assert s[i..][1..] == s[i + 1..];
      if i + 1 < |s| { assert s[i..][2..] == s[i + 2..]; }
    }
  }

  function Unescape(c: char): char {
    if c == 'n' then '\n' else if c == 't' then '\t' else c
  }

  /** How far a number reaches, digits with at most one dot, and whether it has the dot. */
  function NumberShape(s: string, dotted: bool, cc: CharClass): (r: (nat, bool))
    ensures r.0 <= |s|
  {
    if s != [] && (cc.isDigit(s[0]) || (s[0] == '.' && !dotted)) then
      var more := NumberShape(s[1..], dotted || s[0] == '.', cc);
      (1 + more.0, more.1)
    else
      (0, dotted)
  }

  lemma NumberStep(s: string, i: nat, dotted: bool, cc: CharClass)
    requires i <= |s|
    ensures var r := NumberShape(s[i..], dotted, cc);
            if i < |s| && (cc.isDigit(s[i]) || (s[i] == '.' && !dotted)) then
              r == (1 + NumberShape(s[i + 1..], dotted || s[i] == '.', cc).0, NumberShape(s[i + 1..], dotted || s[i] == '.', cc).1)
            else
              r == (0, dotted)
  {
    if i < |s| { assert s[i..][1..] == s[i + 1..]; }
  }

  function IdentLength(s: string, cc: CharClass): (n: nat)
    ensures n <= |s|
    ensures forall i | 0 <= i < n :: cc.IdentChar(s[i])
    ensures n < |s| ==> !cc.IdentChar(s[n])
  {
    if s != [] && cc.IdentChar(s[0]) then 1 + IdentLength(s[1..], cc) else 0
  }

  lemma IdentStep(s: string, i: nat, cc: CharClass)
    requires i <= |s|
    ensures IdentLength(s[i..], cc) == if i < |s| && cc.IdentChar(s[i]) then 1 + IdentLength(s[i + 1..], cc) else 0
  {
    if i < |s| { assert s[i..][1..] == s[i + 1..]; }
  }

  function IdentToken(s: string, cc: CharClass): (Token, string) {
    var n := IdentLength(s, cc);
    (Token(LookupIdent(ToUpper(s[..n])), s[..n]), s[n..])
  }

  function OneCharKind(c: char): TokenType {
    match c
    case '(' => LPAREN case ')' => RPAREN case '[' => LBRACKET case ']' => RBRACKET
    case '{' => LBRACE case '}' => RBRACE case ':' => COLON case ',' => COMMA case '.' => DOT
    case '*' => STAR case '|' => PIPE case '=' => EQ case '<' => LT case '>' => GT case '-' => DASH
    case _ => ILLEGAL
  }

  /** Operators of two characters. */
  function TwoCharKind(c: char, d: char): Option<TokenType> {
    if c == '<' && d == '>' then Some(NEQ)
    else if c == '<' && d == '=' then Some(LTE)
    else if c == '<' && d == '-' then Some(LARROW)
    else if c == '>' && d == '=' then Some(GTE)
    else if c == '-' && d == '>' then Some(ARROW)
    else None
  }

  /** The token at the front of a text without leading space, and what follows. */
  function FirstToken(s: string, cc: CharClass): (r: (Token, string))
    requires s != []
    ensures !r.0.kind.EOF? && (r.0.kind.ILLEGAL? || |r.1| < |s|)
  {
    var c := s[0];
    if c == '\'' || c == '"' then
      var body := StringBody(s[1..], c);
      if body.Open? then (Token(ILLEGAL, body.text), "") else (Token(STRING, body.text), body.rest)
    else if cc.isDigit(c) then
      var (n, dotted) := NumberShape(s, false, cc);
      (Token(if dotted then FLOAT else INT, s[..n]), s[n..])
    else if cc.isLetter(c) || c == '_' then
      IdentToken(s, cc)
    else if c == '$' then
      var (tok, rest) := IdentToken(s[1..], cc);
      (Token(PARAM, "$" + tok.lit), rest)
    else
      SymbolToken(s)
  }

  function SymbolToken(s: string): (Token, string)
    requires s != []
  {
    if |s| > 1 && TwoCharKind(s[0], s[1]).Some? then
      (Token(TwoCharKind(s[0], s[1]).value, s[..2]), s[2..])
    else
      (Token(OneCharKind(s[0]), [s[0]]), s[1..])
  }

  function NextToken(s: string, cc: CharClass): (r: (Token, string))
    ensures |r.1| <= |s|
    ensures r.0.kind.EOF? ==> r.1 == []
    ensures !Ends(r.0) ==> |r.1| < |s|
  {
    var t := SkipSpace(s, cc);
    if t == [] then (Token(EOF, ""), "") else FirstToken(t, cc)
  }

  /** The last token, and no other, ends the list. */
  predicate EndsOnce(ts: seq<Token>) {
    ts != [] && Ends(ts[|ts| - 1]) && forall i | 0 <= i < |ts| - 1 :: !Ends(ts[i])
  }

  lemma EndsOnceMore(tok: Token, ts: seq<Token>)
    requires EndsOnce(ts) && !Ends(tok)
    ensures EndsOnce([tok] + ts)
  {
  }

  /** All tokens up to and including the first end of input or illegal token. */
  function TokensOf(s: string, cc: CharClass): (ts: seq<Token>)
    ensures EndsOnce(ts)
    ensures |ts| <= |s| + 1
    decreases |s|
  {
    hide NextToken;
    var (tok, rest) := NextToken(s, cc);
    if Ends(tok) then
      [tok]
    else
      var more := TokensOf(rest, cc);
      EndsOnceMore(tok, more);
      [tok] + more
  }

  // ---------- the lexer object ----------

  class LexerState {
    const input: string
    const cc: CharClass
    var pos: nat

    constructor (text: string, classes: CharClass)
      ensures input == text && cc == classes && pos == 0
    {
      input, cc, pos := text, classes, 0;
    }

    /** What has not been read yet. */
    function Rest(): string
      reads this
    {
      if pos <= |input| then input[pos..] else ""
    }

    predicate Valid()
      reads this
    {
      pos <= |input|
    }

    method SkipWhitespace()
      requires Valid()
      modifies this
      ensures Valid() && Rest() == SkipSpace(old(Rest()), cc)
    {
      while pos < |input| && cc.isSpace(input[pos])
        invariant Valid()
        invariant SkipSpace(Rest(), cc) == SkipSpace(old(Rest()), cc)
        decreases |input| - pos
      {
        assert input[pos..][1..] == input[pos + 1..];
        pos := pos + 1;
      }
    }

    method ReadString(quote: char) returns (tok: Token)
      requires Valid() && Rest() != []
      modifies this
      ensures Valid()
      ensures match StringBody(old(Rest())[1..], quote)
              case Closed(text, rest) => tok == Token(STRING, text) && Rest() == rest
              case Open(text) => tok == Token(ILLEGAL, text) && Rest() == ""
    {
      hide StringBody;
      assert input[pos..][1..] == input[pos + 1..];
      pos := pos + 1;
      ghost var body := StringBody(input[pos..], quote);
      var closed, text := ReadBody(quote);
      tok := Token(if closed then STRING else ILLEGAL, text);
    }

    /** The characters up to the closing quote, unescaped. */
    method ReadBody(quote: char) returns (closed: bool, sb: string)
      requires Valid()
      modifies this
      ensures Valid()
      ensures StringBody(old(Rest()), quote) == if closed then Closed(sb, Rest()) else Open(sb)
      ensures !closed ==> Rest() == ""
    {
      hide StringBody, Unescape, Body.After;
      ghost var body := StringBody(input[pos..], quote);
      sb := "";
      AfterNothing(body);
      while pos < |input|
        invariant Valid()
        invariant StringBody(input[pos..], quote).After(sb) == body
        decreases |input| - pos
      {
        var ch := input[pos];
        BodyStep(input, pos, quote);
        pos := pos + 1;
        if ch == quote {
          AfterEnds(sb, input[pos..]);
          return true, sb;
        }
        if ch == '\\' && pos < |input| {
          AfterAfter(StringBody(input[pos + 1..], quote), sb, [Unescape(input[pos])]);
          sb := sb + [Unescape(input[pos])];
          pos := pos + 1;
        } else {
          AfterAfter(StringBody(input[pos..], quote), sb, [ch]);
          sb := sb + [ch];
        }
      }
      BodyStep(input, pos, quote);
      AfterEnds(sb, "");
      closed := false;
    }

    method ReadNumber() returns (tok: Token)
      requires Valid() && Rest() != [] && !cc.isDigit('.')
      modifies this
      ensures Valid()
      ensures var s := old(Rest()); var n := NumberShape(s, false, cc);
              tok == Token(if n.1 then FLOAT else INT, s[..n.0]) && Rest() == s[n.0..]
    {
      hide NumberShape;
      var start := pos;
      var isFloat := false;
      ghost var shape := NumberShape(input[pos..], false, cc);
      while pos < |input| && (cc.isDigit(input[pos]) || input[pos] == '.')
        invariant start <= pos <= |input|
        invariant shape.0 == (pos - start) + NumberShape(input[pos..], isFloat, cc).0
        invariant shape.1 == NumberShape(input[pos..], isFloat, cc).1
        decreases |input| - pos
      {
        NumberStep(input, pos, isFloat, cc);
        if input[pos] == '.' {
          if isFloat { break; }
          isFloat := true;
        }
        pos := pos + 1;
      }
      NumberStep(input, pos, isFloat, cc);
      assert input[start..][..pos - start] == input[start..pos];
      assert input[start..][pos - start..] == input[pos..];
      tok := Token(if isFloat then FLOAT else INT, input[start..pos]);
    }

    method ReadIdentOrKeyword() returns (tok: Token)
      requires Valid()
      modifies this
      ensures Valid() && (tok, Rest()) == IdentToken(old(Rest()), cc)
    {
      hide LookupIdent, ToUpper, IdentLength;
      var start := pos;
      ghost var s := input[pos..];
      while pos < |input| && cc.IdentChar(input[pos])
        invariant start <= pos <= |input|
        invariant IdentLength(s, cc) == (pos - start) + IdentLength(input[pos..], cc)
        decreases |input| - pos
      {
        IdentStep(input, pos, cc);
        pos := pos + 1;
      }
      IdentStep(input, pos, cc);
      assert s[..pos - start] == input[start..pos];
      assert s[pos - start..] == input[pos..];
      var lit := input[start..pos];
      tok := Token(LookupIdent(ToUpper(lit)), lit);
    }

    method Next() returns (tok: Token)
      requires Valid() && cc.Ok()
      modifies this
      ensures Valid() && (tok, Rest()) == NextToken(old(Rest()), cc)
    {
      SkipWhitespace();
      if pos >= |input| {
        return Token(EOF, "");
      }
      ghost var s := Rest();
      var ch := input[pos];
      assert s[0] == ch;
      if ch == '\'' || ch == '"' {
        tok := ReadString(ch);
        return;
      }
      if cc.isDigit(ch) {
        assert '.' as int < 128;
        tok := ReadNumber();
        return;
      }
      if cc.isLetter(ch) || ch == '_' {
        tok := ReadIdentOrKeyword();
        return;
      }
      if ch == '$' {
        tok := ReadParameter();
        return;
      }
      tok := ReadSymbol();
    }

    method ReadParameter() returns (tok: Token)
      requires Valid() && Rest() != []
      modifies this
      ensures Valid()
      ensures var t := IdentToken(old(Rest())[1..], cc); tok == Token(PARAM, "$" + t.0.lit) && Rest() == t.1
    {
      assert input[pos..][1..] == input[pos + 1..];
      pos := pos + 1;
      tok := ReadIdentOrKeyword();
      tok := Token(PARAM, "$" + tok.lit);
    }

    method ReadSymbol() returns (tok: Token)
      requires Valid() && Rest() != []
      modifies this
      ensures Valid() && (tok, Rest()) == SymbolToken(old(Rest()))
    {
      ghost var s := Rest();
      var ch := input[pos];
      assert s[0] == ch && input[pos + 1..] == s[1..];
      pos := pos + 1;
      if pos < |input| {
        var two := TwoCharKind(ch, input[pos]);
        assert s[1] == input[pos] && input[pos + 1..] == s[2..];
        if two.Some? {
          pos := pos + 1;
          assert s[..2] == [ch, input[pos - 1]];
          return Token(two.value, [ch, input[pos - 1]]);
        }
      }
      tok := Token(OneCharKind(ch), [ch]);
    }
  }

  lemma TokensStep(s: string, cc: CharClass)
    ensures var n := NextToken(s, cc); var ts := TokensOf(s, cc);
            ts != [] && ts[0] == n.0 && ts[1..] == if Ends(n.0) then [] else TokensOf(n.1, cc)
  {
  }

  method Tokenize(input: string, cc: CharClass) returns (tokens: seq<Token>)
    requires cc.Ok()
    ensures tokens == TokensOf(input, cc)
  {
    hide NextToken, TokensOf, SkipSpace, FirstToken;
    var l := new LexerState(input, cc);
    tokens := [];
    ghost var all, left := TokensOf(input, cc), TokensOf(input, cc);
    var done := false;
    assert l.Rest() == input;
    while !done
      invariant l.Valid() && l.cc == cc
      invariant left == if done then [] else TokensOf(l.Rest(), cc)
      invariant all == tokens + left
      decreases !done, |l.Rest()|
    {
      TokensStep(l.Rest(), cc);
      var tok := l.Next();
      Shift(all, tokens, left);
      left := left[1..];
      tokens := tokens + [tok];
      done := Ends(tok);
    }
  }

  lemma Shift<T>(all: seq<T>, done: seq<T>, left: seq<T>)
    requires all == done + left && left != []
    ensures all == (done + [left[0]]) + left[1..]
  {
  }
}

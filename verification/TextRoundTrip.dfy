/** Tokenising and parsing the text of a printed statement gives the statement back. */
module TextRoundTrip {
  import opened Results
  import opened Text
  import opened Ast
  import opened Tokens
  import opened Lexer
  import opened Printer
  import G = Grammar
  import Parser
  import S = StatementRoundTrip

  // ---------- tokens that read back ----------

  predicate SymbolKind(k: TokenType) {
    k.LPAREN? || k.RPAREN? || k.LBRACKET? || k.RBRACKET? || k.LBRACE? || k.RBRACE? || k.COLON? || k.COMMA? || k.DOT?
    || k.STAR? || k.EQ? || k.NEQ? || k.LT? || k.GT? || k.LTE? || k.GTE? || k.DASH? || k.ARROW? || k.LARROW?
  }

  predicate TokenOk(t: Token, cc: CharClass) {
    || (SymbolKind(t.kind) && t.lit == SymText(t.kind))
    || (IdentShape(t.lit, cc) && t.kind == LookupIdent(ToUpper(t.lit)))
    || (t.kind.INT? && t.lit != "" && AllDigits(t.lit))
    || (t.kind.FLOAT? && IsFloatText(t.lit, cc))
    || t.kind.STRING?
    || (t.kind.PARAM? && t.lit != "" && t.lit[0] == '$' && forall i | 1 <= i < |t.lit| :: cc.IdentChar(t.lit[i]))
  }

  /** A symbol's text is one or two punctuation marks, and no one-mark symbol starts a
      two-mark one that goes on with a space. */
  lemma SymbolText(kind: TokenType)
    requires SymbolKind(kind)
    ensures var t := SymText(kind);
            && 1 <= |t| <= 2
            && ('(' <= t[0] <= '.' || ':' <= t[0] <= '>' || '[' <= t[0] <= ']' || '{' <= t[0] <= '}')
            && if |t| == 1 then OneCharKind(t[0]) == kind && TwoCharKind(t[0], ' ').None? else TwoCharKind(t[0], t[1]) == Some(kind)
  {
    hide OneCharKind, TwoCharKind, SymText;
    SymbolMarks(kind);
    if |SymText(kind)| == 1 {
      OneMark(kind);
    } else {
      TwoMarks(kind);
    }
  }

  lemma SymbolMarks(kind: TokenType)
    requires SymbolKind(kind)
    ensures var t := SymText(kind);
            1 <= |t| <= 2 && ('(' <= t[0] <= '.' || ':' <= t[0] <= '>' || '[' <= t[0] <= ']' || '{' <= t[0] <= '}')
  {
  }

  lemma OneMark(kind: TokenType)
    requires SymbolKind(kind) && |SymText(kind)| == 1
    ensures OneCharKind(SymText(kind)[0]) == kind && TwoCharKind(SymText(kind)[0], ' ').None?
  {
  }

  lemma TwoMarks(kind: TokenType)
    requires SymbolKind(kind) && |SymText(kind)| == 2
    ensures TwoCharKind(SymText(kind)[0], SymText(kind)[1]) == Some(kind)
  {
  }

  lemma SymbolBack(kind: TokenType, rest: string)
    requires SymbolKind(kind)
    ensures SymbolToken(SymText(kind) + (" " + rest)) == (Token(kind, SymText(kind)), " " + rest)
  {
    hide SymText, SymbolKind, OneCharKind, TwoCharKind;
    SymbolText(kind);
    var t := SymText(kind);
    var s := t + (" " + rest);
    assert s[0] == t[0] && s[|t|..] == " " + rest && s[..|t|] == t;
    assert s[1] == if |t| == 1 then ' ' else t[1];
    assert |t| == 1 ==> t == [t[0]];
  }

  lemma IdentBack(lit: string, rest: string, cc: CharClass)
    requires cc.Ok() && forall i | 0 <= i < |lit| :: cc.IdentChar(lit[i])
    ensures IdentToken(lit + (" " + rest), cc) == (Token(LookupIdent(ToUpper(lit)), lit), " " + rest)
  {
    hide LookupIdent, ToUpper;
    var s := lit + (" " + rest);
    assert s[|lit|] == ' ';
    assert !cc.IdentChar(' ') by { assert cc.isSpace(' '); }
    assert forall i | 0 <= i < |lit| :: s[i] == lit[i];
    assert IdentLength(s, cc) == |lit|;
    assert s[..|lit|] == lit && s[|lit|..] == " " + rest;
  }

  lemma {:induction false} DigitsShape(lit: string, cc: CharClass)
    requires cc.Ok() && AllDigits(lit)
    ensures NumberShape(lit, false, cc) == (|lit|, false)
  {
    if lit != "" { DigitsShape(lit[1..], cc); }
  }

  lemma {:induction false} ShapeStops(lit: string, rest: string, dotted: bool, cc: CharClass)
    requires cc.Ok() && NumberShape(lit, dotted, cc).0 == |lit|
    ensures NumberShape(lit + (" " + rest), dotted, cc) == NumberShape(lit, dotted, cc)
  {
    var s := lit + (" " + rest);
    if lit == "" {
      assert s[0] == ' ' && cc.isSpace(' ');
    } else {
      assert s[1..] == lit[1..] + (" " + rest);
      ShapeStops(lit[1..], rest, dotted || lit[0] == '.', cc);
    }
  }

  lemma NumberBack(t: Token, rest: string, cc: CharClass)
    requires cc.Ok() && TokenOk(t, cc) && (t.kind.INT? || t.kind.FLOAT?) && !IdentShape(t.lit, cc)
    ensures FirstToken(t.lit + (" " + rest), cc) == (t, " " + rest)
  {
    hide LookupIdent, ToUpper, NumberShape, IdentShape;
    if t.kind.INT? { DigitsShape(t.lit, cc); }
    ShapeStops(t.lit, rest, false, cc);
    var s := t.lit + (" " + rest);
    assert s[..|t.lit|] == t.lit && s[|t.lit|..] == " " + rest;
    assert s[0] == t.lit[0] && cc.isDigit(s[0]);
    assert !cc.isDigit('\'') && !cc.isDigit('"');
  }

  lemma EscapedCharBack(c: char, tail: string, text: string, rest: string)
    requires StringBody(tail, '\'') == Closed(text, rest)
    ensures StringBody(EscapeChar(c) + tail, '\'') == Closed([c] + text, rest)
  {
    if c == '\'' || c == '\\' {
      assert (['\\', c] + tail)[2..] == tail;
    } else {
      assert ([c] + tail)[1..] == tail;
    }
  }

  lemma {:induction false} EscapeBack(s: string, rest: string)
    ensures StringBody(Escape(s) + ("'" + rest), '\'') == Closed(s, rest)
  {
    hide StringBody, EscapeChar;
    if s == "" {
      QuoteCloses(rest);
      assert Escape(s) + ("'" + rest) == "'" + rest;
    } else {
      EscapeBack(s[1..], rest);
      EscapedCharBack(s[0], Escape(s[1..]) + ("'" + rest), s[1..], rest);
      EscapeStep(s, "'" + rest);
      assert [s[0]] + s[1..] == s;
    }
  }

  lemma EscapeStep(s: string, rest: string)
    requires s != ""
    ensures Escape(s) + rest == EscapeChar(s[0]) + (Escape(s[1..]) + rest)
  {
    hide EscapeChar;
  }

  lemma QuoteCloses(rest: string)
    ensures StringBody("'" + rest, '\'') == Closed("", rest)
  {
    assert ("'" + rest)[1..] == rest;
  }

  lemma StringBack(lit: string, rest: string, cc: CharClass)
    ensures FirstToken(TokenText(Token(STRING, lit)) + (" " + rest), cc) == (Token(STRING, lit), " " + rest)
  {
    var s := TokenText(Token(STRING, lit)) + (" " + rest);
    assert s[1..] == Escape(lit) + ("'" + (" " + rest));
    EscapeBack(lit, " " + rest);
  }

  lemma ParamBack(t: Token, rest: string, cc: CharClass)
    requires cc.Ok() && TokenOk(t, cc) && t.kind.PARAM? && !IdentShape(t.lit, cc)
    ensures FirstToken(t.lit + (" " + rest), cc) == (t, " " + rest)
  {
    hide LookupIdent, ToUpper, IdentShape, IdentToken;
    LookupNoParam(ToUpper(t.lit));
    var name := t.lit[1..];
    var s := t.lit + (" " + rest);
    assert s[1..] == name + (" " + rest);
    IdentBack(name, rest, cc);
    assert s[0] == '$' && !cc.isDigit('$') && !cc.isLetter('$');
    assert "$" + name == t.lit;
  }

  const WORDS: set<TokenType> := KEYWORDS.Values

  /** A lookup gives a keyword or a plain name. */
  lemma LookupIsWord(upper: string)
    ensures LookupIdent(upper).IDENT? || LookupIdent(upper) in WORDS
  {
    if upper in KEYWORDS { assert KEYWORDS[upper] in KEYWORDS.Values; }
  }

  lemma LookupNoParam(upper: string)
    ensures var k := LookupIdent(upper); !k.PARAM? && !k.INT? && !k.FLOAT? && !k.STRING? && !SymbolKind(k) && !k.EOF? && !k.ILLEGAL?
  {
    hide LookupIdent;
    LookupIsWord(upper);
  }

  lemma WordBack(t: Token, rest: string, cc: CharClass)
    requires cc.Ok() && IdentShape(t.lit, cc) && t.kind == LookupIdent(ToUpper(t.lit))
    ensures FirstToken(t.lit + (" " + rest), cc) == (t, " " + rest)
  {
    hide LookupIdent, ToUpper, IdentToken;
    IdentBack(t.lit, rest, cc);
    var c := (t.lit + (" " + rest))[0];
    assert c == t.lit[0] && !cc.isDigit('_') && !cc.isLetter('\'') && !cc.isLetter('"');
  }

  lemma SymbolFirst(kind: TokenType, rest: string, cc: CharClass)
    requires cc.Ok() && SymbolKind(kind)
    ensures FirstToken(SymText(kind) + (" " + rest), cc) == (Token(kind, SymText(kind)), " " + rest)
  {
    hide SymText, SymbolKind, SymbolToken;
    SymbolText(kind);
    SymbolBack(kind, rest);
    var c := SymText(kind)[0];
    assert (SymText(kind) + (" " + rest))[0] == c;
    assert !cc.isDigit(c) && !cc.isLetter(c);
  }

  /** The token at the front of a token's text, with a space behind, is that token. */
  lemma FirstBack(t: Token, rest: string, cc: CharClass)
    requires cc.Ok() && TokenOk(t, cc)
    ensures TokenText(t) != "" && !cc.isSpace(TokenText(t)[0])
    ensures FirstToken(TokenText(t) + (" " + rest), cc) == (t, " " + rest)
  {
    hide LookupIdent, ToUpper, FirstToken;
    LookupNoParam(ToUpper(t.lit));
    if IdentShape(t.lit, cc) && t.kind == LookupIdent(ToUpper(t.lit)) {
      WordBack(t, rest, cc);
    } else if t.kind.STRING? {
      StringBack(t.lit, rest, cc);
    } else if t.kind.PARAM? {
      assert !IdentShape(t.lit, cc) by { assert !cc.isLetter('$'); }
      ParamBack(t, rest, cc);
    } else if SymbolKind(t.kind) {
      SymbolFirst(t.kind, rest, cc);
      SymbolStarts(t.kind, cc);
    } else {
      assert cc.isDigit(t.lit[0]);
      NumberBack(t, rest, cc);
    }
  }

  lemma SymbolStarts(kind: TokenType, cc: CharClass)
    requires cc.Ok() && SymbolKind(kind)
    ensures SymText(kind) != "" && !cc.isSpace(SymText(kind)[0])
  {
    hide SymText, SymbolKind;
    SymbolText(kind);
  }

  lemma SpaceSkipped(s: string, cc: CharClass)
    requires cc.Ok()
    ensures TokensOf(" " + s, cc) == TokensOf(s, cc)
  {
    assert cc.isSpace(' ');
    assert (" " + s)[1..] == s;
    assert SkipSpace(" " + s, cc) == SkipSpace(s, cc);
  }

  lemma NextBack(t: Token, rest: string, cc: CharClass)
    requires cc.Ok() && TokenOk(t, cc)
    ensures NextToken(TokenText(t) + (" " + rest), cc) == (t, " " + rest) && !Ends(t)
  {
    hide FirstToken, TokenText, TokenOk;
    FirstBack(t, rest, cc);
    assert (TokenText(t) + (" " + rest))[0] == TokenText(t)[0];
    NotEnding(t, cc);
  }

  lemma NotEnding(t: Token, cc: CharClass)
    requires TokenOk(t, cc)
    ensures !Ends(t)
  {
    LookupNoParam(ToUpper(t.lit));
  }

  predicate AllOk(ts: seq<Token>, cc: CharClass) {
    forall t | t in ts :: TokenOk(t, cc)
  }

  /** Tokenising the text of a token list gives the list and the end of input. */
  lemma {:induction false} TokensBack(ts: seq<Token>, cc: CharClass)
    requires cc.Ok() && AllOk(ts, cc)
    ensures TokensOf(TokensText(ts), cc) == ts + [Token(EOF, "")]
    decreases |ts|
  {
    hide TokenOk, TokenText, NextToken;
    if ts == [] {
      EndOfText(cc);
    } else {
      var rest := TokensText(ts[1..]);
      assert TokensText(ts) == TokenText(ts[0]) + (" " + rest);
      NextBack(ts[0], rest, cc);
      SpaceSkipped(rest, cc);
      TokensBack(ts[1..], cc);
      assert ts == [ts[0]] + ts[1..];
    }
  }

  lemma EndOfText(cc: CharClass)
    ensures TokensOf("", cc) == [Token(EOF, "")]
  {
  }

  // ---------- printed tokens read back ----------

  predicate KeywordKind(k: TokenType) {
    k.MATCH? || k.WHERE? || k.RETURN? || k.CREATE? || k.MERGE? || k.SET? || k.DELETE? || k.ORDER? || k.BY? || k.LIMIT?
    || k.SKIP? || k.AS? || k.AND? || k.OR? || k.NOT? || k.CONTAINS? || k.IN? || k.CALL? || k.YIELD? || k.DESC?
    || k.TRUE? || k.FALSE? || k.NULL?
  }

  lemma UpperKeeps(s: string)
    requires forall i | 0 <= i < |s| :: 'A' <= s[i] <= 'Z'
    ensures ToUpper(s) == s
  {
  }

  lemma KeywordText(kind: TokenType)
    requires KeywordKind(kind)
    ensures SymText(kind) != "" && forall i | 0 <= i < |SymText(kind)| :: 'A' <= SymText(kind)[i] <= 'Z'
  {
  }

  lemma ReadingKeywords()
    ensures LookupIdent("MATCH") == MATCH
    ensures LookupIdent("WHERE") == WHERE
    ensures LookupIdent("RETURN") == RETURN
  {
  }

  lemma WritingKeywords()
    ensures LookupIdent("CREATE") == CREATE
    ensures LookupIdent("MERGE") == MERGE
    ensures LookupIdent("SET") == SET
  {
  }

  lemma RemovalKeywords()
    ensures LookupIdent("DELETE") == DELETE
    ensures LookupIdent("CALL") == CALL
    ensures LookupIdent("YIELD") == YIELD
  {
  }

  lemma OrderingKeywords()
    ensures LookupIdent("ORDER") == ORDER
    ensures LookupIdent("BY") == BY
    ensures LookupIdent("DESC") == DESC
  {
  }

  lemma SlicingKeywords()
    ensures LookupIdent("LIMIT") == LIMIT
    ensures LookupIdent("SKIP") == SKIP
    ensures LookupIdent("AS") == AS
  {
  }

  lemma LogicalKeywords()
    ensures LookupIdent("AND") == AND
    ensures LookupIdent("OR") == OR
    ensures LookupIdent("NOT") == NOT
  {
  }

  lemma MembershipKeywords()
    ensures LookupIdent("CONTAINS") == CONTAINS
    ensures LookupIdent("IN") == IN
  {
  }

  lemma LiteralKeywords()
    ensures LookupIdent("TRUE") == TRUE
    ensures LookupIdent("FALSE") == FALSE
    ensures LookupIdent("NULL") == NULL
  {
  }

  lemma KeywordBack(kind: TokenType)
    requires KeywordKind(kind)
    ensures LookupIdent(SymText(kind)) == kind
  {
    hide LookupIdent;
    ReadingKeywords();
    WritingKeywords();
    RemovalKeywords();
    OrderingKeywords();
    SlicingKeywords();
    LogicalKeywords();
    MembershipKeywords();
    LiteralKeywords();
  }

  lemma SymOk(kind: TokenType, cc: CharClass)
    requires cc.Ok() && (KeywordKind(kind) || SymbolKind(kind))
    ensures TokenOk(Sym(kind), cc)
  {
    hide LookupIdent, ToUpper;
    if KeywordKind(kind) {
      KeywordText(kind);
      KeywordBack(kind);
      UpperKeeps(SymText(kind));
      assert forall c: char | 'A' <= c <= 'Z' :: cc.IdentChar(c);
    }
  }

  lemma NameToken(name: string, cc: CharClass)
    requires IdentShape(name, cc)
    ensures TokenOk(Name(name), cc)
  {
    hide LookupIdent, ToUpper, IdentShape;
  }

  lemma SymsOk(cc: CharClass)
    requires cc.Ok()
    ensures forall kind | KeywordKind(kind) || SymbolKind(kind) :: AllOk([Sym(kind)], cc)
  {
    hide TokenOk, KeywordKind, SymbolKind, SymText;
    forall kind | KeywordKind(kind) || SymbolKind(kind) ensures AllOk([Sym(kind)], cc) {
      SymOk(kind, cc);
    }
  }

  lemma Joined(a: seq<Token>, b: seq<Token>, cc: CharClass)
    requires AllOk(a, cc) && AllOk(b, cc)
    ensures AllOk(a + b, cc)
  {
    hide TokenOk;
  }

  /** Tokens between an opening and a closing one. */
  lemma Surrounded(open: TokenType, a: seq<Token>, close: TokenType, cc: CharClass)
    requires cc.Ok() && SymbolKind(open) && SymbolKind(close) && AllOk(a, cc)
    ensures AllOk([Sym(open)] + a, cc) && AllOk([Sym(open)] + a + [Sym(close)], cc)
  {
    hide TokenOk, SymText;
    SymsOk(cc);
  }

  lemma LiteralToksOk(l: Literal, cc: CharClass)
    requires cc.Ok() && LiteralOk(l, cc)
    ensures AllOk(PrintLiteral(l), cc)
  {
    hide SymText, IdentShape, LookupIdent, ToUpper, IsFloatText;
    SymsOk(cc);
    match l {
      case IntLit(i) => DecimalDigits(if i < 0 then -i else i);
      case _ =>
    }
  }

  lemma {:induction false} ExprToksOk(e: Expr, cc: CharClass)
    requires cc.Ok() && ExprOk(e, cc)
    ensures Compound(e) ==> AllOk(PrintBare(e), cc)
    ensures AllOk(PrintAtom(e), cc) && AllOk(PrintComparison(e), cc) && AllOk(PrintNot(e), cc)
    ensures AllOk(PrintAnd(e), cc) && AllOk(PrintExpr(e), cc)
    decreases e, 1
  {
    hide TokenOk, AllOk, SymText, IdentShape, LookupIdent, ToUpper;
    if Compound(e) {
      BareToksOk(e, cc);
      Surrounded(LPAREN, PrintBare(e), RPAREN, cc);
    } else {
      AtomToksOk(e, cc);
    }
  }

  lemma {:induction false} BareToksOk(e: Expr, cc: CharClass)
    requires cc.Ok() && ExprOk(e, cc) && Compound(e)
    ensures AllOk(PrintBare(e), cc)
    decreases e, 0
  {
    hide TokenOk, AllOk, SymText, PrintAtom, PrintComparison, PrintNot, PrintAnd, PrintExpr;
    SymsOk(cc);
    match e {
      case NotExpr(x) =>
        ExprToksOk(x, cc);
        Joined([Sym(NOT)], PrintComparison(x), cc);
      case BinaryExpr(l, op, r) =>
        ExprToksOk(l, cc);
        ExprToksOk(r, cc);
        var left := if op.OrOp? then PrintExpr(l) else if op.AndOp? then PrintAnd(l) else PrintAtom(l);
        var right := if op.OrOp? then PrintAnd(r) else if op.AndOp? then PrintNot(r) else PrintAtom(r);
        Joined(left, [Sym(OpKind(op))], cc);
        Joined(left + [Sym(OpKind(op))], right, cc);
      case _ =>
    }
  }

  lemma {:induction false} AtomToksOk(e: Expr, cc: CharClass)
    requires cc.Ok() && ExprOk(e, cc) && !Compound(e)
    ensures AllOk(PrintAtom(e), cc)
    decreases e, 0
  {
    hide TokenOk, AllOk, SymText, IdentShape, LookupIdent, ToUpper, PrintArgs, PrintExprs;
    SymsOk(cc);
    match e {
      case IdentExpr(name) => NameAlone(name, cc);
      case PropertyExpr(variable, property) =>
        NameAlone(variable, cc);
        NameAlone(property, cc);
        Joined([Name(variable)], [Sym(DOT)], cc);
        assert [Name(variable)] + [Sym(DOT)] == [Name(variable), Sym(DOT)];
        Joined([Name(variable), Sym(DOT)], [Name(property)], cc);
        assert [Name(variable), Sym(DOT)] + [Name(property)] == PrintAtom(e);
      case LiteralExpr(l) => LiteralToksOk(l, cc);
      case ParamExpr(name) => ParamTokOk(name, cc);
      case FuncCallExpr(name, args) =>
        NameAlone(name, cc);
        ArgsToksOk(args, cc);
        Surrounded(LPAREN, PrintArgs(args), RPAREN, cc);
        Joined([Name(name)], [Sym(LPAREN)] + PrintArgs(args) + [Sym(RPAREN)], cc);
        assert PrintAtom(e) == [Name(name)] + ([Sym(LPAREN)] + PrintArgs(args) + [Sym(RPAREN)]);
      case ListExpr(es) =>
        ExprsToksOk(es, cc);
        Surrounded(LBRACKET, PrintExprs(es), RBRACKET, cc);
      case _ =>
    }
  }

  lemma NameAlone(name: string, cc: CharClass)
    requires IdentShape(name, cc)
    ensures AllOk([Name(name)], cc)
  {
    hide TokenOk, LookupIdent, ToUpper, IdentShape;
    NameToken(name, cc);
  }

  lemma ParamTokOk(name: string, cc: CharClass)
    requires forall i | 0 <= i < |name| :: cc.IdentChar(name[i])
    ensures AllOk([Token(PARAM, "$" + name)], cc)
  {
    hide LookupIdent, ToUpper, IdentShape;
  }

  lemma {:induction false} TailToksOk(es: seq<Expr>, cc: CharClass)
    requires cc.Ok() && ExprsOk(es, cc)
    ensures AllOk(PrintTail(es), cc)
    decreases es, 2
  {
    hide TokenOk, SymText, ExprOk, PrintExpr;
    if es != [] {
      SymsOk(cc);
      ExprToksOk(es[0], cc);
      TailToksOk(es[1..], cc);
    }
  }

  lemma {:induction false} ExprsToksOk(es: seq<Expr>, cc: CharClass)
    requires cc.Ok() && ExprsOk(es, cc)
    ensures AllOk(PrintExprs(es), cc)
    decreases es, 3
  {
    hide TokenOk, ExprOk, PrintExpr, PrintTail;
    if es != [] {
      ExprToksOk(es[0], cc);
      TailToksOk(es[1..], cc);
    }
  }

  lemma {:induction false} ArgsToksOk(es: seq<Expr>, cc: CharClass)
    requires cc.Ok() && ExprsOk(es, cc)
    ensures AllOk(PrintArgs(es), cc)
    decreases es, 3
  {
    hide TokenOk, ExprOk, PrintExpr, PrintTail, AllOk, SymText;
    if es == [] {
      assert AllOk([], cc) by { NoToks(cc); }
    } else {
      var first := PrintExpr(es[0]);
      ExprToksOk(es[0], cc);
      TailToksOk(es[1..], cc);
      Surrounded(LPAREN, first, RPAREN, cc);
      Joined(first, PrintTail(es[1..]), cc);
      Joined([Sym(LPAREN)] + first + [Sym(RPAREN)], PrintTail(es[1..]), cc);
    }
  }

  lemma NoToks(cc: CharClass)
    ensures AllOk([], cc)
  {
  }

  // ---------- patterns ----------

  lemma NameLabelToksOk(variable: string, lbl: string, cc: CharClass)
    requires cc.Ok() && NameOrNone(variable, cc) && NameOrNone(lbl, cc)
    ensures AllOk(PrintNameLabel(variable, lbl), cc)
  {
    hide TokenOk, SymText, IdentShape, LookupIdent, ToUpper;
    SymsOk(cc);
    if variable != "" { NameToken(variable, cc); }
    if lbl != "" { NameToken(lbl, cc); }
  }

  lemma EntryToksOk(k: string, m: map<string, Expr>, cc: CharClass)
    requires cc.Ok() && k in m && IsName(k, cc) && ExprOk(m[k], cc)
    ensures AllOk(PrintEntry(k, m), cc)
  {
    hide TokenOk, SymText, IdentShape, LookupIdent, ToUpper, PrintExpr, ExprOk;
    SymsOk(cc);
    NameToken(k, cc);
    ExprToksOk(m[k], cc);
  }

  lemma {:induction false} EntryTailToksOk(ks: seq<string>, m: map<string, Expr>, cc: CharClass)
    requires cc.Ok() && forall k | k in ks :: k in m && IsName(k, cc) && ExprOk(m[k], cc)
    ensures AllOk(PrintEntryTail(ks, m), cc)
    decreases |ks|
  {
    hide TokenOk, SymText, IsName, PrintEntry, ExprOk;
    if ks != [] {
      SymsOk(cc);
      EntryToksOk(ks[0], m, cc);
      EntryTailToksOk(ks[1..], m, cc);
    }
  }

  lemma MapToksOk(m: map<string, Expr>, st: Style)
    requires st.Ok() && forall k | k in m :: IsName(k, st.cc) && ExprOk(m[k], st.cc)
    ensures AllOk(PrintMap(m, st), st.cc)
  {
    hide TokenOk, SymText, IsName, PrintEntry, ExprOk, PrintEntryTail;
    var ks := st.order(m);
    SymsOk(st.cc);
    if ks != [] {
      assert ks == [ks[0]] + ks[1..];
      EntryToksOk(ks[0], m, st.cc);
      EntryTailToksOk(ks[1..], m, st.cc);
    }
  }

  lemma NodeToksOk(n: NodePattern, st: Style)
    requires st.Ok() && NodeOk(n, st.cc)
    ensures AllOk(PrintNode(n, st), st.cc)
  {
    hide TokenOk, SymText, IsName, ExprOk, PrintMap, PrintNameLabel;
    SymsOk(st.cc);
    NameLabelToksOk(n.variable, n.lbl, st.cc);
    MapToksOk(n.props, st);
  }

  lemma EdgeToksOk(e: EdgePattern, cc: CharClass)
    requires cc.Ok() && EdgeOk(e, cc)
    ensures AllOk(PrintEdge(e), cc)
  {
    hide TokenOk, SymText, IsName, PrintNameLabel;
    SymsOk(cc);
    NameLabelToksOk(e.variable, e.lbl, cc);
  }

  lemma {:induction false} ChainToksOk(p: Pattern, i: nat, st: Style)
    requires st.Ok() && PatternOk(p, st.cc) && i <= |p.edges|
    ensures AllOk(PrintChain(p, i, st), st.cc)
    decreases |p.edges| - i
  {
    hide TokenOk, EdgeOk, NodeOk, PrintEdge, PrintNode;
    if i < |p.edges| {
      EdgeToksOk(p.edges[i], st.cc);
      NodeToksOk(p.nodes[i + 1], st);
      ChainToksOk(p, i + 1, st);
    }
  }

  lemma PatternToksOk(p: Pattern, st: Style)
    requires st.Ok() && PatternOk(p, st.cc)
    ensures AllOk(PrintPattern(p, st), st.cc)
  {
    hide TokenOk, EdgeOk, NodeOk, PrintChain, PrintNode;
    NodeToksOk(p.nodes[0], st);
    ChainToksOk(p, 0, st);
  }

  lemma {:induction false} PatternTailToksOk(ps: seq<Pattern>, st: Style)
    requires st.Ok() && forall i | 0 <= i < |ps| :: ChainOk(ps[i]) && PatternOk(ps[i], st.cc)
    ensures AllOk(PrintPatternTail(ps, st), st.cc)
    decreases |ps|
  {
    hide TokenOk, EdgeOk, NodeOk, PrintPattern, SymText;
    if ps != [] {
      SymsOk(st.cc);
      PatternToksOk(ps[0], st);
      PatternTailToksOk(ps[1..], st);
    }
  }

  // ---------- clauses ----------

  lemma ItemToksOk(i: ReturnItem, cc: CharClass)
    requires cc.Ok() && ExprOk(i.expr, cc) && NameOrNone(i.alias, cc)
    ensures AllOk(PrintItem(i), cc)
  {
    hide TokenOk, SymText, IdentShape, LookupIdent, ToUpper, PrintExpr, ExprOk;
    SymsOk(cc);
    ExprToksOk(i.expr, cc);
    if i.alias != "" { NameToken(i.alias, cc); }
  }

  lemma {:induction false} ItemTailToksOk(items: seq<ReturnItem>, cc: CharClass)
    requires cc.Ok() && S.ItemsOk(items, cc)
    ensures AllOk(PrintItemTail(items), cc)
    decreases |items|
  {
    hide TokenOk, SymText, PrintItem, ExprOk, NameOrNone;
    if items != [] {
      SymsOk(cc);
      assert S.ItemOk(items[0], cc);
      ItemToksOk(items[0], cc);
      ItemTailToksOk(items[1..], cc);
    }
  }

  lemma {:induction false} OrderTailToksOk(items: seq<OrderItem>, cc: CharClass)
    requires cc.Ok() && S.OrdersOk(items, cc)
    ensures AllOk(PrintOrderTail(items), cc)
    ensures items != [] ==> AllOk(PrintOrderItem(items[0]), cc)
    decreases |items|
  {
    hide TokenOk, SymText, PrintExpr, ExprOk;
    if items != [] {
      SymsOk(cc);
      ExprToksOk(items[0].expr, cc);
      OrderTailToksOk(items[1..], cc);
    }
  }

  lemma OrderByToksOk(items: seq<OrderItem>, cc: CharClass)
    requires cc.Ok() && S.OrdersOk(items, cc)
    ensures AllOk(PrintOrderBy(items), cc)
  {
    hide TokenOk, SymText, PrintOrderItem, PrintOrderTail, ExprOk;
    SymsOk(cc);
    OrderTailToksOk(items, cc);
    if items != [] { OrderTailToksOk(items[1..], cc); }
  }

  lemma CountToksOk(keyword: TokenType, n: Option<nat>, cc: CharClass)
    requires cc.Ok() && (keyword.LIMIT? || keyword.SKIP?)
    ensures AllOk(PrintCount(keyword, n), cc)
  {
    hide SymText, LookupIdent, ToUpper, IdentShape, IsFloatText;
    SymsOk(cc);
    if n.Some? { DecimalDigits(n.value); }
  }

  lemma ReturnToksOk(c: Clause, cc: CharClass)
    requires cc.Ok() && S.ReturnOk(c, cc)
    ensures AllOk(PrintReturn(c), cc)
  {
    hide TokenOk, SymText, PrintItem, PrintItemTail, PrintOrderBy, PrintCount, S.OrdersOk, ExprOk, NameOrNone;
    SymsOk(cc);
    assert S.ItemOk(c.items[0], cc);
    ItemToksOk(c.items[0], cc);
    ItemTailToksOk(c.items[1..], cc);
    OrderByToksOk(c.orderBy, cc);
    CountToksOk(LIMIT, c.limit, cc);
    CountToksOk(SKIP, c.skip, cc);
  }

  lemma SetItemToksOk(i: SetItem, cc: CharClass)
    requires cc.Ok() && S.SetItemOk(i, cc)
    ensures AllOk(PrintSetItem(i), cc)
  {
    hide TokenOk, SymText, IdentShape, LookupIdent, ToUpper, PrintExpr, ExprOk;
    SymsOk(cc);
    NameToken(i.variable, cc);
    NameToken(i.property, cc);
    ExprToksOk(i.value, cc);
  }

  lemma {:induction false} SetTailToksOk(items: seq<SetItem>, cc: CharClass)
    requires cc.Ok() && S.SetItemsOk(items, cc)
    ensures AllOk(PrintSetTail(items), cc)
    decreases |items|
  {
    hide TokenOk, SymText, PrintSetItem, S.SetItemOk;
    if items != [] {
      SymsOk(cc);
      SetItemToksOk(items[0], cc);
      SetTailToksOk(items[1..], cc);
    }
  }

  lemma NameIsToken(name: string, cc: CharClass)
    requires IsName(name, cc)
    ensures AllOk([Name(name)], cc)
  {
    hide TokenOk, LookupIdent, ToUpper, IdentShape;
    NameToken(name, cc);
  }

  lemma {:induction false} NameTailToksOk(sep: TokenType, ns: seq<string>, cc: CharClass)
    requires cc.Ok() && SymbolKind(sep) && NamesOk(ns, cc)
    ensures AllOk(PrintNameTail(sep, ns), cc)
    ensures ns != [] ==> AllOk(PrintNames(sep, ns), cc)
    decreases |ns|
  {
    hide TokenOk, SymText, IsName, AllOk, SymbolKind, KeywordKind;
    NoToks(cc);
    if ns != [] {
      var rest := PrintNameTail(sep, ns[1..]);
      SymsOk(cc);
      assert IsName(ns[0], cc);
      NameIsToken(ns[0], cc);
      NameTailToksOk(sep, ns[1..], cc);
      Joined([Name(ns[0])], rest, cc);
      Joined([Sym(sep)], [Name(ns[0])] + rest, cc);
      assert [Sym(sep), Name(ns[0])] + rest == [Sym(sep)] + ([Name(ns[0])] + rest);
    }
  }

  lemma CallToksOk(c: Clause, st: Style)
    requires st.Ok() && c.CallClause? && Printer.ClauseOk(c, st.cc)
    ensures AllOk(PrintClause(c, st), st.cc)
  {
    hide TokenOk, SymText, IsName, ExprsOk, PrintExprs, PrintNames, G.JoinDots, ProcedureParts;
    SymsOk(st.cc);
    NameTailToksOk(DOT, ProcedureParts(c.procedure, st.cc), st.cc);
    ExprsToksOk(c.args, st.cc);
    NameTailToksOk(COMMA, c.yieldVars, st.cc);
  }

  lemma ClauseToksOk(c: Clause, st: Style)
    requires st.Ok() && Printer.ClauseOk(c, st.cc)
    ensures AllOk(PrintClause(c, st), st.cc)
  {
    hide TokenOk, SymText, IsName, ExprOk, NodeOk, EdgeOk, NameOrNone, CountOk, ProcedureParts, IsProcedure, ExprsOk;
    hide PrintPattern, PrintPatternTail, PrintExpr, PrintReturn, PrintSetItem, PrintSetTail, PrintNames;
    SymsOk(st.cc);
    match c {
      case MatchClause(ps) =>
        PatternToksOk(ps[0], st);
        PatternTailToksOk(ps[1..], st);
      case CreateClause(ps) =>
        PatternToksOk(ps[0], st);
        PatternTailToksOk(ps[1..], st);
      case MergeClause(p) => PatternToksOk(p, st);
      case WhereClause(e) => ExprToksOk(e, st.cc);
      case ReturnClause(_, _, _, _) => ReturnToksOk(c, st.cc);
      case SetClause(items) =>
        assert S.SetItemOk(items[0], st.cc);
        SetItemToksOk(items[0], st.cc);
        SetTailToksOk(items[1..], st.cc);
      case DeleteClause(vars) => NameTailToksOk(COMMA, vars, st.cc);
      case CallClause(_, _, _) => CallToksOk(c, st);
    }
  }

  lemma {:induction false} ClausesToksOk(cs: seq<Clause>, st: Style)
    requires st.Ok() && S.AllClausesOk(cs, st.cc)
    ensures AllOk(PrintClauses(cs, st), st.cc)
    decreases |cs|
  {
    hide TokenOk, Printer.ClauseOk, PrintClause;
    if cs != [] {
      ClauseToksOk(cs[0], st);
      ClausesToksOk(cs[1..], st);
    }
  }

  /** Parsing the text of a printed statement gives the statement back. */
  lemma ParserUndoesPrinting(s: Statement, st: Style)
    requires st.Ok() && StatementOk(s, st.cc)
    ensures Parser.ParseText(StatementText(s, st), st.cc) == Ok(s)
  {
    hide TokenOk, Printer.ClauseOk, PrintClauses, TokensText, TokensOf;
    var toks := PrintClauses(s.clauses, st);
    ClausesToksOk(s.clauses, st);
    TokensBack(toks, st.cc);
    S.StatementBack(s, st);
  }
}

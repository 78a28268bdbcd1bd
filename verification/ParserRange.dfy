/** What the parser can produce at all: every statement it accepts can be printed, so that
    printable statements are exactly the parser's results and printing what was parsed
    loses nothing. */
module ParserRange {
  import opened Results
  import opened Ast
  import opened Tokens
  import opened Grammar
  import Lexer
  import Parser
  import P = Printer
  import S = StatementRoundTrip
  import TextRoundTrip

  // ---------- tokens of a text ----------

  /** What the lexer guarantees of the tokens the parser takes text from. */
  predicate TokenFits(t: Token, cc: Lexer.CharClass) {
    && (t.kind.IDENT? ==> P.IsName(t.lit, cc))
    && (t.kind.COUNT? ==> P.IsExprName(t.lit, cc))
    && (t.kind.FLOAT? ==> P.IsFloatText(t.lit, cc))
    && (t.kind.PARAM? ==> t.lit != "" && forall i | 0 <= i < |t.lit[1..]| :: cc.IdentChar(t.lit[1..][i]))
  }

  predicate TokensFit(ts: TokenList, cc: Lexer.CharClass) {
    forall i | 0 <= i < |ts| :: TokenFits(ts[i], cc)
  }

  /** A number's own characters have the shape it was read with. */
  lemma {:induction false} NumberAlone(s: string, dotted: bool, cc: Lexer.CharClass)
    ensures var (n, d) := Lexer.NumberShape(s, dotted, cc); Lexer.NumberShape(s[..n], dotted, cc) == (n, d)
  {
    if s != [] && (cc.isDigit(s[0]) || (s[0] == '.' && !dotted)) {
      var n := Lexer.NumberShape(s, dotted, cc).0;
      NumberAlone(s[1..], dotted || s[0] == '.', cc);
      assert s[..n][1..] == s[1..][..n - 1];
    }
  }

  lemma IdentFits(s: string, cc: Lexer.CharClass)
    requires s != [] && (cc.isLetter(s[0]) || s[0] == '_')
    ensures TokenFits(Lexer.IdentToken(s, cc).0, cc)
  {
    hide LookupIdent, ToUpper;
    IdentKinds(ToUpper(s[..Lexer.IdentLength(s, cc)]));
  }

  lemma IdentKinds(upper: string)
    ensures !LookupIdent(upper).FLOAT? && !LookupIdent(upper).PARAM?
  {
  }

  lemma FirstFits(s: string, cc: Lexer.CharClass)
    requires cc.Ok() && s != []
    ensures TokenFits(Lexer.FirstToken(s, cc).0, cc)
  {
    hide LookupIdent, ToUpper, Lexer.StringBody, Lexer.NumberShape, Lexer.IdentLength, Lexer.SymbolToken;
    var c := s[0];
    if c == '\'' || c == '"' {
    } else if cc.isDigit(c) {
      NumberFits(s, cc);
    } else if cc.isLetter(c) || c == '_' {
      IdentFits(s, cc);
    } else if c == '$' {
      var n := Lexer.IdentLength(s[1..], cc);
      assert ("$" + s[1..][..n])[1..] == s[1..][..n];
    } else {
      SymbolFits(s, cc);
    }
  }

  lemma NumberFits(s: string, cc: Lexer.CharClass)
    requires cc.Ok() && s != [] && cc.isDigit(s[0])
    ensures var (n, dotted) := Lexer.NumberShape(s, false, cc); 0 < n && (dotted ==> P.IsFloatText(s[..n], cc))
  {
    NumberAlone(s, false, cc);
  }

  lemma SymbolFits(s: string, cc: Lexer.CharClass)
    requires s != []
    ensures TokenFits(Lexer.SymbolToken(s).0, cc)
  {
    hide P.IsName, P.IsExprName, P.IsFloatText;
  }

  lemma {:induction false} TextFits(s: string, cc: Lexer.CharClass)
    requires cc.Ok()
    ensures TokensFit(Lexer.TokensOf(s, cc), cc)
    decreases |s|
  {
    hide TokenFits, Lexer.FirstToken, Lexer.TokensOf;
    Lexer.TokensStep(s, cc);
    var (tok, rest) := Lexer.NextToken(s, cc);
    NextFits(s, cc);
    if !Ends(tok) { TextFits(rest, cc); }
    var ts := Lexer.TokensOf(s, cc);
    assert ts == [ts[0]] + ts[1..];
  }

  lemma NextFits(s: string, cc: Lexer.CharClass)
    requires cc.Ok()
    ensures TokenFits(Lexer.NextToken(s, cc).0, cc)
  {
    hide Lexer.FirstToken, P.IsName, P.IsExprName, P.IsFloatText;
    var t := Lexer.SkipSpace(s, cc);
    if t != [] { FirstFits(t, cc); }
  }

  // ---------- expressions ----------

  lemma NameAt(ts: TokenList, pos: nat, cc: Lexer.CharClass)
    requires TokensFit(ts, cc)
    ensures Peek(ts, pos).IDENT? ==> P.IsName(Lit(ts, pos), cc)
    ensures Peek(ts, pos).IDENT? || Peek(ts, pos).COUNT? ==> P.IsExprName(Lit(ts, pos), cc)
  {
    hide P.IdentShape;
    if pos < |ts| { assert TokenFits(ts[pos], cc); }
  }

  lemma {:induction false} ExprFits(ts: TokenList, pos: nat, cc: Lexer.CharClass)
    requires TokensFit(ts, cc) && ParseExpr(ts, pos).Ok?
    ensures P.ExprOk(ParseExpr(ts, pos).value.0, cc)
    decreases Left(ts, pos), 6
  {
    hide ParseAnd, OrTail, P.ExprOk, TokensFit;
    var (left, p) := ParseAnd(ts, pos).value;
    AndFits(ts, pos, cc);
    OrTailFits(ts, p, left, cc);
  }

  lemma {:induction false} OrTailFits(ts: TokenList, pos: nat, left: Expr, cc: Lexer.CharClass)
    requires TokensFit(ts, cc) && P.ExprOk(left, cc) && OrTail(ts, pos, left).Ok?
    ensures P.ExprOk(OrTail(ts, pos, left).value.0, cc)
    decreases Left(ts, pos), 6
  {
    hide ParseAnd, TokensFit;
    if Peek(ts, pos).OR? {
      var (right, p) := ParseAnd(ts, pos + 1).value;
      AndFits(ts, pos + 1, cc);
      OrTailFits(ts, p, BinaryExpr(left, OrOp, right), cc);
    }
  }

  lemma {:induction false} AndFits(ts: TokenList, pos: nat, cc: Lexer.CharClass)
    requires TokensFit(ts, cc) && ParseAnd(ts, pos).Ok?
    ensures P.ExprOk(ParseAnd(ts, pos).value.0, cc)
    decreases Left(ts, pos), 5
  {
    hide ParseNot, AndTail, P.ExprOk, TokensFit;
    var (left, p) := ParseNot(ts, pos).value;
    NotFits(ts, pos, cc);
    AndTailFits(ts, p, left, cc);
  }

  lemma {:induction false} AndTailFits(ts: TokenList, pos: nat, left: Expr, cc: Lexer.CharClass)
    requires TokensFit(ts, cc) && P.ExprOk(left, cc) && AndTail(ts, pos, left).Ok?
    ensures P.ExprOk(AndTail(ts, pos, left).value.0, cc)
    decreases Left(ts, pos), 5
  {
    hide ParseNot, TokensFit;
    if Peek(ts, pos).AND? {
      var (right, p) := ParseNot(ts, pos + 1).value;
      NotFits(ts, pos + 1, cc);
      AndTailFits(ts, p, BinaryExpr(left, AndOp, right), cc);
    }
  }

  lemma {:induction false} NotFits(ts: TokenList, pos: nat, cc: Lexer.CharClass)
    requires TokensFit(ts, cc) && ParseNot(ts, pos).Ok?
    ensures P.ExprOk(ParseNot(ts, pos).value.0, cc)
    decreases Left(ts, pos), 4
  {
    hide ParseComparison, TokensFit;
    ComparisonFits(ts, if Peek(ts, pos).NOT? then pos + 1 else pos, cc);
  }

  lemma {:induction false} ComparisonFits(ts: TokenList, pos: nat, cc: Lexer.CharClass)
    requires TokensFit(ts, cc) && ParseComparison(ts, pos).Ok?
    ensures P.ExprOk(ParseComparison(ts, pos).value.0, cc)
    decreases Left(ts, pos), 3
  {
    hide ParseAtom, ComparisonOp, TokensFit;
    var (left, p) := ParseAtom(ts, pos).value;
    AtomFits(ts, pos, cc);
    if ComparisonOp(Peek(ts, p)).Some? { AtomFits(ts, p + 1, cc); }
  }

  lemma {:induction false} ExprsMore(es: seq<Expr>, e: Expr, cc: Lexer.CharClass)
    requires P.ExprsOk(es, cc) && P.ExprOk(e, cc)
    ensures P.ExprsOk(es + [e], cc)
    decreases |es|
  {
    hide P.ExprOk;
    if es == [] {
      assert es + [e] == [e];
    } else {
      assert (es + [e])[1..] == es[1..] + [e];
      ExprsMore(es[1..], e, cc);
    }
  }

  lemma {:induction false} ExprTailFits(ts: TokenList, pos: nat, acc: seq<Expr>, cc: Lexer.CharClass)
    requires TokensFit(ts, cc) && P.ExprsOk(acc, cc) && ExprTail(ts, pos, acc).Ok?
    ensures P.ExprsOk(ExprTail(ts, pos, acc).value.0, cc)
    decreases Left(ts, pos), 7
  {
    hide ParseExpr, P.ExprOk, P.ExprsOk, TokensFit;
    if Peek(ts, pos).COMMA? {
      var (e, p) := ParseExpr(ts, pos + 1).value;
      ExprFits(ts, pos + 1, cc);
      ExprsMore(acc, e, cc);
      ExprTailFits(ts, p, acc + [e], cc);
    }
  }

  lemma NoExprs(e: Expr, cc: Lexer.CharClass)
    ensures P.ExprsOk([], cc) && P.ExprOk(StarExpr, cc)
    ensures P.ExprOk(e, cc) ==> P.ExprsOk([e], cc)
  {
  }

  lemma {:induction false} UntilFits(ts: TokenList, pos: nat, close: TokenType, cc: Lexer.CharClass)
    requires !close.EOF? && !close.ILLEGAL? && TokensFit(ts, cc) && ExprsUntil(ts, pos, close).Ok?
    ensures P.ExprsOk(ExprsUntil(ts, pos, close).value.0, cc)
    decreases Left(ts, pos), 8
  {
    hide ParseExpr, ExprTail, P.ExprOk, P.ExprsOk, TokensFit;
    NoExprs(StarExpr, cc);
    if Peek(ts, pos) != close {
      var (e, p) := ParseExpr(ts, pos).value;
      ExprFits(ts, pos, cc);
      NoExprs(e, cc);
      ExprTailFits(ts, p, [e], cc);
    }
  }

  lemma {:induction false} ArgsFit(ts: TokenList, pos: nat, cc: Lexer.CharClass)
    requires TokensFit(ts, cc) && CallArgs(ts, pos).Ok?
    ensures P.ExprsOk(CallArgs(ts, pos).value.0, cc)
    decreases Left(ts, pos), 9
  {
    hide ExprsUntil, ExprTail, P.ExprOk, P.ExprsOk, TokensFit;
    NoExprs(StarExpr, cc);
    if Peek(ts, pos).STAR? { ExprTailFits(ts, pos + 1, [StarExpr], cc); } else { UntilFits(ts, pos, RPAREN, cc); }
  }

  lemma LiteralFits(ts: TokenList, pos: nat, cc: Lexer.CharClass)
    requires TokensFit(ts, cc)
    ensures Peek(ts, pos).FLOAT? ==> P.IsFloatText(Lit(ts, pos), cc)
    ensures Peek(ts, pos).PARAM? ==> P.ExprOk(ParamExpr(if Lit(ts, pos) == "" then "" else Lit(ts, pos)[1..]), cc)
  {
    hide P.IsFloatText;
    if pos < |ts| { assert TokenFits(ts[pos], cc); }
  }

  lemma {:induction false} AtomFits(ts: TokenList, pos: nat, cc: Lexer.CharClass)
    requires TokensFit(ts, cc) && ParseAtom(ts, pos).Ok?
    ensures P.ExprOk(ParseAtom(ts, pos).value.0, cc)
    decreases Left(ts, pos), 2
  {
    hide ParseExpr, ExprsUntil, ParseNamed, ParseInt, TokensFit, P.IsFloatText, P.ExprsOk;
    var kind := Peek(ts, pos);
    LiteralFits(ts, pos, cc);
    LiteralFits(ts, pos + 1, cc);
    if kind.LBRACKET? { UntilFits(ts, pos + 1, RBRACKET, cc); }
    if kind.LPAREN? { ExprFits(ts, pos + 1, cc); }
    if kind.IDENT? || kind.COUNT? { NamedFits(ts, pos, cc); }
  }

  lemma {:induction false} NamedFits(ts: TokenList, pos: nat, cc: Lexer.CharClass)
    requires (Peek(ts, pos).IDENT? || Peek(ts, pos).COUNT?) && TokensFit(ts, cc) && ParseNamed(ts, pos).Ok?
    ensures P.ExprOk(ParseNamed(ts, pos).value.0, cc)
    decreases Left(ts, pos), 1
  {
    hide CallArgs, TokensFit, P.IsName, P.IsExprName, P.ExprsOk;
    NameAt(ts, pos, cc);
    NameAt(ts, pos + 2, cc);
    if Peek(ts, pos + 1).LPAREN? { ArgsFit(ts, pos + 2, cc); }
  }

  // ---------- patterns ----------

  predicate MapOk(m: map<string, Expr>, cc: Lexer.CharClass) {
    forall k | k in m :: P.IsName(k, cc) && P.ExprOk(m[k], cc)
  }

  lemma EntryFits(ts: TokenList, pos: nat, m: map<string, Expr>, cc: Lexer.CharClass)
    requires TokensFit(ts, cc) && MapOk(m, cc) && MapEntry(ts, pos, m).Ok?
    ensures MapOk(MapEntry(ts, pos, m).value.0, cc)
  {
    hide ParseExpr, TokensFit, P.IsName, P.ExprOk;
    NameAt(ts, pos, cc);
    ExprFits(ts, pos + 2, cc);
  }

  lemma {:induction false} MapTailFits(ts: TokenList, pos: nat, m: map<string, Expr>, cc: Lexer.CharClass)
    requires TokensFit(ts, cc) && MapOk(m, cc) && MapTail(ts, pos, m).Ok?
    ensures MapOk(MapTail(ts, pos, m).value.0, cc)
    decreases Left(ts, pos)
  {
    hide MapEntry, TokensFit, MapOk;
    if Peek(ts, pos).COMMA? {
      var (m', p) := MapEntry(ts, pos + 1, m).value;
      EntryFits(ts, pos + 1, m, cc);
      MapTailFits(ts, p, m', cc);
    }
  }

  lemma MapFits(ts: TokenList, pos: nat, cc: Lexer.CharClass)
    requires Peek(ts, pos).LBRACE? && TokensFit(ts, cc) && ParseMap(ts, pos).Ok?
    ensures MapOk(ParseMap(ts, pos).value.0, cc)
  {
    hide MapEntry, MapTail, TokensFit, P.IsName, P.ExprOk;
    if !Peek(ts, pos + 1).RBRACE? {
      var (first, p1) := MapEntry(ts, pos + 1, map[]).value;
      EntryFits(ts, pos + 1, map[], cc);
      MapTailFits(ts, p1, first, cc);
    }
  }

  lemma OptionalFits(ts: TokenList, pos: nat, cc: Lexer.CharClass)
    requires TokensFit(ts, cc)
    ensures P.NameOrNone(OptionalIdent(ts, pos).0, cc)
    ensures OptionalLabel(ts, pos).Ok? ==> P.NameOrNone(OptionalLabel(ts, pos).value.0, cc)
  {
    hide TokensFit, P.IsName;
    NameAt(ts, pos, cc);
    NameAt(ts, pos + 1, cc);
  }

  lemma NodeFits(ts: TokenList, pos: nat, cc: Lexer.CharClass)
    requires TokensFit(ts, cc) && ParseNode(ts, pos).Ok?
    ensures P.NodeOk(ParseNode(ts, pos).value.0, cc)
  {
    hide ParseMap, OptionalIdent, OptionalLabel, TokensFit, P.IsName, P.ExprOk, P.NameOrNone;
    OptionalFits(ts, pos + 1, cc);
    var p2 := OptionalIdent(ts, pos + 1).1;
    OptionalFits(ts, p2, cc);
    var p3 := OptionalLabel(ts, p2).value.1;
    if Peek(ts, p3).LBRACE? { MapFits(ts, p3, cc); }
  }

  lemma DetailFits(ts: TokenList, pos: nat, dir: Direction, cc: Lexer.CharClass)
    requires TokensFit(ts, cc) && ParseDetail(ts, pos, dir).Ok?
    ensures P.EdgeOk(ParseDetail(ts, pos, dir).value.0, cc)
  {
    hide OptionalIdent, OptionalLabel, TokensFit, P.IsName;
    if Peek(ts, pos).LBRACKET? {
      OptionalFits(ts, pos + 1, cc);
      OptionalFits(ts, OptionalIdent(ts, pos + 1).1, cc);
    }
  }

  lemma RelFits(ts: TokenList, pos: nat, cc: Lexer.CharClass)
    requires (Peek(ts, pos).DASH? || Peek(ts, pos).LARROW?) && TokensFit(ts, cc) && ParseRelAndNode(ts, pos).Ok?
    ensures var (edge, node) := ParseRelAndNode(ts, pos).value.0; P.EdgeOk(edge, cc) && P.NodeOk(node, cc)
  {
    hide ParseDetail, ParseNode, TokensFit, P.EdgeOk, P.NodeOk;
    var toLeft := Peek(ts, pos).LARROW?;
    DetailFits(ts, pos + 1, if toLeft then EdgeLeft else EdgeRight, cc);
    NodeFits(ts, ParseDetail(ts, pos + 1, if toLeft then EdgeLeft else EdgeRight).value.1 + 1, cc);
  }

  lemma {:induction false} ChainFits(ts: TokenList, pos: nat, pat: Pattern, cc: Lexer.CharClass)
    requires TokensFit(ts, cc) && P.PatternOk(pat, cc) && ChainTail(ts, pos, pat).Ok?
    ensures P.PatternOk(ChainTail(ts, pos, pat).value.0, cc)
    decreases Left(ts, pos)
  {
    hide ParseRelAndNode, TokensFit, P.EdgeOk, P.NodeOk;
    if Peek(ts, pos).DASH? || Peek(ts, pos).LARROW? {
      var ((edge, node), p) := ParseRelAndNode(ts, pos).value;
      RelFits(ts, pos, cc);
      ChainFits(ts, p, Pattern(pat.nodes + [node], pat.edges + [edge]), cc);
    }
  }

  lemma PatternFits(ts: TokenList, pos: nat, cc: Lexer.CharClass)
    requires TokensFit(ts, cc) && ParsePattern(ts, pos).Ok?
    ensures P.PatternOk(ParsePattern(ts, pos).value.0, cc)
  {
    hide ParseNode, ChainTail, TokensFit, P.EdgeOk, P.NodeOk;
    var (node, p) := ParseNode(ts, pos).value;
    NodeFits(ts, pos, cc);
    ChainFits(ts, p, Pattern([node], []), cc);
  }

  lemma {:induction false} PatternTailFits(ts: TokenList, pos: nat, acc: seq<Pattern>, cc: Lexer.CharClass)
    requires TokensFit(ts, cc) && P.PatternsOk(acc, cc) && ChainsOk(acc) && PatternTail(ts, pos, acc).Ok?
    ensures P.PatternsOk(PatternTail(ts, pos, acc).value.0, cc)
    decreases Left(ts, pos)
  {
    hide ParsePattern, TokensFit, P.PatternOk;
    if Peek(ts, pos).COMMA? {
      var (pat, p) := ParsePattern(ts, pos + 1).value;
      PatternFits(ts, pos + 1, cc);
      ChainsMore(acc, pat);
      PatternTailFits(ts, p, acc + [pat], cc);
    }
  }

  lemma PatternsFit(ts: TokenList, pos: nat, cc: Lexer.CharClass)
    requires TokensFit(ts, cc) && ParsePatterns(ts, pos).Ok?
    ensures P.PatternsOk(ParsePatterns(ts, pos).value.0, cc)
  {
    hide ParsePattern, PatternTail, TokensFit, P.PatternOk;
    var (pat, p) := ParsePattern(ts, pos).value;
    PatternFits(ts, pos, cc);
    PatternTailFits(ts, p, [pat], cc);
  }

  // ---------- clauses ----------

  lemma ItemFits(ts: TokenList, pos: nat, cc: Lexer.CharClass)
    requires TokensFit(ts, cc) && ParseReturnItem(ts, pos).Ok?
    ensures S.ItemOk(ParseReturnItem(ts, pos).value.0, cc)
  {
    hide ParseExpr, TokensFit, P.IsName, P.ExprOk;
    ExprFits(ts, pos, cc);
    NameAt(ts, ParseExpr(ts, pos).value.1 + 1, cc);
  }

  lemma {:induction false} ItemTailFits(ts: TokenList, pos: nat, acc: seq<ReturnItem>, cc: Lexer.CharClass)
    requires TokensFit(ts, cc) && acc != [] && S.ItemsOk(acc, cc) && ItemTail(ts, pos, acc).Ok?
    ensures ItemTail(ts, pos, acc).value.0 != [] && S.ItemsOk(ItemTail(ts, pos, acc).value.0, cc)
    decreases Left(ts, pos)
  {
    hide ParseReturnItem, TokensFit, S.ItemOk;
    if Peek(ts, pos).COMMA? {
      var (item, p) := ParseReturnItem(ts, pos + 1).value;
      ItemFits(ts, pos + 1, cc);
      ItemTailFits(ts, p, acc + [item], cc);
    }
  }

  lemma OrderItemFits(ts: TokenList, pos: nat, cc: Lexer.CharClass)
    requires TokensFit(ts, cc) && ParseOrderItem(ts, pos).Ok?
    ensures P.ExprOk(ParseOrderItem(ts, pos).value.0.expr, cc)
  {
    hide ParseExpr, TokensFit, P.ExprOk;
    ExprFits(ts, pos, cc);
  }

  lemma {:induction false} OrderTailFits(ts: TokenList, pos: nat, acc: seq<OrderItem>, cc: Lexer.CharClass)
    requires TokensFit(ts, cc) && S.OrdersOk(acc, cc) && OrderTail(ts, pos, acc).Ok?
    ensures S.OrdersOk(OrderTail(ts, pos, acc).value.0, cc)
    decreases Left(ts, pos)
  {
    hide ParseOrderItem, TokensFit, P.ExprOk;
    if Peek(ts, pos).COMMA? {
      var (item, p) := ParseOrderItem(ts, pos + 1).value;
      OrderItemFits(ts, pos + 1, cc);
      OrderTailFits(ts, p, acc + [item], cc);
    }
  }

  lemma OrderByFits(ts: TokenList, pos: nat, cc: Lexer.CharClass)
    requires TokensFit(ts, cc) && ParseOrderBy(ts, pos).Ok?
    ensures S.OrdersOk(ParseOrderBy(ts, pos).value.0, cc)
  {
    hide ParseOrderItem, OrderTail, TokensFit, P.ExprOk;
    if Peek(ts, pos).ORDER? {
      var (item, p) := ParseOrderItem(ts, pos + 2).value;
      OrderItemFits(ts, pos + 2, cc);
      OrderTailFits(ts, p, [item], cc);
    }
  }

  lemma CountFits(ts: TokenList, pos: nat, keyword: TokenType)
    requires !keyword.EOF? && !keyword.ILLEGAL? && OptionalCount(ts, pos, keyword).Ok?
    ensures P.CountOk(OptionalCount(ts, pos, keyword).value.0)
  {
    hide ParseInt;
  }

  lemma ReturnEndFits(ts: TokenList, pos: nat, items: seq<ReturnItem>, cc: Lexer.CharClass)
    requires TokensFit(ts, cc) && items != [] && S.ItemsOk(items, cc) && ParseReturnEnd(ts, pos, items).Ok?
    ensures P.ClauseOk(ParseReturnEnd(ts, pos, items).value.0, cc)
  {
    hide ParseOrderBy, OptionalCount, TokensFit, P.ExprOk, P.NameOrNone, P.CountOk;
    OrderByFits(ts, pos, cc);
    var p3 := ParseOrderBy(ts, pos).value.1;
    CountFits(ts, p3, LIMIT);
    CountFits(ts, OptionalCount(ts, p3, LIMIT).value.1, SKIP);
    assert forall i | 0 <= i < |items| :: S.ItemOk(items[i], cc);
  }

  lemma ReturnFits(ts: TokenList, pos: nat, cc: Lexer.CharClass)
    requires Peek(ts, pos).RETURN? && TokensFit(ts, cc) && ParseReturn(ts, pos).Ok?
    ensures P.ClauseOk(ParseReturn(ts, pos).value.0, cc)
  {
    hide ParseReturnItem, ItemTail, ParseReturnEnd, TokensFit, P.ClauseOk, S.ItemOk;
    var (item, p1) := ParseReturnItem(ts, pos + 1).value;
    ItemFits(ts, pos + 1, cc);
    ItemTailFits(ts, p1, [item], cc);
    var (items, p2) := ItemTail(ts, p1, [item]).value;
    ReturnEndFits(ts, p2, items, cc);
  }

  lemma SetItemFits(ts: TokenList, pos: nat, cc: Lexer.CharClass)
    requires TokensFit(ts, cc) && ParseSetItem(ts, pos).Ok?
    ensures S.SetItemOk(ParseSetItem(ts, pos).value.0, cc)
  {
    hide ParseExpr, TokensFit, P.IsName, P.ExprOk;
    NameAt(ts, pos, cc);
    NameAt(ts, pos + 2, cc);
    ExprFits(ts, pos + 4, cc);
  }

  lemma {:induction false} SetTailFits(ts: TokenList, pos: nat, acc: seq<SetItem>, cc: Lexer.CharClass)
    requires TokensFit(ts, cc) && acc != [] && S.SetItemsOk(acc, cc) && SetTail(ts, pos, acc).Ok?
    ensures SetTail(ts, pos, acc).value.0 != [] && S.SetItemsOk(SetTail(ts, pos, acc).value.0, cc)
    decreases Left(ts, pos)
  {
    hide ParseSetItem, TokensFit, S.SetItemOk;
    if Peek(ts, pos).COMMA? {
      var (item, p) := ParseSetItem(ts, pos + 1).value;
      SetItemFits(ts, pos + 1, cc);
      SetTailFits(ts, p, acc + [item], cc);
    }
  }

  lemma SetFits(ts: TokenList, pos: nat, cc: Lexer.CharClass)
    requires Peek(ts, pos).SET? && TokensFit(ts, cc) && ParseSet(ts, pos).Ok?
    ensures P.ClauseOk(ParseSet(ts, pos).value.0, cc)
  {
    hide ParseSetItem, SetTail, TokensFit, P.IsName, P.ExprOk;
    var (item, p1) := ParseSetItem(ts, pos + 1).value;
    SetItemFits(ts, pos + 1, cc);
    SetTailFits(ts, p1, [item], cc);
    var items := SetTail(ts, p1, [item]).value.0;
    assert forall i | 0 <= i < |items| :: S.SetItemOk(items[i], cc);
  }

  lemma {:induction false} IdentTailFits(ts: TokenList, pos: nat, sep: TokenType, acc: seq<string>, cc: Lexer.CharClass)
    requires !sep.EOF? && !sep.ILLEGAL? && TokensFit(ts, cc) && acc != [] && P.NamesOk(acc, cc) && IdentTail(ts, pos, sep, acc).Ok?
    ensures IdentTail(ts, pos, sep, acc).value.0 != [] && P.NamesOk(IdentTail(ts, pos, sep, acc).value.0, cc)
    decreases Left(ts, pos)
  {
    hide TokensFit, P.IsName;
    if Peek(ts, pos) == sep {
      NameAt(ts, pos + 1, cc);
      IdentTailFits(ts, pos + 2, sep, acc + [Lit(ts, pos + 1)], cc);
    }
  }

  lemma IdentsFit(ts: TokenList, pos: nat, sep: TokenType, cc: Lexer.CharClass)
    requires !sep.EOF? && !sep.ILLEGAL? && TokensFit(ts, cc) && ParseIdents(ts, pos, sep).Ok?
    ensures ParseIdents(ts, pos, sep).value.0 != [] && P.NamesOk(ParseIdents(ts, pos, sep).value.0, cc)
  {
    hide IdentTail, TokensFit, P.IsName;
    NameAt(ts, pos, cc);
    IdentTailFits(ts, pos + 1, sep, [Lit(ts, pos)], cc);
  }

  lemma CallFits(ts: TokenList, pos: nat, cc: Lexer.CharClass)
    requires Peek(ts, pos).CALL? && TokensFit(ts, cc) && ParseCall(ts, pos).Ok?
    ensures P.ClauseOk(ParseCall(ts, pos).value.0, cc)
  {
    hide ParseInvocation, TokensFit, P.NamesOk, P.ExprsOk, P.IsProcedure, ParseIdents;
    var ((procedure, args), p1) := ParseInvocation(ts, pos + 1).value;
    InvocationFits(ts, pos + 1, cc);
    if Peek(ts, p1).YIELD? { IdentsFit(ts, p1 + 1, COMMA, cc); } else { NoNames(cc); }
  }

  lemma NoNames(cc: Lexer.CharClass)
    ensures P.NamesOk([], cc)
  {
  }

  lemma InvocationFits(ts: TokenList, pos: nat, cc: Lexer.CharClass)
    requires TokensFit(ts, cc) && ParseInvocation(ts, pos).Ok?
    ensures var (procedure, args) := ParseInvocation(ts, pos).value.0;
            (exists parts :: P.IsProcedure(procedure, parts, cc)) && P.ExprsOk(args, cc)
  {
    hide ParseIdents, ExprsUntil, TokensFit, P.NamesOk, P.ExprsOk, JoinDots;
    var (parts, p1) := ParseIdents(ts, pos, DOT).value;
    IdentsFit(ts, pos, DOT, cc);
    UntilFits(ts, p1 + 1, RPAREN, cc);
    assert P.IsProcedure(JoinDots(parts), parts, cc);
  }

  lemma ClauseFits(ts: TokenList, pos: nat, cc: Lexer.CharClass)
    requires TokensFit(ts, cc) && ParseClause(ts, pos).Ok?
    ensures P.ClauseOk(ParseClause(ts, pos).value.0, cc)
  {
    hide ParsePatterns, ParsePattern, ParseExpr, ParseReturn, ParseSet, ParseIdents, ParseCall, TokensFit;
    hide P.PatternsOk, P.PatternOk, P.ExprOk, P.NamesOk;
    var kind := Peek(ts, pos);
    if kind.MATCH? || kind.CREATE? {
      PatternsFit(ts, pos + 1, cc);
    } else if kind.WHERE? {
      ExprFits(ts, pos + 1, cc);
    } else if kind.RETURN? {
      ReturnFits(ts, pos, cc);
    } else if kind.MERGE? {
      PatternFits(ts, pos + 1, cc);
    } else if kind.SET? {
      SetFits(ts, pos, cc);
    } else if kind.DELETE? {
      IdentsFit(ts, pos + 1, COMMA, cc);
    } else if kind.CALL? {
      CallFits(ts, pos, cc);
    }
  }

  lemma {:induction false} ClausesFit(ts: TokenList, pos: nat, acc: seq<Clause>, cc: Lexer.CharClass)
    requires TokensFit(ts, cc) && ClausesOk(acc) && S.AllClausesOk(acc, cc) && ClauseTail(ts, pos, acc).Ok?
    ensures S.AllClausesOk(ClauseTail(ts, pos, acc).value.0, cc)
    decreases Left(ts, pos)
  {
    hide ParseClause, TokensFit, P.ClauseOk;
    if !Peek(ts, pos).EOF? {
      var (c, p) := ParseClause(ts, pos).value;
      ClauseFits(ts, pos, cc);
      ClausesMore(acc, c);
      ClausesFit(ts, p, acc + [c], cc);
    }
  }

  // ---------- statements ----------

  /** Whatever text parses, its statement can be printed. */
  lemma ParsedIsPrintable(text: string, cc: Lexer.CharClass)
    requires cc.Ok() && Parser.ParseText(text, cc).Ok?
    ensures P.StatementOk(Parser.ParseText(text, cc).value, cc)
  {
    hide Lexer.TokensOf, TokensFit, ClauseTail, P.ClauseOk;
    var ts := Lexer.TokensOf(text, cc);
    TextFits(text, cc);
    ClausesFit(ts, 0, [], cc);
  }

  /** Printing what was parsed and parsing it again gives the same statement, for every text
      that parses at all. */
  lemma ReprintingLosesNothing(text: string, st: P.Style)
    requires st.Ok() && Parser.ParseText(text, st.cc).Ok?
    ensures var s := Parser.ParseText(text, st.cc).value;
            P.StatementOk(s, st.cc) && Parser.ParseText(P.StatementText(s, st), st.cc) == Ok(s)
  {
    hide Parser.ParseText, P.StatementOk, P.StatementText;
    ParsedIsPrintable(text, st.cc);
    TextRoundTrip.ParserUndoesPrinting(Parser.ParseText(text, st.cc).value, st);
  }

  /** A statement is the result of parsing some text if and only if it is printable. */
  lemma PrintableIsParsed(s: Statement, st: P.Style)
    requires st.Ok()
    ensures (exists text :: Parser.ParseText(text, st.cc) == Ok(s)) <==> P.StatementOk(s, st.cc)
  {
    hide Parser.ParseText, P.StatementOk, P.StatementText;
    if P.StatementOk(s, st.cc) { TextRoundTrip.ParserUndoesPrinting(s, st); }
    if text :| Parser.ParseText(text, st.cc) == Ok(s) { ParsedIsPrintable(text, st.cc); }
  }
}

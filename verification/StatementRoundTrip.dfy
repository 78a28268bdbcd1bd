/** Parsing the tokens of a printed statement gives the statement back. */
module StatementRoundTrip {
  import opened Results
  import opened Text
  import opened Ast
  import opened Tokens
  import opened Grammar
  import opened Printer
  import opened ExprRoundTrip
  import opened PatternRoundTrip
  import Lexer

  /** What stands behind a clause: another one, or the end. */
  predicate Follows(k: TokenType) {
    k.MATCH? || k.WHERE? || k.RETURN? || k.CREATE? || k.MERGE? || k.SET? || k.DELETE? || k.CALL? || k.EOF?
  }

  // ---------- returned items ----------

  /** What may stand behind a returned or ordered item. */
  predicate ItemStop(k: TokenType) {
    ExprStop(k) && !k.AS? && !k.DESC? && !k.ASC?
  }

  lemma PlainItemStep(ts: TokenList, pos: nat, e: Expr, p: nat)
    requires ParseExpr(ts, pos) == Ok((e, p)) && !Peek(ts, p).AS?
    ensures ParseReturnItem(ts, pos) == Ok((ReturnItem(e, ""), p))
  {
  }

  lemma AliasedStep(ts: TokenList, pos: nat, e: Expr, p: nat)
    requires ParseExpr(ts, pos) == Ok((e, p)) && Peek(ts, p).AS? && Peek(ts, p + 1).IDENT?
    ensures ParseReturnItem(ts, pos) == Ok((ReturnItem(e, Lit(ts, p + 1)), p + 2))
  {
  }

  predicate ItemOk(i: ReturnItem, cc: Lexer.CharClass) {
    ExprOk(i.expr, cc) && NameOrNone(i.alias, cc)
  }

  lemma PlainItemAt(i: ReturnItem, ts: TokenList, pos: nat)
    requires i.alias == "" && At(ts, pos, PrintItem(i))
    ensures At(ts, pos, PrintExpr(i.expr)) && |PrintItem(i)| == |PrintExpr(i.expr)|
  {
    hide PrintExpr;
    assert PrintItem(i) == PrintExpr(i.expr) + [];
  }

  lemma AliasedItemAt(i: ReturnItem, cc: Lexer.CharClass, ts: TokenList, pos: nat)
    requires IsName(i.alias, cc) && i.alias != "" && At(ts, pos, PrintItem(i))
    ensures var p := pos + |PrintExpr(i.expr)|;
            && At(ts, pos, PrintExpr(i.expr)) && |PrintItem(i)| == |PrintExpr(i.expr)| + 2
            && Peek(ts, p).AS? && Peek(ts, p + 1).IDENT? && Lit(ts, p + 1) == i.alias
  {
    hide PrintExpr, At, IsName, LookupIdent, ToUpper;
    AtSplit(ts, pos, PrintExpr(i.expr), [Sym(AS), Name(i.alias)]);
    AtTwo(ts, pos + |PrintExpr(i.expr)|, Sym(AS), Name(i.alias));
    NamesPrinted(i.alias, cc);
  }

  lemma ItemBack(i: ReturnItem, cc: Lexer.CharClass, ts: TokenList, pos: nat)
    requires ItemOk(i, cc) && At(ts, pos, PrintItem(i)) && ItemStop(Peek(ts, pos + |PrintItem(i)|))
    ensures ParseReturnItem(ts, pos) == Ok((i, pos + |PrintItem(i)|))
  {
    hide ParseExpr, PrintExpr, ParseReturnItem, PrintItem, ExprOk, IsName, ExprStop, Peek, Lit, At;
    var p := pos + |PrintExpr(i.expr)|;
    AsStops();
    if i.alias == "" {
      PlainItemAt(i, ts, pos);
      ExprBack(i.expr, cc, ts, pos);
      PlainItemStep(ts, pos, i.expr, p);
    } else {
      AliasedItemAt(i, cc, ts, pos);
      ExprBack(i.expr, cc, ts, pos);
      AliasedStep(ts, pos, i.expr, p);
    }
  }

  lemma AsStops()
    ensures ExprStop(AS) && ExprStop(DESC) && ExprStop(ASC) && ItemStop(COMMA)
    ensures ItemStop(ORDER) && ItemStop(LIMIT) && ItemStop(SKIP)
    ensures forall k | Follows(k) :: ItemStop(k)
  {
  }

  predicate ItemsOk(items: seq<ReturnItem>, cc: Lexer.CharClass) {
    forall i | 0 <= i < |items| :: ItemOk(items[i], cc)
  }

  lemma ItemTailStep(ts: TokenList, pos: nat, acc: seq<ReturnItem>, i: ReturnItem, p: nat)
    requires Peek(ts, pos).COMMA? && ParseReturnItem(ts, pos + 1) == Ok((i, p))
    ensures ItemTail(ts, pos, acc) == ItemTail(ts, p, acc + [i])
  {
  }

  lemma ItemTailAt(items: seq<ReturnItem>, cc: Lexer.CharClass, ts: TokenList, pos: nat)
    requires items != [] && ItemsOk(items, cc) && At(ts, pos, PrintItemTail(items))
    ensures Peek(ts, pos).COMMA? && ItemOk(items[0], cc) && ItemsOk(items[1..], cc)
    ensures At(ts, pos + 1, PrintItem(items[0])) && At(ts, pos + 1 + |PrintItem(items[0])|, PrintItemTail(items[1..]))
    ensures |PrintItemTail(items)| == 1 + |PrintItem(items[0])| + |PrintItemTail(items[1..])|
  {
    hide PrintItem, ItemOk;
    Led(ts, pos, Sym(COMMA), PrintItem(items[0]), PrintItemTail(items[1..]));
  }

  lemma ItemTailStops(items: seq<ReturnItem>, cc: Lexer.CharClass, ts: TokenList, pos: nat)
    requires ItemsOk(items, cc) && At(ts, pos, PrintItemTail(items)) && ItemStop(Peek(ts, pos + |PrintItemTail(items)|))
    ensures ItemStop(Peek(ts, pos))
  {
    if items != [] { ItemTailAt(items, cc, ts, pos); }
  }

  lemma {:induction false} ItemTailBack(items: seq<ReturnItem>, cc: Lexer.CharClass, ts: TokenList, pos: nat, acc: seq<ReturnItem>)
    requires ItemsOk(items, cc) && At(ts, pos, PrintItemTail(items))
    requires var stop := Peek(ts, pos + |PrintItemTail(items)|); ItemStop(stop) && !stop.COMMA?
    ensures ItemTail(ts, pos, acc) == Ok((acc + items, pos + |PrintItemTail(items)|))
    decreases |items|
  {
    hide PrintItem, ParseReturnItem, ItemOk, ItemStop, At;
    if items == [] {
      assert acc + items == acc;
    } else {
      ItemTailAt(items, cc, ts, pos);
      var p := pos + 1 + |PrintItem(items[0])|;
      ItemTailStops(items[1..], cc, ts, p);
      ItemBack(items[0], cc, ts, pos + 1);
      ItemTailStep(ts, pos, acc, items[0], p);
      ItemTailBack(items[1..], cc, ts, p, acc + [items[0]]);
      assert acc + [items[0]] + items[1..] == acc + items;
    }
  }

  // ---------- ordering ----------

  lemma OrderStep(ts: TokenList, pos: nat, e: Expr, p: nat)
    requires ParseExpr(ts, pos) == Ok((e, p))
    ensures Peek(ts, p).DESC? ==> ParseOrderItem(ts, pos) == Ok((OrderItem(e, true), p + 1))
    ensures !Peek(ts, p).DESC? && !Peek(ts, p).ASC? ==> ParseOrderItem(ts, pos) == Ok((OrderItem(e, false), p))
  {
  }

  lemma OrderAt(i: OrderItem, ts: TokenList, pos: nat)
    requires At(ts, pos, PrintOrderItem(i))
    ensures At(ts, pos, PrintExpr(i.expr)) && |PrintOrderItem(i)| == |PrintExpr(i.expr)| + if i.desc then 1 else 0
    ensures i.desc ==> Peek(ts, pos + |PrintExpr(i.expr)|).DESC?
  {
    hide PrintExpr, At;
    AtSplit(ts, pos, PrintExpr(i.expr), if i.desc then [Sym(DESC)] else []);
    if i.desc { AtOne(ts, pos + |PrintExpr(i.expr)|, Sym(DESC)); }
  }

  lemma OrderBack(i: OrderItem, cc: Lexer.CharClass, ts: TokenList, pos: nat)
    requires ExprOk(i.expr, cc) && At(ts, pos, PrintOrderItem(i)) && ItemStop(Peek(ts, pos + |PrintOrderItem(i)|))
    ensures ParseOrderItem(ts, pos) == Ok((i, pos + |PrintOrderItem(i)|))
  {
    hide ParseExpr, PrintExpr, ParseOrderItem, PrintOrderItem, ExprOk, ExprStop, Peek, At;
    OrderAt(i, ts, pos);
    AsStops();
    ExprBack(i.expr, cc, ts, pos);
    OrderStep(ts, pos, i.expr, pos + |PrintExpr(i.expr)|);
  }

  predicate OrdersOk(items: seq<OrderItem>, cc: Lexer.CharClass) {
    forall i | 0 <= i < |items| :: ExprOk(items[i].expr, cc)
  }

  lemma OrderTailStep(ts: TokenList, pos: nat, acc: seq<OrderItem>, i: OrderItem, p: nat)
    requires Peek(ts, pos).COMMA? && ParseOrderItem(ts, pos + 1) == Ok((i, p))
    ensures OrderTail(ts, pos, acc) == OrderTail(ts, p, acc + [i])
  {
  }

  lemma OrderTailAt(items: seq<OrderItem>, cc: Lexer.CharClass, ts: TokenList, pos: nat)
    requires items != [] && OrdersOk(items, cc) && At(ts, pos, PrintOrderTail(items))
    ensures Peek(ts, pos).COMMA? && ExprOk(items[0].expr, cc) && OrdersOk(items[1..], cc)
    ensures At(ts, pos + 1, PrintOrderItem(items[0])) && At(ts, pos + 1 + |PrintOrderItem(items[0])|, PrintOrderTail(items[1..]))
    ensures |PrintOrderTail(items)| == 1 + |PrintOrderItem(items[0])| + |PrintOrderTail(items[1..])|
  {
    hide PrintOrderItem, ExprOk;
    Led(ts, pos, Sym(COMMA), PrintOrderItem(items[0]), PrintOrderTail(items[1..]));
  }

  lemma OrderTailStops(items: seq<OrderItem>, cc: Lexer.CharClass, ts: TokenList, pos: nat)
    requires OrdersOk(items, cc) && At(ts, pos, PrintOrderTail(items)) && ItemStop(Peek(ts, pos + |PrintOrderTail(items)|))
    ensures ItemStop(Peek(ts, pos))
  {
    if items != [] { OrderTailAt(items, cc, ts, pos); }
  }

  lemma {:induction false} OrderTailBack(items: seq<OrderItem>, cc: Lexer.CharClass, ts: TokenList, pos: nat, acc: seq<OrderItem>)
    requires OrdersOk(items, cc) && At(ts, pos, PrintOrderTail(items))
    requires var stop := Peek(ts, pos + |PrintOrderTail(items)|); ItemStop(stop) && !stop.COMMA?
    ensures OrderTail(ts, pos, acc) == Ok((acc + items, pos + |PrintOrderTail(items)|))
    decreases |items|
  {
    hide PrintOrderItem, ParseOrderItem, ExprOk, ItemStop, At;
    if items == [] {
      assert acc + items == acc;
    } else {
      OrderTailAt(items, cc, ts, pos);
      var p := pos + 1 + |PrintOrderItem(items[0])|;
      OrderTailStops(items[1..], cc, ts, p);
      OrderBack(items[0], cc, ts, pos + 1);
      OrderTailStep(ts, pos, acc, items[0], p);
      OrderTailBack(items[1..], cc, ts, p, acc + [items[0]]);
      assert acc + [items[0]] + items[1..] == acc + items;
    }
  }

  lemma OrderByStep(ts: TokenList, pos: nat, i: OrderItem, p: nat)
    requires Peek(ts, pos).ORDER? && Peek(ts, pos + 1).BY? && ParseOrderItem(ts, pos + 2) == Ok((i, p))
    ensures ParseOrderBy(ts, pos) == OrderTail(ts, p, [i])
  {
  }

  lemma NoOrder(ts: TokenList, pos: nat)
    requires !Peek(ts, pos).ORDER?
    ensures ParseOrderBy(ts, pos) == Ok(([], pos))
  {
  }

  lemma OrderByAt(items: seq<OrderItem>, ts: TokenList, pos: nat)
    requires items != [] && At(ts, pos, PrintOrderBy(items))
    ensures Peek(ts, pos).ORDER? && Peek(ts, pos + 1).BY?
    ensures At(ts, pos + 2, PrintOrderItem(items[0])) && At(ts, pos + 2 + |PrintOrderItem(items[0])|, PrintOrderTail(items[1..]))
    ensures |PrintOrderBy(items)| == 2 + |PrintOrderItem(items[0])| + |PrintOrderTail(items[1..])|
  {
    hide PrintOrderItem, PrintOrderTail, At;
    var i, rest := PrintOrderItem(items[0]), PrintOrderTail(items[1..]);
    AtSplit(ts, pos, [Sym(ORDER), Sym(BY)] + i, rest);
    AtSplit(ts, pos, [Sym(ORDER), Sym(BY)], i);
    AtTwo(ts, pos, Sym(ORDER), Sym(BY));
  }

  lemma OrderByBack(items: seq<OrderItem>, cc: Lexer.CharClass, ts: TokenList, pos: nat)
    requires OrdersOk(items, cc) && At(ts, pos, PrintOrderBy(items))
    requires var stop := Peek(ts, pos + |PrintOrderBy(items)|); ItemStop(stop) && !stop.COMMA? && !stop.ORDER?
    ensures ParseOrderBy(ts, pos) == Ok((items, pos + |PrintOrderBy(items)|))
    ensures items != [] ==> Peek(ts, pos).ORDER?
  {
    hide PrintOrderItem, PrintOrderTail, ParseOrderItem, OrderTail, ParseOrderBy, ExprOk, ItemStop, At;
    if items == [] {
      NoOrder(ts, pos);
    } else {
      OrderByAt(items, ts, pos);
      var p := pos + 2 + |PrintOrderItem(items[0])|;
      OrderTailStops(items[1..], cc, ts, p);
      OrderBack(items[0], cc, ts, pos + 2);
      OrderByStep(ts, pos, items[0], p);
      OrderTailBack(items[1..], cc, ts, p, [items[0]]);
      assert [items[0]] + items[1..] == items;
    }
  }

  // ---------- LIMIT and SKIP ----------

  lemma CountBack(keyword: TokenType, n: Option<nat>, ts: TokenList, pos: nat)
    requires (keyword.LIMIT? || keyword.SKIP?) && CountOk(n) && At(ts, pos, PrintCount(keyword, n))
    requires Peek(ts, pos + |PrintCount(keyword, n)|) != keyword
    ensures OptionalCount(ts, pos, keyword) == Ok((n, pos + |PrintCount(keyword, n)|))
    ensures n.Some? ==> Peek(ts, pos) == keyword
  {
    if n.Some? {
      AtHead(ts, pos, Sym(keyword), [Token(INT, Decimal(n.value))]);
      AtOne(ts, pos + 1, Token(INT, Decimal(n.value)));
      ParseIntDecimal(n.value);
    }
  }

  // ---------- RETURN ----------

  lemma ReturnStep(ts: TokenList, pos: nat, c: Clause, p1: nat, p2: nat, p3: nat, p4: nat, p5: nat)
    requires Peek(ts, pos).RETURN? && c.ReturnClause? && c.items != []
    requires ParseReturnItem(ts, pos + 1) == Ok((c.items[0], p1)) && ItemTail(ts, p1, [c.items[0]]) == Ok((c.items, p2))
    requires ParseOrderBy(ts, p2) == Ok((c.orderBy, p3))
    requires OptionalCount(ts, p3, LIMIT) == Ok((c.limit, p4)) && OptionalCount(ts, p4, SKIP) == Ok((c.skip, p5))
    ensures ParseClause(ts, pos) == Ok((c, p5))
  {
    hide ParseReturnItem, ItemTail, ParseOrderBy, OptionalCount;
  }

  predicate ReturnOk(c: Clause, cc: Lexer.CharClass) {
    c.ReturnClause? && c.items != [] && ItemsOk(c.items, cc) && OrdersOk(c.orderBy, cc) && CountOk(c.limit) && CountOk(c.skip)
  }

  /** What five parts behind a keyword look like at their positions. */
  lemma PartsAt(ts: TokenList, pos: nat, t: Token, a: seq<Token>, b: seq<Token>, c: seq<Token>, d: seq<Token>, e: seq<Token>)
    requires At(ts, pos, [t] + a + (b + (c + (d + e))))
    ensures Peek(ts, pos) == t.kind && At(ts, pos + 1, a) && At(ts, pos + 1 + |a|, b) && At(ts, pos + 1 + |a| + |b|, c)
    ensures At(ts, pos + 1 + |a| + |b| + |c|, d) && At(ts, pos + 1 + |a| + |b| + |c| + |d|, e)
  {
    hide At;
    Led(ts, pos, t, a, b + (c + (d + e)));
    AtSplit(ts, pos + 1 + |a|, b, c + (d + e));
    AtSplit(ts, pos + 1 + |a| + |b|, c, d + e);
    AtSplit(ts, pos + 1 + |a| + |b| + |c|, d, e);
  }

  lemma ReturnBack(c: Clause, cc: Lexer.CharClass, ts: TokenList, pos: nat)
    requires ReturnOk(c, cc) && At(ts, pos, PrintReturn(c)) && Follows(Peek(ts, pos + |PrintReturn(c)|))
    ensures ParseClause(ts, pos) == Ok((c, pos + |PrintReturn(c)|)) && Peek(ts, pos).RETURN?
  {
    hide *;
    var item, items := ReturnParts(c, cc);
    var order, limit, skip := PrintOrderBy(c.orderBy), PrintCount(LIMIT, c.limit), PrintCount(SKIP, c.skip);
    PartsAt(ts, pos, Sym(RETURN), item, items, order, limit, skip);
    var p1 := pos + 1 + |item|;
    var p3 := p1 + |items| + |order|;
    RestBack(c, cc, ts, p1 + |items|);
    ItemsBack(c.items, cc, ts, pos + 1, p1);
    ReturnStep(ts, pos, c, p1, p1 + |items|, p3, p3 + |limit|, p3 + |limit| + |skip|);
  }

  lemma ReturnParts(c: Clause, cc: Lexer.CharClass) returns (item: seq<Token>, items: seq<Token>)
    requires ReturnOk(c, cc)
    ensures c.ReturnClause? && c.items != [] && ItemsOk(c.items, cc) && Sym(RETURN).kind == RETURN
    ensures item == PrintItem(c.items[0]) && items == PrintItemTail(c.items[1..])
    ensures PrintReturn(c) == [Sym(RETURN)] + item
      + (items + (PrintOrderBy(c.orderBy) + (PrintCount(LIMIT, c.limit) + PrintCount(SKIP, c.skip))))
  {
    item, items := PrintItem(c.items[0]), PrintItemTail(c.items[1..]);
  }

  lemma ItemsBack(items: seq<ReturnItem>, cc: Lexer.CharClass, ts: TokenList, pos: nat, p: nat)
    requires items != [] && ItemsOk(items, cc) && At(ts, pos, PrintItem(items[0])) && p == pos + |PrintItem(items[0])|
    requires At(ts, p, PrintItemTail(items[1..]))
    requires var stop := Peek(ts, p + |PrintItemTail(items[1..])|); ItemStop(stop) && !stop.COMMA?
    ensures ParseReturnItem(ts, pos) == Ok((items[0], p))
    ensures ItemTail(ts, p, [items[0]]) == Ok((items, p + |PrintItemTail(items[1..])|))
  {
    hide PrintItem, PrintItemTail, ParseReturnItem, ItemTail, ItemOk, ItemStop, At;
    ItemTailStops(items[1..], cc, ts, p);
    ItemBack(items[0], cc, ts, pos);
    ItemTailBack(items[1..], cc, ts, p, [items[0]]);
    assert [items[0]] + items[1..] == items;
  }

  /** What follows the returned items: ordering, LIMIT and SKIP. */
  lemma RestBack(c: Clause, cc: Lexer.CharClass, ts: TokenList, p2: nat)
    requires ReturnOk(c, cc) && At(ts, p2, PrintOrderBy(c.orderBy))
    requires At(ts, p2 + |PrintOrderBy(c.orderBy)|, PrintCount(LIMIT, c.limit))
    requires At(ts, p2 + |PrintOrderBy(c.orderBy)| + |PrintCount(LIMIT, c.limit)|, PrintCount(SKIP, c.skip))
    requires Follows(Peek(ts, p2 + |PrintOrderBy(c.orderBy)| + |PrintCount(LIMIT, c.limit)| + |PrintCount(SKIP, c.skip)|))
    ensures ParseOrderBy(ts, p2) == Ok((c.orderBy, p2 + |PrintOrderBy(c.orderBy)|))
    ensures var p3 := p2 + |PrintOrderBy(c.orderBy)|;
            && OptionalCount(ts, p3, LIMIT) == Ok((c.limit, p3 + |PrintCount(LIMIT, c.limit)|))
            && OptionalCount(ts, p3 + |PrintCount(LIMIT, c.limit)|, SKIP)
               == Ok((c.skip, p3 + |PrintCount(LIMIT, c.limit)| + |PrintCount(SKIP, c.skip)|))
    ensures ItemStop(Peek(ts, p2)) && !Peek(ts, p2).COMMA?
  {
    hide PrintOrderBy, PrintCount, ParseOrderBy, OptionalCount, OrdersOk, ItemsOk, At, ExprStop;
    var p3 := p2 + |PrintOrderBy(c.orderBy)|;
    var p4 := p3 + |PrintCount(LIMIT, c.limit)|;
    AsStops();
    CountsStop(c.limit, c.skip, ts, p3, p4);
    CountBack(SKIP, c.skip, ts, p4);
    CountBack(LIMIT, c.limit, ts, p3);
    OrderStops(c.orderBy, cc, ts, p2);
    OrderByBack(c.orderBy, cc, ts, p2);
  }

  /** What follows the ordering. */
  lemma CountsStop(limit: Option<nat>, skip: Option<nat>, ts: TokenList, p3: nat, p4: nat)
    requires At(ts, p3, PrintCount(LIMIT, limit)) && p4 == p3 + |PrintCount(LIMIT, limit)|
    requires At(ts, p4, PrintCount(SKIP, skip)) && Follows(Peek(ts, p4 + |PrintCount(SKIP, skip)|))
    ensures Peek(ts, p4).SKIP? || Follows(Peek(ts, p4))
    ensures Peek(ts, p3).LIMIT? || Peek(ts, p3) == Peek(ts, p4)
  {
    if limit.Some? { AtHead(ts, p3, Sym(LIMIT), [Token(INT, Decimal(limit.value))]); }
    if skip.Some? { AtHead(ts, p4, Sym(SKIP), [Token(INT, Decimal(skip.value))]); }
  }

  lemma OrderStops(items: seq<OrderItem>, cc: Lexer.CharClass, ts: TokenList, pos: nat)
    requires At(ts, pos, PrintOrderBy(items))
    ensures Peek(ts, pos).ORDER? || PrintOrderBy(items) == []
  {
    if items != [] {
      assert PrintOrderBy(items) == [Sym(ORDER)] + ([Sym(BY)] + PrintOrderItem(items[0]) + PrintOrderTail(items[1..]));
      AtHead(ts, pos, Sym(ORDER), [Sym(BY)] + PrintOrderItem(items[0]) + PrintOrderTail(items[1..]));
    }
  }

  // ---------- SET ----------

  predicate SetItemOk(i: SetItem, cc: Lexer.CharClass) {
    IsName(i.variable, cc) && IsName(i.property, cc) && ExprOk(i.value, cc)
  }

  predicate SetItemsOk(items: seq<SetItem>, cc: Lexer.CharClass) {
    forall i | 0 <= i < |items| :: SetItemOk(items[i], cc)
  }

  lemma SetItemStep(ts: TokenList, pos: nat, e: Expr, end: nat)
    requires Peek(ts, pos).IDENT? && Peek(ts, pos + 1).DOT? && Peek(ts, pos + 2).IDENT? && Peek(ts, pos + 3).EQ?
    requires ParseExpr(ts, pos + 4) == Ok((e, end))
    ensures ParseSetItem(ts, pos) == Ok((SetItem(Lit(ts, pos), Lit(ts, pos + 2), e), end))
  {
  }

  lemma SetItemBack(i: SetItem, cc: Lexer.CharClass, ts: TokenList, pos: nat)
    requires SetItemOk(i, cc) && At(ts, pos, PrintSetItem(i)) && ExprStop(Peek(ts, pos + |PrintSetItem(i)|))
    ensures ParseSetItem(ts, pos) == Ok((i, pos + |PrintSetItem(i)|))
  {
    hide ParseExpr, PrintExpr, ParseSetItem, ExprOk, ExprStop, LookupIdent, ToUpper, At;
    var e := PrintExpr(i.value);
    NamesPrinted(i.variable, cc);
    NamesPrinted(i.property, cc);
    AtHead(ts, pos, Name(i.variable), [Sym(DOT)] + ([Name(i.property)] + ([Sym(EQ)] + e)));
    AtHead(ts, pos + 1, Sym(DOT), [Name(i.property)] + ([Sym(EQ)] + e));
    AtHead(ts, pos + 2, Name(i.property), [Sym(EQ)] + e);
    AtHead(ts, pos + 3, Sym(EQ), e);
    ExprBack(i.value, cc, ts, pos + 4);
    SetItemStep(ts, pos, i.value, pos + 4 + |e|);
  }

  lemma SetTailStep(ts: TokenList, pos: nat, acc: seq<SetItem>, i: SetItem, p: nat)
    requires Peek(ts, pos).COMMA? && ParseSetItem(ts, pos + 1) == Ok((i, p))
    ensures SetTail(ts, pos, acc) == SetTail(ts, p, acc + [i])
  {
  }

  lemma SetTailAt(items: seq<SetItem>, cc: Lexer.CharClass, ts: TokenList, pos: nat)
    requires items != [] && SetItemsOk(items, cc) && At(ts, pos, PrintSetTail(items))
    ensures Peek(ts, pos).COMMA? && SetItemOk(items[0], cc) && SetItemsOk(items[1..], cc)
    ensures At(ts, pos + 1, PrintSetItem(items[0])) && At(ts, pos + 1 + |PrintSetItem(items[0])|, PrintSetTail(items[1..]))
    ensures |PrintSetTail(items)| == 1 + |PrintSetItem(items[0])| + |PrintSetTail(items[1..])|
  {
    hide PrintSetItem, SetItemOk;
    Led(ts, pos, Sym(COMMA), PrintSetItem(items[0]), PrintSetTail(items[1..]));
  }

  lemma SetTailStops(items: seq<SetItem>, cc: Lexer.CharClass, ts: TokenList, pos: nat)
    requires SetItemsOk(items, cc) && At(ts, pos, PrintSetTail(items)) && ExprStop(Peek(ts, pos + |PrintSetTail(items)|))
    ensures ExprStop(Peek(ts, pos))
  {
    if items != [] { SetTailAt(items, cc, ts, pos); }
  }

  lemma {:induction false} SetTailBack(items: seq<SetItem>, cc: Lexer.CharClass, ts: TokenList, pos: nat, acc: seq<SetItem>)
    requires SetItemsOk(items, cc) && At(ts, pos, PrintSetTail(items))
    requires var stop := Peek(ts, pos + |PrintSetTail(items)|); ExprStop(stop) && !stop.COMMA?
    ensures SetTail(ts, pos, acc) == Ok((acc + items, pos + |PrintSetTail(items)|))
    decreases |items|
  {
    hide PrintSetItem, ParseSetItem, SetItemOk, ExprStop, At;
    if items == [] {
      assert acc + items == acc;
    } else {
      SetTailAt(items, cc, ts, pos);
      var p := pos + 1 + |PrintSetItem(items[0])|;
      SetTailStops(items[1..], cc, ts, p);
      SetItemBack(items[0], cc, ts, pos + 1);
      SetTailStep(ts, pos, acc, items[0], p);
      SetTailBack(items[1..], cc, ts, p, acc + [items[0]]);
      assert acc + [items[0]] + items[1..] == acc + items;
    }
  }

  lemma SetStep(ts: TokenList, pos: nat, i: SetItem, p: nat, items: seq<SetItem>, end: nat)
    requires Peek(ts, pos).SET? && ParseSetItem(ts, pos + 1) == Ok((i, p)) && SetTail(ts, p, [i]) == Ok((items, end))
    ensures ParseClause(ts, pos) == Ok((SetClause(items), end))
  {
    hide ParseSetItem, SetTail;
  }

  lemma SetBack(items: seq<SetItem>, cc: Lexer.CharClass, ts: TokenList, pos: nat)
    requires items != [] && SetItemsOk(items, cc)
    requires At(ts, pos, [Sym(SET)] + PrintSetItem(items[0]) + PrintSetTail(items[1..]))
    requires Follows(Peek(ts, pos + 1 + |PrintSetItem(items[0])| + |PrintSetTail(items[1..])|))
    ensures Peek(ts, pos).SET?
    ensures ParseClause(ts, pos) == Ok((SetClause(items), pos + 1 + |PrintSetItem(items[0])| + |PrintSetTail(items[1..])|))
  {
    hide PrintSetItem, ParseSetItem, PrintSetTail, SetTail, SetItemOk, ParseClause, At;
    var item, rest := PrintSetItem(items[0]), PrintSetTail(items[1..]);
    Led(ts, pos, Sym(SET), item, rest);
    var p := pos + 1 + |item|;
    AsStops();
    SetTailStops(items[1..], cc, ts, p);
    SetItemBack(items[0], cc, ts, pos + 1);
    SetTailBack(items[1..], cc, ts, p, [items[0]]);
    assert [items[0]] + items[1..] == items;
    SetStep(ts, pos, items[0], p, items, p + |rest|);
  }

  // ---------- names ----------

  predicate Separator(k: TokenType) {
    k.COMMA? || k.DOT?
  }

  lemma {:induction false} NameTailBack(sep: TokenType, ns: seq<string>, cc: Lexer.CharClass, ts: TokenList, pos: nat, acc: seq<string>)
    requires Separator(sep) && NamesOk(ns, cc) && At(ts, pos, PrintNameTail(sep, ns))
    requires Peek(ts, pos + |PrintNameTail(sep, ns)|) != sep
    ensures IdentTail(ts, pos, sep, acc) == Ok((acc + ns, pos + |PrintNameTail(sep, ns)|))
    decreases |ns|
  {
    hide LookupIdent, ToUpper, IsName, At, SymText;
    if ns == [] {
      assert acc + ns == acc;
    } else {
      var rest := PrintNameTail(sep, ns[1..]);
      assert [Sym(sep), Name(ns[0])] + rest == [Sym(sep)] + [Name(ns[0])] + rest;
      Led(ts, pos, Sym(sep), [Name(ns[0])], rest);
      AtOne(ts, pos + 1, Name(ns[0]));
      NamesPrinted(ns[0], cc);
      NameTailBack(sep, ns[1..], cc, ts, pos + 2, acc + [ns[0]]);
      assert acc + [ns[0]] + ns[1..] == acc + ns;
    }
  }

  lemma NamesBack(sep: TokenType, ns: seq<string>, cc: Lexer.CharClass, ts: TokenList, pos: nat)
    requires Separator(sep) && ns != [] && NamesOk(ns, cc) && At(ts, pos, PrintNames(sep, ns))
    requires Peek(ts, pos + |PrintNames(sep, ns)|) != sep
    ensures ParseIdents(ts, pos, sep) == Ok((ns, pos + |PrintNames(sep, ns)|))
  {
    hide LookupIdent, ToUpper, IsName, IdentTail, PrintNameTail;
    AtHead(ts, pos, Name(ns[0]), PrintNameTail(sep, ns[1..]));
    NamesPrinted(ns[0], cc);
    NameTailBack(sep, ns[1..], cc, ts, pos + 1, [ns[0]]);
    assert [ns[0]] + ns[1..] == ns;
  }

  // ---------- CALL ----------

  lemma InvocationStep(ts: TokenList, pos: nat, parts: seq<string>, p: nat, args: seq<Expr>, end: nat)
    requires ParseIdents(ts, pos, DOT) == Ok((parts, p)) && Peek(ts, p).LPAREN? && ExprsUntil(ts, p + 1, RPAREN) == Ok((args, end))
    ensures ParseInvocation(ts, pos) == Ok(((JoinDots(parts), args), end))
  {
    hide ParseIdents, ExprsUntil, JoinDots;
  }

  lemma YieldBack(vars: seq<string>, cc: Lexer.CharClass, ts: TokenList, pos: nat)
    requires NamesOk(vars, cc) && At(ts, pos, PrintYield(vars)) && Follows(Peek(ts, pos + |PrintYield(vars)|))
    ensures ParseYield(ts, pos) == Ok((vars, pos + |PrintYield(vars)|))
  {
    hide ParseIdents, PrintNames, IsName;
    if vars != [] {
      AtHead(ts, pos, Sym(YIELD), PrintNames(COMMA, vars));
      NamesBack(COMMA, vars, cc, ts, pos + 1);
    }
  }

  lemma CallStep(ts: TokenList, pos: nat, procedure: string, args: seq<Expr>, p: nat, vars: seq<string>, end: nat)
    requires Peek(ts, pos).CALL? && ParseInvocation(ts, pos + 1) == Ok(((procedure, args), p)) && ParseYield(ts, p) == Ok((vars, end))
    ensures ParseClause(ts, pos) == Ok((CallClause(procedure, args, vars), end))
  {
    hide ParseInvocation, ParseYield;
  }

  lemma CallBack(parts: seq<string>, args: seq<Expr>, vars: seq<string>, cc: Lexer.CharClass, ts: TokenList, pos: nat)
    requires parts != [] && NamesOk(parts, cc) && ExprsOk(args, cc) && NamesOk(vars, cc)
    requires At(ts, pos, [Sym(CALL)] + PrintNames(DOT, parts) + ([Sym(LPAREN)] + (PrintExprs(args) + [Sym(RPAREN)])) + PrintYield(vars))
    requires Follows(Peek(ts, pos + 3 + |PrintNames(DOT, parts)| + |PrintExprs(args)| + |PrintYield(vars)|))
    ensures Peek(ts, pos).CALL?
    ensures ParseClause(ts, pos)
         == Ok((CallClause(JoinDots(parts), args, vars), pos + 3 + |PrintNames(DOT, parts)| + |PrintExprs(args)| + |PrintYield(vars)|))
  {
    hide PrintNames, PrintExprs, PrintYield, ParseIdents, ParseInvocation, ParseYield, ExprsUntil, ExprsOk, ParseClause, JoinDots, IsName, At;
    var names, inner, rest := PrintNames(DOT, parts), PrintExprs(args) + [Sym(RPAREN)], PrintYield(vars);
    AtSplit(ts, pos, [Sym(CALL)] + names + ([Sym(LPAREN)] + inner), rest);
    Led(ts, pos, Sym(CALL), names, [Sym(LPAREN)] + inner);
    var p := pos + 1 + |names|;
    AtHead(ts, p, Sym(LPAREN), inner);
    NamesBack(DOT, parts, cc, ts, pos + 1);
    ExprsBack(args, cc, ts, p + 1, RPAREN);
    InvocationStep(ts, pos + 1, parts, p, args, p + 1 + |inner|);
    YieldBack(vars, cc, ts, p + 1 + |inner|);
    CallStep(ts, pos, JoinDots(parts), args, p + 1 + |inner|, vars, p + 1 + |inner| + |rest|);
  }

  // ---------- other clauses ----------

  lemma PatternsStep(ts: TokenList, pos: nat, ps: seq<Pattern>, end: nat)
    requires ParsePatterns(ts, pos + 1) == Ok((ps, end))
    ensures Peek(ts, pos).MATCH? ==> ParseClause(ts, pos) == Ok((MatchClause(ps), end))
    ensures Peek(ts, pos).CREATE? ==> ParseClause(ts, pos) == Ok((CreateClause(ps), end))
  {
    hide ParsePatterns;
  }

  predicate ClauseStart(k: TokenType) {
    Follows(k) && !k.EOF?
  }

  lemma PatternsClauseBack(c: Clause, st: Style, ts: TokenList, pos: nat)
    requires st.Ok() && (c.MatchClause? || c.CreateClause?) && Printer.ClauseOk(c, st.cc)
    requires At(ts, pos, PrintClause(c, st)) && Follows(Peek(ts, pos + |PrintClause(c, st)|))
    ensures ParseClause(ts, pos) == Ok((c, pos + |PrintClause(c, st)|)) && ClauseStart(Peek(ts, pos))
  {
    hide PrintPattern, PrintPatternTail, ParsePatterns, NodeOk, EdgeOk, ParseClause, At, Peek, Lit, SymText, PatternStop;
    FollowsStops(Peek(ts, pos + |PrintClause(c, st)|));
    var ps := c.patterns;
    var body := PrintPattern(ps[0], st) + PrintPatternTail(ps[1..], st);
    AtHead(ts, pos, Sym(if c.MatchClause? then MATCH else CREATE), body);
    PatternsBack(ps, st, ts, pos + 1);
    PatternsStep(ts, pos, ps, pos + 1 + |body|);
  }

  lemma MergeStep(ts: TokenList, pos: nat, p: Pattern, end: nat)
    requires Peek(ts, pos).MERGE? && ParsePattern(ts, pos + 1) == Ok((p, end))
    ensures ParseClause(ts, pos) == Ok((MergeClause(p), end))
  {
    hide ParsePattern;
  }

  lemma MergeBack(c: Clause, st: Style, ts: TokenList, pos: nat)
    requires st.Ok() && c.MergeClause? && Printer.ClauseOk(c, st.cc) && At(ts, pos, PrintClause(c, st)) && Follows(Peek(ts, pos + |PrintClause(c, st)|))
    ensures ParseClause(ts, pos) == Ok((c, pos + |PrintClause(c, st)|)) && ClauseStart(Peek(ts, pos))
  {
    hide PrintPattern, ParsePattern, ParseClause, NodeOk, EdgeOk, At;
    AtHead(ts, pos, Sym(MERGE), PrintPattern(c.pattern, st));
    PatternBack(c.pattern, st, ts, pos + 1);
    MergeStep(ts, pos, c.pattern, pos + |PrintClause(c, st)|);
  }

  lemma WhereStep(ts: TokenList, pos: nat, e: Expr, end: nat)
    requires Peek(ts, pos).WHERE? && ParseExpr(ts, pos + 1) == Ok((e, end))
    ensures ParseClause(ts, pos) == Ok((WhereClause(e), end))
  {
    hide ParseExpr;
  }

  lemma FollowsStops(k: TokenType)
    requires Follows(k)
    ensures ExprStop(k) && PatternStop(k) && !k.COMMA? && !k.DOT?
  {
  }

  lemma WhereBack(c: Clause, st: Style, ts: TokenList, pos: nat)
    requires st.Ok() && c.WhereClause? && Printer.ClauseOk(c, st.cc) && At(ts, pos, PrintClause(c, st)) && Follows(Peek(ts, pos + |PrintClause(c, st)|))
    ensures ParseClause(ts, pos) == Ok((c, pos + |PrintClause(c, st)|)) && ClauseStart(Peek(ts, pos))
  {
    hide PrintExpr, ParseExpr, ParseClause, ExprOk, ExprStop, At, Peek, Lit, SymText;
    AtHead(ts, pos, Sym(WHERE), PrintExpr(c.expr));
    FollowsStops(Peek(ts, pos + |PrintClause(c, st)|));
    ExprBack(c.expr, st.cc, ts, pos + 1);
    WhereStep(ts, pos, c.expr, pos + |PrintClause(c, st)|);
  }

  lemma DeleteStep(ts: TokenList, pos: nat, vars: seq<string>, end: nat)
    requires Peek(ts, pos).DELETE? && ParseIdents(ts, pos + 1, COMMA) == Ok((vars, end))
    ensures ParseClause(ts, pos) == Ok((DeleteClause(vars), end))
  {
    hide ParseIdents;
  }

  lemma DeleteBack(c: Clause, st: Style, ts: TokenList, pos: nat)
    requires st.Ok() && c.DeleteClause? && Printer.ClauseOk(c, st.cc) && At(ts, pos, PrintClause(c, st)) && Follows(Peek(ts, pos + |PrintClause(c, st)|))
    ensures ParseClause(ts, pos) == Ok((c, pos + |PrintClause(c, st)|)) && ClauseStart(Peek(ts, pos))
  {
    hide PrintNames, ParseIdents, ParseClause, IsName, At;
    AtHead(ts, pos, Sym(DELETE), PrintNames(COMMA, c.variables));
    NamesBack(COMMA, c.variables, st.cc, ts, pos + 1);
    DeleteStep(ts, pos, c.variables, pos + |PrintClause(c, st)|);
  }

  lemma SetClauseBack(c: Clause, st: Style, ts: TokenList, pos: nat)
    requires st.Ok() && c.SetClause? && Printer.ClauseOk(c, st.cc) && At(ts, pos, PrintClause(c, st)) && Follows(Peek(ts, pos + |PrintClause(c, st)|))
    ensures ParseClause(ts, pos) == Ok((c, pos + |PrintClause(c, st)|)) && ClauseStart(Peek(ts, pos))
  {
    hide PrintSetItem, PrintSetTail, ParseClause, IsName, ExprOk, At;
    SetBack(c.setItems, st.cc, ts, pos);
  }

  lemma ReturnClauseBack(c: Clause, st: Style, ts: TokenList, pos: nat)
    requires st.Ok() && c.ReturnClause? && Printer.ClauseOk(c, st.cc) && At(ts, pos, PrintClause(c, st)) && Follows(Peek(ts, pos + |PrintClause(c, st)|))
    ensures ParseClause(ts, pos) == Ok((c, pos + |PrintClause(c, st)|)) && ClauseStart(Peek(ts, pos))
  {
    hide PrintReturn, ParseClause, NameOrNone, CountOk, ExprOk, At;
    ReturnBack(c, st.cc, ts, pos);
  }

  lemma CallClauseBack(c: Clause, st: Style, ts: TokenList, pos: nat)
    requires st.Ok() && c.CallClause? && Printer.ClauseOk(c, st.cc) && At(ts, pos, PrintClause(c, st)) && Follows(Peek(ts, pos + |PrintClause(c, st)|))
    ensures ParseClause(ts, pos) == Ok((c, pos + |PrintClause(c, st)|)) && ClauseStart(Peek(ts, pos))
  {
    hide PrintNames, PrintExprs, PrintYield, ParseClause, ExprsOk, NamesOk, JoinDots, At;
    CallBack(ProcedureParts(c.procedure, st.cc), c.args, c.yieldVars, st.cc, ts, pos);
  }

  /** Parsing a printed clause gives it back. */
  lemma ClauseBack(c: Clause, st: Style, ts: TokenList, pos: nat)
    requires st.Ok() && Printer.ClauseOk(c, st.cc) && At(ts, pos, PrintClause(c, st)) && Follows(Peek(ts, pos + |PrintClause(c, st)|))
    ensures ParseClause(ts, pos) == Ok((c, pos + |PrintClause(c, st)|)) && ClauseStart(Peek(ts, pos))
  {
    hide *;
    match c {
      case MatchClause(_) => PatternsClauseBack(c, st, ts, pos);
      case CreateClause(_) => PatternsClauseBack(c, st, ts, pos);
      case MergeClause(_) => MergeBack(c, st, ts, pos);
      case WhereClause(_) => WhereBack(c, st, ts, pos);
      case ReturnClause(_, _, _, _) => ReturnClauseBack(c, st, ts, pos);
      case SetClause(_) => SetClauseBack(c, st, ts, pos);
      case DeleteClause(_) => DeleteBack(c, st, ts, pos);
      case CallClause(_, _, _) => CallClauseBack(c, st, ts, pos);
    }
  }

  // ---------- statements ----------

  ghost predicate AllClausesOk(cs: seq<Clause>, cc: Lexer.CharClass) {
    forall i | 0 <= i < |cs| :: Printer.ClauseOk(cs[i], cc)
  }

  lemma PrintableParses(c: Clause, cc: Lexer.CharClass)
    requires Printer.ClauseOk(c, cc)
    ensures Ast.ClauseOk(c)
  {
  }

  lemma ClauseStep(ts: TokenList, pos: nat, acc: seq<Clause>, c: Clause, p: nat)
    requires ClausesOk(acc) && Ast.ClauseOk(c) && !Peek(ts, pos).EOF? && ParseClause(ts, pos) == Ok((c, p))
    ensures ClausesOk(acc + [c]) && ClauseTail(ts, pos, acc) == ClauseTail(ts, p, acc + [c])
  {
    hide ParseClause;
    ClausesMore(acc, c);
  }

  lemma ClausesAt(cs: seq<Clause>, st: Style, ts: TokenList, pos: nat)
    requires cs != [] && st.Ok() && AllClausesOk(cs, st.cc) && At(ts, pos, PrintClauses(cs, st))
    ensures Printer.ClauseOk(cs[0], st.cc) && AllClausesOk(cs[1..], st.cc)
    ensures At(ts, pos, PrintClause(cs[0], st)) && At(ts, pos + |PrintClause(cs[0], st)|, PrintClauses(cs[1..], st))
    ensures |PrintClauses(cs, st)| == |PrintClause(cs[0], st)| + |PrintClauses(cs[1..], st)|
  {
    hide PrintClause, Printer.ClauseOk, At;
    AtSplit(ts, pos, PrintClause(cs[0], st), PrintClauses(cs[1..], st));
  }

  lemma {:induction false} ClausesBack(cs: seq<Clause>, st: Style, ts: TokenList, pos: nat, acc: seq<Clause>)
    requires st.Ok() && AllClausesOk(cs, st.cc) && ClausesOk(acc) && At(ts, pos, PrintClauses(cs, st))
    requires Peek(ts, pos + |PrintClauses(cs, st)|).EOF?
    ensures Follows(Peek(ts, pos))
    ensures ClauseTail(ts, pos, acc) == Ok((acc + cs, pos + |PrintClauses(cs, st)|))
    decreases |cs|
  {
    hide PrintClause, ParseClause, Printer.ClauseOk, Ast.ClauseOk, At;
    if cs == [] {
      assert acc + cs == acc;
    } else {
      ClausesAt(cs, st, ts, pos);
      var p := pos + |PrintClause(cs[0], st)|;
      ClausesBack(cs[1..], st, ts, p, []);
      ClauseBack(cs[0], st, ts, pos);
      PrintableParses(cs[0], st.cc);
      ClauseStep(ts, pos, acc, cs[0], p);
      ClausesBack(cs[1..], st, ts, p, acc + [cs[0]]);
      assert acc + [cs[0]] + cs[1..] == acc + cs;
    }
  }

  /** Parsing a printed statement's tokens gives the statement back. */
  lemma StatementBack(s: Statement, st: Style)
    requires st.Ok() && StatementOk(s, st.cc)
    ensures ParseStatement(PrintClauses(s.clauses, st) + [Token(EOF, "")]) == Ok(s)
  {
    hide PrintClauses, ClauseTail, Printer.ClauseOk;
    var toks := PrintClauses(s.clauses, st);
    var ts := toks + [Token(EOF, "")];
    assert At(ts, 0, toks) by { assert ts[0..|toks|] == toks; }
    ClausesBack(s.clauses, st, ts, 0, []);
    assert [] + s.clauses == s.clauses;
  }
}

/** What the recursive-descent parser makes of a token list, rule by rule. Every rule maps
    a position to a result and the position behind what it consumed. */
module Grammar {
  import opened Results
  import opened Text
  import opened Ast
  import opened Tokens

  type Parsed<T> = Result<(T, nat)>

  type TokenList = seq<Token>

  /** Beyond the list every token reads as end of input. */
  function Peek(ts: TokenList, pos: nat): TokenType {
    if pos < |ts| then ts[pos].kind else EOF
  }

  function Lit(ts: TokenList, pos: nat): string {
    if pos < |ts| then ts[pos].lit else ""
  }

  /** The list's length, short of a final end of input or illegal token. */
  function Readable(ts: TokenList): (n: nat)
    ensures n <= |ts|
  {
    if ts != [] && Ends(ts[|ts| - 1]) then |ts| - 1 else |ts|
  }

  /** Reading on from pos has reached end without touching the final ending token. */
  predicate Skipped(ts: TokenList, pos: nat, end: nat) {
    pos == end || pos < end <= Readable(ts)
  }

  /** A rule that succeeds consumed at least one token. */
  predicate Consumed(ts: TokenList, pos: nat, end: nat) {
    pos < end <= Readable(ts)
  }

  function Left(ts: TokenList, pos: nat): nat {
    if pos < |ts| then |ts| - pos else 0
  }

  function Expect(ts: TokenList, pos: nat, kind: TokenType): (r: Result<nat>)
    requires !kind.EOF? && !kind.ILLEGAL?
    ensures r.Ok? ==> r.value == pos + 1 && Consumed(ts, pos, pos + 1) && ts[pos].kind == kind
    ensures r.Ok? <==> Peek(ts, pos) == kind
  {
    if Peek(ts, pos) == kind then Ok(pos + 1) else Err
  }

  // ---------- numerals ----------

  /** strconv.ParseInt with its error ignored: out of range clamps, bad syntax is zero. */
  function ParseInt(lit: string): (v: nat)
    ensures v <= MAX_INT64
  {
    if lit != "" && AllDigits(lit) then (if FromDecimal(lit) > MAX_INT64 then MAX_INT64 else FromDecimal(lit)) else 0
  }

  // ---------- expressions: OR, AND, NOT, comparison, atom ----------

  function ParseExpr(ts: TokenList, pos: nat): (r: Parsed<Expr>)
    ensures r.Ok? ==> Consumed(ts, pos, r.value.1)
    decreases Left(ts, pos), 6
  {
    var (left, p) :- ParseAnd(ts, pos);
    OrTail(ts, p, left)
  }

  /** Further OR operands, joined to the left one. */
  function OrTail(ts: TokenList, pos: nat, left: Expr): (r: Parsed<Expr>)
    ensures r.Ok? ==> Skipped(ts, pos, r.value.1)
    decreases Left(ts, pos), 6
  {
    if Peek(ts, pos).OR? then
      var (right, p) :- ParseAnd(ts, pos + 1);
      OrTail(ts, p, BinaryExpr(left, OrOp, right))
    else
      Ok((left, pos))
  }

  function ParseAnd(ts: TokenList, pos: nat): (r: Parsed<Expr>)
    ensures r.Ok? ==> Consumed(ts, pos, r.value.1)
    decreases Left(ts, pos), 5
  {
    var (left, p) :- ParseNot(ts, pos);
    AndTail(ts, p, left)
  }

  function AndTail(ts: TokenList, pos: nat, left: Expr): (r: Parsed<Expr>)
    ensures r.Ok? ==> Skipped(ts, pos, r.value.1)
    decreases Left(ts, pos), 5
  {
    if Peek(ts, pos).AND? then
      var (right, p) :- ParseNot(ts, pos + 1);
      AndTail(ts, p, BinaryExpr(left, AndOp, right))
    else
      Ok((left, pos))
  }

  function ParseNot(ts: TokenList, pos: nat): (r: Parsed<Expr>)
    ensures r.Ok? ==> Consumed(ts, pos, r.value.1)
    decreases Left(ts, pos), 4
  {
    if Peek(ts, pos).NOT? then
      var (e, p) :- ParseComparison(ts, pos + 1);
      Ok((NotExpr(e), p))
    else
      ParseComparison(ts, pos)
  }

  function ComparisonOp(kind: TokenType): Option<Operator> {
    match kind
    case EQ => Some(EqOp)
    case NEQ => Some(NeqOp)
    case LT => Some(LtOp)
    case GT => Some(GtOp)
    case LTE => Some(LteOp)
    case GTE => Some(GteOp)
    case CONTAINS => Some(ContainsOp)
    case IN => Some(InOp)
    case _ => None
  }

  function ParseComparison(ts: TokenList, pos: nat): (r: Parsed<Expr>)
    ensures r.Ok? ==> Consumed(ts, pos, r.value.1)
    decreases Left(ts, pos), 3
  {
    var (left, p) :- ParseAtom(ts, pos);
    var op := ComparisonOp(Peek(ts, p));
    if op.Some? then
      var (right, q) :- ParseAtom(ts, p + 1);
      Ok((BinaryExpr(left, op.value, right), q))
    else
      Ok((left, p))
  }

  /** Expressions after commas, appended to those already read. */
  function ExprTail(ts: TokenList, pos: nat, acc: seq<Expr>): (r: Parsed<seq<Expr>>)
    ensures r.Ok? ==> Skipped(ts, pos, r.value.1)
    decreases Left(ts, pos), 7
  {
    if Peek(ts, pos).COMMA? then
      var (e, p) :- ParseExpr(ts, pos + 1);
      ExprTail(ts, p, acc + [e])
    else
      Ok((acc, pos))
  }

  /** A closing token, or expressions up to it. */
  function ExprsUntil(ts: TokenList, pos: nat, close: TokenType): (r: Parsed<seq<Expr>>)
    requires !close.EOF? && !close.ILLEGAL?
    ensures r.Ok? ==> Consumed(ts, pos, r.value.1)
    decreases Left(ts, pos), 8
  {
    if Peek(ts, pos) == close then
      Ok(([], pos + 1))
    else
      var (e, p) :- ParseExpr(ts, pos);
      var (es, q) :- ExprTail(ts, p, [e]);
      var end :- Expect(ts, q, close);
      Ok((es, end))
  }

  /** A function's arguments: a leading star stands alone. */
  function CallArgs(ts: TokenList, pos: nat): (r: Parsed<seq<Expr>>)
    ensures r.Ok? ==> Consumed(ts, pos, r.value.1)
    decreases Left(ts, pos), 9
  {
    if Peek(ts, pos).STAR? then
      var (es, q) :- ExprTail(ts, pos + 1, [StarExpr]);
      var end :- Expect(ts, q, RPAREN);
      Ok((es, end))
    else
      ExprsUntil(ts, pos, RPAREN)
  }

  function ParseAtom(ts: TokenList, pos: nat): (r: Parsed<Expr>)
    ensures r.Ok? ==> Consumed(ts, pos, r.value.1)
    decreases Left(ts, pos), 2
  {
    var lit := Lit(ts, pos);
    match Peek(ts, pos)
    case STAR => Ok((StarExpr, pos + 1))
    case INT => Ok((LiteralExpr(IntLit(ParseInt(lit))), pos + 1))
    case FLOAT => Ok((LiteralExpr(FloatLit(false, lit)), pos + 1))
    case STRING => Ok((LiteralExpr(StringLit(lit)), pos + 1))
    case TRUE => Ok((LiteralExpr(BoolLit(true)), pos + 1))
    case FALSE => Ok((LiteralExpr(BoolLit(false)), pos + 1))
    case NULL => Ok((LiteralExpr(NullLit), pos + 1))
    case PARAM => Ok((ParamExpr(if lit == "" then "" else lit[1..]), pos + 1))
    case LBRACKET =>
      var (es, p) :- ExprsUntil(ts, pos + 1, RBRACKET);
      Ok((ListExpr(es), p))
    case LPAREN =>
      var (e, p) :- ParseExpr(ts, pos + 1);
      var end :- Expect(ts, p, RPAREN);
      Ok((e, end))
    case IDENT => ParseNamed(ts, pos)
    case COUNT => ParseNamed(ts, pos)
    case DASH =>
      var num := Lit(ts, pos + 1);
      (match Peek(ts, pos + 1)
       case INT => Ok((LiteralExpr(IntLit(0 - ParseInt(num))), pos + 2))
       case FLOAT => Ok((LiteralExpr(FloatLit(true, num)), pos + 2))
       case _ => Err)
    case _ => Err
  }

  /** A call, a property access or a plain name. */
  function ParseNamed(ts: TokenList, pos: nat): (r: Parsed<Expr>)
    requires Peek(ts, pos).IDENT? || Peek(ts, pos).COUNT?
    ensures r.Ok? ==> Consumed(ts, pos, r.value.1)
    decreases Left(ts, pos), 1
  {
    var name := Lit(ts, pos);
    if Peek(ts, pos + 1).LPAREN? then
      var (args, p) :- CallArgs(ts, pos + 2);
      Ok((FuncCallExpr(name, args), p))
    else if Peek(ts, pos + 1).DOT? then
      var end :- Expect(ts, pos + 2, IDENT);
      Ok((PropertyExpr(name, Lit(ts, pos + 2)), end))
    else
      Ok((IdentExpr(name), pos + 1))
  }

  // ---------- patterns ----------

  /** One key and value of a map literal, added to those before; a repeated key overrides. */
  function MapEntry(ts: TokenList, pos: nat, m: map<string, Expr>): (r: Parsed<map<string, Expr>>)
    ensures r.Ok? ==> Consumed(ts, pos, r.value.1)
  {
    var p1 :- Expect(ts, pos, IDENT);
    var p2 :- Expect(ts, p1, COLON);
    var (val, end) :- ParseExpr(ts, p2);
    Ok((m[Lit(ts, pos) := val], end))
  }

  function MapTail(ts: TokenList, pos: nat, m: map<string, Expr>): (r: Parsed<map<string, Expr>>)
    ensures r.Ok? ==> Skipped(ts, pos, r.value.1)
    decreases Left(ts, pos)
  {
    if Peek(ts, pos).COMMA? then
      var (m', p) :- MapEntry(ts, pos + 1, m);
      MapTail(ts, p, m')
    else
      Ok((m, pos))
  }

  function ParseMap(ts: TokenList, pos: nat): (r: Parsed<map<string, Expr>>)
    requires Peek(ts, pos).LBRACE?
    ensures r.Ok? ==> Consumed(ts, pos, r.value.1)
  {
    if Peek(ts, pos + 1).RBRACE? then
      Ok((map[], pos + 2))
    else
      var (first, p1) :- MapEntry(ts, pos + 1, map[]);
      var (m, p2) :- MapTail(ts, p1, first);
      var end :- Expect(ts, p2, RBRACE);
      Ok((m, end))
  }

  /** An optional identifier, as for variables. */
  function OptionalIdent(ts: TokenList, pos: nat): (r: (string, nat))
    ensures Skipped(ts, pos, r.1)
  {
    if Peek(ts, pos).IDENT? then (Lit(ts, pos), pos + 1) else ("", pos)
  }

  /** An optional colon and label. */
  function OptionalLabel(ts: TokenList, pos: nat): (r: Parsed<string>)
    ensures r.Ok? ==> Skipped(ts, pos, r.value.1)
  {
    if Peek(ts, pos).COLON? then
      var p :- Expect(ts, pos + 1, IDENT);
      Ok((Lit(ts, pos + 1), p))
    else
      Ok(("", pos))
  }

  function ParseNode(ts: TokenList, pos: nat): (r: Parsed<NodePattern>)
    ensures r.Ok? ==> Consumed(ts, pos, r.value.1)
  {
    var p1 :- Expect(ts, pos, LPAREN);
    var (variable, p2) := OptionalIdent(ts, p1);
    var (lbl, p3) :- OptionalLabel(ts, p2);
    if Peek(ts, p3).LBRACE? then
      var (props, p4) :- ParseMap(ts, p3);
      var end :- Expect(ts, p4, RPAREN);
      Ok((NodePattern(variable, lbl, props), end))
    else
      var end :- Expect(ts, p3, RPAREN);
      Ok((NodePattern(variable, lbl, map[]), end))
  }

  /** The optional bracketed part of a relationship. */
  function ParseDetail(ts: TokenList, pos: nat, dir: Direction): (r: Parsed<EdgePattern>)
    ensures r.Ok? ==> Skipped(ts, pos, r.value.1)
  {
    if Peek(ts, pos).LBRACKET? then
      var (variable, p1) := OptionalIdent(ts, pos + 1);
      var (lbl, p2) :- OptionalLabel(ts, p1);
      var end :- Expect(ts, p2, RBRACKET);
      Ok((EdgePattern(variable, lbl, dir), end))
    else
      Ok((EdgePattern("", "", dir), pos))
  }

  function ParseRelAndNode(ts: TokenList, pos: nat): (r: Parsed<(EdgePattern, NodePattern)>)
    requires Peek(ts, pos).DASH? || Peek(ts, pos).LARROW?
    ensures r.Ok? ==> Consumed(ts, pos, r.value.1)
  {
    var toLeft := Peek(ts, pos).LARROW?;
    var (edge, p1) :- ParseDetail(ts, pos + 1, if toLeft then EdgeLeft else EdgeRight);
    var p2 :- Expect(ts, p1, if toLeft then DASH else ARROW);
    var (node, end) :- ParseNode(ts, p2);
    Ok(((edge, node), end))
  }

  function ChainTail(ts: TokenList, pos: nat, pat: Pattern): (r: Parsed<Pattern>)
    requires ChainOk(pat)
    ensures r.Ok? ==> Skipped(ts, pos, r.value.1) && ChainOk(r.value.0)
    decreases Left(ts, pos)
  {
    if Peek(ts, pos).DASH? || Peek(ts, pos).LARROW? then
      var ((edge, node), p) :- ParseRelAndNode(ts, pos);
      ChainTail(ts, p, Pattern(pat.nodes + [node], pat.edges + [edge]))
    else
      Ok((pat, pos))
  }

  function ParsePattern(ts: TokenList, pos: nat): (r: Parsed<Pattern>)
    ensures r.Ok? ==> Consumed(ts, pos, r.value.1) && ChainOk(r.value.0)
  {
    var (node, p) :- ParseNode(ts, pos);
    ChainTail(ts, p, Pattern([node], []))
  }

  function PatternTail(ts: TokenList, pos: nat, acc: seq<Pattern>): (r: Parsed<seq<Pattern>>)
    requires ChainsOk(acc)
    ensures r.Ok? ==> Skipped(ts, pos, r.value.1) && ChainsOk(r.value.0)
    decreases Left(ts, pos)
  {
    if Peek(ts, pos).COMMA? then
      var (pat, p) :- ParsePattern(ts, pos + 1);
      ChainsMore(acc, pat);
      PatternTail(ts, p, acc + [pat])
    else
      Ok((acc, pos))
  }

  function ParsePatterns(ts: TokenList, pos: nat): (r: Parsed<seq<Pattern>>)
    ensures r.Ok? ==> Consumed(ts, pos, r.value.1) && ChainsOk(r.value.0)
  {
    var (pat, p) :- ParsePattern(ts, pos);
    PatternTail(ts, p, [pat])
  }

  // ---------- clauses ----------

  function ParseReturnItem(ts: TokenList, pos: nat): (r: Parsed<ReturnItem>)
    ensures r.Ok? ==> Consumed(ts, pos, r.value.1)
  {
    var (e, p) :- ParseExpr(ts, pos);
    if Peek(ts, p).AS? then
      var end :- Expect(ts, p + 1, IDENT);
      Ok((ReturnItem(e, Lit(ts, p + 1)), end))
    else
      Ok((ReturnItem(e, ""), p))
  }

  function ItemTail(ts: TokenList, pos: nat, acc: seq<ReturnItem>): (r: Parsed<seq<ReturnItem>>)
    ensures r.Ok? ==> Skipped(ts, pos, r.value.1)
    decreases Left(ts, pos)
  {
    if Peek(ts, pos).COMMA? then
      var (item, p) :- ParseReturnItem(ts, pos + 1);
      ItemTail(ts, p, acc + [item])
    else
      Ok((acc, pos))
  }

  function ParseOrderItem(ts: TokenList, pos: nat): (r: Parsed<OrderItem>)
    ensures r.Ok? ==> Consumed(ts, pos, r.value.1)
  {
    var (e, p) :- ParseExpr(ts, pos);
    if Peek(ts, p).DESC? then Ok((OrderItem(e, true), p + 1))
    else Ok((OrderItem(e, false), if Peek(ts, p).ASC? then p + 1 else p))
  }

  function OrderTail(ts: TokenList, pos: nat, acc: seq<OrderItem>): (r: Parsed<seq<OrderItem>>)
    ensures r.Ok? ==> Skipped(ts, pos, r.value.1)
    decreases Left(ts, pos)
  {
    if Peek(ts, pos).COMMA? then
      var (item, p) :- ParseOrderItem(ts, pos + 1);
      OrderTail(ts, p, acc + [item])
    else
      Ok((acc, pos))
  }

  function ParseOrderBy(ts: TokenList, pos: nat): (r: Parsed<seq<OrderItem>>)
    ensures r.Ok? ==> Skipped(ts, pos, r.value.1)
  {
    if Peek(ts, pos).ORDER? then
      var p1 :- Expect(ts, pos + 1, BY);
      var (item, p2) :- ParseOrderItem(ts, p1);
      OrderTail(ts, p2, [item])
    else
      Ok(([], pos))
  }

  /** An optional keyword and integer, as for LIMIT and SKIP. */
  function OptionalCount(ts: TokenList, pos: nat, keyword: TokenType): (r: Parsed<Option<nat>>)
    requires !keyword.EOF? && !keyword.ILLEGAL?
    ensures r.Ok? ==> Skipped(ts, pos, r.value.1)
  {
    if Peek(ts, pos) == keyword then
      var p :- Expect(ts, pos + 1, INT);
      Ok((Some(ParseInt(Lit(ts, pos + 1))), p))
    else
      Ok((None, pos))
  }

  /** Ordering, limit and skip behind the returned items. */
  function ParseReturnEnd(ts: TokenList, pos: nat, items: seq<ReturnItem>): (r: Parsed<Clause>)
    ensures r.Ok? ==> Skipped(ts, pos, r.value.1) && ClauseOk(r.value.0)
  {
    hide ParseOrderBy, OptionalCount;
    var (orderBy, p3) :- ParseOrderBy(ts, pos);
    var (limit, p4) :- OptionalCount(ts, p3, LIMIT);
    var (skip, p5) :- OptionalCount(ts, p4, SKIP);
    Ok((ReturnClause(items, orderBy, limit, skip), p5))
  }

  function ParseReturn(ts: TokenList, pos: nat): (r: Parsed<Clause>)
    requires Peek(ts, pos).RETURN?
    ensures r.Ok? ==> Consumed(ts, pos, r.value.1) && ClauseOk(r.value.0)
  {
    hide ParseReturnItem, ItemTail, ParseReturnEnd;
    var (item, p1) :- ParseReturnItem(ts, pos + 1);
    var (items, p2) :- ItemTail(ts, p1, [item]);
    ParseReturnEnd(ts, p2, items)
  }

  function ParseSetItem(ts: TokenList, pos: nat): (r: Parsed<SetItem>)
    ensures r.Ok? ==> Consumed(ts, pos, r.value.1)
  {
    var p1 :- Expect(ts, pos, IDENT);
    var p2 :- Expect(ts, p1, DOT);
    var p3 :- Expect(ts, p2, IDENT);
    var p4 :- Expect(ts, p3, EQ);
    var (val, end) :- ParseExpr(ts, p4);
    Ok((SetItem(Lit(ts, pos), Lit(ts, p2), val), end))
  }

  function SetTail(ts: TokenList, pos: nat, acc: seq<SetItem>): (r: Parsed<seq<SetItem>>)
    ensures r.Ok? ==> Skipped(ts, pos, r.value.1)
    decreases Left(ts, pos)
  {
    if Peek(ts, pos).COMMA? then
      var (item, p) :- ParseSetItem(ts, pos + 1);
      SetTail(ts, p, acc + [item])
    else
      Ok((acc, pos))
  }

  /** Identifiers separated by a token, after those already read. */
  function IdentTail(ts: TokenList, pos: nat, sep: TokenType, acc: seq<string>): (r: Parsed<seq<string>>)
    requires !sep.EOF? && !sep.ILLEGAL?
    ensures r.Ok? ==> Skipped(ts, pos, r.value.1)
    decreases Left(ts, pos)
  {
    if Peek(ts, pos) == sep then
      var p :- Expect(ts, pos + 1, IDENT);
      IdentTail(ts, p, sep, acc + [Lit(ts, pos + 1)])
    else
      Ok((acc, pos))
  }

  function ParseIdents(ts: TokenList, pos: nat, sep: TokenType): (r: Parsed<seq<string>>)
    requires !sep.EOF? && !sep.ILLEGAL?
    ensures r.Ok? ==> Consumed(ts, pos, r.value.1)
  {
    var p :- Expect(ts, pos, IDENT);
    IdentTail(ts, p, sep, [Lit(ts, pos)])
  }

  /** The parts of a procedure name, joined by dots. */
  function JoinDots(parts: seq<string>): string {
    if parts == [] then "" else if |parts| == 1 then parts[0] else JoinDots(parts[..|parts| - 1]) + "." + parts[|parts| - 1]
  }

  function ParseYield(ts: TokenList, pos: nat): (r: Parsed<seq<string>>)
    ensures r.Ok? ==> Skipped(ts, pos, r.value.1)
  {
    if Peek(ts, pos).YIELD? then ParseIdents(ts, pos + 1, COMMA) else Ok(([], pos))
  }

  /** A dotted procedure name and its arguments. */
  function ParseInvocation(ts: TokenList, pos: nat): (r: Parsed<(string, seq<Expr>)>)
    ensures r.Ok? ==> Consumed(ts, pos, r.value.1)
  {
    var (parts, p1) :- ParseIdents(ts, pos, DOT);
    var p2 :- Expect(ts, p1, LPAREN);
    var (args, p3) :- ExprsUntil(ts, p2, RPAREN);
    Ok(((JoinDots(parts), args), p3))
  }

  function ParseCall(ts: TokenList, pos: nat): (r: Parsed<Clause>)
    requires Peek(ts, pos).CALL?
    ensures r.Ok? ==> Consumed(ts, pos, r.value.1) && ClauseOk(r.value.0)
  {
    var (call, p1) :- ParseInvocation(ts, pos + 1);
    var (vars, p2) :- ParseYield(ts, p1);
    Ok((CallClause(call.0, call.1, vars), p2))
  }

  function ParseSet(ts: TokenList, pos: nat): (r: Parsed<Clause>)
    requires Peek(ts, pos).SET?
    ensures r.Ok? ==> Consumed(ts, pos, r.value.1) && ClauseOk(r.value.0)
  {
    var (item, p1) :- ParseSetItem(ts, pos + 1);
    var (items, p) :- SetTail(ts, p1, [item]);
    Ok((SetClause(items), p))
  }

  /** A keyword and the rest of its clause. */
  function ParseClause(ts: TokenList, pos: nat): (r: Parsed<Clause>)
    ensures r.Ok? ==> Consumed(ts, pos, r.value.1) && ClauseOk(r.value.0)
  {
    var kind := Peek(ts, pos);
    if kind.MATCH? || kind.CREATE? then
      var (ps, p) :- ParsePatterns(ts, pos + 1);
      Ok((if kind.MATCH? then MatchClause(ps) else CreateClause(ps), p))
    else if kind.WHERE? then
      var (e, p) :- ParseExpr(ts, pos + 1);
      Ok((WhereClause(e), p))
    else if kind.RETURN? then
      ParseReturn(ts, pos)
    else if kind.MERGE? then
      var (pat, p) :- ParsePattern(ts, pos + 1);
      Ok((MergeClause(pat), p))
    else if kind.SET? then
      ParseSet(ts, pos)
    else if kind.DELETE? then
      var (vars, p) :- ParseIdents(ts, pos + 1, COMMA);
      Ok((DeleteClause(vars), p))
    else if kind.CALL? then
      ParseCall(ts, pos)
    else
      Err
  }

  function ClauseTail(ts: TokenList, pos: nat, acc: seq<Clause>): (r: Parsed<seq<Clause>>)
    requires ClausesOk(acc)
    ensures r.Ok? ==> Skipped(ts, pos, r.value.1)
    ensures r.Ok? ==> Peek(ts, r.value.1).EOF? && ClausesOk(r.value.0)
    decreases Left(ts, pos)
  {
    if Peek(ts, pos).EOF? then
      Ok((acc, pos))
    else
      var (c, p) :- ParseClause(ts, pos);
      ClausesMore(acc, c);
      ClauseTail(ts, p, acc + [c])
  }

  /** A statement is one or more clauses up to the end of input. */
  function ParseStatement(ts: TokenList): (r: Result<Statement>)
    ensures r.Ok? ==> ClausesOk(r.value.clauses)
  {
    var (cs, p) :- ClauseTail(ts, 0, []);
    if cs == [] then Err else Ok(Statement(cs))
  }

  /** A token list that parses has no illegal token anywhere: a lexical error in any
      position rejects the statement. */
  lemma ParsedToTheEnd(ts: TokenList)
    requires ts != [] && Ends(ts[|ts| - 1])
    requires forall i | 0 <= i < |ts| - 1 :: !Ends(ts[i])
    requires ParseStatement(ts).Ok?
    ensures ts[|ts| - 1].kind.EOF?
    ensures ClauseTail(ts, 0, []).Ok? && ClauseTail(ts, 0, []).value.1 == |ts| - 1
    ensures forall t | t in ts :: !t.kind.ILLEGAL?
  {
    hide ClauseTail;
    var end := ClauseTail(ts, 0, []).value.1;
    assert Peek(ts, end).EOF?;
  }
}

/** Rendering a statement as text: tokens with parentheses only where precedence needs
    them, then characters with single spaces. */
module Printer {
  import opened Results
  import opened Text
  import opened Ast
  import opened Tokens
  import Lexer
  import G = Grammar

  /** How to print: the character classes, and the order in which the entries of each map
      literal are written. */
  datatype Style = Style(cc: Lexer.CharClass, order: map<string, Expr> -> seq<string>) {
    ghost predicate Ok() {
      && cc.Ok()
      && forall m, k :: k in order(m) <==> k in m
    }
  }

  // ---------- printable syntax ----------

  predicate IdentShape(s: string, cc: Lexer.CharClass) {
    s != "" && (cc.isLetter(s[0]) || s[0] == '_') && forall i | 0 <= i < |s| :: cc.IdentChar(s[i])
  }

  predicate IsName(s: string, cc: Lexer.CharClass) {
    IdentShape(s, cc) && LookupIdent(ToUpper(s)).IDENT?
  }

  /** In expressions the keyword COUNT also serves as a name. */
  predicate IsExprName(s: string, cc: Lexer.CharClass) {
    IdentShape(s, cc) && (LookupIdent(ToUpper(s)).IDENT? || LookupIdent(ToUpper(s)).COUNT?)
  }

  predicate IsFloatText(s: string, cc: Lexer.CharClass) {
    s != "" && cc.isDigit(s[0]) && Lexer.NumberShape(s, false, cc) == (|s|, true)
  }

  predicate LiteralOk(l: Literal, cc: Lexer.CharClass) {
    match l
    case IntLit(i) => -MAX_INT64 <= i <= MAX_INT64
    case FloatLit(_, digits) => IsFloatText(digits, cc)
    case _ => true
  }

  predicate ExprOk(e: Expr, cc: Lexer.CharClass) {
    match e
    case IdentExpr(name) => IsExprName(name, cc)
    case PropertyExpr(variable, property) => IsExprName(variable, cc) && IsName(property, cc)
    case LiteralExpr(l) => LiteralOk(l, cc)
    case ParamExpr(name) => forall i | 0 <= i < |name| :: cc.IdentChar(name[i])
    case BinaryExpr(l, _, r) => ExprOk(l, cc) && ExprOk(r, cc)
    case NotExpr(x) => ExprOk(x, cc)
    case FuncCallExpr(name, args) => IsExprName(name, cc) && ExprsOk(args, cc)
    case StarExpr => true
    case ListExpr(es) => ExprsOk(es, cc)
  }

  predicate ExprsOk(es: seq<Expr>, cc: Lexer.CharClass) {
    es == [] || (ExprOk(es[0], cc) && ExprsOk(es[1..], cc))
  }

  predicate NameOrNone(s: string, cc: Lexer.CharClass) {
    s == "" || IsName(s, cc)
  }

  predicate NodeOk(n: NodePattern, cc: Lexer.CharClass) {
    NameOrNone(n.variable, cc) && NameOrNone(n.lbl, cc)
    && forall k | k in n.props :: IsName(k, cc) && ExprOk(n.props[k], cc)
  }

  predicate EdgeOk(e: EdgePattern, cc: Lexer.CharClass) {
    NameOrNone(e.variable, cc) && NameOrNone(e.lbl, cc)
  }

  predicate PatternOk(p: Pattern, cc: Lexer.CharClass) {
    && ChainOk(p)
    && (forall i | 0 <= i < |p.nodes| :: NodeOk(p.nodes[i], cc))
    && (forall i | 0 <= i < |p.edges| :: EdgeOk(p.edges[i], cc))
  }

  predicate PatternsOk(ps: seq<Pattern>, cc: Lexer.CharClass) {
    ps != [] && forall i | 0 <= i < |ps| :: PatternOk(ps[i], cc)
  }

  predicate NamesOk(ns: seq<string>, cc: Lexer.CharClass) {
    forall i | 0 <= i < |ns| :: IsName(ns[i], cc)
  }

  predicate CountOk(n: Option<nat>) {
    n.Some? ==> n.value <= MAX_INT64
  }

  ghost predicate ClauseOk(c: Clause, cc: Lexer.CharClass) {
    match c
    case MatchClause(ps) => PatternsOk(ps, cc)
    case CreateClause(ps) => PatternsOk(ps, cc)
    case MergeClause(p) => PatternOk(p, cc)
    case WhereClause(e) => ExprOk(e, cc)
    case ReturnClause(items, orderBy, limit, skip) =>
      && items != []
      && (forall i | 0 <= i < |items| :: ExprOk(items[i].expr, cc) && NameOrNone(items[i].alias, cc))
      && (forall i | 0 <= i < |orderBy| :: ExprOk(orderBy[i].expr, cc))
      && CountOk(limit) && CountOk(skip)
    case SetClause(items) =>
      items != [] && forall i | 0 <= i < |items| ::
        IsName(items[i].variable, cc) && IsName(items[i].property, cc) && ExprOk(items[i].value, cc)
    case DeleteClause(vars) => vars != [] && NamesOk(vars, cc)
    case CallClause(procedure, args, vars) =>
      (exists parts :: IsProcedure(procedure, parts, cc)) && ExprsOk(args, cc) && NamesOk(vars, cc)
  }

  predicate IsProcedure(procedure: string, parts: seq<string>, cc: Lexer.CharClass) {
    parts != [] && NamesOk(parts, cc) && G.JoinDots(parts) == procedure
  }

  /** A procedure name's parts between its dots. */
  ghost function ProcedureParts(procedure: string, cc: Lexer.CharClass): (parts: seq<string>)
    requires exists parts :: IsProcedure(procedure, parts, cc)
    ensures IsProcedure(procedure, parts, cc)
  {
    var parts :| IsProcedure(procedure, parts, cc);
    parts
  }

  ghost predicate StatementOk(s: Statement, cc: Lexer.CharClass) {
    s.clauses != [] && forall i | 0 <= i < |s.clauses| :: ClauseOk(s.clauses[i], cc)
  }

  // ---------- tokens of expressions ----------

  function Sym(kind: TokenType): Token {
    Token(kind, SymText(kind))
  }

  function SymText(kind: TokenType): string {
    match kind
    case MATCH => "MATCH" case WHERE => "WHERE" case RETURN => "RETURN" case CREATE => "CREATE"
    case MERGE => "MERGE" case SET => "SET" case DELETE => "DELETE" case ORDER => "ORDER" case BY => "BY"
    case LIMIT => "LIMIT" case SKIP => "SKIP" case AS => "AS" case AND => "AND" case OR => "OR" case NOT => "NOT"
    case CONTAINS => "CONTAINS" case IN => "IN" case CALL => "CALL" case YIELD => "YIELD" case DESC => "DESC"
    case TRUE => "TRUE" case FALSE => "FALSE" case NULL => "NULL"
    case LPAREN => "(" case RPAREN => ")" case LBRACKET => "[" case RBRACKET => "]" case LBRACE => "{" case RBRACE => "}"
    case COLON => ":" case COMMA => "," case DOT => "." case STAR => "*" case EQ => "=" case NEQ => "<>"
    case LT => "<" case GT => ">" case LTE => "<=" case GTE => ">=" case DASH => "-" case ARROW => "->" case LARROW => "<-"
    case _ => ""
  }

  function Name(s: string): Token {
    Token(LookupIdent(ToUpper(s)), s)
  }

  function OpKind(op: Operator): TokenType {
    match op
    case AndOp => AND case OrOp => OR case EqOp => EQ case NeqOp => NEQ case LtOp => LT case GtOp => GT
    case LteOp => LTE case GteOp => GTE case ContainsOp => CONTAINS case InOp => IN
  }

  predicate Compound(e: Expr) {
    e.BinaryExpr? || e.NotExpr?
  }

  function PrintLiteral(l: Literal): seq<Token> {
    match l
    case NullLit => [Sym(NULL)]
    case BoolLit(b) => [Sym(if b then TRUE else FALSE)]
    case IntLit(i) => if i < 0 then [Sym(DASH), Token(INT, Decimal(-i))] else [Token(INT, Decimal(i))]
    case FloatLit(negative, digits) => (if negative then [Sym(DASH)] else []) + [Token(FLOAT, digits)]
    case StringLit(s) => [Token(STRING, s)]
  }

  function PrintExpr(e: Expr): seq<Token>
    decreases e, 6
  {
    if e.BinaryExpr? && e.op.OrOp? then PrintBare(e) else PrintAnd(e)
  }

  function PrintAnd(e: Expr): seq<Token>
    decreases e, 5
  {
    if e.BinaryExpr? && e.op.AndOp? then PrintBare(e) else PrintNot(e)
  }

  function PrintNot(e: Expr): seq<Token>
    decreases e, 4
  {
    if e.NotExpr? then PrintBare(e) else PrintComparison(e)
  }

  function PrintComparison(e: Expr): seq<Token>
    decreases e, 3
  {
    if e.BinaryExpr? && !e.op.AndOp? && !e.op.OrOp? then PrintBare(e) else PrintAtom(e)
  }

  /** A compound expression without parentheses of its own. */
  function PrintBare(e: Expr): seq<Token>
    requires Compound(e)
    decreases e, 0
  {
    match e
    case NotExpr(x) => [Sym(NOT)] + PrintComparison(x)
    case BinaryExpr(l, op, r) =>
      if op.OrOp? then PrintExpr(l) + [Sym(OR)] + PrintAnd(r)
      else if op.AndOp? then PrintAnd(l) + [Sym(AND)] + PrintNot(r)
      else PrintAtom(l) + [Sym(OpKind(op))] + PrintAtom(r)
  }

  /** Compound expressions become atoms by parentheses. */
  function PrintAtom(e: Expr): seq<Token>
    decreases e, 2
  {
    match e
    case IdentExpr(name) => [Name(name)]
    case PropertyExpr(variable, property) => [Name(variable), Sym(DOT), Name(property)]
    case LiteralExpr(l) => PrintLiteral(l)
    case ParamExpr(name) => [Token(PARAM, "$" + name)]
    case FuncCallExpr(name, args) => [Name(name), Sym(LPAREN)] + PrintArgs(args) + [Sym(RPAREN)]
    case StarExpr => [Sym(STAR)]
    case ListExpr(es) => [Sym(LBRACKET)] + PrintExprs(es) + [Sym(RBRACKET)]
    case BinaryExpr(_, _, _) => [Sym(LPAREN)] + PrintBare(e) + [Sym(RPAREN)]
    case NotExpr(_) => [Sym(LPAREN)] + PrintBare(e) + [Sym(RPAREN)]
  }

  function PrintTail(es: seq<Expr>): seq<Token>
    decreases es
  {
    if es == [] then [] else [Sym(COMMA)] + PrintExpr(es[0]) + PrintTail(es[1..])
  }

  function PrintExprs(es: seq<Expr>): seq<Token>
    decreases es
  {
    if es == [] then [] else PrintExpr(es[0]) + PrintTail(es[1..])
  }

  /** A call's first argument must not start with a star unless it is one. */
  function PrintArgs(es: seq<Expr>): seq<Token>
    decreases es
  {
    if es == [] then
      []
    else
      var first := PrintExpr(es[0]);
      (if !es[0].StarExpr? && first != [] && first[0].kind.STAR? then [Sym(LPAREN)] + first + [Sym(RPAREN)] else first)
      + PrintTail(es[1..])
  }

  // ---------- tokens of patterns and clauses ----------

  function PrintEntry(k: string, m: map<string, Expr>): seq<Token>
    requires k in m
  {
    [Name(k), Sym(COLON)] + PrintExpr(m[k])
  }

  function PrintEntryTail(ks: seq<string>, m: map<string, Expr>): seq<Token>
    requires forall k | k in ks :: k in m
  {
    if ks == [] then [] else [Sym(COMMA)] + PrintEntry(ks[0], m) + PrintEntryTail(ks[1..], m)
  }

  ghost function PrintMap(m: map<string, Expr>, st: Style): seq<Token>
    requires st.Ok()
  {
    var ks := st.order(m);
    if ks == [] then [] else [Sym(LBRACE)] + PrintEntry(ks[0], m) + PrintEntryTail(ks[1..], m) + [Sym(RBRACE)]
  }

  function PrintNameLabel(variable: string, lbl: string): seq<Token> {
    (if variable == "" then [] else [Name(variable)]) + (if lbl == "" then [] else [Sym(COLON), Name(lbl)])
  }

  ghost function PrintNode(n: NodePattern, st: Style): seq<Token>
    requires st.Ok()
  {
    [Sym(LPAREN)] + PrintNameLabel(n.variable, n.lbl) + PrintMap(n.props, st) + [Sym(RPAREN)]
  }

  function PrintDetail(e: EdgePattern): seq<Token> {
    if e.variable == "" && e.lbl == "" then []
    else [Sym(LBRACKET)] + PrintNameLabel(e.variable, e.lbl) + [Sym(RBRACKET)]
  }

  function PrintEdge(e: EdgePattern): seq<Token> {
    if e.direction.EdgeLeft? then [Sym(LARROW)] + PrintDetail(e) + [Sym(DASH)]
    else [Sym(DASH)] + PrintDetail(e) + [Sym(ARROW)]
  }

  /** The chain from its i-th edge on. */
  ghost function PrintChain(p: Pattern, i: nat, st: Style): seq<Token>
    requires st.Ok() && ChainOk(p) && i <= |p.edges|
    decreases |p.edges| - i
  {
    if i == |p.edges| then [] else PrintEdge(p.edges[i]) + PrintNode(p.nodes[i + 1], st) + PrintChain(p, i + 1, st)
  }

  ghost function PrintPattern(p: Pattern, st: Style): seq<Token>
    requires st.Ok() && ChainOk(p)
  {
    PrintNode(p.nodes[0], st) + PrintChain(p, 0, st)
  }

  ghost function PrintPatternTail(ps: seq<Pattern>, st: Style): seq<Token>
    requires st.Ok() && forall i | 0 <= i < |ps| :: ChainOk(ps[i])
  {
    if ps == [] then [] else [Sym(COMMA)] + PrintPattern(ps[0], st) + PrintPatternTail(ps[1..], st)
  }

  function PrintItem(i: ReturnItem): seq<Token> {
    PrintExpr(i.expr) + if i.alias == "" then [] else [Sym(AS), Name(i.alias)]
  }

  function PrintItemTail(items: seq<ReturnItem>): seq<Token> {
    if items == [] then [] else [Sym(COMMA)] + PrintItem(items[0]) + PrintItemTail(items[1..])
  }

  function PrintOrderItem(i: OrderItem): seq<Token> {
    PrintExpr(i.expr) + if i.desc then [Sym(DESC)] else []
  }

  function PrintOrderTail(items: seq<OrderItem>): seq<Token> {
    if items == [] then [] else [Sym(COMMA)] + PrintOrderItem(items[0]) + PrintOrderTail(items[1..])
  }

  function PrintOrderBy(items: seq<OrderItem>): seq<Token> {
    if items == [] then [] else [Sym(ORDER), Sym(BY)] + PrintOrderItem(items[0]) + PrintOrderTail(items[1..])
  }

  function PrintCount(keyword: TokenType, n: Option<nat>): seq<Token> {
    if n.None? then [] else [Sym(keyword), Token(INT, Decimal(n.value))]
  }

  function PrintSetItem(i: SetItem): seq<Token> {
    [Name(i.variable)] + ([Sym(DOT)] + ([Name(i.property)] + ([Sym(EQ)] + PrintExpr(i.value))))
  }

  function PrintSetTail(items: seq<SetItem>): seq<Token> {
    if items == [] then [] else [Sym(COMMA)] + PrintSetItem(items[0]) + PrintSetTail(items[1..])
  }

  function PrintNameTail(sep: TokenType, ns: seq<string>): seq<Token> {
    if ns == [] then [] else [Sym(sep), Name(ns[0])] + PrintNameTail(sep, ns[1..])
  }

  function PrintNames(sep: TokenType, ns: seq<string>): seq<Token>
    requires ns != []
  {
    [Name(ns[0])] + PrintNameTail(sep, ns[1..])
  }

  function PrintYield(vars: seq<string>): seq<Token> {
    if vars == [] then [] else [Sym(YIELD)] + PrintNames(COMMA, vars)
  }

  ghost function PrintReturn(c: Clause): seq<Token>
    requires c.ReturnClause? && c.items != []
  {
    [Sym(RETURN)] + PrintItem(c.items[0])
    + (PrintItemTail(c.items[1..]) + (PrintOrderBy(c.orderBy) + (PrintCount(LIMIT, c.limit) + PrintCount(SKIP, c.skip))))
  }

  ghost function PrintClause(c: Clause, st: Style): seq<Token>
    requires st.Ok() && ClauseOk(c, st.cc)
  {
    match c
    case MatchClause(ps) => [Sym(MATCH)] + (PrintPattern(ps[0], st) + PrintPatternTail(ps[1..], st))
    case CreateClause(ps) => [Sym(CREATE)] + (PrintPattern(ps[0], st) + PrintPatternTail(ps[1..], st))
    case MergeClause(p) => [Sym(MERGE)] + PrintPattern(p, st)
    case WhereClause(e) => [Sym(WHERE)] + PrintExpr(e)
    case ReturnClause(_, _, _, _) => PrintReturn(c)
    case SetClause(items) => [Sym(SET)] + PrintSetItem(items[0]) + PrintSetTail(items[1..])
    case DeleteClause(vars) => [Sym(DELETE)] + PrintNames(COMMA, vars)
    case CallClause(procedure, args, vars) =>
      [Sym(CALL)] + PrintNames(DOT, ProcedureParts(procedure, st.cc)) + ([Sym(LPAREN)] + (PrintExprs(args) + [Sym(RPAREN)]))
      + PrintYield(vars)
  }

  ghost function PrintClauses(cs: seq<Clause>, st: Style): seq<Token>
    requires st.Ok() && forall i | 0 <= i < |cs| :: ClauseOk(cs[i], st.cc)
  {
    if cs == [] then [] else PrintClause(cs[0], st) + PrintClauses(cs[1..], st)
  }

  // ---------- characters ----------

  function EscapeChar(c: char): string {
    if c == '\'' || c == '\\' then ['\\', c] else [c]
  }

  function Escape(s: string): string {
    if s == "" then "" else EscapeChar(s[0]) + Escape(s[1..])
  }

  function TokenText(t: Token): string {
    if t.kind.STRING? then "'" + Escape(t.lit) + "'" else t.lit
  }

  /** Every token followed by one space. */
  function TokensText(ts: seq<Token>): string {
    if ts == [] then "" else TokenText(ts[0]) + " " + TokensText(ts[1..])
  }

  ghost function StatementText(s: Statement, st: Style): string
    requires st.Ok() && StatementOk(s, st.cc)
  {
    TokensText(PrintClauses(s.clauses, st))
  }
}

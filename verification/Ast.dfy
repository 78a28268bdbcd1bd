/** Abstract syntax of the supported query language. */
module Ast {
  import opened Results

  /** A literal as parsed. A floating-point literal stands for the number strconv reads
      from its digits, negated on request; the conversion itself is a parameter of the
      executor. */
  datatype Literal =
    | NullLit
    | BoolLit(b: bool)
    | IntLit(i: int)
    | FloatLit(negative: bool, digits: string)
    | StringLit(s: string)

  datatype Operator = AndOp | OrOp | EqOp | NeqOp | LtOp | GtOp | LteOp | GteOp | ContainsOp | InOp

  datatype Expr =
    | IdentExpr(name: string)
    | PropertyExpr(variable: string, property: string)
    | LiteralExpr(lit: Literal)
    | ParamExpr(name: string)
    | BinaryExpr(left: Expr, op: Operator, right: Expr)
    | NotExpr(expr: Expr)
    | FuncCallExpr(name: string, args: seq<Expr>)
    | StarExpr
    | ListExpr(elements: seq<Expr>)

  datatype NodePattern = NodePattern(variable: string, lbl: string, props: map<string, Expr>)

  datatype Direction = EdgeRight | EdgeLeft

  datatype EdgePattern = EdgePattern(variable: string, lbl: string, direction: Direction)

  /** A chain: one more node than edges. */
  datatype Pattern = Pattern(nodes: seq<NodePattern>, edges: seq<EdgePattern>)

  datatype ReturnItem = ReturnItem(expr: Expr, alias: string)

  datatype OrderItem = OrderItem(expr: Expr, desc: bool)

  datatype SetItem = SetItem(variable: string, property: string, value: Expr)

  datatype Clause =
    | MatchClause(patterns: seq<Pattern>)
    | WhereClause(expr: Expr)
    | ReturnClause(items: seq<ReturnItem>, orderBy: seq<OrderItem>, limit: Option<nat>, skip: Option<nat>)
    | CreateClause(patterns: seq<Pattern>)
    | MergeClause(pattern: Pattern)
    | SetClause(setItems: seq<SetItem>)
    | DeleteClause(variables: seq<string>)
    | CallClause(procedure: string, args: seq<Expr>, yieldVars: seq<string>)

  datatype Statement = Statement(clauses: seq<Clause>)

  predicate ChainOk(p: Pattern) {
    |p.nodes| == |p.edges| + 1
  }

  predicate ChainsOk(ps: seq<Pattern>) {
    forall p | p in ps :: ChainOk(p)
  }

  /** What the parser guarantees of the patterns it builds. */
  predicate ClauseOk(c: Clause) {
    match c
    case MatchClause(ps) => ChainsOk(ps)
    case CreateClause(ps) => ChainsOk(ps)
    case MergeClause(p) => ChainOk(p)
    case _ => true
  }

  predicate ClausesOk(cs: seq<Clause>) {
    forall c | c in cs :: ClauseOk(c)
  }

  lemma ChainsMore(ps: seq<Pattern>, p: Pattern)
    requires ChainsOk(ps) && ChainOk(p)
    ensures ChainsOk(ps + [p])
  {
  }

  lemma ClausesMore(cs: seq<Clause>, c: Clause)
    requires ClausesOk(cs) && ClauseOk(c)
    ensures ClausesOk(cs + [c])
  {
  }
}

/** Expressions over rows. Formatting a value as text (fmt.Sprint) and reading a float
    (strconv) are parameters: nothing but what Env.Ok says is assumed of them. */
module Evaluation {
  import opened Results
  import opened Text
  import opened PropertyGraph
  import opened Ast

  type Row = map<string, Value>

  datatype Env = Env(sprint: Value -> string, parseFloat: string -> real, params: map<string, Value>) {
    /** A string formats as itself. Distinct values may format alike. */
    ghost predicate Ok() {
      forall s: string :: sprint(Str(s)) == s
    }
  }

  function NodeValue(n: Node): Value {
    Map(map["id" := Str(n.id), "label" := Str(n.lbl), "properties" := Map(n.props)])
  }

  function EdgeValue(e: Edge): Value {
    Map(map["id" := Str(e.id), "label" := Str(e.lbl), "fromId" := Str(e.from), "toId" := Str(e.to),
            "properties" := Map(e.props)])
  }

  /** A missing entry reads as nil. */
  function Get(m: map<string, Value>, k: string): Value {
    if k in m then m[k] else Nil
  }

  function LiteralValue(l: Literal, env: Env): Value {
    match l
    case NullLit => Nil
    case BoolLit(b) => Bool(b)
    case IntLit(i) => Int(i)
    case FloatLit(negative, digits) =>
      var v := env.parseFloat(digits);
      Float(if negative then -v else v)
    case StringLit(s) => Str(s)
  }

  function EvalExpr(e: Expr, row: Row, env: Env): Value {
    match e
    case LiteralExpr(l) => LiteralValue(l, env)
    case IdentExpr(name) => Get(row, name)
    case PropertyExpr(variable, property) =>
      var v := Get(row, variable);
      if v.Map? then
        var props := Get(v.fields, "properties");
        if props.Map? then Get(props.fields, property) else Nil
      else
        Nil
    case ParamExpr(name) => Get(env.params, name)
    case StarExpr => Str("*")
    case ListExpr(elements) => List(EvalAll(elements, row, env))
    case _ => Nil
  }

  function EvalAll(es: seq<Expr>, row: Row, env: Env): (r: seq<Value>)
    ensures |r| == |es|
  {
    if es == [] then [] else [EvalExpr(es[0], row, env)] + EvalAll(es[1..], row, env)
  }

  /** Three-way comparison of the formatted values. */
  function CompareValues(a: Value, b: Value, env: Env): (c: int)
    ensures -1 <= c <= 1
  {
    var x, y := env.sprint(a), env.sprint(b);
    if Less(x, y) then -1 else if Less(y, x) then 1 else 0
  }

  predicate Contains(s: string, sub: string) {
    exists i | 0 <= i <= |s| :: sub <= s[i..]
  }

  predicate EvalBool(e: Expr, row: Row, env: Env) {
    match e
    case BinaryExpr(l, op, r) =>
      if op.AndOp? then
        EvalBool(l, row, env) && EvalBool(r, row, env)
      else if op.OrOp? then
        EvalBool(l, row, env) || EvalBool(r, row, env)
      else
        Compare(op, EvalExpr(l, row, env), EvalExpr(r, row, env), env)
    case NotExpr(x) => !EvalBool(x, row, env)
    case LiteralExpr(BoolLit(b)) => b
    case _ => false
  }

  predicate Compare(op: Operator, a: Value, b: Value, env: Env) {
    match op
    case EqOp => env.sprint(a) == env.sprint(b)
    case NeqOp => env.sprint(a) != env.sprint(b)
    case LtOp => CompareValues(a, b, env) < 0
    case GtOp => CompareValues(a, b, env) > 0
    case LteOp => CompareValues(a, b, env) <= 0
    case GteOp => CompareValues(a, b, env) >= 0
    case ContainsOp => Contains(env.sprint(a), env.sprint(b))
    case InOp => b.List? && exists i | 0 <= i < |b.elems| :: env.sprint(a) == env.sprint(b.elems[i])
    case _ => false
  }

  /** Inline pattern properties: literals must format like the node's values; other
      expressions are ignored. */
  predicate MatchProps(props: Properties, wanted: map<string, Expr>, env: Env) {
    forall k | k in wanted && wanted[k].LiteralExpr? ::
      env.sprint(Get(props, k)) == env.sprint(LiteralValue(wanted[k].lit, env))
  }

  // ---------- ordering rows ----------

  function CompareRows(items: seq<OrderItem>, a: Row, b: Row, env: Env): int {
    if items == [] then
      0
    else
      var c := CompareValues(EvalExpr(items[0].expr, a, env), EvalExpr(items[0].expr, b, env), env);
      if c == 0 then CompareRows(items[1..], a, b, env) else if items[0].desc then -c else c
  }

  predicate RowLess(items: seq<OrderItem>, a: Row, b: Row, env: Env) {
    CompareRows(items, a, b, env) < 0
  }

  lemma CompareValuesOrder(a: Value, b: Value, c: Value, env: Env)
    ensures CompareValues(a, b, env) == -CompareValues(b, a, env)
    ensures CompareValues(a, b, env) <= 0 && CompareValues(b, c, env) <= 0 ==> CompareValues(a, c, env) <= 0
    ensures CompareValues(a, b, env) == 0 <==> env.sprint(a) == env.sprint(b)
  {
    var x, y, z := env.sprint(a), env.sprint(b), env.sprint(c);
    LessTotal(x, y);
    LessTotal(y, z);
    LessTotal(x, z);
    if Less(x, y) { LessAsymmetric(x, y); }
    if Less(y, x) { LessAsymmetric(y, x); }
    if Less(z, x) && Less(x, y) { LessTransitive(z, x, y); }
    if Less(y, z) && Less(z, x) { LessTransitive(y, z, x); }
    if Less(z, y) { LessAsymmetric(z, y); }
    if Less(z, x) { LessAsymmetric(z, x); }
  }

  lemma {:induction false} CompareRowsOrder(items: seq<OrderItem>, a: Row, b: Row, c: Row, env: Env)
    ensures CompareRows(items, a, b, env) == -CompareRows(items, b, a, env)
    ensures CompareRows(items, a, b, env) <= 0 && CompareRows(items, b, c, env) <= 0
            ==> CompareRows(items, a, c, env) <= 0
  {
    if items != [] {
      var x, y, z := EvalExpr(items[0].expr, a, env), EvalExpr(items[0].expr, b, env), EvalExpr(items[0].expr, c, env);
      CompareValuesOrder(x, y, z, env);
      CompareValuesOrder(y, z, x, env);
      CompareValuesOrder(z, y, x, env);
      CompareValuesOrder(x, z, y, env);
      CompareRowsOrder(items[1..], a, b, c, env);
    }
  }

  // ---------- projection ----------

  function Lower(c: char): char {
    if 'A' <= c <= 'Z' then (c - 'A') + 'a' else c
  }

  function ToLower(s: string): (r: string)
    ensures |r| == |s| && forall i | 0 <= i < |s| :: r[i] == Lower(s[i])
  {
    seq(|s|, i requires 0 <= i < |s| => Lower(s[i]))
  }

  function ExprName(item: ReturnItem): string {
    if item.alias != "" then
      item.alias
    else
      match item.expr
      case IdentExpr(name) => name
      case PropertyExpr(variable, property) => variable + "." + property
      case FuncCallExpr(name, _) => name + "(*)"
      case StarExpr => "*"
      case _ => "?"
  }

  predicate IsCount(item: ReturnItem) {
    item.expr.FuncCallExpr? && ToLower(item.expr.name) == "count"
  }

  /** The column of the first count among the items, if there is one. */
  function CountColumn(items: seq<ReturnItem>): Option<string> {
    if items == [] then None
    else if IsCount(items[0]) then Some(if items[0].alias != "" then items[0].alias else "count(*)")
    else CountColumn(items[1..])
  }

  /** Items assigned to their columns from left to right. */
  function ProjectRow(items: seq<ReturnItem>, row: Row, env: Env): Row {
    if items == [] then
      map[]
    else
      var last := items[|items| - 1];
      ProjectRow(items[..|items| - 1], row, env)[ExprName(last) := EvalExpr(last.expr, row, env)]
  }

  function ProjectColumns(items: seq<ReturnItem>): (r: seq<string>)
    ensures |r| == |items| && forall i | 0 <= i < |r| :: r[i] == ExprName(items[i])
  {
    seq(|items|, i requires 0 <= i < |items| => ExprName(items[i]))
  }

  function Slice<T>(rows: seq<T>, limit: Option<nat>, skip: Option<nat>): seq<T> {
    var start := if skip.Some? && skip.value <= |rows| then skip.value else if skip.Some? then |rows| else 0;
    var rest := rows[start..];
    if limit.Some? && limit.value < |rest| then rest[..limit.value] else rest
  }
}

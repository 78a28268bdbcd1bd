/** Turning a statement into a plan tree. */
module Planning {
  import opened Results
  import opened Ast

  datatype Plan =
    | ScanByLabel(variable: string, lbl: string, props: map<string, Expr>)
    | ExpandOut(source: Plan, srcVar: string, edgeVar: string, edgeLabel: string, destVar: string, destLabel: string)
    | ExpandIn(source: Plan, srcVar: string, edgeVar: string, edgeLabel: string, destVar: string, destLabel: string)
    | Filter(source: Plan, expr: Expr)
    | Project(source: Plan, items: seq<ReturnItem>)
    | Sort(source: Plan, orderBy: seq<OrderItem>)
    | LimitOffset(source: Plan, limit: Option<nat>, skip: Option<nat>)
    | CreateNodePlan(variable: string, lbl: string, props: map<string, Expr>)
    | CreateEdgePlan(srcVar: string, destVar: string, edgeLabel: string)
    | MergeNodePlan(variable: string, lbl: string, props: map<string, Expr>)
    | SetPropertyPlan(source: Plan, setItems: seq<SetItem>)
    | DeletePlan(source: Plan, variables: seq<string>)
    | ProcedureCallPlan(procedure: string, args: seq<Expr>, yieldVars: seq<string>)

  /** The expand step for the i-th edge of a chain. */
  function Expand(source: Plan, pat: Pattern, i: nat): Plan
    requires ChainOk(pat) && i < |pat.edges|
  {
    var e, src, dest := pat.edges[i], pat.nodes[i], pat.nodes[i + 1];
    if e.direction.EdgeLeft? then
      ExpandIn(source, src.variable, e.variable, e.lbl, dest.variable, dest.lbl)
    else
      ExpandOut(source, src.variable, e.variable, e.lbl, dest.variable, dest.lbl)
  }

  /** The plan of the first k edges of a chain. */
  function ChainPlan(pat: Pattern, k: nat): Plan
    requires ChainOk(pat) && k <= |pat.edges|
  {
    if k == 0 then
      ScanByLabel(pat.nodes[0].variable, pat.nodes[0].lbl, pat.nodes[0].props)
    else
      Expand(ChainPlan(pat, k - 1), pat, k - 1)
  }

  /** MATCH plans its first pattern only. */
  method PlanMatch(patterns: seq<Pattern>) returns (r: Result<Plan>)
    requires forall p | p in patterns :: ChainOk(p)
    ensures r == if patterns == [] then Err else Ok(ChainPlan(patterns[0], |patterns[0].edges|))
  {
    if |patterns| == 0 { return Err; }
    assert patterns[0] in patterns;
    var pat := patterns[0];
    var current := ScanByLabel(pat.nodes[0].variable, pat.nodes[0].lbl, pat.nodes[0].props);
    for i := 0 to |pat.edges|
      invariant current == ChainPlan(pat, i)
    {
      var edge, dest := pat.edges[i], pat.nodes[i + 1];
      if edge.direction.EdgeLeft? {
        current := ExpandIn(current, pat.nodes[i].variable, edge.variable, edge.lbl, dest.variable, dest.lbl);
      } else {
        current := ExpandOut(current, pat.nodes[i].variable, edge.variable, edge.lbl, dest.variable, dest.lbl);
      }
    }
    r := Ok(current);
  }

  function PlanCreate(patterns: seq<Pattern>): Result<Plan>
    requires forall p | p in patterns :: ChainOk(p)
  {
    if patterns == [] then
      Err
    else
      assert patterns[0] in patterns && ChainOk(patterns[0]);
      var pat := patterns[0];
      if pat.edges == [] then
        Ok(CreateNodePlan(pat.nodes[0].variable, pat.nodes[0].lbl, pat.nodes[0].props))
      else if |pat.edges| == 1 then
        Ok(CreateEdgePlan(pat.nodes[0].variable, pat.nodes[1].variable, pat.edges[0].lbl))
      else
        Err
  }

  /** What one clause makes of the plan so far. */
  function PlanClause(current: Option<Plan>, c: Clause): Result<Plan>
    requires ClauseOk(c)
  {
    match c
    case MatchClause(ps) => if ps == [] then Err else Ok(ChainPlan(ps[0], |ps[0].edges|))
    case WhereClause(e) => if current.None? then Err else Ok(Filter(current.value, e))
    case ReturnClause(items, orderBy, limit, skip) =>
      if current.None? then
        Err
      else
        var sorted := if orderBy == [] then current.value else Sort(current.value, orderBy);
        var projected := Project(sorted, items);
        Ok(if limit.Some? || skip.Some? then LimitOffset(projected, limit, skip) else projected)
    case CreateClause(ps) => PlanCreate(ps)
    case MergeClause(p) => Ok(MergeNodePlan(p.nodes[0].variable, p.nodes[0].lbl, p.nodes[0].props))
    case SetClause(items) => if current.None? then Err else Ok(SetPropertyPlan(current.value, items))
    case DeleteClause(vars) => if current.None? then Err else Ok(DeletePlan(current.value, vars))
    case CallClause(procedure, args, yv) => Ok(ProcedureCallPlan(procedure, args, yv))
  }

  function PlanClauses(current: Option<Plan>, cs: seq<Clause>): Result<Option<Plan>>
    requires forall c | c in cs :: ClauseOk(c)
    decreases |cs|
  {
    if cs == [] then
      Ok(current)
    else
      var next :- PlanClause(current, cs[0]);
      PlanClauses(Some(next), cs[1..])
  }

  function PlanStatement(s: Statement): Result<Plan>
    requires forall c | c in s.clauses :: ClauseOk(c)
  {
    var current :- PlanClauses(None, s.clauses);
    if current.None? then Err else Ok(current.value)
  }

  method MakePlan(s: Statement) returns (r: Result<Plan>)
    requires forall c | c in s.clauses :: ClauseOk(c)
    ensures r == PlanStatement(s)
  {
    var cs := s.clauses;
    var current: Option<Plan> := None;
    for i := 0 to |cs|
      invariant PlanClauses(None, cs) == PlanClauses(current, cs[i..])
    {
      var c := cs[i];
      assert c in cs && cs[i..][1..] == cs[i + 1..];
      match c {
        case MatchClause(ps) =>
          var node := PlanMatch(ps);
          if node.Err? { return Err; }
          current := Some(node.value);
        case WhereClause(e) =>
          if current.None? { return Err; }
          current := Some(Filter(current.value, e));
        case ReturnClause(items, orderBy, limit, skip) =>
          if current.None? { return Err; }
          if |orderBy| > 0 {
            current := Some(Sort(current.value, orderBy));
          }
          current := Some(Project(current.value, items));
          if limit.Some? || skip.Some? {
            current := Some(LimitOffset(current.value, limit, skip));
          }
        case CreateClause(ps) =>
          var node := PlanCreate(ps);
          if node.Err? { return Err; }
          current := Some(node.value);
        case MergeClause(p) =>
          current := Some(MergeNodePlan(p.nodes[0].variable, p.nodes[0].lbl, p.nodes[0].props));
        case SetClause(items) =>
          if current.None? { return Err; }
          current := Some(SetPropertyPlan(current.value, items));
        case DeleteClause(vars) =>
          if current.None? { return Err; }
          current := Some(DeletePlan(current.value, vars));
        case CallClause(procedure, args, yv) =>
          current := Some(ProcedureCallPlan(procedure, args, yv));
      }
    }
    if current.None? { return Err; }
    r := Ok(current.value);
  }

  // ---------- shape of the plan of a reading statement ----------

  function Filtered(p: Plan, wheres: seq<Expr>): Plan {
    if wheres == [] then p else Filter(Filtered(p, wheres[..|wheres| - 1]), wheres[|wheres| - 1])
  }

  function WhereClauses(wheres: seq<Expr>): (cs: seq<Clause>)
    ensures |cs| == |wheres| && forall i | 0 <= i < |cs| :: cs[i] == WhereClause(wheres[i])
  {
    seq(|wheres|, i requires 0 <= i < |wheres| => WhereClause(wheres[i]))
  }

  lemma {:induction false} PlanClausesConcat(current: Option<Plan>, a: seq<Clause>, b: seq<Clause>)
    requires forall c | c in a + b :: ClauseOk(c)
    requires forall c | c in a :: ClauseOk(c)
    requires forall c | c in b :: ClauseOk(c)
    ensures PlanClauses(current, a + b) ==
            var mid := PlanClauses(current, a); if mid.Err? then Err else PlanClauses(mid.value, b)
    decreases |a|
  {
    if a == [] {
      assert a + b == b;
    } else {
      assert (a + b)[1..] == a[1..] + b;
      var next := PlanClause(current, a[0]);
      if next.Ok? { PlanClausesConcat(Some(next.value), a[1..], b); }
    }
  }

  lemma {:induction false} PlanWheres(p: Plan, wheres: seq<Expr>)
    ensures PlanClauses(Some(p), WhereClauses(wheres)) == Ok(Some(Filtered(p, wheres)))
  {
    if wheres == [] {
      assert WhereClauses(wheres) == [];
    } else {
      var front, last := wheres[..|wheres| - 1], wheres[|wheres| - 1];
      PlanWheres(p, front);
      assert WhereClauses(wheres) == WhereClauses(front) + [WhereClause(last)];
      PlanClausesConcat(Some(p), WhereClauses(front), [WhereClause(last)]);
      assert PlanClauses(Some(Filtered(p, front)), [WhereClause(last)]) ==
             PlanClauses(Some(Filter(Filtered(p, front), last)), [WhereClause(last)][1..]);
    }
  }

  /** MATCH ... WHERE* RETURN after any well-planned clauses: the earlier clauses leave no
      trace, the WHEREs apply in order, sorting comes before projection and slicing last. */
  lemma PlanOfReading(before: seq<Clause>, patterns: seq<Pattern>, wheres: seq<Expr>, ret: Clause)
    requires ret.ReturnClause? && patterns != []
    requires forall c | c in before :: ClauseOk(c)
    requires forall p | p in patterns :: ChainOk(p)
    requires PlanClauses(None, before).Ok?
    ensures forall c | c in before + [MatchClause(patterns)] + WhereClauses(wheres) + [ret] :: ClauseOk(c)
    ensures var matched := Filtered(ChainPlan(patterns[0], |patterns[0].edges|), wheres);
            PlanStatement(Statement(before + [MatchClause(patterns)] + WhereClauses(wheres) + [ret])) ==
            PlanClause(Some(matched), ret)
  {
    var m, ws := [MatchClause(patterns)], WhereClauses(wheres);
    var chain := ChainPlan(patterns[0], |patterns[0].edges|);
    PlanClausesConcat(None, before + m + ws, [ret]);
    PlanClausesConcat(None, before + m, ws);
    PlanClausesConcat(None, before, m);
    var mid := PlanClauses(None, before).value;
    assert PlanClauses(mid, m) == PlanClauses(Some(chain), m[1..]);
    PlanWheres(chain, wheres);
    var last := Filtered(chain, wheres);
    assert PlanClauses(Some(last), [ret]) == PlanClauses(Some(PlanClause(Some(last), ret).value), [ret][1..]);
  }
}

/** A query from its text to its rows: any text that parses to a reading statement answers
    over exactly the walks its pattern describes. */
module QueryText {
  import opened Results
  import opened Text
  import opened PropertyGraph
  import opened Ast
  import opened Planning
  import opened Evaluation
  import opened Storage
  import opened Execution
  import opened Walks
  import Lexer
  import Parser
  import ParserRange
  import Printer

  lemma NameHasNoColon(name: string, cc: Lexer.CharClass)
    requires cc.Ok() && Printer.NameOrNone(name, cc)
    ensures Count(name, ':') == 0
  {
    hide Count;
    CountZero(name, ':');
  }

  function Query(before: seq<Clause>, patterns: seq<Pattern>, wheres: seq<Expr>, ret: Clause): Statement {
    Statement(before + [MatchClause(patterns)] + WhereClauses(wheres) + [ret])
  }

  /** What the parser guarantees of a reading statement. */
  lemma ParsedQuery(text: string, before: seq<Clause>, patterns: seq<Pattern>, wheres: seq<Expr>, ret: Clause, cc: Lexer.CharClass)
    requires cc.Ok() && Parser.ParseText(text, cc) == Ok(Query(before, patterns, wheres, ret))
    ensures ClausesOk(Query(before, patterns, wheres, ret).clauses) && ClausesOk(before)
    ensures patterns != [] && ChainsOk(patterns) && ChainOk(patterns[0]) && Count(patterns[0].nodes[0].lbl, ':') == 0
  {
    hide Parser.ParseText, Printer.PatternOk, Count;
    ParserRange.ParsedIsPrintable(text, cc);
    var cs := Query(before, patterns, wheres, ret).clauses;
    assert cs[|before|] == MatchClause(patterns) && Printer.ClauseOk(cs[|before|], cc);
    forall c | c in before ensures ClauseOk(c) { assert c in cs; }
    assert ClauseOk(cs[|before|]);
    FirstLabel(patterns[0], cc);
  }

  lemma FirstLabel(pat: Pattern, cc: Lexer.CharClass)
    requires cc.Ok() && Printer.PatternOk(pat, cc)
    ensures ChainOk(pat) && Count(pat.nodes[0].lbl, ':') == 0
  {
    hide Count, Printer.NameOrNone;
    assert Printer.NodeOk(pat.nodes[0], cc);
    NameHasNoColon(pat.nodes[0].lbl, cc);
  }

  // ---------- running a text ----------

  /** What the executor plans for a text. */
  function Planned(text: string, cc: Lexer.CharClass): Result<Plan> {
    var s :- Parser.ParseText(text, cc);
    PlanStatement(s)
  }

  predicate ReadsOnly(plan: Result<Plan>) {
    plan.Ok? ==> Reading(plan.value)
  }

  /** Parses, plans and executes; a text that does not parse or plan fails. */
  method Execute(storage: BadgerStorage, text: string, cc: Lexer.CharClass, env: Env) returns (r: Result<ResultSet>)
    requires storage.Valid() && cc.Ok() && ReadsOnly(Planned(text, cc))
    ensures var plan := Planned(text, cc);
            if plan.Err? then r.Err?
            else r.Ok? && r.value.rows == Rows(plan.value, storage.mem, env) && ColumnsOk(plan.value, storage.mem, env, r.value.columns)
  {
    hide Parser.ParseText, PlanStatement, Rows, ColumnsOk;
    var statement := Parser.Parse(text, cc);
    if statement.Err? { return Err; }
    var plan := MakePlan(statement.value);
    if plan.Err? { return Err; }
    var rs := ExecutePlan(storage, plan.value, env);
    r := Ok(rs);
  }

  /** Running the text of a reading statement: whatever text parses to MATCH, any WHEREs and
      RETURN, behind clauses that can be planned, its rows are the statement's answer over
      exactly the fitting walks. */
  lemma TextMeaning(text: string, before: seq<Clause>, patterns: seq<Pattern>, wheres: seq<Expr>, ret: Clause, cc: Lexer.CharClass,
                    m: Memory, env: Env)
    requires m.Ok() && env.Ok() && cc.Ok() && ret.ReturnClause?
    requires Parser.ParseText(text, cc) == Ok(Query(before, patterns, wheres, ret))
    requires ClausesOk(before) && PlanClauses(None, before).Ok?
    ensures Answered(Planned(text, cc), patterns, wheres, ret, m, env)
  {
    hide Parser.ParseText, Answers, RowsOf, Rows, AllWalks, IsWalk, InKeyOrder, PlanClause, WhereClauses;
    ParsedQuery(text, before, patterns, wheres, ret, cc);
    StatementMeaning(before, patterns, wheres, ret, m, env);
  }

  /** The plan's rows are the answer over the walks fitting the first pattern. */
  ghost predicate Answered(plan: Result<Plan>, patterns: seq<Pattern>, wheres: seq<Expr>, ret: Clause, m: Memory, env: Env)
    requires ret.ReturnClause?
  {
    && plan.Ok? && Reading(plan.value)
    && patterns != [] && var pat := patterns[0];
    && ChainOk(pat) && var walks := AllWalks(m, pat, |pat.edges|, env);
    && (forall w :: w in walks <==> IsWalk(m, pat, |pat.edges|, w, env)) && InKeyOrder(walks)
    && Answers(Rows(plan.value, m, env), RowsOf(pat, walks), wheres, ret, env)
  }
}

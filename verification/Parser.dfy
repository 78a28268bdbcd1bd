/** The parser object: a position moving over the tokens, each method doing what the
    grammar rule of its name says. */
module Parser {
  import opened Results
  import opened Ast
  import opened Tokens
  import G = Grammar
  import Lexer

  class ParserState {
    const tokens: G.TokenList
    var pos: nat

    constructor (ts: G.TokenList)
      ensures tokens == ts && pos == 0
    {
      tokens, pos := ts, 0;
    }

    /** The outcome a rule prescribes, with the position moved behind it on success. */
    ghost predicate Did<T>(r: Result<T>, rule: G.Parsed<T>)
      reads this
    {
      if rule.Ok? then r == Ok(rule.value.0) && pos == rule.value.1 else r.Err?
    }

    function Peek(): TokenType
      reads this
    {
      G.Peek(tokens, pos)
    }

    method Advance() returns (lit: string)
      modifies this
      ensures lit == G.Lit(tokens, old(pos)) && pos == old(pos) + 1
    {
      lit := G.Lit(tokens, pos);
      pos := pos + 1;
    }

    method Expect(kind: TokenType) returns (r: Result<string>)
      requires !kind.EOF? && !kind.ILLEGAL?
      modifies this
      ensures r.Ok? <==> G.Expect(tokens, old(pos), kind).Ok?
      ensures r.Ok? ==> r.value == G.Lit(tokens, old(pos)) && pos == old(pos) + 1
    {
      var found := Peek();
      var lit := Advance();
      r := if found == kind then Ok(lit) else Err;
    }

    method Match(kind: TokenType) returns (b: bool)
      modifies this
      ensures b <==> G.Peek(tokens, old(pos)) == kind
      ensures pos == if b then old(pos) + 1 else old(pos)
    {
      b := Peek() == kind;
      if b { pos := pos + 1; }
    }

    // ---------- expressions ----------

    method ParseExpr() returns (r: Result<Expr>)
      modifies this
      ensures Did(r, G.ParseExpr(tokens, old(pos)))
      decreases G.Left(tokens, pos), 6
    {
      ghost var start := pos;
      var left :- ParseAnd();
      while Peek().OR?
        invariant pos > start
        invariant G.ParseExpr(tokens, start) == G.OrTail(tokens, pos, left)
        decreases G.Left(tokens, pos)
      {
        pos := pos + 1;
        var right :- ParseAnd();
        left := BinaryExpr(left, OrOp, right);
      }
      r := Ok(left);
    }

    method ParseAnd() returns (r: Result<Expr>)
      modifies this
      ensures Did(r, G.ParseAnd(tokens, old(pos)))
      decreases G.Left(tokens, pos), 5
    {
      ghost var start := pos;
      var left :- ParseNot();
      while Peek().AND?
        invariant pos > start
        invariant G.ParseAnd(tokens, start) == G.AndTail(tokens, pos, left)
        decreases G.Left(tokens, pos)
      {
        pos := pos + 1;
        var right :- ParseNot();
        left := BinaryExpr(left, AndOp, right);
      }
      r := Ok(left);
    }

    method ParseNot() returns (r: Result<Expr>)
      modifies this
      ensures Did(r, G.ParseNot(tokens, old(pos)))
      decreases G.Left(tokens, pos), 4
    {
      if Peek().NOT? {
        pos := pos + 1;
        var e :- ParseComparison();
        return Ok(NotExpr(e));
      }
      r := ParseComparison();
    }

    method ParseComparison() returns (r: Result<Expr>)
      modifies this
      ensures Did(r, G.ParseComparison(tokens, old(pos)))
      decreases G.Left(tokens, pos), 3
    {
      var left :- ParseAtom();
      var op := G.ComparisonOp(Peek());
      if op.Some? {
        pos := pos + 1;
        var right :- ParseAtom();
        return Ok(BinaryExpr(left, op.value, right));
      }
      r := Ok(left);
    }

    method ParseAtom() returns (r: Result<Expr>)
      modifies this
      ensures Did(r, G.ParseAtom(tokens, old(pos)))
      decreases G.Left(tokens, pos), 2
    {
      var lit := G.Lit(tokens, pos);
      match Peek() {
        case STAR => pos := pos + 1; r := Ok(StarExpr);
        case INT => pos := pos + 1; r := Ok(LiteralExpr(IntLit(G.ParseInt(lit))));
        case FLOAT => pos := pos + 1; r := Ok(LiteralExpr(FloatLit(false, lit)));
        case STRING => pos := pos + 1; r := Ok(LiteralExpr(StringLit(lit)));
        case TRUE => pos := pos + 1; r := Ok(LiteralExpr(BoolLit(true)));
        case FALSE => pos := pos + 1; r := Ok(LiteralExpr(BoolLit(false)));
        case NULL => pos := pos + 1; r := Ok(LiteralExpr(NullLit));
        case PARAM => pos := pos + 1; r := Ok(ParamExpr(if lit == "" then "" else lit[1..]));
        case LBRACKET =>
          pos := pos + 1;
          var es :- ParseExprsUntil(RBRACKET);
          r := Ok(ListExpr(es));
        case LPAREN =>
          pos := pos + 1;
          var e :- ParseExpr();
          var _ :- Expect(RPAREN);
          r := Ok(e);
        case IDENT => r := ParseNamed();
        case COUNT => r := ParseNamed();
        case DASH =>
          pos := pos + 1;
          if Peek().INT? {
            var num := Advance();
            return Ok(LiteralExpr(IntLit(0 - G.ParseInt(num))));
          }
          if Peek().FLOAT? {
            var num := Advance();
            return Ok(LiteralExpr(FloatLit(true, num)));
          }
          r := Err;
        case _ => r := Err;
      }
    }

    method ParseNamed() returns (r: Result<Expr>)
      requires Peek().IDENT? || Peek().COUNT?
      modifies this
      ensures Did(r, G.ParseNamed(tokens, old(pos)))
      decreases G.Left(tokens, pos), 1
    {
      var name := Advance();
      if Peek().LPAREN? {
        pos := pos + 1;
        var args :- ParseCallArgs();
        return Ok(FuncCallExpr(name, args));
      }
      if Peek().DOT? {
        pos := pos + 1;
        var prop :- Expect(IDENT);
        return Ok(PropertyExpr(name, prop));
      }
      r := Ok(IdentExpr(name));
    }

    method ParseCallArgs() returns (r: Result<seq<Expr>>)
      modifies this
      ensures Did(r, G.CallArgs(tokens, old(pos)))
      decreases G.Left(tokens, pos), 9
    {
      if Peek().STAR? {
        pos := pos + 1;
        var args :- ParseExprTail([StarExpr]);
        var _ :- Expect(RPAREN);
        return Ok(args);
      }
      r := ParseExprsUntil(RPAREN);
    }

    method ParseExprsUntil(close: TokenType) returns (r: Result<seq<Expr>>)
      requires !close.EOF? && !close.ILLEGAL?
      modifies this
      ensures Did(r, G.ExprsUntil(tokens, old(pos), close))
      decreases G.Left(tokens, pos), 8
    {
      if Peek() == close {
        pos := pos + 1;
        return Ok([]);
      }
      var e :- ParseExpr();
      var es :- ParseExprTail([e]);
      var _ :- Expect(close);
      r := Ok(es);
    }

    method ParseExprTail(first: seq<Expr>) returns (r: Result<seq<Expr>>)
      modifies this
      ensures Did(r, G.ExprTail(tokens, old(pos), first))
      decreases G.Left(tokens, pos), 7
    {
      ghost var begin := pos;
      var es := first;
      while Peek().COMMA?
        invariant pos >= begin
        invariant G.ExprTail(tokens, begin, first) == G.ExprTail(tokens, pos, es)
        decreases G.Left(tokens, pos)
      {
        pos := pos + 1;
        var e :- ParseExpr();
        es := es + [e];
      }
      r := Ok(es);
    }

    // ---------- patterns ----------

    method ParseMapEntry(m: map<string, Expr>) returns (r: Result<map<string, Expr>>)
      modifies this
      ensures Did(r, G.MapEntry(tokens, old(pos), m))
    {
      var key :- Expect(IDENT);
      var _ :- Expect(COLON);
      var val :- ParseExpr();
      r := Ok(m[key := val]);
    }

    method ParseMap() returns (r: Result<map<string, Expr>>)
      requires Peek().LBRACE?
      modifies this
      ensures Did(r, G.ParseMap(tokens, old(pos)))
    {
      pos := pos + 1;
      if Peek().RBRACE? {
        pos := pos + 1;
        return Ok(map[]);
      }
      var first :- ParseMapEntry(map[]);
      var props :- ParseMapTail(first);
      var _ :- Expect(RBRACE);
      r := Ok(props);
    }

    method ParseMapTail(first: map<string, Expr>) returns (r: Result<map<string, Expr>>)
      modifies this
      ensures Did(r, G.MapTail(tokens, old(pos), first))
    {
      hide G.MapEntry;
      ghost var begin := pos;
      var props := first;
      while Peek().COMMA?
        invariant pos >= begin
        invariant G.MapTail(tokens, begin, first) == G.MapTail(tokens, pos, props)
        decreases G.Left(tokens, pos)
      {
        pos := pos + 1;
        props :- ParseMapEntry(props);
      }
      r := Ok(props);
    }

    method ParseOptionalIdent() returns (name: string)
      modifies this
      ensures (name, pos) == G.OptionalIdent(tokens, old(pos))
    {
      name := "";
      if Peek().IDENT? { name := Advance(); }
    }

    method ParseOptionalLabel() returns (r: Result<string>)
      modifies this
      ensures Did(r, G.OptionalLabel(tokens, old(pos)))
    {
      var colon := Match(COLON);
      if colon {
        r := Expect(IDENT);
        return;
      }
      r := Ok("");
    }

    method ParseNode() returns (r: Result<NodePattern>)
      modifies this
      ensures Did(r, G.ParseNode(tokens, old(pos)))
    {
      var _ :- Expect(LPAREN);
      var variable := ParseOptionalIdent();
      var lbl :- ParseOptionalLabel();
      var props: map<string, Expr> := map[];
      if Peek().LBRACE? {
        props :- ParseMap();
      }
      var _ :- Expect(RPAREN);
      r := Ok(NodePattern(variable, lbl, props));
    }

    method ParseDetail(dir: Direction) returns (r: Result<EdgePattern>)
      modifies this
      ensures Did(r, G.ParseDetail(tokens, old(pos), dir))
    {
      if Peek().LBRACKET? {
        pos := pos + 1;
        var variable := ParseOptionalIdent();
        var lbl :- ParseOptionalLabel();
        var _ :- Expect(RBRACKET);
        return Ok(EdgePattern(variable, lbl, dir));
      }
      r := Ok(EdgePattern("", "", dir));
    }

    method ParseRelAndNode() returns (r: Result<(EdgePattern, NodePattern)>)
      requires Peek().DASH? || Peek().LARROW?
      modifies this
      ensures Did(r, G.ParseRelAndNode(tokens, old(pos)))
    {
      hide G.ParseDetail, G.ParseNode;
      var toLeft := Peek().LARROW?;
      pos := pos + 1;
      var edge :- ParseDetail(if toLeft then EdgeLeft else EdgeRight);
      var _ :- Expect(if toLeft then DASH else ARROW);
      var node :- ParseNode();
      r := Ok((edge, node));
    }

    method ParsePattern() returns (r: Result<Pattern>)
      modifies this
      ensures Did(r, G.ParsePattern(tokens, old(pos)))
    {
      ghost var start := pos;
      var node :- ParseNode();
      var pat := Pattern([node], []);
      while Peek().DASH? || Peek().LARROW?
        invariant pos > start && ChainOk(pat)
        invariant G.ParsePattern(tokens, start) == G.ChainTail(tokens, pos, pat)
        decreases G.Left(tokens, pos)
      {
        var rel :- ParseRelAndNode();
        pat := Pattern(pat.nodes + [rel.1], pat.edges + [rel.0]);
      }
      r := Ok(pat);
    }

    method ParsePatterns() returns (r: Result<seq<Pattern>>)
      modifies this
      ensures Did(r, G.ParsePatterns(tokens, old(pos)))
    {
      hide G.ParsePattern;
      var pat :- ParsePattern();
      ghost var begin := pos;
      var pats := [pat];
      ghost var first := pats;
      while Peek().COMMA?
        invariant ChainsOk(first) && ChainsOk(pats) && pos >= begin
        invariant G.PatternTail(tokens, begin, first) == G.PatternTail(tokens, pos, pats)
        decreases G.Left(tokens, pos)
      {
        pos := pos + 1;
        var next :- ParsePattern();
        ChainsMore(pats, next);
        pats := pats + [next];
      }
      r := Ok(pats);
    }

    // ---------- clauses ----------

    method ParseReturnItem() returns (r: Result<ReturnItem>)
      modifies this
      ensures Did(r, G.ParseReturnItem(tokens, old(pos)))
    {
      var e :- ParseExpr();
      var aliased := Match(AS);
      if aliased {
        var alias :- Expect(IDENT);
        return Ok(ReturnItem(e, alias));
      }
      r := Ok(ReturnItem(e, ""));
    }

    method ParseReturnItems() returns (r: Result<seq<ReturnItem>>)
      modifies this
      ensures Did(r, var first := G.ParseReturnItem(tokens, old(pos));
                     if first.Err? then Err else G.ItemTail(tokens, first.value.1, [first.value.0]))
    {
      hide G.ParseReturnItem;
      ghost var start := pos;
      var item :- ParseReturnItem();
      ghost var begin := pos;
      var items := [item];
      while Peek().COMMA?
        invariant pos > start
        invariant G.ItemTail(tokens, begin, [item]) == G.ItemTail(tokens, pos, items)
        decreases G.Left(tokens, pos)
      {
        pos := pos + 1;
        var next :- ParseReturnItem();
        items := items + [next];
      }
      r := Ok(items);
    }

    method ParseOrderItem() returns (r: Result<OrderItem>)
      modifies this
      ensures Did(r, G.ParseOrderItem(tokens, old(pos)))
    {
      var e :- ParseExpr();
      var desc := Match(DESC);
      if !desc {
        var _ := Match(ASC);
      }
      r := Ok(OrderItem(e, desc));
    }

    method ParseOrderBy() returns (r: Result<seq<OrderItem>>)
      modifies this
      ensures Did(r, G.ParseOrderBy(tokens, old(pos)))
    {
      ghost var start := pos;
      if !Peek().ORDER? { return Ok([]); }
      pos := pos + 1;
      var _ :- Expect(BY);
      var item :- ParseOrderItem();
      ghost var begin := pos;
      var items := [item];
      while Peek().COMMA?
        invariant pos > start
        invariant G.OrderTail(tokens, begin, [item]) == G.OrderTail(tokens, pos, items)
        decreases G.Left(tokens, pos)
      {
        pos := pos + 1;
        var next :- ParseOrderItem();
        items := items + [next];
      }
      r := Ok(items);
    }

    method ParseOptionalCount(keyword: TokenType) returns (r: Result<Option<nat>>)
      requires !keyword.EOF? && !keyword.ILLEGAL?
      modifies this
      ensures Did(r, G.OptionalCount(tokens, old(pos), keyword))
    {
      var present := Match(keyword);
      if present {
        var lit :- Expect(INT);
        return Ok(Some(G.ParseInt(lit)));
      }
      r := Ok(None);
    }

    method ParseReturn() returns (r: Result<Clause>)
      requires Peek().RETURN?
      modifies this
      ensures Did(r, G.ParseReturn(tokens, old(pos)))
    {
      pos := pos + 1;
      var items :- ParseReturnItems();
      var orderBy :- ParseOrderBy();
      var limit :- ParseOptionalCount(LIMIT);
      var skip :- ParseOptionalCount(SKIP);
      r := Ok(ReturnClause(items, orderBy, limit, skip));
    }

    method ParseSetItem() returns (r: Result<SetItem>)
      modifies this
      ensures Did(r, G.ParseSetItem(tokens, old(pos)))
    {
      var variable :- Expect(IDENT);
      var _ :- Expect(DOT);
      var property :- Expect(IDENT);
      var _ :- Expect(EQ);
      var val :- ParseExpr();
      r := Ok(SetItem(variable, property, val));
    }

    method ParseSet() returns (r: Result<Clause>)
      requires Peek().SET?
      modifies this
      ensures Did(r, G.ParseSet(tokens, old(pos)))
    {
      hide G.ParseSetItem;
      ghost var start := pos;
      pos := pos + 1;
      var item :- ParseSetItem();
      ghost var begin := pos;
      var items := [item];
      while Peek().COMMA?
        invariant pos > start
        invariant G.SetTail(tokens, begin, [item]) == G.SetTail(tokens, pos, items)
        decreases G.Left(tokens, pos)
      {
        pos := pos + 1;
        var next :- ParseSetItem();
        items := items + [next];
      }
      r := Ok(SetClause(items));
    }

    method ParseIdents(sep: TokenType) returns (r: Result<seq<string>>)
      requires !sep.EOF? && !sep.ILLEGAL?
      modifies this
      ensures Did(r, G.ParseIdents(tokens, old(pos), sep))
    {
      ghost var start := pos;
      var first :- Expect(IDENT);
      var names := [first];
      while Peek() == sep
        invariant pos > start
        invariant G.ParseIdents(tokens, start, sep) == G.IdentTail(tokens, pos, sep, names)
        decreases G.Left(tokens, pos)
      {
        pos := pos + 1;
        var next :- Expect(IDENT);
        names := names + [next];
      }
      r := Ok(names);
    }

    method ParseYield() returns (r: Result<seq<string>>)
      modifies this
      ensures Did(r, G.ParseYield(tokens, old(pos)))
    {
      var present := Match(YIELD);
      if present {
        r := ParseIdents(COMMA);
      } else {
        r := Ok([]);
      }
    }

    method ParseInvocation() returns (r: Result<(string, seq<Expr>)>)
      modifies this
      ensures Did(r, G.ParseInvocation(tokens, old(pos)))
    {
      var parts :- ParseIdents(DOT);
      var _ :- Expect(LPAREN);
      var args :- ParseExprsUntil(RPAREN);
      r := Ok((G.JoinDots(parts), args));
    }

    method ParseCall() returns (r: Result<Clause>)
      requires Peek().CALL?
      modifies this
      ensures Did(r, G.ParseCall(tokens, old(pos)))
    {
      hide G.ParseInvocation, G.ParseYield;
      pos := pos + 1;
      var call :- ParseInvocation();
      var vars :- ParseYield();
      r := Ok(CallClause(call.0, call.1, vars));
    }

    method ParseClause() returns (r: Result<Clause>)
      modifies this
      ensures Did(r, G.ParseClause(tokens, old(pos)))
    {
      var kind := Peek();
      match kind {
        case MATCH =>
          pos := pos + 1;
          var ps :- ParsePatterns();
          r := Ok(MatchClause(ps));
        case WHERE =>
          pos := pos + 1;
          var e :- ParseExpr();
          r := Ok(WhereClause(e));
        case RETURN => r := ParseReturn();
        case CREATE =>
          pos := pos + 1;
          var ps :- ParsePatterns();
          r := Ok(CreateClause(ps));
        case MERGE =>
          pos := pos + 1;
          var pat :- ParsePattern();
          r := Ok(MergeClause(pat));
        case SET => r := ParseSet();
        case DELETE =>
          pos := pos + 1;
          var vars :- ParseIdents(COMMA);
          r := Ok(DeleteClause(vars));
        case CALL => r := ParseCall();
        case _ => r := Err;
      }
    }

    method ParseStatement() returns (r: Result<Statement>)
      requires pos == 0
      modifies this
      ensures r == G.ParseStatement(tokens)
    {
      var clauses: seq<Clause> := [];
      while !Peek().EOF?
        invariant ClausesOk(clauses)
        invariant G.ClauseTail(tokens, 0, []) == G.ClauseTail(tokens, pos, clauses)
        decreases G.Left(tokens, pos)
      {
        var c :- ParseClause();
        ClausesMore(clauses, c);
        clauses := clauses + [c];
      }
      if |clauses| == 0 { return Err; }
      r := Ok(Statement(clauses));
    }
  }

  /** What a text parses to. */
  function ParseText(input: string, cc: Lexer.CharClass): (r: Result<Statement>)
    ensures r.Ok? ==> ClausesOk(r.value.clauses)
  {
    G.ParseStatement(Lexer.TokensOf(input, cc))
  }

  method Parse(input: string, cc: Lexer.CharClass) returns (r: Result<Statement>)
    requires cc.Ok()
    ensures r == ParseText(input, cc)
  {
    var tokens := Lexer.Tokenize(input, cc);
    var p := new ParserState(tokens);
    r := p.ParseStatement();
  }

  /** A statement with a lexical error anywhere is rejected. */
  lemma IllegalTextRejected(input: string, cc: Lexer.CharClass)
    requires exists t :: t in Lexer.TokensOf(input, cc) && t.kind.ILLEGAL?
    ensures ParseText(input, cc).Err?
  {
    hide G.ParseStatement, Lexer.TokensOf;
    if ParseText(input, cc).Ok? {
      G.ParsedToTheEnd(Lexer.TokensOf(input, cc));
    }
  }
}

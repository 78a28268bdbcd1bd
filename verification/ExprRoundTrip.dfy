/** Parsing the tokens of a printed expression gives the expression back. */
module ExprRoundTrip {
  import opened Results
  import opened Text
  import opened Ast
  import opened Tokens
  import opened Grammar
  import opened Printer
  import Lexer

  /** The list shows these tokens at this position. */
  predicate At(ts: TokenList, pos: nat, toks: seq<Token>) {
    pos + |toks| <= |ts| && ts[pos..pos + |toks|] == toks
  }

  lemma AtSplit(ts: TokenList, pos: nat, a: seq<Token>, b: seq<Token>)
    requires At(ts, pos, a + b)
    ensures At(ts, pos, a) && At(ts, pos + |a|, b)
  {
    var s := ts[pos..pos + |a + b|];
    assert s[..|a|] == ts[pos..pos + |a|] == a;
    assert s[|a|..] == ts[pos + |a|..pos + |a| + |b|] == b;
  }

  lemma AtHead(ts: TokenList, pos: nat, t: Token, rest: seq<Token>)
    requires At(ts, pos, [t] + rest)
    ensures Peek(ts, pos) == t.kind && Lit(ts, pos) == t.lit && At(ts, pos + 1, rest)
  {
    AtSplit(ts, pos, [t], rest);
    assert ts[pos] == ts[pos..pos + 1][0];
  }

  lemma AtOne(ts: TokenList, pos: nat, t: Token)
    requires At(ts, pos, [t])
    ensures Peek(ts, pos) == t.kind && Lit(ts, pos) == t.lit
  {
    assert [t] + [] == [t];
    AtHead(ts, pos, t, []);
  }

  lemma AtTwo(ts: TokenList, pos: nat, t: Token, u: Token)
    requires At(ts, pos, [t, u])
    ensures Peek(ts, pos) == t.kind && Lit(ts, pos) == t.lit && Peek(ts, pos + 1) == u.kind && Lit(ts, pos + 1) == u.lit
  {
    assert [t] + [u] == [t, u];
    AtHead(ts, pos, t, [u]);
    AtOne(ts, pos + 1, u);
  }

  // ---------- what may follow ----------

  predicate AtomStop(k: TokenType) {
    !k.LPAREN? && !k.DOT?
  }

  predicate ComparisonStop(k: TokenType) {
    AtomStop(k) && ComparisonOp(k).None?
  }

  predicate AndStop(k: TokenType) {
    ComparisonStop(k) && !k.AND?
  }

  /** Tokens that end an expression. */
  predicate ExprStop(k: TokenType) {
    AndStop(k) && !k.OR?
  }

  // ---------- names and numerals ----------

  lemma ParseIntDecimal(n: nat)
    requires n <= MAX_INT64
    ensures ParseInt(Decimal(n)) == n
  {
    DecimalDigits(n);
    DecimalInverse(n);
  }

  /** No numeral denotes the smallest 64-bit integer: its absolute value is out of range. */
  lemma MinInt64Unreachable(lit: string)
    ensures 0 - ParseInt(lit) > -0x8000_0000_0000_0000
  {
  }

  lemma IntBack(i: int, ts: TokenList, pos: nat)
    requires -MAX_INT64 <= i <= MAX_INT64 && At(ts, pos, PrintLiteral(IntLit(i)))
    ensures ParseAtom(ts, pos) == Ok((LiteralExpr(IntLit(i)), pos + |PrintLiteral(IntLit(i))|))
  {
    hide ParseInt, Decimal, At;
    var n := if i < 0 then -i else i;
    ParseIntDecimal(n);
    if i < 0 {
      AtTwo(ts, pos, Sym(DASH), Token(INT, Decimal(n)));
    } else {
      AtOne(ts, pos, Token(INT, Decimal(n)));
    }
  }

  lemma FloatBack(negative: bool, digits: string, ts: TokenList, pos: nat)
    requires At(ts, pos, PrintLiteral(FloatLit(negative, digits)))
    ensures ParseAtom(ts, pos) == Ok((LiteralExpr(FloatLit(negative, digits)), pos + |PrintLiteral(FloatLit(negative, digits))|))
  {
    if negative {
      assert PrintLiteral(FloatLit(negative, digits)) == [Sym(DASH), Token(FLOAT, digits)];
      AtTwo(ts, pos, Sym(DASH), Token(FLOAT, digits));
    } else {
      assert PrintLiteral(FloatLit(negative, digits)) == [Token(FLOAT, digits)];
      AtOne(ts, pos, Token(FLOAT, digits));
    }
  }

  lemma LiteralBack(l: Literal, cc: Lexer.CharClass, ts: TokenList, pos: nat)
    requires LiteralOk(l, cc) && At(ts, pos, PrintLiteral(l))
    ensures ParseAtom(ts, pos) == Ok((LiteralExpr(l), pos + |PrintLiteral(l)|))
  {
    hide ParseInt, Decimal, At, IsFloatText;
    match l {
      case IntLit(i) => IntBack(i, ts, pos);
      case FloatLit(negative, digits) => FloatBack(negative, digits, ts, pos);
      case NullLit => AtOne(ts, pos, Sym(NULL));
      case BoolLit(b) => AtOne(ts, pos, Sym(if b then TRUE else FALSE));
      case StringLit(t) => AtOne(ts, pos, Token(STRING, t));
    }
  }

  // ---------- printed expressions start like expressions ----------

  predicate Starter(k: TokenType) {
    k.IDENT? || k.COUNT? || k.STRING? || k.INT? || k.FLOAT? || k.PARAM? || k.TRUE? || k.FALSE? || k.NULL?
    || k.STAR? || k.LBRACKET? || k.LPAREN? || k.DASH? || k.NOT?
  }

  lemma LiteralStarts(l: Literal)
    ensures PrintLiteral(l) != [] && Starter(PrintLiteral(l)[0].kind)
    ensures !PrintLiteral(l)[0].kind.NOT? && !PrintLiteral(l)[0].kind.STAR?
  {
  }

  lemma {:induction false} Starts(e: Expr, cc: Lexer.CharClass)
    requires ExprOk(e, cc)
    ensures PrintAtom(e) != [] && Starter(PrintAtom(e)[0].kind)
    ensures PrintComparison(e) != [] && Starter(PrintComparison(e)[0].kind)
    ensures PrintNot(e) != [] && Starter(PrintNot(e)[0].kind)
    ensures PrintAnd(e) != [] && Starter(PrintAnd(e)[0].kind)
    ensures PrintExpr(e) != [] && Starter(PrintExpr(e)[0].kind)
  {
    match e {
      case BinaryExpr(l, op, r) =>
        Starts(l, cc);
        Starts(r, cc);
      case NotExpr(x) =>
      case LiteralExpr(l) => LiteralStarts(l);
      case _ =>
    }
  }

  lemma AtStarter(ts: TokenList, pos: nat, toks: seq<Token>)
    requires At(ts, pos, toks) && toks != []
    ensures Peek(ts, pos) == toks[0].kind
  {
    assert toks == [toks[0]] + toks[1..];
    AtHead(ts, pos, toks[0], toks[1..]);
  }

  // ---------- expressions ----------

  lemma NamedStep(ts: TokenList, pos: nat)
    requires Peek(ts, pos).IDENT? || Peek(ts, pos).COUNT?
    ensures ParseAtom(ts, pos) == ParseNamed(ts, pos)
  {
  }

  lemma NamesPrinted(name: string, cc: Lexer.CharClass)
    ensures IsExprName(name, cc) ==> Name(name).kind.IDENT? || Name(name).kind.COUNT?
    ensures IsName(name, cc) ==> Name(name).kind.IDENT?
  {
    hide LookupIdent, ToUpper;
  }

  lemma IdentBack(name: string, cc: Lexer.CharClass, ts: TokenList, pos: nat)
    requires IsExprName(name, cc) && At(ts, pos, [Name(name)]) && AtomStop(Peek(ts, pos + 1))
    ensures ParseAtom(ts, pos) == Ok((IdentExpr(name), pos + 1))
  {
    hide LookupIdent, ToUpper, ParseAtom, ParseExpr, CallArgs;
    NamesPrinted(name, cc);
    AtOne(ts, pos, Name(name));
    NamedStep(ts, pos);
  }

  lemma PropertyBack(variable: string, property: string, cc: Lexer.CharClass, ts: TokenList, pos: nat)
    requires IsExprName(variable, cc) && IsName(property, cc) && At(ts, pos, [Name(variable), Sym(DOT), Name(property)])
    ensures ParseAtom(ts, pos) == Ok((PropertyExpr(variable, property), pos + 3))
  {
    hide LookupIdent, ToUpper, ParseAtom, ParseExpr, CallArgs;
    NamesPrinted(variable, cc);
    NamesPrinted(property, cc);
    AtHead(ts, pos, Name(variable), [Sym(DOT), Name(property)]);
    AtHead(ts, pos + 1, Sym(DOT), [Name(property)]);
    AtOne(ts, pos + 2, Name(property));
    NamedStep(ts, pos);
  }

  /** Parameters and stars. */
  lemma SignBack(e: Expr, ts: TokenList, pos: nat)
    requires (e.ParamExpr? || e.StarExpr?) && At(ts, pos, PrintAtom(e))
    ensures ParseAtom(ts, pos) == Ok((e, pos + |PrintAtom(e)|))
  {
    hide LookupIdent, ToUpper;
    AtOne(ts, pos, if e.ParamExpr? then Token(PARAM, "$" + e.name) else Sym(STAR));
    if e.ParamExpr? { assert ("$" + e.name)[1..] == e.name; }
  }

  /** Names, properties, parameters and stars. */
  lemma SimpleAtomBack(e: Expr, cc: Lexer.CharClass, ts: TokenList, pos: nat)
    requires e.IdentExpr? || e.PropertyExpr? || e.ParamExpr? || e.StarExpr?
    requires ExprOk(e, cc) && At(ts, pos, PrintAtom(e)) && AtomStop(Peek(ts, pos + |PrintAtom(e)|))
    ensures ParseAtom(ts, pos) == Ok((e, pos + |PrintAtom(e)|))
  {
    hide LookupIdent, ToUpper, ParseAtom;
    if e.IdentExpr? {
      IdentBack(e.name, cc, ts, pos);
    } else if e.PropertyExpr? {
      PropertyBack(e.variable, e.property, cc, ts, pos);
    } else {
      SignBack(e, ts, pos);
    }
  }

  lemma {:induction false} AtomBack(e: Expr, cc: Lexer.CharClass, ts: TokenList, pos: nat)
    requires ExprOk(e, cc) && At(ts, pos, PrintAtom(e)) && AtomStop(Peek(ts, pos + |PrintAtom(e)|))
    ensures ParseAtom(ts, pos) == Ok((e, pos + |PrintAtom(e)|))
    decreases e, 3
  {
    hide ParseAtom;
    if e.LiteralExpr? {
      LiteralBack(e.lit, cc, ts, pos);
    } else if e.FuncCallExpr? {
      CallBack(e, cc, ts, pos);
    } else if e.ListExpr? {
      ListBack(e, cc, ts, pos);
    } else if Compound(e) {
      ParenthesesBack(e, cc, ts, pos);
    } else {
      SimpleAtomBack(e, cc, ts, pos);
    }
  }

  lemma ParenthesesStep(ts: TokenList, pos: nat, e: Expr, p: nat)
    requires Peek(ts, pos).LPAREN? && ParseExpr(ts, pos + 1) == Ok((e, p)) && Peek(ts, p).RPAREN?
    ensures ParseAtom(ts, pos) == Ok((e, p + 1))
  {
  }

  lemma {:induction false} ParenthesesBack(e: Expr, cc: Lexer.CharClass, ts: TokenList, pos: nat)
    requires Compound(e) && ExprOk(e, cc) && At(ts, pos, [Sym(LPAREN)] + PrintBare(e) + [Sym(RPAREN)])
    ensures ParseAtom(ts, pos) == Ok((e, pos + |PrintBare(e)| + 2))
    decreases e, 2
  {
    hide ParseAtom, ParseExpr, PrintBare;
    var inner := PrintBare(e);
    assert [Sym(LPAREN)] + inner + [Sym(RPAREN)] == [Sym(LPAREN)] + (inner + [Sym(RPAREN)]);
    AtHead(ts, pos, Sym(LPAREN), inner + [Sym(RPAREN)]);
    AtSplit(ts, pos + 1, inner, [Sym(RPAREN)]);
    AtOne(ts, pos + 1 + |inner|, Sym(RPAREN));
    BareBack(e, cc, ts, pos + 1);
    ParenthesesStep(ts, pos, e, pos + 1 + |inner|);
  }

  lemma CallStep(ts: TokenList, pos: nat, args: seq<Expr>, end: nat)
    requires Peek(ts, pos).IDENT? || Peek(ts, pos).COUNT?
    requires Peek(ts, pos + 1).LPAREN? && CallArgs(ts, pos + 2) == Ok((args, end))
    ensures ParseAtom(ts, pos) == Ok((FuncCallExpr(Lit(ts, pos), args), end))
  {
    NamedStep(ts, pos);
  }

  lemma {:induction false} CallBack(e: Expr, cc: Lexer.CharClass, ts: TokenList, pos: nat)
    requires e.FuncCallExpr? && ExprOk(e, cc) && At(ts, pos, PrintAtom(e))
    ensures ParseAtom(ts, pos) == Ok((e, pos + |PrintAtom(e)|))
    decreases e, 1
  {
    hide ParseAtom, CallArgs, PrintArgs, LookupIdent, ToUpper;
    var args := PrintArgs(e.args) + [Sym(RPAREN)];
    assert PrintAtom(e) == [Name(e.name)] + ([Sym(LPAREN)] + args);
    NamesPrinted(e.name, cc);
    AtHead(ts, pos, Name(e.name), [Sym(LPAREN)] + args);
    AtHead(ts, pos + 1, Sym(LPAREN), args);
    ArgsBack(e.args, cc, ts, pos + 2);
    CallStep(ts, pos, e.args, pos + 2 + |args|);
  }

  lemma ListStep(ts: TokenList, pos: nat, es: seq<Expr>, end: nat)
    requires Peek(ts, pos).LBRACKET? && ExprsUntil(ts, pos + 1, RBRACKET) == Ok((es, end))
    ensures ParseAtom(ts, pos) == Ok((ListExpr(es), end))
  {
  }

  lemma {:induction false} ListBack(e: Expr, cc: Lexer.CharClass, ts: TokenList, pos: nat)
    requires e.ListExpr? && ExprOk(e, cc) && At(ts, pos, PrintAtom(e))
    ensures ParseAtom(ts, pos) == Ok((e, pos + |PrintAtom(e)|))
    decreases e, 1
  {
    hide ParseAtom, ExprsUntil, PrintExprs;
    var items := PrintExprs(e.elements) + [Sym(RBRACKET)];
    assert PrintAtom(e) == [Sym(LBRACKET)] + items;
    AtHead(ts, pos, Sym(LBRACKET), items);
    ExprsBack(e.elements, cc, ts, pos + 1, RBRACKET);
    ListStep(ts, pos, e.elements, pos + 1 + |items|);
  }

  lemma OperatorBack(op: Operator)
    ensures !op.AndOp? && !op.OrOp? ==> ComparisonOp(OpKind(op)) == Some(op) && AtomStop(OpKind(op))
  {
  }

  lemma AtomIsComparison(ts: TokenList, pos: nat, e: Expr, end: nat)
    requires ParseAtom(ts, pos) == Ok((e, end)) && ComparisonStop(Peek(ts, end))
    ensures ParseComparison(ts, pos) == Ok((e, end))
  {
  }

  /** A comparison or an atom. */
  lemma {:induction false} ComparisonBack(e: Expr, cc: Lexer.CharClass, ts: TokenList, pos: nat)
    requires ExprOk(e, cc) && At(ts, pos, PrintComparison(e)) && ComparisonStop(Peek(ts, pos + |PrintComparison(e)|))
    ensures ParseComparison(ts, pos) == Ok((e, pos + |PrintComparison(e)|))
    decreases e, 4
  {
    hide ParseAtom, ParseComparison, PrintAtom, PrintBare, ComparisonOp, ExprOk;
    if e.BinaryExpr? && !e.op.AndOp? && !e.op.OrOp? {
      BareComparison(e, cc, ts, pos);
    } else {
      AtomBack(e, cc, ts, pos);
      AtomIsComparison(ts, pos, e, pos + |PrintComparison(e)|);
    }
  }

  lemma ComparisonStep(ts: TokenList, pos: nat, l: Expr, p: nat, op: Operator, r: Expr, end: nat)
    requires ParseAtom(ts, pos) == Ok((l, p)) && ComparisonOp(Peek(ts, p)) == Some(op)
    requires ParseAtom(ts, p + 1) == Ok((r, end))
    ensures ParseComparison(ts, pos) == Ok((BinaryExpr(l, op, r), end))
  {
  }

  lemma {:induction false} BareComparison(e: Expr, cc: Lexer.CharClass, ts: TokenList, pos: nat)
    requires e.BinaryExpr? && !e.op.AndOp? && !e.op.OrOp?
    requires ExprOk(e, cc) && At(ts, pos, PrintBare(e)) && ComparisonStop(Peek(ts, pos + |PrintBare(e)|))
    ensures ParseComparison(ts, pos) == Ok((e, pos + |PrintBare(e)|))
    decreases e, 0
  {
    hide ParseAtom, ParseComparison, PrintAtom, PrintBare, OpKind, ComparisonOp, SymText, ExprOk, At, Peek;
    var l, r := PrintAtom(e.left), PrintAtom(e.right);
    BarePrinted(e);
    OperandsAt(e, cc, ts, pos, l, OpKind(e.op), r);
    OperatorBack(e.op);
    AtomBack(e.left, cc, ts, pos);
    AtomBack(e.right, cc, ts, pos + |l| + 1);
    ComparisonStep(ts, pos, e.left, pos + |l|, e.op, e.right, pos + |l| + 1 + |r|);
  }

  /** Where the parts of a binary expression lie. */
  lemma OperandsAt(e: Expr, cc: Lexer.CharClass, ts: TokenList, pos: nat, l: seq<Token>, k: TokenType, r: seq<Token>)
    requires e.BinaryExpr? && ExprOk(e, cc) && At(ts, pos, PrintBare(e)) && PrintBare(e) == l + ([Sym(k)] + r)
    ensures ExprOk(e.left, cc) && ExprOk(e.right, cc)
    ensures At(ts, pos, l) && Peek(ts, pos + |l|) == k && At(ts, pos + |l| + 1, r)
    ensures |PrintBare(e)| == |l| + 1 + |r|
  {
    hide At, PrintBare, SymText;
    AtSplit(ts, pos, l, [Sym(k)] + r);
    AtHead(ts, pos + |l|, Sym(k), r);
  }

  lemma BarePrinted(e: Expr)
    requires e.BinaryExpr?
    ensures PrintBare(e) ==
              if e.op.OrOp? then PrintExpr(e.left) + ([Sym(OR)] + PrintAnd(e.right))
              else if e.op.AndOp? then PrintAnd(e.left) + ([Sym(AND)] + PrintNot(e.right))
              else PrintAtom(e.left) + ([Sym(OpKind(e.op))] + PrintAtom(e.right))
  {
    hide PrintExpr, PrintAnd, PrintNot, PrintAtom, OpKind, SymText;
  }

  lemma ComparisonIsNot(ts: TokenList, pos: nat, e: Expr, end: nat)
    requires ParseComparison(ts, pos) == Ok((e, end)) && !Peek(ts, pos).NOT?
    ensures ParseNot(ts, pos) == Ok((e, end))
  {
  }

  lemma {:induction false} NotBack(e: Expr, cc: Lexer.CharClass, ts: TokenList, pos: nat)
    requires ExprOk(e, cc) && At(ts, pos, PrintNot(e)) && ComparisonStop(Peek(ts, pos + |PrintNot(e)|))
    ensures ParseNot(ts, pos) == Ok((e, pos + |PrintNot(e)|))
    decreases e, 5
  {
    hide ParseComparison, ParseNot, PrintComparison, PrintBare, ComparisonOp, ExprOk;
    if e.NotExpr? {
      BareNot(e, cc, ts, pos);
    } else {
      ComparisonBack(e, cc, ts, pos);
      NotNegated(e, cc);
      AtStarter(ts, pos, PrintComparison(e));
      ComparisonIsNot(ts, pos, e, pos + |PrintNot(e)|);
    }
  }

  /** Only a negation prints with NOT in front. */
  lemma {:induction false} NotNegated(e: Expr, cc: Lexer.CharClass)
    requires ExprOk(e, cc)
    ensures PrintAtom(e) != [] && !PrintAtom(e)[0].kind.NOT?
    ensures !e.NotExpr? ==> PrintComparison(e) != [] && !PrintComparison(e)[0].kind.NOT?
  {
    match e {
      case BinaryExpr(l, _, _) => NotNegated(l, cc);
      case LiteralExpr(l) => LiteralStarts(l);
      case _ =>
    }
  }

  lemma NotStep(ts: TokenList, pos: nat, e: Expr, end: nat)
    requires Peek(ts, pos).NOT? && ParseComparison(ts, pos + 1) == Ok((e, end))
    ensures ParseNot(ts, pos) == Ok((NotExpr(e), end))
  {
  }

  lemma {:induction false} BareNot(e: Expr, cc: Lexer.CharClass, ts: TokenList, pos: nat)
    requires e.NotExpr? && ExprOk(e, cc) && At(ts, pos, PrintBare(e)) && ComparisonStop(Peek(ts, pos + |PrintBare(e)|))
    ensures ParseNot(ts, pos) == Ok((e, pos + |PrintBare(e)|))
    decreases e, 0
  {
    hide ParseComparison, ParseNot, PrintComparison, ComparisonOp;
    AtHead(ts, pos, Sym(NOT), PrintComparison(e.expr));
    ComparisonBack(e.expr, cc, ts, pos + 1);
    NotStep(ts, pos, e.expr, pos + |PrintBare(e)|);
  }

  lemma NotIsAnd(ts: TokenList, pos: nat, e: Expr, end: nat)
    requires ParseNot(ts, pos) == Ok((e, end))
    ensures ParseAnd(ts, pos) == AndTail(ts, end, e)
  {
  }

  lemma AndStep(ts: TokenList, pos: nat, l: Expr, r: Expr, end: nat)
    requires Peek(ts, pos).AND? && ParseNot(ts, pos + 1) == Ok((r, end))
    ensures AndTail(ts, pos, l) == AndTail(ts, end, BinaryExpr(l, AndOp, r))
  {
  }

  lemma AndEnds(ts: TokenList, pos: nat, e: Expr)
    requires !Peek(ts, pos).AND?
    ensures AndTail(ts, pos, e) == Ok((e, pos))
  {
  }

  /** Reading a conjunction arrives at its end with all of it on the left. */
  lemma {:induction false} AndChain(e: Expr, cc: Lexer.CharClass, ts: TokenList, pos: nat)
    requires ExprOk(e, cc) && At(ts, pos, PrintAnd(e)) && ComparisonStop(Peek(ts, pos + |PrintAnd(e)|))
    ensures ParseAnd(ts, pos) == AndTail(ts, pos + |PrintAnd(e)|, e)
    decreases e, 6
  {
    hide ParseNot, ParseAnd, AndTail, PrintNot, PrintBare, ComparisonOp, ExprOk;
    if e.BinaryExpr? && e.op.AndOp? {
      BareAnd(e, cc, ts, pos);
    } else {
      NotBack(e, cc, ts, pos);
      NotIsAnd(ts, pos, e, pos + |PrintAnd(e)|);
    }
  }

  lemma {:induction false} BareAnd(e: Expr, cc: Lexer.CharClass, ts: TokenList, pos: nat)
    requires e.BinaryExpr? && e.op.AndOp?
    requires ExprOk(e, cc) && At(ts, pos, PrintBare(e)) && ComparisonStop(Peek(ts, pos + |PrintBare(e)|))
    ensures ParseAnd(ts, pos) == AndTail(ts, pos + |PrintBare(e)|, e)
    decreases e, 0
  {
    hide ParseNot, ParseAnd, AndTail, PrintNot, PrintAnd, PrintBare, SymText, ExprOk, At, Peek;
    var l, r := PrintAnd(e.left), PrintNot(e.right);
    BarePrinted(e);
    OperandsAt(e, cc, ts, pos, l, AND, r);
    AndChain(e.left, cc, ts, pos);
    NotBack(e.right, cc, ts, pos + |l| + 1);
    AndStep(ts, pos + |l|, e.left, e.right, pos + |l| + 1 + |r|);
  }

  lemma {:induction false} AndBack(e: Expr, cc: Lexer.CharClass, ts: TokenList, pos: nat)
    requires ExprOk(e, cc) && At(ts, pos, PrintAnd(e)) && AndStop(Peek(ts, pos + |PrintAnd(e)|))
    ensures ParseAnd(ts, pos) == Ok((e, pos + |PrintAnd(e)|))
    decreases e, 7
  {
    hide ParseAnd, AndTail, PrintAnd, ComparisonOp, ExprOk;
    AndChain(e, cc, ts, pos);
    AndEnds(ts, pos + |PrintAnd(e)|, e);
  }

  lemma AndIsOr(ts: TokenList, pos: nat, e: Expr, end: nat)
    requires ParseAnd(ts, pos) == Ok((e, end))
    ensures ParseExpr(ts, pos) == OrTail(ts, end, e)
  {
  }

  lemma OrStep(ts: TokenList, pos: nat, l: Expr, r: Expr, end: nat)
    requires Peek(ts, pos).OR? && ParseAnd(ts, pos + 1) == Ok((r, end))
    ensures OrTail(ts, pos, l) == OrTail(ts, end, BinaryExpr(l, OrOp, r))
  {
  }

  lemma OrEnds(ts: TokenList, pos: nat, e: Expr)
    requires !Peek(ts, pos).OR?
    ensures OrTail(ts, pos, e) == Ok((e, pos))
  {
  }

  lemma {:induction false} OrChain(e: Expr, cc: Lexer.CharClass, ts: TokenList, pos: nat)
    requires ExprOk(e, cc) && At(ts, pos, PrintExpr(e)) && AndStop(Peek(ts, pos + |PrintExpr(e)|))
    ensures ParseExpr(ts, pos) == OrTail(ts, pos + |PrintExpr(e)|, e)
    decreases e, 8
  {
    hide ParseAnd, ParseExpr, OrTail, PrintAnd, PrintBare, ComparisonOp, ExprOk;
    if e.BinaryExpr? && e.op.OrOp? {
      BareOr(e, cc, ts, pos);
    } else {
      AndBack(e, cc, ts, pos);
      AndIsOr(ts, pos, e, pos + |PrintExpr(e)|);
    }
  }

  lemma {:induction false} BareOr(e: Expr, cc: Lexer.CharClass, ts: TokenList, pos: nat)
    requires e.BinaryExpr? && e.op.OrOp?
    requires ExprOk(e, cc) && At(ts, pos, PrintBare(e)) && AndStop(Peek(ts, pos + |PrintBare(e)|))
    ensures ParseExpr(ts, pos) == OrTail(ts, pos + |PrintBare(e)|, e)
    decreases e, 0
  {
    hide ParseAnd, ParseExpr, OrTail, PrintAnd, PrintExpr, PrintBare, SymText, ExprOk, At, Peek;
    var l, r := PrintExpr(e.left), PrintAnd(e.right);
    BarePrinted(e);
    OperandsAt(e, cc, ts, pos, l, OR, r);
    OrChain(e.left, cc, ts, pos);
    AndBack(e.right, cc, ts, pos + |l| + 1);
    OrStep(ts, pos + |l|, e.left, e.right, pos + |l| + 1 + |r|);
  }

  /** A compound expression without parentheses, where an expression may end. */
  lemma {:induction false} BareBack(e: Expr, cc: Lexer.CharClass, ts: TokenList, pos: nat)
    requires Compound(e) && ExprOk(e, cc) && At(ts, pos, PrintBare(e)) && ExprStop(Peek(ts, pos + |PrintBare(e)|))
    ensures ParseExpr(ts, pos) == Ok((e, pos + |PrintBare(e)|))
    decreases e, 1
  {
    hide ParseComparison, ParseNot, ParseAnd, ParseExpr, AndTail, OrTail, PrintBare, ComparisonOp, ExprOk;
    var end := pos + |PrintBare(e)|;
    if e.BinaryExpr? && e.op.OrOp? {
      BareOr(e, cc, ts, pos);
    } else {
      if e.BinaryExpr? && e.op.AndOp? {
        BareAnd(e, cc, ts, pos);
      } else {
        if e.NotExpr? {
          BareNot(e, cc, ts, pos);
        } else {
          BareComparison(e, cc, ts, pos);
          BareNotNegated(e, cc);
          AtStarter(ts, pos, PrintBare(e));
          ComparisonIsNot(ts, pos, e, end);
        }
        NotIsAnd(ts, pos, e, end);
      }
      AndEnds(ts, end, e);
      AndIsOr(ts, pos, e, end);
    }
    OrEnds(ts, end, e);
  }

  lemma BareNotNegated(e: Expr, cc: Lexer.CharClass)
    requires e.BinaryExpr? && !e.op.AndOp? && !e.op.OrOp? && ExprOk(e, cc)
    ensures PrintBare(e) != [] && !PrintBare(e)[0].kind.NOT?
  {
    NotNegated(e.left, cc);
  }

  /** Parsing a printed expression gives it back. */
  lemma {:induction false} ExprBack(e: Expr, cc: Lexer.CharClass, ts: TokenList, pos: nat)
    requires ExprOk(e, cc) && At(ts, pos, PrintExpr(e)) && ExprStop(Peek(ts, pos + |PrintExpr(e)|))
    ensures ParseExpr(ts, pos) == Ok((e, pos + |PrintExpr(e)|))
    decreases e, 9
  {
    hide ParseExpr, OrTail, PrintExpr, ComparisonOp, ExprOk;
    OrChain(e, cc, ts, pos);
    OrEnds(ts, pos + |PrintExpr(e)|, e);
  }

  // ---------- lists ----------

  lemma TailStep(ts: TokenList, pos: nat, acc: seq<Expr>, e: Expr, p: nat)
    requires Peek(ts, pos).COMMA? && ParseExpr(ts, pos + 1) == Ok((e, p))
    ensures ExprTail(ts, pos, acc) == ExprTail(ts, p, acc + [e])
  {
  }

  /** What a printed tail looks like at its position. */
  lemma TailAt(es: seq<Expr>, cc: Lexer.CharClass, ts: TokenList, pos: nat)
    requires es != [] && ExprsOk(es, cc) && At(ts, pos, PrintTail(es))
    ensures Peek(ts, pos).COMMA? && ExprOk(es[0], cc) && ExprsOk(es[1..], cc)
    ensures At(ts, pos + 1, PrintExpr(es[0])) && At(ts, pos + 1 + |PrintExpr(es[0])|, PrintTail(es[1..]))
    ensures |PrintTail(es)| == 1 + |PrintExpr(es[0])| + |PrintTail(es[1..])|
  {
    var e, rest := PrintExpr(es[0]), PrintTail(es[1..]);
    assert PrintTail(es) == [Sym(COMMA)] + (e + rest);
    AtHead(ts, pos, Sym(COMMA), e + rest);
    AtSplit(ts, pos + 1, e, rest);
  }

  lemma TailStops(es: seq<Expr>, cc: Lexer.CharClass, ts: TokenList, pos: nat)
    requires ExprsOk(es, cc) && At(ts, pos, PrintTail(es)) && ExprStop(Peek(ts, pos + |PrintTail(es)|))
    ensures ExprStop(Peek(ts, pos))
  {
    if es != [] { TailAt(es, cc, ts, pos); }
  }

  lemma {:induction false} TailBack(es: seq<Expr>, cc: Lexer.CharClass, ts: TokenList, pos: nat, acc: seq<Expr>)
    requires ExprsOk(es, cc) && At(ts, pos, PrintTail(es))
    requires ExprStop(Peek(ts, pos + |PrintTail(es)|)) && !Peek(ts, pos + |PrintTail(es)|).COMMA?
    ensures ExprTail(ts, pos, acc) == Ok((acc + es, pos + |PrintTail(es)|))
    decreases es
  {
    hide *;
    if es == [] {
      NoTail(ts, pos, acc);
    } else {
      TailAt(es, cc, ts, pos);
      var p := pos + 1 + |PrintExpr(es[0])|;
      TailStops(es[1..], cc, ts, p);
      ExprBack(es[0], cc, ts, pos + 1);
      TailStep(ts, pos, acc, es[0], p);
      TailBack(es[1..], cc, ts, p, acc + [es[0]]);
      assert acc + [es[0]] + es[1..] == acc + es;
    }
  }

  lemma NoTail(ts: TokenList, pos: nat, acc: seq<Expr>)
    requires !Peek(ts, pos + |PrintTail([])|).COMMA?
    ensures ExprTail(ts, pos, acc) == Ok((acc + [], pos + |PrintTail([])|))
  {
    assert acc + [] == acc;
  }

  /** A first expression at pos and the rest behind commas. */
  lemma {:induction false} ListedBack(es: seq<Expr>, cc: Lexer.CharClass, ts: TokenList, pos: nat, p: nat)
    requires es != [] && ExprsOk(es, cc)
    requires ParseExpr(ts, pos) == Ok((es[0], p)) && At(ts, p, PrintTail(es[1..]))
    requires ExprStop(Peek(ts, p + |PrintTail(es[1..])|)) && !Peek(ts, p + |PrintTail(es[1..])|).COMMA?
    ensures ExprTail(ts, p, [es[0]]) == Ok((es, p + |PrintTail(es[1..])|))
    decreases es, 0
  {
    TailBack(es[1..], cc, ts, p, [es[0]]);
    assert [es[0]] + es[1..] == es;
  }

  lemma UntilStep(ts: TokenList, pos: nat, close: TokenType, e: Expr, p: nat, es: seq<Expr>, q: nat)
    requires !close.EOF? && !close.ILLEGAL? && Peek(ts, pos) != close && ParseExpr(ts, pos) == Ok((e, p))
    requires ExprTail(ts, p, [e]) == Ok((es, q)) && Peek(ts, q) == close
    ensures ExprsUntil(ts, pos, close) == Ok((es, q + 1))
  {
  }

  /** What a printed list looks like at its position. */
  lemma ListAt(first: seq<Token>, rest: seq<Token>, close: TokenType, ts: TokenList, pos: nat)
    requires At(ts, pos, first + rest + [Sym(close)])
    ensures At(ts, pos, first) && At(ts, pos + |first|, rest) && Peek(ts, pos + |first| + |rest|) == close
    ensures first != [] ==> Peek(ts, pos) == first[0].kind
  {
    AtSplit(ts, pos, first + rest, [Sym(close)]);
    AtOne(ts, pos + |first + rest|, Sym(close));
    AtSplit(ts, pos, first, rest);
    if first != [] { AtStarter(ts, pos, first); }
  }

  lemma ListsPrinted(es: seq<Expr>, cc: Lexer.CharClass)
    requires es != [] && ExprsOk(es, cc)
    ensures PrintExprs(es) == PrintExpr(es[0]) + PrintTail(es[1..])
    ensures ExprOk(es[0], cc) && ExprsOk(es[1..], cc)
  {
  }

  lemma ClosersStop(close: TokenType)
    requires close.RPAREN? || close.RBRACKET?
    ensures ExprStop(close) && !close.COMMA? && !close.EOF? && !close.ILLEGAL? && !Starter(close)
  {
  }

  lemma NoExprs(close: TokenType, ts: TokenList, pos: nat)
    requires (close.RPAREN? || close.RBRACKET?) && At(ts, pos, PrintExprs([]) + [Sym(close)])
    ensures ExprsUntil(ts, pos, close) == Ok(([], pos + |PrintExprs([])| + 1))
  {
    AtOne(ts, pos, Sym(close));
  }

  lemma {:induction false} ExprsBack(es: seq<Expr>, cc: Lexer.CharClass, ts: TokenList, pos: nat, close: TokenType)
    requires ExprsOk(es, cc) && (close.RPAREN? || close.RBRACKET?)
    requires At(ts, pos, PrintExprs(es) + [Sym(close)])
    ensures ExprsUntil(ts, pos, close) == Ok((es, pos + |PrintExprs(es)| + 1))
    decreases es, 1
  {
    hide *;
    if es == [] {
      NoExprs(close, ts, pos);
    } else {
      var e, rest := PrintExpr(es[0]), PrintTail(es[1..]);
      ListsPrinted(es, cc);
      ListAt(e, rest, close, ts, pos);
      ClosersStop(close);
      Starts(es[0], cc);
      TailStops(es[1..], cc, ts, pos + |e|);
      ExprBack(es[0], cc, ts, pos);
      ListedBack(es, cc, ts, pos, pos + |e|);
      UntilStep(ts, pos, close, es[0], pos + |e|, es, pos + |e| + |rest|);
    }
  }

  // ---------- call arguments ----------

  lemma {:induction false} StarArgsBack(es: seq<Expr>, cc: Lexer.CharClass, ts: TokenList, pos: nat)
    requires es != [] && es[0].StarExpr? && ExprsOk(es, cc) && Peek(ts, pos).STAR? && At(ts, pos + 1, PrintTail(es[1..]))
    requires Peek(ts, pos + 1 + |PrintTail(es[1..])|).RPAREN?
    ensures CallArgs(ts, pos) == Ok((es, pos + 2 + |PrintTail(es[1..])|))
    decreases es, 0
  {
    TailBack(es[1..], cc, ts, pos + 1, [StarExpr]);
    assert [es[0]] + es[1..] == es;
  }

  /** The first of several call arguments, in parentheses if it would start with a star. */
  function FirstArg(e: Expr): seq<Token> {
    if !e.StarExpr? && PrintExpr(e) != [] && PrintExpr(e)[0].kind.STAR?
    then [Sym(LPAREN)] + PrintExpr(e) + [Sym(RPAREN)] else PrintExpr(e)
  }

  lemma ArgsPrinted(es: seq<Expr>, cc: Lexer.CharClass)
    requires es != [] && ExprsOk(es, cc)
    ensures PrintArgs(es) == FirstArg(es[0]) + PrintTail(es[1..])
    ensures ExprOk(es[0], cc) && ExprsOk(es[1..], cc)
  {
  }

  lemma {:induction false} FirstArgBack(e: Expr, cc: Lexer.CharClass, ts: TokenList, pos: nat)
    requires ExprOk(e, cc) && !e.StarExpr? && At(ts, pos, FirstArg(e)) && ExprStop(Peek(ts, pos + |FirstArg(e)|))
    ensures ParseExpr(ts, pos) == Ok((e, pos + |FirstArg(e)|))
    ensures FirstArg(e) != [] && Starter(FirstArg(e)[0].kind) && !FirstArg(e)[0].kind.STAR?
    decreases e, 10
  {
    hide ParseExpr, ParseAtom, PrintBare, PrintAnd;
    Starts(e, cc);
    if PrintExpr(e)[0].kind.STAR? {
      StarLed(e, cc);
      ParenthesesBack(e, cc, ts, pos);
      AtStarter(ts, pos, FirstArg(e));
      AtomAlone(e, ts, pos, pos + |FirstArg(e)|);
    } else {
      ExprBack(e, cc, ts, pos);
    }
  }

  lemma ArgsStep(ts: TokenList, pos: nat, r: Parsed<seq<Expr>>)
    requires !Peek(ts, pos).STAR? && ExprsUntil(ts, pos, RPAREN) == r
    ensures CallArgs(ts, pos) == r
  {
  }

  lemma NoArgs(ts: TokenList, pos: nat)
    requires At(ts, pos, PrintArgs([]) + [Sym(RPAREN)])
    ensures CallArgs(ts, pos) == Ok(([], pos + |PrintArgs([])| + 1))
  {
    AtOne(ts, pos, Sym(RPAREN));
  }

  lemma {:induction false} ArgsBack(es: seq<Expr>, cc: Lexer.CharClass, ts: TokenList, pos: nat)
    requires ExprsOk(es, cc) && At(ts, pos, PrintArgs(es) + [Sym(RPAREN)])
    ensures CallArgs(ts, pos) == Ok((es, pos + |PrintArgs(es)| + 1))
    decreases es, 1
  {
    hide *;
    if es == [] {
      NoArgs(ts, pos);
    } else {
      var first, rest := FirstArg(es[0]), PrintTail(es[1..]);
      ArgsPrinted(es, cc);
      ListAt(first, rest, RPAREN, ts, pos);
      ClosersStop(RPAREN);
      TailStops(es[1..], cc, ts, pos + |first|);
      if es[0].StarExpr? {
        StarPrints();
        StarKind();
        StarArgsBack(es, cc, ts, pos);
      } else {
        FirstArgBack(es[0], cc, ts, pos);
        ListedBack(es, cc, ts, pos, pos + |first|);
        UntilStep(ts, pos, RPAREN, es[0], pos + |first|, es, pos + |first| + |rest|);
        ArgsStep(ts, pos, Ok((es, pos + |first| + |rest| + 1)));
      }
    }
  }

  lemma StarKind()
    ensures Sym(STAR).kind == STAR
  {
  }

  lemma StarPrints()
    ensures PrintExpr(StarExpr) == FirstArg(StarExpr) == [Sym(STAR)]
  {
    assert PrintAnd(StarExpr) == PrintNot(StarExpr) == PrintComparison(StarExpr) == PrintAtom(StarExpr);
  }

  /** An expression printed with a leading star is the star or compound. */
  lemma StarLed(e: Expr, cc: Lexer.CharClass)
    requires ExprOk(e, cc) && PrintExpr(e) != [] && PrintExpr(e)[0].kind.STAR? && !e.StarExpr?
    ensures Compound(e) && PrintExpr(e) == PrintBare(e)
  {
    assert PrintExpr(e) == if Compound(e) then PrintBare(e) else PrintAtom(e) by {
      assert PrintComparison(e) == if Compound(e) && e.BinaryExpr? && !e.op.AndOp? && !e.op.OrOp? then PrintBare(e) else PrintAtom(e);
      assert !e.BinaryExpr? || !e.op.OrOp? ==> PrintExpr(e) == PrintAnd(e);
      assert !e.BinaryExpr? || !e.op.AndOp? ==> PrintAnd(e) == PrintNot(e);
    }
    if e.LiteralExpr? { LiteralStarts(e.lit); }
  }

  /** An atom standing where an expression may end is the whole expression. */
  lemma AtomAlone(e: Expr, ts: TokenList, pos: nat, end: nat)
    requires ParseAtom(ts, pos) == Ok((e, end)) && !Peek(ts, pos).NOT? && ExprStop(Peek(ts, end))
    ensures ParseExpr(ts, pos) == Ok((e, end))
  {
    assert ParseComparison(ts, pos) == Ok((e, end));
    assert ParseNot(ts, pos) == Ok((e, end));
    assert ParseAnd(ts, pos) == AndTail(ts, end, e) == Ok((e, end));
    assert ParseExpr(ts, pos) == OrTail(ts, end, e);
  }
}

/** Why the printer's parentheses are all needed: no token list that parses to an expression
    is shorter than the one printed for it. */
module FewestTokens {
  import opened Results
  import opened Ast
  import opened Tokens
  import opened Grammar
  import opened Printer

  predicate StarFirst(printed: seq<Token>) {
    printed != [] && printed[0].kind.STAR?
  }

  /** The tokens from pos to end leave room for the printed ones, and for two parentheses
      more where only the printed ones start with a star. */
  predicate Room(ts: TokenList, pos: nat, end: nat, printed: seq<Token>) {
    pos + |printed| + (if StarFirst(printed) && !Peek(ts, pos).STAR? then 2 else 0) <= end
  }

  // ---------- what parentheses cost ----------

  function Parenthesised(e: Expr): seq<Token>
    requires Compound(e)
  {
    [Sym(LPAREN)] + PrintBare(e) + [Sym(RPAREN)]
  }

  /** Each level of precedence prints as the next one does, or spares its parentheses. */
  lemma Levels(e: Expr)
    ensures PrintExpr(e) == PrintAnd(e) || (Compound(e) && PrintExpr(e) == PrintBare(e) && PrintAnd(e) == Parenthesised(e))
    ensures PrintAnd(e) == PrintNot(e) || (Compound(e) && PrintAnd(e) == PrintBare(e) && PrintNot(e) == Parenthesised(e))
    ensures PrintNot(e) == PrintComparison(e) || (Compound(e) && PrintNot(e) == PrintBare(e) && PrintComparison(e) == Parenthesised(e))
    ensures PrintComparison(e) == PrintAtom(e) || (Compound(e) && PrintComparison(e) == PrintBare(e) && PrintAtom(e) == Parenthesised(e))
    ensures PrintExpr(e) == if Compound(e) then PrintBare(e) else PrintAtom(e)
    ensures Compound(e) ==> PrintAtom(e) == Parenthesised(e)
  {
    hide PrintBare;
    assert PrintComparison(e) == PrintAtom(e) || PrintComparison(e) == PrintBare(e);
    assert PrintNot(e) == PrintComparison(e) || PrintNot(e) == PrintBare(e);
  }

  lemma RoomSpared(ts: TokenList, pos: nat, end: nat, wide: seq<Token>, narrow: seq<Token>)
    requires Room(ts, pos, end, wide) && (narrow == wide || |narrow| + 2 == |wide|)
    ensures Room(ts, pos, end, narrow)
  {
  }

  /** Appending an operator and its right operand. */
  lemma RoomMore(ts: TokenList, pos: nat, mid: nat, end: nat, left: seq<Token>, op: Token, right: seq<Token>)
    requires Room(ts, pos, mid, left) && left != [] && mid + 1 + |right| <= end
    ensures Room(ts, pos, end, left + [op] + right)
  {
  }

  lemma NothingEmpty(e: Expr)
    ensures PrintAtom(e) != [] && PrintExpr(e) != [] && PrintAnd(e) != []
  {
    hide PrintBare;
    Levels(e);
    if Compound(e) { BareNotEmpty(e); }
  }

  lemma {:induction false} BareNotEmpty(e: Expr)
    requires Compound(e)
    ensures PrintBare(e) != []
  {
    hide PrintExpr, PrintAnd, PrintNot, PrintComparison, PrintAtom;
  }

  /** A name is no star, whatever it reads. */
  lemma NameIsNoStar(s: string)
    ensures !Name(s).kind.STAR?
  {
    if ToUpper(s) in KEYWORDS { assert KEYWORDS[ToUpper(s)] in KEYWORDS.Values; }
  }

  // ---------- expressions ----------

  lemma {:induction false} ExprRoom(ts: TokenList, pos: nat)
    requires ParseExpr(ts, pos).Ok?
    ensures var (e, end) := ParseExpr(ts, pos).value; Room(ts, pos, end, PrintExpr(e))
    decreases Left(ts, pos), 6, 1
  {
    hide ParseAnd, OrTail, PrintExpr, PrintAnd, Room, PrintBare;
    var (left, p) := ParseAnd(ts, pos).value;
    AndRoom(ts, pos);
    Levels(left);
    RoomSpared(ts, pos, p, PrintAnd(left), PrintExpr(left));
    OrTailRoom(ts, pos, p, left);
  }

  lemma {:induction false} OrTailRoom(ts: TokenList, start: nat, pos: nat, left: Expr)
    requires start <= pos && OrTail(ts, pos, left).Ok? && Room(ts, start, pos, PrintExpr(left))
    ensures var (e, end) := OrTail(ts, pos, left).value; Room(ts, start, end, PrintExpr(e))
    decreases Left(ts, pos), 6, 0
  {
    hide ParseAnd, PrintExpr, PrintAnd, PrintBare, Room;
    if Peek(ts, pos).OR? {
      var (right, p) := ParseAnd(ts, pos + 1).value;
      AndRoom(ts, pos + 1);
      RoomIs(ts, pos + 1, p, PrintAnd(right));
      NothingEmpty(left);
      RoomMore(ts, start, pos, p, PrintExpr(left), Sym(OR), PrintAnd(right));
      OrPrints(left, right);
      OrTailRoom(ts, start, p, BinaryExpr(left, OrOp, right));
    }
  }

  lemma RoomIs(ts: TokenList, pos: nat, end: nat, printed: seq<Token>)
    requires Room(ts, pos, end, printed)
    ensures pos + |printed| <= end
  {
  }

  lemma OrPrints(l: Expr, r: Expr)
    ensures PrintExpr(BinaryExpr(l, OrOp, r)) == PrintExpr(l) + [Sym(OR)] + PrintAnd(r)
    ensures PrintAnd(BinaryExpr(l, AndOp, r)) == PrintAnd(l) + [Sym(AND)] + PrintNot(r)
  {
    hide SymText;
  }

  lemma {:induction false} AndRoom(ts: TokenList, pos: nat)
    requires ParseAnd(ts, pos).Ok?
    ensures var (e, end) := ParseAnd(ts, pos).value; Room(ts, pos, end, PrintAnd(e))
    decreases Left(ts, pos), 5, 1
  {
    hide ParseNot, AndTail, PrintAnd, PrintNot, Room, PrintBare;
    var (left, p) := ParseNot(ts, pos).value;
    NotRoom(ts, pos);
    Levels(left);
    RoomSpared(ts, pos, p, PrintNot(left), PrintAnd(left));
    AndTailRoom(ts, pos, p, left);
  }

  lemma {:induction false} AndTailRoom(ts: TokenList, start: nat, pos: nat, left: Expr)
    requires start <= pos && AndTail(ts, pos, left).Ok? && Room(ts, start, pos, PrintAnd(left))
    ensures var (e, end) := AndTail(ts, pos, left).value; Room(ts, start, end, PrintAnd(e))
    decreases Left(ts, pos), 5, 0
  {
    hide ParseNot, PrintAnd, PrintNot, PrintBare, Room;
    if Peek(ts, pos).AND? {
      var (right, p) := ParseNot(ts, pos + 1).value;
      NotRoom(ts, pos + 1);
      RoomIs(ts, pos + 1, p, PrintNot(right));
      NothingEmpty(left);
      RoomMore(ts, start, pos, p, PrintAnd(left), Sym(AND), PrintNot(right));
      OrPrints(left, right);
      AndTailRoom(ts, start, p, BinaryExpr(left, AndOp, right));
    }
  }

  lemma {:induction false} NotRoom(ts: TokenList, pos: nat)
    requires ParseNot(ts, pos).Ok?
    ensures var (e, end) := ParseNot(ts, pos).value; Room(ts, pos, end, PrintNot(e))
    decreases Left(ts, pos), 4
  {
    hide ParseComparison, PrintComparison, PrintNot, PrintBare, Room;
    if Peek(ts, pos).NOT? {
      var (e, end) := ParseComparison(ts, pos + 1).value;
      ComparisonRoom(ts, pos + 1);
      RoomIs(ts, pos + 1, end, PrintComparison(e));
      NotPrints(ts, pos, e, end);
    } else {
      var (e, end) := ParseComparison(ts, pos).value;
      ComparisonRoom(ts, pos);
      Levels(e);
      RoomSpared(ts, pos, end, PrintComparison(e), PrintNot(e));
    }
  }

  lemma NotPrints(ts: TokenList, pos: nat, e: Expr, end: nat)
    requires pos + 1 + |PrintComparison(e)| <= end
    ensures Room(ts, pos, end, PrintNot(NotExpr(e)))
  {
    hide PrintComparison;
    assert PrintNot(NotExpr(e)) == [Sym(NOT)] + PrintComparison(e);
  }

  lemma {:induction false} ComparisonRoom(ts: TokenList, pos: nat)
    requires ParseComparison(ts, pos).Ok?
    ensures var (e, end) := ParseComparison(ts, pos).value; Room(ts, pos, end, PrintComparison(e))
    decreases Left(ts, pos), 3
  {
    hide ParseAtom, PrintComparison, PrintAtom, PrintBare, Room, ComparisonOp;
    var (left, p) := ParseAtom(ts, pos).value;
    AtomRoom(ts, pos);
    var op := ComparisonOp(Peek(ts, p));
    if op.Some? {
      var (right, q) := ParseAtom(ts, p + 1).value;
      AtomRoom(ts, p + 1);
      RoomIs(ts, p + 1, q, PrintAtom(right));
      NothingEmpty(left);
      RoomMore(ts, pos, p, q, PrintAtom(left), Sym(OpKind(op.value)), PrintAtom(right));
      ComparisonPrints(Peek(ts, p), left, op.value, right);
    } else {
      Levels(left);
      RoomSpared(ts, pos, p, PrintAtom(left), PrintComparison(left));
    }
  }

  lemma ComparisonPrints(kind: TokenType, l: Expr, op: Operator, r: Expr)
    requires ComparisonOp(kind) == Some(op)
    ensures PrintComparison(BinaryExpr(l, op, r)) == PrintAtom(l) + [Sym(OpKind(op))] + PrintAtom(r)
  {
    hide PrintAtom, SymText, OpKind;
  }

  // ---------- lists ----------

  lemma {:induction false} TailMore(es: seq<Expr>, more: seq<Expr>)
    ensures PrintTail(es + more) == PrintTail(es) + PrintTail(more)
    decreases |es|
  {
    hide PrintExpr;
    if es == [] {
      assert es + more == more;
    } else {
      assert (es + more)[1..] == es[1..] + more;
      TailMore(es[1..], more);
    }
  }

  lemma TailOne(e: Expr)
    ensures |PrintTail([e])| == 1 + |PrintExpr(e)| && PrintTail([]) == []
  {
    hide PrintExpr;
    assert [e][1..] == [];
  }

  /** What is read after the expressions so far takes at least what it prints. */
  lemma {:induction false} TailRoom(ts: TokenList, pos: nat, acc: seq<Expr>)
    requires ExprTail(ts, pos, acc).Ok?
    ensures var (es, end) := ExprTail(ts, pos, acc).value; acc <= es && pos + |PrintTail(es[|acc|..])| <= end
    decreases Left(ts, pos), 7
  {
    hide ParseExpr, PrintExpr, PrintTail, Room;
    TailOne(StarExpr);
    if Peek(ts, pos).COMMA? {
      var (e, p) := ParseExpr(ts, pos + 1).value;
      ExprRoom(ts, pos + 1);
      RoomIs(ts, pos + 1, p, PrintExpr(e));
      TailRoom(ts, p, acc + [e]);
      var es := ExprTail(ts, pos, acc).value.0;
      TailOne(e);
      TailMore([e], es[|acc| + 1..]);
      assert es[|acc|..] == [e] + es[|acc| + 1..];
    } else {
      assert acc[|acc|..] == [];
    }
  }

  lemma ListPrints(es: seq<Expr>)
    requires es != []
    ensures |PrintExprs(es)| == |PrintExpr(es[0])| + |PrintTail(es[1..])|
    ensures |PrintArgs(es)| == |PrintExpr(es[0])| + |PrintTail(es[1..])|
              + if !es[0].StarExpr? && StarFirst(PrintExpr(es[0])) then 2 else 0
  {
    hide PrintExpr, PrintTail;
  }

  /** Expressions up to a closing token, as a list and as arguments. */
  lemma {:induction false} UntilRoom(ts: TokenList, pos: nat, close: TokenType)
    requires !close.EOF? && !close.ILLEGAL? && ExprsUntil(ts, pos, close).Ok?
    ensures var (es, end) := ExprsUntil(ts, pos, close).value;
            && pos + |PrintExprs(es)| + 1 <= end
            && (!Peek(ts, pos).STAR? ==> pos + |PrintArgs(es)| + 1 <= end)
    decreases Left(ts, pos), 8
  {
    hide ParseExpr, ExprTail, PrintExpr, PrintTail;
    if Peek(ts, pos) != close {
      var (e, p) := ParseExpr(ts, pos).value;
      ExprRoom(ts, pos);
      TailRoom(ts, p, [e]);
      ListPrints(ExprTail(ts, p, [e]).value.0);
    }
  }

  lemma {:induction false} ArgsRoom(ts: TokenList, pos: nat)
    requires CallArgs(ts, pos).Ok?
    ensures var (es, end) := CallArgs(ts, pos).value; pos + |PrintArgs(es)| + 1 <= end
    decreases Left(ts, pos), 9
  {
    hide ExprsUntil, ExprTail, PrintTail, PrintExprs, PrintArgs;
    if Peek(ts, pos).STAR? {
      TailRoom(ts, pos + 1, [StarExpr]);
      ListPrints(ExprTail(ts, pos + 1, [StarExpr]).value.0);
    } else {
      UntilRoom(ts, pos, RPAREN);
    }
  }

  // ---------- atoms ----------

  lemma {:induction false} AtomRoom(ts: TokenList, pos: nat)
    requires ParseAtom(ts, pos).Ok?
    ensures var (e, end) := ParseAtom(ts, pos).value; Room(ts, pos, end, PrintAtom(e))
    decreases Left(ts, pos), 2
  {
    hide ParseExpr, ExprsUntil, ParseNamed, ParseInt, PrintExpr, PrintAtom, PrintExprs, PrintBare, Room;
    var kind := Peek(ts, pos);
    var (e, end) := ParseAtom(ts, pos).value;
    if kind.LPAREN? {
      var p := ParseExpr(ts, pos + 1).value.1;
      ExprRoom(ts, pos + 1);
      ParenthesesRoom(ts, pos, e, p);
    } else if kind.LBRACKET? {
      UntilRoom(ts, pos + 1, RBRACKET);
      ListRoom(ts, pos, ExprsUntil(ts, pos + 1, RBRACKET).value.0, end);
    } else if kind.IDENT? || kind.COUNT? {
      NamedRoom(ts, pos);
    } else {
      LiteralRoom(ts, pos);
    }
  }

  lemma ParenthesesRoom(ts: TokenList, pos: nat, e: Expr, p: nat)
    requires Room(ts, pos + 1, p, PrintExpr(e))
    ensures Room(ts, pos, p + 1, PrintAtom(e))
  {
    hide PrintExpr, PrintAtom, PrintBare;
    Levels(e);
  }

  lemma ListRoom(ts: TokenList, pos: nat, es: seq<Expr>, end: nat)
    requires pos + 1 + |PrintExprs(es)| + 1 <= end
    ensures Room(ts, pos, end, PrintAtom(ListExpr(es)))
  {
    hide PrintExprs;
  }

  /** Stars, literals, parameters and negated numbers. */
  lemma LiteralRoom(ts: TokenList, pos: nat)
    requires ParseAtom(ts, pos).Ok? && !Peek(ts, pos).LPAREN? && !Peek(ts, pos).LBRACKET?
    requires !Peek(ts, pos).IDENT? && !Peek(ts, pos).COUNT?
    ensures var (e, end) := ParseAtom(ts, pos).value; Room(ts, pos, end, PrintAtom(e))
  {
    hide ParseExpr, ExprsUntil, ParseNamed, ParseInt, PrintExprs, PrintBare, PrintArgs;
  }

  lemma {:induction false} NamedRoom(ts: TokenList, pos: nat)
    requires (Peek(ts, pos).IDENT? || Peek(ts, pos).COUNT?) && ParseNamed(ts, pos).Ok?
    ensures var (e, end) := ParseNamed(ts, pos).value; Room(ts, pos, end, PrintAtom(e))
    decreases Left(ts, pos), 1
  {
    hide CallArgs, PrintArgs, Name;
    NameIsNoStar(Lit(ts, pos));
    if Peek(ts, pos + 1).LPAREN? { ArgsRoom(ts, pos + 2); }
  }

  // ---------- the result ----------

  /** Whatever parses to an expression has at least as many tokens as are printed for it. */
  lemma PrintedIsShortest(ts: TokenList, pos: nat)
    requires ParseExpr(ts, pos).Ok?
    ensures var (e, end) := ParseExpr(ts, pos).value; |PrintExpr(e)| <= end - pos
  {
    hide ParseExpr, PrintExpr;
    ExprRoom(ts, pos);
  }

  /** No token can be spared: the printed tokens of an expression short of a pair of
      parentheses, or of anything else, parse to another expression or not to their end. */
  lemma NoneToSpare(e: Expr, ts: TokenList)
    requires |ts| < |PrintExpr(e)|
    ensures ParseExpr(ts, 0) != Ok((e, |ts|))
  {
    hide ParseExpr, PrintExpr;
    if ParseExpr(ts, 0).Ok? { PrintedIsShortest(ts, 0); }
  }
}

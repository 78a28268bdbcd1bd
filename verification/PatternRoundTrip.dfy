/** Parsing the tokens of a printed pattern gives the pattern back, in whatever order the
    entries of its map literals were written. */
module PatternRoundTrip {
  import opened Results
  import opened Ast
  import opened Tokens
  import opened Grammar
  import opened Printer
  import opened ExprRoundTrip
  import Lexer

  // ---------- layouts ----------

  lemma Led(ts: TokenList, pos: nat, t: Token, a: seq<Token>, b: seq<Token>)
    requires At(ts, pos, [t] + a + b)
    ensures Peek(ts, pos) == t.kind && At(ts, pos + 1, a) && At(ts, pos + 1 + |a|, b)
  {
    assert [t] + a + b == [t] + (a + b);
    AtHead(ts, pos, t, a + b);
    AtSplit(ts, pos + 1, a, b);
  }

  lemma Enclosed(ts: TokenList, pos: nat, open: Token, a: seq<Token>, close: Token)
    requires At(ts, pos, [open] + a + [close])
    ensures Peek(ts, pos) == open.kind && At(ts, pos + 1, a) && Peek(ts, pos + 1 + |a|) == close.kind
  {
    Led(ts, pos, open, a, [close]);
    AtOne(ts, pos + 1 + |a|, close);
  }

  lemma EnclosedPair(ts: TokenList, pos: nat, open: Token, a: seq<Token>, b: seq<Token>, close: Token)
    requires At(ts, pos, [open] + a + b + [close])
    ensures Peek(ts, pos) == open.kind && At(ts, pos + 1, a) && At(ts, pos + 1 + |a|, b)
    ensures Peek(ts, pos + 1 + |a| + |b|) == close.kind
  {
    assert [open] + a + b + [close] == [open] + (a + b) + [close];
    Enclosed(ts, pos, open, a + b, close);
    AtSplit(ts, pos + 1, a, b);
  }

  // ---------- variable and label ----------

  lemma LabelBack(lbl: string, cc: Lexer.CharClass, ts: TokenList, pos: nat)
    requires NameOrNone(lbl, cc) && At(ts, pos, PrintNameLabel("", lbl))
    requires !Peek(ts, pos + |PrintNameLabel("", lbl)|).COLON?
    ensures OptionalLabel(ts, pos) == Ok((lbl, pos + |PrintNameLabel("", lbl)|))
    ensures lbl != "" ==> Peek(ts, pos).COLON?
  {
    hide LookupIdent, ToUpper;
    if lbl != "" {
      assert PrintNameLabel("", lbl) == [Sym(COLON), Name(lbl)];
      NamesPrinted(lbl, cc);
      AtHead(ts, pos, Sym(COLON), [Name(lbl)]);
      AtOne(ts, pos + 1, Name(lbl));
    }
  }

  lemma NameLabelBack(variable: string, lbl: string, cc: Lexer.CharClass, ts: TokenList, pos: nat)
    requires NameOrNone(variable, cc) && NameOrNone(lbl, cc) && At(ts, pos, PrintNameLabel(variable, lbl))
    requires var stop := Peek(ts, pos + |PrintNameLabel(variable, lbl)|); !stop.COLON? && !stop.IDENT?
    ensures var (v, p) := OptionalIdent(ts, pos);
            v == variable && OptionalLabel(ts, p) == Ok((lbl, pos + |PrintNameLabel(variable, lbl)|))
  {
    hide LookupIdent, ToUpper, OptionalLabel;
    if variable == "" {
      LabelBack(lbl, cc, ts, pos);
    } else {
      assert PrintNameLabel(variable, lbl) == [Name(variable)] + PrintNameLabel("", lbl);
      NamesPrinted(variable, cc);
      AtHead(ts, pos, Name(variable), PrintNameLabel("", lbl));
      LabelBack(lbl, cc, ts, pos + 1);
    }
  }

  // ---------- map literals ----------

  predicate EntryOk(k: string, m: map<string, Expr>, cc: Lexer.CharClass) {
    k in m && IsName(k, cc) && ExprOk(m[k], cc)
  }

  predicate EntriesOk(ks: seq<string>, m: map<string, Expr>, cc: Lexer.CharClass) {
    forall k | k in ks :: EntryOk(k, m, cc)
  }

  lemma EntryStep(ts: TokenList, pos: nat, e: Expr, end: nat, acc: map<string, Expr>)
    requires Peek(ts, pos).IDENT? && Peek(ts, pos + 1).COLON? && ParseExpr(ts, pos + 2) == Ok((e, end))
    ensures MapEntry(ts, pos, acc) == Ok((acc[Lit(ts, pos) := e], end))
  {
  }

  lemma EntryBack(k: string, m: map<string, Expr>, cc: Lexer.CharClass, ts: TokenList, pos: nat, acc: map<string, Expr>)
    requires EntryOk(k, m, cc) && At(ts, pos, PrintEntry(k, m)) && ExprStop(Peek(ts, pos + |PrintEntry(k, m)|))
    ensures MapEntry(ts, pos, acc) == Ok((acc[k := m[k]], pos + |PrintEntry(k, m)|))
    ensures Peek(ts, pos).IDENT?
  {
    hide LookupIdent, ToUpper, ParseExpr, PrintExpr, MapEntry, ExprOk, ExprStop;
    var e := PrintExpr(m[k]);
    assert PrintEntry(k, m) == [Name(k)] + ([Sym(COLON)] + e);
    NamesPrinted(k, cc);
    AtHead(ts, pos, Name(k), [Sym(COLON)] + e);
    AtHead(ts, pos + 1, Sym(COLON), e);
    ExprBack(m[k], cc, ts, pos + 2);
    EntryStep(ts, pos, m[k], pos + 2 + |e|, acc);
  }

  /** Writing entries of m over acc, in the order of ks. */
  function Fill(acc: map<string, Expr>, ks: seq<string>, m: map<string, Expr>): map<string, Expr>
    requires forall k | k in ks :: k in m
    decreases |ks|
  {
    if ks == [] then acc else Fill(acc[ks[0] := m[ks[0]]], ks[1..], m)
  }

  lemma {:induction false} FillAll(acc: map<string, Expr>, ks: seq<string>, m: map<string, Expr>)
    requires forall k | k in ks :: k in m
    requires forall k | k in acc :: k in m && acc[k] == m[k]
    requires forall k | k in m :: k in acc || k in ks
    ensures Fill(acc, ks, m) == m
    decreases |ks|
  {
    if ks == [] {
      assert acc == m;
    } else {
      assert ks == [ks[0]] + ks[1..];
      FillAll(acc[ks[0] := m[ks[0]]], ks[1..], m);
    }
  }

  lemma EntryTailAt(ks: seq<string>, m: map<string, Expr>, cc: Lexer.CharClass, ts: TokenList, pos: nat)
    requires ks != [] && EntriesOk(ks, m, cc) && At(ts, pos, PrintEntryTail(ks, m))
    ensures Peek(ts, pos).COMMA? && EntryOk(ks[0], m, cc) && EntriesOk(ks[1..], m, cc)
    ensures At(ts, pos + 1, PrintEntry(ks[0], m)) && At(ts, pos + 1 + |PrintEntry(ks[0], m)|, PrintEntryTail(ks[1..], m))
    ensures |PrintEntryTail(ks, m)| == 1 + |PrintEntry(ks[0], m)| + |PrintEntryTail(ks[1..], m)|
  {
    hide IsName, ExprOk, PrintEntry;
    assert EntryOk(ks[0], m, cc);
    Led(ts, pos, Sym(COMMA), PrintEntry(ks[0], m), PrintEntryTail(ks[1..], m));
  }

  lemma MapTailStep(ts: TokenList, pos: nat, acc: map<string, Expr>, more: map<string, Expr>, p: nat)
    requires Peek(ts, pos).COMMA? && MapEntry(ts, pos + 1, acc) == Ok((more, p))
    ensures MapTail(ts, pos, acc) == MapTail(ts, p, more)
  {
  }

  lemma EntryTailStops(ks: seq<string>, m: map<string, Expr>, cc: Lexer.CharClass, ts: TokenList, pos: nat)
    requires EntriesOk(ks, m, cc) && At(ts, pos, PrintEntryTail(ks, m)) && Peek(ts, pos + |PrintEntryTail(ks, m)|).RBRACE?
    ensures ExprStop(Peek(ts, pos))
  {
    if ks != [] { EntryTailAt(ks, m, cc, ts, pos); }
  }

  lemma {:induction false} MapTailBack(ks: seq<string>, m: map<string, Expr>, cc: Lexer.CharClass, ts: TokenList, pos: nat, acc: map<string, Expr>)
    requires EntriesOk(ks, m, cc) && At(ts, pos, PrintEntryTail(ks, m)) && Peek(ts, pos + |PrintEntryTail(ks, m)|).RBRACE?
    ensures MapTail(ts, pos, acc) == Ok((Fill(acc, ks, m), pos + |PrintEntryTail(ks, m)|))
    decreases |ks|
  {
    hide IsName, ExprOk, ExprStop, PrintEntry, MapEntry;
    if ks != [] {
      EntryTailAt(ks, m, cc, ts, pos);
      var p, more := pos + 1 + |PrintEntry(ks[0], m)|, acc[ks[0] := m[ks[0]]];
      EntryTailStops(ks[1..], m, cc, ts, p);
      EntryBack(ks[0], m, cc, ts, pos + 1, acc);
      MapTailStep(ts, pos, acc, more, p);
      MapTailBack(ks[1..], m, cc, ts, p, more);
    }
  }

  lemma MapStep(ts: TokenList, pos: nat, first: map<string, Expr>, p: nat, m: map<string, Expr>, q: nat)
    requires Peek(ts, pos).LBRACE? && !Peek(ts, pos + 1).RBRACE? && MapEntry(ts, pos + 1, map[]) == Ok((first, p))
    requires MapTail(ts, p, first) == Ok((m, q)) && Peek(ts, q).RBRACE?
    ensures ParseMap(ts, pos) == Ok((m, q + 1))
  {
  }

  lemma MapBack(m: map<string, Expr>, st: Style, ts: TokenList, pos: nat)
    requires st.Ok() && m != map[] && At(ts, pos, PrintMap(m, st))
    requires forall k | k in m :: EntryOk(k, m, st.cc)
    ensures Peek(ts, pos).LBRACE? && ParseMap(ts, pos) == Ok((m, pos + |PrintMap(m, st)|))
  {
    hide IsName, ExprOk, PrintEntry, PrintEntryTail, ParseMap, At;
    var ks := st.order(m);
    var k :| k in m;
    assert k in ks;
    assert ks == [ks[0]] + ks[1..];
    MapOrderBack(ks, m, st.cc, ts, pos);
  }

  lemma MapOrderBack(ks: seq<string>, m: map<string, Expr>, cc: Lexer.CharClass, ts: TokenList, pos: nat)
    requires ks != [] && EntryOk(ks[0], m, cc) && EntriesOk(ks[1..], m, cc) && forall k | k in m :: k in ks
    requires At(ts, pos, [Sym(LBRACE)] + PrintEntry(ks[0], m) + PrintEntryTail(ks[1..], m) + [Sym(RBRACE)])
    ensures Peek(ts, pos).LBRACE?
    ensures ParseMap(ts, pos) == Ok((m, pos + 2 + |PrintEntry(ks[0], m)| + |PrintEntryTail(ks[1..], m)|))
  {
    hide IsName, ExprOk, ExprStop, PrintEntry, PrintEntryTail, MapEntry, MapTail, ParseMap, At;
    var first, rest := PrintEntry(ks[0], m), PrintEntryTail(ks[1..], m);
    EnclosedPair(ts, pos, Sym(LBRACE), first, rest, Sym(RBRACE));
    var p := pos + 1 + |first|;
    var one := map[ks[0] := m[ks[0]]];
    EntryTailStops(ks[1..], m, cc, ts, p);
    EntryBack(ks[0], m, cc, ts, pos + 1, map[]);
    MapTailBack(ks[1..], m, cc, ts, p, one);
    assert ks == [ks[0]] + ks[1..];
    FillAll(one, ks[1..], m);
    MapStep(ts, pos, one, p, m, p + |rest|);
  }

  // ---------- nodes ----------

  lemma PlainNodeStep(ts: TokenList, pos: nat, variable: string, p: nat, lbl: string, q: nat)
    requires Peek(ts, pos).LPAREN? && OptionalIdent(ts, pos + 1) == (variable, p) && OptionalLabel(ts, p) == Ok((lbl, q))
    requires Peek(ts, q).RPAREN?
    ensures ParseNode(ts, pos) == Ok((NodePattern(variable, lbl, map[]), q + 1))
  {
  }

  lemma MapNodeStep(ts: TokenList, pos: nat, variable: string, p: nat, lbl: string, q: nat, m: map<string, Expr>, end: nat)
    requires Peek(ts, pos).LPAREN? && OptionalIdent(ts, pos + 1) == (variable, p) && OptionalLabel(ts, p) == Ok((lbl, q))
    requires Peek(ts, q).LBRACE? && ParseMap(ts, q) == Ok((m, end)) && Peek(ts, end).RPAREN?
    ensures ParseNode(ts, pos) == Ok((NodePattern(variable, lbl, m), end + 1))
  {
  }

  lemma NodeBack(n: NodePattern, st: Style, ts: TokenList, pos: nat)
    requires st.Ok() && NodeOk(n, st.cc) && At(ts, pos, PrintNode(n, st))
    ensures ParseNode(ts, pos) == Ok((n, pos + |PrintNode(n, st)|))
  {
    hide ParseNode, PrintMap, PrintNameLabel, OptionalIdent, OptionalLabel, ParseMap, ExprOk, NameOrNone, IsName, At;
    var head, props := PrintNameLabel(n.variable, n.lbl), PrintMap(n.props, st);
    EnclosedPair(ts, pos, Sym(LPAREN), head, props, Sym(RPAREN));
    var q := pos + 1 + |head|;
    NodePropsBack(n.props, st, ts, q);
    NameLabelBack(n.variable, n.lbl, st.cc, ts, pos + 1);
    var p := OptionalIdent(ts, pos + 1).1;
    if n.props == map[] {
      PlainNodeStep(ts, pos, n.variable, p, n.lbl, q);
    } else {
      MapNodeStep(ts, pos, n.variable, p, n.lbl, q, n.props, q + |props|);
    }
  }

  lemma HeadIn(ks: seq<string>)
    ensures ks == [] || ks[0] in ks
  {
  }

  /** No entries print as nothing, entries in braces. */
  lemma NodePropsBack(m: map<string, Expr>, st: Style, ts: TokenList, pos: nat)
    requires st.Ok() && (forall k | k in m :: IsName(k, st.cc) && ExprOk(m[k], st.cc))
    requires At(ts, pos, PrintMap(m, st)) && Peek(ts, pos + |PrintMap(m, st)|).RPAREN?
    ensures m == map[] ==> PrintMap(m, st) == []
    ensures m != map[] ==> Peek(ts, pos).LBRACE? && ParseMap(ts, pos) == Ok((m, pos + |PrintMap(m, st)|))
    ensures !Peek(ts, pos).COLON? && !Peek(ts, pos).IDENT?
  {
    hide ExprOk, IsName, ParseMap;
    if m == map[] {
      HeadIn(st.order(m));
    } else {
      MapBack(m, st, ts, pos);
    }
  }

  // ---------- relationships ----------

  lemma DetailStep(ts: TokenList, pos: nat, dir: Direction, variable: string, p: nat, lbl: string, q: nat)
    requires Peek(ts, pos).LBRACKET? && OptionalIdent(ts, pos + 1) == (variable, p) && OptionalLabel(ts, p) == Ok((lbl, q))
    requires Peek(ts, q).RBRACKET?
    ensures ParseDetail(ts, pos, dir) == Ok((EdgePattern(variable, lbl, dir), q + 1))
  {
  }

  lemma DetailBack(e: EdgePattern, cc: Lexer.CharClass, ts: TokenList, pos: nat)
    requires EdgeOk(e, cc) && At(ts, pos, PrintDetail(e)) && !Peek(ts, pos + |PrintDetail(e)|).LBRACKET?
    ensures ParseDetail(ts, pos, e.direction) == Ok((e, pos + |PrintDetail(e)|))
  {
    hide PrintNameLabel, OptionalIdent, OptionalLabel, NameOrNone;
    if e.variable != "" || e.lbl != "" {
      var head := PrintNameLabel(e.variable, e.lbl);
      Enclosed(ts, pos, Sym(LBRACKET), head, Sym(RBRACKET));
      NameLabelBack(e.variable, e.lbl, cc, ts, pos + 1);
      DetailStep(ts, pos, e.direction, e.variable, OptionalIdent(ts, pos + 1).1, e.lbl, pos + 1 + |head|);
    }
  }

  lemma RelStep(ts: TokenList, pos: nat, e: EdgePattern, p: nat, n: NodePattern, end: nat)
    requires Peek(ts, pos) == (if e.direction.EdgeLeft? then LARROW else DASH)
    requires ParseDetail(ts, pos + 1, e.direction) == Ok((e, p))
    requires Peek(ts, p) == (if e.direction.EdgeLeft? then DASH else ARROW) && ParseNode(ts, p + 1) == Ok((n, end))
    ensures ParseRelAndNode(ts, pos) == Ok(((e, n), end))
  {
  }

  /** What a relationship and its far node look like at their position. */
  lemma RelAt(ts: TokenList, pos: nat, open: Token, a: seq<Token>, close: Token, b: seq<Token>)
    requires At(ts, pos, [open] + a + [close] + b)
    ensures Peek(ts, pos) == open.kind && At(ts, pos + 1, a)
    ensures Peek(ts, pos + 1 + |a|) == close.kind && At(ts, pos + 2 + |a|, b)
  {
    AtSplit(ts, pos, [open] + a + [close], b);
    Enclosed(ts, pos, open, a, close);
  }

  lemma RelBack(e: EdgePattern, n: NodePattern, st: Style, ts: TokenList, pos: nat)
    requires st.Ok() && EdgeOk(e, st.cc) && NodeOk(n, st.cc) && At(ts, pos, PrintEdge(e) + PrintNode(n, st))
    ensures Peek(ts, pos).DASH? || Peek(ts, pos).LARROW?
    ensures ParseRelAndNode(ts, pos) == Ok(((e, n), pos + |PrintEdge(e)| + |PrintNode(n, st)|))
  {
    hide PrintDetail, PrintNode, ParseDetail, ParseNode, ParseRelAndNode, EdgeOk, NodeOk, At, SymText;
    var open, close := Sym(if e.direction.EdgeLeft? then LARROW else DASH), Sym(if e.direction.EdgeLeft? then DASH else ARROW);
    var detail, node := PrintDetail(e), PrintNode(n, st);
    RelAt(ts, pos, open, detail, close, node);
    var p := pos + 1 + |detail|;
    DetailBack(e, st.cc, ts, pos + 1);
    NodeBack(n, st, ts, p + 1);
    RelStep(ts, pos, e, p, n, p + 1 + |node|);
  }

  // ---------- chains ----------

  lemma ChainStep(ts: TokenList, pos: nat, pat: Pattern, e: EdgePattern, n: NodePattern, p: nat)
    requires ChainOk(pat) && (Peek(ts, pos).DASH? || Peek(ts, pos).LARROW?) && ParseRelAndNode(ts, pos) == Ok(((e, n), p))
    ensures ChainTail(ts, pos, pat) == ChainTail(ts, p, Pattern(pat.nodes + [n], pat.edges + [e]))
  {
  }

  /** The first i edges of a chain and the nodes they touch. */
  function Upto(p: Pattern, i: nat): Pattern
    requires ChainOk(p) && i <= |p.edges|
  {
    Pattern(p.nodes[..i + 1], p.edges[..i])
  }

  lemma ChainAt(p: Pattern, i: nat, st: Style, ts: TokenList, pos: nat)
    requires st.Ok() && ChainOk(p) && i < |p.edges| && At(ts, pos, PrintChain(p, i, st))
    ensures At(ts, pos, PrintEdge(p.edges[i]) + PrintNode(p.nodes[i + 1], st))
    ensures var len := |PrintEdge(p.edges[i])| + |PrintNode(p.nodes[i + 1], st)|;
            At(ts, pos + len, PrintChain(p, i + 1, st)) && |PrintChain(p, i, st)| == len + |PrintChain(p, i + 1, st)|
  {
    hide PrintEdge, PrintNode;
    AtSplit(ts, pos, PrintEdge(p.edges[i]) + PrintNode(p.nodes[i + 1], st), PrintChain(p, i + 1, st));
  }

  lemma {:induction false} ChainBack(p: Pattern, i: nat, st: Style, ts: TokenList, pos: nat)
    requires st.Ok() && PatternOk(p, st.cc) && i <= |p.edges| && At(ts, pos, PrintChain(p, i, st))
    requires var stop := Peek(ts, pos + |PrintChain(p, i, st)|); !stop.DASH? && !stop.LARROW?
    ensures ChainTail(ts, pos, Upto(p, i)) == Ok((p, pos + |PrintChain(p, i, st)|))
    decreases |p.edges| - i
  {
    hide PrintEdge, PrintNode, ParseRelAndNode, NodeOk, EdgeOk;
    if i == |p.edges| {
      assert Upto(p, i) == p;
    } else {
      ChainAt(p, i, st, ts, pos);
      var e, n := p.edges[i], p.nodes[i + 1];
      var q := pos + |PrintEdge(e)| + |PrintNode(n, st)|;
      RelBack(e, n, st, ts, pos);
      ChainStep(ts, pos, Upto(p, i), e, n, q);
      assert Upto(p, i + 1) == Pattern(Upto(p, i).nodes + [n], Upto(p, i).edges + [e]);
      ChainBack(p, i + 1, st, ts, q);
    }
  }

  predicate PatternStop(k: TokenType) {
    !k.DASH? && !k.LARROW?
  }

  lemma PatternBack(p: Pattern, st: Style, ts: TokenList, pos: nat)
    requires st.Ok() && PatternOk(p, st.cc) && At(ts, pos, PrintPattern(p, st))
    requires PatternStop(Peek(ts, pos + |PrintPattern(p, st)|))
    ensures ParsePattern(ts, pos) == Ok((p, pos + |PrintPattern(p, st)|))
  {
    hide PrintNode, ParseNode, ChainTail, PrintChain, NodeOk, EdgeOk;
    var node := PrintNode(p.nodes[0], st);
    AtSplit(ts, pos, node, PrintChain(p, 0, st));
    NodeBack(p.nodes[0], st, ts, pos);
    assert Upto(p, 0) == Pattern([p.nodes[0]], []);
    ChainBack(p, 0, st, ts, pos + |node|);
  }

  lemma PatternTailStep(ts: TokenList, pos: nat, acc: seq<Pattern>, pat: Pattern, p: nat)
    requires ChainsOk(acc) && ChainOk(pat) && Peek(ts, pos).COMMA? && ParsePattern(ts, pos + 1) == Ok((pat, p))
    ensures ChainsOk(acc + [pat]) && PatternTail(ts, pos, acc) == PatternTail(ts, p, acc + [pat])
  {
  }

  predicate AllPatternsOk(ps: seq<Pattern>, cc: Lexer.CharClass) {
    forall i | 0 <= i < |ps| :: PatternOk(ps[i], cc)
  }

  lemma PatternTailAt(ps: seq<Pattern>, st: Style, ts: TokenList, pos: nat)
    requires ps != [] && st.Ok() && AllPatternsOk(ps, st.cc) && At(ts, pos, PrintPatternTail(ps, st))
    ensures Peek(ts, pos).COMMA? && PatternOk(ps[0], st.cc) && AllPatternsOk(ps[1..], st.cc)
    ensures At(ts, pos + 1, PrintPattern(ps[0], st)) && At(ts, pos + 1 + |PrintPattern(ps[0], st)|, PrintPatternTail(ps[1..], st))
    ensures |PrintPatternTail(ps, st)| == 1 + |PrintPattern(ps[0], st)| + |PrintPatternTail(ps[1..], st)|
  {
    hide PrintPattern, NodeOk, EdgeOk;
    Led(ts, pos, Sym(COMMA), PrintPattern(ps[0], st), PrintPatternTail(ps[1..], st));
  }

  lemma PatternTailStops(ps: seq<Pattern>, st: Style, ts: TokenList, pos: nat)
    requires st.Ok() && AllPatternsOk(ps, st.cc) && At(ts, pos, PrintPatternTail(ps, st))
    requires PatternStop(Peek(ts, pos + |PrintPatternTail(ps, st)|))
    ensures PatternStop(Peek(ts, pos))
  {
    if ps != [] { PatternTailAt(ps, st, ts, pos); }
  }

  lemma {:induction false} PatternTailBack(ps: seq<Pattern>, st: Style, ts: TokenList, pos: nat, acc: seq<Pattern>)
    requires st.Ok() && AllPatternsOk(ps, st.cc) && ChainsOk(acc) && At(ts, pos, PrintPatternTail(ps, st))
    requires var stop := Peek(ts, pos + |PrintPatternTail(ps, st)|); PatternStop(stop) && !stop.COMMA?
    ensures PatternTail(ts, pos, acc) == Ok((acc + ps, pos + |PrintPatternTail(ps, st)|))
    decreases |ps|
  {
    hide PrintPattern, ParsePattern, NodeOk, EdgeOk;
    if ps == [] {
      assert acc + ps == acc;
    } else {
      PatternTailAt(ps, st, ts, pos);
      var p := pos + 1 + |PrintPattern(ps[0], st)|;
      PatternTailStops(ps[1..], st, ts, p);
      PatternBack(ps[0], st, ts, pos + 1);
      PatternTailStep(ts, pos, acc, ps[0], p);
      PatternTailBack(ps[1..], st, ts, p, acc + [ps[0]]);
      assert acc + [ps[0]] + ps[1..] == acc + ps;
    }
  }

  /** Parsing a printed list of patterns gives it back. */
  lemma PatternsBack(ps: seq<Pattern>, st: Style, ts: TokenList, pos: nat)
    requires st.Ok() && PatternsOk(ps, st.cc) && At(ts, pos, PrintPattern(ps[0], st) + PrintPatternTail(ps[1..], st))
    requires var stop := Peek(ts, pos + |PrintPattern(ps[0], st)| + |PrintPatternTail(ps[1..], st)|); PatternStop(stop) && !stop.COMMA?
    ensures ParsePatterns(ts, pos) == Ok((ps, pos + |PrintPattern(ps[0], st)| + |PrintPatternTail(ps[1..], st)|))
  {
    hide PrintPattern, ParsePattern, PatternTail, PrintPatternTail, NodeOk, EdgeOk;
    var first := PrintPattern(ps[0], st);
    AtSplit(ts, pos, first, PrintPatternTail(ps[1..], st));
    PatternTailStops(ps[1..], st, ts, pos + |first|);
    PatternBack(ps[0], st, ts, pos);
    PatternTailBack(ps[1..], st, ts, pos + |first|, [ps[0]]);
    assert [ps[0]] + ps[1..] == ps;
  }
}

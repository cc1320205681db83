/** Nothing but programs is read: whatever the parser accepts is written as what it gives. */
module KalGrammar {
  import opened Options
  import opened KalArith
  import opened KalAst
  import opened KalParser
  import opened KalRoundTrip

  /** The white space in front of something. */
  lemma {:induction false} Skipped(t: Input) returns (gap: nat)
    ensures t == Blank(gap) + Skip(t)
  {
    if t != [] && t[0].Space? {
      var n := Skipped(t[1..]);
      gap := n + 1;
      assert t == [Space] + t[1..];
    } else {
      gap := 0;
    }
  }

  /** A lexeme, its white space and the rest. */
  lemma TkIs(s: Input) returns (gap: nat)
    requires s != []
    ensures s == Tk(s[0], gap) + Skip(s[1..])
  {
    gap := Skipped(s[1..]);
    assert s == [s[0]] + (Blank(gap) + Skip(s[1..]));
  }

  // ----- expressions -----

  lemma {:induction false} PrimaryIs(s: Input) returns (e: Tree)
    requires Primary(s).Ok?
    ensures Formed(e) && Level(e) == 0 && Meaning(e) == Primary(s).value && s == Flat(e) + Primary(s).rest
    decreases |s|, 1
  {
    if s != [] && s[0].Int? {
      var gap := TkIs(s);
      e := Num(s[0].n, gap);
    } else if CallExpr(s).Ok? {
      e := CallIs(s);
    } else if Tok(s, '(').Some? {
      e := ParenIs(s);
    } else {
      var gap := TkIs(s);
      e := Name(s[0].w, gap);
    }
  }

  lemma {:induction false} ParenIs(s: Input) returns (e: Tree)
    requires Tok(s, '(').Some? && CmpExpr(Tok(s, '(').value).Ok? && Tok(CmpExpr(Tok(s, '(').value).rest, ')').Some?
    ensures e.Paren? && Formed(e) && Meaning(e) == CmpExpr(Tok(s, '(').value).value
    ensures s == Flat(e) + Tok(CmpExpr(Tok(s, '(').value).rest, ')').value
    decreases |s|, 0
  {
    var open := TkIs(s);
    var t := Tok(s, '(').value;
    var inner := CmpIs(t);
    var u := CmpExpr(t).rest;
    var close := TkIs(u);
    e := Paren(open, inner, close);
    Regroup(Tk(Ch('('), open), Flat(inner), Tk(Ch(')'), close), Tok(u, ')').value);
  }

  lemma {:induction false} CallIs(s: Input) returns (e: Tree)
    requires CallExpr(s).Ok?
    ensures e.Apply? && Formed(e) && Meaning(e) == CallExpr(s).value && s == Flat(e) + CallExpr(s).rest
    decreases |s|, 0
  {
    var gap := TkIs(s);
    var t := Ident(s).rest;
    var open := TkIs(t);
    var u := Tok(t, '(').value;
    var args := ArgsAre(u);
    var v := Args(u).rest;
    var close := TkIs(v);
    e := Apply(s[0].w, gap, open, args, close);
    CallSplit(e, CallExpr(s).rest);
  }

  lemma {:induction false} ArgsAre(s: Input) returns (args: seq<Arg>)
    requires Args(s).Ok?
    ensures (forall i :: 0 <= i < |args| ==> Formed(args[i].tree)) && Meanings(args) == Args(s).value && s == FlatArgs(args) + Args(s).rest
    decreases |s|, 5
  {
    if CmpExpr(s).Empty? {
      args := [];
      assert FlatArgs(args) + s == s;
    } else {
      var e := CmpIs(s);
      var t := CmpExpr(s).rest;
      var more := MoreArgsAre([CmpExpr(s).value], t);
      args := [Arg(0, e)] + more;
      assert args[1..] == more;
      Associate(Flat(e), FlatMore(more), Args(s).rest);
    }
  }

  lemma {:induction false} MoreArgsAre(acc: seq<Expr>, s: Input) returns (args: seq<Arg>)
    requires ArgsLoop(acc, s).Ok?
    ensures (forall i :: 0 <= i < |args| ==> Formed(args[i].tree)) && acc + Meanings(args) == ArgsLoop(acc, s).value
    ensures s == FlatMore(args) + ArgsLoop(acc, s).rest
    decreases |s|, 5
  {
    if Tok(s, ',').None? {
      args := [];
      assert FlatMore(args) + s == s && acc + Meanings(args) == acc;
    } else {
      var gap := TkIs(s);
      var t := Tok(s, ',').value;
      var e := CmpIs(t);
      var u := CmpExpr(t).rest;
      var more := MoreArgsAre(acc + [CmpExpr(t).value], u);
      args := [Arg(gap, e)] + more;
      assert args[1..] == more;
      Regrouped(acc, Meaning(e), Meanings(more));
      Regroup(Tk(Ch(','), gap), Flat(e), FlatMore(more), ArgsLoop(acc, s).rest);
    }
  }

  lemma {:induction false} MulIs(s: Input) returns (e: Tree)
    requires MulExpr(s).Ok?
    ensures Formed(e) && Level(e) <= 1 && Meaning(e) == MulExpr(s).value && s == Flat(e) + MulExpr(s).rest
    decreases |s|, 2
  {
    var first := PrimaryIs(s);
    e := MulGoesOn(first, Primary(s).rest);
  }

  /** A product so far, and what it goes on with. */
  lemma {:induction false} MulGoesOn(l: Tree, s: Input) returns (e: Tree)
    requires Formed(l) && Level(l) <= 1 && MulLoop(Meaning(l), s).Ok?
    ensures Formed(e) && Level(e) <= 1 && Meaning(e) == MulLoop(Meaning(l), s).value && Flat(l) + s == Flat(e) + MulLoop(Meaning(l), s).rest
    decreases |s|, 2
  {
    if Tok(s, '*').None? { return l; }
    var gap := TkIs(s);
    var t := Tok(s, '*').value;
    var r := PrimaryIs(t);
    var more := Join(Mul, l, gap, r);
    JoinSplit(more, Primary(t).rest);
    e := MulGoesOn(more, Primary(t).rest);
  }

  lemma {:induction false} AddIs(s: Input) returns (e: Tree)
    requires AddExpr(s).Ok?
    ensures Formed(e) && Level(e) <= 2 && Meaning(e) == AddExpr(s).value && s == Flat(e) + AddExpr(s).rest
    decreases |s|, 3
  {
    var first := MulIs(s);
    e := AddGoesOn(first, MulExpr(s).rest);
  }

  lemma {:induction false} AddGoesOn(l: Tree, s: Input) returns (e: Tree)
    requires Formed(l) && Level(l) <= 2 && AddLoop(Meaning(l), s).Ok?
    ensures Formed(e) && Level(e) <= 2 && Meaning(e) == AddLoop(Meaning(l), s).value && Flat(l) + s == Flat(e) + AddLoop(Meaning(l), s).rest
    decreases |s|, 3
  {
    if Tok(s, '+').None? && Tok(s, '-').None? { return l; }
    var gap := TkIs(s);
    var t := Skip(s[1..]);
    var r := MulIs(t);
    var more := Join(if Tok(s, '+').Some? then BinOp.Add else BinOp.Sub, l, gap, r);
    JoinSplit(more, MulExpr(t).rest);
    e := AddGoesOn(more, MulExpr(t).rest);
  }

  lemma OpIs(s: Input) returns (gap: nat)
    requires CmpOp(s).Some?
    ensures OpLevel(CmpOp(s).value.0) == 3 && s == (OpLex(CmpOp(s).value.0) + Blank(gap)) + CmpOp(s).value.1
  {
    var op := OpLex(CmpOp(s).value.0);
    if |op| == 2 {
      gap := Skipped(s[2..]);
      assert s == [s[0], s[1]] + s[2..];
    } else {
      gap := TkIs(s);
    }
  }

  lemma {:induction false} CmpIs(s: Input) returns (e: Tree)
    requires CmpExpr(s).Ok?
    ensures Formed(e) && Meaning(e) == CmpExpr(s).value && s == Flat(e) + CmpExpr(s).rest
    decreases |s|, 4
  {
    e := AddIs(s);
    var t := AddExpr(s).rest;
    if CmpOp(t).Some? {
      var gap := OpIs(t);
      var l, u := e, CmpOp(t).value.1;
      var r := AddIs(u);
      e := Join(CmpOp(t).value.0, l, gap, r);
      JoinSplit(e, AddExpr(u).rest);
    }
  }

  // ----- statements -----

  /** An expression, and the semicolon behind it. */
  lemma EndIs(rest: Input) returns (end: nat)
    requires Tok(rest, ';').Some?
    ensures rest == Tk(Ch(';'), end) + Tok(rest, ';').value
  {
    end := TkIs(rest);
  }

  lemma {:induction false} LineIs(s: Input) returns (l: Line)
    requires KalParser.Stmt(s).Ok?
    ensures FormedLine(l) && WellWorded(l) && LineMeaning(l) == KalParser.Stmt(s).value && s == FlatLine(l) + KalParser.Stmt(s).rest
    decreases |s|, 4
  {
    if Keyword(s, "var").Some? {
      l := VarIs(s);
    } else if Keyword(s, "return").Some? {
      l := ReturnIs(s);
    } else if Keyword(s, "while").Some? {
      l := WhileIs(s);
    } else if Keyword(s, "if").Some? {
      l := IfIs(s);
    } else if Attempt(AssignStmt(s)).Empty? {
      l := ExprIs(s);
    } else {
      l := AssignIs(s);
    }
  }

  lemma VarIs(s: Input) returns (l: Line)
    requires Keyword(s, "var").Some? && VarDeclStmt(Keyword(s, "var").value).Ok?
    ensures l.VarLine? && FormedLine(l) && LineMeaning(l) == VarDeclStmt(Keyword(s, "var").value).value
    ensures s == FlatLine(l) + VarDeclStmt(Keyword(s, "var").value).rest
  {
    var gap := TkIs(s);
    var t := Keyword(s, "var").value;
    var xgap := TkIs(t);
    var u := Ident(t).rest;
    if Tok(u, '=').None? {
      var end := EndIs(u);
      l := VarLine(gap, t[0].w, xgap, None, end);
    } else {
      var egap := TkIs(u);
      var v := Tok(u, '=').value;
      var e := CmpIs(v);
      var end := EndIs(CmpExpr(v).rest);
      l := VarLine(gap, t[0].w, xgap, Some(Arg(egap, e)), end);
      Regroup(Tk(Ch('='), egap), Flat(e), Tk(Ch(';'), end), VarDeclStmt(t).rest);
    }
    VarSplit(l, VarDeclStmt(t).rest);
  }

  lemma ReturnIs(s: Input) returns (l: Line)
    requires Keyword(s, "return").Some? && ReturnStmt(Keyword(s, "return").value).Ok?
    ensures l.ReturnLine? && FormedLine(l) && LineMeaning(l) == ReturnStmt(Keyword(s, "return").value).value
    ensures s == FlatLine(l) + ReturnStmt(Keyword(s, "return").value).rest
  {
    var gap := TkIs(s);
    var t := Keyword(s, "return").value;
    var e := CmpIs(t);
    var end := EndIs(CmpExpr(t).rest);
    l := ReturnLine(gap, e, end);
    Regroup(Tk(Word("return"), gap), Flat(e), Tk(Ch(';'), end), ReturnStmt(t).rest);
  }

  lemma AssignIs(s: Input) returns (l: Line)
    requires AssignStmt(s).Ok? && forall x :: IsStatementWord(x) ==> Keyword(s, x).None?
    ensures l.AssignLine? && FormedLine(l) && WellWorded(l) && LineMeaning(l) == AssignStmt(s).value && s == FlatLine(l) + AssignStmt(s).rest
  {
    var xgap := TkIs(s);
    var t := Ident(s).rest;
    var gap := TkIs(t);
    var u := Tok(t, '=').value;
    var e := CmpIs(u);
    var end := EndIs(CmpExpr(u).rest);
    l := AssignLine(s[0].w, xgap, gap, e, end);
    AssignSplit(l, AssignStmt(s).rest);
    assert Keyword(s, s[0].w).Some?;
  }

  lemma ExprIs(s: Input) returns (l: Line)
    requires ExpressionStmt(s).Ok? && forall x :: IsStatementWord(x) ==> Keyword(s, x).None?
    ensures l.ExprLine? && FormedLine(l) && WellWorded(l) && LineMeaning(l) == ExpressionStmt(s).value && s == FlatLine(l) + ExpressionStmt(s).rest
  {
    var e := CmpIs(s);
    var end := EndIs(CmpExpr(s).rest);
    l := ExprLine(e, end);
    Associate(Flat(e), Tk(Ch(';'), end), ExpressionStmt(s).rest);
    assert s[0] == Flat(e)[0];
    if s[0].Word? { assert Keyword(s, s[0].w).Some?; }
  }

  lemma {:induction false} WhileIs(s: Input) returns (l: Line)
    requires Keyword(s, "while").Some? && WhileStmt(Keyword(s, "while").value).Ok?
    ensures l.WhileLine? && FormedLine(l) && WellWorded(l) && LineMeaning(l) == WhileStmt(Keyword(s, "while").value).value
    ensures s == FlatLine(l) + WhileStmt(Keyword(s, "while").value).rest
    decreases |s|, 3
  {
    var gap := TkIs(s);
    var t := Keyword(s, "while").value;
    var c := CmpIs(t);
    var body := BracesAre(CmpExpr(t).rest);
    l := WhileLine(gap, c, body);
    Regroup(Tk(Word("while"), gap), Flat(c), FlatBraces(body), WhileStmt(t).rest);
  }

  lemma {:induction false} IfIs(s: Input) returns (l: Line)
    requires Keyword(s, "if").Some? && IfStmt(Keyword(s, "if").value).Ok?
    ensures l.IfLine? && FormedLine(l) && WellWorded(l) && LineMeaning(l) == IfStmt(Keyword(s, "if").value).value
    ensures s == FlatLine(l) + IfStmt(Keyword(s, "if").value).rest
    decreases |s|, 3
  {
    var gap := TkIs(s);
    var t := Keyword(s, "if").value;
    var c := CmpIs(t);
    var u := CmpExpr(t).rest;
    var thn := BracesAre(u);
    var v := Block(u).rest;
    var elseGap := TkIs(v);
    var els := BracesAre(Keyword(v, "else").value);
    l := IfLine(gap, c, thn, elseGap, els);
    IfSplit(l, IfStmt(t).rest);
  }

  lemma {:induction false} BracesAre(s: Input) returns (b: Braces)
    requires Block(s).Ok?
    ensures FormedBraces(b) && BracesWorded(b) && BracesMeaning(b) == Block(s).value && s == FlatBraces(b) + Block(s).rest
    decreases |s|, 2
  {
    var open := TkIs(s);
    var t := Tok(s, '{').value;
    var lines := LinesAre(t);
    var close := TkIs(Stmts(t).rest);
    b := Braces(open, lines, close);
    BracesSplit(b, Block(s).rest);
  }

  lemma {:induction false} LinesAre(s: Input) returns (ls: seq<Line>)
    requires Stmts(s).Ok?
    ensures FormedLines(ls) && AllWellWorded(ls) && LinesMeaning(ls) == Stmts(s).value && s == FlatLines(ls) + Stmts(s).rest
    decreases |s|, 5
  {
    if KalParser.Stmt(s).Empty? {
      ls := [];
      assert FlatLines(ls) + s == s;
    } else {
      var first := LineIs(s);
      var t := KalParser.Stmt(s).rest;
      var more := LinesAre(t);
      ls := [first] + more;
      assert ls[1..] == more;
      LinesSplit(ls, Stmts(s).rest);
    }
  }

  // ----- programs -----

  lemma {:induction false} MoreParamsAre(acc: seq<string>, s: Input) returns (ps: seq<Param>)
    requires ParamsLoop(acc, s).Ok?
    ensures acc + ParamNames(ps) == ParamsLoop(acc, s).value && s == FlatMoreParams(ps) + ParamsLoop(acc, s).rest
    decreases |s|
  {
    if Tok(s, ',').None? {
      ps := [];
      assert FlatMoreParams(ps) + s == s && acc + ParamNames(ps) == acc;
    } else {
      var comma := TkIs(s);
      var t := Tok(s, ',').value;
      var gap := TkIs(t);
      var u := Ident(t).rest;
      var more := MoreParamsAre(acc + [t[0].w], u);
      ps := [Param(comma, t[0].w, gap)] + more;
      assert ps[1..] == more;
      Regrouped(acc, t[0].w, ParamNames(more));
      Regroup(Tk(Ch(','), comma), Tk(Word(t[0].w), gap), FlatMoreParams(more), ParamsLoop(acc, s).rest);
    }
  }

  lemma ParamsAre(s: Input) returns (ps: seq<Param>)
    requires Params(s).Ok?
    ensures ParamNames(ps) == Params(s).value && s == FlatParams(ps) + Params(s).rest
  {
    if !Ident(s).Ok? {
      ps := [];
      assert FlatParams(ps) + s == s;
    } else {
      var gap := TkIs(s);
      var t := Ident(s).rest;
      var more := MoreParamsAre([s[0].w], t);
      ps := [Param(0, s[0].w, gap)] + more;
      assert ps[1..] == more;
      Associate(Tk(Word(s[0].w), gap), FlatMoreParams(more), Params(s).rest);
    }
  }

  lemma DefIs(s: Input) returns (d: Def)
    requires FuncDef(s).Ok?
    ensures FormedBraces(d.body) && BracesWorded(d.body) && DefMeaning(d) == FuncDef(s).value && s == FlatDef(d) + FuncDef(s).rest
  {
    var gap := TkIs(s);
    var t := Keyword(s, "def").value;
    var ngap := TkIs(t);
    var u := Ident(t).rest;
    var open := TkIs(u);
    var v := Tok(u, '(').value;
    var ps := ParamsAre(v);
    var w := Params(v).rest;
    var close := TkIs(w);
    var body := BracesAre(Tok(w, ')').value);
    d := Def(gap, t[0].w, ngap, open, ps, close, body);
    DefSplit(d, FuncDef(s).rest);
  }

  lemma {:induction false} DefsAre(s: Input) returns (ds: seq<Def>)
    requires FuncDefs(s).Ok?
    ensures FormedDefs(ds) && DefsWorded(ds) && DefsMeaning(ds) == FuncDefs(s).value && s == FlatDefs(ds) + FuncDefs(s).rest
    decreases |s|
  {
    if FuncDef(s).Empty? {
      ds := [];
      assert FlatDefs(ds) + s == s;
    } else {
      var first := DefIs(s);
      var t := FuncDef(s).rest;
      var more := DefsAre(t);
      ds := [first] + more;
      DefThen(first, more);
      Associate(FlatDef(first), FlatDefs(more), FuncDefs(s).rest);
    }
  }

  lemma {:induction false} DefThen(d: Def, more: seq<Def>)
    requires FormedBraces(d.body) && BracesWorded(d.body) && FormedDefs(more) && DefsWorded(more)
    ensures var ds := [d] + more;
            && FormedDefs(ds) && DefsWorded(ds) && DefsMeaning(ds) == [DefMeaning(d)] + DefsMeaning(more)
            && FlatDefs(ds) == FlatDef(d) + FlatDefs(more)
  {
    assert ([d] + more)[1..] == more;
  }

  lemma Accepted(s: Input) returns (p: KalRoundTrip.Text)
    requires ParseProgram(s).Ok? && ParseProgram(s).rest == []
    ensures Writes(p, ParseProgram(s).value) && FlatText(p) == s
  {
    var lead := Skipped(s);
    var defs := DefsAre(Skip(s));
    assert FlatDefs(defs) + [] == FlatDefs(defs);
    p := Text(lead, defs);
  }

  /** The parser gives a program exactly for the ways to write it. */
  lemma AcceptedIff(s: Input, ds: seq<Definition>)
    ensures ParseProgram(s) == Ok(ds, []) <==> exists p: KalRoundTrip.Text :: Writes(p, ds) && FlatText(p) == s
  {
    if ParseProgram(s) == Ok(ds, []) {
      var p := Accepted(s);
    }
    if p: KalRoundTrip.Text :| Writes(p, ds) && FlatText(p) == s {
      TextBackIff(p);
    }
  }
}

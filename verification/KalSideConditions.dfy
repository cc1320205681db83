/** When the compiler accepts a function, when its output passes the terminator rule of the IR verifier,
    and when the re-evaluated condition of a loop reads the variables it should. */
module KalSideConditions {
  import opened Options
  import opened KalArith
  import opened KalAst
  import opened KalFromAst
  import opened KalFromAstCorrect
  import KalIR
  import opened KalToLlvm
  import opened KalTerminators
  import KalConvertSteps
  import opened KalPipeline

  // ----- names: which functions can be lowered -----

  /** Every name is declared before it is used, counting the names in `names`. */
  predicate Scoped(stmts: seq<Stmt>, names: set<string>)
    decreases stmts, 0
  {
    stmts != [] ==> ScopedOne(stmts[0], names) && Scoped(stmts[1..], names + Declared(stmts[0]))
  }

  function Declared(s: Stmt): set<string> {
    if s.VarDecl? then {s.name} else {}
  }

  predicate ScopedOne(s: Stmt, names: set<string>)
    decreases s
  {
    match s
    case VarDecl(x, init) => init.Some? ==> Vars(init.value) <= names + {x}
    case Assign(x, e) => x in names && Vars(e) <= names
    case Return(e) => Vars(e) <= names
    case ExprStmt(e) => Vars(e) <= names
    case If(c, thn, els) => Vars(c) <= names && Scoped(thn, names) && Scoped(els, names)
    case While(c, body) => Vars(c) <= names && Scoped(body, names)
  }

  lemma {:induction false} ExprLowers(e: Expr, vars: VarMap, n: Vid)
    ensures CodeOfExpr(e, vars, n).Ok? <==> Vars(e) <= vars.Keys
    decreases e
  {
    match e
    case Integer(_) =>
    case Variable(_) =>
    case Binary(_, l, r) =>
      ExprLowers(l, vars, n);
      var c := CodeOfExpr(l, vars, n);
      if c.Ok? { ExprLowers(r, vars, c.value.next); }
    case Call(_, args) => ArgsLower(args, vars, n);
  }

  lemma {:induction false} ArgsLower(es: seq<Expr>, vars: VarMap, n: Vid)
    ensures CodeOfArgs(es, vars, n).Ok? <==> VarsOfAll(es) <= vars.Keys
    decreases es
  {
    if es != [] {
      ExprLowers(es[0], vars, n);
      var c := CodeOfExpr(es[0], vars, n);
      if c.Ok? { ArgsLower(es[1..], vars, c.value.next); }
    }
  }

  lemma {:induction false} StmtsLower(stmts: seq<Stmt>, vars: VarMap, n: Vid)
    ensures CodeOfStmts(stmts, vars, n).Ok? <==> Scoped(stmts, vars.Keys)
    ensures CodeOfStmts(stmts, vars, n).Ok? ==> vars.Keys <= CodeOfStmts(stmts, vars, n).value.vars.Keys
    decreases stmts, 0
  {
    if stmts != [] {
      StmtLowers(stmts[0], vars, n);
      var s := CodeOfStmt(stmts[0], vars, n);
      if s.Ok? { StmtsLower(stmts[1..], s.value.vars, s.value.next); }
    }
  }

  lemma {:induction false} StmtLowers(s: Stmt, vars: VarMap, n: Vid)
    ensures CodeOfStmt(s, vars, n).Ok? <==> ScopedOne(s, vars.Keys)
    ensures CodeOfStmt(s, vars, n).Ok? ==> CodeOfStmt(s, vars, n).value.vars.Keys == vars.Keys + Declared(s)
    decreases s
  {
    match s
    case VarDecl(x, init) =>
      assert vars[x := n].Keys == vars.Keys + {x};
      if init.Some? { ExprLowers(init.value, vars[x := n], n + 1); }
    case Assign(_, e) => ExprLowers(e, vars, n);
    case Return(e) => ExprLowers(e, vars, n);
    case ExprStmt(e) => ExprLowers(e, vars, n);
    case If(c, thn, els) =>
      ExprLowers(c, vars, n);
      var k := CodeOfExpr(c, vars, n);
      if k.Ok? {
        StmtsLower(thn, vars, k.value.next);
        var t := CodeOfBranch(thn, vars, k.value.next);
        if t.Ok? { StmtsLower(els, vars, t.value.next); }
      }
    case While(c, body) =>
      ExprLowers(c, vars, n + 1);
      var k := CodeOfExpr(c, vars, n + 1);
      if k.Ok? {
        StmtsLower(body, vars, k.value.next);
        var b := CodeOfStmts(body, vars, k.value.next);
        if b.Ok? { ExprLowers(c, b.value.vars, b.value.next); }
      }
  }

  lemma {:induction false} SpilledNames(params: seq<string>, i: nat, vars: VarMap, n: Vid)
    requires i <= |params|
    ensures SpillFrom(params, i, vars, n).vars.Keys == vars.Keys + set x | x in params[i..]
    decreases |params| - i
  {
    if i < |params| {
      assert params[i..] == [params[i]] + params[i + 1..];
      SpilledNames(params, i + 1, vars[params[i] := n], n + 1);
    }
  }

  /** A function is lowered exactly when its names are declared before they are used. */
  lemma LowersIffScoped(f: Function)
    ensures CodeOfFunction(f).Ok? <==> Scoped(f.body, set x | x in f.params)
  {
    var p := SpillFrom(f.params, 0, map[], |f.params|);
    SpilledNames(f.params, 0, map[], |f.params|);
    assert f.params[0..] == f.params;
    assert p.vars.Keys == set x | x in f.params;
    StmtsLower(f.body, p.vars, p.next);
  }

  // ----- errors: which name is reported -----

  /** The variables of an expression, in the order in which they are written. */
  function Uses(e: Expr): seq<string>
    decreases e
  {
    match e
    case Integer(_) => []
    case Variable(x) => [x]
    case Binary(_, l, r) => Uses(l) + Uses(r)
    case Call(_, args) => UsesOfAll(args)
  }

  function UsesOfAll(es: seq<Expr>): seq<string>
    decreases es
  {
    if es == [] then [] else Uses(es[0]) + UsesOfAll(es[1..])
  }

  predicate FirstAt(xs: seq<string>, names: set<string>, i: nat) {
    i < |xs| && xs[i] !in names && forall j :: 0 <= j < i ==> xs[j] in names
  }

  /** The first of these names that is not declared. */
  function FirstOutside(xs: seq<string>, names: set<string>): (r: Option<LowerError>)
    ensures r.None? ==> forall i :: 0 <= i < |xs| ==> xs[i] in names
    ensures r.Some? ==> exists i: nat :: FirstAt(xs, names, i) && r == Some(ReferenceToUndeclared(xs[i]))
  {
    if xs == [] then None
    else if xs[0] !in names then
      assert FirstAt(xs, names, 0);
      Some(ReferenceToUndeclared(xs[0]))
    else
      var r := FirstOutside(xs[1..], names);
      assert forall i: nat :: FirstAt(xs[1..], names, i) ==> FirstAt(xs, names, i + 1);
      r
  }

  function OrElse(a: Option<LowerError>, b: Option<LowerError>): Option<LowerError> {
    if a.Some? then a else b
  }

  /** The first use of an undeclared name in the order of the text; a value comes before the variable it is assigned to. */
  function Fault(s: Stmt, names: set<string>): Option<LowerError>
    decreases s
  {
    match s
    case VarDecl(x, init) => if init.Some? then FirstOutside(Uses(init.value), names + {x}) else None
    case Assign(x, e) => OrElse(FirstOutside(Uses(e), names), if x in names then None else Some(AssignToUndeclared(x)))
    case Return(e) => FirstOutside(Uses(e), names)
    case ExprStmt(e) => FirstOutside(Uses(e), names)
    case If(c, thn, els) => OrElse(FirstOutside(Uses(c), names), OrElse(FirstFault(thn, names), FirstFault(els, names)))
    case While(c, body) => OrElse(FirstOutside(Uses(c), names), FirstFault(body, names))
  }

  function FirstFault(stmts: seq<Stmt>, names: set<string>): Option<LowerError>
    decreases stmts, 0
  {
    if stmts == [] then None else OrElse(Fault(stmts[0], names), FirstFault(stmts[1..], names + Declared(stmts[0])))
  }

  lemma {:induction false} OutsideThen(xs: seq<string>, ys: seq<string>, names: set<string>)
    ensures FirstOutside(xs + ys, names) == OrElse(FirstOutside(xs, names), FirstOutside(ys, names))
  {
    if xs == [] {
      assert xs + ys == ys;
    } else {
      assert (xs + ys)[1..] == xs[1..] + ys;
      OutsideThen(xs[1..], ys, names);
    }
  }

  predicate Reports<T>(r: Result<T>, fault: Option<LowerError>) {
    match r
    case Ok(_) => fault.None?
    case Err(x) => fault == Some(x)
  }

  lemma {:induction false} ExprReports(e: Expr, vars: VarMap, n: Vid)
    ensures Reports(CodeOfExpr(e, vars, n), FirstOutside(Uses(e), vars.Keys))
    decreases e
  {
    match e
    case Integer(_) =>
    case Variable(_) =>
    case Binary(_, l, r) =>
      ExprReports(l, vars, n);
      OutsideThen(Uses(l), Uses(r), vars.Keys);
      var c := CodeOfExpr(l, vars, n);
      if c.Ok? { ExprReports(r, vars, c.value.next); }
    case Call(_, args) => ArgsReport(args, vars, n);
  }

  lemma {:induction false} ArgsReport(es: seq<Expr>, vars: VarMap, n: Vid)
    ensures Reports(CodeOfArgs(es, vars, n), FirstOutside(UsesOfAll(es), vars.Keys))
    decreases es
  {
    if es != [] {
      ExprReports(es[0], vars, n);
      OutsideThen(Uses(es[0]), UsesOfAll(es[1..]), vars.Keys);
      var c := CodeOfExpr(es[0], vars, n);
      if c.Ok? { ArgsReport(es[1..], vars, c.value.next); }
    }
  }

  lemma {:induction false} StmtsReport(stmts: seq<Stmt>, vars: VarMap, n: Vid)
    ensures Reports(CodeOfStmts(stmts, vars, n), FirstFault(stmts, vars.Keys))
    decreases stmts, 0
  {
    if stmts != [] {
      StmtReports(stmts[0], vars, n);
      StmtLowers(stmts[0], vars, n);
      var s := CodeOfStmt(stmts[0], vars, n);
      if s.Ok? { StmtsReport(stmts[1..], s.value.vars, s.value.next); }
    }
  }

  lemma {:induction false} StmtReports(s: Stmt, vars: VarMap, n: Vid)
    ensures Reports(CodeOfStmt(s, vars, n), Fault(s, vars.Keys))
    decreases s
  {
    match s
    case VarDecl(x, init) =>
      assert vars[x := n].Keys == vars.Keys + {x};
      if init.Some? { ExprReports(init.value, vars[x := n], n + 1); }
    case Assign(_, e) => ExprReports(e, vars, n);
    case Return(e) => ExprReports(e, vars, n);
    case ExprStmt(e) => ExprReports(e, vars, n);
    case If(c, thn, els) =>
      ExprReports(c, vars, n);
      var k := CodeOfExpr(c, vars, n);
      if k.Ok? {
        BranchReports(thn, vars, k.value.next);
        var t := CodeOfBranch(thn, vars, k.value.next);
        if t.Ok? { BranchReports(els, vars, t.value.next); }
      }
    case While(c, body) =>
      ExprReports(c, vars, n + 1);
      var k := CodeOfExpr(c, vars, n + 1);
      if k.Ok? {
        ExprLowers(c, vars, n + 1);
        LoopReports(c, body, n, vars, k.value.next);
      }
  }

  lemma {:induction false} BranchReports(stmts: seq<Stmt>, vars: VarMap, n: Vid)
    ensures Reports(CodeOfBranch(stmts, vars, n), FirstFault(stmts, vars.Keys))
    decreases stmts, 1
  {
    StmtsReport(stmts, vars, n);
  }

  /** Evaluated again, the condition has no names that it did not have before. */
  lemma {:induction false} LoopReports(c: Expr, body: seq<Stmt>, slot: Vid, vars: VarMap, n: Vid)
    requires Vars(c) <= vars.Keys
    ensures Reports(CodeOfLoopBody(c, body, slot, vars, n), FirstFault(body, vars.Keys))
    decreases body, 1
  {
    StmtsReport(body, vars, n);
    StmtsLower(body, vars, n);
    var b := CodeOfStmts(body, vars, n);
    if b.Ok? { ExprLowers(c, b.value.vars, b.value.next); }
  }

  /** What is wrong with a function that cannot be lowered is the first use of an undeclared name in it. */
  lemma ReportsFirstFault(f: Function, x: LowerError)
    ensures CodeOfFunction(f) == Err(x) <==> FirstFault(f.body, set p | p in f.params) == Some(x)
  {
    SpilledNames(f.params, 0, map[], |f.params|);
    var spilled := SpillFrom(f.params, 0, map[], |f.params|);
    assert f.params[0..] == f.params;
    assert spilled.vars.Keys == set p | p in f.params;
    StmtsReport(f.body, spilled.vars, spilled.next);
  }

  // ----- terminators: which functions the verifier accepts -----

  /** A return is the last statement of its list, everywhere. */
  predicate ReturnsLast(stmts: seq<Stmt>)
    decreases stmts
  {
    forall i :: 0 <= i < |stmts| ==> (stmts[i].Return? ==> i == |stmts| - 1) && NestedReturnsLast(stmts[i])
  }

  predicate NestedReturnsLast(s: Stmt)
    decreases s
  {
    match s
    case If(_, thn, els) => ReturnsLast(thn) && ReturnsLast(els)
    case While(_, body) => ReturnsLast(body)
    case _ => true
  }

  lemma {:induction false} ExprNoTerms(e: Expr, vars: VarMap, n: Vid)
    requires CodeOfExpr(e, vars, n).Ok?
    ensures NoTerms(CodeOfExpr(e, vars, n).value.ops)
    decreases e
  {
    match e
    case Integer(_) =>
    case Variable(_) =>
    case Binary(_, l, r) =>
      ExprNoTerms(l, vars, n);
      ExprNoTerms(r, vars, CodeOfExpr(l, vars, n).value.next);
    case Call(_, args) => ArgsNoTerms(args, vars, n);
  }

  lemma {:induction false} ArgsNoTerms(es: seq<Expr>, vars: VarMap, n: Vid)
    requires CodeOfArgs(es, vars, n).Ok?
    ensures NoTerms(CodeOfArgs(es, vars, n).value.ops)
    decreases es
  {
    if es != [] {
      ExprNoTerms(es[0], vars, n);
      ArgsNoTerms(es[1..], vars, CodeOfExpr(es[0], vars, n).value.next);
    }
  }

  lemma {:induction false} ReturnsLastFirst(stmts: seq<Stmt>)
    requires stmts != []
    ensures ReturnsLast(stmts) <==> (stmts[0].Return? ==> |stmts| == 1) && NestedReturnsLast(stmts[0]) && ReturnsLast(stmts[1..])
  {
    var rest := stmts[1..];
    assert forall i :: 0 <= i < |rest| ==> rest[i] == stmts[i + 1];
    if ReturnsLast(rest) && NestedReturnsLast(stmts[0]) && (stmts[0].Return? ==> |stmts| == 1) {
      forall i | 0 <= i < |stmts| ensures (stmts[i].Return? ==> i == |stmts| - 1) && NestedReturnsLast(stmts[i]) {
        if i > 0 { assert stmts[i] == rest[i - 1]; }
      }
    }
  }

  lemma {:induction false} StmtsTerms(stmts: seq<Stmt>, vars: VarMap, n: Vid)
    requires CodeOfStmts(stmts, vars, n).Ok?
    ensures TermsLast(CodeOfStmts(stmts, vars, n).value.ops) <==> ReturnsLast(stmts)
    decreases stmts, 0
  {
    if stmts != [] {
      var s := CodeOfStmt(stmts[0], vars, n).value;
      var rest := CodeOfStmts(stmts[1..], s.vars, s.next).value;
      StmtTerms(stmts[0], vars, n);
      StmtsTerms(stmts[1..], s.vars, s.next);
      ReturnsLastFirst(stmts);
      TermsConcat(s.ops, rest.ops);
      if |stmts| == 1 {
        assert rest.ops == [] && s.ops + rest.ops == s.ops;
      } else {
        var second := CodeOfStmt(stmts[1], s.vars, s.next).value;
        LastOp(stmts[1], s.vars, s.next);
        assert stmts[1..][0] == stmts[1] && rest.ops != [];
      }
    }
  }

  lemma {:induction false} StmtTerms(s: Stmt, vars: VarMap, n: Vid)
    requires CodeOfStmt(s, vars, n).Ok?
    ensures var ops := CodeOfStmt(s, vars, n).value.ops;
            && (TermsLast(ops) <==> NestedReturnsLast(s))
            && (NoTerms(ops) <==> NestedReturnsLast(s) && !s.Return?)
    decreases s
  {
    match s
    case VarDecl(x, init) => if init.Some? { ExprNoTerms(init.value, vars[x := n], n + 1); }
    case Assign(_, e) => ExprNoTerms(e, vars, n);
    case Return(e) =>
      ExprNoTerms(e, vars, n);
      var c := CodeOfExpr(e, vars, n).value;
      assert (c.ops + [KalIR.KRet(c.v)])[|c.ops|] == KalIR.KRet(c.v);
    case ExprStmt(e) => ExprNoTerms(e, vars, n);
    case If(_, _, _) => IfTerms(s, vars, n);
    case While(_, _) => WhileTerms(s, vars, n);
  }

  lemma {:induction false} IfTerms(s: Stmt, vars: VarMap, n: Vid)
    requires s.If? && CodeOfStmt(s, vars, n).Ok?
    ensures var ops := CodeOfStmt(s, vars, n).value.ops; (TermsLast(ops) <==> NestedReturnsLast(s)) && (NoTerms(ops) <==> NestedReturnsLast(s))
    decreases s, 0
  {
    var k := CodeOfExpr(s.cond, vars, n).value;
    var t := CodeOfBranch(s.thenBody, vars, k.next).value;
    var e := CodeOfBranch(s.elseBody, vars, t.next).value;
    ExprNoTerms(s.cond, vars, n);
    BranchTerms(s.thenBody, vars, k.next);
    BranchTerms(s.elseBody, vars, t.next);
    OneNested(k.ops, KalIR.KIf(k.v, t.ops, e.ops));
  }

  lemma {:induction false} WhileTerms(s: Stmt, vars: VarMap, n: Vid)
    requires s.While? && CodeOfStmt(s, vars, n).Ok?
    ensures var ops := CodeOfStmt(s, vars, n).value.ops; (TermsLast(ops) <==> NestedReturnsLast(s)) && (NoTerms(ops) <==> NestedReturnsLast(s))
    decreases s, 0
  {
    var k := CodeOfExpr(s.cond, vars, n + 1).value;
    var b := CodeOfLoopBody(s.cond, s.body, n, vars, k.next).value;
    var pre := [KalIR.KDecl(n)] + k.ops + [KalIR.KStore(n, k.v)];
    ExprNoTerms(s.cond, vars, n + 1);
    LoopBodyTerms(s.cond, s.body, n, vars, k.next);
    OneNested(pre, KalIR.KWhile(n, b.ops));
    assert pre + [KalIR.KWhile(n, b.ops)] == [KalIR.KDecl(n)] + k.ops + [KalIR.KStore(n, k.v), KalIR.KWhile(n, b.ops)];
  }

  /** An op with regions behind plain code. */
  lemma {:induction false} OneNested(pre: seq<Op>, op: Op)
    requires NoTerms(pre) && !IsTerminator(op)
    ensures TermsLast(pre + [op]) <==> NestedTermsLast(op)
    ensures NoTerms(pre + [op]) <==> NestedTermsLast(op)
  {
    TermsConcat(pre, [op]);
    assert [op][0] == op;
  }

  lemma {:induction false} TermsYield(ops: seq<Op>)
    requires !EndsInTerminator(ops)
    ensures TermsLast(ops + [KalIR.KYield]) <==> TermsLast(ops)
  {
    TermsConcat(ops, [KalIR.KYield]);
    assert [KalIR.KYield][0] == KalIR.KYield;
    if ops != [] && TermsLast(ops) { assert !IsTerminator(ops[|ops| - 1]); }
  }

  lemma {:induction false} BranchTerms(stmts: seq<Stmt>, vars: VarMap, n: Vid)
    requires CodeOfBranch(stmts, vars, n).Ok?
    ensures TermsLast(CodeOfBranch(stmts, vars, n).value.ops) <==> ReturnsLast(stmts)
    decreases stmts, 1
  {
    StmtsTerms(stmts, vars, n);
    TerminatedMeansReturn(stmts, vars, n);
    var b := CodeOfStmts(stmts, vars, n).value;
    if !b.terminated { TermsYield(b.ops); }
  }

  lemma {:induction false} LoopBodyTerms(cond: Expr, body: seq<Stmt>, slot: Vid, vars: VarMap, n: Vid)
    requires CodeOfLoopBody(cond, body, slot, vars, n).Ok?
    ensures TermsLast(CodeOfLoopBody(cond, body, slot, vars, n).value.ops) <==> ReturnsLast(body)
    decreases body, 1
  {
    StmtsTerms(body, vars, n);
    TerminatedMeansReturn(body, vars, n);
    var b := CodeOfStmts(body, vars, n).value;
    if !b.terminated {
      var c := CodeOfExpr(cond, b.vars, b.next).value;
      ExprNoTerms(cond, b.vars, b.next);
      var tail := c.ops + [KalIR.KStore(slot, c.v), KalIR.KYield];
      ReevaluateTerms(c.ops, KalIR.KStore(slot, c.v));
      TermsConcat(b.ops, tail);
      TermsYield(b.ops);
      TermsConcat(b.ops, [KalIR.KYield]);
      assert b.ops + tail == b.ops + c.ops + [KalIR.KStore(slot, c.v), KalIR.KYield];
    }
  }

  lemma {:induction false} ReevaluateTerms(ops: seq<Op>, store: Op)
    requires NoTerms(ops) && store.KStore?
    ensures TermsLast(ops + [store, KalIR.KYield]) && TermsLast([KalIR.KYield])
  {
  }

  lemma {:induction false} SpillNoTerms(params: seq<string>, i: nat, vars: VarMap, n: Vid)
    requires i <= |params|
    ensures NoTerms(SpillFrom(params, i, vars, n).ops)
    decreases |params| - i
  {
    if i < |params| { SpillNoTerms(params, i + 1, vars[params[i] := n], n + 1); }
  }

  /** The entry block and all nested regions hold one terminator each, at the end, exactly when returns come last. */
  lemma CleanIffReturnsLast(f: Function)
    requires CodeOfFunction(f).Ok?
    ensures Clean(CodeOfFunction(f).value) <==> ReturnsLast(f.body)
  {
    var p := SpillFrom(f.params, 0, map[], |f.params|);
    var b := CodeOfStmts(f.body, p.vars, p.next).value;
    SpillNoTerms(f.params, 0, map[], |f.params|);
    StmtsTerms(f.body, p.vars, p.next);
    TermsConcat(p.ops, b.ops);
    var ops := p.ops + b.ops;
    if b.ops == [] { assert ops == p.ops; }
    if !EndsInTerminator(ops) {
      var tail := [KalIR.KConst(b.next, 0), KalIR.KRet(b.next)];
      TermsConcat(ops, tail);
      TermsYield(ops);
      TermsConcat(ops, [KalIR.KYield]);
      assert TermsLast(tail) && TermsLast([KalIR.KYield]);
    }
    OneBlockClean(CodeOfFunction(f).value);
  }

  lemma OneBlockClean(fn: KalIR.Func)
    requires fn.blocks.Keys == {0}
    ensures Clean(fn) <==> TermsLast(fn.blocks[0].ops)
  {
    assert 0 in fn.blocks;
  }

  /** The same for the compiled function: every block of its graph ends in its only terminator exactly when
      every return of the source is the last statement of its list. */
  lemma CompiledCleanIffReturnsLast(f: Function, fn: KalIR.Func)
    requires Compiled(f, fn)
    ensures Clean(fn) <==> ReturnsLast(f.body)
  {
    CleanIffReturnsLast(f);
  }

  /** `{ return 0; return 1; }` */
  const TwoReturns: Function := Function([], [Return(Integer(0)), Return(Integer(1))])

  /** Its lowering, and whatever that is compiled to, has a terminator in the middle of a block. */
  lemma TwoReturnsNotClean()
    ensures CodeOfFunction(TwoReturns) == Ok(OneBlock(0, [KalIR.KConst(0, 0), KalIR.KRet(0), KalIR.KConst(1, 1), KalIR.KRet(1)], 2))
    ensures !Clean(CodeOfFunction(TwoReturns).value) && forall fn :: Compiled(TwoReturns, fn) ==> !Clean(fn)
  {
    var first, second := [KalIR.KConst(0, 0)] + [KalIR.KRet(0)], [KalIR.KConst(1, 1)] + [KalIR.KRet(1)];
    var vars: VarMap := map[];
    var none: seq<Stmt> := [];
    assert TwoReturns.body[1..] == [Return(Integer(1))] && [Return(Integer(1))][1..] == none;
    assert CodeOfStmt(Return(Integer(0)), vars, 0) == Ok(StmtCode(first, vars, 1, true));
    assert CodeOfStmt(Return(Integer(1)), vars, 1) == Ok(StmtCode(second, vars, 2, true));
    assert CodeOfStmts([Return(Integer(1))], vars, 1) == Ok(StmtCode(second + [], vars, 2, true));
    assert [] + (first + (second + [])) == [KalIR.KConst(0, 0), KalIR.KRet(0), KalIR.KConst(1, 1), KalIR.KRet(1)];
    assert !ReturnsLast(TwoReturns.body) by { assert TwoReturns.body[0].Return?; }
    CleanIffReturnsLast(TwoReturns);
  }

  // ----- loop conditions: which slots the re-evaluation reads -----

  /** The slots that code loads from, in order. */
  function Loads(ops: seq<Op>): seq<Vid> {
    if ops == [] then [] else (if ops[0].KLoad? then [ops[0].slot] else []) + Loads(ops[1..])
  }

  lemma {:induction false} LoadsConcat(xs: seq<Op>, ys: seq<Op>)
    ensures Loads(xs + ys) == Loads(xs) + Loads(ys)
  {
    if xs == [] {
      assert xs + ys == ys;
    } else {
      assert (xs + ys)[0] == xs[0] && (xs + ys)[1..] == xs[1..] + ys;
      LoadsConcat(xs[1..], ys);
    }
  }

  /** The variables of an expression in the order they are read. */
  function Reads(e: Expr): seq<string>
    decreases e
  {
    match e
    case Integer(_) => []
    case Variable(x) => [x]
    case Binary(_, l, r) => Reads(l) + Reads(r)
    case Call(_, args) => ReadsAll(args)
  }

  function ReadsAll(es: seq<Expr>): seq<string>
    decreases es
  {
    if es == [] then [] else Reads(es[0]) + ReadsAll(es[1..])
  }

  lemma {:induction false} ReadsAreVars(e: Expr, x: string)
    ensures x in Reads(e) <==> x in Vars(e)
    decreases e
  {
    match e
    case Integer(_) =>
    case Variable(_) =>
    case Binary(_, l, r) => ReadsAreVars(l, x); ReadsAreVars(r, x);
    case Call(_, args) => ReadsAllAreVars(args, x);
  }

  lemma {:induction false} ReadsAllAreVars(es: seq<Expr>, x: string)
    ensures x in ReadsAll(es) <==> x in VarsOfAll(es)
    decreases es
  {
    if es != [] { ReadsAreVars(es[0], x); ReadsAllAreVars(es[1..], x); }
  }

  /** `slots` are the slots of the names `xs`, one by one. */
  ghost predicate SlotsOf(xs: seq<string>, vars: VarMap, slots: seq<Vid>) {
    |slots| == |xs| && forall i :: 0 <= i < |xs| ==> xs[i] in vars && slots[i] == vars[xs[i]]
  }

  lemma {:induction false} ExprLoads(e: Expr, vars: VarMap, n: Vid)
    requires CodeOfExpr(e, vars, n).Ok?
    ensures SlotsOf(Reads(e), vars, Loads(CodeOfExpr(e, vars, n).value.ops))
    decreases e
  {
    match e
    case Integer(_) =>
    case Variable(_) =>
    case Binary(op, lhs, rhs) =>
      var l := CodeOfExpr(lhs, vars, n).value;
      var r := CodeOfExpr(rhs, vars, l.next).value;
      ExprLoads(lhs, vars, n);
      ExprLoads(rhs, vars, l.next);
      LoadsConcat(l.ops, r.ops);
      LoadsConcat(l.ops + r.ops, [KalIR.KBin(r.next, KindOf(op), l.v, r.v)]);
    case Call(callee, args) =>
      var a := CodeOfArgs(args, vars, n).value;
      ArgsLoads(args, vars, n);
      LoadsConcat(a.ops, [KalIR.KCall(a.next, callee, a.vs)]);
  }

  lemma {:induction false} ArgsLoads(es: seq<Expr>, vars: VarMap, n: Vid)
    requires CodeOfArgs(es, vars, n).Ok?
    ensures SlotsOf(ReadsAll(es), vars, Loads(CodeOfArgs(es, vars, n).value.ops))
    decreases es
  {
    if es != [] {
      var e := CodeOfExpr(es[0], vars, n).value;
      var rest := CodeOfArgs(es[1..], vars, e.next).value;
      ExprLoads(es[0], vars, n);
      ArgsLoads(es[1..], vars, e.next);
      LoadsConcat(e.ops, rest.ops);
    }
  }

  /** A list of statements moves exactly the names it declares to new slots. */
  lemma {:induction false} DeclaredMove(stmts: seq<Stmt>, vars: VarMap, n: Vid, x: string)
    requires CodeOfStmts(stmts, vars, n).Ok? && VarsBelow(vars, n) && x in vars
    ensures var vars' := CodeOfStmts(stmts, vars, n).value.vars;
            x in vars' && (vars'[x] == vars[x] <==> x !in DeclNames(stmts)) && (x in DeclNames(stmts) ==> n <= vars'[x])
    decreases stmts
  {
    if stmts != [] {
      var s := CodeOfStmt(stmts[0], vars, n).value;
      StmtStructured(stmts[0], vars, n);
      DeclaredMove(stmts[1..], s.vars, s.next, x);
      assert s.vars == if stmts[0].VarDecl? then vars[stmts[0].name := n] else vars;
      assert x in DeclNames(stmts) <==> x in DeclName(stmts[0]) || x in DeclNames(stmts[1..]);
    }
  }

  /** After a loop body, the condition's code reads the slots that it read before the loop exactly when the
      body declares none of the condition's variables itself. */
  lemma {:induction false} ReevaluationReadsSameSlots(cond: Expr, body: seq<Stmt>, vars: VarMap, n: Vid, k: Vid)
    requires VarsBelow(vars, n) && VarsBelow(vars, k) && CodeOfExpr(cond, vars, n).Ok? && CodeOfStmts(body, vars, k).Ok?
    ensures var b := CodeOfStmts(body, vars, k).value;
            var again := CodeOfExpr(cond, b.vars, b.next);
            again.Ok? &&
            (Loads(again.value.ops) == Loads(CodeOfExpr(cond, vars, n).value.ops)
             <==> forall x :: x in DeclNames(body) ==> x !in Vars(cond))
  {
    var b := CodeOfStmts(body, vars, k).value;
    ExprLowers(cond, vars, n);
    StmtsLower(body, vars, k);
    ExprLowers(cond, b.vars, b.next);
    ExprLoads(cond, vars, n);
    ExprLoads(cond, b.vars, b.next);
    var xs, s1, s2 := Reads(cond), Loads(CodeOfExpr(cond, vars, n).value.ops), Loads(CodeOfExpr(cond, b.vars, b.next).value.ops);
    forall i | 0 <= i < |xs| ensures s1[i] == s2[i] <==> xs[i] !in DeclNames(body) { DeclaredMove(body, vars, k, xs[i]); }
    if s1 == s2 {
      forall x | x in DeclNames(body) ensures x !in Vars(cond) {
        ReadsAreVars(cond, x);
        assert forall i :: 0 <= i < |xs| ==> xs[i] != x;
      }
    } else {
      var i :| 0 <= i < |xs| && s1[i] != s2[i];
      ReadsAreVars(cond, xs[i]);
      assert xs[i] in DeclNames(body) && xs[i] in Vars(cond);
    }
  }
}

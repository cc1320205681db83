/** The whole compiler: each function is lowered to structured IR and then converted to a flat graph of
    blocks, and the flat program gives exactly what the reference interpreter gives. */
module KalPipeline {
  import opened Options
  import opened KalArith
  import KalAst
  import opened KalFromAst
  import opened KalFromAstCorrect
  import KalIR
  import opened KalToLlvm
  import opened KalToLlvmCorrect
  import opened KalTerminators
  import opened KalConvertSteps
  import opened KalConvert

  // ----- lowered code is well-formed -----

  /** Lowered code outside of a region's end: Kaleidoscope ops, none of them a yield. */
  predicate Structured(ops: seq<Op>, n: Vid) {
    forall i :: 0 <= i < |ops| ==> (IsLeaf(ops[i]) || ops[i].KIf? || ops[i].KWhile?) && NestedOk(ops[i]) && OpBelow(ops[i], n, 1)
  }

  predicate VarsBelow(vars: VarMap, n: Vid) {
    forall x :: x in vars ==> vars[x] < n
  }

  lemma StructuredConcat(xs: seq<Op>, n: Vid, ys: seq<Op>, n': Vid)
    requires Structured(xs, n) && Structured(ys, n') && n <= n'
    ensures Structured(xs + ys, n')
  {
    StructuredMono(xs, n, n');
  }

  lemma StructuredMono(xs: seq<Op>, n: Vid, n': Vid)
    requires Structured(xs, n) && n <= n'
    ensures Structured(xs, n')
  {
    forall i | 0 <= i < |xs| ensures OpBelow(xs[i], n', 1) { OpBelowMono(xs[i], n, 1, n', 1); }
  }

  lemma {:induction false} StructuredOne(op: Op, n: Vid)
    requires IsLeaf(op) && OpBelow(op, n, 1)
    ensures Structured([op], n)
  {
  }

  lemma {:induction false} ExprStructured(e: KalAst.Expr, vars: VarMap, n: Vid)
    requires VarsBelow(vars, n) && CodeOfExpr(e, vars, n).Ok?
    ensures var c := CodeOfExpr(e, vars, n).value; Structured(c.ops, c.next)
    decreases e
  {
    match e
    case Integer(_) =>
    case Variable(_) =>
    case Binary(op, lhs, rhs) =>
      var l := CodeOfExpr(lhs, vars, n).value;
      var r := CodeOfExpr(rhs, vars, l.next).value;
      ExprStructured(lhs, vars, n);
      ExprStructured(rhs, vars, l.next);
      StructuredConcat(l.ops, l.next, r.ops, r.next);
      StructuredOne(KalIR.KBin(r.next, KindOf(op), l.v, r.v), r.next + 1);
      StructuredConcat(l.ops + r.ops, r.next, [KalIR.KBin(r.next, KindOf(op), l.v, r.v)], r.next + 1);
    case Call(callee, args) =>
      var a := CodeOfArgs(args, vars, n).value;
      ArgsStructured(args, vars, n);
      StructuredOne(KalIR.KCall(a.next, callee, a.vs), a.next + 1);
      StructuredConcat(a.ops, a.next, [KalIR.KCall(a.next, callee, a.vs)], a.next + 1);
  }

  lemma {:induction false} ArgsStructured(es: seq<KalAst.Expr>, vars: VarMap, n: Vid)
    requires VarsBelow(vars, n) && CodeOfArgs(es, vars, n).Ok?
    ensures var c := CodeOfArgs(es, vars, n).value; Structured(c.ops, c.next) && AllBelow(c.vs, c.next)
    decreases es
  {
    if es != [] {
      var e := CodeOfExpr(es[0], vars, n).value;
      var rest := CodeOfArgs(es[1..], vars, e.next).value;
      ExprStructured(es[0], vars, n);
      ArgsStructured(es[1..], vars, e.next);
      StructuredConcat(e.ops, e.next, rest.ops, rest.next);
    }
  }

  lemma {:induction false} StmtsStructured(stmts: seq<KalAst.Stmt>, vars: VarMap, n: Vid)
    requires VarsBelow(vars, n) && CodeOfStmts(stmts, vars, n).Ok?
    ensures var c := CodeOfStmts(stmts, vars, n).value; Structured(c.ops, c.next) && VarsBelow(c.vars, c.next)
    decreases stmts, 0
  {
    if stmts != [] {
      var s := CodeOfStmt(stmts[0], vars, n).value;
      var rest := CodeOfStmts(stmts[1..], s.vars, s.next).value;
      StmtStructured(stmts[0], vars, n);
      StmtsStructured(stmts[1..], s.vars, s.next);
      StructuredConcat(s.ops, s.next, rest.ops, rest.next);
    }
  }

  /** An expression's code followed by one more op. */
  lemma {:induction false} ExprThenOne(e: KalAst.Expr, vars: VarMap, n: Vid, op: Op)
    requires VarsBelow(vars, n) && CodeOfExpr(e, vars, n).Ok?
    requires var c := CodeOfExpr(e, vars, n).value; Structured([op], c.next)
    ensures var c := CodeOfExpr(e, vars, n).value; Structured(c.ops + [op], c.next)
  {
    var c := CodeOfExpr(e, vars, n).value;
    ExprStructured(e, vars, n);
    StructuredConcat(c.ops, c.next, [op], c.next);
  }

  lemma {:induction false} StmtStructured(s: KalAst.Stmt, vars: VarMap, n: Vid)
    requires VarsBelow(vars, n) && CodeOfStmt(s, vars, n).Ok?
    ensures var c := CodeOfStmt(s, vars, n).value; Structured(c.ops, c.next) && VarsBelow(c.vars, c.next)
    decreases s
  {
    match s
    case VarDecl(x, None) =>
    case VarDecl(x, Some(init)) =>
      var e := CodeOfExpr(init, vars[x := n], n + 1).value;
      ExprThenOne(init, vars[x := n], n + 1, KalIR.KStore(n, e.v));
      StructuredConcat([KalIR.KDecl(n)], n + 1, e.ops + [KalIR.KStore(n, e.v)], e.next);
      assert [KalIR.KDecl(n)] + (e.ops + [KalIR.KStore(n, e.v)]) == [KalIR.KDecl(n)] + e.ops + [KalIR.KStore(n, e.v)];
    case Assign(x, value) =>
      ExprThenOne(value, vars, n, KalIR.KStore(vars[x], CodeOfExpr(value, vars, n).value.v));
    case Return(value) =>
      ExprThenOne(value, vars, n, KalIR.KRet(CodeOfExpr(value, vars, n).value.v));
    case If(_, _, _) => IfStructured(s, vars, n);
    case While(_, _) => WhileStructured(s, vars, n);
    case ExprStmt(expr) => ExprStructured(expr, vars, n);
  }

  lemma {:induction false} IfStructured(s: KalAst.Stmt, vars: VarMap, n: Vid)
    requires s.If? && VarsBelow(vars, n) && CodeOfStmt(s, vars, n).Ok?
    ensures var c := CodeOfStmt(s, vars, n).value; Structured(c.ops, c.next)
    decreases s, 0
  {
    var c := CodeOfExpr(s.cond, vars, n).value;
    var t := CodeOfBranch(s.thenBody, vars, c.next).value;
    var e := CodeOfBranch(s.elseBody, vars, t.next).value;
    ExprStructured(s.cond, vars, n);
    BranchStructured(s.thenBody, vars, c.next);
    BranchStructured(s.elseBody, vars, t.next);
    BelowMono(t.ops, t.next, 1, e.next, 1);
    var op := KalIR.KIf(c.v, t.ops, e.ops);
    assert Structured([op], e.next);
    StructuredConcat(c.ops, c.next, [op], e.next);
  }

  lemma {:induction false} WhileStructured(s: KalAst.Stmt, vars: VarMap, n: Vid)
    requires s.While? && VarsBelow(vars, n) && CodeOfStmt(s, vars, n).Ok?
    ensures var c := CodeOfStmt(s, vars, n).value; Structured(c.ops, c.next)
    decreases s, 0
  {
    var c := CodeOfExpr(s.cond, vars, n + 1).value;
    var b := CodeOfLoopBody(s.cond, s.body, n, vars, c.next).value;
    LoopBodyStructured(s.cond, s.body, n, vars, c.next);
    ExprThenOne(s.cond, vars, n + 1, KalIR.KStore(n, c.v));
    var op := KalIR.KWhile(n, b.ops);
    assert Structured([op], b.next);
    StructuredConcat([KalIR.KDecl(n)], n + 1, c.ops + [KalIR.KStore(n, c.v)], c.next);
    StructuredConcat([KalIR.KDecl(n)] + (c.ops + [KalIR.KStore(n, c.v)]), c.next, [op], b.next);
    assert [KalIR.KDecl(n)] + (c.ops + [KalIR.KStore(n, c.v)]) + [op] == [KalIR.KDecl(n)] + c.ops + [KalIR.KStore(n, c.v), op];
  }

  /** Structured ops that end in a return, or are closed by a yield, are a region. */
  lemma {:induction false} RegionEnds(ops: seq<Op>, n: Vid, closed: bool)
    requires Structured(ops, n) && (!closed ==> ops != [] && ops[|ops| - 1].KRet?)
    ensures var region := if closed then ops + [KalIR.KYield] else ops; RegionOk(region) && OpsBelow(region, n, 1)
  {
  }

  lemma {:induction false} EndsInRet(stmts: seq<KalAst.Stmt>, vars: VarMap, n: Vid, k: Vid)
    requires CodeOfStmts(stmts, vars, n).Ok? && CodeOfStmts(stmts, vars, n).value.terminated
    requires Structured(CodeOfStmts(stmts, vars, n).value.ops, k)
    ensures var ops := CodeOfStmts(stmts, vars, n).value.ops; ops != [] && ops[|ops| - 1].KRet?
  {
    TerminatedMeansReturn(stmts, vars, n);
    var ops := CodeOfStmts(stmts, vars, n).value.ops;
    assert NestedOk(ops[|ops| - 1]);
  }

  lemma {:induction false} BranchStructured(stmts: seq<KalAst.Stmt>, vars: VarMap, n: Vid)
    requires VarsBelow(vars, n) && CodeOfBranch(stmts, vars, n).Ok?
    ensures var c := CodeOfBranch(stmts, vars, n).value; RegionOk(c.ops) && OpsBelow(c.ops, c.next, 1)
    decreases stmts, 1
  {
    var b := CodeOfStmts(stmts, vars, n).value;
    StmtsStructured(stmts, vars, n);
    if b.terminated { EndsInRet(stmts, vars, n, b.next); }
    RegionEnds(b.ops, b.next, !b.terminated);
  }

  lemma ClosedBody(body: seq<Op>, cond: seq<Op>, store: Op)
    ensures body + (cond + [store]) + [KalIR.KYield] == body + cond + [store, KalIR.KYield]
  {
  }

  lemma {:induction false} LoopBodyStructured(cond: KalAst.Expr, body: seq<KalAst.Stmt>, slot: Vid, vars: VarMap, n: Vid)
    requires VarsBelow(vars, n) && slot < n && CodeOfLoopBody(cond, body, slot, vars, n).Ok?
    ensures var c := CodeOfLoopBody(cond, body, slot, vars, n).value; RegionOk(c.ops) && OpsBelow(c.ops, c.next, 1)
    decreases body, 1
  {
    var b := CodeOfStmts(body, vars, n).value;
    StmtsStructured(body, vars, n);
    if b.terminated {
      EndsInRet(body, vars, n, b.next);
      RegionEnds(b.ops, b.next, false);
    } else {
      var c := CodeOfExpr(cond, b.vars, b.next).value;
      ExprThenOne(cond, b.vars, b.next, KalIR.KStore(slot, c.v));
      StructuredConcat(b.ops, b.next, c.ops + [KalIR.KStore(slot, c.v)], c.next);
      RegionEnds(b.ops + (c.ops + [KalIR.KStore(slot, c.v)]), c.next, true);
      ClosedBody(b.ops, c.ops, KalIR.KStore(slot, c.v));
    }
  }

  lemma {:induction false} SpillStructured(params: seq<string>, i: nat, vars: VarMap, n: Vid)
    requires i <= |params| <= n && VarsBelow(vars, n)
    ensures var p := SpillFrom(params, i, vars, n); Structured(p.ops, p.next) && VarsBelow(p.vars, p.next)
    decreases |params| - i
  {
    if i < |params| {
      SpillStructured(params, i + 1, vars[params[i] := n], n + 1);
      var rest := SpillFrom(params, i + 1, vars[params[i] := n], n + 1);
      StructuredConcat([KalIR.KDecl(n), KalIR.KStore(n, i)], n + 1, rest.ops, rest.next);
    }
  }

  lemma FunctionStructured(f: KalAst.Function, fn: KalIR.Func)
    requires CodeOfFunction(f) == Ok(fn)
    ensures Structured(fn.blocks[0].ops, fn.nextVid) && EndsInTerminator(fn.blocks[0].ops) && |f.params| <= fn.nextVid
  {
    var p := SpillFrom(f.params, 0, map[], |f.params|);
    var b := CodeOfStmts(f.body, p.vars, p.next).value;
    SpillStructured(f.params, 0, map[], |f.params|);
    StmtsStructured(f.body, p.vars, p.next);
    StructuredConcat(p.ops, p.next, b.ops, b.next);
    var ops := p.ops + b.ops;
    if !EndsInTerminator(ops) {
      StructuredConcat(ops, b.next, [KalIR.KConst(b.next, 0), KalIR.KRet(b.next)], b.next + 1);
    }
  }

  lemma {:induction false} StructuredBlock(ops: seq<Op>, n: Vid)
    requires Structured(ops, n) && EndsInTerminator(ops)
    ensures BlockOk(ops) && OpsBelow(ops, n, 1)
  {
  }

  lemma OneBlockOk(arity: nat, ops: seq<Op>, n: Vid)
    requires BlockFine(OneBlock(arity, ops, n).blocks[0], n, 1)
    ensures FuncOk(OneBlock(arity, ops, n)) && LayoutOk(OneBlock(arity, ops, n))
  {
    var fn := OneBlock(arity, ops, n);
    assert fn.layout == [0] && fn.nextLabel == 1;
  }

  /** A lowered function is ready for conversion. */
  lemma LoweredOk(f: KalAst.Function, fn: KalIR.Func)
    requires CodeOfFunction(f) == Ok(fn)
    ensures FuncOk(fn) && LayoutOk(fn)
  {
    FunctionStructured(f, fn);
    StructuredBlock(fn.blocks[0].ops, fn.nextVid);
    assert fn.blocks[0].params == seq(|f.params|, i => i);
    assert AllBelow(fn.blocks[0].params, fn.nextVid);
    assert BlockFine(fn.blocks[0], fn.nextVid, 1);
    OneBlockOk(|f.params|, fn.blocks[0].ops, fn.nextVid);
  }

  // ----- the compiler -----

  /** A call in the source program ends with `r`: a value, or undefined behaviour. */
  ghost predicate SourceGives(prog: KalAst.Program, g: string, args: seq<I64>, r: Value) {
    r != NoVal(OutOfFuel) && exists f: nat :: KalAst.CallFunction(prog, g, args, f) == r
  }

  lemma LoweringPreserves(prog: KalAst.Program, m: Module)
    requires Lowered(prog, m)
    ensures ModuleOk(m)
    ensures forall g, args, r :: SourceGives(prog, g, args, r) <==> Gives(m, g, args, r)
  {
    forall g | g in m ensures FuncOk(m[g]) { LoweredOk(prog[g], m[g]); }
    forall g, args, r ensures SourceGives(prog, g, args, r) <==> Gives(m, g, args, r) {
      forall f: nat ensures KalIR.RunFunction(m, g, args, f) == KalAst.CallFunction(prog, g, args, f) {
        FunctionSim(prog, m, g, args, f);
      }
    }
  }

  /** The function as lowered, and as converted in turn. */
  ghost predicate Compiled(f: KalAst.Function, fn: KalIR.Func) {
    && CodeOfFunction(f).Ok? && FuncOk(fn) && Flat(fn)
    && Equivalent(CodeOfFunction(f).value, fn)
    && (Clean(CodeOfFunction(f).value) <==> Clean(fn))
  }

  method CompileFunction(f: KalAst.Function) returns (r: Result<KalIR.Func>)
    ensures r.Err? ==> CodeOfFunction(f) == r
    ensures r.Ok? ==> Compiled(f, r.value)
  {
    var fn := LowerFunction(f);
    if fn.Err? { return fn; }
    LoweredOk(f, fn.value);
    var c := new Converter(fn.value);
    c.Convert();
    r := Ok(c.Body());
  }

  ghost predicate CompiledBut(prog: KalAst.Program, m: Module, todo: set<string>) {
    todo <= prog.Keys && m.Keys == prog.Keys - todo && forall g :: g in m ==> Compiled(prog[g], m[g])
  }

  lemma CompiledOne(prog: KalAst.Program, m: Module, todo: set<string>, g: string, fn: KalIR.Func)
    requires CompiledBut(prog, m, todo) && g in todo && Compiled(prog[g], fn)
    ensures CompiledBut(prog, m[g := fn], todo - {g})
  {
  }

  /** Compiles every function of a program, or says which error stopped it. */
  method Compile(prog: KalAst.Program) returns (r: Result<Module>)
    ensures r.Err? ==> exists g :: g in prog && CodeOfFunction(prog[g]) == Err(r.error)
    ensures r.Ok? ==> CompiledBut(prog, r.value, {})
  {
    var m: Module := map[];
    var todo := prog.Keys;
    while todo != {}
      invariant CompiledBut(prog, m, todo)
      decreases |todo|
    {
      var g :| g in todo;
      var fn := CompileFunction(prog[g]);
      if fn.Err? { return Err(fn.error); }
      CompiledOne(prog, m, todo, g, fn.value);
      m := m[g := fn.value];
      todo := todo - {g};
    }
    r := Ok(m);
  }

  /** The functions in `done` as converted, the others as lowered. */
  ghost function Partly(m0: Module, m: Module, done: set<string>): Module
    requires m.Keys == m0.Keys
  {
    map g | g in m0 :: if g in done then m[g] else m0[g]
  }

  lemma ReplaceOne(m0: Module, m: Module, g: string, fn: KalIR.Func)
    requires SameMeaning(m0, m) && ModuleOk(m) && g in m && Equivalent(m[g], fn)
    ensures ModuleOk(m[g := fn]) && SameMeaning(m0, m[g := fn])
  {
    forall h, args, r ensures Gives(m0, h, args, r) <==> Gives(m[g := fn], h, args, r) {
      assert Gives(m0, h, args, r) <==> Gives(m, h, args, r);
    }
  }

  lemma PartlyStep(m0: Module, m: Module, done: set<string>, g: string)
    requires m.Keys == m0.Keys && g in done && g in m0
    ensures var before := Partly(m0, m, done - {g});
            g in before && before[g] == m0[g] && Partly(m0, m, done) == before[g := m[g]]
  {
  }

  lemma {:induction false} ReplaceAll(m0: Module, m: Module, done: set<string>)
    requires m.Keys == m0.Keys && ModuleOk(m0) && done <= m0.Keys
    requires forall g :: g in m0 ==> Equivalent(m0[g], m[g])
    ensures ModuleOk(Partly(m0, m, done)) && SameMeaning(m0, Partly(m0, m, done))
    decreases |done|
  {
    if done == {} {
      assert Partly(m0, m, done) == m0;
    } else {
      var g :| g in done;
      ReplaceAll(m0, m, done - {g});
      PartlyStep(m0, m, done, g);
      ReplaceOne(m0, Partly(m0, m, done - {g}), g, m[g]);
    }
  }

  ghost predicate AllEquivalent(m0: Module, m: Module) {
    m.Keys == m0.Keys && forall g :: g in m0 ==> Equivalent(m0[g], m[g])
  }

  /** Converting every function of a lowered program. */
  lemma ConversionPreserves(m0: Module, m: Module)
    requires ModuleOk(m0) && AllEquivalent(m0, m)
    ensures forall g, args, r :: Gives(m0, g, args, r) <==> Gives(m, g, args, r)
  {
    ReplaceAll(m0, m, m0.Keys);
    assert Partly(m0, m, m0.Keys) == m;
  }

  /** The program as lowered. */
  ghost predicate LoweredFrom(prog: KalAst.Program, m0: Module) {
    m0.Keys == prog.Keys && forall g :: g in prog ==> CodeOfFunction(prog[g]) == Ok(m0[g])
  }

  lemma CompiledAt(prog: KalAst.Program, m: Module, g: string)
    requires CompiledBut(prog, m, {}) && g in prog
    ensures g in m && Compiled(prog[g], m[g])
  {
  }

  lemma CompiledLowers(f: KalAst.Function, fn: KalIR.Func) returns (fn0: KalIR.Func)
    requires Compiled(f, fn)
    ensures CodeOfFunction(f) == Ok(fn0) && Equivalent(fn0, fn)
  {
    fn0 := CodeOfFunction(f).value;
  }

  ghost predicate Lowers(f: KalAst.Function) { CodeOfFunction(f).Ok? }

  ghost function LoweredBody(f: KalAst.Function): KalIR.Func
    requires Lowers(f)
  {
    CodeOfFunction(f).value
  }

  lemma LowersAt(prog: KalAst.Program, m: Module, g: string)
    requires CompiledBut(prog, m, {}) && g in prog
    ensures Lowers(prog[g])
  {
    CompiledAt(prog, m, g);
    var fn0 := CompiledLowers(prog[g], m[g]);
  }

  ghost function LoweredBodies(prog: KalAst.Program): (m0: Module)
    requires forall g :: g in prog ==> Lowers(prog[g])
    ensures m0.Keys == prog.Keys && forall g :: g in prog ==> m0[g] == LoweredBody(prog[g])
  {
    map g | g in prog :: LoweredBody(prog[g])
  }

  lemma LoweredModule(prog: KalAst.Program, m: Module) returns (m0: Module)
    requires CompiledBut(prog, m, {})
    ensures LoweredFrom(prog, m0)
  {
    forall g | g in prog ensures Lowers(prog[g]) { LowersAt(prog, m, g); }
    m0 := LoweredBodies(prog);
    forall g | g in prog ensures CodeOfFunction(prog[g]) == Ok(m0[g]) { assert m0[g] == LoweredBody(prog[g]); }
  }

  lemma EquivalentAt(prog: KalAst.Program, m: Module, m0: Module, g: string)
    requires CompiledBut(prog, m, {}) && LoweredFrom(prog, m0) && g in m0
    ensures g in m && Equivalent(m0[g], m[g])
  {
    CompiledAt(prog, m, g);
    var fn0 := CompiledLowers(prog[g], m[g]);
  }

  lemma CompiledEquivalent(prog: KalAst.Program, m: Module, m0: Module)
    requires CompiledBut(prog, m, {}) && LoweredFrom(prog, m0)
    ensures AllEquivalent(m0, m)
  {
    assert m.Keys == m0.Keys;
    forall g | g in m0 ensures g in m && Equivalent(m0[g], m[g]) { EquivalentAt(prog, m, m0, g); }
  }

  /** The main result: on a program whose loops keep their conditions' variables visible, a call of the
      compiled program ends with a result exactly when the same call of the source program does. */
  lemma CompilePreserves(prog: KalAst.Program, m: Module, g: string, args: seq<I64>, r: Value)
    requires CompiledBut(prog, m, {}) && forall h :: h in prog ==> StableConds(prog[h].body)
    ensures SourceGives(prog, g, args, r) <==> Gives(m, g, args, r)
  {
    var m0 := LoweredModule(prog, m);
    CompiledEquivalent(prog, m, m0);
    LoweringPreserves(prog, m0);
    ConversionPreserves(m0, m);
  }
}

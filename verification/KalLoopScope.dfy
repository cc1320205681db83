/** Why `StableConds` is asked for: a loop body that redeclares a variable of its condition makes the
    compiled loop test the inner variable, where the source program tests the outer one.

    The program is `def f(x) { while (x) { var x = 0; } }`: the source never leaves the loop for a
    non-zero argument, and the compiled function returns 0 after one iteration. */
module KalLoopScope {
  import opened Options
  import opened KalArith
  import opened KalAst
  import opened KalFromAst
  import opened KalFromAstCorrect
  import K = KalIR

  const Cond := Variable("x")
  const Body := [VarDecl("x", Some(Integer(0)))]
  const Fun := Function(["x"], [While(Cond, Body)])
  const Prog: Program := map["f" := Fun]

  const LoopOps: seq<Op> := [K.KDecl(4), K.KConst(5, 0), K.KStore(4, 5), K.KLoad(6, 4), K.KStore(2, 6), K.KYield]
  const Ops: seq<Op> := [K.KDecl(1), K.KStore(1, 0), K.KDecl(2), K.KLoad(3, 1), K.KStore(2, 3), K.KWhile(2, LoopOps), K.KConst(7, 0), K.KRet(7)]

  lemma BodyCode()
    ensures CodeOfLoopBody(Cond, Body, 2, map["x" := 1], 4) == Ok(RegionCode(LoopOps, 7))
  {
    var vars: VarMap := map["x" := 1];
    var code := [K.KDecl(4), K.KConst(5, 0), K.KStore(4, 5)];
    var d := StmtCode(code, map["x" := 4], 6, false);
    assert vars["x" := 4] == map["x" := 4];
    assert CodeOfExpr(Integer(0), map["x" := 4], 5) == Ok(ExprCode([K.KConst(5, 0)], 5, 6));
    assert [K.KDecl(4)] + [K.KConst(5, 0)] + [K.KStore(4, 5)] == code;
    assert CodeOfStmt(VarDecl("x", Some(Integer(0))), vars, 4) == Ok(d);
    OneStmt(Body, vars, 4, d);
    assert CodeOfExpr(Cond, d.vars, 6) == Ok(ExprCode([K.KLoad(6, 4)], 6, 7));
    assert code + [K.KLoad(6, 4)] + [K.KStore(2, 6), K.KYield] == LoopOps;
  }

  lemma {:induction false} OneStmt(stmts: seq<Stmt>, vars: VarMap, n: Vid, code: StmtCode)
    requires |stmts| == 1 && CodeOfStmt(stmts[0], vars, n) == Ok(code)
    ensures CodeOfStmts(stmts, vars, n) == Ok(code)
  {
    assert CodeOfStmts(stmts[1..], code.vars, code.next) == Ok(StmtCode([], code.vars, code.next, false));
    assert code.ops + [] == code.ops;
  }

  lemma WhileCode()
    ensures CodeOfStmts(Fun.body, map["x" := 1], 2)
            == Ok(StmtCode([K.KDecl(2), K.KLoad(3, 1), K.KStore(2, 3), K.KWhile(2, LoopOps)], map["x" := 1], 7, false))
  {
    var vars: VarMap := map["x" := 1];
    BodyCode();
    assert CodeOfExpr(Cond, vars, 3) == Ok(ExprCode([K.KLoad(3, 1)], 3, 4));
    assert [K.KDecl(2)] + [K.KLoad(3, 1)] + [K.KStore(2, 3), K.KWhile(2, LoopOps)] == [K.KDecl(2), K.KLoad(3, 1), K.KStore(2, 3), K.KWhile(2, LoopOps)];
    var code := StmtCode([K.KDecl(2), K.KLoad(3, 1), K.KStore(2, 3), K.KWhile(2, LoopOps)], vars, 7, false);
    assert CodeOfStmt(While(Cond, Body), vars, 2) == Ok(code);
    OneStmt(Fun.body, vars, 2, code);
  }

  lemma SpillX()
    ensures SpillFrom(["x"], 0, map[], 1) == StmtCode([K.KDecl(1), K.KStore(1, 0)], map["x" := 1], 2, false)
  {
    var none: VarMap := map[];
    assert none["x" := 1] == map["x" := 1];
    var spill := [K.KDecl(1), K.KStore(1, 0)];
    assert SpillFrom(["x"], 1, map["x" := 1], 2) == StmtCode([], map["x" := 1], 2, false);
    assert spill + [] == spill;
  }

  /** The spilled parameter, the loop, and the fallback return. */
  lemma OpsParts()
    ensures var code := [K.KDecl(1), K.KStore(1, 0)] + [K.KDecl(2), K.KLoad(3, 1), K.KStore(2, 3), K.KWhile(2, LoopOps)];
            !EndsInTerminator(code) && code + [K.KConst(7, 0), K.KRet(7)] == Ops
  {
  }

  lemma FunCode()
    ensures CodeOfFunction(Fun) == Ok(OneBlock(1, Ops, 8))
  {
    WhileCode();
    SpillX();
    OpsParts();
  }

  /** The source loop runs out of any fuel. */
  lemma {:induction false} SourceLoops(x: I64, f: nat)
    requires x != 0
    ensures ExecOne(Prog, [Binding("x", Some(x))], Fun.body[0], f) == Halted(OutOfFuel)
    decreases f
  {
    var scope := [Binding("x", Some(x))];
    assert Find(scope, "x") == 0;
    assert Eval(Prog, scope, Cond, f) == Val(x);
    if f > 0 {
      var inner := scope + [Binding("x", Some(0))];
      assert ExecOne(Prog, scope, Body[0], f - 1) == Next(inner);
      assert Exec(Prog, inner, Body[1..], f - 1) == Next(inner);
      assert Exec(Prog, scope, Body, f - 1) == Next(inner);
      assert inner[..1] == scope;
      SourceLoops(x, f - 1);
    }
  }

  lemma {:induction false} SourceDiverges(f: nat)
    ensures CallFunction(Prog, "f", [1], f) == NoVal(OutOfFuel)
  {
    assert ParamScope(Fun.params, [1]) == [Binding("x", Some(1))];
    SourceLoops(1, f);
  }

  /** The body's own variable gets a slot of its own, and the value 0. */
  lemma {:induction false} InnerSlot(m: Module, env: Env, f: nat)
    ensures K.Run(m, "f", LoopOps, env, [Some(1), Some(1)], f)
         == K.Run(m, "f", LoopOps[3..], env[4 := K.Addr(2)][5 := K.Int(0)], [Some(1), Some(1)] + [Some(0)], f)
  {
    Peel(LoopOps);
    var mem: Mem := [Some(1), Some(1)];
    K.RunFirst(m, "f", LoopOps[0], LoopOps[1..], env, mem, f);
    var e1, m1 := env[4 := K.Addr(2)], mem + [None];
    K.RunFirst(m, "f", LoopOps[1], LoopOps[2..], e1, m1, f);
    K.RunFirst(m, "f", LoopOps[2], LoopOps[3..], e1[5 := K.Int(0)], m1, f);
    assert m1[2 := Some(0)] == mem + [Some(0)];
  }

  /** One iteration of the compiled loop stores the inner variable's 0 to the condition slot. */
  lemma {:induction false} CompiledIteration(m: Module, env: Env, f: nat)
    requires K.HasSlot(env, [Some(1), Some(1)], 2) && env[2].a == 1
    ensures var o := K.Run(m, "f", LoopOps, env, [Some(1), Some(1)], f);
            o.Fell? && o.mem == [Some(1), Some(0), Some(0)] && 2 in o.env && o.env[2] == K.Addr(1)
  {
    var mem: Mem := [Some(1), Some(1)];
    InnerSlot(m, env, f);
    var e2, m2 := env[4 := K.Addr(2)][5 := K.Int(0)], mem + [Some(0)];
    K.RunFirst(m, "f", LoopOps[3], LoopOps[4..], e2, m2, f);
    var e3 := e2[6 := K.Int(0)];
    K.RunFirst(m, "f", LoopOps[4], LoopOps[5..], e3, m2, f);
    K.RunExit(m, "f", LoopOps[5], [], e3, m2[1 := Some(0)], f);
    Peel(LoopOps);
  }

  lemma Peel(ops: seq<Op>)
    ensures forall i :: 0 <= i < |ops| ==> [ops[i]] + ops[i + 1..] == ops[i..]
    ensures ops[0..] == ops && ops[|ops|..] == []
  {
  }

  lemma BindOne()
    ensures K.Bind(map[], [0], [1]) == map[0 := K.Int(1)]
  {
    var e0: Env := map[0 := K.Int(1)];
    assert K.Bind(e0, [], []) == e0;
    assert [0][1..] == [] && [1 as I64][1..] == [];
  }

  /** The parameter is spilled. */
  lemma {:induction false} CompiledSpill(m: Module, e0: Env)
    requires e0 == map[0 := K.Int(1)]
    ensures K.Run(m, "f", Ops, e0, [], 1) == K.Run(m, "f", Ops[2..], e0[1 := K.Addr(0)], [Some(1)], 1)
  {
    Peel(Ops);
    var none: Option<I64> := None;
    assert [] + [none] == [none] && [none][0 := Some(1)] == [Some(1)];
    K.RunFirst(m, "f", Ops[0], Ops[1..], e0, [], 1);
    K.RunFirst(m, "f", Ops[1], Ops[2..], e0[1 := K.Addr(0)], [None], 1);
  }

  /** And the condition stored to its slot. */
  lemma {:induction false} CompiledStart(m: Module, e0: Env)
    requires e0 == map[0 := K.Int(1)]
    ensures K.Run(m, "f", Ops, e0, [], 1)
         == K.Run(m, "f", Ops[5..], e0[1 := K.Addr(0)][2 := K.Addr(1)][3 := K.Int(1)], [Some(1), Some(1)], 1)
  {
    CompiledSpill(m, e0);
    Peel(Ops);
    var none: Option<I64> := None;
    assert [Some(1)] + [none] == [Some(1), none] && [Some(1), none][1 := Some(1)] == [Some(1), Some(1)];
    var e1 := e0[1 := K.Addr(0)];
    K.RunFirst(m, "f", Ops[2], Ops[3..], e1, [Some(1)], 1);
    var e2 := e1[2 := K.Addr(1)];
    K.RunFirst(m, "f", Ops[3], Ops[4..], e2, [Some(1), None], 1);
    K.RunFirst(m, "f", Ops[4], Ops[5..], e2[3 := K.Int(1)], [Some(1), None], 1);
  }

  lemma {:induction false} CompiledReturns(m: Module)
    requires "f" in m && m["f"] == OneBlock(1, Ops, 8)
    ensures K.RunFunction(m, "f", [1], 1) == Val(0)
  {
    var e0: Env := map[0 := K.Int(1)];
    CompiledStart(m, e0);
    CompiledRest(m, e0[1 := K.Addr(0)][2 := K.Addr(1)][3 := K.Int(1)]);
    BindOne();
    var entry := m["f"].blocks[0];
    assert entry.params == [0];
  }

  lemma {:induction false} CompiledRest(m: Module, env: Env)
    requires K.HasSlot(env, [Some(1), Some(1)], 2) && env[2].a == 1
    ensures K.Run(m, "f", Ops[5..], env, [Some(1), Some(1)], 1) == K.Returned(0)
  {
    Peel(Ops);
    K.RunWhile(m, "f", Ops[5], Ops[6..], env, [Some(1), Some(1)], 1);
    CompiledIteration(m, env, 0);
    var o := K.Run(m, "f", LoopOps, env, [Some(1), Some(1)], 0);
    assert K.Loop(m, "f", 2, LoopOps, o.env, o.mem, 0) == o;
    K.RunFirst(m, "f", Ops[6], Ops[7..], o.env, o.mem, 1);
    K.RunExit(m, "f", Ops[7], [], o.env[7 := K.Int(0)], o.mem, 1);
  }

  /** The property fails for this program: the call has no result in the source, and the result 0 once lowered. */
  lemma {:induction false} RedeclarationChangesMeaning(m: Module)
    requires m.Keys == Prog.Keys && CodeOfFunction(Fun) == Ok(m["f"])
    ensures !StableConds(Fun.body)
    ensures K.RunFunction(m, "f", [1], 1) == Val(0) && forall f: nat :: CallFunction(Prog, "f", [1], f) == NoVal(OutOfFuel)
  {
    FunCode();
    CompiledReturns(m);
    forall f: nat ensures CallFunction(Prog, "f", [1], f) == NoVal(OutOfFuel) { SourceDiverges(f); }
    assert !StableCond(Fun.body[0]) by {
      assert DeclNames(Body[1..]) == [];
      assert "x" in DeclNames(Body) && "x" in Vars(Cond);
      assert !EndsInReturn(Body);
    }
  }
}

/** The lowering to structured IR preserves meaning: for every amount of fuel, running the lowered
    function gives what the reference interpreter gives, be it a value, undefined behaviour
    or running out of fuel. */
module KalFromAstCorrect {
  import opened Options
  import opened KalArith
  import opened KalAst
  import opened KalFromAst
  import KalIR

  type Env = KalIR.Env
  type Mem = KalIR.Mem
  type Module = KalIR.Module

  // ----- what the theorem asks of the source -----

  function Vars(e: Expr): set<string>
    decreases e
  {
    match e
    case Integer(_) => {}
    case Variable(x) => {x}
    case Binary(_, l, r) => Vars(l) + Vars(r)
    case Call(_, args) => VarsOfAll(args)
  }

  function VarsOfAll(es: seq<Expr>): set<string>
    decreases es
  {
    if es == [] then {} else Vars(es[0]) + VarsOfAll(es[1..])
  }

  /** The names declared by a list of statements itself, not inside its nested blocks. */
  function DeclNames(stmts: seq<Stmt>): seq<string> {
    if stmts == [] then [] else DeclName(stmts[0]) + DeclNames(stmts[1..])
  }

  function DeclName(s: Stmt): seq<string> {
    if s.VarDecl? then [s.name] else []
  }

  predicate EndsInReturn(stmts: seq<Stmt>) {
    stmts != [] && stmts[|stmts| - 1].Return?
  }

  /** No loop body hides a variable of the loop's own condition from the condition's re-evaluation. */
  predicate StableConds(stmts: seq<Stmt>)
    decreases stmts
  {
    forall i :: 0 <= i < |stmts| ==> StableCond(stmts[i])
  }

  predicate StableCond(s: Stmt)
    decreases s
  {
    match s
    case While(cond, body) =>
      StableConds(body) && (EndsInReturn(body) || forall x :: x in DeclNames(body) ==> x !in Vars(cond))
    case If(_, thn, els) => StableConds(thn) && StableConds(els)
    case _ => true
  }

  /** `m` holds the lowering of every function of `prog`. */
  ghost predicate Lowered(prog: Program, m: Module) {
    m.Keys == prog.Keys && forall g :: g in prog ==> CodeOfFunction(prog[g]) == Ok(m[g]) && StableConds(prog[g].body)
  }

  /** Every call made with less than `f` fuel agrees. */
  ghost predicate CallsAgree(prog: Program, m: Module, f: nat) {
    forall g, args, k: nat :: k < f ==> KalIR.RunFunction(m, g, args, k) == CallFunction(prog, g, args, k)
  }

  // ----- the shape of lowered code -----

  /** The flag returned for a list of statements says whether a return comes last. */
  lemma {:induction false} TerminatedMeansReturn(stmts: seq<Stmt>, vars: VarMap, n: Vid)
    requires CodeOfStmts(stmts, vars, n).Ok?
    ensures CodeOfStmts(stmts, vars, n).value.terminated == EndsInReturn(stmts)
    ensures EndsInReturn(stmts) == EndsInTerminator(CodeOfStmts(stmts, vars, n).value.ops)
  {
    if stmts != [] {
      var c := CodeOfStmt(stmts[0], vars, n).value;
      LastOp(stmts[0], vars, n);
      if |stmts| == 1 {
        assert stmts[1..] == [] && c.ops + [] == c.ops;
      } else {
        var rest := CodeOfStmts(stmts[1..], c.vars, c.next).value;
        TerminatedMeansReturn(stmts[1..], c.vars, c.next);
        SomeOps(stmts[1..], c.vars, c.next);
        TerminatorOfConcat(c.ops, rest.ops);
      }
    }
  }

  lemma TerminatorOfConcat(xs: seq<Op>, ys: seq<Op>)
    requires ys != []
    ensures EndsInTerminator(xs + ys) == EndsInTerminator(ys)
  {
  }

  lemma {:induction false} SomeOps(stmts: seq<Stmt>, vars: VarMap, n: Vid)
    requires stmts != [] && CodeOfStmts(stmts, vars, n).Ok?
    ensures CodeOfStmts(stmts, vars, n).value.ops != []
  {
    LastOp(stmts[0], vars, n);
  }

  lemma {:induction false} LastOp(s: Stmt, vars: VarMap, n: Vid)
    requires CodeOfStmt(s, vars, n).Ok?
    ensures CodeOfStmt(s, vars, n).value.ops != []
    ensures EndsInTerminator(CodeOfStmt(s, vars, n).value.ops) == s.Return?
  {
    if s.ExprStmt? { ExprLastOp(s.expr, vars, n); }
  }

  lemma {:induction false} ExprLastOp(e: Expr, vars: VarMap, n: Vid)
    requires CodeOfExpr(e, vars, n).Ok?
    ensures CodeOfExpr(e, vars, n).value.ops != [] && !EndsInTerminator(CodeOfExpr(e, vars, n).value.ops)
  {
  }

  lemma {:induction false} ReturnLastNeverFalls(prog: Program, scope: Scope, stmts: seq<Stmt>, fuel: nat)
    requires EndsInReturn(stmts)
    ensures !Exec(prog, scope, stmts, fuel).Next?
    decreases |stmts|
  {
    var r := ExecOne(prog, scope, stmts[0], fuel);
    if r.Next? && |stmts| > 1 { ReturnLastNeverFalls(prog, r.scope, stmts[1..], fuel); }
  }

  // ----- names in scope -----

  function Names(scope: Scope): seq<string> {
    seq(|scope|, i requires 0 <= i < |scope| => scope[i].name)
  }

  /** Running statements appends bindings for the names they declare and changes no other name. */
  lemma {:induction false} ExecNames(prog: Program, scope: Scope, stmts: seq<Stmt>, fuel: nat)
    ensures var r := Exec(prog, scope, stmts, fuel);
            r.Next? ==> Names(r.scope) == Names(scope) + DeclNames(stmts)
    decreases fuel, stmts, 1
  {
    if stmts == [] {
      assert Names(scope) + [] == Names(scope);
    } else {
      ExecOneNames(prog, scope, stmts[0], fuel);
      var r := ExecOne(prog, scope, stmts[0], fuel);
      if r.Next? {
        ExecNames(prog, r.scope, stmts[1..], fuel);
        assert Names(scope) + DeclName(stmts[0]) + DeclNames(stmts[1..]) == Names(scope) + DeclNames(stmts);
      }
    }
  }

  lemma {:induction false} ExecOneNames(prog: Program, scope: Scope, s: Stmt, fuel: nat)
    ensures var r := ExecOne(prog, scope, s, fuel);
            r.Next? ==> Names(r.scope) == Names(scope) + DeclName(s)
    decreases fuel, s
  {
    assert Names(scope) + [] == Names(scope);
    match s
    case If(c, thn, els) =>
      var v := Eval(prog, scope, c, fuel);
      if v.Val? { BlockNames(prog, scope, if v.v != 0 then thn else els, fuel); }
    case While(c, body) =>
      var v := Eval(prog, scope, c, fuel);
      if v.Val? && v.v != 0 && fuel > 0 {
        BlockNames(prog, scope, body, fuel - 1);
        var r := LeaveBlock(scope, Exec(prog, scope, body, fuel - 1));
        if r.Next? { ExecOneNames(prog, r.scope, s, fuel - 1); }
      }
    case _ =>
  }

  lemma {:induction false} BlockNames(prog: Program, scope: Scope, stmts: seq<Stmt>, fuel: nat)
    ensures var r := Exec(prog, scope, stmts, fuel);
            r.Next? ==> |scope| <= |r.scope| && Names(r.scope[..|scope|]) == Names(scope)
    decreases fuel, stmts, 2
  {
    ExecNames(prog, scope, stmts, fuel);
    var r := Exec(prog, scope, stmts, fuel);
    if r.Next? {
      assert |Names(r.scope)| == |r.scope| && |Names(scope)| == |scope|;
      assert Names(r.scope[..|scope|]) == Names(r.scope)[..|scope|];
    }
  }

  /** An expression only looks at its own variables. */
  lemma {:induction false} EvalDepends(prog: Program, s: Scope, t: Scope, e: Expr, fuel: nat)
    requires forall x :: x in Vars(e) ==> Lookup(s, x) == Lookup(t, x)
    ensures Eval(prog, s, e, fuel) == Eval(prog, t, e, fuel)
    decreases e
  {
    match e
    case Integer(_) =>
    case Variable(x) => assert x in Vars(e); assert Lookup(s, x) == Lookup(t, x);
    case Binary(_, l, r) => EvalDepends(prog, s, t, l, fuel); EvalDepends(prog, s, t, r, fuel);
    case Call(_, args) => EvalAllDepends(prog, s, t, args, fuel);
  }

  lemma {:induction false} EvalAllDepends(prog: Program, s: Scope, t: Scope, es: seq<Expr>, fuel: nat)
    requires forall x :: x in VarsOfAll(es) ==> Lookup(s, x) == Lookup(t, x)
    ensures EvalAll(prog, s, es, fuel) == EvalAll(prog, t, es, fuel)
    decreases es
  {
    if es != [] {
      EvalDepends(prog, s, t, es[0], fuel);
      EvalAllDepends(prog, s, t, es[1..], fuel);
    }
  }

  function Lookup(s: Scope, x: string): Option<I64> {
    var i := Find(s, x);
    if i >= 0 then s[i].val else None
  }

  /** Bindings of other names do not change what an expression evaluates to. */
  lemma {:induction false} EvalUnderMoreNames(prog: Program, s: Scope, k: nat, e: Expr, fuel: nat)
    requires k <= |s| && forall i :: k <= i < |s| ==> s[i].name !in Vars(e)
    ensures Eval(prog, s, e, fuel) == Eval(prog, s[..k], e, fuel)
  {
    forall x | x in Vars(e) ensures Lookup(s, x) == Lookup(s[..k], x) {
      var i, j := Find(s, x), Find(s[..k], x);
      assert i < k;
      assert i >= 0 ==> s[..k][i].name == x;
      assert j >= 0 ==> s[..k][j] == s[j];
    }
    EvalDepends(prog, s, s[..k], e, fuel);
  }

  // ----- the simulation relation -----

  /** Slot `slots[i]` holds the value of binding `i`; distinct bindings have distinct slots, and none of
      them is one of the `reserved` addresses (the condition slots of the enclosing loops). */
  ghost predicate InSlots(scope: Scope, slots: seq<Vid>, reserved: set<nat>, env: Env, mem: Mem) {
    && |slots| == |scope|
    && (forall i :: 0 <= i < |slots| ==>
          KalIR.HasSlot(env, mem, slots[i]) && mem[env[slots[i]].a] == scope[i].val && env[slots[i]].a !in reserved)
    && (forall i, j :: 0 <= i < j < |slots| ==> env[slots[i]].a != env[slots[j]].a)
    && (forall a :: a in reserved ==> a < |mem|)
  }

  /** The variable map that sends each name to the slot of its innermost binding. */
  function VarsOf(names: seq<string>, slots: seq<Vid>): VarMap
    requires |names| == |slots|
  {
    if names == [] then map[] else
    var k := |names| - 1;
    VarsOf(names[..k], slots[..k])[names[k] := slots[k]]
  }

  lemma {:induction false} VarsOfFind(scope: Scope, slots: seq<Vid>, x: string)
    requires |scope| == |slots|
    ensures x in VarsOf(Names(scope), slots) <==> Find(scope, x) >= 0
    ensures x in VarsOf(Names(scope), slots) ==> VarsOf(Names(scope), slots)[x] == slots[Find(scope, x)]
  {
    if scope != [] {
      var k := |scope| - 1;
      VarsOfFind(scope[..k], slots[..k], x);
      assert Names(scope)[..k] == Names(scope[..k]);
    }
  }

  ghost predicate VarsOk(scope: Scope, slots: seq<Vid>, vars: VarMap, n: Vid) {
    && |slots| == |scope|
    && (forall i :: 0 <= i < |slots| ==> slots[i] < n)
    && vars == VarsOf(Names(scope), slots)
  }

  ghost predicate Related(scope: Scope, slots: seq<Vid>, reserved: set<nat>, vars: VarMap, n: Vid, env: Env, mem: Mem) {
    InSlots(scope, slots, reserved, env, mem) && VarsOk(scope, slots, vars, n)
  }

  lemma InSlotsAgree(scope: Scope, slots: seq<Vid>, reserved: set<nat>, n: Vid, env: Env, mem: Mem, env': Env)
    requires InSlots(scope, slots, reserved, env, mem) && KalIR.Agree(n, env, env')
    requires forall i :: 0 <= i < |slots| ==> slots[i] < n
    ensures InSlots(scope, slots, reserved, env', mem)
  {
    forall i | 0 <= i < |slots| ensures slots[i] in env' && env'[slots[i]] == env[slots[i]] {
      assert slots[i] < n;
    }
  }

  // ----- expressions -----

  /** The value of an expression ends up where its code says; the code then goes on with `tail`. */
  ghost predicate ExprAgrees(v: Value, o: KalIR.Outcome, oTail: KalIR.Outcome, code: ExprCode, n: Vid, env: Env, env': Env) {
    match v
    case Val(x) => o == oTail && KalIR.HasInt(env', code.v) && env'[code.v].i == x && KalIR.Agree(n, env, env')
    case NoVal(w) => o == KalIR.Halted(w)
  }

  lemma {:induction false} ExprSim(prog: Program, m: Module, h: string, e: Expr, tail: seq<Op>, scope: Scope, slots: seq<Vid>, reserved: set<nat>,
                                   vars: VarMap, n: Vid, env: Env, mem: Mem, f: nat) returns (env': Env)
    requires CallsAgree(prog, m, f) && CodeOfExpr(e, vars, n).Ok? && Related(scope, slots, reserved, vars, n, env, mem)
    ensures var code := CodeOfExpr(e, vars, n).value;
            ExprAgrees(Eval(prog, scope, e, f), KalIR.Run(m, h, code.ops + tail, env, mem, f), KalIR.Run(m, h, tail, env', mem, f), code, n, env, env')
    ensures Eval(prog, scope, e, f).Val? ==> InSlots(scope, slots, reserved, env', mem)
    decreases f, 0, e
  {
    match e
    case Integer(k) =>
      env' := env[n := KalIR.Int(k)];
      KalIR.RunFirst(m, h, KalIR.KConst(n, k), tail, env, mem, f);
    case Variable(_) => env' := LoadSim(prog, m, h, e, tail, scope, slots, reserved, vars, n, env, mem, f);
    case Binary(_, _, _) => env' := BinarySim(prog, m, h, e, tail, scope, slots, reserved, vars, n, env, mem, f);
    case Call(_, _) => env' := CallSim(prog, m, h, e, tail, scope, slots, reserved, vars, n, env, mem, f);
    if Eval(prog, scope, e, f).Val? { InSlotsAgree(scope, slots, reserved, n, env, mem, env'); }
  }

  lemma LoadSim(prog: Program, m: Module, h: string, e: Expr, tail: seq<Op>, scope: Scope, slots: seq<Vid>, reserved: set<nat>,
                vars: VarMap, n: Vid, env: Env, mem: Mem, f: nat) returns (env': Env)
    requires e.Variable? && CodeOfExpr(e, vars, n).Ok? && Related(scope, slots, reserved, vars, n, env, mem)
    ensures var code := CodeOfExpr(e, vars, n).value;
            ExprAgrees(Eval(prog, scope, e, f), KalIR.Run(m, h, code.ops + tail, env, mem, f), KalIR.Run(m, h, tail, env', mem, f), code, n, env, env')
  {
    VarsOfFind(scope, slots, e.name);
    var v := KalIR.Load(env, mem, vars[e.name]);
    env' := if v.Some? then env[n := KalIR.Int(v.value)] else env;
    KalIR.RunFirst(m, h, KalIR.KLoad(n, vars[e.name]), tail, env, mem, f);
  }

  lemma KindAgrees(op: BinOp, a: I64, b: I64)
    ensures KalIR.KindMeaning(KindOf(op), a, b) == BinOpMeaning(op, a, b)
  {
  }

  lemma {:induction false} BinarySim(prog: Program, m: Module, h: string, e: Expr, tail: seq<Op>, scope: Scope, slots: seq<Vid>, reserved: set<nat>,
                                     vars: VarMap, n: Vid, env: Env, mem: Mem, f: nat) returns (env': Env)
    requires e.Binary? && CallsAgree(prog, m, f) && CodeOfExpr(e, vars, n).Ok? && Related(scope, slots, reserved, vars, n, env, mem)
    ensures var code := CodeOfExpr(e, vars, n).value;
            ExprAgrees(Eval(prog, scope, e, f), KalIR.Run(m, h, code.ops + tail, env, mem, f), KalIR.Run(m, h, tail, env', mem, f), code, n, env, env')
    decreases f, 0, e, 0
  {
    var l := CodeOfExpr(e.lhs, vars, n).value;
    var r := CodeOfExpr(e.rhs, vars, l.next).value;
    var op := KalIR.KBin(r.next, KindOf(e.op), l.v, r.v);
    assert l.ops + r.ops + [op] + tail == l.ops + (r.ops + ([op] + tail));
    env' := ExprSim(prog, m, h, e.lhs, r.ops + ([op] + tail), scope, slots, reserved, vars, n, env, mem, f);
    if Eval(prog, scope, e.lhs, f).Val? {
      ghost var env1 := env';
      env' := ExprSim(prog, m, h, e.rhs, [op] + tail, scope, slots, reserved, vars, l.next, env1, mem, f);
      if Eval(prog, scope, e.rhs, f).Val? {
        KalIR.RunFirst(m, h, op, tail, env', mem, f);
        KindAgrees(e.op, env1[l.v].i, env'[r.v].i);
        env' := env'[r.next := KalIR.Int(BinOpMeaning(e.op, env1[l.v].i, env'[r.v].i))];
      }
    }
  }

  lemma {:induction false} CallSim(prog: Program, m: Module, h: string, e: Expr, tail: seq<Op>, scope: Scope, slots: seq<Vid>, reserved: set<nat>,
                                   vars: VarMap, n: Vid, env: Env, mem: Mem, f: nat) returns (env': Env)
    requires e.Call? && CallsAgree(prog, m, f) && CodeOfExpr(e, vars, n).Ok? && Related(scope, slots, reserved, vars, n, env, mem)
    ensures var code := CodeOfExpr(e, vars, n).value;
            ExprAgrees(Eval(prog, scope, e, f), KalIR.Run(m, h, code.ops + tail, env, mem, f), KalIR.Run(m, h, tail, env', mem, f), code, n, env, env')
    decreases f, 0, e, 0
  {
    var a := CodeOfArgs(e.args, vars, n).value;
    var op := KalIR.KCall(a.next, e.callee, a.vs);
    assert a.ops + [op] + tail == a.ops + ([op] + tail);
    env' := ArgsSim(prog, m, h, e.args, [op] + tail, scope, slots, reserved, vars, n, env, mem, f);
    var vs := EvalAll(prog, scope, e.args, f);
    if vs.Vals? {
      KalIR.RunCallFirst(m, h, op, tail, env', mem, f);
      if f > 0 {
        var v := KalIR.RunFunction(m, e.callee, vs.vs, f - 1);
        assert v == CallFunction(prog, e.callee, vs.vs, f - 1);
        if v.Val? { env' := env'[a.next := KalIR.Int(v.v)]; }
      }
    }
  }

  lemma {:induction false} ArgsSim(prog: Program, m: Module, h: string, es: seq<Expr>, tail: seq<Op>, scope: Scope, slots: seq<Vid>, reserved: set<nat>,
                                   vars: VarMap, n: Vid, env: Env, mem: Mem, f: nat) returns (env': Env)
    requires CallsAgree(prog, m, f) && CodeOfArgs(es, vars, n).Ok? && Related(scope, slots, reserved, vars, n, env, mem)
    ensures var code := CodeOfArgs(es, vars, n).value;
            match EvalAll(prog, scope, es, f)
            case Vals(vs) => KalIR.Run(m, h, code.ops + tail, env, mem, f) == KalIR.Run(m, h, tail, env', mem, f)
                             && KalIR.Ints(env', code.vs) == Some(vs) && KalIR.Agree(n, env, env')
            case NoVals(w) => KalIR.Run(m, h, code.ops + tail, env, mem, f) == KalIR.Halted(w)
    decreases f, 0, es
  {
    if es == [] {
      env' := env;
      assert [] + tail == tail;
    } else {
      var e := CodeOfExpr(es[0], vars, n).value;
      var rest := CodeOfArgs(es[1..], vars, e.next).value;
      assert e.ops + rest.ops + tail == e.ops + (rest.ops + tail);
      env' := ExprSim(prog, m, h, es[0], rest.ops + tail, scope, slots, reserved, vars, n, env, mem, f);
      if Eval(prog, scope, es[0], f).Val? {
        env' := ArgsSim(prog, m, h, es[1..], tail, scope, slots, reserved, vars, e.next, env', mem, f);
        assert ([e.v] + rest.vs)[1..] == rest.vs;
      }
    }
  }

  // ----- statements -----

  /** A state of the code that corresponds to a scope of the source. */
  datatype State = State(slots: seq<Vid>, env: Env, mem: Mem)

  /** Where statements leave the execution, their code does too; if they go on, the code goes on with `tail`. */
  ghost predicate StmtAgrees(flow: Flow, o: KalIR.Outcome, oTail: KalIR.Outcome, s: State, s': State, reserved: set<nat>, vars: VarMap, n: Vid, next: Vid) {
    match flow
    case Next(scope) => o == oTail && Follows(scope, s, s', reserved, vars, n, next)
    case Returned(v) => o == KalIR.Returned(v)
    case Halted(w) => o == KalIR.Halted(w)
  }

  ghost predicate Follows(scope: Scope, s: State, s': State, reserved: set<nat>, vars: VarMap, n: Vid, next: Vid) {
    Related(scope, s'.slots, reserved, vars, next, s'.env, s'.mem) && KalIR.Agree(n, s.env, s'.env) && |s.mem| <= |s'.mem| && s.slots <= s'.slots
  }

  lemma {:induction false} StmtsSim(prog: Program, m: Module, h: string, stmts: seq<Stmt>, tail: seq<Op>, scope: Scope, reserved: set<nat>,
                                    vars: VarMap, n: Vid, s: State, f: nat) returns (s': State)
    requires CallsAgree(prog, m, f) && CodeOfStmts(stmts, vars, n).Ok? && StableConds(stmts)
    requires Related(scope, s.slots, reserved, vars, n, s.env, s.mem)
    ensures var code := CodeOfStmts(stmts, vars, n).value;
            StmtAgrees(Exec(prog, scope, stmts, f), KalIR.Run(m, h, code.ops + tail, s.env, s.mem, f), KalIR.Run(m, h, tail, s'.env, s'.mem, f),
                       s, s', reserved, code.vars, n, code.next)
    decreases f, 0, stmts, 0
  {
    s' := s;
    if stmts == [] {
      assert [] + tail == tail;
    } else {
      var c := CodeOfStmt(stmts[0], vars, n).value;
      var rest := CodeOfStmts(stmts[1..], c.vars, c.next).value;
      assert c.ops + rest.ops + tail == c.ops + (rest.ops + tail);
      s' := StmtSim(prog, m, h, stmts[0], rest.ops + tail, scope, reserved, vars, n, s, f);
      var r := ExecOne(prog, scope, stmts[0], f);
      if r.Next? {
        s' := StmtsSim(prog, m, h, stmts[1..], tail, r.scope, reserved, c.vars, c.next, s', f);
      }
    }
  }

  lemma {:induction false} StmtSim(prog: Program, m: Module, h: string, stmt: Stmt, tail: seq<Op>, scope: Scope, reserved: set<nat>,
                                   vars: VarMap, n: Vid, s: State, f: nat) returns (s': State)
    requires CallsAgree(prog, m, f) && CodeOfStmt(stmt, vars, n).Ok? && StableCond(stmt)
    requires Related(scope, s.slots, reserved, vars, n, s.env, s.mem)
    ensures var code := CodeOfStmt(stmt, vars, n).value;
            StmtAgrees(ExecOne(prog, scope, stmt, f), KalIR.Run(m, h, code.ops + tail, s.env, s.mem, f), KalIR.Run(m, h, tail, s'.env, s'.mem, f),
                       s, s', reserved, code.vars, n, code.next)
    decreases f, 0, stmt
  {
    match stmt
    case VarDecl(_, _) => s' := DeclSim(prog, m, h, stmt, tail, scope, reserved, vars, n, s, f);
    case If(_, _, _) => s' := IfSim(prog, m, h, stmt, tail, scope, reserved, vars, n, s, f);
    case While(_, _) => s' := WhileSim(prog, m, h, stmt, tail, scope, reserved, vars, n, s, f);
    case _ => s' := PlainSim(prog, m, h, stmt, tail, scope, reserved, vars, n, s, f);
  }

  /** Assignments, returns and expression statements. */
  lemma {:induction false} PlainSim(prog: Program, m: Module, h: string, stmt: Stmt, tail: seq<Op>, scope: Scope, reserved: set<nat>,
                                    vars: VarMap, n: Vid, s: State, f: nat) returns (s': State)
    requires stmt.Assign? || stmt.Return? || stmt.ExprStmt?
    requires CallsAgree(prog, m, f) && CodeOfStmt(stmt, vars, n).Ok? && Related(scope, s.slots, reserved, vars, n, s.env, s.mem)
    ensures var code := CodeOfStmt(stmt, vars, n).value;
            StmtAgrees(ExecOne(prog, scope, stmt, f), KalIR.Run(m, h, code.ops + tail, s.env, s.mem, f), KalIR.Run(m, h, tail, s'.env, s'.mem, f),
                       s, s', reserved, code.vars, n, code.next)
    decreases f, 0, stmt, 0
  {
    var e := if stmt.Assign? then stmt.value else if stmt.Return? then stmt.result else stmt.expr;
    var c := CodeOfExpr(e, vars, n).value;
    var last := if stmt.Assign? then [KalIR.KStore(vars[stmt.name], c.v)] else if stmt.Return? then [KalIR.KRet(c.v)] else [];
    assert (if stmt.ExprStmt? then c.ops else c.ops + last) + tail == c.ops + (last + tail);
    var env' := ExprSim(prog, m, h, e, last + tail, scope, s.slots, reserved, vars, n, s.env, s.mem, f);
    s' := s.(env := env');
    var v := Eval(prog, scope, e, f);
    if v.Val? {
      if stmt.Return? {
        KalIR.RunExit(m, h, last[0], tail, env', s.mem, f);
      } else if stmt.Assign? {
        AssignRelated(scope, s.slots, reserved, vars, c.next, env', s.mem, stmt.name, v.v);
        KalIR.RunFirst(m, h, last[0], tail, env', s.mem, f);
        s' := s'.(mem := s.mem[env'[vars[stmt.name]].a := Some(v.v)]);
      } else {
        assert last + tail == tail;
      }
    }
  }

  lemma DeclVars(x: string, scope: Scope, slots: seq<Vid>, vars: VarMap, n: Vid, v: Option<I64>)
    requires VarsOk(scope, slots, vars, n)
    ensures VarsOk(scope + [Binding(x, v)], slots + [n], vars[x := n], n + 1)
  {
    var names := Names(scope + [Binding(x, v)]);
    assert names[..|scope|] == Names(scope) && (slots + [n])[..|scope|] == slots;
  }

  lemma DeclSlots(b: Binding, scope: Scope, slots: seq<Vid>, reserved: set<nat>, n: Vid, env: Env, mem: Mem)
    requires InSlots(scope, slots, reserved, env, mem) && b.val == None && forall i :: 0 <= i < |slots| ==> slots[i] < n
    ensures InSlots(scope + [b], slots + [n], reserved, env[n := KalIR.Addr(|mem|)], mem + [None])
  {
    var env' := env[n := KalIR.Addr(|mem|)];
    forall i | 0 <= i < |slots| ensures slots[i] in env' && env'[slots[i]] == env[slots[i]] { assert slots[i] < n; }
  }

  lemma DeclRelated(x: string, scope: Scope, slots: seq<Vid>, reserved: set<nat>, vars: VarMap, n: Vid, env: Env, mem: Mem)
    requires Related(scope, slots, reserved, vars, n, env, mem)
    ensures Related(scope + [Binding(x, None)], slots + [n], reserved, vars[x := n], n + 1, env[n := KalIR.Addr(|mem|)], mem + [None])
  {
    DeclVars(x, scope, slots, vars, n, None);
    DeclSlots(Binding(x, None), scope, slots, reserved, n, env, mem);
  }

  lemma StoreRelated(scope: Scope, slots: seq<Vid>, reserved: set<nat>, vars: VarMap, n: Vid, env: Env, mem: Mem, i: nat, v: I64)
    requires Related(scope, slots, reserved, vars, n, env, mem) && i < |scope|
    ensures Related(scope[i := scope[i].(val := Some(v))], slots, reserved, vars, n, env, mem[env[slots[i]].a := Some(v)])
  {
    assert Names(scope[i := scope[i].(val := Some(v))]) == Names(scope);
  }

  lemma {:induction false} AssignRelated(scope: Scope, slots: seq<Vid>, reserved: set<nat>, vars: VarMap, n: Vid, env: Env, mem: Mem, x: string, v: I64)
    requires InSlots(scope, slots, reserved, env, mem) && VarsOk(scope, slots, vars, n) && x in vars
    ensures Find(scope, x) >= 0 && KalIR.HasSlot(env, mem, vars[x])
    ensures Related(scope[Find(scope, x) := Binding(x, Some(v))], slots, reserved, vars, n, env, mem[env[vars[x]].a := Some(v)])
  {
    var i := Find(scope, x);
    VarsOfFind(scope, slots, x);
    StoreRelated(scope, slots, reserved, vars, n, env, mem, i, v);
    assert scope[i].(val := Some(v)) == Binding(x, Some(v));
  }

  lemma {:induction false} DeclCode(stmt: Stmt, vars: VarMap, n: Vid, tail: seq<Op>)
    requires stmt.VarDecl? && stmt.init.Some? && CodeOfStmt(stmt, vars, n).Ok?
    ensures var c := CodeOfExpr(stmt.init.value, vars[stmt.name := n], n + 1);
            c.Ok? && CodeOfStmt(stmt, vars, n).value.ops + tail == [KalIR.KDecl(n)] + (c.value.ops + ([KalIR.KStore(n, c.value.v)] + tail))
  {
  }

  lemma {:induction false} DeclSim(prog: Program, m: Module, h: string, stmt: Stmt, tail: seq<Op>, scope: Scope, reserved: set<nat>,
                                   vars: VarMap, n: Vid, s: State, f: nat) returns (s': State)
    requires stmt.VarDecl? && CallsAgree(prog, m, f) && CodeOfStmt(stmt, vars, n).Ok? && Related(scope, s.slots, reserved, vars, n, s.env, s.mem)
    ensures var code := CodeOfStmt(stmt, vars, n).value;
            StmtAgrees(ExecOne(prog, scope, stmt, f), KalIR.Run(m, h, code.ops + tail, s.env, s.mem, f), KalIR.Run(m, h, tail, s'.env, s'.mem, f),
                       s, s', reserved, code.vars, n, code.next)
    decreases f, 0, stmt, 0
  {
    var x, decl := stmt.name, KalIR.KDecl(n);
    DeclRelated(x, scope, s.slots, reserved, vars, n, s.env, s.mem);
    s' := State(s.slots + [n], s.env[n := KalIR.Addr(|s.mem|)], s.mem + [None]);
    if stmt.init == None {
      KalIR.RunFirst(m, h, decl, tail, s.env, s.mem, f);
    } else {
      var e := stmt.init.value;
      var c := CodeOfExpr(e, vars[x := n], n + 1).value;
      var rest := c.ops + ([KalIR.KStore(n, c.v)] + tail);
      DeclCode(stmt, vars, n, tail);
      KalIR.RunFirst(m, h, decl, rest, s.env, s.mem, f);
      s' := InitSim(prog, m, h, x, e, tail, scope, reserved, vars, n, s', f);
    }
  }

  /** The initialiser of a declaration, evaluated and stored into the new slot. */
  lemma {:induction false} InitSim(prog: Program, m: Module, h: string, x: string, e: Expr, tail: seq<Op>, scope: Scope, reserved: set<nat>,
                                   vars: VarMap, n: Vid, s: State, f: nat) returns (s': State)
    requires CallsAgree(prog, m, f) && CodeOfExpr(e, vars[x := n], n + 1).Ok? && |s.slots| == |scope| + 1 && s.slots[|scope|] == n
    requires Related(scope + [Binding(x, None)], s.slots, reserved, vars[x := n], n + 1, s.env, s.mem)
    ensures var c := CodeOfExpr(e, vars[x := n], n + 1).value;
            StmtAgrees(ExecOne(prog, scope, VarDecl(x, Some(e)), f),
                       KalIR.Run(m, h, c.ops + ([KalIR.KStore(n, c.v)] + tail), s.env, s.mem, f), KalIR.Run(m, h, tail, s'.env, s'.mem, f),
                       s, s', reserved, vars[x := n], n + 1, c.next)
    decreases f, 0, e, 0
  {
    var scope1 := scope + [Binding(x, None)];
    var c := CodeOfExpr(e, vars[x := n], n + 1).value;
    var store := KalIR.KStore(n, c.v);
    var env' := ExprSim(prog, m, h, e, [store] + tail, scope1, s.slots, reserved, vars[x := n], n + 1, s.env, s.mem, f);
    s' := s.(env := env');
    var v := Eval(prog, scope1, e, f);
    if v.Val? {
      assert n in env' && env'[n] == s.env[n];
      StoreRelated(scope1, s.slots, reserved, vars[x := n], c.next, env', s.mem, |scope|, v.v);
      assert scope1[|scope| := Binding(x, Some(v.v))] == scope + [Binding(x, Some(v.v))];
      KalIR.RunFirst(m, h, store, tail, env', s.mem, f);
      s' := s'.(mem := s.mem[env'[n].a := Some(v.v)]);
    }
  }

  /** Leaving a block: the outer bindings are still where the variable map of the outer block says. */
  lemma LeaveRelated(outer: Scope, slots: seq<Vid>, vars: VarMap, n: Vid, inner: Scope, slots': seq<Vid>, reserved: set<nat>, next: Vid, env: Env, mem: Mem)
    requires VarsOk(outer, slots, vars, n) && n <= next && slots <= slots' && InSlots(inner, slots', reserved, env, mem)
    requires |outer| <= |inner| && Names(inner[..|outer|]) == Names(outer)
    ensures Related(inner[..|outer|], slots, reserved, vars, next, env, mem)
  {
    assert forall i :: 0 <= i < |slots| ==> slots'[i] == slots[i];
  }

  lemma {:induction false} IfSim(prog: Program, m: Module, h: string, stmt: Stmt, tail: seq<Op>, scope: Scope, reserved: set<nat>,
                                 vars: VarMap, n: Vid, s: State, f: nat) returns (s': State)
    requires stmt.If? && CallsAgree(prog, m, f) && CodeOfStmt(stmt, vars, n).Ok? && StableCond(stmt)
    requires Related(scope, s.slots, reserved, vars, n, s.env, s.mem)
    ensures var code := CodeOfStmt(stmt, vars, n).value;
            StmtAgrees(ExecOne(prog, scope, stmt, f), KalIR.Run(m, h, code.ops + tail, s.env, s.mem, f), KalIR.Run(m, h, tail, s'.env, s'.mem, f),
                       s, s', reserved, code.vars, n, code.next)
    decreases f, 0, stmt, 0
  {
    var c := CodeOfExpr(stmt.cond, vars, n).value;
    var t := CodeOfBranch(stmt.thenBody, vars, c.next).value;
    var e := CodeOfBranch(stmt.elseBody, vars, t.next).value;
    var op := KalIR.KIf(c.v, t.ops, e.ops);
    assert c.ops + [op] + tail == c.ops + ([op] + tail);
    var env' := ExprSim(prog, m, h, stmt.cond, [op] + tail, scope, s.slots, reserved, vars, n, s.env, s.mem, f);
    s' := s.(env := env');
    var v := Eval(prog, scope, stmt.cond, f);
    if v.Val? {
      KalIR.RunIf(m, h, op, tail, env', s.mem, f);
      if v.v != 0 {
        s' := BranchSim(prog, m, h, stmt.thenBody, scope, reserved, vars, c.next, s', f, e.next);
      } else {
        s' := BranchSim(prog, m, h, stmt.elseBody, scope, reserved, vars, t.next, s', f, e.next);
      }
    }
  }

  lemma {:induction false} BranchSim(prog: Program, m: Module, h: string, stmts: seq<Stmt>, scope: Scope, reserved: set<nat>,
                                     vars: VarMap, n: Vid, s: State, f: nat, next: Vid) returns (s': State)
    requires CallsAgree(prog, m, f) && CodeOfBranch(stmts, vars, n).Ok? && StableConds(stmts)
    requires Related(scope, s.slots, reserved, vars, n, s.env, s.mem)
    requires CodeOfBranch(stmts, vars, n).value.next <= next
    ensures StmtAgrees(LeaveBlock(scope, Exec(prog, scope, stmts, f)), KalIR.Run(m, h, CodeOfBranch(stmts, vars, n).value.ops, s.env, s.mem, f),
                       KalIR.Fell(s'.env, s'.mem), s, s', reserved, vars, n, next)
    decreases f, 0, stmts, 1
  {
    var b := CodeOfStmts(stmts, vars, n).value;
    var tail := if b.terminated then [] else [KalIR.KYield];
    assert CodeOfBranch(stmts, vars, n).value.ops == b.ops + tail;
    s' := StmtsSim(prog, m, h, stmts, tail, scope, reserved, vars, n, s, f);
    BlockNames(prog, scope, stmts, f);
    var r := Exec(prog, scope, stmts, f);
    if r.Next? {
      assert KalIR.Run(m, h, tail, s'.env, s'.mem, f) == KalIR.Fell(s'.env, s'.mem) by {
        if tail != [] { KalIR.RunExit(m, h, KalIR.KYield, [], s'.env, s'.mem, f); }
      }
      LeaveRelated(scope, s.slots, vars, n, r.scope, s'.slots, reserved, next, s'.env, s'.mem);
      s' := s'.(slots := s.slots);
    }
  }

  lemma ReserveRelated(scope: Scope, slots: seq<Vid>, reserved: set<nat>, vars: VarMap, n: Vid, env: Env, mem: Mem)
    requires Related(scope, slots, reserved, vars, n, env, mem)
    ensures Related(scope, slots, reserved + {|mem|}, vars, n + 1, env[n := KalIR.Addr(|mem|)], mem + [None])
  {
    var env' := env[n := KalIR.Addr(|mem|)];
    forall i | 0 <= i < |slots| ensures slots[i] in env' && env'[slots[i]] == env[slots[i]] { assert slots[i] < n; }
  }

  lemma ReservedStore(scope: Scope, slots: seq<Vid>, reserved: set<nat>, env: Env, mem: Mem, addr: nat, v: I64)
    requires InSlots(scope, slots, reserved + {addr}, env, mem) && addr < |mem|
    ensures InSlots(scope, slots, reserved + {addr}, env, mem[addr := Some(v)])
  {
  }

  /** The code of a loop, cut where it is run piece by piece. */
  lemma {:induction false} WhileOps(stmt: Stmt, vars: VarMap, n: Vid, tail: seq<Op>)
    requires stmt.While? && CodeOfStmt(stmt, vars, n).Ok?
    ensures CodeOfExpr(stmt.cond, vars, n + 1).Ok?
    ensures var c, code := CodeOfExpr(stmt.cond, vars, n + 1).value, CodeOfStmt(stmt, vars, n).value;
            && CodeOfLoopBody(stmt.cond, stmt.body, n, vars, c.next).Ok?
            && var b := CodeOfLoopBody(stmt.cond, stmt.body, n, vars, c.next).value;
               && code.ops + tail == [KalIR.KDecl(n)] + (c.ops + ([KalIR.KStore(n, c.v)] + ([KalIR.KWhile(n, b.ops)] + tail)))
               && code.vars == vars && code.next == b.next
  {
    var c := CodeOfExpr(stmt.cond, vars, n + 1).value;
    var b := CodeOfLoopBody(stmt.cond, stmt.body, n, vars, c.next).value;
    var store, loop := KalIR.KStore(n, c.v), KalIR.KWhile(n, b.ops);
    assert [KalIR.KDecl(n)] + c.ops + [store, loop] + tail == [KalIR.KDecl(n)] + (c.ops + ([store] + ([loop] + tail)));
  }

  lemma {:induction false} WhileSim(prog: Program, m: Module, h: string, stmt: Stmt, tail: seq<Op>, scope: Scope, reserved: set<nat>,
                                    vars: VarMap, n: Vid, s: State, f: nat) returns (s': State)
    requires stmt.While? && CallsAgree(prog, m, f) && CodeOfStmt(stmt, vars, n).Ok? && StableCond(stmt)
    requires Related(scope, s.slots, reserved, vars, n, s.env, s.mem)
    ensures var code := CodeOfStmt(stmt, vars, n).value;
            StmtAgrees(ExecOne(prog, scope, stmt, f), KalIR.Run(m, h, code.ops + tail, s.env, s.mem, f), KalIR.Run(m, h, tail, s'.env, s'.mem, f),
                       s, s', reserved, code.vars, n, code.next)
    decreases f, 0, stmt, 1
  {
    var c := CodeOfExpr(stmt.cond, vars, n + 1).value;
    var b := CodeOfLoopBody(stmt.cond, stmt.body, n, vars, c.next).value;
    var decl, store, loop := KalIR.KDecl(n), KalIR.KStore(n, c.v), KalIR.KWhile(n, b.ops);
    var addr := |s.mem|;
    WhileOps(stmt, vars, n, tail);
    KalIR.RunFirst(m, h, decl, c.ops + ([store] + ([loop] + tail)), s.env, s.mem, f);
    ReserveRelated(scope, s.slots, reserved, vars, n, s.env, s.mem);
    s' := State(s.slots, s.env[n := KalIR.Addr(addr)], s.mem + [None]);
    var env' := ExprSim(prog, m, h, stmt.cond, [store] + ([loop] + tail), scope, s.slots, reserved + {addr}, vars, n + 1, s'.env, s'.mem, f);
    var v := Eval(prog, scope, stmt.cond, f);
    if v.Val? {
      assert n in env' && env'[n] == KalIR.Addr(addr);
      KalIR.RunFirst(m, h, store, [loop] + tail, env', s'.mem, f);
      ReservedStore(scope, s.slots, reserved, env', s'.mem, addr, v.v);
      var s2 := State(s.slots, env', s'.mem[addr := Some(v.v)]);
      KalIR.RunWhile(m, h, loop, tail, env', s2.mem, f);
      s' := LoopSim(prog, m, h, stmt, n, scope, reserved, addr, vars, c.next, b.next, s2, f);
    }
  }

  /** One iteration in the source, and one of the lowered loop. */
  lemma WhileUnrolled(prog: Program, scope: Scope, stmt: Stmt, f: nat)
    requires stmt.While? && f > 0 && Eval(prog, scope, stmt.cond, f).Val? && Eval(prog, scope, stmt.cond, f).v != 0
    ensures var r := LeaveBlock(scope, Exec(prog, scope, stmt.body, f - 1));
            ExecOne(prog, scope, stmt, f) == if r.Next? then ExecOne(prog, r.scope, stmt, f - 1) else r
  {
  }

  lemma LoopUnrolled(m: Module, h: string, slot: Vid, region: seq<Op>, env: Env, mem: Mem, f: nat)
    requires f > 0 && KalIR.Load(env, mem, slot).Some? && KalIR.Load(env, mem, slot).value != 0
    ensures var o := KalIR.Run(m, h, region, env, mem, f - 1);
            KalIR.Loop(m, h, slot, region, env, mem, f) == if o.Fell? then KalIR.Loop(m, h, slot, region, o.env, o.mem, f - 1) else o
  {
  }

  /** From a state whose condition slot holds the condition's value, the loop does what the source loop does. */
  lemma {:induction false} LoopSim(prog: Program, m: Module, h: string, stmt: Stmt, slot: Vid, scope: Scope, reserved: set<nat>, addr: nat,
                                   vars: VarMap, n: Vid, next: Vid, s: State, f: nat) returns (s': State)
    requires stmt.While? && CallsAgree(prog, m, f) && StableCond(stmt) && slot < n
    requires CodeOfLoopBody(stmt.cond, stmt.body, slot, vars, n).Ok? && CodeOfLoopBody(stmt.cond, stmt.body, slot, vars, n).value.next == next
    requires Related(scope, s.slots, reserved + {addr}, vars, n, s.env, s.mem)
    requires slot in s.env && s.env[slot] == KalIR.Addr(addr) && addr < |s.mem| && s.mem[addr].Some?
    requires Eval(prog, scope, stmt.cond, f) == Val(s.mem[addr].value)
    ensures StmtAgrees(ExecOne(prog, scope, stmt, f), KalIR.Loop(m, h, slot, CodeOfLoopBody(stmt.cond, stmt.body, slot, vars, n).value.ops, s.env, s.mem, f),
                       KalIR.Fell(s'.env, s'.mem), s, s', reserved, vars, n, next)
    decreases f, 0, stmt, 0
  {
    s' := s;
    var region := CodeOfLoopBody(stmt.cond, stmt.body, slot, vars, n).value.ops;
    assert KalIR.Load(s.env, s.mem, slot) == s.mem[addr];
    if s.mem[addr].value != 0 && f > 0 {
      s' := IterationSim(prog, m, h, stmt, slot, scope, reserved, addr, vars, n, next, s, f - 1);
      var r := LeaveBlock(scope, Exec(prog, scope, stmt.body, f - 1));
      WhileUnrolled(prog, scope, stmt, f);
      LoopUnrolled(m, h, slot, region, s.env, s.mem, f);
      if r.Next? && Eval(prog, r.scope, stmt.cond, f - 1).Val? {
        s' := LoopSim(prog, m, h, stmt, slot, r.scope, reserved, addr, vars, n, next, s', f - 1);
      }
    }
  }

  /** One iteration: the body runs, then the condition is evaluated again among the body's variables,
      which gives what the outer variables give. */
  lemma {:induction false} IterationSim(prog: Program, m: Module, h: string, stmt: Stmt, slot: Vid, scope: Scope, reserved: set<nat>, addr: nat,
                                        vars: VarMap, n: Vid, next: Vid, s: State, f: nat) returns (s': State)
    requires stmt.While? && CallsAgree(prog, m, f) && StableCond(stmt) && slot < n
    requires CodeOfLoopBody(stmt.cond, stmt.body, slot, vars, n).Ok? && CodeOfLoopBody(stmt.cond, stmt.body, slot, vars, n).value.next == next
    requires Related(scope, s.slots, reserved + {addr}, vars, n, s.env, s.mem)
    requires slot in s.env && s.env[slot] == KalIR.Addr(addr) && addr < |s.mem|
    ensures IterationAgrees(LeaveBlock(scope, Exec(prog, scope, stmt.body, f)), prog, stmt.cond,
                            KalIR.Run(m, h, CodeOfLoopBody(stmt.cond, stmt.body, slot, vars, n).value.ops, s.env, s.mem, f),
                            s, s', reserved, addr, slot, vars, n, f)
    decreases f, 0, stmt, 2
  {
    var b := CodeOfStmts(stmt.body, vars, n).value;
    var region := CodeOfLoopBody(stmt.cond, stmt.body, slot, vars, n).value.ops;
    TerminatedMeansReturn(stmt.body, vars, n);
    BlockNames(prog, scope, stmt.body, f);
    if b.terminated {
      assert region == b.ops + [];
      s' := StmtsSim(prog, m, h, stmt.body, [], scope, reserved + {addr}, vars, n, s, f);
      ReturnLastNeverFalls(prog, scope, stmt.body, f);
    } else {
      var c := CodeOfExpr(stmt.cond, b.vars, b.next).value;
      var end := [KalIR.KStore(slot, c.v)] + [KalIR.KYield];
      assert region == b.ops + (c.ops + end);
      s' := StmtsSim(prog, m, h, stmt.body, c.ops + end, scope, reserved + {addr}, vars, n, s, f);
      var r := Exec(prog, scope, stmt.body, f);
      if r.Next? {
        CondAfterBody(prog, scope, stmt, r.scope, f);
        assert slot in s'.env && s'.env[slot] == KalIR.Addr(addr);
        var s1 := s';
        var env' := ExprSim(prog, m, h, stmt.cond, end, r.scope, s1.slots, reserved + {addr}, b.vars, b.next, s1.env, s1.mem, f);
        var v := Eval(prog, r.scope, stmt.cond, f);
        if v.Val? {
          s' := CondStored(m, h, scope, r.scope, s, s1, env', reserved, addr, slot, vars, n, b.next, c.v, v.v, f);
        }
      }
    }
  }

  ghost predicate IterationAgrees(flow: Flow, prog: Program, cond: Expr, o: KalIR.Outcome, s: State, s': State,
                                  reserved: set<nat>, addr: nat, slot: Vid, vars: VarMap, n: Vid, f: nat) {
    match flow
    case Returned(v) => o == KalIR.Returned(v)
    case Halted(w) => o == KalIR.Halted(w)
    case Next(scope) =>
      match Eval(prog, scope, cond, f)
      case NoVal(w) => o == KalIR.Halted(w)
      case Val(v) =>
        && o == KalIR.Fell(s'.env, s'.mem)
        && Related(scope, s'.slots, reserved + {addr}, vars, n, s'.env, s'.mem) && s'.slots == s.slots
        && KalIR.Agree(n, s.env, s'.env) && |s.mem| <= |s'.mem|
        && slot in s'.env && s'.env[slot] == KalIR.Addr(addr) && addr < |s'.mem| && s'.mem[addr] == Some(v)
  }

  /** The end of an iteration: the new condition value is stored and the body yields. */
  lemma CondStored(m: Module, h: string, outer: Scope, inner: Scope, s: State, s1: State, env': Env, reserved: set<nat>, addr: nat, slot: Vid,
                   vars: VarMap, n: Vid, next: Vid, x: Vid, v: I64, f: nat) returns (s': State)
    requires VarsOk(outer, s.slots, vars, n) && s.slots <= s1.slots && InSlots(inner, s1.slots, reserved + {addr}, env', s1.mem)
    requires |outer| <= |inner| && Names(inner[..|outer|]) == Names(outer) && n <= next
    requires slot < next && slot in s1.env && s1.env[slot] == KalIR.Addr(addr) && addr < |s1.mem| && KalIR.Agree(next, s1.env, env')
    requires KalIR.HasInt(env', x) && env'[x].i == v
    ensures s' == State(s.slots, env', s1.mem[addr := Some(v)])
    ensures KalIR.Run(m, h, [KalIR.KStore(slot, x)] + [KalIR.KYield], env', s1.mem, f) == KalIR.Fell(s'.env, s'.mem)
    ensures Related(inner[..|outer|], s'.slots, reserved + {addr}, vars, n, s'.env, s'.mem)
    ensures slot in s'.env && s'.env[slot] == KalIR.Addr(addr)
  {
    s' := State(s.slots, env', s1.mem[addr := Some(v)]);
    ReservedStore(inner, s1.slots, reserved, env', s1.mem, addr, v);
    KalIR.RunFirst(m, h, KalIR.KStore(slot, x), [KalIR.KYield], env', s1.mem, f);
    KalIR.RunExit(m, h, KalIR.KYield, [], env', s'.mem, f);
    assert [KalIR.KYield] + [] == [KalIR.KYield];
    LeaveRelated(outer, s.slots, vars, n, inner, s1.slots, reserved + {addr}, n, env', s'.mem);
  }

  lemma {:induction false} CondAfterBody(prog: Program, scope: Scope, s: Stmt, inner: Scope, f: nat)
    requires s.While? && StableCond(s) && !EndsInReturn(s.body) && Exec(prog, scope, s.body, f) == Next(inner) && |scope| <= |inner|
    ensures Eval(prog, inner, s.cond, f) == Eval(prog, inner[..|scope|], s.cond, f)
  {
    ExecNames(prog, scope, s.body, f);
    forall i | |scope| <= i < |inner| ensures inner[i].name !in Vars(s.cond) {
      assert Names(inner)[i] == DeclNames(s.body)[i - |Names(scope)|];
      assert inner[i].name in DeclNames(s.body);
    }
    EvalUnderMoreNames(prog, inner, |scope|, s.cond, f);
  }

  // ----- functions -----

  lemma SpillCode(params: seq<string>, i: nat, vars: VarMap, n: Vid, tail: seq<Op>)
    requires i < |params|
    ensures var rest := SpillFrom(params, i + 1, vars[params[i] := n], n + 1);
            var code := SpillFrom(params, i, vars, n);
            && code.ops + tail == [KalIR.KDecl(n)] + ([KalIR.KStore(n, i)] + (rest.ops + tail))
            && code.vars == rest.vars && code.next == rest.next
  {
  }

  lemma ScopeParts(params: seq<string>, args: seq<I64>, i: nat)
    requires |params| == |args| && i <= |params|
    ensures i == |params| ==> ParamScope(params, args)[..i] == ParamScope(params, args)
    ensures i < |params| ==> ParamScope(params, args)[..i + 1] == ParamScope(params, args)[..i] + [Binding(params[i], Some(args[i]))]
  {
  }

  lemma {:induction false} SpillNone(params: seq<string>, vars: VarMap, n: Vid, tail: seq<Op>)
    ensures SpillFrom(params, |params|, vars, n) == StmtCode([], vars, n, false) && [] + tail == tail
  {
  }

  /** Running the parameter spills from the `i`-th on. */
  lemma {:induction false} SpillSim(m: Module, h: string, params: seq<string>, args: seq<I64>, i: nat, code: StmtCode, tail: seq<Op>, scope: Scope,
                                    vars: VarMap, n: Vid, s: State, f: nat) returns (s': State)
    requires |params| == |args| && i <= |params| <= n && scope == ParamScope(params, args)[..i]
    requires Related(scope, s.slots, {}, vars, n, s.env, s.mem)
    requires ParamsBound(s.env, args) && code == SpillFrom(params, i, vars, n)
    ensures KalIR.Run(m, h, code.ops + tail, s.env, s.mem, f) == KalIR.Run(m, h, tail, s'.env, s'.mem, f)
    ensures Related(ParamScope(params, args), s'.slots, {}, code.vars, code.next, s'.env, s'.mem)
    decreases |params| - i
  {
    ScopeParts(params, args, i);
    if i == |params| {
      s' := s;
      SpillNone(params, vars, n, tail);
    } else {
      var vars1, scope1 := vars[params[i] := n], ParamScope(params, args)[..i + 1];
      var rest := SpillFrom(params, i + 1, vars1, n + 1);
      SpillCode(params, i, vars, n, tail);
      var s1 := SpillOne(m, h, params[i], args, i, rest.ops + tail, scope, vars, n, s, f);
      s' := SpillSim(m, h, params, args, i + 1, rest, tail, scope1, vars1, n + 1, s1, f);
    }
  }

  lemma {:induction false} SpillOne(m: Module, h: string, x: string, args: seq<I64>, i: nat, tail: seq<Op>, scope: Scope,
                                    vars: VarMap, n: Vid, s: State, f: nat) returns (s': State)
    requires i < |args| <= n && |scope| == i && Related(scope, s.slots, {}, vars, n, s.env, s.mem) && ParamsBound(s.env, args)
    ensures KalIR.Run(m, h, [KalIR.KDecl(n)] + ([KalIR.KStore(n, i)] + tail), s.env, s.mem, f) == KalIR.Run(m, h, tail, s'.env, s'.mem, f)
    ensures Related(scope + [Binding(x, Some(args[i]))], s'.slots, {}, vars[x := n], n + 1, s'.env, s'.mem) && ParamsBound(s'.env, args)
  {
    KalIR.RunFirst(m, h, KalIR.KDecl(n), [KalIR.KStore(n, i)] + tail, s.env, s.mem, f);
    DeclRelated(x, scope, s.slots, {}, vars, n, s.env, s.mem);
    var s1 := State(s.slots + [n], s.env[n := KalIR.Addr(|s.mem|)], s.mem + [None]);
    assert KalIR.HasInt(s1.env, i) && s1.env[i].i == args[i];
    KalIR.RunFirst(m, h, KalIR.KStore(n, i), tail, s1.env, s1.mem, f);
    StoreRelated(scope + [Binding(x, None)], s1.slots, {}, vars[x := n], n + 1, s1.env, s1.mem, i, args[i]);
    assert (scope + [Binding(x, None)])[i := Binding(x, Some(args[i]))] == scope + [Binding(x, Some(args[i]))];
    s' := s1.(mem := s1.mem[|s.mem| := Some(args[i])]);
  }

  /** Value `k` is the `k`-th argument. */
  ghost predicate ParamsBound(env: Env, args: seq<I64>) {
    forall k :: 0 <= k < |args| ==> KalIR.HasInt(env, k) && env[k].i == args[k]
  }

  lemma {:induction false} BindParams(env: Env, k: nat, args: seq<I64>)
    requires k <= |args| && ParamsBound(env, args[..k])
    ensures ParamsBound(KalIR.Bind(env, seq(|args|, i => i)[k..], args[k..]), args)
    decreases |args| - k
  {
    var xs := seq(|args|, i => i);
    if k < |args| {
      assert xs[k..][0] == k && xs[k..][1..] == xs[k + 1..] && args[k..][1..] == args[k + 1..];
      BindParams(env[k := KalIR.Int(args[k])], k + 1, args);
    } else {
      assert args[..k] == args;
    }
  }

  /** The main result: a lowered function means what the source function means, for any fuel. */
  lemma {:induction false} FunctionSim(prog: Program, m: Module, g: string, args: seq<I64>, f: nat)
    requires Lowered(prog, m)
    ensures KalIR.RunFunction(m, g, args, f) == CallFunction(prog, g, args, f)
    decreases f
  {
    forall g', args', k: nat | k < f ensures KalIR.RunFunction(m, g', args', k) == CallFunction(prog, g', args', k) {
      FunctionSim(prog, m, g', args', k);
    }
    if g in prog {
      assert CodeOfFunction(prog[g]) == Ok(m[g]) && StableConds(prog[g].body);
      assert |m[g].blocks[0].params| == |prog[g].params|;
      if |args| == |prog[g].params| { BodySim(prog, m, g, prog[g], m[g], args, f); }
    }
  }

  lemma {:induction false} BodySim(prog: Program, m: Module, g: string, fn: Function, code: KalIR.Func, args: seq<I64>, f: nat)
    requires CallsAgree(prog, m, f) && CodeOfFunction(fn) == Ok(code) && StableConds(fn.body) && |args| == |fn.params|
    ensures var o := KalIR.Run(m, g, code.blocks[0].ops, KalIR.Bind(map[], seq(|args|, i => i), args), [], f);
            match Exec(prog, ParamScope(fn.params, args), fn.body, f)
            case Next(_) => o == KalIR.Returned(0)
            case Returned(v) => o == KalIR.Returned(v)
            case Halted(why) => o == KalIR.Halted(why)
  {
    var p := SpillFrom(fn.params, 0, map[], |fn.params|);
    var b := CodeOfStmts(fn.body, p.vars, p.next).value;
    var xs := seq(|args|, i => i);
    assert xs[0..] == xs && args[0..] == args;
    BindParams(map[], 0, args);
    var scope := ParamScope(fn.params, args);
    var ops := p.ops + b.ops;
    var tail := if EndsInTerminator(ops) then [] else [KalIR.KConst(b.next, 0)] + [KalIR.KRet(b.next)];
    assert code.blocks[0].ops == p.ops + (b.ops + tail);
    var s := State([], KalIR.Bind(map[], xs, args), []);
    var s1 := SpillSim(m, g, fn.params, args, 0, p, b.ops + tail, [], map[], |fn.params|, s, f);
    var s2 := StmtsSim(prog, m, g, fn.body, tail, scope, {}, p.vars, p.next, s1, f);
    if EndsInTerminator(ops) {
      NoFallback(prog, fn, scope, f);
    } else if Exec(prog, scope, fn.body, f).Next? {
      FallbackReturns(m, g, b.next, s2.env, s2.mem, f);
    }
  }

  /** No fallback return is needed exactly when the body cannot fall off its end by its last statement. */
  lemma {:induction false} NoFallback(prog: Program, fn: Function, scope: Scope, f: nat)
    requires var p := SpillFrom(fn.params, 0, map[], |fn.params|);
             var b := CodeOfStmts(fn.body, p.vars, p.next);
             b.Ok? && EndsInTerminator(p.ops + b.value.ops)
    ensures !Exec(prog, scope, fn.body, f).Next?
  {
    var p := SpillFrom(fn.params, 0, map[], |fn.params|);
    var b := CodeOfStmts(fn.body, p.vars, p.next).value;
    TerminatedMeansReturn(fn.body, p.vars, p.next);
    SpillLastOp(fn.params, 0, map[], |fn.params|);
    var ops := p.ops + b.ops;
    assert b.ops == [] ==> ops == p.ops;
    assert b.ops != [] ==> ops[|ops| - 1] == b.ops[|b.ops| - 1];
    ReturnLastNeverFalls(prog, scope, fn.body, f);
  }

  lemma {:induction false} FallbackReturns(m: Module, g: string, n: Vid, env: Env, mem: Mem, f: nat)
    ensures KalIR.Run(m, g, [KalIR.KConst(n, 0)] + [KalIR.KRet(n)], env, mem, f) == KalIR.Returned(0)
  {
    KalIR.RunFirst(m, g, KalIR.KConst(n, 0), [KalIR.KRet(n)], env, mem, f);
    KalIR.RunExit(m, g, KalIR.KRet(n), [], env[n := KalIR.Int(0)], mem, f);
    assert [KalIR.KRet(n)] + [] == [KalIR.KRet(n)];
  }

  lemma {:induction false} SpillLastOp(params: seq<string>, i: nat, vars: VarMap, n: Vid)
    requires i <= |params|
    ensures !EndsInTerminator(SpillFrom(params, i, vars, n).ops)
    decreases |params| - i
  {
    if i < |params| { SpillLastOp(params, i + 1, vars[params[i] := n], n + 1); }
  }
}

/** What programs compute: operators on numbers, and small programs whose results are known without running them. What
    the source program computes, the compiled one computes. */
module KalExamples {
  import opened Options
  import opened KalArith
  import opened KalAst
  import KalIR
  import opened KalToLlvmCorrect
  import opened KalFromAst
  import opened KalFromAstCorrect
  import opened KalPipeline
  import opened KalSideConditions

  // ----- operators -----

  predicate Fits(x: int) {
    -0x8000_0000_0000_0000 <= x <= 0x7fff_ffff_ffff_ffff
  }

  /** `v` is `x` if that fits, and otherwise off by a multiple of 2^64. */
  predicate Truncated(x: int, v: I64) {
    (Fits(x) ==> v == x) && (x - v) % 0x1_0000_0000_0000_0000 == 0
  }

  lemma WrapTruncates(x: int)
    ensures Truncated(x, Wrap(x))
  {
    WrapExact(x);
  }

  /** A sum, difference or product that fits is exact, in the language and in both IRs; otherwise it is off by a multiple
      of 2^64. */
  lemma ArithmeticExact(a: I64, b: I64)
    ensures Truncated(a + b, BinOpMeaning(Add, a, b)) && Truncated(a - b, BinOpMeaning(Sub, a, b)) && Truncated(a * b, BinOpMeaning(Mul, a, b))
    ensures KalIR.KindMeaning(KalIR.Add, a, b) == KalIR.ArithMeaning(KalIR.LAdd, a, b) == BinOpMeaning(Add, a, b)
    ensures KalIR.KindMeaning(KalIR.Sub, a, b) == KalIR.ArithMeaning(KalIR.LSub, a, b) == BinOpMeaning(Sub, a, b)
    ensures KalIR.KindMeaning(KalIR.Mul, a, b) == KalIR.ArithMeaning(KalIR.LMul, a, b) == BinOpMeaning(Mul, a, b)
  {
    WrapTruncates(a + b);
    WrapTruncates(a - b);
    WrapTruncates(a * b);
  }

  /** A comparison holds by the sign of the exact difference; it is all ones then, and zero otherwise. */
  lemma {:induction false} ComparisonExact(a: I64, b: I64, k: nat)
    requires k < 64
    ensures BitOf(Unsigned(BinOpMeaning(Lt, a, b)), k) <==> b - a > 0
    ensures BitOf(Unsigned(BinOpMeaning(Gt, a, b)), k) <==> a - b > 0
    ensures BitOf(Unsigned(BinOpMeaning(Le, a, b)), k) <==> b - a >= 0
    ensures BitOf(Unsigned(BinOpMeaning(Ge, a, b)), k) <==> a - b >= 0
    ensures BitOf(Unsigned(BinOpMeaning(Eq, a, b)), k) <==> a - b == 0
    ensures BitOf(Unsigned(BinOpMeaning(Ne, a, b)), k) <==> a - b != 0
  {
    SignExtendBits(true, k);
    SignExtendBits(false, k);
  }

  // ----- running by hand -----

  lemma {:induction false} VariableGives(prog: Program, scope: Scope, x: string, i: nat, f: nat)
    requires i < |scope| && scope[i].name == x && scope[i].val.Some? && forall j :: i < j < |scope| ==> scope[j].name != x
    ensures Find(scope, x) == i && Eval(prog, scope, Variable(x), f) == Val(scope[i].val.value)
  {
  }

  lemma {:induction false} BinaryGives(prog: Program, scope: Scope, op: BinOp, l: Expr, r: Expr, a: I64, b: I64, f: nat)
    requires Eval(prog, scope, l, f) == Val(a) && Eval(prog, scope, r, f) == Val(b)
    ensures Eval(prog, scope, Binary(op, l, r), f) == Val(BinOpMeaning(op, a, b))
  {
  }

  lemma {:induction false} AssignGoesOn(prog: Program, scope: Scope, x: string, e: Expr, i: nat, v: I64, f: nat)
    requires Eval(prog, scope, e, f) == Val(v) && Find(scope, x) == i < |scope|
    ensures ExecOne(prog, scope, Assign(x, e), f) == Next(scope[i := Binding(x, Some(v))])
  {
  }

  lemma {:induction false} ReturnGives(prog: Program, scope: Scope, e: Expr, v: I64, f: nat)
    requires Eval(prog, scope, e, f) == Val(v)
    ensures Exec(prog, scope, [Return(e)], f) == Returned(v)
  {
  }

  lemma {:induction false} ThenStmts(prog: Program, scope: Scope, s: Stmt, rest: seq<Stmt>, mid: Scope, f: nat)
    requires ExecOne(prog, scope, s, f) == Next(mid)
    ensures Exec(prog, scope, [s] + rest, f) == Exec(prog, mid, rest, f)
  {
    assert ([s] + rest)[1..] == rest;
  }

  // ----- programs -----

  /** `def fact(n) { var r = 1; while n > 0 { r = r * n; n = n - 1; } return r; }` */
  const Times := Binary(Mul, Variable("r"), Variable("n"))
  const Down := Binary(Sub, Variable("n"), Integer(1))
  const More := Binary(Gt, Variable("n"), Integer(0))
  const Fact := Function(["n"], [VarDecl("r", Some(Integer(1))), While(More, [Assign("r", Times), Assign("n", Down)]), Return(Variable("r"))])

  function Factorial(n: nat): nat {
    if n == 0 then 1 else n * Factorial(n - 1)
  }

  function TwoVars(n: I64, r: I64): Scope {
    [Binding("n", Some(n)), Binding("r", Some(r))]
  }

  /** One iteration. */
  lemma {:induction false} FactBodyRuns(prog: Program, n: I64, r: I64, f: nat)
    requires n > 0
    ensures Exec(prog, TwoVars(n, r), [Assign("r", Times), Assign("n", Down)], f) == Next(TwoVars(n - 1, Wrap(r * n)))
  {
    WrapExact(n - 1);
    var s, s1, s2 := TwoVars(n, r), TwoVars(n, Wrap(r * n)), TwoVars(n - 1, Wrap(r * n));
    VariableGives(prog, s, "r", 1, f);
    VariableGives(prog, s, "n", 0, f);
    BinaryGives(prog, s, Mul, Variable("r"), Variable("n"), r, n, f);
    AssignGoesOn(prog, s, "r", Times, 1, Wrap(r * n), f);
    ThenStmts(prog, s, Assign("r", Times), [Assign("n", Down)], s1, f);
    VariableGives(prog, s1, "n", 0, f);
    BinaryGives(prog, s1, Sub, Variable("n"), Integer(1), n, 1, f);
    AssignGoesOn(prog, s1, "n", Down, 0, n - 1, f);
    ThenStmts(prog, s1, Assign("n", Down), [], s2, f);
    assert s1[0 := Binding("n", Some(n - 1))] == s2;
    assert [Assign("r", Times)] + [Assign("n", Down)] == [Assign("r", Times), Assign("n", Down)];
    assert [Assign("n", Down)] + [] == [Assign("n", Down)];
  }

  lemma {:induction false} FactLoopRuns(prog: Program, n: I64, r: I64, x: int, f: nat)
    requires 0 <= n <= f && r == Wrap(x)
    ensures ExecOne(prog, TwoVars(n, r), While(More, [Assign("r", Times), Assign("n", Down)]), f) == Next(TwoVars(0, Wrap(x * Factorial(n))))
    decreases n
  {
    VariableGives(prog, TwoVars(n, r), "n", 0, f);
    BinaryGives(prog, TwoVars(n, r), Gt, Variable("n"), Integer(0), n, 0, f);
    if n > 0 {
      WrapTwice(x, n);
      FactBodyRuns(prog, n, r, f - 1);
      FactLoopRuns(prog, n - 1, Wrap(x * n), x * n, f - 1);
      Reassociate(x, n, Factorial(n - 1));
      assert TwoVars(n - 1, Wrap(x * n))[..2] == TwoVars(n - 1, Wrap(x * n));
    }
  }

  lemma Reassociate(x: int, y: int, z: int)
    ensures x * y * z == x * (y * z)
  {
  }

  /** The source call computes the factorial, truncated to 64 bits. */
  lemma {:induction false} FactRuns(prog: Program, n: I64)
    requires "fact" in prog && prog["fact"] == Fact && n >= 0
    ensures SourceGives(prog, "fact", [n], Val(Wrap(Factorial(n))))
  {
    var scope := [Binding("n", Some(n))];
    var loop, ret, end := While(More, [Assign("r", Times), Assign("n", Down)]), Return(Variable("r")), TwoVars(0, Wrap(Factorial(n)));
    assert ParamScope(["n"], [n]) == scope;
    assert scope + [Binding("r", Some(1))] == TwoVars(n, 1);
    ThenStmts(prog, scope, VarDecl("r", Some(Integer(1))), [loop, ret], TwoVars(n, 1), n);
    FactLoopRuns(prog, n, 1, 1, n);
    ThenStmts(prog, TwoVars(n, 1), loop, [ret], end, n);
    VariableGives(prog, end, "r", 1, n);
    ReturnGives(prog, end, Variable("r"), Wrap(Factorial(n)), n);
    assert [VarDecl("r", Some(Integer(1)))] + [loop, ret] == Fact.body && [loop] + [ret] == [loop, ret];
    assert CallFunction(prog, "fact", [n], n) == Val(Wrap(Factorial(n)));
  }

  /** `def fib(n) { if n < 2 { return n; } else { return fib(n - 1) + fib(n - 2); } }` */
  const Small := Binary(Lt, Variable("n"), Integer(2))
  const Sum := Binary(Add, Call("fib", [Binary(Sub, Variable("n"), Integer(1))]), Call("fib", [Binary(Sub, Variable("n"), Integer(2))]))
  const Fib := Function(["n"], [If(Small, [Return(Variable("n"))], [Return(Sum)])])

  function Fibonacci(n: nat): nat {
    if n < 2 then n else Fibonacci(n - 1) + Fibonacci(n - 2)
  }

  lemma {:induction false} CallGives(prog: Program, scope: Scope, g: string, e: Expr, a: I64, v: I64, f: nat)
    requires f > 0 && Eval(prog, scope, e, f) == Val(a) && CallFunction(prog, g, [a], f - 1) == Val(v)
    ensures Eval(prog, scope, Call(g, [e]), f) == Val(v)
  {
    assert [e][1..] == [];
    assert EvalAll(prog, scope, [], f) == Vals([]);
    assert [a] + [] == [a];
    assert EvalAll(prog, scope, [e], f) == Vals([a]);
  }

  /** The two calls and their sum. */
  lemma {:induction false} SumGives(prog: Program, n: I64, x: int, y: int, f: nat)
    requires n >= 2 && f > 0
    requires CallFunction(prog, "fib", [n - 1], f - 1) == Val(Wrap(x)) && CallFunction(prog, "fib", [n - 2], f - 1) == Val(Wrap(y))
    ensures Eval(prog, [Binding("n", Some(n))], Sum, f) == Val(Wrap(x + y))
  {
    var scope := [Binding("n", Some(n))];
    var one, two := Binary(Sub, Variable("n"), Integer(1)), Binary(Sub, Variable("n"), Integer(2));
    VariableGives(prog, scope, "n", 0, f);
    WrapExact(n - 1);
    WrapExact(n - 2);
    BinaryGives(prog, scope, Sub, Variable("n"), Integer(1), n, 1, f);
    BinaryGives(prog, scope, Sub, Variable("n"), Integer(2), n, 2, f);
    CallGives(prog, scope, "fib", one, n - 1, Wrap(x), f);
    CallGives(prog, scope, "fib", two, n - 2, Wrap(y), f);
    BinaryGives(prog, scope, Add, Call("fib", [one]), Call("fib", [two]), Wrap(x), Wrap(y), f);
    WrapTwice(x, Wrap(y));
    WrapTwice(y, x);
  }

  lemma {:induction false} FibCalls(prog: Program, n: I64, f: nat)
    requires "fib" in prog && prog["fib"] == Fib && 0 <= n <= f
    ensures CallFunction(prog, "fib", [n], f) == Val(Wrap(Fibonacci(n)))
    decreases n
  {
    var scope := [Binding("n", Some(n))];
    assert ParamScope(["n"], [n]) == scope;
    VariableGives(prog, scope, "n", 0, f);
    BinaryGives(prog, scope, Lt, Variable("n"), Integer(2), n, 2, f);
    WrapExact(n);
    if n < 2 {
      ReturnGives(prog, scope, Variable("n"), n, f);
      assert ExecOne(prog, scope, Fib.body[0], f) == Returned(n);
    } else {
      FibCalls(prog, n - 1, f - 1);
      FibCalls(prog, n - 2, f - 1);
      SumGives(prog, n, Fibonacci(n - 1), Fibonacci(n - 2), f);
      ReturnGives(prog, scope, Sum, Wrap(Fibonacci(n)), f);
      assert ExecOne(prog, scope, Fib.body[0], f) == Returned(Wrap(Fibonacci(n)));
    }
  }

  lemma {:induction false} FibRuns(prog: Program, n: I64)
    requires "fib" in prog && prog["fib"] == Fib && n >= 0
    ensures SourceGives(prog, "fib", [n], Val(Wrap(Fibonacci(n))))
  {
    FibCalls(prog, n, n);
  }

  /** `def sub(a, b) { return a - b; }` */
  const Subtract := Function(["a", "b"], [Return(Binary(Sub, Variable("a"), Variable("b")))])

  lemma SubtractRuns(prog: Program, a: I64, b: I64)
    requires "sub" in prog && prog["sub"] == Subtract
    ensures SourceGives(prog, "sub", [a, b], Val(Wrap(a - b)))
  {
    var scope := [Binding("a", Some(a)), Binding("b", Some(b))];
    assert ParamScope(["a", "b"], [a, b]) == scope;
    VariableGives(prog, scope, "a", 0, 0);
    VariableGives(prog, scope, "b", 1, 0);
    BinaryGives(prog, scope, Sub, Variable("a"), Variable("b"), a, b, 0);
    ReturnGives(prog, scope, Binary(Sub, Variable("a"), Variable("b")), Wrap(a - b), 0);
    assert CallFunction(prog, "sub", [a, b], 0) == Val(Wrap(a - b));
  }

  const Three: Program := map["fact" := Fact, "fib" := Fib, "sub" := Subtract]

  lemma NoDeclarations(s: Stmt, t: Stmt)
    requires s.Assign? && t.Assign?
    ensures DeclNames([s, t]) == []
  {
    var none: seq<Stmt> := [];
    assert [s, t][1..] == [t] && [t][1..] == none;
    assert DeclNames(none) == [];
    assert DeclNames([t]) == DeclName(t) + DeclNames(none);
  }

  lemma LoopsStable(g: string)
    requires g in Three
    ensures StableConds(Three[g].body)
  {
    var body := [Assign("r", Times), Assign("n", Down)];
    NoDeclarations(body[0], body[1]);
    assert StableConds(body);
    assert StableCond(While(More, body));
    assert StableConds([Return(Variable("n"))]) && StableConds([Return(Sum)]);
  }

  /** All three can be lowered, so there is something that they compile to. */
  lemma ThreeLower()
    ensures forall g :: g in Three ==> CodeOfFunction(Three[g]).Ok?
  {
    forall g | g in Three ensures CodeOfFunction(Three[g]).Ok? { OneLowers(g); }
  }

  lemma OneLowers(g: string)
    requires g in Three
    ensures CodeOfFunction(Three[g]).Ok?
  {
    LowersIffScoped(Three[g]);
    FactScoped();
    FibScoped();
    ParamsAre();
    assert Scoped(Subtract.body, {"a", "b"}) by { assert Scoped(Subtract.body[1..], {"a", "b"}); }
  }

  lemma ParamsAre()
    ensures (set x | x in ["n"]) == {"n"} && (set x | x in ["a", "b"]) == {"a", "b"}
  {
  }

  lemma FactScoped()
    ensures Scoped(Fact.body, {"n"})
  {
    var names := {"n", "r"};
    var body := [Assign("r", Times), Assign("n", Down)];
    assert body[1..] == [Assign("n", Down)] && Scoped(body[1..][1..], names);
    assert Scoped(body[1..], names) && Scoped(body, names);
    var rest := [While(More, body), Return(Variable("r"))];
    assert rest[1..] == [Return(Variable("r"))] && Scoped(rest[1..][1..], names);
    assert Scoped(rest[1..], names) && names + Declared(rest[0]) == names;
    assert Scoped(rest, names);
    assert Fact.body[1..] == rest && {"n"} + {"r"} == names;
  }

  lemma FibScoped()
    ensures Scoped(Fib.body, {"n"})
  {
    assert Scoped([Return(Variable("n"))], {"n"}) by { assert Scoped([Return(Variable("n"))][1..], {"n"}); }
    assert Vars(Sum) <= {"n"};
    assert Scoped([Return(Sum)], {"n"}) by { assert Scoped([Return(Sum)][1..], {"n"}); }
    assert Scoped(Fib.body[1..], {"n"});
  }

  lemma CompiledGives(m: KalIR.Module, g: string, args: seq<I64>, r: Value)
    requires CompiledBut(Three, m, {}) && SourceGives(Three, g, args, r)
    ensures Gives(m, g, args, r)
  {
    forall h | h in Three ensures StableConds(Three[h].body) { LoopsStable(h); }
    CompilePreserves(Three, m, g, args, r);
  }

  /** The compiled programs compute the factorial, the Fibonacci numbers and differences, truncated to 64 bits. */
  lemma {:induction false} CompiledFact(m: KalIR.Module, n: I64)
    requires CompiledBut(Three, m, {}) && n >= 0
    ensures Gives(m, "fact", [n], Val(Wrap(Factorial(n))))
  {
    FactRuns(Three, n);
    CompiledGives(m, "fact", [n], Val(Wrap(Factorial(n))));
  }

  lemma {:induction false} CompiledFib(m: KalIR.Module, n: I64)
    requires CompiledBut(Three, m, {}) && n >= 0
    ensures Gives(m, "fib", [n], Val(Wrap(Fibonacci(n))))
  {
    FibRuns(Three, n);
    CompiledGives(m, "fib", [n], Val(Wrap(Fibonacci(n))));
  }

  lemma CompiledSubtract(m: KalIR.Module, a: I64, b: I64)
    requires CompiledBut(Three, m, {})
    ensures Gives(m, "sub", [a, b], Val(Wrap(a - b)))
  {
    SubtractRuns(Three, a, b);
    CompiledGives(m, "sub", [a, b], Val(Wrap(a - b)));
  }

  /** A function whose body goes on behind its last statement gives 0. */
  lemma {:induction false} FallsOff(prog: Program, g: string, args: seq<I64>, f: nat)
    requires g in prog && |prog[g].params| == |args| && Exec(prog, ParamScope(prog[g].params, args), prog[g].body, f).Next?
    ensures SourceGives(prog, g, args, Val(0))
  {
    assert CallFunction(prog, g, args, f) == Val(0);
  }

  /** `if c { return a; } else { return b; }` and `while c { return a; }`: every value but 0 is true. */
  lemma {:induction false} TrueUnlessZero(prog: Program, scope: Scope, c: Expr, v: I64, a: I64, b: I64, f: nat)
    requires Eval(prog, scope, c, f) == Val(v) && f > 0
    ensures ExecOne(prog, scope, If(c, [Return(Integer(a))], [Return(Integer(b))]), f) == Returned(if v == 0 then b else a)
    ensures ExecOne(prog, scope, While(c, [Return(Integer(a))]), f) == if v == 0 then Next(scope) else Returned(a)
  {
    ReturnGives(prog, scope, Integer(a), a, f);
    ReturnGives(prog, scope, Integer(a), a, f - 1);
    ReturnGives(prog, scope, Integer(b), b, f);
  }

  /** An expression without a value ends the execution wherever it stands, and a `return` ends it with its value, whatever
      comes behind. */
  lemma {:induction false} NothingBehind(prog: Program, scope: Scope, s: Stmt, e: Expr, rest: seq<Stmt>, f: nat)
    requires s == ExprStmt(e) || s == Return(e) || (s.Assign? && s.value == e) || (s.If? && s.cond == e) || (s.While? && s.cond == e)
    ensures match Eval(prog, scope, e, f)
            case NoVal(why) => Exec(prog, scope, [s] + rest, f) == Halted(why)
            case Val(v) => s.Return? ==> Exec(prog, scope, [s] + rest, f) == Returned(v)
  {
    assert ([s] + rest)[0] == s;
  }

  /** A call of an unknown function, or with the wrong number of arguments, is undefined once its arguments have values. */
  lemma {:induction false} BadCall(prog: Program, scope: Scope, g: string, args: seq<Expr>, f: nat)
    requires EvalAll(prog, scope, args, f).Vals? && f > 0 && (g !in prog || |prog[g].params| != |args|)
    ensures Exec(prog, scope, [ExprStmt(Call(g, args))], f) == Halted(Undefined)
  {
    assert Eval(prog, scope, Call(g, args), f) == NoVal(Undefined);
  }

  /** `if a { var a = 7; b = a; } else { }`: a declared name hides an outer one until its block ends, while values given to
      other outer names stay; `var a = a;` reads the new name, which has no value yet. */
  lemma {:induction false} HiddenUntilTheEnd(prog: Program, f: nat)
    ensures Exec(prog, [Binding("a", Some(1)), Binding("b", Some(5))],
                 [If(Variable("a"), [VarDecl("a", Some(Integer(7))), Assign("b", Variable("a"))], [])], f)
         == Next([Binding("a", Some(1)), Binding("b", Some(7))])
    ensures ExecOne(prog, [Binding("a", Some(1))], VarDecl("a", Some(Variable("a"))), f) == Halted(Undefined)
  {
    var s := [Binding("a", Some(1)), Binding("b", Some(5))];
    var inner := [Binding("a", Some(1)), Binding("b", Some(5)), Binding("a", Some(7))];
    var decl, assign := VarDecl("a", Some(Integer(7))), Assign("b", Variable("a"));
    VariableGives(prog, s, "a", 0, f);
    assert s + [Binding("a", Some(7))] == inner;
    ThenStmts(prog, s, decl, [assign], inner, f);
    VariableGives(prog, inner, "a", 2, f);
    VariableGives(prog, inner, "b", 1, f);
    AssignGoesOn(prog, inner, "b", Variable("a"), 1, 7, f);
    ThenStmts(prog, inner, assign, [], inner[1 := Binding("b", Some(7))], f);
    assert [decl] + [assign] == [decl, assign] && [assign] + [] == [assign];
    assert inner[1 := Binding("b", Some(7))][..2] == [Binding("a", Some(1)), Binding("b", Some(7))];
    ThenStmts(prog, s, If(Variable("a"), [decl, assign], []), [], [Binding("a", Some(1)), Binding("b", Some(7))], f);
    assert [If(Variable("a"), [decl, assign], [])] + [] == [If(Variable("a"), [decl, assign], [])];
    var own := [Binding("a", Some(1)), Binding("a", None)];
    assert [Binding("a", Some(1))] + [Binding("a", None)] == own && Find(own, "a") == 1;
  }
}

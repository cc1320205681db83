/** The Kaleidoscope abstract syntax and its reference meaning.

    The meaning is a definitional interpreter over a stack of bindings: no memory,
    no slots, no SSA values. A block drops the bindings made inside it, the innermost binding of a
    name wins, and a declared name is already bound (without a value) in its own initialiser.
    Fuel is spent by calls and by loop iterations only. */
module KalAst {
  import opened Options
  import opened KalArith

  datatype BinOp = Add | Sub | Mul | Lt | Gt | Le | Ge | Eq | Ne

  datatype Expr =
    | Integer(n: I64)
    | Variable(name: string)
    | Binary(op: BinOp, lhs: Expr, rhs: Expr)
    | Call(callee: string, args: seq<Expr>)

  datatype Stmt =
    | VarDecl(name: string, init: Option<Expr>)
    | Assign(name: string, value: Expr)
    | Return(result: Expr)
    | While(cond: Expr, body: seq<Stmt>)
    | If(cond: Expr, thenBody: seq<Stmt>, elseBody: seq<Stmt>)
    | ExprStmt(expr: Expr)

  datatype Function = Function(params: seq<string>, body: seq<Stmt>)

  type Program = map<string, Function>

  function BinOpMeaning(op: BinOp, a: I64, b: I64): I64 {
    match op
    case Add => Wrap(a + b)
    case Sub => Wrap(a - b)
    case Mul => Wrap(a * b)
    case Lt => SignExtend(a < b)
    case Gt => SignExtend(a > b)
    case Le => SignExtend(a <= b)
    case Ge => SignExtend(a >= b)
    case Eq => SignExtend(a == b)
    case Ne => SignExtend(a != b)
  }

  // ----- bindings -----

  /** A variable in scope; `None` is a variable that was declared but never given a value. */
  datatype Binding = Binding(name: string, val: Option<I64>)

  /** The bindings in scope, innermost last. */
  type Scope = seq<Binding>

  /** The position of the innermost binding of `x`, or -1. */
  function Find(scope: Scope, x: string): (i: int)
    ensures -1 <= i < |scope|
    ensures i >= 0 ==> scope[i].name == x
    ensures forall j :: i < j < |scope| ==> scope[j].name != x
  {
    if scope == [] then -1
    else if scope[|scope| - 1].name == x then |scope| - 1
    else Find(scope[..|scope| - 1], x)
  }

  // ----- meaning -----

  datatype Values = Vals(vs: seq<I64>) | NoVals(why: Halt)

  /** Where a statement leaves the execution. */
  datatype Flow = Next(scope: Scope) | Returned(v: I64) | Halted(why: Halt)

  function Eval(prog: Program, scope: Scope, e: Expr, fuel: nat): Value
    decreases fuel, 0, e
  {
    match e
    case Integer(n) => Val(n)
    case Variable(x) =>
      var i := Find(scope, x);
      if i >= 0 && scope[i].val.Some? then Val(scope[i].val.value) else NoVal(Undefined)
    case Binary(op, lhs, rhs) =>
      var l := Eval(prog, scope, lhs, fuel);
      if !l.Val? then l else
      var r := Eval(prog, scope, rhs, fuel);
      if !r.Val? then r else Val(BinOpMeaning(op, l.v, r.v))
    case Call(callee, args) =>
      var vs := EvalAll(prog, scope, args, fuel);
      if vs.NoVals? then NoVal(vs.why)
      else if fuel == 0 then NoVal(OutOfFuel)
      else CallFunction(prog, callee, vs.vs, fuel - 1)
  }

  function EvalAll(prog: Program, scope: Scope, es: seq<Expr>, fuel: nat): (r: Values)
    ensures r.Vals? ==> |r.vs| == |es|
    decreases fuel, 0, es
  {
    if es == [] then Vals([]) else
    var v := Eval(prog, scope, es[0], fuel);
    if !v.Val? then NoVals(v.why) else
    var vs := EvalAll(prog, scope, es[1..], fuel);
    if vs.NoVals? then vs else Vals([v.v] + vs.vs)
  }

  /** A function that falls off its end returns 0. */
  function CallFunction(prog: Program, name: string, args: seq<I64>, fuel: nat): Value
    decreases fuel, 1
  {
    if name !in prog || |prog[name].params| != |args| then NoVal(Undefined) else
    var f := prog[name];
    match Exec(prog, ParamScope(f.params, args), f.body, fuel)
    case Next(_) => Val(0)
    case Returned(v) => Val(v)
    case Halted(why) => NoVal(why)
  }

  function ParamScope(params: seq<string>, args: seq<I64>): (s: Scope)
    requires |params| == |args|
    ensures |s| == |params|
  {
    seq(|params|, i requires 0 <= i < |params| => Binding(params[i], Some(args[i])))
  }

  function Exec(prog: Program, scope: Scope, stmts: seq<Stmt>, fuel: nat): Flow
    decreases fuel, 0, stmts
  {
    if stmts == [] then Next(scope) else
    var r := ExecOne(prog, scope, stmts[0], fuel);
    if r.Next? then Exec(prog, r.scope, stmts[1..], fuel) else r
  }

  function ExecOne(prog: Program, scope: Scope, s: Stmt, fuel: nat): Flow
    decreases fuel, 0, s
  {
    match s
    case VarDecl(x, None) => Next(scope + [Binding(x, None)])
    case VarDecl(x, Some(e)) =>
      var v := Eval(prog, scope + [Binding(x, None)], e, fuel);
      if v.Val? then Next(scope + [Binding(x, Some(v.v))]) else Halted(v.why)
    case Assign(x, e) =>
      var v := Eval(prog, scope, e, fuel);
      if !v.Val? then Halted(v.why) else
      var i := Find(scope, x);
      if i < 0 then Halted(Undefined) else Next(scope[i := Binding(x, Some(v.v))])
    case Return(e) =>
      var v := Eval(prog, scope, e, fuel);
      if v.Val? then Returned(v.v) else Halted(v.why)
    case If(c, thn, els) =>
      var v := Eval(prog, scope, c, fuel);
      if !v.Val? then Halted(v.why) else LeaveBlock(scope, Exec(prog, scope, if v.v != 0 then thn else els, fuel))
    case While(c, body) =>
      var v := Eval(prog, scope, c, fuel);
      if !v.Val? then Halted(v.why)
      else if v.v == 0 then Next(scope)
      else if fuel == 0 then Halted(OutOfFuel) else
      var r := LeaveBlock(scope, Exec(prog, scope, body, fuel - 1));
      if r.Next? then ExecOne(prog, r.scope, s, fuel - 1) else r
    case ExprStmt(e) =>
      var v := Eval(prog, scope, e, fuel);
      if v.Val? then Next(scope) else Halted(v.why)
  }

  /** Leaving a block forgets the bindings made inside it, and keeps the values given to outer ones. */
  function LeaveBlock(outer: Scope, r: Flow): Flow {
    if r.Next? && |outer| <= |r.scope| then Next(r.scope[..|outer|]) else r
  }
}

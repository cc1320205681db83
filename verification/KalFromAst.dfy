/** Lowering of one Kaleidoscope function to structured IR: every variable lives in a slot.

    `CodeOf...` is the lowering as a function of the syntax, the variable map and the next value id;
    class `Lowering` is the lowering as the compiler performs it, appending ops and updating its
    variable map in place, and is proved to produce exactly that code. */
module KalFromAst {
  import opened Options
  import opened KalArith
  import opened KalAst
  import KalIR

  type Vid = KalIR.Vid
  type Op = KalIR.Op

  /** Maps a variable name to the value that points to its slot. */
  type VarMap = map<string, Vid>

  datatype LowerError = AssignToUndeclared(name: string) | ReferenceToUndeclared(name: string)

  datatype Result<+T> = Ok(value: T) | Err(error: LowerError)

  datatype ExprCode = ExprCode(ops: seq<Op>, v: Vid, next: Vid)
  datatype ArgsCode = ArgsCode(ops: seq<Op>, vs: seq<Vid>, next: Vid)
  /** `terminated`: the last statement emitted a block terminator. */
  datatype StmtCode = StmtCode(ops: seq<Op>, vars: VarMap, next: Vid, terminated: bool)
  datatype RegionCode = RegionCode(ops: seq<Op>, next: Vid)

  function KindOf(op: BinOp): KalIR.BinOpKind {
    match op
    case Add => KalIR.Add
    case Sub => KalIR.Sub
    case Mul => KalIR.Mul
    case Lt => KalIR.Lt
    case Gt => KalIR.Gt
    case Le => KalIR.Le
    case Ge => KalIR.Ge
    case Eq => KalIR.Eq
    case Ne => KalIR.Ne
  }

  // ----- the lowering as a function -----

  function CodeOfExpr(e: Expr, vars: VarMap, n: Vid): (r: Result<ExprCode>)
    ensures r.Ok? ==> n <= r.value.v < r.value.next
    decreases e
  {
    match e
    case Integer(k) => Ok(ExprCode([KalIR.KConst(n, k)], n, n + 1))
    case Variable(x) =>
      if x in vars then Ok(ExprCode([KalIR.KLoad(n, vars[x])], n, n + 1)) else Err(ReferenceToUndeclared(x))
    case Binary(op, lhs, rhs) =>
      var l := CodeOfExpr(lhs, vars, n);
      if l.Err? then l else
      var r := CodeOfExpr(rhs, vars, l.value.next);
      if r.Err? then r else
      var k := r.value.next;
      Ok(ExprCode(l.value.ops + r.value.ops + [KalIR.KBin(k, KindOf(op), l.value.v, r.value.v)], k, k + 1))
    case Call(callee, args) =>
      var a := CodeOfArgs(args, vars, n);
      if a.Err? then Err(a.error) else
      var k := a.value.next;
      Ok(ExprCode(a.value.ops + [KalIR.KCall(k, callee, a.value.vs)], k, k + 1))
  }

  function CodeOfArgs(es: seq<Expr>, vars: VarMap, n: Vid): (r: Result<ArgsCode>)
    ensures r.Ok? ==> n <= r.value.next && |r.value.vs| == |es|
    decreases es
  {
    if es == [] then Ok(ArgsCode([], [], n)) else
    var e := CodeOfExpr(es[0], vars, n);
    if e.Err? then Err(e.error) else
    var rest := CodeOfArgs(es[1..], vars, e.value.next);
    if rest.Err? then rest else
    Ok(ArgsCode(e.value.ops + rest.value.ops, [e.value.v] + rest.value.vs, rest.value.next))
  }

  function CodeOfStmts(stmts: seq<Stmt>, vars: VarMap, n: Vid): (r: Result<StmtCode>)
    ensures r.Ok? ==> n <= r.value.next
    decreases stmts, 0
  {
    if stmts == [] then Ok(StmtCode([], vars, n, false)) else
    var s := CodeOfStmt(stmts[0], vars, n);
    if s.Err? then s else
    var rest := CodeOfStmts(stmts[1..], s.value.vars, s.value.next);
    if rest.Err? then rest else
    Ok(StmtCode(s.value.ops + rest.value.ops, rest.value.vars, rest.value.next,
                if |stmts| == 1 then s.value.terminated else rest.value.terminated))
  }

  function CodeOfStmt(s: Stmt, vars: VarMap, n: Vid): (r: Result<StmtCode>)
    ensures r.Ok? ==> n <= r.value.next
    decreases s
  {
    match s
    case VarDecl(x, None) => Ok(StmtCode([KalIR.KDecl(n)], vars[x := n], n + 1, false))
    case VarDecl(x, Some(init)) =>
      var e := CodeOfExpr(init, vars[x := n], n + 1);
      if e.Err? then Err(e.error) else
      Ok(StmtCode([KalIR.KDecl(n)] + e.value.ops + [KalIR.KStore(n, e.value.v)], vars[x := n], e.value.next, false))
    case Assign(x, value) =>
      var e := CodeOfExpr(value, vars, n);
      if e.Err? then Err(e.error) else
      if x !in vars then Err(AssignToUndeclared(x)) else
      Ok(StmtCode(e.value.ops + [KalIR.KStore(vars[x], e.value.v)], vars, e.value.next, false))
    case Return(value) =>
      var e := CodeOfExpr(value, vars, n);
      if e.Err? then Err(e.error) else
      Ok(StmtCode(e.value.ops + [KalIR.KRet(e.value.v)], vars, e.value.next, true))
    case If(cond, thn, els) =>
      var c := CodeOfExpr(cond, vars, n);
      if c.Err? then Err(c.error) else
      var t := CodeOfBranch(thn, vars, c.value.next);
      if t.Err? then Err(t.error) else
      var e := CodeOfBranch(els, vars, t.value.next);
      if e.Err? then Err(e.error) else
      Ok(StmtCode(c.value.ops + [KalIR.KIf(c.value.v, t.value.ops, e.value.ops)], vars, e.value.next, false))
    case While(cond, body) =>
      var c := CodeOfExpr(cond, vars, n + 1);
      if c.Err? then Err(c.error) else
      var b := CodeOfLoopBody(cond, body, n, vars, c.value.next);
      if b.Err? then Err(b.error) else
      Ok(StmtCode([KalIR.KDecl(n)] + c.value.ops + [KalIR.KStore(n, c.value.v), KalIR.KWhile(n, b.value.ops)],
                  vars, b.value.next, false))
    case ExprStmt(expr) =>
      var e := CodeOfExpr(expr, vars, n);
      if e.Err? then Err(e.error) else Ok(StmtCode(e.value.ops, vars, e.value.next, false))
  }

  /** A branch of an `if`: its own block, closed by a yield unless it already ends in a return. */
  function CodeOfBranch(stmts: seq<Stmt>, vars: VarMap, n: Vid): (r: Result<RegionCode>)
    ensures r.Ok? ==> n <= r.value.next
    decreases stmts, 1
  {
    var b := CodeOfStmts(stmts, vars, n);
    if b.Err? then Err(b.error)
    else Ok(RegionCode(if b.value.terminated then b.value.ops else b.value.ops + [KalIR.KYield], b.value.next))
  }

  /** A loop body: unless it ends in a return, the condition is evaluated again, with the variables
      as the body leaves them, into the condition slot. */
  function CodeOfLoopBody(cond: Expr, body: seq<Stmt>, slot: Vid, vars: VarMap, n: Vid): (r: Result<RegionCode>)
    ensures r.Ok? ==> n <= r.value.next
    decreases body, 1
  {
    var b := CodeOfStmts(body, vars, n);
    if b.Err? then Err(b.error)
    else if b.value.terminated then Ok(RegionCode(b.value.ops, b.value.next)) else
    var c := CodeOfExpr(cond, b.value.vars, b.value.next);
    if c.Err? then Err(c.error) else
    Ok(RegionCode(b.value.ops + c.value.ops + [KalIR.KStore(slot, c.value.v), KalIR.KYield], c.value.next))
  }

  /** Spilling the parameters from the `i`-th on: block argument `i` goes to a new slot. */
  function SpillFrom(params: seq<string>, i: nat, vars: VarMap, n: Vid): (r: StmtCode)
    requires i <= |params|
    ensures r.next == n + (|params| - i)
    decreases |params| - i
  {
    if i == |params| then StmtCode([], vars, n, false) else
    var rest := SpillFrom(params, i + 1, vars[params[i] := n], n + 1);
    rest.(ops := [KalIR.KDecl(n), KalIR.KStore(n, i)] + rest.ops)
  }

  predicate EndsInTerminator(ops: seq<Op>) {
    ops != [] && var last := ops[|ops| - 1]; last.KRet? || last.KYield? || last.LRet? || last.LBr? || last.LCondBr?
  }

  /** The code of a function: one entry block, whose arguments are values 0, 1, ... */
  function CodeOfFunction(f: Function): Result<KalIR.Func> {
    var p := SpillFrom(f.params, 0, map[], |f.params|);
    var b := CodeOfStmts(f.body, p.vars, p.next);
    if b.Err? then Err(b.error) else
    var ops := p.ops + b.value.ops;
    var n := b.value.next;
    Ok(if EndsInTerminator(ops) then OneBlock(|f.params|, ops, n)
       else OneBlock(|f.params|, ops + [KalIR.KConst(n, 0), KalIR.KRet(n)], n + 1))
  }

  function OneBlock(arity: nat, ops: seq<Op>, n: Vid): KalIR.Func {
    KalIR.Func(0, map[0 := KalIR.Block(seq(arity, i => i), ops)], [0], 1, n)
  }

  // ----- the lowering as it is carried out -----

  /** The state of a lowering: the context's value counter, the block that ops are
      appended to, and the variables visible in that block. */
  class Lowering {
    var next: Vid
    var ops: seq<Op>
    var vars: VarMap

    constructor (next: Vid, vars: VarMap)
      ensures this.next == next && this.vars == vars && ops == []
    {
      this.next, this.vars, ops := next, vars, [];
    }

    method NewValue() returns (v: Vid)
      modifies this`next
      ensures v == old(next) && next == v + 1
    {
      v := next;
      next := next + 1;
    }

    method Append(op: Op)
      modifies this`ops
      ensures ops == old(ops) + [op]
    {
      ops := ops + [op];
    }

    /** Stores every parameter, that is block argument, to a new slot. */
    method SpillParams(params: seq<string>)
      requires ops == []
      modifies this
      ensures SpillFrom(params, 0, old(vars), old(next)) == StmtCode(ops, vars, next, false)
    {
      ghost var spilled := SpillFrom(params, 0, vars, next);
      var idx := 0;
      while idx < |params|
        invariant 0 <= idx <= |params|
        invariant var rest := SpillFrom(params, idx, vars, next); spilled == rest.(ops := ops + rest.ops)
      {
        var slot := NewValue();
        Append(KalIR.KDecl(slot));
        Append(KalIR.KStore(slot, idx));
        vars := vars[params[idx] := slot];
        idx := idx + 1;
      }
    }

    method LowerExpr(e: Expr) returns (r: Result<Vid>)
      modifies this`next, this`ops
      ensures match CodeOfExpr(e, vars, old(next))
              case Ok(c) => r == Ok(c.v) && ops == old(ops) + c.ops && next == c.next
              case Err(x) => r == Err(x)
      decreases e
    {
      match e
      case Integer(k) =>
        var v := NewValue();
        Append(KalIR.KConst(v, k));
        r := Ok(v);
      case Variable(x) =>
        if x !in vars { return Err(ReferenceToUndeclared(x)); }
        var v := NewValue();
        Append(KalIR.KLoad(v, vars[x]));
        r := Ok(v);
      case Binary(op, lhs, rhs) =>
        var l := LowerExpr(lhs);
        if l.Err? { return l; }
        var h := LowerExpr(rhs);
        if h.Err? { return h; }
        var v := NewValue();
        Append(KalIR.KBin(v, KindOf(op), l.value, h.value));
        assert ops == old(ops) + CodeOfExpr(e, vars, old(next)).value.ops;
        r := Ok(v);
      case Call(callee, args) =>
        var vs := [];
        var i := 0;
        ghost var all := CodeOfArgs(args, vars, next);
        ghost var start := ops;
        assert args[0..] == args;
        assert ops[|start|..] == [];
        assert ArgsFrom(args, vars, [], [], next) == all by { if all.Ok? { assert [] + all.value.ops == all.value.ops && [] + all.value.vs == all.value.vs; } }
        while i < |args|
          invariant 0 <= i <= |args| && start <= ops
          invariant ArgsFrom(args[i..], vars, ops[|start|..], vs, next) == all
        {
          assert args[i..][0] == args[i] && args[i..][1..] == args[i + 1..];
          ghost var before := ops[|start|..];
          ghost var code := CodeOfExpr(args[i], vars, next);
          var a := LowerExpr(args[i]);
          if a.Err? { return Err(a.error); }
          assert ops[|start|..] == before + code.value.ops;
          ArgsFromStep(args[i..], vars, before, vs, code);
          vs := vs + [a.value];
          i := i + 1;
        }
        assert ops[|start|..] == all.value.ops && vs == all.value.vs && next == all.value.next by {
          assert ops[|start|..] + [] == ops[|start|..] && vs + [] == vs;
        }
        assert ops == start + all.value.ops;
        var v := NewValue();
        Append(KalIR.KCall(v, callee, vs));
        assert ops == old(ops) + CodeOfExpr(e, vars, old(next)).value.ops;
        r := Ok(v);
    }

    method LowerStmts(stmts: seq<Stmt>) returns (r: Result<bool>)
      modifies this
      ensures match CodeOfStmts(stmts, old(vars), old(next))
              case Ok(c) => r == Ok(c.terminated) && ops == old(ops) + c.ops && next == c.next && vars == c.vars
              case Err(x) => r == Err(x)
      decreases stmts, 1
    {
      var terminated := false;
      var i := 0;
      ghost var all := CodeOfStmts(stmts, vars, next);
      ghost var start := ops;
      assert stmts[0..] == stmts;
      assert ops[|start|..] == [];
      assert StmtsFrom(stmts, vars, next, [], terminated) == all by { if all.Ok? { assert [] + all.value.ops == all.value.ops; } }
      while i < |stmts|
        invariant 0 <= i <= |stmts| && start <= ops
        invariant StmtsFrom(stmts[i..], vars, next, ops[|start|..], terminated) == all
      {
        assert stmts[i..][0] == stmts[i] && stmts[i..][1..] == stmts[i + 1..];
        ghost var before := ops[|start|..];
        ghost var code := CodeOfStmt(stmts[i], vars, next);
        var t := LowerStmt(stmts[i]);
        if t.Err? { return t; }
        assert ops[|start|..] == before + code.value.ops;
        StmtsFromStep(stmts[i..], before, terminated, code);
        terminated := t.value;
        i := i + 1;
      }
      r := Ok(terminated);
    }

    method LowerStmt(s: Stmt) returns (r: Result<bool>)
      modifies this
      ensures match CodeOfStmt(s, old(vars), old(next))
              case Ok(c) => r == Ok(c.terminated) && ops == old(ops) + c.ops && next == c.next && vars == c.vars
              case Err(x) => r == Err(x)
      decreases s
    {
      match s
      case VarDecl(x, init) =>
        var slot := NewValue();
        Append(KalIR.KDecl(slot));
        vars := vars[x := slot];
        if init.Some? {
          var v := LowerExpr(init.value);
          if v.Err? { return Err(v.error); }
          Append(KalIR.KStore(slot, v.value));
        }
        r := Ok(false);
      case Assign(x, value) =>
        var v := LowerExpr(value);
        if v.Err? { return Err(v.error); }
        if x !in vars { return Err(AssignToUndeclared(x)); }
        Append(KalIR.KStore(vars[x], v.value));
        r := Ok(false);
      case Return(value) =>
        var v := LowerExpr(value);
        if v.Err? { return Err(v.error); }
        Append(KalIR.KRet(v.value));
        r := Ok(true);
      case If(cond, thn, els) =>
        var c := LowerExpr(cond);
        if c.Err? { return Err(c.error); }
        var t := LowerBranch(thn);
        if t.Err? { return Err(t.error); }
        var e := LowerBranch(els);
        if e.Err? { return Err(e.error); }
        Append(KalIR.KIf(c.value, t.value, e.value));
        r := Ok(false);
      case While(_, _) => r := LowerWhile(s);
      case ExprStmt(expr) =>
        var v := LowerExpr(expr);
        if v.Err? { return Err(v.error); }
        r := Ok(false);
    }

    method LowerWhile(s: Stmt) returns (r: Result<bool>)
      requires s.While?
      modifies this`next, this`ops
      ensures match CodeOfStmt(s, vars, old(next))
              case Ok(c) => r == Ok(c.terminated) && ops == old(ops) + c.ops && next == c.next && vars == c.vars
              case Err(x) => r == Err(x)
      decreases s, 0
    {
      var slot := NewValue();
      Append(KalIR.KDecl(slot));
      var c := LowerExpr(s.cond);
      if c.Err? { return Err(c.error); }
      Append(KalIR.KStore(slot, c.value));
      var b := LowerLoopBody(s.cond, s.body, slot);
      if b.Err? { return Err(b.error); }
      Append(KalIR.KWhile(slot, b.value));
      r := Ok(false);
    }

    /** Lowers a branch into a block of its own, with a copy of the variable map. */
    method LowerBranch(stmts: seq<Stmt>) returns (r: Result<seq<Op>>)
      modifies this`next
      ensures match CodeOfBranch(stmts, vars, old(next))
              case Ok(c) => r == Ok(c.ops) && next == c.next
              case Err(x) => r == Err(x)
      decreases stmts, 2
    {
      var inner := new Lowering(next, vars);
      var t := inner.LowerStmts(stmts);
      if t.Err? { return Err(t.error); }
      ghost var b := CodeOfStmts(stmts, vars, next);
      assert inner.ops == b.value.ops;
      if !t.value { inner.Append(KalIR.KYield); }
      next := inner.next;
      r := Ok(inner.ops);
    }

    method LowerLoopBody(cond: Expr, body: seq<Stmt>, slot: Vid) returns (r: Result<seq<Op>>)
      modifies this`next
      ensures match CodeOfLoopBody(cond, body, slot, vars, old(next))
              case Ok(c) => r == Ok(c.ops) && next == c.next
              case Err(x) => r == Err(x)
      decreases body, 2
    {
      var inner := new Lowering(next, vars);
      var t := inner.LowerStmts(body);
      if t.Err? { return Err(t.error); }
      ghost var b := CodeOfStmts(body, vars, next);
      assert inner.ops == b.value.ops;
      if !t.value {
        var c := inner.LowerExpr(cond);
        if c.Err? { return Err(c.error); }
        inner.Append(KalIR.KStore(slot, c.value));
        inner.Append(KalIR.KYield);
        assert inner.ops == CodeOfLoopBody(cond, body, slot, vars, next).value.ops;
      }
      next := inner.next;
      r := Ok(inner.ops);
    }
  }

  method LowerFunction(f: Function) returns (r: Result<KalIR.Func>)
    ensures r == CodeOfFunction(f)
  {
    var low := new Lowering(|f.params|, map[]);
    low.SpillParams(f.params);
    ghost var p := SpillFrom(f.params, 0, map[], |f.params|);
    var t := low.LowerStmts(f.body);
    if t.Err? { return Err(t.error); }
    ghost var ops := low.ops;
    assert ops == p.ops + CodeOfStmts(f.body, p.vars, p.next).value.ops;
    if !EndsInTerminator(low.ops) {
      var zero := low.NewValue();
      low.Append(KalIR.KConst(zero, 0));
      low.Append(KalIR.KRet(zero));
      assert low.ops == ops + [KalIR.KConst(zero, 0), KalIR.KRet(zero)];
    }
    r := Ok(OneBlock(|f.params|, low.ops, low.next));
  }

  // ----- how the loops relate to the recursive definitions -----

  ghost function ArgsFrom(rest: seq<Expr>, vars: VarMap, ops: seq<Op>, vs: seq<Vid>, n: Vid): Result<ArgsCode> {
    var r := CodeOfArgs(rest, vars, n);
    if r.Err? then r else Ok(ArgsCode(ops + r.value.ops, vs + r.value.vs, r.value.next))
  }

  lemma {:induction false} ArgsFromStep(rest: seq<Expr>, vars: VarMap, ops: seq<Op>, vs: seq<Vid>, code: Result<ExprCode>)
    requires rest != [] && code.Ok?
    ensures forall n :: code == CodeOfExpr(rest[0], vars, n) ==>
              ArgsFrom(rest, vars, ops, vs, n) == ArgsFrom(rest[1..], vars, ops + code.value.ops, vs + [code.value.v], code.value.next)
  {
    var r := CodeOfArgs(rest[1..], vars, code.value.next);
    if r.Ok? {
      assert ops + (code.value.ops + r.value.ops) == ops + code.value.ops + r.value.ops;
      assert vs + ([code.value.v] + r.value.vs) == vs + [code.value.v] + r.value.vs;
    }
  }

  ghost function StmtsFrom(rest: seq<Stmt>, vars: VarMap, n: Vid, ops: seq<Op>, terminated: bool): Result<StmtCode> {
    var r := CodeOfStmts(rest, vars, n);
    if r.Err? then r
    else Ok(StmtCode(ops + r.value.ops, r.value.vars, r.value.next, if rest == [] then terminated else r.value.terminated))
  }

  lemma StmtsFromStep(rest: seq<Stmt>, ops: seq<Op>, terminated: bool, code: Result<StmtCode>)
    requires rest != [] && code.Ok?
    ensures forall vars, n :: code == CodeOfStmt(rest[0], vars, n) ==>
              StmtsFrom(rest, vars, n, ops, terminated)
              == StmtsFrom(rest[1..], code.value.vars, code.value.next, ops + code.value.ops, code.value.terminated)
  {
    var r := CodeOfStmts(rest[1..], code.value.vars, code.value.next);
    if r.Ok? {
      assert ops + (code.value.ops + r.value.ops) == ops + code.value.ops + r.value.ops;
    }
  }
}

/** The IR that the two lowerings produce and rewrite, and its meaning.

    A function body is a set of labelled blocks. Kaleidoscope ops may own nested regions (`KIf`, `KWhile`);
    LLVM-dialect ops are flat and may branch between blocks. While a body is being converted both kinds
    live side by side, so one interpreter covers the source form, the target form and everything in between. */
module KalIR {
  import opened Options
  import opened KalArith

  /** An SSA value and a block, by their unique ids. */
  type Vid = nat
  type Label = nat

  datatype BinOpKind = Add | Sub | Mul | Lt | Gt | Le | Ge | Eq | Ne
  datatype ArithOp = LAdd | LSub | LMul
  datatype ICmpPred = SLT | SGT | SLE | SGE | EQ | NE

  datatype Op =
    // the Kaleidoscope dialect
    | KConst(r: Vid, n: I64)
    | KDecl(r: Vid)
    | KLoad(r: Vid, slot: Vid)
    | KStore(slot: Vid, v: Vid)
    | KBin(r: Vid, kind: BinOpKind, a: Vid, b: Vid)
    | KCall(r: Vid, callee: string, args: seq<Vid>)
    | KRet(v: Vid)
    | KYield
    | KIf(c: Vid, thn: seq<Op>, els: seq<Op>)
    | KWhile(p: Vid, body: seq<Op>)
    // the LLVM dialect
    | LConst(r: Vid, n: I64)
    | LAlloca(r: Vid, count: Vid)
    | LLoad(r: Vid, slot: Vid)
    | LStore(v: Vid, slot: Vid)
    | LArith(r: Vid, arith: ArithOp, a: Vid, b: Vid)
    | LICmp(r: Vid, pred: ICmpPred, a: Vid, b: Vid)
    | LSExt(r: Vid, a: Vid)
    | LCall(r: Vid, callee: string, args: seq<Vid>)
    | LRet(v: Vid)
    | LBr(dest: Label, args: seq<Vid>)
    | LCondBr(c: Vid, ifTrue: Label, ifFalse: Label)

  datatype Block = Block(params: seq<Vid>, ops: seq<Op>)

  /** A function: its blocks, their order in the function's region, and the next unused ids. */
  datatype Func = Func(entry: Label, blocks: map<Label, Block>, layout: seq<Label>, nextLabel: Label, nextVid: Vid)

  type Module = map<string, Func>

  // ----- run-time state -----

  /** An i64, an i1, or the address of a stack slot. */
  datatype RtVal = Int(i: I64) | Bit(b: bool) | Addr(a: nat)

  type Env = map<Vid, RtVal>

  /** The slots of one activation; a slot holds nothing until it is stored to. */
  type Mem = seq<Option<I64>>

  datatype Outcome = Fell(env: Env, mem: Mem) | Returned(v: I64) | Halted(why: Halt)

  predicate HasInt(env: Env, x: Vid) { x in env && env[x].Int? }
  predicate HasBit(env: Env, x: Vid) { x in env && env[x].Bit? }
  predicate HasSlot(env: Env, mem: Mem, x: Vid) { x in env && env[x].Addr? && env[x].a < |mem| }

  /** The integer stored in the slot that `x` points to. */
  function Load(env: Env, mem: Mem, x: Vid): Option<I64> {
    if HasSlot(env, mem, x) then mem[env[x].a] else None
  }

  function Ints(env: Env, xs: seq<Vid>): (r: Option<seq<I64>>)
    ensures r.Some? ==> |r.value| == |xs|
  {
    if xs == [] then Some([]) else
    var rest := Ints(env, xs[1..]);
    if HasInt(env, xs[0]) && rest.Some? then Some([env[xs[0]].i] + rest.value) else None
  }

  function Bind(env: Env, xs: seq<Vid>, vs: seq<I64>): Env
    requires |xs| == |vs|
    decreases xs
  {
    if xs == [] then env else Bind(env[xs[0] := Int(vs[0])], xs[1..], vs[1..])
  }

  /** The two environments agree on every value id below `n`. */
  ghost predicate Agree(n: Vid, e1: Env, e2: Env) {
    forall x: Vid :: x < n ==> (x in e1 <==> x in e2) && (x in e1 ==> e1[x] == e2[x])
  }

  function KindMeaning(kind: BinOpKind, a: I64, b: I64): I64 {
    match kind
    case Add => Wrap(a + b)
    case Sub => Wrap(a - b)
    case Mul => Wrap(a * b)
    case Lt => SignExtend(a < b)
    case Gt => SignExtend(a > b)
    case Le => SignExtend(a <= b)
    case Ge => SignExtend(a >= b)
    case Eq => SignExtend(a == b)
    case Ne => SignExtend(a != b)
  }

  function ArithMeaning(op: ArithOp, a: I64, b: I64): I64 {
    match op
    case LAdd => Wrap(a + b)
    case LSub => Wrap(a - b)
    case LMul => Wrap(a * b)
  }

  predicate PredMeaning(pred: ICmpPred, a: I64, b: I64) {
    match pred
    case SLT => a < b
    case SGT => a > b
    case SLE => a <= b
    case SGE => a >= b
    case EQ => a == b
    case NE => a != b
  }

  // ----- ops without control flow -----

  predicate IsSimple(op: Op) {
    op.KConst? || op.KDecl? || op.KLoad? || op.KStore? || op.KBin? || op.LConst? || op.LAlloca?
    || op.LLoad? || op.LStore? || op.LArith? || op.LICmp? || op.LSExt?
  }

  function SetInt(env: Env, mem: Mem, r: Vid, i: Option<I64>): Option<(Env, Mem)> {
    if i.Some? then Some((env[r := Int(i.value)], mem)) else None
  }

  function Alloc(env: Env, mem: Mem, r: Vid): Option<(Env, Mem)> {
    Some((env[r := Addr(|mem|)], mem + [None]))
  }

  function StoreTo(env: Env, mem: Mem, slot: Vid, v: Vid): Option<(Env, Mem)> {
    if HasSlot(env, mem, slot) && HasInt(env, v) then Some((env, mem[env[slot].a := Some(env[v].i)])) else None
  }

  /** One step of an op without control flow; `None` is undefined behaviour. */
  function Step(op: Op, env: Env, mem: Mem): Option<(Env, Mem)>
    requires IsSimple(op)
  {
    match op
    case KConst(r, n) => SetInt(env, mem, r, Some(n))
    case LConst(r, n) => SetInt(env, mem, r, Some(n))
    case KDecl(r) => Alloc(env, mem, r)
    case LAlloca(r, count) => if HasInt(env, count) && env[count].i == 1 then Alloc(env, mem, r) else None
    case KLoad(r, slot) => SetInt(env, mem, r, Load(env, mem, slot))
    case LLoad(r, slot) => SetInt(env, mem, r, Load(env, mem, slot))
    case KStore(slot, v) => StoreTo(env, mem, slot, v)
    case LStore(v, slot) => StoreTo(env, mem, slot, v)
    case KBin(r, kind, a, b) =>
      if HasInt(env, a) && HasInt(env, b) then SetInt(env, mem, r, Some(KindMeaning(kind, env[a].i, env[b].i))) else None
    case LArith(r, arith, a, b) =>
      if HasInt(env, a) && HasInt(env, b) then SetInt(env, mem, r, Some(ArithMeaning(arith, env[a].i, env[b].i))) else None
    case LICmp(r, pred, a, b) =>
      if HasInt(env, a) && HasInt(env, b) then Some((env[r := Bit(PredMeaning(pred, env[a].i, env[b].i))], mem)) else None
    case LSExt(r, a) => if HasBit(env, a) then SetInt(env, mem, r, Some(SignExtend(env[a].b))) else None
  }

  // ----- running code -----

  /** Runs the rest of a block (or region) of function `h`. A region that ends, or yields, has `Fell`;
      a branch continues with the ops of its target. Fuel is spent by calls, branches and loop iterations. */
  function Run(m: Module, h: string, ops: seq<Op>, env: Env, mem: Mem, fuel: nat): Outcome
    decreases fuel, 1, ops
  {
    if ops == [] then Fell(env, mem)
    else if IsSimple(ops[0]) then
      var s := Step(ops[0], env, mem);
      if s.None? then Halted(Undefined) else Run(m, h, ops[1..], s.value.0, s.value.1, fuel)
    else RunControl(m, h, ops, env, mem, fuel)
  }

  /** Runs ops of which the first one is not simple. */
  function RunControl(m: Module, h: string, ops: seq<Op>, env: Env, mem: Mem, fuel: nat): Outcome
    requires ops != [] && !IsSimple(ops[0])
    decreases fuel, 1, ops, 1
  {
    match ops[0]
    case KYield => Fell(env, mem)
    case KRet(v) => if HasInt(env, v) then Returned(env[v].i) else Halted(Undefined)
    case LRet(v) => if HasInt(env, v) then Returned(env[v].i) else Halted(Undefined)
    case KCall(r, callee, args) => RunCall(m, h, r, callee, args, ops, env, mem, fuel)
    case LCall(r, callee, args) => RunCall(m, h, r, callee, args, ops, env, mem, fuel)
    case KIf(c, thn, els) =>
      if !HasInt(env, c) then Halted(Undefined) else
      var o := Run(m, h, if env[c].i != 0 then thn else els, env, mem, fuel);
      if o.Fell? then Run(m, h, ops[1..], o.env, o.mem, fuel) else o
    case KWhile(p, body) =>
      var o := Loop(m, h, p, body, env, mem, fuel);
      if o.Fell? then Run(m, h, ops[1..], o.env, o.mem, fuel) else o
    case LBr(dest, args) => Jump(m, h, dest, args, env, mem, fuel)
    case LCondBr(c, ifTrue, ifFalse) =>
      if !HasBit(env, c) then Halted(Undefined)
      else Jump(m, h, if env[c].b then ifTrue else ifFalse, [], env, mem, fuel)
  }

  /** Iterates a loop body for as long as the slot that `p` points to holds a non-zero value. */
  function Loop(m: Module, h: string, p: Vid, body: seq<Op>, env: Env, mem: Mem, fuel: nat): Outcome
    decreases fuel, 0
  {
    var c := Load(env, mem, p);
    if c.None? then Halted(Undefined)
    else if c.value == 0 then Fell(env, mem)
    else if fuel == 0 then Halted(OutOfFuel) else
    var o := Run(m, h, body, env, mem, fuel - 1);
    if o.Fell? then Loop(m, h, p, body, o.env, o.mem, fuel - 1) else o
  }

  /** A call, followed by the rest of the block. */
  function RunCall(m: Module, h: string, r: Vid, callee: string, args: seq<Vid>, ops: seq<Op>, env: Env, mem: Mem, fuel: nat): Outcome
    requires ops != []
    decreases fuel, 1, ops, 0
  {
    var vs := Ints(env, args);
    if vs.None? then Halted(Undefined)
    else if fuel == 0 then Halted(OutOfFuel) else
    var v := RunFunction(m, callee, vs.value, fuel - 1);
    if v.Val? then Run(m, h, ops[1..], env[r := Int(v.v)], mem, fuel) else Halted(v.why)
  }

  /** Transfers control to block `dest` of function `h`, passing block arguments. */
  function Jump(m: Module, h: string, dest: Label, args: seq<Vid>, env: Env, mem: Mem, fuel: nat): Outcome
    decreases fuel, 0
  {
    var vs := Ints(env, args);
    if h !in m || dest !in m[h].blocks || vs.None? || |m[h].blocks[dest].params| != |args| then Halted(Undefined)
    else if fuel == 0 then Halted(OutOfFuel)
    else Run(m, h, m[h].blocks[dest].ops, Bind(env, m[h].blocks[dest].params, vs.value), mem, fuel - 1)
  }

  /** Calls function `h`: its entry block runs in a fresh activation and must return. */
  function RunFunction(m: Module, h: string, args: seq<I64>, fuel: nat): Value
    decreases fuel, 2
  {
    if h !in m || m[h].entry !in m[h].blocks || |m[h].blocks[m[h].entry].params| != |args| then NoVal(Undefined) else
    var entry := m[h].blocks[m[h].entry];
    match Run(m, h, entry.ops, Bind(map[], entry.params, args), [], fuel)
    case Fell(_, _) => NoVal(Undefined)
    case Returned(v) => Val(v)
    case Halted(why) => NoVal(why)
  }

  // ----- two basic facts about running -----

  /** Control cannot leave these ops other than by falling through, returning or halting. */
  predicate Straight(ops: seq<Op>) {
    forall i :: 0 <= i < |ops| ==> !ops[i].KYield? && !ops[i].LBr? && !ops[i].LCondBr?
  }

  /** Running a concatenation runs the second part from where the first one fell through. */
  lemma {:induction false} RunConcat(m: Module, h: string, xs: seq<Op>, ys: seq<Op>, env: Env, mem: Mem, fuel: nat)
    requires Straight(xs)
    ensures Run(m, h, xs + ys, env, mem, fuel) ==
            var o := Run(m, h, xs, env, mem, fuel);
            if o.Fell? then Run(m, h, ys, o.env, o.mem, fuel) else o
    decreases |xs|
  {
    if xs == [] {
      assert xs + ys == ys;
    } else {
      assert (xs + ys)[0] == xs[0] && (xs + ys)[1..] == xs[1..] + ys;
      var op := xs[0];
      if IsSimple(op) {
        var s := Step(op, env, mem);
        if s.Some? { RunConcat(m, h, xs[1..], ys, s.value.0, s.value.1, fuel); }
      } else if op.KCall? || op.LCall? {
        CallConcat(m, h, op.r, op.callee, op.args, xs, ys, env, mem, fuel);
      } else if op.KIf? && HasInt(env, op.c) {
        var o := Run(m, h, if env[op.c].i != 0 then op.thn else op.els, env, mem, fuel);
        if o.Fell? { RunConcat(m, h, xs[1..], ys, o.env, o.mem, fuel); }
      } else if op.KWhile? {
        var o := Loop(m, h, op.p, op.body, env, mem, fuel);
        if o.Fell? { RunConcat(m, h, xs[1..], ys, o.env, o.mem, fuel); }
      }
    }
  }

  lemma {:induction false} CallConcat(m: Module, h: string, r: Vid, callee: string, args: seq<Vid>, xs: seq<Op>, ys: seq<Op>, env: Env, mem: Mem, fuel: nat)
    requires xs != [] && Straight(xs)
    ensures RunCall(m, h, r, callee, args, xs + ys, env, mem, fuel) ==
            var o := RunCall(m, h, r, callee, args, xs, env, mem, fuel);
            if o.Fell? then Run(m, h, ys, o.env, o.mem, fuel) else o
    decreases |xs|, 0
  {
    assert (xs + ys)[1..] == xs[1..] + ys;
    var vs := Ints(env, args);
    if vs.Some? && fuel > 0 {
      var v := RunFunction(m, callee, vs.value, fuel - 1);
      if v.Val? { RunConcat(m, h, xs[1..], ys, env[r := Int(v.v)], mem, fuel); }
    }
  }

  // ----- running one op in front of others -----

  lemma {:induction false} RunFirst(m: Module, h: string, op: Op, rest: seq<Op>, env: Env, mem: Mem, fuel: nat)
    requires IsSimple(op)
    ensures Run(m, h, [op] + rest, env, mem, fuel)
            == match Step(op, env, mem) case None => Halted(Undefined) case Some(s) => Run(m, h, rest, s.0, s.1, fuel)
  {
    assert ([op] + rest)[1..] == rest;
  }

  lemma {:induction false} RunIf(m: Module, h: string, op: Op, rest: seq<Op>, env: Env, mem: Mem, fuel: nat)
    requires op.KIf? && HasInt(env, op.c)
    ensures var o := Run(m, h, if env[op.c].i != 0 then op.thn else op.els, env, mem, fuel);
            Run(m, h, [op] + rest, env, mem, fuel) == if o.Fell? then Run(m, h, rest, o.env, o.mem, fuel) else o
  {
    assert ([op] + rest)[1..] == rest;
    assert Run(m, h, [op] + rest, env, mem, fuel) == RunControl(m, h, [op] + rest, env, mem, fuel);
  }

  lemma {:induction false} RunWhile(m: Module, h: string, op: Op, rest: seq<Op>, env: Env, mem: Mem, fuel: nat)
    requires op.KWhile?
    ensures var o := Loop(m, h, op.p, op.body, env, mem, fuel);
            Run(m, h, [op] + rest, env, mem, fuel) == if o.Fell? then Run(m, h, rest, o.env, o.mem, fuel) else o
  {
    assert ([op] + rest)[1..] == rest;
    assert Run(m, h, [op] + rest, env, mem, fuel) == RunControl(m, h, [op] + rest, env, mem, fuel);
  }

  lemma {:induction false} RunCallFirst(m: Module, h: string, op: Op, rest: seq<Op>, env: Env, mem: Mem, fuel: nat)
    requires (op.KCall? || op.LCall?) && Ints(env, op.args).Some?
    ensures Run(m, h, [op] + rest, env, mem, fuel) ==
            if fuel == 0 then Halted(OutOfFuel) else
            var v := RunFunction(m, op.callee, Ints(env, op.args).value, fuel - 1);
            if v.Val? then Run(m, h, rest, env[op.r := Int(v.v)], mem, fuel) else Halted(v.why)
  {
    assert ([op] + rest)[1..] == rest;
    assert Run(m, h, [op] + rest, env, mem, fuel) == RunControl(m, h, [op] + rest, env, mem, fuel);
    assert RunControl(m, h, [op] + rest, env, mem, fuel) == RunCall(m, h, op.r, op.callee, op.args, [op] + rest, env, mem, fuel);
  }

  lemma {:induction false} RunCallBad(m: Module, h: string, op: Op, rest: seq<Op>, env: Env, mem: Mem, fuel: nat)
    requires (op.KCall? || op.LCall?) && Ints(env, op.args).None?
    ensures Run(m, h, [op] + rest, env, mem, fuel) == Halted(Undefined)
  {
    assert Run(m, h, [op] + rest, env, mem, fuel) == RunControl(m, h, [op] + rest, env, mem, fuel);
    assert RunControl(m, h, [op] + rest, env, mem, fuel) == RunCall(m, h, op.r, op.callee, op.args, [op] + rest, env, mem, fuel);
  }

  lemma {:induction false} RunIfBad(m: Module, h: string, op: Op, rest: seq<Op>, env: Env, mem: Mem, fuel: nat)
    requires op.KIf? && !HasInt(env, op.c)
    ensures Run(m, h, [op] + rest, env, mem, fuel) == Halted(Undefined)
  {
    assert Run(m, h, [op] + rest, env, mem, fuel) == RunControl(m, h, [op] + rest, env, mem, fuel);
  }

  lemma {:induction false} RunBranch(m: Module, h: string, dest: Label, args: seq<Vid>, env: Env, mem: Mem, fuel: nat)
    ensures Run(m, h, [LBr(dest, args)], env, mem, fuel) == Jump(m, h, dest, args, env, mem, fuel)
    ensures Run(m, h, [LBr(dest, args)] + [], env, mem, fuel) == Jump(m, h, dest, args, env, mem, fuel)
  {
    assert [LBr(dest, args)] + [] == [LBr(dest, args)];
    assert Run(m, h, [LBr(dest, args)], env, mem, fuel) == RunControl(m, h, [LBr(dest, args)], env, mem, fuel);
  }

  /** A branch in front of other ops: they are never reached. */
  lemma {:induction false} RunBranchFirst(m: Module, h: string, op: Op, rest: seq<Op>, env: Env, mem: Mem, fuel: nat)
    ensures op.LBr? ==> Run(m, h, [op] + rest, env, mem, fuel) == Jump(m, h, op.dest, op.args, env, mem, fuel)
    ensures op.LCondBr? ==>
              Run(m, h, [op] + rest, env, mem, fuel) ==
              if HasBit(env, op.c) then Jump(m, h, if env[op.c].b then op.ifTrue else op.ifFalse, [], env, mem, fuel) else Halted(Undefined)
  {
    var ops := [op] + rest;
    if op.LBr? || op.LCondBr? {
      assert Run(m, h, ops, env, mem, fuel) == RunControl(m, h, ops, env, mem, fuel);
    }
  }

  lemma {:induction false} RunCondBranch(m: Module, h: string, op: Op, env: Env, mem: Mem, fuel: nat)
    requires op.LCondBr? && HasBit(env, op.c)
    ensures Run(m, h, [op], env, mem, fuel) == Jump(m, h, if env[op.c].b then op.ifTrue else op.ifFalse, [], env, mem, fuel)
  {
    assert Run(m, h, [op], env, mem, fuel) == RunControl(m, h, [op], env, mem, fuel);
  }

  lemma {:induction false} RunExit(m: Module, h: string, op: Op, rest: seq<Op>, env: Env, mem: Mem, fuel: nat)
    ensures op.KYield? ==> Run(m, h, [op] + rest, env, mem, fuel) == Fell(env, mem)
    ensures op.KRet? || op.LRet? ==>
              Run(m, h, [op] + rest, env, mem, fuel) == if HasInt(env, op.v) then Returned(env[op.v].i) else Halted(Undefined)
  {
    var ops := [op] + rest;
    if op.KYield? || op.KRet? || op.LRet? {
      assert Run(m, h, ops, env, mem, fuel) == RunControl(m, h, ops, env, mem, fuel);
    }
  }

  /** More fuel never changes a result that was reached. */
  lemma {:induction false} RunMono(m: Module, h: string, ops: seq<Op>, env: Env, mem: Mem, f: nat, g: nat)
    requires f <= g && Run(m, h, ops, env, mem, f) != Halted(OutOfFuel)
    ensures Run(m, h, ops, env, mem, g) == Run(m, h, ops, env, mem, f)
    decreases f, 1, ops
  {
    if ops != [] {
      var op := ops[0];
      if IsSimple(op) {
        var s := Step(op, env, mem);
        if s.Some? { RunMono(m, h, ops[1..], s.value.0, s.value.1, f, g); }
      } else if op.KCall? || op.LCall? {
        CallMono(m, h, op.r, op.callee, op.args, ops, env, mem, f, g);
      } else if op.KIf? && HasInt(env, op.c) {
        var branch := if env[op.c].i != 0 then op.thn else op.els;
        RunMono(m, h, branch, env, mem, f, g);
        var o := Run(m, h, branch, env, mem, f);
        if o.Fell? { RunMono(m, h, ops[1..], o.env, o.mem, f, g); }
      } else if op.KWhile? {
        LoopMono(m, h, op.p, op.body, env, mem, f, g);
        var o := Loop(m, h, op.p, op.body, env, mem, f);
        if o.Fell? { RunMono(m, h, ops[1..], o.env, o.mem, f, g); }
      } else if op.LBr? {
        JumpMono(m, h, op.dest, op.args, env, mem, f, g);
      } else if op.LCondBr? && HasBit(env, op.c) {
        JumpMono(m, h, if env[op.c].b then op.ifTrue else op.ifFalse, [], env, mem, f, g);
      }
    }
  }

  lemma {:induction false} LoopMono(m: Module, h: string, p: Vid, body: seq<Op>, env: Env, mem: Mem, f: nat, g: nat)
    requires f <= g && Loop(m, h, p, body, env, mem, f) != Halted(OutOfFuel)
    ensures Loop(m, h, p, body, env, mem, g) == Loop(m, h, p, body, env, mem, f)
    decreases f, 0
  {
    var c := Load(env, mem, p);
    if c.Some? && c.value != 0 {
      RunMono(m, h, body, env, mem, f - 1, g - 1);
      var o := Run(m, h, body, env, mem, f - 1);
      if o.Fell? { LoopMono(m, h, p, body, o.env, o.mem, f - 1, g - 1); }
    }
  }

  lemma {:induction false} CallMono(m: Module, h: string, r: Vid, callee: string, args: seq<Vid>, ops: seq<Op>, env: Env, mem: Mem, f: nat, g: nat)
    requires f <= g && ops != [] && RunCall(m, h, r, callee, args, ops, env, mem, f) != Halted(OutOfFuel)
    ensures RunCall(m, h, r, callee, args, ops, env, mem, g) == RunCall(m, h, r, callee, args, ops, env, mem, f)
    decreases f, 1, ops, 0
  {
    var vs := Ints(env, args);
    if vs.Some? {
      FunctionMono(m, callee, vs.value, f - 1, g - 1);
      var v := RunFunction(m, callee, vs.value, f - 1);
      if v.Val? { RunMono(m, h, ops[1..], env[r := Int(v.v)], mem, f, g); }
    }
  }

  lemma {:induction false} JumpMono(m: Module, h: string, dest: Label, args: seq<Vid>, env: Env, mem: Mem, f: nat, g: nat)
    requires f <= g && Jump(m, h, dest, args, env, mem, f) != Halted(OutOfFuel)
    ensures Jump(m, h, dest, args, env, mem, g) == Jump(m, h, dest, args, env, mem, f)
    decreases f, 0
  {
    var vs := Ints(env, args);
    if h in m && dest in m[h].blocks && vs.Some? && |m[h].blocks[dest].params| == |args| {
      RunMono(m, h, m[h].blocks[dest].ops, Bind(env, m[h].blocks[dest].params, vs.value), mem, f - 1, g - 1);
    }
  }

  lemma {:induction false} FunctionMono(m: Module, h: string, args: seq<I64>, f: nat, g: nat)
    requires f <= g && RunFunction(m, h, args, f) != NoVal(OutOfFuel)
    ensures RunFunction(m, h, args, g) == RunFunction(m, h, args, f)
    decreases f, 2
  {
    if h in m && m[h].entry in m[h].blocks && |m[h].blocks[m[h].entry].params| == |args| {
      var entry := m[h].blocks[m[h].entry];
      RunMono(m, h, entry.ops, Bind(map[], entry.params, args), [], f, g);
    }
  }
}

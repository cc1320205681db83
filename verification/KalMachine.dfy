/** A small-step machine for the flat programs that the compiler produces: one op at a time, with the
    suspended callers on an explicit stack. It reaches a result exactly when the interpreter gives it. */
module KalMachine {
  import opened Options
  import opened KalArith
  import KalAst
  import opened KalIR
  import opened KalToLlvm
  import opened KalToLlvmCorrect
  import opened KalConvertSteps
  import opened KalFromAstCorrect
  import opened KalPipeline

  /** An activation: the ops of its current block still to be done, its values and its stack slots. */
  datatype Frame = Frame(fn: string, ops: seq<Op>, env: KalIR.Env, mem: KalIR.Mem)

  /** An activation that waits for the value of `r`. */
  datatype Caller = Caller(r: Vid, frame: Frame)

  datatype Config = Running(top: Frame, callers: seq<Caller>) | Final(result: Value)

  const Stuck := Final(NoVal(Undefined))

  function Enter(m: KalIR.Module, h: string, args: seq<I64>, callers: seq<Caller>): Config {
    if h !in m || m[h].entry !in m[h].blocks || |m[h].blocks[m[h].entry].params| != |args| then Stuck else
    var entry := m[h].blocks[m[h].entry];
    Running(Frame(h, entry.ops, Bind(map[], entry.params, args), []), callers)
  }

  function Return(v: I64, callers: seq<Caller>): Config {
    if callers == [] then Final(Val(v)) else
    var c := callers[0];
    Running(c.frame.(env := c.frame.env[c.r := Int(v)]), callers[1..])
  }

  function Goto(m: KalIR.Module, t: Frame, dest: Label, args: seq<Vid>, callers: seq<Caller>): Config {
    var vs := Ints(t.env, args);
    if t.fn !in m || dest !in m[t.fn].blocks || vs.None? || |m[t.fn].blocks[dest].params| != |args| then Stuck else
    var block := m[t.fn].blocks[dest];
    Running(t.(ops := block.ops, env := Bind(t.env, block.params, vs.value)), callers)
  }

  /** One step. An op that is not of the LLVM dialect is stuck. */
  function Next(m: KalIR.Module, c: Config): Config {
    if c.Final? then c
    else if c.top.ops == [] then Stuck
    else
      var t := c.top;
      var op := t.ops[0];
      if IsLlvmSimple(op) then
        var s := Step(op, t.env, t.mem);
        if s.None? then Stuck else Running(Frame(t.fn, t.ops[1..], s.value.0, s.value.1), c.callers)
      else if op.LRet? then
        if HasInt(t.env, op.v) then Return(t.env[op.v].i, c.callers) else Stuck
      else if op.LCall? then
        var vs := Ints(t.env, op.args);
        if vs.None? then Stuck else Enter(m, op.callee, vs.value, [Caller(op.r, t.(ops := t.ops[1..]))] + c.callers)
      else if op.LBr? then Goto(m, t, op.dest, op.args, c.callers)
      else if op.LCondBr? then
        if HasBit(t.env, op.c) then Goto(m, t, if t.env[op.c].b then op.ifTrue else op.ifFalse, [], c.callers) else Stuck
      else Stuck
  }

  function Steps(m: KalIR.Module, c: Config, n: nat): Config
    decreases n
  {
    if n == 0 then c else Steps(m, Next(m, c), n - 1)
  }

  lemma {:induction false} StepsAdd(m: KalIR.Module, c: Config, a: nat, b: nat)
    ensures Steps(m, c, a + b) == Steps(m, Steps(m, c, a), b)
    decreases a
  {
    if a > 0 { StepsAdd(m, Next(m, c), a - 1, b); }
  }

  lemma {:induction false} StepsFinal(m: KalIR.Module, r: Value, n: nat)
    ensures Steps(m, Final(r), n) == Final(r)
    decreases n
  {
    if n > 0 { StepsFinal(m, r, n - 1); }
  }

  ghost predicate FlatModule(m: KalIR.Module) {
    forall g :: g in m ==> Flat(m[g])
  }

  /** Where the machine goes from the outcome of the top activation. */
  function Continue(o: Outcome, callers: seq<Caller>): Config {
    if o.Returned? then Return(o.v, callers) else Stuck
  }

  function ContinueCall(v: Value, callers: seq<Caller>): Config {
    if v.Val? then Return(v.v, callers) else Stuck
  }

  // ----- what the interpreter does, the machine does -----

  lemma {:induction false} RunReaches(m: KalIR.Module, t: Frame, callers: seq<Caller>, f: nat) returns (n: nat)
    requires FlatModule(m) && AllLlvm(t.ops) && Run(m, t.fn, t.ops, t.env, t.mem, f) != KalIR.Halted(OutOfFuel)
    ensures Steps(m, Running(t, callers), n) == Continue(Run(m, t.fn, t.ops, t.env, t.mem, f), callers)
    decreases f, 1, t.ops
  {
    var c := Running(t, callers);
    n := 1;
    if t.ops != [] {
      var op := t.ops[0];
      assert [op] + t.ops[1..] == t.ops;
      if IsLlvmSimple(op) {
        RunFirst(m, t.fn, op, t.ops[1..], t.env, t.mem, f);
        var s := Step(op, t.env, t.mem);
        if s.Some? {
          var k := RunReaches(m, Frame(t.fn, t.ops[1..], s.value.0, s.value.1), callers, f);
          n := k + 1;
        }
      } else if op.LCall? {
        n := CallReaches(m, t, callers, f);
      } else if op.LRet? {
        RunExit(m, t.fn, op, t.ops[1..], t.env, t.mem, f);
      } else {
        n := BranchReaches(m, t, callers, f);
      }
    }
  }

  lemma {:induction false} BranchReaches(m: KalIR.Module, t: Frame, callers: seq<Caller>, f: nat) returns (n: nat)
    requires FlatModule(m) && t.ops != [] && (t.ops[0].LBr? || t.ops[0].LCondBr?) && Run(m, t.fn, t.ops, t.env, t.mem, f) != KalIR.Halted(OutOfFuel)
    ensures Steps(m, Running(t, callers), n) == Continue(Run(m, t.fn, t.ops, t.env, t.mem, f), callers)
    decreases f, 1, t.ops, 0
  {
    var op := t.ops[0];
    assert [op] + t.ops[1..] == t.ops;
    RunBranchFirst(m, t.fn, op, t.ops[1..], t.env, t.mem, f);
    n := 1;
    if op.LBr? || HasBit(t.env, op.c) {
      var dest := if op.LBr? then op.dest else if t.env[op.c].b then op.ifTrue else op.ifFalse;
      var args := if op.LBr? then op.args else [];
      var c := Goto(m, t, dest, args, callers);
      if c.Running? {
        var k := RunReaches(m, c.top, callers, f - 1);
        n := k + 1;
      }
    }
  }

  lemma {:induction false} CallReaches(m: KalIR.Module, t: Frame, callers: seq<Caller>, f: nat) returns (n: nat)
    requires FlatModule(m) && t.ops != [] && t.ops[0].LCall? && AllLlvm(t.ops[1..])
    requires Run(m, t.fn, t.ops, t.env, t.mem, f) != KalIR.Halted(OutOfFuel)
    ensures Steps(m, Running(t, callers), n) == Continue(Run(m, t.fn, t.ops, t.env, t.mem, f), callers)
    decreases f, 1, t.ops, 0
  {
    var op, rest := t.ops[0], t.ops[1..];
    assert [op] + rest == t.ops;
    var vs := Ints(t.env, op.args);
    n := 1;
    if vs.None? {
      RunCallBad(m, t.fn, op, rest, t.env, t.mem, f);
    } else {
      RunCallFirst(m, t.fn, op, rest, t.env, t.mem, f);
      var waiting := [Caller(op.r, t.(ops := rest))] + callers;
      assert waiting[1..] == callers;
      var k := FunctionReaches(m, op.callee, vs.value, waiting, f - 1);
      var v := RunFunction(m, op.callee, vs.value, f - 1);
      n := k + 1;
      if v.Val? {
        var back := Frame(t.fn, rest, t.env[op.r := Int(v.v)], t.mem);
        var k2 := RunReaches(m, back, callers, f);
        StepsAdd(m, Enter(m, op.callee, vs.value, waiting), k, k2);
        n := k + k2 + 1;
      }
    }
  }

  lemma {:induction false} FunctionReaches(m: KalIR.Module, h: string, args: seq<I64>, callers: seq<Caller>, f: nat) returns (n: nat)
    requires FlatModule(m) && RunFunction(m, h, args, f) != NoVal(OutOfFuel)
    ensures Steps(m, Enter(m, h, args, callers), n) == ContinueCall(RunFunction(m, h, args, f), callers)
    decreases f, 2
  {
    var c := Enter(m, h, args, callers);
    n := 0;
    if c.Running? { n := RunReaches(m, c.top, callers, f); }
  }

  // ----- when the machine ends, so does the interpreter -----

  lemma {:induction false} RunEnds(m: KalIR.Module, t: Frame, callers: seq<Caller>, n: nat)
    requires FlatModule(m) && AllLlvm(t.ops) && Steps(m, Running(t, callers), n).Final?
    ensures Run(m, t.fn, t.ops, t.env, t.mem, n) != KalIR.Halted(OutOfFuel)
    decreases n, 1
  {
    if t.ops != [] {
      var op, rest := t.ops[0], t.ops[1..];
      assert [op] + rest == t.ops;
      if IsLlvmSimple(op) {
        RunFirst(m, t.fn, op, rest, t.env, t.mem, n);
        var s := Step(op, t.env, t.mem);
        if s.Some? {
          RunEnds(m, Frame(t.fn, rest, s.value.0, s.value.1), callers, n - 1);
          RunMono(m, t.fn, rest, s.value.0, s.value.1, n - 1, n);
        }
      } else if op.LCall? {
        CallEnds(m, t, callers, n);
      } else if op.LRet? {
        RunExit(m, t.fn, op, rest, t.env, t.mem, n);
      } else {
        RunBranchFirst(m, t.fn, op, rest, t.env, t.mem, n);
        if op.LBr? || HasBit(t.env, op.c) {
          var dest := if op.LBr? then op.dest else if t.env[op.c].b then op.ifTrue else op.ifFalse;
          var c := Goto(m, t, dest, if op.LBr? then op.args else [], callers);
          if c.Running? { RunEnds(m, c.top, callers, n - 1); }
        }
      }
    }
  }

  lemma {:induction false} CallEnds(m: KalIR.Module, t: Frame, callers: seq<Caller>, n: nat)
    requires FlatModule(m) && t.ops != [] && t.ops[0].LCall? && AllLlvm(t.ops[1..]) && Steps(m, Running(t, callers), n).Final?
    ensures Run(m, t.fn, t.ops, t.env, t.mem, n) != KalIR.Halted(OutOfFuel)
    decreases n, 0
  {
    var op, rest := t.ops[0], t.ops[1..];
    assert [op] + rest == t.ops;
    var vs := Ints(t.env, op.args);
    if vs.None? {
      RunCallBad(m, t.fn, op, rest, t.env, t.mem, n);
    } else {
      RunCallFirst(m, t.fn, op, rest, t.env, t.mem, n);
      var waiting := [Caller(op.r, t.(ops := rest))] + callers;
      assert waiting[1..] == callers;
      var c := Enter(m, op.callee, vs.value, waiting);
      FunctionEnds(m, op.callee, vs.value, waiting, n - 1);
      var v := RunFunction(m, op.callee, vs.value, n - 1);
      if v.Val? {
        var k := FunctionReaches(m, op.callee, vs.value, waiting, n - 1);
        ReachedBefore(m, c, k, n - 1);
        var back := Frame(t.fn, rest, t.env[op.r := Int(v.v)], t.mem);
        RunEnds(m, back, callers, n - 1 - k);
        RunMono(m, t.fn, rest, back.env, t.mem, n - 1 - k, n);
      }
    }
  }

  /** A configuration that still runs is reached before the final one. */
  lemma ReachedBefore(m: KalIR.Module, c: Config, k: nat, n: nat)
    requires Steps(m, c, k).Running? && Steps(m, c, n).Final?
    ensures k < n && Steps(m, Steps(m, c, k), n - k) == Steps(m, c, n)
  {
    if k >= n {
      StepsAdd(m, c, n, k - n);
      StepsFinal(m, Steps(m, c, n).result, k - n);
      assert false;
    }
    StepsAdd(m, c, k, n - k);
  }

  lemma {:induction false} FunctionEnds(m: KalIR.Module, h: string, args: seq<I64>, callers: seq<Caller>, n: nat)
    requires FlatModule(m) && Steps(m, Enter(m, h, args, callers), n).Final?
    ensures RunFunction(m, h, args, n) != NoVal(OutOfFuel)
    decreases n, 2
  {
    var c := Enter(m, h, args, callers);
    if c.Running? { RunEnds(m, c.top, callers, n); }
  }

  // ----- the theorems -----

  /** A call, started on an empty stack, ends in `Final(r)`. */
  ghost predicate MachineGives(m: KalIR.Module, h: string, args: seq<I64>, r: Value) {
    exists n: nat :: Steps(m, Enter(m, h, args, []), n) == Final(r)
  }

  /** The machine and the interpreter agree on every call of a flat program. */
  lemma MachineAgrees(m: KalIR.Module, h: string, args: seq<I64>, r: Value)
    requires FlatModule(m)
    ensures MachineGives(m, h, args, r) <==> Gives(m, h, args, r)
  {
    var c := Enter(m, h, args, []);
    if Gives(m, h, args, r) {
      var f: nat :| RunFunction(m, h, args, f) == r;
      var n := FunctionReaches(m, h, args, [], f);
      OnlyUndefined(m, h, args, f);
      assert Steps(m, c, n) == Final(r);
    }
    if MachineGives(m, h, args, r) {
      var n: nat :| Steps(m, c, n) == Final(r);
      FunctionEnds(m, h, args, [], n);
      var v := RunFunction(m, h, args, n);
      var k := FunctionReaches(m, h, args, [], n);
      StepsAdd(m, c, n, k);
      StepsAdd(m, c, k, n);
      StepsFinal(m, r, k);
      OnlyUndefined(m, h, args, n);
      StepsFinal(m, v, n);
      assert v == r;
    }
  }

  lemma {:induction false} OnlyUndefined(m: KalIR.Module, h: string, args: seq<I64>, f: nat)
    requires RunFunction(m, h, args, f) != NoVal(OutOfFuel)
    ensures ContinueCall(RunFunction(m, h, args, f), []) == Final(RunFunction(m, h, args, f))
  {
    var v := RunFunction(m, h, args, f);
    if v.NoVal? { assert v.why == Undefined; }
  }

  /** The compiler end to end: on the machine, a call of the compiled program ends with a result exactly when
      the call of the source program does. */
  lemma CompiledRunsAsSource(prog: KalAst.Program, m: KalIR.Module, g: string, args: seq<I64>, r: Value)
    requires CompiledBut(prog, m, {}) && forall h :: h in prog ==> StableConds(prog[h].body)
    ensures SourceGives(prog, g, args, r) <==> MachineGives(m, g, args, r)
  {
    assert FlatModule(m);
    CompilePreserves(prog, m, g, args, r);
    MachineAgrees(m, g, args, r);
  }
}

/** Every rewrite of the conversion, applied to any op at block level of any function of a module, keeps
    the meaning of every function of the module: a call has a result before the rewrite exactly when it has
    that result after it. */
module KalToLlvmCorrect {
  import opened Options
  import opened KalArith
  import opened KalIR
  import opened KalToLlvm

  /** A call of `h` with `args` ends with `r`: a value, or undefined behaviour. */
  ghost predicate Gives(m: Module, h: string, args: seq<I64>, r: Value) {
    r != NoVal(OutOfFuel) && exists f: nat :: RunFunction(m, h, args, f) == r
  }

  ghost predicate SameMeaning(m: Module, m': Module) {
    forall h, args, r :: Gives(m, h, args, r) <==> Gives(m', h, args, r)
  }

  /** One rewrite: of the op at position `i` of block `b` of function `g`, or of the op that is function `g`. */
  datatype Rewrite = AtOp(g: string, b: Label, i: nat) | AtEntry(g: string)

  /** The rewrite applies: the op at the site is one that the conversion rewrites. */
  ghost predicate Applies(m: Module, w: Rewrite) {
    ModuleOk(m) && w.g in m && (w.AtOp? ==> Convertible(m[w.g], w.b, w.i))
  }

  predicate Convertible(fn: Func, b: Label, i: nat) {
    Site(fn, b, i) && var op := fn.blocks[b].ops[i]; IsLeaf(op) || op.KIf? || op.KWhile?
  }

  lemma SiteOk(m: Module, w: Rewrite)
    requires Applies(m, w) && w.AtOp?
    ensures var fn := m[w.g]; var ops := fn.blocks[w.b].ops;
            && FuncOk(fn) && BlockOk(ops) && OpsBelow(ops, fn.nextVid, fn.nextLabel)
            && NestedOk(ops[w.i]) && OpBelow(ops[w.i], fn.nextVid, fn.nextLabel)
            && (ops[w.i].KIf? ==> RegionOk(ops[w.i].thn) && RegionOk(ops[w.i].els))
            && (ops[w.i].KWhile? ==> RegionOk(ops[w.i].body))
  {
    assert FuncOk(m[w.g]);
    assert BlockFine(m[w.g].blocks[w.b], m[w.g].nextVid, m[w.g].nextLabel);
  }

  ghost function RewriteFunc(m: Module, w: Rewrite): Func
    requires Applies(m, w)
  {
    var fn := m[w.g];
    assert FuncOk(fn);
    if w.AtEntry? then RewriteEntry(fn) else
    SiteOk(m, w);
    var op := fn.blocks[w.b].ops[w.i];
    if op.KIf? then RewriteIf(fn, w.b, w.i) else if op.KWhile? then RewriteWhile(fn, w.b, w.i) else RewriteLeaf(fn, w.b, w.i)
  }

  /** `m'` is `m` after the rewrite. */
  ghost predicate Rewritten(m: Module, w: Rewrite, m': Module) {
    Applies(m, w) && m' == m[w.g := RewriteFunc(m, w)]
  }

  ghost predicate RewrittenOp(m: Module, w: Rewrite, m': Module) {
    w.AtOp? && Rewritten(m, w, m')
  }

  // ----- agreement -----

  /** The same outcome, up to the temporaries that the conversion adds. */
  ghost predicate Sim(n: Vid, o: Outcome, o': Outcome) {
    match o
    case Fell(env, mem) => o'.Fell? && o'.mem == mem && Agree(n, env, o'.env)
    case _ => o' == o
  }

  lemma {:induction false} StepAgree(op: Op, n: Vid, l: Label, e: Env, e': Env, mem: Mem)
    requires IsSimple(op) && OpBelow(op, n, l) && Agree(n, e, e')
    ensures match Step(op, e, mem)
            case None => Step(op, e', mem) == None
            case Some(s) => var s' := Step(op, e', mem); s'.Some? && s'.value.1 == s.1 && Agree(n, s.0, s'.value.0)
  {
  }

  lemma {:induction false} IntsAgree(xs: seq<Vid>, n: Vid, e: Env, e': Env)
    requires AllBelow(xs, n) && Agree(n, e, e')
    ensures Ints(e, xs) == Ints(e', xs)
  {
    if xs != [] { IntsAgree(xs[1..], n, e, e'); }
  }

  lemma {:induction false} BindAgree(n: Vid, e: Env, e': Env, xs: seq<Vid>, vs: seq<I64>)
    requires Agree(n, e, e') && |xs| == |vs|
    ensures Agree(n, Bind(e, xs, vs), Bind(e', xs, vs))
    decreases xs
  {
    if xs != [] { BindAgree(n, e[xs[0] := Int(vs[0])], e'[xs[0] := Int(vs[0])], xs[1..], vs[1..]); }
  }

  function Max(a: nat, b: nat): nat { if a < b then b else a }

  /** The blocks of `fn` are those of `fn'` too, except for the ops of block `b`. */
  ghost predicate KeepsBlocks(fn: Func, fn': Func, b: Option<Label>) {
    && (forall l: Label :: l in fn.blocks ==> l in fn'.blocks && fn'.blocks[l].params == fn.blocks[l].params)
    && (forall l: Label :: l in fn.blocks && Some(l) != b ==> fn'.blocks[l] == fn.blocks[l])
  }

  lemma LeafParts(fn: Func, b: Label, i: nat)
    requires Site(fn, b, i) && IsLeaf(fn.blocks[b].ops[i])
    ensures KeepsBlocks(fn, RewriteLeaf(fn, b, i), Some(b))
  {
  }

  /** Blocks of which one changed its ops and three are new. */
  lemma FourKept(fn: Func, fn': Func, b: Label, ops: seq<Op>, x: Block, y: Block, z: Block)
    requires FuncOk(fn) && b in fn.blocks
    requires var l := fn.nextLabel; fn'.blocks == fn.blocks[b := fn.blocks[b].(ops := ops)][l := x][l + 1 := y][l + 2 := z]
    ensures KeepsBlocks(fn, fn', Some(b)) && b != fn.nextLabel && b != fn.nextLabel + 1 && b != fn.nextLabel + 2
  {
    forall k | k in fn.blocks ensures k in fn'.blocks && fn'.blocks[k] == if k == b then fn.blocks[b].(ops := ops) else fn.blocks[k] {
      assert k < fn.nextLabel;
    }
  }

  lemma IfBlocksKept(fn: Func, b: Label, i: nat)
    requires FuncOk(fn) && Site(fn, b, i) && fn.blocks[b].ops[i].KIf? && fn.blocks[b].ops[i].thn != [] && fn.blocks[b].ops[i].els != []
    ensures KeepsBlocks(fn, RewriteIf(fn, b, i), Some(b))
  {
    var op, l, fn' := fn.blocks[b].ops[i], fn.nextLabel, RewriteIf(fn, b, i);
    FourKept(fn, fn', b, Pre(fn, b, i) + BranchOnIf(op.c, fn.nextVid, l), Block([], Close(op.thn, l + 2)), Block([], Close(op.els, l + 2)),
             Block([], Post(fn, b, i)));
  }

  lemma WhileBlocksKept(fn: Func, b: Label, i: nat)
    requires FuncOk(fn) && Site(fn, b, i) && fn.blocks[b].ops[i].KWhile? && fn.blocks[b].ops[i].body != []
    ensures KeepsBlocks(fn, RewriteWhile(fn, b, i), Some(b))
  {
    var op, l, fn' := fn.blocks[b].ops[i], fn.nextLabel, RewriteWhile(fn, b, i);
    FourKept(fn, fn', b, Pre(fn, b, i) + [LBr(l + 2, [])], Block([], Close(op.body, l + 2)), Block([], Post(fn, b, i)),
             Block([], Header(op.p, fn.nextVid, l)));
  }

  /** The other functions, and all blocks but the one rewritten, stay as they are. */
  lemma RewrittenParts(m: Module, w: Rewrite, m': Module)
    requires Rewritten(m, w, m')
    ensures m'.Keys == m.Keys && FuncOk(m[w.g]) && forall h :: h in m && h != w.g ==> m'[h] == m[h]
    ensures w.AtOp? ==> m'[w.g].entry == m[w.g].entry
    ensures KeepsBlocks(m[w.g], m'[w.g], if w.AtOp? then Some(w.b) else None)
  {
    assert FuncOk(m[w.g]);
    if w.AtOp? {
      SiteOk(m, w);
      var op := m[w.g].blocks[w.b].ops[w.i];
      if op.KIf? {
        IfBlocksKept(m[w.g], w.b, w.i);
      } else if op.KWhile? {
        WhileBlocksKept(m[w.g], w.b, w.i);
      } else {
        LeafParts(m[w.g], w.b, w.i);
      }
    }
  }

  // ----- forward: what the body does, the rewritten body does, given enough fuel -----

  lemma {:induction false} Forward(m: Module, w: Rewrite, m': Module, h: string, ops: seq<Op>, e: Env, e': Env, mem: Mem, f: nat) returns (f': nat)
    requires Rewritten(m, w, m') && h in m && OpsBelow(ops, m[h].nextVid, m[h].nextLabel) && Agree(m[h].nextVid, e, e')
    requires Run(m, h, ops, e, mem, f) != Halted(OutOfFuel)
    ensures Sim(m[h].nextVid, Run(m, h, ops, e, mem, f), Run(m', h, ops, e', mem, f'))
    decreases f, 1, ops, 3
  {
    if ops == [] {
      f' := 0;
    } else if IsSimple(ops[0]) {
      StepAgree(ops[0], m[h].nextVid, m[h].nextLabel, e, e', mem);
      var s, s' := Step(ops[0], e, mem), Step(ops[0], e', mem);
      f' := 0;
      if s.Some? { f' := Forward(m, w, m', h, ops[1..], s.value.0, s'.value.0, mem := s.value.1, f := f); }
    } else {
      f' := ForwardControl(m, w, m', h, ops, e, e', mem, f);
    }
  }

  lemma {:induction false} ForwardControl(m: Module, w: Rewrite, m': Module, h: string, ops: seq<Op>, e: Env, e': Env, mem: Mem, f: nat) returns (f': nat)
    requires Rewritten(m, w, m') && h in m && OpsBelow(ops, m[h].nextVid, m[h].nextLabel) && Agree(m[h].nextVid, e, e')
    requires ops != [] && !IsSimple(ops[0]) && Run(m, h, ops, e, mem, f) != Halted(OutOfFuel)
    ensures Sim(m[h].nextVid, Run(m, h, ops, e, mem, f), Run(m', h, ops, e', mem, f'))
    decreases f, 1, ops, 2
  {
    var op := ops[0];
    assert OpBelow(op, m[h].nextVid, m[h].nextLabel);
    assert [op] + ops[1..] == ops;
    f' := 0;
    if op.KCall? || op.LCall? {
      f' := ForwardCall(m, w, m', h, ops, e, e', mem, f);
    } else if op.KIf? {
      f' := ForwardIfOp(m, w, m', h, op, ops[1..], e, e', mem, f);
    } else if op.KWhile? {
      RunWhile(m, h, op, ops[1..], e, mem, f);
      var f1 := ForwardLoop(m, w, m', h, op.p, op.body, e, e', mem, f);
      var o, o1 := Loop(m, h, op.p, op.body, e, mem, f), Loop(m', h, op.p, op.body, e', mem, f1);
      f' := f1;
      if o.Fell? {
        var f2 := Forward(m, w, m', h, ops[1..], o.env, o1.env, o.mem, f);
        f' := Max(f1, f2);
        RunMono(m', h, ops[1..], o1.env, o1.mem, f2, f');
        LoopMono(m', h, op.p, op.body, e', mem, f1, f');
      }
      RunWhile(m', h, op, ops[1..], e', mem, f');
    } else if op.LBr? || op.LCondBr? {
      RunBranchFirst(m, h, op, ops[1..], e, mem, f);
      if op.LBr? {
        f' := ForwardJump(m, w, m', h, op.dest, op.args, e, e', mem, f);
      } else if HasBit(e, op.c) {
        f' := ForwardJump(m, w, m', h, if e[op.c].b then op.ifTrue else op.ifFalse, [], e, e', mem, f);
      }
      RunBranchFirst(m', h, op, ops[1..], e', mem, f');
    } else {
      RunExit(m, h, op, ops[1..], e, mem, f);
      RunExit(m', h, op, ops[1..], e', mem, f');
    }
  }

  lemma {:induction false} ForwardIfOp(m: Module, w: Rewrite, m': Module, h: string, op: Op, rest: seq<Op>, e: Env, e': Env, mem: Mem, f: nat) returns (f': nat)
    requires Rewritten(m, w, m') && h in m && OpBelow(op, m[h].nextVid, m[h].nextLabel) && OpsBelow(rest, m[h].nextVid, m[h].nextLabel)
    requires op.KIf? && Agree(m[h].nextVid, e, e') && Run(m, h, [op] + rest, e, mem, f) != Halted(OutOfFuel)
    ensures Sim(m[h].nextVid, Run(m, h, [op] + rest, e, mem, f), Run(m', h, [op] + rest, e', mem, f'))
    decreases f, 1, [op] + rest, 0
  {
    f' := 0;
    if HasInt(e, op.c) {
      var branch := if e[op.c].i != 0 then op.thn else op.els;
      assert ([op] + rest)[0] == op && ([op] + rest)[1..] == rest;
      RunIf(m, h, op, rest, e, mem, f);
      var f1 := Forward(m, w, m', h, branch, e, e', mem, f);
      f' := ForwardThen(m, w, m', h, branch, rest, e, e', mem, f, f1);
      RunIf(m', h, op, rest, e', mem, f');
    } else {
      RunIfBad(m, h, op, rest, e, mem, f);
      RunIfBad(m', h, op, rest, e', mem, f');
    }
  }

  /** What follows a region: enough fuel for both. */
  lemma {:induction false} ForwardThen(m: Module, w: Rewrite, m': Module, h: string, first: seq<Op>, rest: seq<Op>, e: Env, e': Env, mem: Mem, f: nat, f1: nat)
    returns (f': nat)
    requires Rewritten(m, w, m') && h in m && OpsBelow(rest, m[h].nextVid, m[h].nextLabel)
    requires var o := Run(m, h, first, e, mem, f);
             && o != Halted(OutOfFuel) && (o.Fell? ==> Run(m, h, rest, o.env, o.mem, f) != Halted(OutOfFuel))
             && Sim(m[h].nextVid, o, Run(m', h, first, e', mem, f1))
    ensures f1 <= f'
    ensures var o, o' := Run(m, h, first, e, mem, f), Run(m', h, first, e', mem, f');
            && Sim(m[h].nextVid, o, o')
            && (o.Fell? ==> Sim(m[h].nextVid, Run(m, h, rest, o.env, o.mem, f), Run(m', h, rest, o'.env, o'.mem, f')))
    decreases f, 1, rest, 4
  {
    var o, o1 := Run(m, h, first, e, mem, f), Run(m', h, first, e', mem, f1);
    f' := f1;
    if o.Fell? {
      var f2 := Forward(m, w, m', h, rest, o.env, o1.env, o.mem, f);
      f' := Max(f1, f2);
      RunMono(m', h, rest, o1.env, o1.mem, f2, f');
    }
    RunMono(m', h, first, e', mem, f1, f');
  }

  /** A call that agrees, and what follows it, with fuel `f` before the rewrite and `f'` after it. */
  lemma {:induction false} JoinCall(n: Vid, m: Module, m': Module, h: string, op: Op, rest: seq<Op>, e: Env, e': Env, mem: Mem, f: nat, f': nat)
    requires (op.KCall? || op.LCall?) && Ints(e, op.args).Some? && Ints(e', op.args) == Ints(e, op.args) && f > 0 && f' > 0
    requires var vs := Ints(e, op.args).value;
             var v := RunFunction(m, op.callee, vs, f - 1);
             && RunFunction(m', op.callee, vs, f' - 1) == v
             && (v.Val? ==> Sim(n, Run(m, h, rest, e[op.r := Int(v.v)], mem, f), Run(m', h, rest, e'[op.r := Int(v.v)], mem, f')))
    ensures Sim(n, Run(m, h, [op] + rest, e, mem, f), Run(m', h, [op] + rest, e', mem, f'))
  {
    RunCallFirst(m, h, op, rest, e, mem, f);
    RunCallFirst(m', h, op, rest, e', mem, f');
  }

  lemma {:induction false} JoinBadCall(n: Vid, m: Module, m': Module, h: string, op: Op, rest: seq<Op>, e: Env, e': Env, mem: Mem, f: nat, f': nat)
    requires (op.KCall? || op.LCall?) && Ints(e, op.args).None? && Ints(e', op.args).None?
    ensures Sim(n, Run(m, h, [op] + rest, e, mem, f), Run(m', h, [op] + rest, e', mem, f'))
  {
    RunCallBad(m, h, op, rest, e, mem, f);
    RunCallBad(m', h, op, rest, e', mem, f');
  }

  /** A call that needs no more fuel than there is. */
  lemma {:induction false} CallFuel(m: Module, h: string, op: Op, rest: seq<Op>, e: Env, mem: Mem, f: nat)
    requires (op.KCall? || op.LCall?) && Ints(e, op.args).Some? && Run(m, h, [op] + rest, e, mem, f) != Halted(OutOfFuel)
    ensures f > 0 && var v := RunFunction(m, op.callee, Ints(e, op.args).value, f - 1);
            v != NoVal(OutOfFuel) && (v.Val? ==> Run(m, h, rest, e[op.r := Int(v.v)], mem, f) != Halted(OutOfFuel))
  {
    RunCallFirst(m, h, op, rest, e, mem, f);
  }

  lemma {:induction false} ForwardCall(m: Module, w: Rewrite, m': Module, h: string, ops: seq<Op>, e: Env, e': Env, mem: Mem, f: nat) returns (f': nat)
    requires Rewritten(m, w, m') && h in m && OpsBelow(ops, m[h].nextVid, m[h].nextLabel) && Agree(m[h].nextVid, e, e')
    requires ops != [] && (ops[0].KCall? || ops[0].LCall?) && Run(m, h, ops, e, mem, f) != Halted(OutOfFuel)
    ensures Sim(m[h].nextVid, Run(m, h, ops, e, mem, f), Run(m', h, ops, e', mem, f'))
    decreases f, 1, ops, 1
  {
    var op, rest := ops[0], ops[1..];
    HeadBelow(ops, m[h].nextVid, m[h].nextLabel);
    IntsAgree(op.args, m[h].nextVid, e, e');
    if Ints(e, op.args).Some? {
      f' := ForwardGoodCall(m, w, m', h, op, rest, e, e', mem, f);
    } else {
      f' := 0;
      JoinBadCall(m[h].nextVid, m, m', h, op, rest, e, e', mem, f, f');
    }
  }

  lemma {:induction false} HeadBelow(ops: seq<Op>, n: Vid, l: Label)
    requires ops != [] && OpsBelow(ops, n, l)
    ensures OpBelow(ops[0], n, l) && OpsBelow(ops[1..], n, l) && [ops[0]] + ops[1..] == ops
  {
  }

  lemma {:induction false} ForwardGoodCall(m: Module, w: Rewrite, m': Module, h: string, op: Op, rest: seq<Op>, e: Env, e': Env, mem: Mem, f: nat)
    returns (f': nat)
    requires Rewritten(m, w, m') && h in m && OpsBelow(rest, m[h].nextVid, m[h].nextLabel) && Agree(m[h].nextVid, e, e')
    requires (op.KCall? || op.LCall?) && Ints(e, op.args).Some? && Ints(e', op.args) == Ints(e, op.args)
    requires Run(m, h, [op] + rest, e, mem, f) != Halted(OutOfFuel)
    ensures Sim(m[h].nextVid, Run(m, h, [op] + rest, e, mem, f), Run(m', h, [op] + rest, e', mem, f'))
    decreases f, 1, rest, 4
  {
    var vs := Ints(e, op.args).value;
    CallFuel(m, h, op, rest, e, mem, f);
    var f1 := ForwardFunction(m, w, m', op.callee, vs, f - 1);
    var v := RunFunction(m, op.callee, vs, f - 1);
    f' := f1 + 1;
    if v.Val? {
      var f2 := Forward(m, w, m', h, rest, e[op.r := Int(v.v)], e'[op.r := Int(v.v)], mem, f);
      f' := Max(f1 + 1, f2);
      RunMono(m', h, rest, e'[op.r := Int(v.v)], mem, f2, f');
    }
    FunctionMono(m', op.callee, vs, f1, f' - 1);
    JoinCall(m[h].nextVid, m, m', h, op, rest, e, e', mem, f, f');
  }

  lemma {:induction false} ForwardLoop(m: Module, w: Rewrite, m': Module, h: string, p: Vid, body: seq<Op>, e: Env, e': Env, mem: Mem, f: nat) returns (f': nat)
    requires Rewritten(m, w, m') && h in m && p < m[h].nextVid && OpsBelow(body, m[h].nextVid, m[h].nextLabel) && Agree(m[h].nextVid, e, e')
    requires Loop(m, h, p, body, e, mem, f) != Halted(OutOfFuel)
    ensures Sim(m[h].nextVid, Loop(m, h, p, body, e, mem, f), Loop(m', h, p, body, e', mem, f'))
    decreases f, 0
  {
    f' := 0;
    var c := Load(e, mem, p);
    assert c == Load(e', mem, p);
    if c.Some? && c.value != 0 {
      var f1 := Forward(m, w, m', h, body, e, e', mem, f - 1);
      var o, o1 := Run(m, h, body, e, mem, f - 1), Run(m', h, body, e', mem, f1);
      f' := f1 + 1;
      if o.Fell? {
        var f2 := ForwardLoop(m, w, m', h, p, body, o.env, o1.env, o.mem, f - 1);
        f' := Max(f1, f2) + 1;
        LoopMono(m', h, p, body, o1.env, o1.mem, f2, f' - 1);
        RunMono(m', h, body, e', mem, f1, f' - 1);
      }
    }
  }

  /** A jump to a block that is there, before the rewrite and after it. */
  lemma {:induction false} JoinJump(n: Vid, m: Module, m': Module, h: string, dest: Label, args: seq<Vid>, e: Env, e': Env, mem: Mem, f: nat, f': nat)
    requires h in m && h in m' && dest in m[h].blocks && dest in m'[h].blocks && f > 0 && f' > 0
    requires var params := m[h].blocks[dest].params;
             && m'[h].blocks[dest].params == params && |params| == |args| && Ints(e, args).Some? && Ints(e', args) == Ints(e, args)
             && var vs := Ints(e, args).value;
                Sim(n, Run(m, h, m[h].blocks[dest].ops, Bind(e, params, vs), mem, f - 1), Run(m', h, m'[h].blocks[dest].ops, Bind(e', params, vs), mem, f' - 1))
    ensures Sim(n, Jump(m, h, dest, args, e, mem, f), Jump(m', h, dest, args, e', mem, f'))
  {
  }

  lemma {:induction false} JoinBadJump(n: Vid, m: Module, m': Module, h: string, dest: Label, args: seq<Vid>, e: Env, e': Env, mem: Mem, f: nat, f': nat)
    requires h in m && h in m' && dest in m[h].blocks && dest in m'[h].blocks && m'[h].blocks[dest].params == m[h].blocks[dest].params
    requires Ints(e', args) == Ints(e, args) && (Ints(e, args).None? || |m[h].blocks[dest].params| != |args|)
    ensures Sim(n, Jump(m, h, dest, args, e, mem, f), Jump(m', h, dest, args, e', mem, f'))
  {
  }

  lemma {:induction false} ForwardJump(m: Module, w: Rewrite, m': Module, h: string, dest: Label, args: seq<Vid>, e: Env, e': Env, mem: Mem, f: nat)
    returns (f': nat)
    requires Rewritten(m, w, m') && h in m && dest < m[h].nextLabel && AllBelow(args, m[h].nextVid) && Agree(m[h].nextVid, e, e')
    requires Jump(m, h, dest, args, e, mem, f) != Halted(OutOfFuel)
    ensures Sim(m[h].nextVid, Jump(m, h, dest, args, e, mem, f), Jump(m', h, dest, args, e', mem, f'))
    decreases f, 0
  {
    IntsAgree(args, m[h].nextVid, e, e');
    RewrittenParts(m, w, m');
    assert FuncOk(m[h]);
    f' := 0;
    var vs := Ints(e, args);
    if vs.Some? && |m[h].blocks[dest].params| == |args| {
      var params := m[h].blocks[dest].params;
      BindAgree(m[h].nextVid, e, e', params, vs.value);
      var f1 := ForwardBlock(m, w, m', h, dest, Bind(e, params, vs.value), Bind(e', params, vs.value), mem, f - 1);
      f' := f1 + 1;
      JoinJump(m[h].nextVid, m, m', h, dest, args, e, e', mem, f, f');
    } else {
      JoinBadJump(m[h].nextVid, m, m', h, dest, args, e, e', mem, f, f');
    }
  }

  /** The ops of a block, which the rewrite may have changed. */
  lemma {:induction false} ForwardBlock(m: Module, w: Rewrite, m': Module, h: string, b: Label, e: Env, e': Env, mem: Mem, f: nat) returns (f': nat)
    requires Rewritten(m, w, m') && h in m && b in m[h].blocks && Agree(m[h].nextVid, e, e')
    requires Run(m, h, m[h].blocks[b].ops, e, mem, f) != Halted(OutOfFuel)
    ensures b in m'[h].blocks
    ensures Sim(m[h].nextVid, Run(m, h, m[h].blocks[b].ops, e, mem, f), Run(m', h, m'[h].blocks[b].ops, e', mem, f'))
    decreases f, 3
  {
    RewrittenParts(m, w, m');
    assert FuncOk(m[h]);
    if w.AtOp? && h == w.g && b == w.b {
      f' := ForwardSite(m, w, m', e, e', mem, f);
    } else {
      f' := Forward(m, w, m', h, m[h].blocks[b].ops, e, e', mem, f);
    }
  }

  /** What a call gives when its entry block has this outcome. */
  function ValueOf(o: Outcome): Value {
    match o
    case Fell(_, _) => NoVal(Undefined)
    case Returned(v) => Val(v)
    case Halted(why) => NoVal(why)
  }

  lemma {:induction false} RunEntry(m: Module, h: string, args: seq<I64>, f: nat)
    requires h in m && m[h].entry in m[h].blocks && |m[h].blocks[m[h].entry].params| == |args|
    ensures var entry := m[h].blocks[m[h].entry]; RunFunction(m, h, args, f) == ValueOf(Run(m, h, entry.ops, Bind(map[], entry.params, args), [], f))
  {
  }

  lemma SimValue(n: Vid, o: Outcome, o': Outcome)
    requires Sim(n, o, o')
    ensures ValueOf(o) == ValueOf(o')
  {
  }

  /** A call that cannot be made cannot be made after a rewrite, and the other way round. */
  lemma {:induction false} BadEntry(m: Module, w: Rewrite, m': Module, h: string, args: seq<I64>, f: nat, f': nat)
    requires Rewritten(m, w, m') && (h in m ==> m[h].entry in m[h].blocks && |m[h].blocks[m[h].entry].params| != |args|)
    ensures RunFunction(m', h, args, f') == RunFunction(m, h, args, f) == NoVal(Undefined)
  {
    RewrittenParts(m, w, m');
  }

  lemma {:induction false} ForwardFunction(m: Module, w: Rewrite, m': Module, h: string, args: seq<I64>, f: nat) returns (f': nat)
    requires Rewritten(m, w, m') && RunFunction(m, h, args, f) != NoVal(OutOfFuel)
    ensures RunFunction(m', h, args, f') == RunFunction(m, h, args, f)
    decreases f, 4
  {
    RewrittenParts(m, w, m');
    f' := 0;
    if h !in m || |m[h].blocks[m[h].entry].params| != |args| {
      assert h in m ==> FuncOk(m[h]);
      BadEntry(m, w, m', h, args, f, f');
      return;
    }
    assert FuncOk(m[h]);
    var entry := m[h].blocks[m[h].entry];
    var e := Bind(map[], entry.params, args);
    RunEntry(m, h, args, f);
    if w.AtEntry? && h == w.g {
      EntryAgrees(m[h], args);
      var f1 := ForwardBlock(m, w, m', h, m[h].entry, e, EntryEnv(m[h], args), [], f);
      f' := f1 + 1;
      RunNewEntry(m, w, m', args, f');
      SimValue(m[h].nextVid, Run(m, h, entry.ops, e, [], f), Run(m', h, entry.ops, EntryEnv(m[h], args), [], f1));
    } else {
      f' := ForwardBlock(m, w, m', h, m[h].entry, e, e, [], f);
      RunEntry(m', h, args, f');
      SimValue(m[h].nextVid, Run(m, h, entry.ops, e, [], f), Run(m', h, m'[h].blocks[m[h].entry].ops, e, [], f'));
    }
  }

  // ----- the new entry block -----

  ghost function NewParams(n: Vid, arity: nat): seq<Vid> {
    seq(arity, i requires 0 <= i => n + i)
  }

  /** The environment in which the old entry block runs when control comes from the new one. */
  ghost function EntryEnv(fn: Func, args: seq<I64>): Env
    requires fn.entry in fn.blocks && |fn.blocks[fn.entry].params| == |args|
  {
    Bind(Bind(map[], NewParams(fn.nextVid, |args|), args), fn.blocks[fn.entry].params, args)
  }

  lemma {:induction false} BindFresh(n: Vid, e: Env, k: nat, arity: nat, args: seq<I64>)
    requires k <= arity && |args| == arity - k
    ensures var e' := Bind(e, NewParams(n, arity)[k..], args);
            && Agree(n + k, e, e')
            && Ints(e', NewParams(n, arity)[k..]) == Some(args)
    decreases arity - k
  {
    var xs := NewParams(n, arity);
    if k < arity {
      assert xs[k..][0] == n + k && xs[k..][1..] == xs[k + 1..];
      BindFresh(n, e[n + k := Int(args[0])], k + 1, arity, args[1..]);
      assert [args[0]] + args[1..] == args;
    }
  }

  lemma {:induction false} EntryAgrees(fn: Func, args: seq<I64>)
    requires fn.entry in fn.blocks && |fn.blocks[fn.entry].params| == |args|
    ensures Agree(fn.nextVid, Bind(map[], fn.blocks[fn.entry].params, args), EntryEnv(fn, args))
  {
    var xs := NewParams(fn.nextVid, |args|);
    assert xs[0..] == xs;
    BindFresh(fn.nextVid, map[], 0, |args|, args);
    BindAgree(fn.nextVid, map[], Bind(map[], xs, args), fn.blocks[fn.entry].params, args);
  }

  lemma {:induction false} RunNewEntry(m: Module, w: Rewrite, m': Module, args: seq<I64>, f: nat)
    requires Rewritten(m, w, m') && w.AtEntry? && m[w.g].entry in m[w.g].blocks && |m[w.g].blocks[m[w.g].entry].params| == |args|
    ensures f == 0 ==> RunFunction(m', w.g, args, f) == NoVal(OutOfFuel)
    ensures f > 0 ==>
              RunFunction(m', w.g, args, f) ==
              ValueOf(Run(m', w.g, m[w.g].blocks[m[w.g].entry].ops, EntryEnv(m[w.g], args), [], f - 1))
  {
    RewrittenParts(m, w, m');
    var fn := m[w.g];
    var xs := NewParams(fn.nextVid, |args|);
    assert xs[0..] == xs;
    BindFresh(fn.nextVid, map[], 0, |args|, args);
    assert m'[w.g].blocks[m'[w.g].entry] == Block(xs, [LBr(fn.entry, xs)]);
    RunBranch(m', w.g, fn.entry, xs, Bind(map[], xs, args), [], f);
  }

  /** Two halves of a block that agree. */
  lemma {:induction false} JoinHalves(n: Vid, m: Module, m': Module, g: string, pre: seq<Op>, tail: seq<Op>, tail': seq<Op>,
                                         e: Env, e': Env, mem: Mem, f: nat, f': nat)
    requires Straight(pre)
    requires var o, o' := Run(m, g, pre, e, mem, f), Run(m', g, pre, e', mem, f');
             Sim(n, o, o') && (o.Fell? ==> Sim(n, Run(m, g, tail, o.env, o.mem, f), Run(m', g, tail', o'.env, o'.mem, f')))
    ensures Sim(n, Run(m, g, pre + tail, e, mem, f), Run(m', g, pre + tail', e', mem, f'))
  {
    RunConcat(m, g, pre, tail, e, mem, f);
    RunConcat(m', g, pre, tail', e', mem, f');
  }

  /** A block with enough fuel. */
  lemma {:induction false} HalvesFuel(m: Module, g: string, pre: seq<Op>, tail: seq<Op>, e: Env, mem: Mem, f: nat)
    requires Straight(pre) && Run(m, g, pre + tail, e, mem, f) != Halted(OutOfFuel)
    ensures var o := Run(m, g, pre, e, mem, f);
            o != Halted(OutOfFuel) && (o.Fell? ==> Run(m, g, tail, o.env, o.mem, f) != Halted(OutOfFuel))
  {
    RunConcat(m, g, pre, tail, e, mem, f);
  }

  /** A block, cut before the op at the site. */
  lemma SiteSplit(fn: Func, b: Label, i: nat)
    requires b in fn.blocks && i < |fn.blocks[b].ops|
    ensures fn.blocks[b].ops == Pre(fn, b, i) + ([fn.blocks[b].ops[i]] + Post(fn, b, i))
  {
  }

  /** The rewritten block: the ops before the site run first, then what replaces the op. */
  lemma {:induction false} ForwardSite(m: Module, w: Rewrite, m': Module, e: Env, e': Env, mem: Mem, f: nat) returns (f': nat)
    requires RewrittenOp(m, w, m') && Agree(m[w.g].nextVid, e, e')
    requires Run(m, w.g, m[w.g].blocks[w.b].ops, e, mem, f) != Halted(OutOfFuel)
    ensures w.b in m'[w.g].blocks
    ensures Sim(m[w.g].nextVid, Run(m, w.g, m[w.g].blocks[w.b].ops, e, mem, f), Run(m', w.g, m'[w.g].blocks[w.b].ops, e', mem, f'))
    decreases f, 2
  {
    ReplacementPlaced(m, w, m');
    var fn := m[w.g];
    var pre, tail, new_ := Pre(fn, w.b, w.i), [fn.blocks[w.b].ops[w.i]] + Post(fn, w.b, w.i), Replacement(m, w);
    SiteSplit(fn, w.b, w.i);
    HalvesFuel(m, w.g, pre, tail, e, mem, f);
    var f1 := Forward(m, w, m', w.g, pre, e, e', mem, f);
    var o, o1 := Run(m, w.g, pre, e, mem, f), Run(m', w.g, pre, e', mem, f1);
    f' := f1;
    if o.Fell? {
      var f2 := ForwardOp(m, w, m', o.env, o1.env, o.mem, f);
      f' := Max(f1, f2);
      RunMono(m', w.g, new_, o1.env, o1.mem, f2, f');
    }
    RunMono(m', w.g, pre, e', mem, f1, f');
    JoinHalves(fn.nextVid, m, m', w.g, pre, tail, new_, e, e', mem, f, f');
  }

  /** What the block holds after the ops before the site. */
  ghost function Replacement(m: Module, w: Rewrite): seq<Op>
    requires Applies(m, w) && w.AtOp?
  {
    var fn := m[w.g];
    var op := fn.blocks[w.b].ops[w.i];
    if op.KIf? then BranchOnIf(op.c, fn.nextVid, fn.nextLabel)
    else if op.KWhile? then [LBr(fn.nextLabel + 2, [])]
    else LeafOps(op, fn.nextVid) + Post(fn, w.b, w.i)
  }

  lemma ReplacementPlaced(m: Module, w: Rewrite, m': Module)
    requires RewrittenOp(m, w, m')
    ensures var fn := m[w.g];
            && w.b in m'[w.g].blocks && m'[w.g].blocks[w.b].ops == Pre(fn, w.b, w.i) + Replacement(m, w)
            && Straight(Pre(fn, w.b, w.i))
            && OpsBelow(Pre(fn, w.b, w.i), fn.nextVid, fn.nextLabel) && OpsBelow(Post(fn, w.b, w.i), fn.nextVid, fn.nextLabel)
  {
    SiteOk(m, w);
    var fn := m[w.g];
    var op := fn.blocks[w.b].ops[w.i];
    if IsLeaf(op) {
      var l := LeafOps(op, fn.nextVid);
      assert Pre(fn, w.b, w.i) + l + Post(fn, w.b, w.i) == Pre(fn, w.b, w.i) + (l + Post(fn, w.b, w.i));
    }
  }

  /** From the site on. */
  lemma {:induction false} ForwardOp(m: Module, w: Rewrite, m': Module, e: Env, e': Env, mem: Mem, f: nat) returns (f': nat)
    requires RewrittenOp(m, w, m') && Agree(m[w.g].nextVid, e, e')
    requires Run(m, w.g, [m[w.g].blocks[w.b].ops[w.i]] + Post(m[w.g], w.b, w.i), e, mem, f) != Halted(OutOfFuel)
    ensures Sim(m[w.g].nextVid, Run(m, w.g, [m[w.g].blocks[w.b].ops[w.i]] + Post(m[w.g], w.b, w.i), e, mem, f),
                Run(m', w.g, Replacement(m, w), e', mem, f'))
    decreases f, 2, 1
  {
    SiteOk(m, w);
    var op := m[w.g].blocks[w.b].ops[w.i];
    if op.KIf? {
      f' := ForwardIf(m, w, m', e, e', mem, f);
    } else if op.KWhile? {
      f' := ForwardWhile(m, w, m', e, e', mem, f);
    } else {
      f' := ForwardLeaf(m, w, m', e, e', mem, f);
    }
  }

  // ----- ops without regions -----

  predicate IsCompare(op: Op) {
    op.KBin? && !op.kind.Add? && !op.kind.Sub? && !op.kind.Mul?
  }

  /** The environment after an op without control flow has been replaced with its LLVM form. */
  function LeafEnv(op: Op, t: Vid, e: Env, mem: Mem): Env
    requires IsLeaf(op) && IsSimple(op) && Step(op, e, mem).Some?
  {
    if op.KDecl? then e[t := Int(1)][op.r := Addr(|mem|)]
    else if IsCompare(op) then e[t := Bit(PredMeaning(PredOf(op.kind), e[op.a].i, e[op.b].i))][op.r := Int(KindMeaning(op.kind, e[op.a].i, e[op.b].i))]
    else Step(op, e, mem).value.0
  }

  /** The LLVM form of an op without control flow computes what the op computes. */
  lemma {:induction false} LeafStep(m: Module, g: string, op: Op, t: Vid, rest: seq<Op>, e: Env, mem: Mem, f: nat)
    requires IsLeaf(op) && IsSimple(op) && OpBelow(op, t, 0)
    ensures match Step(op, e, mem)
            case None => Run(m, g, LeafOps(op, t) + rest, e, mem, f) == Halted(Undefined)
            case Some(s) => Run(m, g, LeafOps(op, t) + rest, e, mem, f) == Run(m, g, rest, LeafEnv(op, t, e, mem), s.1, f)
  {
    var ops := LeafOps(op, t);
    if op.KDecl? || IsCompare(op) {
      assert ops + rest == [ops[0]] + ([ops[1]] + rest);
      RunFirst(m, g, ops[0], [ops[1]] + rest, e, mem, f);
      var s := Step(ops[0], e, mem);
      if s.Some? { RunFirst(m, g, ops[1], rest, s.value.0, s.value.1, f); }
    } else {
      RunFirst(m, g, ops[0], rest, e, mem, f);
    }
  }

  lemma {:induction false} LeafAgree(op: Op, n: Vid, e: Env, e': Env, mem: Mem)
    requires IsLeaf(op) && IsSimple(op) && OpBelow(op, n, 0) && Agree(n, e, e')
    ensures match Step(op, e, mem)
            case None => Step(op, e', mem) == None
            case Some(s) => var s' := Step(op, e', mem); s'.Some? && s'.value.1 == s.1 && Agree(n, s.0, LeafEnv(op, n, e', mem))
  {
    StepAgree(op, n, 0, e, e', mem);
  }

  lemma {:induction false} ForwardLeaf(m: Module, w: Rewrite, m': Module, e: Env, e': Env, mem: Mem, f: nat) returns (f': nat)
    requires RewrittenOp(m, w, m') && Agree(m[w.g].nextVid, e, e') && IsLeaf(m[w.g].blocks[w.b].ops[w.i])
    requires Run(m, w.g, [m[w.g].blocks[w.b].ops[w.i]] + Post(m[w.g], w.b, w.i), e, mem, f) != Halted(OutOfFuel)
    ensures Sim(m[w.g].nextVid, Run(m, w.g, [m[w.g].blocks[w.b].ops[w.i]] + Post(m[w.g], w.b, w.i), e, mem, f),
                Run(m', w.g, Replacement(m, w), e', mem, f'))
    decreases f, 2, 0
  {
    SiteOk(m, w);
    ReplacementPlaced(m, w, m');
    var fn := m[w.g];
    var op, post, n := fn.blocks[w.b].ops[w.i], Post(fn, w.b, w.i), fn.nextVid;
    f' := 0;
    if IsSimple(op) {
      RunFirst(m, w.g, op, post, e, mem, f);
      LeafAgree(op, n, e, e', mem);
      var s := Step(op, e, mem);
      if s.Some? {
        f' := Forward(m, w, m', w.g, post, s.value.0, LeafEnv(op, n, e', mem), s.value.1, f);
      }
      LeafStep(m', w.g, op, n, post, e', mem, f');
    } else {
      f' := ForwardControl(m, w, m', w.g, [op] + post, e, e', mem, f);
      SameControl(m', w.g, op, n, post, e', mem, f');
    }
  }

  /** Calls and returns do the same in both dialects. */
  lemma {:induction false} SameControl(m: Module, g: string, op: Op, t: Vid, rest: seq<Op>, e: Env, mem: Mem, f: nat)
    requires op.KCall? || op.KRet?
    ensures Run(m, g, LeafOps(op, t) + rest, e, mem, f) == Run(m, g, [op] + rest, e, mem, f)
  {
    var op' := LeafOps(op, t)[0];
    assert LeafOps(op, t) == [op'];
    if op.KRet? {
      RunExit(m, g, op, rest, e, mem, f);
      RunExit(m, g, op', rest, e, mem, f);
    } else if Ints(e, op.args).Some? {
      RunCallFirst(m, g, op, rest, e, mem, f);
      RunCallFirst(m, g, op', rest, e, mem, f);
    } else {
      RunCallBad(m, g, op, rest, e, mem, f);
      RunCallBad(m, g, op', rest, e, mem, f);
    }
  }

  // ----- if -----

  /** Closing a region: where the region would fall through, its block goes on to `dest`. */
  lemma {:induction false} RunClosed(m: Module, g: string, region: seq<Op>, dest: Label, e: Env, mem: Mem, f: nat)
    requires RegionOk(region)
    ensures var o := Run(m, g, region, e, mem, f);
            Run(m, g, Close(region, dest), e, mem, f) == if o.Fell? then Jump(m, g, dest, [], o.env, o.mem, f) else o
  {
    var k := |region| - 1;
    var init, last := region[..k], region[k];
    assert region == init + ([last] + []);
    RunConcat(m, g, init, [last] + [], e, mem, f);
    var o := Run(m, g, init, e, mem, f);
    if o.Fell? { RunExit(m, g, last, [], o.env, o.mem, f); }
    if last.KYield? {
      assert Close(region, dest) == init + ([LBr(dest, [])] + []);
      RunConcat(m, g, init, [LBr(dest, [])] + [], e, mem, f);
      if o.Fell? { RunBranch(m, g, dest, [], o.env, o.mem, f); }
    }
  }

  /** A jump to the block of a closed region runs the region and jumps on where it falls. */
  lemma ClosedJump(m: Module, g: string, region: seq<Op>, b1: Label, b2: Label, e: Env, mem: Mem, f: nat)
    requires RegionOk(region) && g in m && b1 in m[g].blocks && m[g].blocks[b1] == Block([], Close(region, b2)) && f > 0
    ensures var o := Run(m, g, region, e, mem, f - 1);
            Jump(m, g, b1, [], e, mem, f) == if o.Fell? then Jump(m, g, b2, [], o.env, o.mem, f - 1) else o
  {
    JumpTo(m, g, b1, e, mem, f);
    RunClosed(m, g, region, b2, e, mem, f - 1);
  }

  lemma IfParts(m: Module, w: Rewrite, m': Module)
    requires RewrittenOp(m, w, m') && m[w.g].blocks[w.b].ops[w.i].KIf?
    ensures var fn, fn' := m[w.g], m'[w.g]; var op, l := fn.blocks[w.b].ops[w.i], fn.nextLabel;
            && RegionOk(op.thn) && RegionOk(op.els) && OpBelow(op, fn.nextVid, l)
            && l in fn'.blocks && fn'.blocks[l] == Block([], Close(op.thn, l + 2))
            && l + 1 in fn'.blocks && fn'.blocks[l + 1] == Block([], Close(op.els, l + 2))
            && l + 2 in fn'.blocks && fn'.blocks[l + 2] == Block([], Post(fn, w.b, w.i))
  {
    SiteOk(m, w);
  }

  /** The environment after the condition of an `if` has been compared with zero. */
  ghost function IfEnv(c: Vid, n: Vid, e: Env): Env
    requires HasInt(e, c)
  {
    e[n := Int(0)][n + 1 := Bit(e[c].i != 0)]
  }

  lemma IfEnvAgree(c: Vid, n: Vid, e: Env)
    requires HasInt(e, c) && c < n
    ensures Agree(n, e, IfEnv(c, n, e))
  {
  }

  lemma {:induction false} RunBranchOnIf(m: Module, g: string, c: Vid, n: Vid, l: Label, e: Env, mem: Mem, f: nat)
    requires HasInt(e, c) && c < n
    ensures Agree(n, e, IfEnv(c, n, e))
    ensures Run(m, g, BranchOnIf(c, n, l), e, mem, f) == Jump(m, g, if e[c].i != 0 then l else l + 1, [], IfEnv(c, n, e), mem, f)
  {
    var e1, e2 := e[n := Int(0)], IfEnv(c, n, e);
    var ops := BranchOnIf(c, n, l);
    assert ops == [ops[0]] + ([ops[1]] + [ops[2]]);
    RunFirst(m, g, ops[0], [ops[1]] + [ops[2]], e, mem, f);
    RunFirst(m, g, ops[1], [ops[2]], e1, mem, f);
    RunCondBranch(m, g, ops[2], e2, mem, f);
  }

  lemma IfAgree(c: Vid, n: Vid, e: Env, e': Env)
    requires HasInt(e, c) && c < n && Agree(n, e, e')
    ensures HasInt(e', c) && e'[c] == e[c] && Agree(n, e, IfEnv(c, n, e'))
  {
    IfEnvAgree(c, n, e');
    AgreeTrans(n, e, e', IfEnv(c, n, e'));
  }

  /** An `if` agrees with its branch if each arm does. */
  lemma {:induction false} JoinIf(m: Module, m': Module, g: string, op: Op, post: seq<Op>, n: Vid, l: Label, e: Env, e': Env, mem: Mem, f: nat, f': nat)
    requires op.KIf? && op.c < n && Agree(n, e, e')
    requires HasInt(e, op.c) ==>
               var o := Run(m, g, if e[op.c].i != 0 then op.thn else op.els, e, mem, f);
               HasInt(e', op.c) && Sim(n, if o.Fell? then Run(m, g, post, o.env, o.mem, f) else o,
                                       Jump(m', g, if e[op.c].i != 0 then l else l + 1, [], IfEnv(op.c, n, e'), mem, f'))
    ensures Sim(n, Run(m, g, [op] + post, e, mem, f), Run(m', g, BranchOnIf(op.c, n, l), e', mem, f'))
  {
    if HasInt(e, op.c) {
      RunIf(m, g, op, post, e, mem, f);
      RunBranchOnIf(m', g, op.c, n, l, e', mem, f');
    } else {
      RunIfBad(m, g, op, post, e, mem, f);
      RunBranchOnIfBad(m', g, op.c, n, l, e', mem, f');
    }
  }

  lemma {:induction false} ForwardIf(m: Module, w: Rewrite, m': Module, e: Env, e': Env, mem: Mem, f: nat) returns (f': nat)
    requires RewrittenOp(m, w, m') && Agree(m[w.g].nextVid, e, e') && m[w.g].blocks[w.b].ops[w.i].KIf?
    requires Run(m, w.g, [m[w.g].blocks[w.b].ops[w.i]] + Post(m[w.g], w.b, w.i), e, mem, f) != Halted(OutOfFuel)
    ensures Sim(m[w.g].nextVid, Run(m, w.g, [m[w.g].blocks[w.b].ops[w.i]] + Post(m[w.g], w.b, w.i), e, mem, f),
                Run(m', w.g, Replacement(m, w), e', mem, f'))
    decreases f, 2, 0
  {
    IfParts(m, w, m');
    var fn := m[w.g];
    var op, post, n, l := fn.blocks[w.b].ops[w.i], Post(fn, w.b, w.i), fn.nextVid, fn.nextLabel;
    f' := 0;
    if HasInt(e, op.c) {
      RunIf(m, w.g, op, post, e, mem, f);
      IfAgree(op.c, n, e, e');
      f' := ForwardArm(m, w, m', e[op.c].i != 0, e, IfEnv(op.c, n, e'), mem, f);
    }
    JoinIf(m, m', w.g, op, post, n, l, e, e', mem, f, f');
  }

  /** A region has block `b1` for itself, which goes on to block `b2` with the ops `post`. */
  ghost predicate ArmAt(fn: Func, region: seq<Op>, post: seq<Op>, b1: Label, b2: Label) {
    && RegionOk(region) && b1 in fn.blocks && fn.blocks[b1] == Block([], Close(region, b2)) && b2 in fn.blocks && fn.blocks[b2] == Block([], post)
  }

  /** A region with a block of its own, and on to the merge block. */
  lemma {:induction false} ForwardBranch(m: Module, w: Rewrite, m': Module, branch: seq<Op>, post: seq<Op>, b1: Label, b2: Label, e: Env, e2: Env, mem: Mem, f: nat)
    returns (f': nat)
    requires Rewritten(m, w, m') && w.g in m && w.g in m' && Agree(m[w.g].nextVid, e, e2) && ArmAt(m'[w.g], branch, post, b1, b2)
    requires OpsBelow(branch, m[w.g].nextVid, m[w.g].nextLabel) && OpsBelow(post, m[w.g].nextVid, m[w.g].nextLabel)
    requires var o := Run(m, w.g, branch, e, mem, f);
             o != Halted(OutOfFuel) && (o.Fell? ==> Run(m, w.g, post, o.env, o.mem, f) != Halted(OutOfFuel))
    ensures var o := Run(m, w.g, branch, e, mem, f);
            Sim(m[w.g].nextVid, if o.Fell? then Run(m, w.g, post, o.env, o.mem, f) else o, Jump(m', w.g, b1, [], e2, mem, f'))
    decreases f, 2, 0, 0
  {
    var f1 := Forward(m, w, m', w.g, branch, e, e2, mem, f);
    var f2 := ForwardThen(m, w, m', w.g, branch, post, e, e2, mem, f, f1);
    f' := f2 + 2;
    var o := Run(m, w.g, branch, e, mem, f);
    JoinForward(m[w.g].nextVid, m', w.g, branch, post, b1, b2, e2, mem, f2, o, if o.Fell? then Run(m, w.g, post, o.env, o.mem, f) else o);
  }

  /** The block of a closed region and the block it goes on to, with fuel for both. */
  lemma {:induction false} RegionThen(m: Module, g: string, region: seq<Op>, post: seq<Op>, b1: Label, b2: Label, e: Env, mem: Mem, f: nat)
    requires g in m && ArmAt(m[g], region, post, b1, b2) && f > 0
    ensures var o := Run(m, g, region, e, mem, f - 1);
            Jump(m, g, b1, [], e, mem, f) ==
            if !o.Fell? then o else if f == 1 then Halted(OutOfFuel) else Run(m, g, post, o.env, o.mem, f - 2)
  {
    ClosedJump(m, g, region, b1, b2, e, mem, f);
    var o := Run(m, g, region, e, mem, f - 1);
    if o.Fell? && f > 1 { JumpTo(m, g, b2, o.env, o.mem, f - 1); }
  }

  /** `o` is what the region did before the rewrite, and `r` what came behind it. */
  lemma {:induction false} JoinForward(n: Vid, m: Module, g: string, region: seq<Op>, post: seq<Op>, b1: Label, b2: Label,
                                       e: Env, mem: Mem, f: nat, o: Outcome, r: Outcome)
    requires g in m && ArmAt(m[g], region, post, b1, b2) && o != Halted(OutOfFuel)
    requires var o' := Run(m, g, region, e, mem, f);
             Sim(n, o, o') && (o.Fell? ==> Sim(n, r, Run(m, g, post, o'.env, o'.mem, f)))
    ensures Sim(n, if o.Fell? then r else o, Jump(m, g, b1, [], e, mem, f + 2))
  {
    RunMono(m, g, region, e, mem, f, f + 1);
    RegionThen(m, g, region, post, b1, b2, e, mem, f + 2);
  }

  /** One arm of an `if`: its block, and on to the merge block. */
  lemma {:induction false} ForwardArm(m: Module, w: Rewrite, m': Module, then_: bool, e: Env, e2: Env, mem: Mem, f: nat) returns (f': nat)
    requires RewrittenOp(m, w, m') && Agree(m[w.g].nextVid, e, e2) && m[w.g].blocks[w.b].ops[w.i].KIf?
    requires var op := m[w.g].blocks[w.b].ops[w.i];
             var o := Run(m, w.g, if then_ then op.thn else op.els, e, mem, f);
             o != Halted(OutOfFuel) && (o.Fell? ==> Run(m, w.g, Post(m[w.g], w.b, w.i), o.env, o.mem, f) != Halted(OutOfFuel))
    ensures var fn := m[w.g]; var op := fn.blocks[w.b].ops[w.i];
            var o := Run(m, w.g, if then_ then op.thn else op.els, e, mem, f);
            Sim(fn.nextVid, if o.Fell? then Run(m, w.g, Post(fn, w.b, w.i), o.env, o.mem, f) else o,
                Jump(m', w.g, if then_ then fn.nextLabel else fn.nextLabel + 1, [], e2, mem, f'))
    decreases f, 2, 0, 1
  {
    IfParts(m, w, m');
    ReplacementPlaced(m, w, m');
    var op, post, l := m[w.g].blocks[w.b].ops[w.i], Post(m[w.g], w.b, w.i), m[w.g].nextLabel;
    if then_ {
      f' := ForwardBranch(m, w, m', op.thn, post, l, l + 2, e, e2, mem, f);
    } else {
      f' := ForwardBranch(m, w, m', op.els, post, l + 1, l + 2, e, e2, mem, f);
    }
  }

  lemma {:induction false} RunBranchOnIfBad(m: Module, g: string, c: Vid, n: Vid, l: Label, e: Env, mem: Mem, f: nat)
    requires !HasInt(e, c) && c < n
    ensures Run(m, g, BranchOnIf(c, n, l), e, mem, f) == Halted(Undefined)
  {
    var ops := BranchOnIf(c, n, l);
    assert ops == [ops[0]] + ([ops[1]] + [ops[2]]);
    RunFirst(m, g, ops[0], [ops[1]] + [ops[2]], e, mem, f);
    RunFirst(m, g, ops[1], [ops[2]], e[n := Int(0)], mem, f);
  }

  // ----- while -----

  lemma WhileParts(m: Module, w: Rewrite, m': Module)
    requires RewrittenOp(m, w, m') && m[w.g].blocks[w.b].ops[w.i].KWhile?
    ensures var fn, fn' := m[w.g], m'[w.g]; var op, l := fn.blocks[w.b].ops[w.i], fn.nextLabel;
            && RegionOk(op.body) && OpBelow(op, fn.nextVid, l)
            && l in fn'.blocks && fn'.blocks[l] == Block([], Close(op.body, l + 2))
            && l + 1 in fn'.blocks && fn'.blocks[l + 1] == Block([], Post(fn, w.b, w.i))
            && l + 2 in fn'.blocks && fn'.blocks[l + 2] == Block([], Header(op.p, fn.nextVid, l))
  {
    SiteOk(m, w);
  }

  ghost function HeaderEnv(n: Vid, c: I64, e: Env): Env {
    e[n := Int(c)][n + 1 := Int(0)][n + 2 := Bit(c != 0)]
  }

  /** The header loads the condition and branches on it. */
  lemma {:induction false} RunHeader(m: Module, g: string, p: Vid, n: Vid, l: Label, e: Env, mem: Mem, f: nat)
    requires p < n
    ensures forall c :: Agree(n, e, HeaderEnv(n, c, e))
    ensures match Load(e, mem, p)
            case None => Run(m, g, Header(p, n, l), e, mem, f) == Halted(Undefined)
            case Some(c) => Run(m, g, Header(p, n, l), e, mem, f) == Jump(m, g, if c != 0 then l else l + 1, [], HeaderEnv(n, c, e), mem, f)
  {
    var ops := Header(p, n, l);
    assert ops == [ops[0]] + ([ops[1]] + ([ops[2]] + [ops[3]]));
    RunFirst(m, g, ops[0], [ops[1]] + ([ops[2]] + [ops[3]]), e, mem, f);
    var c := Load(e, mem, p);
    if c.Some? {
      var e1 := e[n := Int(c.value)];
      RunFirst(m, g, ops[1], [ops[2]] + [ops[3]], e1, mem, f);
      RunFirst(m, g, ops[2], [ops[3]], e1[n + 1 := Int(0)], mem, f);
      RunCondBranch(m, g, ops[3], HeaderEnv(n, c.value, e), mem, f);
    }
  }

  lemma HeaderAgree(n: Vid, e: Env, e': Env, c: I64)
    requires Agree(n, e, e')
    ensures Agree(n, e, HeaderEnv(n, c, e'))
  {
  }

  /** A loop that can read its condition leaves, or runs its body once and goes on. */
  lemma LoopThenStep(m: Module, h: string, p: Vid, body: seq<Op>, rest: seq<Op>, e: Env, mem: Mem, k: nat, f: nat)
    ensures match Load(e, mem, p)
            case None => LoopThen(m, h, p, body, rest, e, mem, k, f) == Halted(Undefined)
            case Some(c) =>
              if c == 0 then LoopThen(m, h, p, body, rest, e, mem, k, f) == Run(m, h, rest, e, mem, f)
              else if k == 0 then LoopThen(m, h, p, body, rest, e, mem, k, f) == Halted(OutOfFuel)
              else
                var o := Run(m, h, body, e, mem, k - 1);
                LoopThen(m, h, p, body, rest, e, mem, k, f) == if o.Fell? then LoopThen(m, h, p, body, rest, o.env, o.mem, k - 1, f) else o
  {
  }

  /** A loop agrees with its header block if it does so behind the header's branch. */
  lemma {:induction false} JoinHeader(m: Module, m': Module, g: string, p: Vid, body: seq<Op>, post: seq<Op>, n: Vid, l: Label,
                   e: Env, e': Env, mem: Mem, k: nat, f: nat, f': nat)
    requires p < n && Agree(n, e, e')
    requires var c := Load(e, mem, p);
             c.Some? ==> Sim(n, LoopThen(m, g, p, body, post, e, mem, k, f),
                             Jump(m', g, if c.value != 0 then l else l + 1, [], HeaderEnv(n, c.value, e'), mem, f'))
    ensures Sim(n, LoopThen(m, g, p, body, post, e, mem, k, f), Run(m', g, Header(p, n, l), e', mem, f'))
  {
    LoadAgree(n, e, e', mem, p);
    RunHeader(m', g, p, n, l, e', mem, f');
    LoopThenStep(m, g, p, body, post, e, mem, k, f);
  }

  lemma {:induction false} HeaderFuel(m': Module, g: string, p: Vid, n: Vid, l: Label, e: Env, e': Env, mem: Mem, f: nat)
    requires p < n && Agree(n, e, e') && Run(m', g, Header(p, n, l), e', mem, f) != Halted(OutOfFuel)
    ensures var c := Load(e, mem, p);
            c.Some? ==> Jump(m', g, if c.value != 0 then l else l + 1, [], HeaderEnv(n, c.value, e'), mem, f) != Halted(OutOfFuel)
  {
    LoadAgree(n, e, e', mem, p);
    RunHeader(m', g, p, n, l, e', mem, f);
  }

  /** What a loop and the ops after it do, the header block does. */
  lemma {:induction false} ForwardHeader(m: Module, w: Rewrite, m': Module, e: Env, e': Env, mem: Mem, k: nat, f: nat) returns (f': nat)
    requires RewrittenOp(m, w, m') && Agree(m[w.g].nextVid, e, e') && m[w.g].blocks[w.b].ops[w.i].KWhile? && k <= f
    requires var op := m[w.g].blocks[w.b].ops[w.i];
             LoopThen(m, w.g, op.p, op.body, Post(m[w.g], w.b, w.i), e, mem, k, f) != Halted(OutOfFuel)
    ensures var fn := m[w.g]; var op := fn.blocks[w.b].ops[w.i];
            Sim(fn.nextVid, LoopThen(m, w.g, op.p, op.body, Post(fn, w.b, w.i), e, mem, k, f),
                Run(m', w.g, Header(op.p, fn.nextVid, fn.nextLabel), e', mem, f'))
    decreases f, 2, 0, 1, k, 1
  {
    WhileParts(m, w, m');
    var fn := m[w.g];
    var op, post, n, l := fn.blocks[w.b].ops[w.i], Post(fn, w.b, w.i), fn.nextVid, fn.nextLabel;
    LoopThenStep(m, w.g, op.p, op.body, post, e, mem, k, f);
    f' := 0;
    var c := Load(e, mem, op.p);
    if c.Some? {
      var e2 := HeaderEnv(n, c.value, e');
      HeaderAgree(n, e, e', c.value);
      if c.value == 0 {
        f' := ForwardExit(m, w, m', e, e2, mem, f);
      } else {
        f' := ForwardIteration(m, w, m', e, e2, mem, k, f);
      }
    }
    JoinHeader(m, m', w.g, op.p, op.body, post, n, l, e, e', mem, k, f, f');
  }

  lemma LoadAgree(n: Vid, e: Env, e': Env, mem: Mem, p: Vid)
    requires Agree(n, e, e') && p < n
    ensures Load(e, mem, p) == Load(e', mem, p)
  {
  }

  lemma AgreeTrans(n: Vid, e1: Env, e2: Env, e3: Env)
    requires Agree(n, e1, e2) && Agree(n, e2, e3)
    ensures Agree(n, e1, e3)
  {
  }

  /** The exit block. */
  lemma {:induction false} ForwardExit(m: Module, w: Rewrite, m': Module, e: Env, e2: Env, mem: Mem, f: nat) returns (f': nat)
    requires RewrittenOp(m, w, m') && Agree(m[w.g].nextVid, e, e2) && m[w.g].blocks[w.b].ops[w.i].KWhile?
    requires Run(m, w.g, Post(m[w.g], w.b, w.i), e, mem, f) != Halted(OutOfFuel)
    ensures Sim(m[w.g].nextVid, Run(m, w.g, Post(m[w.g], w.b, w.i), e, mem, f), Jump(m', w.g, m[w.g].nextLabel + 1, [], e2, mem, f'))
    decreases f, 2, 0, 0
  {
    WhileParts(m, w, m');
    ReplacementPlaced(m, w, m');
    var f1 := Forward(m, w, m', w.g, Post(m[w.g], w.b, w.i), e, e2, mem, f);
    f' := f1 + 1;
    JumpTo(m', w.g, m[w.g].nextLabel + 1, e2, mem, f');
  }

  /** One iteration: the body's block, and back to the header. */
  lemma {:induction false} ForwardIteration(m: Module, w: Rewrite, m': Module, e: Env, e2: Env, mem: Mem, k: nat, f: nat) returns (f': nat)
    requires RewrittenOp(m, w, m') && Agree(m[w.g].nextVid, e, e2) && m[w.g].blocks[w.b].ops[w.i].KWhile? && 0 < k <= f
    requires var op := m[w.g].blocks[w.b].ops[w.i];
             var o := Run(m, w.g, op.body, e, mem, k - 1);
             o != Halted(OutOfFuel)
             && (o.Fell? ==> LoopThen(m, w.g, op.p, op.body, Post(m[w.g], w.b, w.i), o.env, o.mem, k - 1, f) != Halted(OutOfFuel))
    ensures var fn := m[w.g]; var op := fn.blocks[w.b].ops[w.i];
            var o := Run(m, w.g, op.body, e, mem, k - 1);
            Sim(fn.nextVid, if o.Fell? then LoopThen(m, w.g, op.p, op.body, Post(fn, w.b, w.i), o.env, o.mem, k - 1, f) else o,
                Jump(m', w.g, fn.nextLabel, [], e2, mem, f'))
    decreases f, 2, 0, 1, k, 0
  {
    WhileParts(m, w, m');
    var fn := m[w.g];
    var op, l := fn.blocks[w.b].ops[w.i], fn.nextLabel;
    var header := Header(op.p, fn.nextVid, l);
    var f1 := Forward(m, w, m', w.g, op.body, e, e2, mem, k - 1);
    var o, o1 := Run(m, w.g, op.body, e, mem, k - 1), Run(m', w.g, op.body, e2, mem, f1);
    var fuel := f1;
    if o.Fell? {
      var f2 := ForwardHeader(m, w, m', o.env, o1.env, o.mem, k - 1, f);
      fuel := Max(f1, f2);
      RunMono(m', w.g, header, o1.env, o1.mem, f2, fuel);
    }
    RunMono(m', w.g, op.body, e2, mem, f1, fuel);
    f' := fuel + 2;
    JoinForward(fn.nextVid, m', w.g, op.body, header, l, l + 2, e2, mem, fuel, o,
                if o.Fell? then LoopThen(m, w.g, op.p, op.body, Post(fn, w.b, w.i), o.env, o.mem, k - 1, f) else o);
  }

  lemma {:induction false} JumpFuel(m: Module, g: string, dest: Label, e: Env, mem: Mem, f: nat)
    requires g in m && dest in m[g].blocks && m[g].blocks[dest].params == [] && Jump(m, g, dest, [], e, mem, f) != Halted(OutOfFuel)
    ensures f > 0
  {
  }

  lemma {:induction false} JumpTo(m: Module, g: string, dest: Label, e: Env, mem: Mem, f: nat)
    requires f > 0 && g in m && dest in m[g].blocks && m[g].blocks[dest].params == []
    ensures Jump(m, g, dest, [], e, mem, f) == Run(m, g, m[g].blocks[dest].ops, e, mem, f - 1)
  {
  }

  /** A loop run with fuel `k`, then the ops after it with fuel `f`. */
  ghost function LoopThen(m: Module, h: string, p: Vid, body: seq<Op>, rest: seq<Op>, e: Env, mem: Mem, k: nat, f: nat): Outcome {
    var o := Loop(m, h, p, body, e, mem, k);
    if o.Fell? then Run(m, h, rest, o.env, o.mem, f) else o
  }

  /** A loop agrees with a branch to its header if it does so with the header. */
  lemma {:induction false} JoinWhile(n: Vid, m: Module, m': Module, g: string, op: Op, post: seq<Op>, l: Label, e: Env, e': Env, mem: Mem, f: nat, f': nat)
    requires op.KWhile? && g in m' && l in m'[g].blocks && m'[g].blocks[l].params == []
    requires Sim(n, LoopThen(m, g, op.p, op.body, post, e, mem, f, f), Run(m', g, m'[g].blocks[l].ops, e', mem, f'))
    ensures Sim(n, Run(m, g, [op] + post, e, mem, f), Run(m', g, [LBr(l, [])], e', mem, f' + 1))
  {
    RunWhile(m, g, op, post, e, mem, f);
    RunBranch(m', g, l, [], e', mem, f' + 1);
    JumpTo(m', g, l, e', mem, f' + 1);
  }

  lemma {:induction false} ForwardWhile(m: Module, w: Rewrite, m': Module, e: Env, e': Env, mem: Mem, f: nat) returns (f': nat)
    requires RewrittenOp(m, w, m') && Agree(m[w.g].nextVid, e, e') && m[w.g].blocks[w.b].ops[w.i].KWhile?
    requires Run(m, w.g, [m[w.g].blocks[w.b].ops[w.i]] + Post(m[w.g], w.b, w.i), e, mem, f) != Halted(OutOfFuel)
    ensures Sim(m[w.g].nextVid, Run(m, w.g, [m[w.g].blocks[w.b].ops[w.i]] + Post(m[w.g], w.b, w.i), e, mem, f),
                Run(m', w.g, Replacement(m, w), e', mem, f'))
    decreases f, 2, 0
  {
    WhileParts(m, w, m');
    var fn := m[w.g];
    var op, post := fn.blocks[w.b].ops[w.i], Post(fn, w.b, w.i);
    RunWhile(m, w.g, op, post, e, mem, f);
    var f1 := ForwardHeader(m, w, m', e, e', mem, f, f);
    f' := f1 + 1;
    JoinWhile(fn.nextVid, m, m', w.g, op, post, fn.nextLabel + 2, e, e', mem, f, f1);
  }

  // ----- backward: what the rewritten body does, the body does with the same fuel -----

  lemma {:induction false} Backward(m: Module, w: Rewrite, m': Module, h: string, ops: seq<Op>, e: Env, e': Env, mem: Mem, f: nat)
    requires Rewritten(m, w, m') && h in m && OpsBelow(ops, m[h].nextVid, m[h].nextLabel) && Agree(m[h].nextVid, e, e')
    requires Run(m', h, ops, e', mem, f) != Halted(OutOfFuel)
    ensures Sim(m[h].nextVid, Run(m, h, ops, e, mem, f), Run(m', h, ops, e', mem, f))
    decreases f, 1, ops, 3
  {
    if ops == [] {
    } else if IsSimple(ops[0]) {
      StepAgree(ops[0], m[h].nextVid, m[h].nextLabel, e, e', mem);
      var s, s' := Step(ops[0], e, mem), Step(ops[0], e', mem);
      if s.Some? { Backward(m, w, m', h, ops[1..], s.value.0, s'.value.0, s.value.1, f); }
    } else if ops[0].KCall? || ops[0].LCall? {
      BackwardCall(m, w, m', h, ops, e, e', mem, f);
    } else {
      BackwardControl(m, w, m', h, ops, e, e', mem, f);
    }
  }

  lemma {:induction false} BackwardControl(m: Module, w: Rewrite, m': Module, h: string, ops: seq<Op>, e: Env, e': Env, mem: Mem, f: nat)
    requires Rewritten(m, w, m') && h in m && OpsBelow(ops, m[h].nextVid, m[h].nextLabel) && Agree(m[h].nextVid, e, e')
    requires ops != [] && !IsSimple(ops[0]) && !ops[0].KCall? && !ops[0].LCall? && Run(m', h, ops, e', mem, f) != Halted(OutOfFuel)
    ensures Sim(m[h].nextVid, Run(m, h, ops, e, mem, f), Run(m', h, ops, e', mem, f))
    decreases f, 1, ops, 2
  {
    var op := ops[0];
    assert OpBelow(op, m[h].nextVid, m[h].nextLabel);
    assert [op] + ops[1..] == ops;
    if op.KIf? {
      BackwardIfOp(m, w, m', h, op, ops[1..], e, e', mem, f);
    } else if op.KWhile? {
      RunWhile(m, h, op, ops[1..], e, mem, f);
      RunWhile(m', h, op, ops[1..], e', mem, f);
      BackwardLoop(m, w, m', h, op.p, op.body, e, e', mem, f);
      var o, o1 := Loop(m, h, op.p, op.body, e, mem, f), Loop(m', h, op.p, op.body, e', mem, f);
      if o.Fell? { Backward(m, w, m', h, ops[1..], o.env, o1.env, o.mem, f); }
    } else if op.LBr? || op.LCondBr? {
      RunBranchFirst(m, h, op, ops[1..], e, mem, f);
      RunBranchFirst(m', h, op, ops[1..], e', mem, f);
      if op.LBr? {
        BackwardJump(m, w, m', h, op.dest, op.args, e, e', mem, f);
      } else if HasBit(e, op.c) {
        BackwardJump(m, w, m', h, if e[op.c].b then op.ifTrue else op.ifFalse, [], e, e', mem, f);
      }
    } else {
      RunExit(m, h, op, ops[1..], e, mem, f);
      RunExit(m', h, op, ops[1..], e', mem, f);
    }
  }

  lemma {:induction false} BackwardIfOp(m: Module, w: Rewrite, m': Module, h: string, op: Op, rest: seq<Op>, e: Env, e': Env, mem: Mem, f: nat)
    requires Rewritten(m, w, m') && h in m && OpBelow(op, m[h].nextVid, m[h].nextLabel) && OpsBelow(rest, m[h].nextVid, m[h].nextLabel)
    requires op.KIf? && Agree(m[h].nextVid, e, e') && Run(m', h, [op] + rest, e', mem, f) != Halted(OutOfFuel)
    ensures Sim(m[h].nextVid, Run(m, h, [op] + rest, e, mem, f), Run(m', h, [op] + rest, e', mem, f))
    decreases f, 1, [op] + rest, 0
  {
    if HasInt(e, op.c) {
      var branch := if e[op.c].i != 0 then op.thn else op.els;
      assert ([op] + rest)[0] == op && ([op] + rest)[1..] == rest;
      RunIf(m, h, op, rest, e, mem, f);
      RunIf(m', h, op, rest, e', mem, f);
      Backward(m, w, m', h, branch, e, e', mem, f);
      var o, o1 := Run(m, h, branch, e, mem, f), Run(m', h, branch, e', mem, f);
      if o.Fell? { Backward(m, w, m', h, rest, o.env, o1.env, o.mem, f); }
    } else {
      RunIfBad(m, h, op, rest, e, mem, f);
      RunIfBad(m', h, op, rest, e', mem, f);
    }
  }

  lemma {:induction false} BackwardCall(m: Module, w: Rewrite, m': Module, h: string, ops: seq<Op>, e: Env, e': Env, mem: Mem, f: nat)
    requires Rewritten(m, w, m') && h in m && OpsBelow(ops, m[h].nextVid, m[h].nextLabel) && Agree(m[h].nextVid, e, e')
    requires ops != [] && (ops[0].KCall? || ops[0].LCall?) && Run(m', h, ops, e', mem, f) != Halted(OutOfFuel)
    ensures Sim(m[h].nextVid, Run(m, h, ops, e, mem, f), Run(m', h, ops, e', mem, f))
    decreases f, 1, ops, 2
  {
    var op, rest := ops[0], ops[1..];
    HeadBelow(ops, m[h].nextVid, m[h].nextLabel);
    IntsAgree(op.args, m[h].nextVid, e, e');
    if Ints(e, op.args).Some? {
      BackwardGoodCall(m, w, m', h, op, rest, e, e', mem, f);
    } else {
      JoinBadCall(m[h].nextVid, m, m', h, op, rest, e, e', mem, f, f);
    }
  }

  lemma {:induction false} BackwardGoodCall(m: Module, w: Rewrite, m': Module, h: string, op: Op, rest: seq<Op>, e: Env, e': Env, mem: Mem, f: nat)
    requires Rewritten(m, w, m') && h in m && OpsBelow(rest, m[h].nextVid, m[h].nextLabel) && Agree(m[h].nextVid, e, e')
    requires (op.KCall? || op.LCall?) && Ints(e, op.args).Some? && Ints(e', op.args) == Ints(e, op.args)
    requires Run(m', h, [op] + rest, e', mem, f) != Halted(OutOfFuel)
    ensures Sim(m[h].nextVid, Run(m, h, [op] + rest, e, mem, f), Run(m', h, [op] + rest, e', mem, f))
    decreases f, 1, rest, 4
  {
    var vs := Ints(e, op.args).value;
    CallFuel(m', h, op, rest, e', mem, f);
    BackwardFunction(m, w, m', op.callee, vs, f - 1);
    var v := RunFunction(m, op.callee, vs, f - 1);
    if v.Val? { Backward(m, w, m', h, rest, e[op.r := Int(v.v)], e'[op.r := Int(v.v)], mem, f); }
    JoinCall(m[h].nextVid, m, m', h, op, rest, e, e', mem, f, f);
  }

  lemma {:induction false} BackwardLoop(m: Module, w: Rewrite, m': Module, h: string, p: Vid, body: seq<Op>, e: Env, e': Env, mem: Mem, f: nat)
    requires Rewritten(m, w, m') && h in m && p < m[h].nextVid && OpsBelow(body, m[h].nextVid, m[h].nextLabel) && Agree(m[h].nextVid, e, e')
    requires Loop(m', h, p, body, e', mem, f) != Halted(OutOfFuel)
    ensures Sim(m[h].nextVid, Loop(m, h, p, body, e, mem, f), Loop(m', h, p, body, e', mem, f))
    decreases f, 0
  {
    var c := Load(e, mem, p);
    assert c == Load(e', mem, p);
    if c.Some? && c.value != 0 {
      Backward(m, w, m', h, body, e, e', mem, f - 1);
      var o, o1 := Run(m, h, body, e, mem, f - 1), Run(m', h, body, e', mem, f - 1);
      if o.Fell? { BackwardLoop(m, w, m', h, p, body, o.env, o1.env, o.mem, f - 1); }
    }
  }

  lemma {:induction false} BackwardJump(m: Module, w: Rewrite, m': Module, h: string, dest: Label, args: seq<Vid>, e: Env, e': Env, mem: Mem, f: nat)
    requires Rewritten(m, w, m') && h in m && dest < m[h].nextLabel && AllBelow(args, m[h].nextVid) && Agree(m[h].nextVid, e, e')
    requires Jump(m', h, dest, args, e', mem, f) != Halted(OutOfFuel)
    ensures Sim(m[h].nextVid, Jump(m, h, dest, args, e, mem, f), Jump(m', h, dest, args, e', mem, f))
    decreases f, 0
  {
    IntsAgree(args, m[h].nextVid, e, e');
    RewrittenParts(m, w, m');
    assert FuncOk(m[h]);
    var vs := Ints(e, args);
    if vs.Some? && |m[h].blocks[dest].params| == |args| {
      var params := m[h].blocks[dest].params;
      BindAgree(m[h].nextVid, e, e', params, vs.value);
      BackwardBlock(m, w, m', h, dest, Bind(e, params, vs.value), Bind(e', params, vs.value), mem, f - 1);
      JoinJump(m[h].nextVid, m, m', h, dest, args, e, e', mem, f, f);
    } else {
      JoinBadJump(m[h].nextVid, m, m', h, dest, args, e, e', mem, f, f);
    }
  }

  lemma {:induction false} BackwardBlock(m: Module, w: Rewrite, m': Module, h: string, b: Label, e: Env, e': Env, mem: Mem, f: nat)
    requires Rewritten(m, w, m') && h in m && b in m[h].blocks && Agree(m[h].nextVid, e, e')
    requires h in m' && b in m'[h].blocks && Run(m', h, m'[h].blocks[b].ops, e', mem, f) != Halted(OutOfFuel)
    ensures Sim(m[h].nextVid, Run(m, h, m[h].blocks[b].ops, e, mem, f), Run(m', h, m'[h].blocks[b].ops, e', mem, f))
    decreases f, 3
  {
    RewrittenParts(m, w, m');
    assert FuncOk(m[h]);
    if w.AtOp? && h == w.g && b == w.b {
      BackwardSite(m, w, m', e, e', mem, f);
    } else {
      Backward(m, w, m', h, m[h].blocks[b].ops, e, e', mem, f);
    }
  }

  lemma {:induction false} BackwardFunction(m: Module, w: Rewrite, m': Module, h: string, args: seq<I64>, f: nat)
    requires Rewritten(m, w, m') && RunFunction(m', h, args, f) != NoVal(OutOfFuel)
    ensures RunFunction(m', h, args, f) == RunFunction(m, h, args, f)
    decreases f, 5
  {
    RewrittenParts(m, w, m');
    if h !in m || |m[h].blocks[m[h].entry].params| != |args| {
      assert h in m ==> FuncOk(m[h]);
      BadEntry(m, w, m', h, args, f, f);
    } else if w.AtEntry? && h == w.g {
      BackwardNewEntry(m, w, m', args, f);
    } else {
      BackwardOldEntry(m, w, m', h, args, f);
    }
  }

  /** The function whose entry block is new. */
  lemma {:induction false} BackwardNewEntry(m: Module, w: Rewrite, m': Module, args: seq<I64>, f: nat)
    requires Rewritten(m, w, m') && w.AtEntry? && RunFunction(m', w.g, args, f) != NoVal(OutOfFuel)
    requires w.g in m && m[w.g].entry in m[w.g].blocks && |m[w.g].blocks[m[w.g].entry].params| == |args|
    ensures RunFunction(m', w.g, args, f) == RunFunction(m, w.g, args, f)
    decreases f, 4
  {
    RewrittenParts(m, w, m');
    assert FuncOk(m[w.g]);
    var entry := m[w.g].blocks[m[w.g].entry];
    var e := Bind(map[], entry.params, args);
    RunEntry(m, w.g, args, f);
    EntryAgrees(m[w.g], args);
    RunNewEntry(m, w, m', args, f);
    BackwardBlock(m, w, m', w.g, m[w.g].entry, e, EntryEnv(m[w.g], args), [], f - 1);
    SimValue(m[w.g].nextVid, Run(m, w.g, entry.ops, e, [], f - 1), Run(m', w.g, entry.ops, EntryEnv(m[w.g], args), [], f - 1));
    RunMono(m, w.g, entry.ops, e, [], f - 1, f);
  }

  /** A function that is entered as before. */
  lemma {:induction false} BackwardOldEntry(m: Module, w: Rewrite, m': Module, h: string, args: seq<I64>, f: nat)
    requires Rewritten(m, w, m') && !(w.AtEntry? && h == w.g) && RunFunction(m', h, args, f) != NoVal(OutOfFuel)
    requires h in m && m[h].entry in m[h].blocks && |m[h].blocks[m[h].entry].params| == |args|
    ensures RunFunction(m', h, args, f) == RunFunction(m, h, args, f)
    decreases f, 4
  {
    RewrittenParts(m, w, m');
    assert FuncOk(m[h]);
    var entry := m[h].blocks[m[h].entry];
    var e := Bind(map[], entry.params, args);
    RunEntry(m, h, args, f);
    RunEntry(m', h, args, f);
    BackwardBlock(m, w, m', h, m[h].entry, e, e, [], f);
    SimValue(m[h].nextVid, Run(m, h, entry.ops, e, [], f), Run(m', h, m'[h].blocks[m[h].entry].ops, e, [], f));
  }

  lemma {:induction false} BackwardSite(m: Module, w: Rewrite, m': Module, e: Env, e': Env, mem: Mem, f: nat)
    requires RewrittenOp(m, w, m') && Agree(m[w.g].nextVid, e, e') && w.b in m'[w.g].blocks
    requires Run(m', w.g, m'[w.g].blocks[w.b].ops, e', mem, f) != Halted(OutOfFuel)
    ensures Sim(m[w.g].nextVid, Run(m, w.g, m[w.g].blocks[w.b].ops, e, mem, f), Run(m', w.g, m'[w.g].blocks[w.b].ops, e', mem, f))
    decreases f, 2
  {
    ReplacementPlaced(m, w, m');
    var fn := m[w.g];
    var pre, tail, new_ := Pre(fn, w.b, w.i), [fn.blocks[w.b].ops[w.i]] + Post(fn, w.b, w.i), Replacement(m, w);
    SiteSplit(fn, w.b, w.i);
    HalvesFuel(m', w.g, pre, new_, e', mem, f);
    Backward(m, w, m', w.g, pre, e, e', mem, f);
    var o, o1 := Run(m, w.g, pre, e, mem, f), Run(m', w.g, pre, e', mem, f);
    if o.Fell? { BackwardOp(m, w, m', o.env, o1.env, o.mem, f); }
    JoinHalves(fn.nextVid, m, m', w.g, pre, tail, new_, e, e', mem, f, f);
  }

  lemma {:induction false} BackwardOp(m: Module, w: Rewrite, m': Module, e: Env, e': Env, mem: Mem, f: nat)
    requires RewrittenOp(m, w, m') && Agree(m[w.g].nextVid, e, e')
    requires Run(m', w.g, Replacement(m, w), e', mem, f) != Halted(OutOfFuel)
    ensures Sim(m[w.g].nextVid, Run(m, w.g, [m[w.g].blocks[w.b].ops[w.i]] + Post(m[w.g], w.b, w.i), e, mem, f),
                Run(m', w.g, Replacement(m, w), e', mem, f))
    decreases f, 2, 1
  {
    SiteOk(m, w);
    var op := m[w.g].blocks[w.b].ops[w.i];
    if op.KIf? {
      BackwardIf(m, w, m', e, e', mem, f);
    } else if op.KWhile? {
      BackwardWhile(m, w, m', e, e', mem, f);
    } else {
      BackwardLeaf(m, w, m', e, e', mem, f);
    }
  }

  lemma {:induction false} BackwardLeaf(m: Module, w: Rewrite, m': Module, e: Env, e': Env, mem: Mem, f: nat)
    requires RewrittenOp(m, w, m') && Agree(m[w.g].nextVid, e, e') && IsLeaf(m[w.g].blocks[w.b].ops[w.i])
    requires Run(m', w.g, Replacement(m, w), e', mem, f) != Halted(OutOfFuel)
    ensures Sim(m[w.g].nextVid, Run(m, w.g, [m[w.g].blocks[w.b].ops[w.i]] + Post(m[w.g], w.b, w.i), e, mem, f),
                Run(m', w.g, Replacement(m, w), e', mem, f))
    decreases f, 2, 0
  {
    SiteOk(m, w);
    ReplacementPlaced(m, w, m');
    var fn := m[w.g];
    var op, post, n := fn.blocks[w.b].ops[w.i], Post(fn, w.b, w.i), fn.nextVid;
    if IsSimple(op) {
      RunFirst(m, w.g, op, post, e, mem, f);
      LeafAgree(op, n, e, e', mem);
      LeafStep(m', w.g, op, n, post, e', mem, f);
      var s := Step(op, e, mem);
      if s.Some? { Backward(m, w, m', w.g, post, s.value.0, LeafEnv(op, n, e', mem), s.value.1, f); }
    } else {
      SameControl(m', w.g, op, n, post, e', mem, f);
      assert ([op] + post)[0] == op;
      if op.KCall? {
        BackwardCall(m, w, m', w.g, [op] + post, e, e', mem, f);
      } else {
        BackwardControl(m, w, m', w.g, [op] + post, e, e', mem, f);
      }
    }
  }

  lemma {:induction false} BackwardIf(m: Module, w: Rewrite, m': Module, e: Env, e': Env, mem: Mem, f: nat)
    requires RewrittenOp(m, w, m') && Agree(m[w.g].nextVid, e, e') && m[w.g].blocks[w.b].ops[w.i].KIf?
    requires Run(m', w.g, Replacement(m, w), e', mem, f) != Halted(OutOfFuel)
    ensures Sim(m[w.g].nextVid, Run(m, w.g, [m[w.g].blocks[w.b].ops[w.i]] + Post(m[w.g], w.b, w.i), e, mem, f),
                Run(m', w.g, Replacement(m, w), e', mem, f))
    decreases f, 2, 0
  {
    IfParts(m, w, m');
    var fn := m[w.g];
    var op, post, n, l := fn.blocks[w.b].ops[w.i], Post(fn, w.b, w.i), fn.nextVid, fn.nextLabel;
    if HasInt(e, op.c) {
      IfAgree(op.c, n, e, e');
      RunBranchOnIf(m', w.g, op.c, n, l, e', mem, f);
      BackwardArm(m, w, m', e[op.c].i != 0, e, IfEnv(op.c, n, e'), mem, f);
    }
    JoinIf(m, m', w.g, op, post, n, l, e, e', mem, f, f);
  }

  /** A jump to the block of a closed region that has enough fuel. */
  lemma {:induction false} RegionFuel(m: Module, g: string, region: seq<Op>, post: seq<Op>, b1: Label, b2: Label, e: Env, mem: Mem, f: nat)
    requires g in m && ArmAt(m[g], region, post, b1, b2) && Jump(m, g, b1, [], e, mem, f) != Halted(OutOfFuel)
    ensures f > 0
    ensures var o := Run(m, g, region, e, mem, f - 1);
            && o != Halted(OutOfFuel)
            && (o.Fell? ==> f > 1 && Run(m, g, post, o.env, o.mem, f - 2) != Halted(OutOfFuel))
  {
    JumpFuel(m, g, b1, e, mem, f);
    RegionThen(m, g, region, post, b1, b2, e, mem, f);
  }

  /** `o` is what the region does before the rewrite, and `r` what comes behind it. */
  lemma {:induction false} JoinBackward(n: Vid, m: Module, g: string, region: seq<Op>, post: seq<Op>, b1: Label, b2: Label,
                                        e: Env, mem: Mem, f: nat, o: Outcome, r: Outcome)
    requires g in m && ArmAt(m[g], region, post, b1, b2) && f > 0
    requires var o' := Run(m, g, region, e, mem, f - 1);
             Sim(n, o, o') && (o.Fell? ==> f > 1 && Sim(n, r, Run(m, g, post, o'.env, o'.mem, f - 2)))
    ensures Sim(n, if o.Fell? then r else o, Jump(m, g, b1, [], e, mem, f))
  {
    RegionThen(m, g, region, post, b1, b2, e, mem, f);
  }

  /** A region with a block of its own, and on to the merge block. */
  lemma {:induction false} BackwardBranch(m: Module, w: Rewrite, m': Module, branch: seq<Op>, post: seq<Op>, b1: Label, b2: Label, e: Env, e2: Env, mem: Mem, f: nat)
    requires Rewritten(m, w, m') && w.g in m && w.g in m' && Agree(m[w.g].nextVid, e, e2) && ArmAt(m'[w.g], branch, post, b1, b2)
    requires OpsBelow(branch, m[w.g].nextVid, m[w.g].nextLabel) && OpsBelow(post, m[w.g].nextVid, m[w.g].nextLabel)
    requires Jump(m', w.g, b1, [], e2, mem, f) != Halted(OutOfFuel)
    ensures var o := Run(m, w.g, branch, e, mem, f);
            Sim(m[w.g].nextVid, if o.Fell? then Run(m, w.g, post, o.env, o.mem, f) else o, Jump(m', w.g, b1, [], e2, mem, f))
    decreases f, 2, 0, 0
  {
    RegionFuel(m', w.g, branch, post, b1, b2, e2, mem, f);
    Backward(m, w, m', w.g, branch, e, e2, mem, f - 1);
    RunMono(m, w.g, branch, e, mem, f - 1, f);
    var o, o2 := Run(m, w.g, branch, e, mem, f), Run(m', w.g, branch, e2, mem, f - 1);
    if o.Fell? {
      Backward(m, w, m', w.g, post, o.env, o2.env, o.mem, f - 2);
      RunMono(m, w.g, post, o.env, o.mem, f - 2, f);
    }
    JoinBackward(m[w.g].nextVid, m', w.g, branch, post, b1, b2, e2, mem, f, o, if o.Fell? then Run(m, w.g, post, o.env, o.mem, f) else o);
  }

  lemma {:induction false} BackwardArm(m: Module, w: Rewrite, m': Module, then_: bool, e: Env, e2: Env, mem: Mem, f: nat)
    requires RewrittenOp(m, w, m') && Agree(m[w.g].nextVid, e, e2) && m[w.g].blocks[w.b].ops[w.i].KIf?
    requires Jump(m', w.g, if then_ then m[w.g].nextLabel else m[w.g].nextLabel + 1, [], e2, mem, f) != Halted(OutOfFuel)
    ensures var fn := m[w.g]; var op := fn.blocks[w.b].ops[w.i];
            var o := Run(m, w.g, if then_ then op.thn else op.els, e, mem, f);
            Sim(fn.nextVid, if o.Fell? then Run(m, w.g, Post(fn, w.b, w.i), o.env, o.mem, f) else o,
                Jump(m', w.g, if then_ then fn.nextLabel else fn.nextLabel + 1, [], e2, mem, f))
    decreases f, 2, 0, 1
  {
    IfParts(m, w, m');
    ReplacementPlaced(m, w, m');
    var op, post, l := m[w.g].blocks[w.b].ops[w.i], Post(m[w.g], w.b, w.i), m[w.g].nextLabel;
    if then_ {
      BackwardBranch(m, w, m', op.thn, post, l, l + 2, e, e2, mem, f);
    } else {
      BackwardBranch(m, w, m', op.els, post, l + 1, l + 2, e, e2, mem, f);
    }
  }

  lemma {:induction false} BackwardHeader(m: Module, w: Rewrite, m': Module, e: Env, e': Env, mem: Mem, f: nat)
    requires RewrittenOp(m, w, m') && Agree(m[w.g].nextVid, e, e') && m[w.g].blocks[w.b].ops[w.i].KWhile?
    requires Run(m', w.g, Header(m[w.g].blocks[w.b].ops[w.i].p, m[w.g].nextVid, m[w.g].nextLabel), e', mem, f) != Halted(OutOfFuel)
    ensures var fn := m[w.g]; var op := fn.blocks[w.b].ops[w.i];
            Sim(fn.nextVid, LoopThen(m, w.g, op.p, op.body, Post(fn, w.b, w.i), e, mem, f, f),
                Run(m', w.g, Header(op.p, fn.nextVid, fn.nextLabel), e', mem, f))
    decreases f, 0, 2
  {
    WhileParts(m, w, m');
    var fn := m[w.g];
    var op, n, l := fn.blocks[w.b].ops[w.i], fn.nextVid, fn.nextLabel;
    HeaderFuel(m', w.g, op.p, n, l, e, e', mem, f);
    var c := Load(e, mem, op.p);
    if c.Some? {
      HeaderAgree(n, e, e', c.value);
      BackwardEntered(m, w, m', c.value, e, HeaderEnv(n, c.value, e'), mem, f);
    }
    JoinHeader(m, m', w.g, op.p, op.body, Post(fn, w.b, w.i), n, l, e, e', mem, f, f, f);
  }

  /** A loop whose condition has been read, and the block that the header goes to. */
  lemma {:induction false} BackwardEntered(m: Module, w: Rewrite, m': Module, c: I64, e: Env, e2: Env, mem: Mem, f: nat)
    requires RewrittenOp(m, w, m') && Agree(m[w.g].nextVid, e, e2) && m[w.g].blocks[w.b].ops[w.i].KWhile?
    requires Load(e, mem, m[w.g].blocks[w.b].ops[w.i].p) == Some(c)
    requires Jump(m', w.g, if c != 0 then m[w.g].nextLabel else m[w.g].nextLabel + 1, [], e2, mem, f) != Halted(OutOfFuel)
    ensures var fn := m[w.g]; var op := fn.blocks[w.b].ops[w.i];
            Sim(fn.nextVid, LoopThen(m, w.g, op.p, op.body, Post(fn, w.b, w.i), e, mem, f, f),
                Jump(m', w.g, if c != 0 then fn.nextLabel else fn.nextLabel + 1, [], e2, mem, f))
    decreases f, 0, 1
  {
    var fn := m[w.g];
    var op := fn.blocks[w.b].ops[w.i];
    LoopThenStep(m, w.g, op.p, op.body, Post(fn, w.b, w.i), e, mem, f, f);
    if c == 0 {
      BackwardExit(m, w, m', e, e2, mem, f);
    } else {
      BackwardIteration(m, w, m', e, e2, mem, f);
    }
  }

  lemma {:induction false} BackwardExit(m: Module, w: Rewrite, m': Module, e: Env, e2: Env, mem: Mem, f: nat)
    requires RewrittenOp(m, w, m') && Agree(m[w.g].nextVid, e, e2) && m[w.g].blocks[w.b].ops[w.i].KWhile?
    requires Jump(m', w.g, m[w.g].nextLabel + 1, [], e2, mem, f) != Halted(OutOfFuel)
    ensures Sim(m[w.g].nextVid, Run(m, w.g, Post(m[w.g], w.b, w.i), e, mem, f), Jump(m', w.g, m[w.g].nextLabel + 1, [], e2, mem, f))
    decreases f, 0, 0
  {
    WhileParts(m, w, m');
    ReplacementPlaced(m, w, m');
    var post := Post(m[w.g], w.b, w.i);
    JumpTo(m', w.g, m[w.g].nextLabel + 1, e2, mem, f);
    Backward(m, w, m', w.g, post, e, e2, mem, f - 1);
    RunMono(m, w.g, post, e, mem, f - 1, f);
  }

  lemma {:induction false} BackwardIteration(m: Module, w: Rewrite, m': Module, e: Env, e2: Env, mem: Mem, f: nat)
    requires RewrittenOp(m, w, m') && Agree(m[w.g].nextVid, e, e2) && m[w.g].blocks[w.b].ops[w.i].KWhile?
    requires Jump(m', w.g, m[w.g].nextLabel, [], e2, mem, f) != Halted(OutOfFuel)
    ensures f > 0
    ensures var fn := m[w.g]; var op := fn.blocks[w.b].ops[w.i];
            var o := Run(m, w.g, op.body, e, mem, f - 1);
            Sim(fn.nextVid, if o.Fell? then LoopThen(m, w.g, op.p, op.body, Post(fn, w.b, w.i), o.env, o.mem, f - 1, f) else o,
                Jump(m', w.g, fn.nextLabel, [], e2, mem, f))
    decreases f, 0, 0
  {
    WhileParts(m, w, m');
    var fn := m[w.g];
    var op, post, l := fn.blocks[w.b].ops[w.i], Post(fn, w.b, w.i), fn.nextLabel;
    var header := Header(op.p, fn.nextVid, l);
    RegionFuel(m', w.g, op.body, header, l, l + 2, e2, mem, f);
    Backward(m, w, m', w.g, op.body, e, e2, mem, f - 1);
    var o, o2 := Run(m, w.g, op.body, e, mem, f - 1), Run(m', w.g, op.body, e2, mem, f - 1);
    if o.Fell? {
      BackwardHeader(m, w, m', o.env, o2.env, o.mem, f - 2);
      LoopThenMono(m, w.g, op.p, op.body, post, o.env, o.mem, f - 2, f - 1, f);
    }
    JoinBackward(fn.nextVid, m', w.g, op.body, header, l, l + 2, e2, mem, f, o,
                 if o.Fell? then LoopThen(m, w.g, op.p, op.body, post, o.env, o.mem, f - 1, f) else o);
  }

  lemma LoopThenMono(m: Module, h: string, p: Vid, body: seq<Op>, rest: seq<Op>, e: Env, mem: Mem, f: nat, k: nat, g: nat)
    requires f <= k && f <= g && LoopThen(m, h, p, body, rest, e, mem, f, f) != Halted(OutOfFuel)
    ensures LoopThen(m, h, p, body, rest, e, mem, k, g) == LoopThen(m, h, p, body, rest, e, mem, f, f)
  {
    LoopMono(m, h, p, body, e, mem, f, k);
    var o := Loop(m, h, p, body, e, mem, f);
    if o.Fell? { RunMono(m, h, rest, o.env, o.mem, f, g); }
  }

  lemma {:induction false} BackwardWhile(m: Module, w: Rewrite, m': Module, e: Env, e': Env, mem: Mem, f: nat)
    requires RewrittenOp(m, w, m') && Agree(m[w.g].nextVid, e, e') && m[w.g].blocks[w.b].ops[w.i].KWhile?
    requires Run(m', w.g, Replacement(m, w), e', mem, f) != Halted(OutOfFuel)
    ensures Sim(m[w.g].nextVid, Run(m, w.g, [m[w.g].blocks[w.b].ops[w.i]] + Post(m[w.g], w.b, w.i), e, mem, f),
                Run(m', w.g, Replacement(m, w), e', mem, f))
    decreases f, 2, 0
  {
    WhileParts(m, w, m');
    var fn := m[w.g];
    var op, post := fn.blocks[w.b].ops[w.i], Post(fn, w.b, w.i);
    RunWhile(m, w.g, op, post, e, mem, f);
    RunBranch(m', w.g, fn.nextLabel + 2, [], e', mem, f);
    JumpTo(m', w.g, fn.nextLabel + 2, e', mem, f);
    BackwardHeader(m, w, m', e, e', mem, f - 1);
    LoopThenMono(m, w.g, op.p, op.body, post, e, mem, f - 1, f, f);
  }

  // ----- rewriting keeps bodies well-formed -----

  lemma {:induction false} BelowMono(ops: seq<Op>, n: Vid, l: Label, n': Vid, l': Label)
    requires OpsBelow(ops, n, l) && n <= n' && l <= l'
    ensures OpsBelow(ops, n', l')
    decreases ops, 1
  {
    forall i | 0 <= i < |ops| ensures OpBelow(ops[i], n', l') { OpBelowMono(ops[i], n, l, n', l'); }
  }

  lemma {:induction false} OpBelowMono(op: Op, n: Vid, l: Label, n': Vid, l': Label)
    requires OpBelow(op, n, l) && n <= n' && l <= l'
    ensures OpBelow(op, n', l')
    decreases op
  {
    match op
    case KIf(_, thn, els) => BelowMono(thn, n, l, n', l'); BelowMono(els, n, l, n', l');
    case KWhile(_, body) => BelowMono(body, n, l, n', l');
    case _ =>
  }

  lemma BlockFineMono(block: Block, n: Vid, l: Label, n': Vid, l': Label)
    requires BlockFine(block, n, l) && n <= n' && l <= l'
    ensures BlockFine(block, n', l')
  {
    BelowMono(block.ops, n, l, n', l');
  }

  /** A region closed with a branch is a block. */
  lemma {:induction false} CloseFine(region: seq<Op>, dest: Label, n: Vid, l: Label)
    requires RegionOk(region) && OpsBelow(region, n, l) && dest < l
    ensures BlockFine(Block([], Close(region, dest)), n, l)
  {
    var k := |region| - 1;
    var ops := Close(region, dest);
    assert forall i :: 0 <= i < k ==> ops[i] == region[i];
  }

  lemma LeafFine(fn: Func, b: Label, i: nat)
    requires FuncOk(fn) && Site(fn, b, i) && IsLeaf(fn.blocks[b].ops[i])
    ensures FuncOk(RewriteLeaf(fn, b, i))
  {
    var n, l, fn' := fn.nextVid, fn.nextLabel, RewriteLeaf(fn, b, i);
    LeafBlockFine(fn.blocks[b], i, n, l);
    forall x | x in fn'.blocks ensures BlockFine(fn'.blocks[x], n + 1, l) {
      if x != b { BlockFineMono(fn.blocks[x], n, l, n + 1, l); }
    }
  }

  lemma LeafBlockFine(block: Block, i: nat, n: Vid, l: Label)
    requires BlockFine(block, n, l) && i < |block.ops| && IsLeaf(block.ops[i])
    ensures BlockFine(block.(ops := block.ops[..i] + LeafOps(block.ops[i], n) + block.ops[i + 1..]), n + 1, l)
  {
    var ops := block.ops;
    BelowMono(ops, n, l, n + 1, l);
    assert ops == ops[..i] + [ops[i]] + ops[i + 1..];
    LeafBlockOk(ops[..i], ops[i], n, l, ops[i + 1..]);
  }

  lemma {:induction false} LeafBlockOk(pre: seq<Op>, op: Op, n: Vid, l: Label, post: seq<Op>)
    requires IsLeaf(op) && BlockOk(pre + [op] + post) && OpBelow(op, n, l)
    ensures BlockOk(pre + LeafOps(op, n) + post)
    ensures OpsBelow(LeafOps(op, n), n + 1, l)
  {
    var ops, ls := pre + [op] + post, LeafOps(op, n);
    var ops' := pre + ls + post;
    assert forall i :: 0 <= i < |pre| ==> ops'[i] == ops[i];
    assert forall i :: |pre| <= i < |pre| + |ls| ==> ops'[i] == ls[i - |pre|];
    assert forall i :: |pre| + |ls| <= i < |ops'| ==> ops'[i] == ops[i - |ls| + 1];
    if post == [] { assert ops[|ops| - 1] == op && ops'[|ops'| - 1] == ls[|ls| - 1]; }
  }

  /** The two halves of a block split before an op that is not its terminator. */
  lemma SplitFine(ops: seq<Op>, i: nat, tail: seq<Op>)
    requires BlockOk(ops) && i < |ops| && !IsTerminator(ops[i])
    requires tail != [] && (tail[|tail| - 1].LBr? || tail[|tail| - 1].LCondBr?)
    requires forall k :: 0 <= k < |tail| - 1 ==> IsLlvmSimple(tail[k])
    ensures BlockOk(ops[..i] + tail) && BlockOk(ops[i + 1..])
  {
    var ops' := ops[..i] + tail;
    assert ops'[|ops'| - 1] == tail[|tail| - 1];
    assert i < |ops| - 1;
    assert ops[i + 1..][|ops| - i - 2] == ops[|ops| - 1];
  }

  /** The block before the split, and the block after it. */
  lemma {:induction false} HalvesFine(block: Block, i: nat, tail: seq<Op>, n: Vid, l: Label, n': Vid, l': Label)
    requires BlockFine(block, n, l) && i < |block.ops| && !IsTerminator(block.ops[i]) && n <= n' && l <= l'
    requires tail != [] && (tail[|tail| - 1].LBr? || tail[|tail| - 1].LCondBr?) && OpsBelow(tail, n', l')
    requires forall k :: 0 <= k < |tail| - 1 ==> IsLlvmSimple(tail[k])
    ensures BlockFine(block.(ops := block.ops[..i] + tail), n', l') && BlockFine(Block([], block.ops[i + 1..]), n', l')
  {
    SplitFine(block.ops, i, tail);
    BelowMono(block.ops, n, l, n', l');
  }

  /** Putting a body together: a changed block and three new ones. */
  lemma FourFine(fn: Func, fn': Func, b: Label, ops: seq<Op>, x: Block, y: Block, z: Block)
    requires FuncOk(fn) && b in fn.blocks && fn'.entry == fn.entry && fn.nextVid <= fn'.nextVid && fn'.nextLabel == fn.nextLabel + 3
    requires var l := fn.nextLabel; fn'.blocks == fn.blocks[b := fn.blocks[b].(ops := ops)][l := x][l + 1 := y][l + 2 := z]
    requires BlockFine(fn.blocks[b].(ops := ops), fn'.nextVid, fn'.nextLabel) && BlockFine(x, fn'.nextVid, fn'.nextLabel)
    requires BlockFine(y, fn'.nextVid, fn'.nextLabel) && BlockFine(z, fn'.nextVid, fn'.nextLabel)
    ensures FuncOk(fn')
  {
    var l := fn.nextLabel;
    FourKept(fn, fn', b, ops, x, y, z);
    AssembleLabels(fn, fn', l);
    forall k: Label | k in fn'.blocks ensures BlockFine(fn'.blocks[k], fn'.nextVid, fn'.nextLabel) {
      if k in fn.blocks && k != b { OldBlockFine(fn, fn', b, k); } else { assert k == b || k == l || k == l + 1 || k == l + 2; }
    }
  }

  /** A block that did not change. */
  lemma OldBlockFine(fn: Func, fn': Func, b: Label, x: Label)
    requires FuncOk(fn) && fn.nextVid <= fn'.nextVid && fn.nextLabel <= fn'.nextLabel && KeepsBlocks(fn, fn', Some(b)) && x in fn.blocks && x != b
    ensures x in fn'.blocks && BlockFine(fn'.blocks[x], fn'.nextVid, fn'.nextLabel)
  {
    assert BlockFine(fn.blocks[x], fn.nextVid, fn.nextLabel) && fn'.blocks[x] == fn.blocks[x];
    BlockFineMono(fn.blocks[x], fn.nextVid, fn.nextLabel, fn'.nextVid, fn'.nextLabel);
  }

  lemma AssembleLabels(fn: Func, fn': Func, l: Label)
    requires (forall x: Label :: x in fn.blocks <==> x < l) && fn'.blocks.Keys == fn.blocks.Keys + {l, l + 1, l + 2}
    ensures forall x: Label :: x in fn'.blocks <==> x < l + 3
  {
  }

  /** The blocks that a block with an `if` becomes. */
  lemma IfBlocksFine(block: Block, i: nat, n: Vid, l: Label)
    requires BlockFine(block, n, l) && i < |block.ops| && block.ops[i].KIf? && RegionOk(block.ops[i].thn) && RegionOk(block.ops[i].els)
    ensures var op := block.ops[i];
            && BlockFine(block.(ops := block.ops[..i] + BranchOnIf(op.c, n, l)), n + 2, l + 3) && BlockFine(Block([], block.ops[i + 1..]), n + 2, l + 3)
            && BlockFine(Block([], Close(op.thn, l + 2)), n + 2, l + 3) && BlockFine(Block([], Close(op.els, l + 2)), n + 2, l + 3)
  {
    var op := block.ops[i];
    assert OpBelow(op, n, l);
    assert OpsBelow(BranchOnIf(op.c, n, l), n + 2, l + 3);
    HalvesFine(block, i, BranchOnIf(op.c, n, l), n, l, n + 2, l + 3);
    RegionFine(op.thn, l + 2, n, l, n + 2, l + 3);
    RegionFine(op.els, l + 2, n, l, n + 2, l + 3);
  }

  lemma IfFine(fn: Func, b: Label, i: nat)
    requires FuncOk(fn) && Site(fn, b, i) && fn.blocks[b].ops[i].KIf? && RegionOk(fn.blocks[b].ops[i].thn) && RegionOk(fn.blocks[b].ops[i].els)
    ensures FuncOk(RewriteIf(fn, b, i))
  {
    var op, n, l, fn' := fn.blocks[b].ops[i], fn.nextVid, fn.nextLabel, RewriteIf(fn, b, i);
    assert BlockFine(fn.blocks[b], n, l);
    IfBlocksFine(fn.blocks[b], i, n, l);
    FourFine(fn, fn', b, Pre(fn, b, i) + BranchOnIf(op.c, n, l), Block([], Close(op.thn, l + 2)), Block([], Close(op.els, l + 2)),
             Block([], Post(fn, b, i)));
  }

  lemma {:induction false} RegionFine(region: seq<Op>, dest: Label, n: Vid, l: Label, n': Vid, l': Label)
    requires RegionOk(region) && OpsBelow(region, n, l) && n <= n' && l <= l' && dest < l'
    ensures BlockFine(Block([], Close(region, dest)), n', l')
  {
    BelowMono(region, n, l, n', l');
    CloseFine(region, dest, n', l');
  }

  lemma HeaderFine(p: Vid, n: Vid, l: Label)
    requires p < n
    ensures BlockFine(Block([], Header(p, n, l)), n + 3, l + 3)
  {
  }

  /** The blocks that a block with a `while` becomes. */
  lemma WhileBlocksFine(block: Block, i: nat, n: Vid, l: Label)
    requires BlockFine(block, n, l) && i < |block.ops| && block.ops[i].KWhile? && RegionOk(block.ops[i].body)
    ensures var op := block.ops[i];
            && BlockFine(block.(ops := block.ops[..i] + [LBr(l + 2, [])]), n + 3, l + 3) && BlockFine(Block([], block.ops[i + 1..]), n + 3, l + 3)
            && BlockFine(Block([], Close(op.body, l + 2)), n + 3, l + 3) && BlockFine(Block([], Header(op.p, n, l)), n + 3, l + 3)
  {
    var op := block.ops[i];
    assert OpBelow(op, n, l);
    HalvesFine(block, i, [LBr(l + 2, [])], n, l, n + 3, l + 3);
    RegionFine(op.body, l + 2, n, l, n + 3, l + 3);
    HeaderFine(op.p, n, l);
  }

  lemma WhileFine(fn: Func, b: Label, i: nat)
    requires FuncOk(fn) && Site(fn, b, i) && fn.blocks[b].ops[i].KWhile? && RegionOk(fn.blocks[b].ops[i].body)
    ensures FuncOk(RewriteWhile(fn, b, i))
  {
    var op, n, l, fn' := fn.blocks[b].ops[i], fn.nextVid, fn.nextLabel, RewriteWhile(fn, b, i);
    assert BlockFine(fn.blocks[b], n, l);
    WhileBlocksFine(fn.blocks[b], i, n, l);
    FourFine(fn, fn', b, Pre(fn, b, i) + [LBr(l + 2, [])], Block([], Close(op.body, l + 2)), Block([], Post(fn, b, i)), Block([], Header(op.p, n, l)));
  }

  lemma NewEntryFine(params: seq<Vid>, entry: Label, n: Vid, l: Label)
    requires entry < l && forall i :: 0 <= i < |params| ==> params[i] == n + i
    ensures BlockFine(Block(params, [LBr(entry, params)]), n + |params|, l + 1)
  {
  }

  lemma NewBlockFine(fn: Func, block: Block, n: Vid)
    requires FuncOk(fn) && fn.nextVid <= n && BlockFine(block, n, fn.nextLabel + 1)
    ensures var blocks := fn.blocks[fn.nextLabel := block];
            && (forall l: Label :: l in blocks <==> l < fn.nextLabel + 1)
            && (forall l: Label :: l in blocks ==> BlockFine(blocks[l], n, fn.nextLabel + 1))
  {
    forall l | l in fn.blocks ensures BlockFine(fn.blocks[l], n, fn.nextLabel + 1) {
      BlockFineMono(fn.blocks[l], fn.nextVid, fn.nextLabel, n, fn.nextLabel + 1);
    }
  }

  lemma EntryFine(fn: Func)
    requires FuncOk(fn)
    ensures FuncOk(RewriteEntry(fn))
  {
    var fn' := RewriteEntry(fn);
    NewEntryFine(fn'.blocks[fn.nextLabel].params, fn.entry, fn.nextVid, fn.nextLabel);
    NewBlockFine(fn, fn'.blocks[fn.nextLabel], fn'.nextVid);
  }

  /** Every rewrite leaves a module that the next rewrite applies to. */
  lemma RewriteKeepsOk(m: Module, w: Rewrite, m': Module)
    requires Rewritten(m, w, m')
    ensures ModuleOk(m')
  {
    var fn := m[w.g];
    assert FuncOk(fn);
    if w.AtEntry? {
      EntryFine(fn);
    } else {
      SiteOk(m, w);
      var op := fn.blocks[w.b].ops[w.i];
      if op.KIf? {
        IfFine(fn, w.b, w.i);
      } else if op.KWhile? {
        WhileFine(fn, w.b, w.i);
      } else {
        LeafFine(fn, w.b, w.i);
      }
    }
  }

  // ----- the theorem -----

  /** A rewrite at any site of any function keeps what every call gives. */
  lemma RewritePreserves(m: Module, w: Rewrite, m': Module)
    requires Rewritten(m, w, m')
    ensures SameMeaning(m, m')
  {
    forall h, args, r ensures Gives(m, h, args, r) <==> Gives(m', h, args, r) {
      if Gives(m, h, args, r) {
        var f: nat :| RunFunction(m, h, args, f) == r;
        var f' := ForwardFunction(m, w, m', h, args, f);
      }
      if Gives(m', h, args, r) {
        var f: nat :| RunFunction(m', h, args, f) == r;
        BackwardFunction(m, w, m', h, args, f);
      }
    }
  }
}

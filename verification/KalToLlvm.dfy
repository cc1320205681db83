/** Conversion of structured IR to a control-flow graph of LLVM-dialect ops.

    Each function here is one rewrite of the dialect conversion, as a function from the body before to
    the body after; class `Converter` performs the rewrites step by step on mutable blocks, and its driver
    visits the ops in pre-order, outermost first. Values keep their ids when their defining op is replaced. */
module KalToLlvm {
  import opened Options
  import opened KalArith
  import opened KalIR

  function PredOf(kind: BinOpKind): ICmpPred
    requires !(kind.Add? || kind.Sub? || kind.Mul?)
  {
    match kind
    case Lt => SLT
    case Gt => SGT
    case Le => SLE
    case Ge => SGE
    case Eq => EQ
    case Ne => NE
  }

  predicate IsLeaf(op: Op) {
    op.KConst? || op.KDecl? || op.KLoad? || op.KStore? || op.KBin? || op.KCall? || op.KRet?
  }

  /** What an op without regions is replaced with; `t` is the id for a temporary value. */
  function LeafOps(op: Op, t: Vid): (r: seq<Op>)
    requires IsLeaf(op)
    ensures 1 <= |r| <= 2 && forall i :: 0 <= i < |r| ==> IsLlvm(r[i])
  {
    match op
    case KConst(r, n) => [LConst(r, n)]
    case KDecl(r) => [LConst(t, 1), LAlloca(r, t)]
    case KLoad(r, slot) => [LLoad(r, slot)]
    case KStore(slot, v) => [LStore(v, slot)]
    case KBin(r, kind, a, b) =>
      if kind.Add? then [LArith(r, LAdd, a, b)]
      else if kind.Sub? then [LArith(r, LSub, a, b)]
      else if kind.Mul? then [LArith(r, LMul, a, b)]
      else [LICmp(t, PredOf(kind), a, b), LSExt(r, t)]
    case KCall(r, callee, args) => [LCall(r, callee, args)]
    case KRet(v) => [LRet(v)]
  }

  predicate IsLlvm(op: Op) {
    IsLlvmSimple(op) || op.LCall? || op.LRet? || op.LBr? || op.LCondBr?
  }

  predicate IsLlvmSimple(op: Op) {
    op.LConst? || op.LAlloca? || op.LLoad? || op.LStore? || op.LArith? || op.LICmp? || op.LSExt?
  }

  /** A region's block once inlined: a closing yield becomes a branch to `dest`. */
  function Close(region: seq<Op>, dest: Label): seq<Op>
    requires region != []
  {
    var last := |region| - 1;
    if region[last].KYield? then region[..last] + [LBr(dest, [])] else region
  }

  /** Inserts blocks after block `b` in a layout. */
  function InsertAfter(layout: seq<Label>, b: Label, new_: seq<Label>): seq<Label> {
    if layout == [] then []
    else if layout[0] == b then [b] + new_ + layout[1..]
    else [layout[0]] + InsertAfter(layout[1..], b, new_)
  }

  predicate Site(fn: Func, b: Label, i: nat) {
    b in fn.blocks && i < |fn.blocks[b].ops|
  }

  function Pre(fn: Func, b: Label, i: nat): seq<Op>
    requires Site(fn, b, i)
  {
    fn.blocks[b].ops[..i]
  }

  function Post(fn: Func, b: Label, i: nat): seq<Op>
    requires Site(fn, b, i)
  {
    fn.blocks[b].ops[i + 1..]
  }

  /** An op without regions is replaced where it stands. */
  function RewriteLeaf(fn: Func, b: Label, i: nat): Func
    requires Site(fn, b, i) && IsLeaf(fn.blocks[b].ops[i])
  {
    var ops := Pre(fn, b, i) + LeafOps(fn.blocks[b].ops[i], fn.nextVid) + Post(fn, b, i);
    fn.(blocks := fn.blocks[b := fn.blocks[b].(ops := ops)], nextVid := fn.nextVid + 1)
  }

  /** The blocks an `if` becomes: the then block, the else block and the merge block. */
  function RewriteIf(fn: Func, b: Label, i: nat): Func
    requires Site(fn, b, i) && fn.blocks[b].ops[i].KIf? && fn.blocks[b].ops[i].thn != [] && fn.blocks[b].ops[i].els != []
  {
    var op, n, l := fn.blocks[b].ops[i], fn.nextVid, fn.nextLabel;
    var ops := Pre(fn, b, i) + BranchOnIf(op.c, n, l);
    Func(fn.entry,
         fn.blocks[b := fn.blocks[b].(ops := ops)][l := Block([], Close(op.thn, l + 2))]
         [l + 1 := Block([], Close(op.els, l + 2))][l + 2 := Block([], Post(fn, b, i))],
         InsertAfter(fn.layout, b, [l, l + 1, l + 2]), l + 3, n + 2)
  }

  function BranchOnIf(c: Vid, n: Vid, l: Label): seq<Op> {
    [LConst(n, 0), LICmp(n + 1, NE, c, n), LCondBr(n + 1, l, l + 1)]
  }

  /** The blocks a `while` becomes: the header, the body and the exit block. */
  function RewriteWhile(fn: Func, b: Label, i: nat): Func
    requires Site(fn, b, i) && fn.blocks[b].ops[i].KWhile? && fn.blocks[b].ops[i].body != []
  {
    var op, n, l := fn.blocks[b].ops[i], fn.nextVid, fn.nextLabel;
    var ops := Pre(fn, b, i) + [LBr(l + 2, [])];
    Func(fn.entry,
         fn.blocks[b := fn.blocks[b].(ops := ops)][l := Block([], Close(op.body, l + 2))]
         [l + 1 := Block([], Post(fn, b, i))][l + 2 := Block([], Header(op.p, n, l))],
         InsertAfter(fn.layout, b, [l + 2, l, l + 1]), l + 3, n + 3)
  }

  function Header(p: Vid, n: Vid, l: Label): seq<Op> {
    [LLoad(n, p), LConst(n + 1, 0), LICmp(n + 2, NE, n, n + 1), LCondBr(n + 2, l, l + 1)]
  }

  /** The function op itself: a new entry block passes the arguments on to the old one. */
  function RewriteEntry(fn: Func): Func
    requires fn.entry in fn.blocks
  {
    var arity, n, l := |fn.blocks[fn.entry].params|, fn.nextVid, fn.nextLabel;
    var params := seq(arity, i requires 0 <= i => n + i);
    Func(l, fn.blocks[l := Block(params, [LBr(fn.entry, params)])], [l] + fn.layout, l + 1, n + arity)
  }

  // ----- well-formed bodies -----

  predicate OpBelow(op: Op, n: Vid, l: Label)
    decreases op
  {
    match op
    case KConst(r, _) => r < n
    case KDecl(r) => r < n
    case KLoad(r, slot) => r < n && slot < n
    case KStore(slot, v) => slot < n && v < n
    case KBin(r, _, a, b) => r < n && a < n && b < n
    case KCall(r, _, args) => r < n && AllBelow(args, n)
    case KRet(v) => v < n
    case KYield => true
    case KIf(c, thn, els) => c < n && OpsBelow(thn, n, l) && OpsBelow(els, n, l)
    case KWhile(p, body) => p < n && OpsBelow(body, n, l)
    case LConst(r, _) => r < n
    case LAlloca(r, count) => r < n && count < n
    case LLoad(r, slot) => r < n && slot < n
    case LStore(v, slot) => slot < n && v < n
    case LArith(r, _, a, b) => r < n && a < n && b < n
    case LICmp(r, _, a, b) => r < n && a < n && b < n
    case LSExt(r, a) => r < n && a < n
    case LCall(r, _, args) => r < n && AllBelow(args, n)
    case LRet(v) => v < n
    case LBr(dest, args) => dest < l && AllBelow(args, n)
    case LCondBr(c, t, e) => c < n && t < l && e < l
  }

  predicate AllBelow(xs: seq<Vid>, n: Vid) {
    forall i :: 0 <= i < |xs| ==> xs[i] < n
  }

  /** Every value id the ops mention is below `n`, every block below `l`. */
  predicate OpsBelow(ops: seq<Op>, n: Vid, l: Label)
    decreases ops
  {
    forall i :: 0 <= i < |ops| ==> OpBelow(ops[i], n, l)
  }

  predicate IsTerminator(op: Op) {
    op.KRet? || op.KYield? || op.LRet? || op.LBr? || op.LCondBr?
  }

  /** A region of a structured op: it ends in a yield or a return, yields nowhere else, and holds
      Kaleidoscope ops only. */
  predicate RegionOk(ops: seq<Op>)
    decreases ops, 1
  {
    && ops != []
    && (ops[|ops| - 1].KYield? || ops[|ops| - 1].KRet?)
    && (forall i :: 0 <= i < |ops| - 1 ==> !ops[i].KYield?)
    && (forall i :: 0 <= i < |ops| ==> (IsLeaf(ops[i]) || ops[i].KYield? || ops[i].KIf? || ops[i].KWhile?) && NestedOk(ops[i]))
  }

  predicate NestedOk(op: Op)
    decreases op
  {
    match op
    case KIf(_, thn, els) => RegionOk(thn) && RegionOk(els)
    case KWhile(_, body) => RegionOk(body)
    case _ => true
  }

  /** A block: it ends in a terminator other than a yield, and branches nowhere else. */
  predicate BlockOk(ops: seq<Op>) {
    && ops != []
    && IsTerminator(ops[|ops| - 1])
    && (forall i :: 0 <= i < |ops| - 1 ==> !ops[i].LBr? && !ops[i].LCondBr?)
    && (forall i :: 0 <= i < |ops| ==> !ops[i].KYield? && NestedOk(ops[i]))
  }

  ghost predicate BlockFine(block: Block, n: Vid, l: Label) {
    BlockOk(block.ops) && OpsBelow(block.ops, n, l) && AllBelow(block.params, n)
  }

  /** A function body in any stage of its conversion. Its blocks are exactly those below `nextLabel`,
      so every branch has a target. */
  ghost predicate FuncOk(fn: Func) {
    && (forall l: Label :: l in fn.blocks <==> l < fn.nextLabel)
    && fn.entry < fn.nextLabel
    && (forall l: Label :: l in fn.blocks ==> BlockFine(fn.blocks[l], fn.nextVid, fn.nextLabel))
  }

  ghost predicate ModuleOk(m: Module) {
    forall g :: g in m ==> FuncOk(m[g])
  }
}

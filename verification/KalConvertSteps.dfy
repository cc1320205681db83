/** What the conversion driver relies on: each rewrite leaves less to convert, keeps the layout of the
    blocks in order, and keeps the meaning of every module. */
module KalConvertSteps {
  import opened Options
  import opened KalArith
  import opened KalIR
  import opened KalToLlvm
  import opened KalToLlvmCorrect
  import opened KalTerminators

  // ----- what is left to convert -----

  /** The number of ops still to be rewritten, nested ones included. */
  function Weight(op: Op): nat
    decreases op
  {
    match op
    case KIf(_, thn, els) => 1 + WeightOf(thn) + WeightOf(els)
    case KWhile(_, body) => 1 + WeightOf(body)
    case _ => if IsLeaf(op) then 1 else 0
  }

  function WeightOf(ops: seq<Op>): nat
    decreases ops
  {
    if ops == [] then 0 else Weight(ops[0]) + WeightOf(ops[1..])
  }

  /** The weight of the blocks below label `k`. */
  function WeightBelow(blocks: map<Label, Block>, k: Label): nat {
    if k == 0 then 0 else WeightBelow(blocks, k - 1) + if k - 1 in blocks then WeightOf(blocks[k - 1].ops) else 0
  }

  function FuncWeight(fn: Func): nat { WeightBelow(fn.blocks, fn.nextLabel) }

  lemma {:induction false} WeightConcat(xs: seq<Op>, ys: seq<Op>)
    ensures WeightOf(xs + ys) == WeightOf(xs) + WeightOf(ys)
  {
    if xs == [] {
      assert xs + ys == ys;
    } else {
      assert (xs + ys)[0] == xs[0] && (xs + ys)[1..] == xs[1..] + ys;
      WeightConcat(xs[1..], ys);
    }
  }

  lemma {:induction false} WeightSame(bs: map<Label, Block>, cs: map<Label, Block>, k: Label)
    requires forall l: Label :: l < k ==> l in bs && l in cs && bs[l].ops == cs[l].ops
    ensures WeightBelow(bs, k) == WeightBelow(cs, k)
  {
    if k > 0 { WeightSame(bs, cs, k - 1); }
  }

  lemma {:induction false} WeightUpdate(bs: map<Label, Block>, cs: map<Label, Block>, b: Label, k: Label)
    requires b < k && forall l: Label :: l < k ==> l in bs && l in cs && (l != b ==> bs[l].ops == cs[l].ops)
    ensures WeightBelow(cs, k) + WeightOf(bs[b].ops) == WeightBelow(bs, k) + WeightOf(cs[b].ops)
    decreases k
  {
    if k - 1 == b { WeightSame(bs, cs, k - 1); } else { WeightUpdate(bs, cs, b, k - 1); }
  }

  lemma {:induction false} WeightAt(ops: seq<Op>, i: nat)
    requires i < |ops|
    ensures WeightOf(ops) == WeightOf(ops[..i]) + Weight(ops[i]) + WeightOf(ops[i + 1..])
  {
    assert ops == ops[..i] + ([ops[i]] + ops[i + 1..]);
    WeightConcat(ops[..i], [ops[i]] + ops[i + 1..]);
    WeightConcat([ops[i]], ops[i + 1..]);
  }

  lemma {:induction false} LlvmWeight(ops: seq<Op>)
    requires AllLlvm(ops)
    ensures WeightOf(ops) == 0
  {
    if ops != [] { LlvmWeight(ops[1..]); }
  }

  lemma {:induction false} CloseWeight(region: seq<Op>, dest: Label)
    requires region != []
    ensures WeightOf(Close(region, dest)) == WeightOf(region)
  {
    var k := |region| - 1;
    if region[k].KYield? {
      WeightAt(region, k);
      WeightConcat(region[..k], [LBr(dest, [])]);
      assert region[k + 1..] == [];
    }
  }

  lemma LeafWeight(fn: Func, b: Label, i: nat)
    requires FuncOk(fn) && Site(fn, b, i) && IsLeaf(fn.blocks[b].ops[i])
    ensures FuncWeight(RewriteLeaf(fn, b, i)) == FuncWeight(fn) - 1
  {
    var fn' := RewriteLeaf(fn, b, i);
    var ls := LeafOps(fn.blocks[b].ops[i], fn.nextVid);
    WeightAt(fn.blocks[b].ops, i);
    LlvmWeight(ls);
    WeightConcat(Pre(fn, b, i) + ls, Post(fn, b, i));
    WeightConcat(Pre(fn, b, i), ls);
    WeightUpdate(fn.blocks, fn'.blocks, b, fn.nextLabel);
  }

  lemma ThreeMore(bs: map<Label, Block>, l: Label)
    requires l in bs && l + 1 in bs && l + 2 in bs
    ensures WeightBelow(bs, l + 3) == WeightBelow(bs, l) + WeightOf(bs[l].ops) + WeightOf(bs[l + 1].ops) + WeightOf(bs[l + 2].ops)
  {
    assert WeightBelow(bs, l + 3) == WeightBelow(bs, l + 2) + WeightOf(bs[l + 2].ops);
    assert WeightBelow(bs, l + 2) == WeightBelow(bs, l + 1) + WeightOf(bs[l + 1].ops);
  }

  /** A body in which block `b` changed and three blocks are new. */
  lemma ThreeWeight(fn: Func, fn': Func, b: Label)
    requires FuncOk(fn) && b in fn.blocks && fn'.nextLabel == fn.nextLabel + 3 && KeepsBlocks(fn, fn', Some(b))
    requires fn.nextLabel in fn'.blocks && fn.nextLabel + 1 in fn'.blocks && fn.nextLabel + 2 in fn'.blocks
    ensures var l := fn.nextLabel;
            FuncWeight(fn') + WeightOf(fn.blocks[b].ops) == FuncWeight(fn) + WeightOf(fn'.blocks[b].ops)
            + WeightOf(fn'.blocks[l].ops) + WeightOf(fn'.blocks[l + 1].ops) + WeightOf(fn'.blocks[l + 2].ops)
  {
    ThreeMore(fn'.blocks, fn.nextLabel);
    WeightUpdate(fn.blocks, fn'.blocks, b, fn.nextLabel);
  }

  /** The same, by what the new blocks hold. */
  lemma {:induction false} FourWeight(fn: Func, fn': Func, b: Label, ops: seq<Op>, x: Block, y: Block, z: Block)
    requires FuncOk(fn) && b in fn.blocks && fn'.nextLabel == fn.nextLabel + 3
    requires var l := fn.nextLabel; fn'.blocks == fn.blocks[b := fn.blocks[b].(ops := ops)][l := x][l + 1 := y][l + 2 := z]
    ensures FuncWeight(fn') + WeightOf(fn.blocks[b].ops) == FuncWeight(fn) + WeightOf(ops) + WeightOf(x.ops) + WeightOf(y.ops) + WeightOf(z.ops)
  {
    FourKept(fn, fn', b, ops, x, y, z);
    ThreeWeight(fn, fn', b);
  }

  lemma {:induction false} BeforeWeight(pre: seq<Op>, tail: seq<Op>)
    requires AllLlvm(tail)
    ensures WeightOf(pre + tail) == WeightOf(pre)
  {
    LlvmWeight(tail);
    WeightConcat(pre, tail);
  }

  /** The halves of a split block, and what was put at the end of the first. */
  lemma {:induction false} HalvesWeight(ops: seq<Op>, i: nat, tail: seq<Op>)
    requires i < |ops| && AllLlvm(tail)
    ensures WeightOf(ops) == WeightOf(ops[..i] + tail) + Weight(ops[i]) + WeightOf(ops[i + 1..])
  {
    WeightAt(ops, i);
    BeforeWeight(ops[..i], tail);
  }

  lemma {:induction false} IfRegionsWeight(op: Op, dest: Label)
    requires op.KIf? && op.thn != [] && op.els != []
    ensures Weight(op) == 1 + WeightOf(Close(op.thn, dest)) + WeightOf(Close(op.els, dest))
  {
    CloseWeight(op.thn, dest);
    CloseWeight(op.els, dest);
  }

  lemma {:induction false} WhileRegionWeight(op: Op, dest: Label)
    requires op.KWhile? && op.body != []
    ensures Weight(op) == 1 + WeightOf(Close(op.body, dest))
  {
    CloseWeight(op.body, dest);
  }

  lemma {:induction false} BranchWeight(ops: seq<Op>, i: nat, c: Vid, n: Vid, l: Label)
    requires i < |ops|
    ensures WeightOf(ops) == WeightOf(ops[..i] + BranchOnIf(c, n, l)) + Weight(ops[i]) + WeightOf(ops[i + 1..])
  {
    HalvesWeight(ops, i, BranchOnIf(c, n, l));
  }

  lemma IfWeight(fn: Func, b: Label, i: nat)
    requires FuncOk(fn) && Site(fn, b, i) && fn.blocks[b].ops[i].KIf? && fn.blocks[b].ops[i].thn != [] && fn.blocks[b].ops[i].els != []
    ensures FuncWeight(RewriteIf(fn, b, i)) == FuncWeight(fn) - 1
  {
    var op, l, fn' := fn.blocks[b].ops[i], fn.nextLabel, RewriteIf(fn, b, i);
    BranchWeight(fn.blocks[b].ops, i, op.c, fn.nextVid, l);
    IfRegionsWeight(op, l + 2);
    FourWeight(fn, fn', b, Pre(fn, b, i) + BranchOnIf(op.c, fn.nextVid, l), Block([], Close(op.thn, l + 2)), Block([], Close(op.els, l + 2)),
               Block([], Post(fn, b, i)));
  }

  lemma HeaderWeight(p: Vid, n: Vid, l: Label)
    ensures WeightOf(Header(p, n, l)) == 0
  {
    LlvmWeight(Header(p, n, l));
  }

  lemma {:induction false} LoopHeadWeight(ops: seq<Op>, i: nat, l: Label)
    requires i < |ops|
    ensures WeightOf(ops) == WeightOf(ops[..i] + [LBr(l, [])]) + Weight(ops[i]) + WeightOf(ops[i + 1..])
  {
    HalvesWeight(ops, i, [LBr(l, [])]);
  }

  lemma WhileWeight(fn: Func, b: Label, i: nat)
    requires FuncOk(fn) && Site(fn, b, i) && fn.blocks[b].ops[i].KWhile? && fn.blocks[b].ops[i].body != []
    ensures FuncWeight(RewriteWhile(fn, b, i)) == FuncWeight(fn) - 1
  {
    var op, l, fn' := fn.blocks[b].ops[i], fn.nextLabel, RewriteWhile(fn, b, i);
    LoopHeadWeight(fn.blocks[b].ops, i, l + 2);
    WhileRegionWeight(op, l + 2);
    HeaderWeight(op.p, fn.nextVid, l);
    FourWeight(fn, fn', b, Pre(fn, b, i) + [LBr(l + 2, [])], Block([], Close(op.body, l + 2)), Block([], Post(fn, b, i)),
               Block([], Header(op.p, fn.nextVid, l)));
  }

  // ----- layouts -----

  /** Every block has exactly one place in the layout, and the entry block comes first. */
  ghost predicate LayoutOk(fn: Func) {
    && fn.layout != [] && fn.layout[0] == fn.entry
    && (forall l: Label :: l in fn.layout <==> l < fn.nextLabel)
    && (forall i, j :: 0 <= i < j < |fn.layout| ==> fn.layout[i] != fn.layout[j])
  }

  lemma {:induction false} InsertAfterAt(layout: seq<Label>, i: nat, new_: seq<Label>)
    requires i < |layout| && forall j :: 0 <= j < i ==> layout[j] != layout[i]
    ensures InsertAfter(layout, layout[i], new_) == layout[..i + 1] + new_ + layout[i + 1..]
  {
    if i == 0 {
      assert layout[..1] == [layout[0]];
    } else {
      assert layout[1..][i - 1] == layout[i];
      InsertAfterAt(layout[1..], i - 1, new_);
      assert layout[1..][..i] == layout[1..i + 1] && layout[1..][i..] == layout[i + 1..];
      assert [layout[0]] + layout[1..i + 1] == layout[..i + 1];
    }
  }

  lemma {:induction false} InsertKeepsLayout(fn: Func, i: nat, new_: seq<Label>, fn': Func)
    requires LayoutOk(fn) && i < |fn.layout| && fn'.layout == InsertAfter(fn.layout, fn.layout[i], new_) && fn'.entry == fn.entry
    requires fn'.nextLabel == fn.nextLabel + 3
    requires |new_| == 3 && new_[0] != new_[1] && new_[1] != new_[2] && new_[0] != new_[2]
    requires forall l: Label :: l in new_ <==> fn.nextLabel <= l < fn.nextLabel + 3
    ensures LayoutOk(fn') && |fn'.layout| > i && fn'.layout[..i + 1] == fn.layout[..i + 1]
  {
    InsertAfterAt(fn.layout, i, new_);
    var xs, ys := fn.layout[..i + 1], fn.layout[i + 1..];
    var l' := fn'.layout;
    assert l' == xs + new_ + ys && fn.layout == xs + ys;
    forall l: Label ensures l in l' <==> l < fn'.nextLabel {
      assert l in l' <==> l in xs || l in new_ || l in ys;
      assert l in fn.layout <==> l in xs || l in ys;
    }
    forall j, k | 0 <= j < k < |l'| ensures l'[j] != l'[k] {
      Distinct(xs, new_, ys, j, k);
    }
  }

  lemma Distinct(xs: seq<Label>, new_: seq<Label>, ys: seq<Label>, j: nat, k: nat)
    requires j < k < |xs + new_ + ys|
    requires forall p, q :: 0 <= p < q < |xs + ys| ==> (xs + ys)[p] != (xs + ys)[q]
    requires forall p, q :: 0 <= p < q < |new_| ==> new_[p] != new_[q]
    requires forall l: Label :: l in new_ ==> l !in xs + ys
    ensures (xs + new_ + ys)[j] != (xs + new_ + ys)[k]
  {
    var zs := xs + new_ + ys;
    var n := |new_|;
    var inNewJ, inNewK := |xs| <= j < |xs| + n, |xs| <= k < |xs| + n;
    if inNewJ && inNewK {
      assert zs[j] == new_[j - |xs|] && zs[k] == new_[k - |xs|];
    } else if inNewJ {
      assert zs[j] in new_ && zs[k] == (xs + ys)[k - n];
    } else if inNewK {
      assert zs[k] in new_ && zs[j] == (xs + ys)[j];
    } else {
      var p, q := if j < |xs| then j else j - n, if k < |xs| then k else k - n;
      assert zs[j] == (xs + ys)[p] && zs[k] == (xs + ys)[q] && p < q;
    }
  }

  // ----- flat bodies -----

  predicate AllLlvm(ops: seq<Op>) {
    forall i :: 0 <= i < |ops| ==> IsLlvm(ops[i])
  }

  /** Only LLVM-dialect ops are left. */
  predicate Flat(fn: Func) {
    forall b :: b in fn.blocks ==> AllLlvm(fn.blocks[b].ops)
  }

  // ----- meaning is kept throughout -----

  /** Putting `fn'` in the place of `fn` keeps every module well-formed and every call's result. */
  ghost predicate Equivalent(fn: Func, fn': Func) {
    forall m: Module, g :: g in m && m[g] == fn && ModuleOk(m) ==> ModuleOk(m[g := fn']) && SameMeaning(m, m[g := fn'])
  }

  lemma EquivalentStart(fn: Func)
    ensures Equivalent(fn, fn)
  {
    forall m: Module, g | g in m && m[g] == fn && ModuleOk(m) ensures ModuleOk(m[g := fn]) && SameMeaning(m, m[g := fn]) {
      assert m[g := fn] == m;
    }
  }

  /** What one rewrite makes of a function body. */
  ghost predicate OneRewrite(fn: Func, fn': Func) {
    || (FuncOk(fn) && fn' == RewriteEntry(fn))
    || (exists b, i: nat :: RewritesAt(fn, b, i, fn'))
  }

  ghost predicate RewritesAt(fn: Func, b: Label, i: nat, fn': Func) {
    FuncOk(fn) && Convertible(fn, b, i) &&
    var op := fn.blocks[b].ops[i];
    if op.KIf? then RegionOk(op.thn) && RegionOk(op.els) && fn' == RewriteIf(fn, b, i)
    else if op.KWhile? then RegionOk(op.body) && fn' == RewriteWhile(fn, b, i)
    else fn' == RewriteLeaf(fn, b, i)
  }

  lemma EquivalentNext(fn0: Func, fn: Func, fn': Func)
    requires Equivalent(fn0, fn) && OneRewrite(fn, fn')
    ensures Equivalent(fn0, fn')
  {
    forall m: Module, g | g in m && m[g] == fn0 && ModuleOk(m) ensures ModuleOk(m[g := fn']) && SameMeaning(m, m[g := fn']) {
      var m1 := m[g := fn];
      assert m1[g := fn'] == m[g := fn'];
      var w := AtEntry(g);
      if fn' != RewriteEntry(fn) {
        var b, i: nat :| RewritesAt(fn, b, i, fn');
        w := AtOp(g, b, i);
      }
      assert Rewritten(m1, w, m[g := fn']);
      RewritePreserves(m1, w, m[g := fn']);
      RewriteKeepsOk(m1, w, m[g := fn']);
    }
  }

  lemma OneRewriteOk(fn: Func, fn': Func)
    requires FuncOk(fn) && OneRewrite(fn, fn')
    ensures FuncOk(fn')
  {
    if fn' == RewriteEntry(fn) {
      EntryFine(fn);
    } else {
      var b, i: nat :| RewritesAt(fn, b, i, fn');
      var op := fn.blocks[b].ops[i];
      if op.KIf? { IfFine(fn, b, i); } else if op.KWhile? { WhileFine(fn, b, i); } else { LeafFine(fn, b, i); }
    }
  }

  lemma {:induction false} InsertTwice(layout: seq<Label>, b: Label, xs: seq<Label>, ys: seq<Label>)
    ensures InsertAfter(InsertAfter(layout, b, xs), b, ys) == InsertAfter(layout, b, ys + xs)
  {
    if layout != [] {
      var rest := layout[1..];
      if layout[0] == b {
        assert ([b] + xs + rest)[1..] == xs + rest;
        assert [b] + ys + (xs + rest) == [b] + (ys + xs) + rest;
      } else {
        InsertTwice(rest, b, xs, ys);
        assert ([layout[0]] + InsertAfter(rest, b, xs))[1..] == InsertAfter(rest, b, xs);
      }
    }
  }

  lemma {:induction false} InsertBehind(layout: seq<Label>, b: Label, x: Label, y: Label, z: Label)
    requires x !in layout && x != b
    ensures InsertAfter(InsertAfter(layout, b, [x, z]), x, [y]) == InsertAfter(layout, b, [x, y, z])
  {
    if layout != [] {
      var rest := layout[1..];
      if layout[0] == b {
        assert ([b] + [x, z] + rest)[1..] == [x] + ([z] + rest);
        assert ([x] + ([z] + rest))[1..] == [z] + rest;
        assert [b] + ([x] + [y] + ([z] + rest)) == [b] + [x, y, z] + rest;
      } else {
        InsertBehind(rest, b, x, y, z);
        assert ([layout[0]] + InsertAfter(rest, b, [x, z]))[1..] == InsertAfter(rest, b, [x, z]);
      }
    }
  }

  /** Three blocks inserted one after another end up in order after the block they were inserted at. */
  lemma {:induction false} ThreeInserts(layout: seq<Label>, b: Label, x: Label, y: Label, z: Label)
    requires x !in layout && x != b
    ensures InsertAfter(InsertAfter(InsertAfter(layout, b, [z]), b, [x]), x, [y]) == InsertAfter(layout, b, [x, y, z])
  {
    InsertTwice(layout, b, [z], [x]);
    assert [x] + [z] == [x, z];
    InsertBehind(layout, b, x, y, z);
  }

  lemma EntryLayout(fn: Func)
    requires FuncOk(fn) && LayoutOk(fn)
    ensures LayoutOk(RewriteEntry(fn))
  {
    var fn' := RewriteEntry(fn);
    forall l: Label ensures l in fn'.layout <==> l < fn'.nextLabel {
      assert l in fn'.layout <==> l == fn.nextLabel || l in fn.layout;
    }
    forall i, j | 0 <= i < j < |fn'.layout| ensures fn'.layout[i] != fn'.layout[j] {
      assert fn'.layout[j] == fn.layout[j - 1] && fn.layout[j - 1] in fn.layout;
      if i > 0 { assert fn'.layout[i] == fn.layout[i - 1]; }
    }
  }

  // ----- one rewrite, from the driver's point of view -----

  ghost predicate FlatUpTo(fn: Func, li: nat) {
    li <= |fn.layout| && forall j :: 0 <= j < li ==> fn.layout[j] in fn.blocks && AllLlvm(fn.blocks[fn.layout[j]].ops)
  }

  /** The body that `fn0` has become once the first `li` blocks of its layout are converted. */
  ghost predicate Stage(fn0: Func, fn: Func, li: nat) {
    FuncOk(fn) && LayoutOk(fn) && Equivalent(fn0, fn) && (Clean(fn0) <==> Clean(fn)) && FlatUpTo(fn, li)
  }

  lemma FlatKept(fn: Func, fn': Func, li: nat)
    requires LayoutOk(fn) && li < |fn.layout| && FlatUpTo(fn, li)
    requires KeepsBlocks(fn, fn', Some(fn.layout[li])) && li < |fn'.layout| && fn'.layout[..li + 1] == fn.layout[..li + 1]
    ensures FlatUpTo(fn', li)
  {
    forall j | 0 <= j < li ensures fn'.layout[j] in fn'.blocks && AllLlvm(fn'.blocks[fn'.layout[j]].ops) {
      assert fn'.layout[j] == fn'.layout[..li + 1][j] == fn.layout[j];
      assert fn.layout[j] != fn.layout[li];
    }
  }

  /** A rewrite changes one block only, and leaves less to convert. */
  lemma RewriteShrinks(fn: Func, b: Label, i: nat, fn': Func)
    requires RewritesAt(fn, b, i, fn')
    ensures KeepsBlocks(fn, fn', Some(b)) && FuncWeight(fn') < FuncWeight(fn)
  {
    var op := fn.blocks[b].ops[i];
    if op.KIf? {
      IfBlocksKept(fn, b, i);
      IfWeight(fn, b, i);
    } else if op.KWhile? {
      WhileBlocksKept(fn, b, i);
      WhileWeight(fn, b, i);
    } else {
      LeafParts(fn, b, i);
      LeafWeight(fn, b, i);
    }
  }

  /** What a rewrite in the block at place `li` of the layout does to the layout. */
  lemma RewriteLayout(fn: Func, li: nat, i: nat, fn': Func)
    requires LayoutOk(fn) && li < |fn.layout| && RewritesAt(fn, fn.layout[li], i, fn')
    ensures LayoutOk(fn') && li < |fn'.layout| && fn'.layout[..li + 1] == fn.layout[..li + 1]
  {
    var l := fn.nextLabel;
    var op := fn.blocks[fn.layout[li]].ops[i];
    if op.KIf? {
      InsertKeepsLayout(fn, li, [l, l + 1, l + 2], fn');
    } else if op.KWhile? {
      InsertKeepsLayout(fn, li, [l + 2, l, l + 1], fn');
    }
  }

  predicate Holds(fn: Func, l: Label, ops: seq<Op>) {
    l in fn.blocks && fn.blocks[l] == Block([], ops)
  }

  /** Three blocks come right behind block `li`, and the others stay in place. */
  predicate ThreeBehind(fn: Func, li: nat, fn': Func) {
    && li < |fn.layout| && |fn'.layout| == |fn.layout| + 3
    && fn'.layout[..li + 1] == fn.layout[..li + 1] && fn'.layout[li + 4..] == fn.layout[li + 1..]
  }

  /** An `if` becomes, in this order, the then block, the else block, and a block of the ops behind it. */
  lemma IfLaidOut(fn: Func, li: nat, i: nat)
    requires LayoutOk(fn) && li < |fn.layout| && Site(fn, fn.layout[li], i)
    requires var op := fn.blocks[fn.layout[li]].ops[i]; op.KIf? && op.thn != [] && op.els != []
    ensures var ops := fn.blocks[fn.layout[li]].ops; var op, fn' := ops[i], RewriteIf(fn, fn.layout[li], i);
            && ThreeBehind(fn, li, fn')
            && var thn, els, merge := fn'.layout[li + 1], fn'.layout[li + 2], fn'.layout[li + 3];
               && Holds(fn', thn, Close(op.thn, merge)) && Holds(fn', els, Close(op.els, merge)) && Holds(fn', merge, ops[i + 1..])
               && fn.layout[li] in fn'.blocks && fn'.blocks[fn.layout[li]].ops == ops[..i] + [
                    LConst(fn.nextVid, 0), LICmp(fn.nextVid + 1, NE, op.c, fn.nextVid), LCondBr(fn.nextVid + 1, thn, els)]
  {
    InsertAfterAt(fn.layout, li, [fn.nextLabel, fn.nextLabel + 1, fn.nextLabel + 2]);
    assert fn.layout[li] in fn.layout;
  }

  /** A loop becomes, in this order, the header, the body, and a block of the ops behind it. */
  lemma WhileLaidOut(fn: Func, li: nat, i: nat)
    requires LayoutOk(fn) && li < |fn.layout| && Site(fn, fn.layout[li], i)
    requires var op := fn.blocks[fn.layout[li]].ops[i]; op.KWhile? && op.body != []
    ensures var ops := fn.blocks[fn.layout[li]].ops; var op, fn', n := ops[i], RewriteWhile(fn, fn.layout[li], i), fn.nextVid;
            && ThreeBehind(fn, li, fn')
            && var header, body, exit := fn'.layout[li + 1], fn'.layout[li + 2], fn'.layout[li + 3];
               && Holds(fn', header, [LLoad(n, op.p), LConst(n + 1, 0), LICmp(n + 2, NE, n, n + 1), LCondBr(n + 2, body, exit)])
               && Holds(fn', body, Close(op.body, header)) && Holds(fn', exit, ops[i + 1..])
               && fn.layout[li] in fn'.blocks && fn'.blocks[fn.layout[li]].ops == ops[..i] + [LBr(header, [])]
  {
    InsertAfterAt(fn.layout, li, [fn.nextLabel + 2, fn.nextLabel, fn.nextLabel + 1]);
    assert fn.layout[li] in fn.layout;
  }

  lemma CleanNext(fn: Func, b: Label, i: nat, fn': Func)
    requires RewritesAt(fn, b, i, fn')
    ensures Clean(fn) <==> Clean(fn')
  {
    var op := fn.blocks[b].ops[i];
    if op.KIf? { IfClean(fn, b, i); } else if op.KWhile? { WhileClean(fn, b, i); } else { LeafClean(fn, b, i); }
  }

  lemma StageNext(fn0: Func, fn: Func, li: nat, i: nat, fn': Func)
    requires Stage(fn0, fn, li) && li < |fn.layout| && RewritesAt(fn, fn.layout[li], i, fn')
    ensures Stage(fn0, fn', li) && li < |fn'.layout| && fn'.layout[li] == fn.layout[li] && FuncWeight(fn') < FuncWeight(fn)
  {
    RewriteLayout(fn, li, i, fn');
    RewriteShrinks(fn, fn.layout[li], i, fn');
    FlatKept(fn, fn', li);
    CleanNext(fn, fn.layout[li], i, fn');
    EquivalentNext(fn0, fn, fn');
    OneRewriteOk(fn, fn');
    assert fn'.layout[li] == fn'.layout[..li + 1][li] == fn.layout[..li + 1][li];
  }

  /** The ops before position `k` are done once the op at position `i` is rewritten. */
  lemma PrefixDone(fn: Func, b: Label, i: nat, fn': Func, k: nat)
    requires RewritesAt(fn, b, i, fn') && AllLlvm(fn.blocks[b].ops[..i])
    requires var op := fn.blocks[b].ops[i];
             k == if IsLeaf(op) then i + |LeafOps(op, fn.nextVid)| else |fn'.blocks[b].ops|
    ensures k <= |fn'.blocks[b].ops| && AllLlvm(fn'.blocks[b].ops[..k])
  {
    var op := fn.blocks[b].ops[i];
    if op.KIf? {
      IfBlocksKept(fn, b, i);
      assert fn'.blocks[b].ops[..k] == fn.blocks[b].ops[..i] + BranchOnIf(op.c, fn.nextVid, fn.nextLabel);
    } else if op.KWhile? {
      assert fn'.blocks[b].ops[..k] == fn.blocks[b].ops[..i] + [LBr(fn.nextLabel + 2, [])];
    } else {
      assert fn'.blocks[b].ops[..k] == fn.blocks[b].ops[..i] + LeafOps(op, fn.nextVid);
    }
  }

  lemma SiteFacts(fn: Func, b: Label, i: nat)
    requires FuncOk(fn) && Site(fn, b, i)
    ensures NestedOk(fn.blocks[b].ops[i]) && !fn.blocks[b].ops[i].KYield?
  {
    assert BlockFine(fn.blocks[b], fn.nextVid, fn.nextLabel);
  }
}

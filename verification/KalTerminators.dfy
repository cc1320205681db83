/** Terminators: the IR verifier wants exactly one in every block, at its end. Every rewrite of the
    conversion keeps that, and keeps its absence too. */
module KalTerminators {
  import opened Options
  import opened KalArith
  import opened KalIR
  import opened KalToLlvm
  import opened KalToLlvmCorrect

  /** Only the last op is a terminator, here and in nested regions. */
  predicate TermsLast(ops: seq<Op>)
    decreases ops
  {
    forall i :: 0 <= i < |ops| ==> (IsTerminator(ops[i]) ==> i == |ops| - 1) && NestedTermsLast(ops[i])
  }

  predicate NestedTermsLast(op: Op)
    decreases op
  {
    match op
    case KIf(_, thn, els) => TermsLast(thn) && TermsLast(els)
    case KWhile(_, body) => TermsLast(body)
    case _ => true
  }

  /** No op is a terminator; in nested regions only the last one is. */
  predicate NoTerms(ops: seq<Op>) {
    forall i :: 0 <= i < |ops| ==> !IsTerminator(ops[i]) && NestedTermsLast(ops[i])
  }

  /** Every block holds exactly one terminator, at its end, once `FuncOk` holds as well. */
  predicate Clean(fn: Func) {
    forall l: Label :: l in fn.blocks ==> TermsLast(fn.blocks[l].ops)
  }

  lemma {:induction false} TermsConcat(xs: seq<Op>, ys: seq<Op>)
    ensures ys != [] ==> (TermsLast(xs + ys) <==> NoTerms(xs) && TermsLast(ys))
    ensures NoTerms(xs + ys) <==> NoTerms(xs) && NoTerms(ys)
  {
    var zs := xs + ys;
    assert forall i :: 0 <= i < |xs| ==> zs[i] == xs[i];
    assert forall i :: 0 <= i < |ys| ==> zs[|xs| + i] == ys[i];
  }

  lemma {:induction false} TermsAt(ops: seq<Op>, i: nat)
    requires i < |ops| - 1
    ensures TermsLast(ops) <==> NoTerms(ops[..i]) && !IsTerminator(ops[i]) && NestedTermsLast(ops[i]) && TermsLast(ops[i + 1..])
  {
    assert ops == ops[..i] + ([ops[i]] + ops[i + 1..]);
    TermsConcat(ops[..i], [ops[i]] + ops[i + 1..]);
    TermsConcat([ops[i]], ops[i + 1..]);
    assert NoTerms([ops[i]]) <==> !IsTerminator(ops[i]) && NestedTermsLast(ops[i]) by { assert [ops[i]][0] == ops[i]; }
  }

  lemma {:induction false} TermsClose(region: seq<Op>, dest: Label)
    requires region != []
    ensures TermsLast(Close(region, dest)) <==> TermsLast(region)
  {
    var k := |region| - 1;
    assert region == region[..k] + [region[k]];
    if region[k].KYield? {
      TermsConcat(region[..k], [region[k]]);
      TermsConcat(region[..k], [LBr(dest, [])]);
    }
  }

  /** A block split at an op with regions. */
  lemma {:induction false} TermsSplit(ops: seq<Op>, i: nat, tail: seq<Op>)
    requires BlockOk(ops) && i < |ops| && (ops[i].KIf? || ops[i].KWhile?) && tail != [] && TermsLast(tail)
    ensures TermsLast(ops) <==> TermsLast(ops[..i] + tail) && NestedTermsLast(ops[i]) && TermsLast(ops[i + 1..])
  {
    assert i < |ops| - 1;
    TermsAt(ops, i);
    TermsConcat(ops[..i], tail);
  }

  lemma {:induction false} TermsLeaf(ops: seq<Op>, i: nat, t: Vid)
    requires i < |ops| && IsLeaf(ops[i])
    ensures TermsLast(ops) <==> TermsLast(ops[..i] + LeafOps(ops[i], t) + ops[i + 1..])
  {
    var op, new_, post := ops[i], LeafOps(ops[i], t), ops[i + 1..];
    assert ops == ops[..i] + ([op] + post);
    assert ops[..i] + new_ + post == ops[..i] + (new_ + post);
    TermsConcat(ops[..i], [op] + post);
    TermsConcat(ops[..i], new_ + post);
    TermsConcat([op], post);
    TermsConcat(new_, post);
    LeafTerms(op, t);
    if post == [] {
      assert [op] + post == [op] && new_ + post == new_;
      assert TermsLast([op]);
    }
  }

  lemma LeafTerms(op: Op, t: Vid)
    requires IsLeaf(op)
    ensures TermsLast(LeafOps(op, t)) && (NoTerms(LeafOps(op, t)) <==> NoTerms([op]))
  {
    assert NoTerms([op]) <==> !IsTerminator(op) by { assert [op][0] == op; }
    if op.KRet? { assert LeafOps(op, t)[0] == LRet(op.v); }
  }

  /** The other blocks do not change. */
  lemma CleanUpdate(fn: Func, fn': Func, b: Label, new_: set<Label>)
    requires b in fn.blocks && KeepsBlocks(fn, fn', Some(b)) && fn'.blocks.Keys == fn.blocks.Keys + new_ && new_ !! fn.blocks.Keys
    requires TermsLast(fn.blocks[b].ops) <==> TermsLast(fn'.blocks[b].ops) && forall l: Label :: l in new_ ==> TermsLast(fn'.blocks[l].ops)
    ensures Clean(fn) <==> Clean(fn')
  {
    if Clean(fn) {
      forall l: Label | l in fn'.blocks ensures TermsLast(fn'.blocks[l].ops) {
        if l in fn.blocks && l != b { assert fn'.blocks[l] == fn.blocks[l]; }
      }
    }
    if Clean(fn') {
      forall l: Label | l in fn.blocks ensures TermsLast(fn.blocks[l].ops) {
        if l != b { assert fn'.blocks[l] == fn.blocks[l]; }
      }
    }
  }

  lemma LeafClean(fn: Func, b: Label, i: nat)
    requires Site(fn, b, i) && IsLeaf(fn.blocks[b].ops[i])
    ensures Clean(fn) <==> Clean(RewriteLeaf(fn, b, i))
  {
    LeafParts(fn, b, i);
    TermsLeaf(fn.blocks[b].ops, i, fn.nextVid);
    CleanUpdate(fn, RewriteLeaf(fn, b, i), b, {});
  }

  lemma IfClean(fn: Func, b: Label, i: nat)
    requires FuncOk(fn) && Site(fn, b, i) && fn.blocks[b].ops[i].KIf? && fn.blocks[b].ops[i].thn != [] && fn.blocks[b].ops[i].els != []
    ensures Clean(fn) <==> Clean(RewriteIf(fn, b, i))
  {
    var op, n, l, fn' := fn.blocks[b].ops[i], fn.nextVid, fn.nextLabel, RewriteIf(fn, b, i);
    assert BlockFine(fn.blocks[b], n, l);
    TermsSplit(fn.blocks[b].ops, i, BranchOnIf(op.c, n, l));
    TermsClose(op.thn, l + 2);
    TermsClose(op.els, l + 2);
    assert NestedTermsLast(op) == (TermsLast(op.thn) && TermsLast(op.els));
    FourClean(fn, fn', b, Pre(fn, b, i) + BranchOnIf(op.c, n, l), Block([], Close(op.thn, l + 2)), Block([], Close(op.els, l + 2)),
              Block([], Post(fn, b, i)));
  }

  lemma WhileClean(fn: Func, b: Label, i: nat)
    requires FuncOk(fn) && Site(fn, b, i) && fn.blocks[b].ops[i].KWhile? && fn.blocks[b].ops[i].body != []
    ensures Clean(fn) <==> Clean(RewriteWhile(fn, b, i))
  {
    var op, n, l, fn' := fn.blocks[b].ops[i], fn.nextVid, fn.nextLabel, RewriteWhile(fn, b, i);
    assert BlockFine(fn.blocks[b], n, l);
    TermsSplit(fn.blocks[b].ops, i, [LBr(l + 2, [])]);
    TermsClose(op.body, l + 2);
    HeaderTerms(op.p, n, l);
    assert NestedTermsLast(op) == TermsLast(op.body);
    FourClean(fn, fn', b, Pre(fn, b, i) + [LBr(l + 2, [])], Block([], Close(op.body, l + 2)), Block([], Post(fn, b, i)), Block([], Header(op.p, n, l)));
  }

  lemma HeaderTerms(p: Vid, n: Vid, l: Label)
    ensures TermsLast(Header(p, n, l))
  {
  }

  lemma FourAre(fn: Func, fn': Func, b: Label, ops: seq<Op>, x: Block, y: Block, z: Block)
    requires FuncOk(fn) && b in fn.blocks
    requires var l := fn.nextLabel; fn'.blocks == fn.blocks[b := fn.blocks[b].(ops := ops)][l := x][l + 1 := y][l + 2 := z]
    ensures var l, blocks := fn.nextLabel, fn'.blocks;
            && blocks.Keys == fn.blocks.Keys + {l, l + 1, l + 2} && {l, l + 1, l + 2} !! fn.blocks.Keys
            && blocks[b].ops == ops && blocks[l] == x && blocks[l + 1] == y && blocks[l + 2] == z
  {
    assert b < fn.nextLabel;
  }

  lemma {:induction false} FourClean(fn: Func, fn': Func, b: Label, ops: seq<Op>, x: Block, y: Block, z: Block)
    requires FuncOk(fn) && b in fn.blocks
    requires var l := fn.nextLabel; fn'.blocks == fn.blocks[b := fn.blocks[b].(ops := ops)][l := x][l + 1 := y][l + 2 := z]
    requires TermsLast(fn.blocks[b].ops) <==> TermsLast(ops) && TermsLast(x.ops) && TermsLast(y.ops) && TermsLast(z.ops)
    ensures Clean(fn) <==> Clean(fn')
  {
    var l := fn.nextLabel;
    FourKept(fn, fn', b, ops, x, y, z);
    FourAre(fn, fn', b, ops, x, y, z);
    CleanUpdate(fn, fn', b, {l, l + 1, l + 2});
  }

  lemma EntryClean(fn: Func)
    requires FuncOk(fn)
    ensures Clean(fn) <==> Clean(RewriteEntry(fn))
  {
    var fn' := RewriteEntry(fn);
    assert TermsLast(fn'.blocks[fn.nextLabel].ops);
    assert forall l: Label :: l in fn.blocks ==> l in fn'.blocks && fn'.blocks[l] == fn.blocks[l];
    assert forall l: Label :: l in fn'.blocks && l != fn.nextLabel ==> l in fn.blocks;
  }
}

/** The dialect conversion as it is carried out: rewrites performed on mutable blocks, driven over the
    ops of a function in pre-order until only LLVM-dialect ops are left. */
module KalConvert {
  import opened Options
  import opened KalArith
  import opened KalIR
  import opened KalToLlvm
  import opened KalToLlvmCorrect
  import opened KalTerminators
  import opened KalConvertSteps

  /** The blocks with the ops of block `b` replaced. */
  function WithOps(blocks: map<Label, Block>, b: Label, ops: seq<Op>): map<Label, Block>
    requires b in blocks
  {
    blocks[b := blocks[b].(ops := ops)]
  }

  /** Labels from `nextLabel` on are unused. */
  ghost predicate LabelsBelow(fn: Func) {
    (forall l: Label :: l in fn.blocks ==> l < fn.nextLabel) && (forall l: Label :: l in fn.layout ==> l < fn.nextLabel)
  }

  class Converter {
    var entry: Label
    var blocks: map<Label, Block>
    var layout: seq<Label>
    var nextLabel: Label
    var nextVid: Vid

    constructor (fn: Func)
      ensures Body() == fn
    {
      entry, blocks, layout, nextLabel, nextVid := fn.entry, fn.blocks, fn.layout, fn.nextLabel, fn.nextVid;
    }

    function Body(): Func
      reads this
    {
      Func(entry, blocks, layout, nextLabel, nextVid)
    }

    method NewValue() returns (v: Vid)
      modifies this`nextVid
      ensures v == old(nextVid) && nextVid == v + 1
    {
      v := nextVid;
      nextVid := nextVid + 1;
    }

    method NewLabel() returns (l: Label)
      modifies this`nextLabel
      ensures l == old(nextLabel) && nextLabel == l + 1
    {
      l := nextLabel;
      nextLabel := nextLabel + 1;
    }

    /** Inserts an op before position `i` of block `b`. */
    method InsertOp(b: Label, i: nat, op: Op)
      requires b in blocks && i <= |blocks[b].ops|
      modifies this`blocks
      ensures blocks == WithOps(old(blocks), b, old(blocks)[b].ops[..i] + [op] + old(blocks)[b].ops[i..])
    {
      blocks := blocks[b := blocks[b].(ops := blocks[b].ops[..i] + [op] + blocks[b].ops[i..])];
    }

    method AppendOp(b: Label, op: Op)
      requires b in blocks
      modifies this`blocks
      ensures blocks == WithOps(old(blocks), b, old(blocks)[b].ops + [op])
    {
      blocks := blocks[b := blocks[b].(ops := blocks[b].ops + [op])];
    }

    method EraseOp(b: Label, i: nat)
      requires b in blocks && i < |blocks[b].ops|
      modifies this`blocks
      ensures blocks == WithOps(old(blocks), b, old(blocks)[b].ops[..i] + old(blocks)[b].ops[i + 1..])
    {
      blocks := blocks[b := blocks[b].(ops := blocks[b].ops[..i] + blocks[b].ops[i + 1..])];
    }

    /** Puts a block with label `l` after block `after`. */
    method PlaceBlock(l: Label, after: Label, ops: seq<Op>)
      modifies this`blocks, this`layout
      ensures blocks == old(blocks)[l := Block([], ops)] && layout == InsertAfter(old(layout), after, [l])
    {
      blocks := blocks[l := Block([], ops)];
      layout := InsertAfter(layout, after, [l]);
    }

    /** Splits block `b` at position `i`: the ops from there on move, one by one, to a new block after it. */
    method SplitBlock(b: Label, i: nat) returns (l: Label)
      requires b in blocks && i <= |blocks[b].ops| && nextLabel !in blocks
      modifies this`blocks, this`layout, this`nextLabel
      ensures l == old(nextLabel) && nextLabel == l + 1 && layout == InsertAfter(old(layout), b, [l])
      ensures blocks == WithOps(old(blocks), b, old(blocks)[b].ops[..i])[l := Block([], old(blocks)[b].ops[i..])]
    {
      l := NewLabel();
      PlaceBlock(l, b, []);
      ghost var all := old(blocks)[b].ops;
      ghost var moved: nat := 0;
      assert all == all[..i] + all[i..] && all[i..i] == [];
      while i < |blocks[b].ops|
        invariant i + moved <= |all|
        invariant l != b && l == old(nextLabel) && nextLabel == l + 1 && layout == InsertAfter(old(layout), b, [l])
        invariant blocks == WithOps(old(blocks), b, all[..i] + all[i + moved..])[l := Block([], all[i..i + moved])]
        decreases |blocks[b].ops|
      {
        MoveOp(b, i, l);
        assert all[..i] + all[i + moved + 1..] == (all[..i] + all[i + moved..])[..i] + (all[..i] + all[i + moved..])[i + 1..];
        assert all[i..i + moved] + [all[i + moved]] == all[i..i + moved + 1];
        moved := moved + 1;
      }
      assert all[..i] + all[i + moved..] == all[..i] && all[i..i + moved] == all[i..];
    }

    /** Moves one op to the end of another block. */
    method MoveOp(b: Label, i: nat, l: Label)
      requires b in blocks && l in blocks && b != l && i < |blocks[b].ops|
      modifies this`blocks
      ensures blocks == WithOps(WithOps(old(blocks), b, old(blocks)[b].ops[..i] + old(blocks)[b].ops[i + 1..]),
                                l, old(blocks)[l].ops + [old(blocks)[b].ops[i]])
    {
      var op := blocks[b].ops[i];
      EraseOp(b, i);
      AppendOp(l, op);
    }

    /** Inserts ops one after another from position `i` on. */
    method InsertOps(b: Label, i: nat, new_: seq<Op>)
      requires b in blocks && i <= |blocks[b].ops|
      modifies this`blocks
      ensures blocks == WithOps(old(blocks), b, old(blocks)[b].ops[..i] + new_ + old(blocks)[b].ops[i..])
    {
      ghost var ops := blocks[b].ops;
      assert ops[..i] + new_[..0] + ops[i..] == ops;
      for k := 0 to |new_|
        invariant blocks == WithOps(old(blocks), b, ops[..i] + new_[..k] + ops[i..])
      {
        InsertOp(b, i + k, new_[k]);
        var now := ops[..i] + new_[..k] + ops[i..];
        assert ops[..i] + new_[..k + 1] + ops[i..] == now[..i + k] + [new_[k]] + now[i + k..];
      }
      assert new_[..|new_|] == new_;
    }

    method ConvertLeaf(b: Label, i: nat) returns (count: nat)
      requires Site(Body(), b, i) && IsLeaf(blocks[b].ops[i])
      modifies this`blocks, this`nextVid
      ensures Body() == RewriteLeaf(old(Body()), b, i)
      ensures count == |LeafOps(old(blocks)[b].ops[i], old(nextVid))|
    {
      ghost var ops := blocks[b].ops;
      var t := NewValue();
      var new_ := LeafOps(blocks[b].ops[i], t);
      count := |new_|;
      InsertOps(b, i, new_);
      EraseOp(b, i + count);
      ghost var now := ops[..i] + new_ + ops[i..];
      assert ops[..i] + new_ + ops[i + 1..] == now[..i + count] + now[i + count + 1..];
    }

    /** Inserts a comparison of an integer with zero before position `i`. */
    method CompareWithZero(b: Label, i: nat, c: Vid) returns (cmp: Vid)
      requires b in blocks && i <= |blocks[b].ops|
      modifies this`blocks, this`nextVid
      ensures var n, ops := old(nextVid), old(blocks)[b].ops;
              && cmp == n + 1 && nextVid == n + 2
              && blocks == WithOps(old(blocks), b, ops[..i] + [LConst(n, 0), LICmp(n + 1, NE, c, n)] + ops[i..])
    {
      var zero := NewValue();
      cmp := NewValue();
      InsertOps(b, i, [LConst(zero, 0), LICmp(cmp, NE, c, zero)]);
    }

    method ConvertIf(b: Label, i: nat)
      requires LabelsBelow(Body()) && Site(Body(), b, i) && blocks[b].ops[i].KIf?
      requires blocks[b].ops[i].thn != [] && blocks[b].ops[i].els != []
      modifies this
      ensures Body() == RewriteIf(old(Body()), b, i)
    {
      var op := blocks[b].ops[i];
      // the blocks that the two regions hold
      var thenEntry := NewLabel();
      var elseEntry := NewLabel();
      var merge := BranchAway(b, i, op.c, thenEntry, elseEntry);
      EraseOp(merge, 0);
      assert blocks[merge].ops == old(blocks)[b].ops[i + 1..];
      // the regions' blocks, their yields turned into branches, go after the block
      PlaceBlock(thenEntry, b, Close(op.thn, merge));
      PlaceBlock(elseEntry, thenEntry, Close(op.els, merge));
      ThreeInserts(old(layout), b, thenEntry, elseEntry, merge);
    }

    /** Splits a block at position `i` and ends its first half with a branch on `c`. */
    method BranchAway(b: Label, i: nat, c: Vid, thenEntry: Label, elseEntry: Label) returns (merge: Label)
      requires b in blocks && i <= |blocks[b].ops| && nextLabel !in blocks && elseEntry == thenEntry + 1
      modifies this`blocks, this`layout, this`nextLabel, this`nextVid
      ensures merge == old(nextLabel) && nextLabel == merge + 1 && nextVid == old(nextVid) + 2
      ensures layout == InsertAfter(old(layout), b, [merge])
      ensures var ops := old(blocks)[b].ops;
              blocks == WithOps(old(blocks), b, ops[..i] + BranchOnIf(c, old(nextVid), thenEntry))[merge := Block([], ops[i..])]
    {
      ghost var ops, n := blocks[b].ops, nextVid;
      var cmp := CompareWithZero(b, i, c);
      merge := SplitAfterTwo(b, i, ops, LConst(n, 0), LICmp(n + 1, NE, c, n));
      AppendOp(b, LCondBr(cmp, thenEntry, elseEntry));
      assert blocks[b].ops == ops[..i] + BranchOnIf(c, n, thenEntry);
    }

    /** Splits a block behind two ops that were just inserted. */
    method SplitAfterTwo(b: Label, i: nat, ghost ops: seq<Op>, ghost x: Op, ghost y: Op) returns (l: Label)
      requires b in blocks && i <= |ops| && blocks[b].ops == ops[..i] + [x, y] + ops[i..] && nextLabel !in blocks
      modifies this`blocks, this`layout, this`nextLabel
      ensures l == old(nextLabel) && nextLabel == l + 1 && layout == InsertAfter(old(layout), b, [l])
      ensures blocks == WithOps(old(blocks), b, ops[..i] + [x, y])[l := Block([], ops[i..])]
    {
      l := SplitBlock(b, i + 2);
      assert (ops[..i] + [x, y] + ops[i..])[..i + 2] == ops[..i] + [x, y];
      assert (ops[..i] + [x, y] + ops[i..])[i + 2..] == ops[i..];
    }

    method ConvertWhile(b: Label, i: nat)
      requires LabelsBelow(Body()) && Site(Body(), b, i) && blocks[b].ops[i].KWhile?
      requires blocks[b].ops[i].body != []
      modifies this
      ensures Body() == RewriteWhile(old(Body()), b, i)
    {
      var op := blocks[b].ops[i];
      // the block that the region holds
      var bodyEntry := NewLabel();
      var exit := SplitBlock(b, i);
      EraseOp(exit, 0);
      assert blocks[exit].ops == old(blocks)[b].ops[i + 1..];
      var header := NewLabel();
      PlaceBlock(header, b, []);
      AppendOp(b, LBr(header, []));
      FillHeader(header, op.p, bodyEntry, exit);
      // the region's block, its yield turned into the back edge, goes after the header
      PlaceBlock(bodyEntry, header, Close(op.body, header));
      ThreeInserts(old(layout), b, header, bodyEntry, exit);
    }

    /** The header of a loop reads the condition's slot and branches on it. */
    method FillHeader(header: Label, p: Vid, bodyEntry: Label, exit: Label)
      requires header in blocks && blocks[header] == Block([], []) && exit == bodyEntry + 1
      modifies this`blocks, this`nextVid
      ensures blocks == old(blocks)[header := Block([], Header(p, old(nextVid), bodyEntry))] && nextVid == old(nextVid) + 3
    {
      var cond := NewValue();
      AppendOp(header, LLoad(cond, p));
      var cmp := CompareWithZero(header, 1, cond);
      AppendOp(header, LCondBr(cmp, bodyEntry, exit));
      assert blocks[header].ops == Header(p, cond, bodyEntry);
    }

    method ConvertEntry()
      requires entry in blocks
      modifies this
      ensures Body() == RewriteEntry(old(Body()))
    {
      var l := NewLabel();
      var arity := |blocks[entry].params|;
      ghost var all := seq(arity, i requires 0 <= i => old(nextVid) + i);
      var params := [];
      while |params| < arity
        invariant |params| <= arity && nextVid == old(nextVid) + |params|
        invariant params == all[..|params|]
        invariant unchanged(this`blocks, this`layout, this`entry) && nextLabel == l + 1
      {
        var v := NewValue();
        params := params + [v];
      }
      assert params == all;
      blocks := blocks[l := Block(params, [LBr(entry, params)])];
      layout := [l] + layout;
      entry := l;
    }

    /** Converts the whole function: the function op first, then op by op in the order of the layout. */
    method Convert()
      requires FuncOk(Body()) && LayoutOk(Body())
      modifies this
      ensures FuncOk(Body()) && LayoutOk(Body()) && Flat(Body()) && Equivalent(old(Body()), Body())
      ensures Clean(old(Body())) <==> Clean(Body())
    {
      ghost var fn0 := Body();
      EquivalentStart(fn0);
      ConvertEntry();
      EquivalentNext(fn0, fn0, Body());
      OneRewriteOk(fn0, Body());
      EntryLayout(fn0);
      EntryClean(fn0);
      var li := 0;
      while li < |layout|
        invariant Stage(fn0, Body(), li)
        decreases FuncWeight(Body()), |layout| - li
      {
        ConvertBlock(li, fn0);
        li := li + 1;
      }
      forall b | b in blocks ensures AllLlvm(blocks[b].ops) {
        assert b in layout;
        var j :| 0 <= j < |layout| && layout[j] == b;
      }
    }

    /** Converts the ops of one block, up to the op whose rewrite ends the block. */
    method ConvertBlock(li: nat, ghost fn0: Func)
      requires Stage(fn0, Body(), li) && li < |layout|
      modifies this
      ensures Stage(fn0, Body(), li + 1)
      ensures FuncWeight(Body()) < FuncWeight(old(Body())) || Body() == old(Body())
    {
      var b := layout[li];
      assert b in layout;
      var i := 0;
      while i < |blocks[b].ops|
        invariant Stage(fn0, Body(), li) && li < |layout| && layout[li] == b
        invariant b in blocks && 0 <= i <= |blocks[b].ops| && AllLlvm(blocks[b].ops[..i])
        invariant FuncWeight(Body()) < FuncWeight(old(Body())) || Body() == old(Body())
        decreases FuncWeight(Body()), |blocks[b].ops| - i
      {
        i := ConvertAt(li, i, fn0);
      }
      assert blocks[b].ops[..i] == blocks[b].ops;
    }

    /** Converts the op at position `i` and says where to go on. */
    method ConvertAt(li: nat, i: nat, ghost fn0: Func) returns (i': nat)
      requires Stage(fn0, Body(), li) && li < |layout|
      requires Site(Body(), layout[li], i) && AllLlvm(blocks[layout[li]].ops[..i])
      modifies this
      ensures Stage(fn0, Body(), li) && li < |layout| && layout[li] == old(layout[li])
      ensures var b := layout[li]; b in blocks && i' <= |blocks[b].ops| && AllLlvm(blocks[b].ops[..i'])
      ensures FuncWeight(Body()) < FuncWeight(old(Body())) || (Body() == old(Body()) && i' > i)
    {
      var b := layout[li];
      var op := blocks[b].ops[i];
      ghost var fn := Body();
      SiteFacts(fn, b, i);
      if !(IsLeaf(op) || op.KIf? || op.KWhile?) {
        assert IsLlvm(op);
        i' := i + 1;
        assert blocks[b].ops[..i'] == blocks[b].ops[..i] + [op];
        return;
      }
      if op.KIf? {
        ConvertIf(b, i);
        i' := |blocks[b].ops|;
      } else if op.KWhile? {
        ConvertWhile(b, i);
        i' := |blocks[b].ops|;
      } else {
        var count := ConvertLeaf(b, i);
        i' := i + count;
      }
      PrefixDone(fn, b, i, Body(), i');
      StageNext(fn0, fn, li, i, Body());
    }
  }
}

/** The IR context: arenas of ops, regions and blocks, updated in place. Creating, editing, linking and
    erasing IR keeps the def-use chains two-way, the containment forest consistent, and all ids fresh. */
module IrContext {
  import opened SeqLists
  import opened DefUse
  import opened UseChain
  import opened IrForest
  import opened IrState

  /** The operands name the given definitions, in order. */
  predicate Names<D(==)>(os: seq<Operand<D>>, ds: seq<D>) {
    |os| == |ds| && forall i :: 0 <= i < |os| ==> os[i].def == ds[i]
  }

  /** The op has operands with these names, and no other op's operands changed. */
  ghost predicate GivesOperands<D>(before: Operands<D>, after: Operands<D>, o: OpPtr, names: seq<D>) {
    o in after && Names(after[o], names) && after == before[o := after[o]]
  }

  lemma SelfPut<D>(operands: Operands<D>, o: OpPtr)
    requires o in operands
    ensures operands[o := operands[o]] == operands
  {
  }

  class Context {
    var children: Children
    var parent: Parents
    var defs: map<Node, seq<nat>>
    const values: Chain<Value>
    const succs: Chain<BlockId>
    var nextKey: nat
    var nextVal: nat
    var nextUse: nat
    ghost var rank: Ranks
    /** The node that each value id was created for. */
    ghost var definers: map<nat, Node>

    function Snap(): State
      reads this, values, succs
    {
      State(children, parent, defs, values.operands, values.uses, succs.operands, succs.uses)
    }

    ghost function GetIds(): Ids
      reads this, values, succs
    {
      Ids(rank, definers, values.owners, succs.owners, nextKey, nextVal, nextUse)
    }

    ghost predicate Valid()
      reads this, values, succs
    {
      values.Valid() && succs.Valid() && ContextOk(Snap(), GetIds())
    }

    constructor ()
      ensures Valid() && Snap() == EmptyState && fresh(values) && fresh(succs)
    {
      EmptyOk();
      children, parent, defs, rank, definers := map[], map[], map[], map[], map[];
      nextKey, nextVal, nextUse := 0, 0, 0;
      values := new Chain();
      succs := new Chain();
    }

    // ----- creating -----

    /** Puts a new node into its arena. */
    method Alloc(n: Node)
      requires Valid() && n.id == nextKey
      modifies this, values, succs
      ensures Valid() && Snap() == WithNode(old(Snap()), n)
      ensures GetIds() == old(GetIds()).(rank := old(rank)[n := 0], nextKey := n.id + 1)
    {
      WithNodeOk(Snap(), GetIds(), n);
      AllocLists(n);
      AllocNode(n);
    }

    /** The same, seen from everything else. */
    method AllocNew(n: Node)
      requires Valid() && n.id == nextKey
      modifies this, values, succs
      ensures Valid() && n !in old(children) && KeptBut(old(Snap()), Snap(), n)
      ensures children == old(children)[n := []] && parent == old(parent)[n := Root] && defs == old(defs)[n := []]
      ensures values.operands == (if n.OpNode? then old(values.operands)[n.id := []] else old(values.operands)) && values.uses == old(values.uses)
      ensures succs.operands == if n.OpNode? then old(succs.operands)[n.id := []] else old(succs.operands)
      ensures n.OpNode? ==> succs.uses == old(succs.uses)
    {
      assert n !in children;
      KeptNew(Snap(), n);
      Alloc(n);
    }

    method AllocNode(n: Node)
      modifies this
      ensures Snap() == old(Snap()).(children := old(children)[n := []], parent := old(parent)[n := Root], defs := old(defs)[n := []])
      ensures GetIds() == old(GetIds()).(rank := old(rank)[n := 0], nextKey := n.id + 1)
    {
      children := children[n := []];
      parent := parent[n := Root];
      defs := defs[n := []];
      nextKey := n.id + 1;
      rank := rank[n := 0];
    }

    method AllocLists(n: Node)
      requires values.Valid() && succs.Valid()
      requires n.OpNode? ==> n.id !in values.operands && n.id !in succs.operands
      requires n.BlockNode? ==> n.id !in succs.uses
      modifies values, succs
      ensures values.Valid() && succs.Valid() && GetIds() == old(GetIds())
      ensures Snap() == WithLists(old(Snap()), n)
    {
      if n.OpNode? {
        values.AddUser(n.id);
        succs.AddUser(n.id);
      } else if n.BlockNode? {
        succs.AddDef(n.id);
      }
    }

    /** A new result of an op, or argument of a block, at position `i`. */
    method InsertDef(n: Node, i: nat) returns (v: Value)
      requires Valid() && n in children && i <= |defs[n]| && !n.RegionNode?
      modifies this, values
      ensures Valid() && v == Value(n, old(nextVal)) && Snap() == WithDef(old(Snap()), n, i, v.uid)
      ensures GetIds() == WithValueId(old(GetIds()), n)
      ensures SameBut(old(defs), defs, n) && IsInserted(old(defs)[n], defs[n], i, v.uid) && values.uses == old(values.uses)[v := {}]
    {
      v := Value(n, nextVal);
      WithDefOk(Snap(), GetIds(), n, i);
      DefIs(Snap(), n, i, nextVal);
      AddDefinition(v);
      SetDefs(n, defs[n][..i] + [v.uid] + defs[n][i..]);
      NewValueId(n);
    }

    method AddDefinition(v: Value)
      requires values.Valid() && v !in values.uses
      modifies values
      ensures values.Valid() && GetIds() == old(GetIds()) && Snap() == old(Snap()).(uses := old(values.uses)[v := {}])
    {
      values.AddDef(v);
    }

    method SetDefs(n: Node, ds: seq<nat>)
      modifies this
      ensures Snap() == old(Snap()).(defs := old(defs)[n := ds]) && GetIds() == old(GetIds())
    {
      defs := defs[n := ds];
    }

    method NewValueId(n: Node)
      modifies this
      ensures Snap() == old(Snap())
      ensures GetIds() == WithValueId(old(GetIds()), n)
    {
      definers := definers[nextVal := n];
      nextVal := nextVal + 1;
    }

    method NewUseId() returns (uid: nat)
      modifies this
      ensures uid == old(nextUse) && Snap() == old(Snap()) && GetIds() == old(GetIds()).(nextUse := uid + 1)
    {
      uid := nextUse;
      nextUse := nextUse + 1;
    }

    /** Removes an unused result or argument. */
    method RemoveDef(n: Node, i: nat)
      requires Valid() && n in children && i < |defs[n]| && Value(n, defs[n][i]) in values.uses && values.uses[Value(n, defs[n][i])] == {}
      modifies this, values
      ensures Valid() && GetIds() == old(GetIds()) && Snap() == WithoutDef(old(Snap()), n, i)
      ensures SameBut(old(defs), defs, n) && IsRemoved(old(defs)[n], defs[n], i)
    {
      WithoutDefOk(Snap(), GetIds(), n, i);
      NoDefIs(Snap(), n, i);
      values.RemoveDef(Value(n, defs[n][i]));
      SetDefs(n, defs[n][..i] + defs[n][i + 1..]);
    }

    // ----- operands and successors -----

    method InsertOperand(o: OpPtr, i: nat, d: Value)
      requires Valid() && o in values.operands && i <= |values.operands[o]| && d in values.uses
      modifies this, values
      ensures GetIds() == WithOperandId(old(GetIds()), o)
      ensures Snap() == WithOperand(old(Snap()), o, i, d, old(nextUse))
      ensures Valid()
      ensures SameBut(old(values.operands), values.operands, o)
      ensures IsInserted(old(values.operands)[o], values.operands[o], i, Operand(d, old(nextUse)))
    {
      WithOperandOk(Snap(), GetIds(), o, i, d);
      OperandIs(Snap(), o, i, d, nextUse);
      TrackOperand(o, i, d);
    }

    method TrackOperand(o: OpPtr, i: nat, d: Value)
      requires values.Valid() && o in values.operands && i <= |values.operands[o]| && d in values.uses && nextUse !in values.owners
      modifies this, values
      ensures values.Valid() && succs.Valid() == old(succs.Valid()) && GetIds() == WithOperandId(old(GetIds()), o)
      ensures Snap() == WithOperand(old(Snap()), o, i, d, old(nextUse))
    {
      var uid := NewUseId();
      values.InsertOperand(o, i, d, uid);
    }

    method RemoveOperand(o: OpPtr, i: nat) returns (d: Value)
      requires Valid() && o in values.operands && i < |values.operands[o]|
      modifies values
      ensures GetIds() == old(GetIds()) && d == old(values.operands)[o][i].def && d in old(values.uses)
      ensures Snap() == WithoutOperand(old(Snap()), o, i)
      ensures Valid()
      ensures SameBut(old(values.operands), values.operands, o) && IsRemoved(old(values.operands)[o], values.operands[o], i)
    {
      OperandTracked(values.operands, values.uses, values.owners, o, i);
      ghost var t := WithoutOperand(Snap(), o, i);
      NoOperandIs(Snap(), o, i);
      WithUsesOk(Snap(), GetIds(), t.operands, t.uses);
      d := UntrackOperand(o, i);
    }

    method UntrackOperand(o: OpPtr, i: nat) returns (d: Value)
      requires values.Valid() && o in values.operands && i < |values.operands[o]| && values.operands[o][i].def in values.uses
      modifies values
      ensures values.Valid() && GetIds() == old(GetIds()) && d == old(values.operands)[o][i].def
      ensures Snap() == WithoutOperand(old(Snap()), o, i)
    {
      d := values.RemoveOperand(o, i);
    }

    method InsertSuccessor(o: OpPtr, i: nat, d: BlockId)
      requires Valid() && o in succs.operands && i <= |succs.operands[o]| && d in succs.uses
      modifies this, succs
      ensures GetIds() == WithSuccessorId(old(GetIds()), o)
      ensures Snap() == WithSuccessor(old(Snap()), o, i, d, old(nextUse))
      ensures Valid()
      ensures SameBut(old(succs.operands), succs.operands, o)
      ensures IsInserted(old(succs.operands)[o], succs.operands[o], i, Operand(d, old(nextUse)))
    {
      WithSuccessorOk(Snap(), GetIds(), o, i, d);
      SuccessorIs(Snap(), o, i, d, nextUse);
      TrackSuccessor(o, i, d);
    }

    method TrackSuccessor(o: OpPtr, i: nat, d: BlockId)
      requires succs.Valid() && o in succs.operands && i <= |succs.operands[o]| && d in succs.uses && nextUse !in succs.owners
      modifies this, succs
      ensures succs.Valid() && values.Valid() == old(values.Valid()) && GetIds() == WithSuccessorId(old(GetIds()), o)
      ensures Snap() == WithSuccessor(old(Snap()), o, i, d, old(nextUse))
    {
      var uid := NewUseId();
      succs.InsertOperand(o, i, d, uid);
    }

    method RemoveSuccessor(o: OpPtr, i: nat) returns (d: BlockId)
      requires Valid() && o in succs.operands && i < |succs.operands[o]|
      modifies succs
      ensures GetIds() == old(GetIds()) && d == old(succs.operands)[o][i].def && d in old(succs.uses)
      ensures Snap() == WithoutSuccessor(old(Snap()), o, i)
      ensures Valid()
      ensures SameBut(old(succs.operands), succs.operands, o) && IsRemoved(old(succs.operands)[o], succs.operands[o], i)
    {
      OperandTracked(succs.operands, succs.uses, succs.owners, o, i);
      ghost var t := WithoutSuccessor(Snap(), o, i);
      NoSuccessorIs(Snap(), o, i);
      WithPredsOk(Snap(), GetIds(), t.successors, t.preds);
      d := UntrackSuccessor(o, i);
    }

    method UntrackSuccessor(o: OpPtr, i: nat) returns (d: BlockId)
      requires succs.Valid() && o in succs.operands && i < |succs.operands[o]| && succs.operands[o][i].def in succs.uses
      modifies succs
      ensures succs.Valid() && GetIds() == old(GetIds()) && d == old(succs.operands)[o][i].def
      ensures Snap() == WithoutSuccessor(old(Snap()), o, i)
    {
      d := succs.RemoveOperand(o, i);
    }

    /** The replaced operand's use is dropped once the new one is in place. */
    method ReplaceOperand(o: OpPtr, i: nat, d: Value)
      requires Valid() && o in values.operands && i < |values.operands[o]| && d in values.uses
      modifies this, values
      ensures GetIds() == WithOperandId(old(GetIds()), o) && old(values.operands)[o][i].def in old(values.uses)
      ensures Snap() == ReplacedOperand(old(Snap()), o, i, d, old(nextUse))
      ensures Valid()
      ensures SameBut(old(values.operands), values.operands, o)
      ensures IsReplaced(old(values.operands)[o], values.operands[o], i, Operand(d, old(nextUse)))
    {
      OperandTracked(values.operands, values.uses, values.owners, o, i);
      ReplacedOperandOk(Snap(), GetIds(), o, i, d);
      SwapOperand(o, i, d);
    }

    method SwapOperand(o: OpPtr, i: nat, d: Value)
      requires values.Valid() && o in values.operands && i < |values.operands[o]| && d in values.uses && nextUse !in values.owners
      requires values.operands[o][i].def in values.uses
      modifies this, values
      ensures values.Valid() && succs.Valid() == old(succs.Valid()) && GetIds() == WithOperandId(old(GetIds()), o)
      ensures Snap() == ReplacedOperand(old(Snap()), o, i, d, old(nextUse))
    {
      var uid := NewUseId();
      values.ReplaceOperand(o, i, d, uid);
    }

    /** The same for successors. */
    method ReplaceSuccessor(o: OpPtr, i: nat, d: BlockId)
      requires Valid() && o in succs.operands && i < |succs.operands[o]| && d in succs.uses
      modifies this, succs
      ensures GetIds() == WithSuccessorId(old(GetIds()), o) && old(succs.operands)[o][i].def in old(succs.uses)
      ensures Snap() == ReplacedSuccessor(old(Snap()), o, i, d, old(nextUse))
      ensures Valid()
      ensures SameBut(old(succs.operands), succs.operands, o)
      ensures IsReplaced(old(succs.operands)[o], succs.operands[o], i, Operand(d, old(nextUse)))
    {
      OperandTracked(succs.operands, succs.uses, succs.owners, o, i);
      ReplacedSuccessorOk(Snap(), GetIds(), o, i, d);
      SwapSuccessor(o, i, d);
    }

    method SwapSuccessor(o: OpPtr, i: nat, d: BlockId)
      requires succs.Valid() && o in succs.operands && i < |succs.operands[o]| && d in succs.uses && nextUse !in succs.owners
      requires succs.operands[o][i].def in succs.uses
      modifies this, succs
      ensures succs.Valid() && values.Valid() == old(values.Valid()) && GetIds() == WithSuccessorId(old(GetIds()), o)
      ensures Snap() == ReplacedSuccessor(old(Snap()), o, i, d, old(nextUse))
    {
      var uid := NewUseId();
      succs.ReplaceOperand(o, i, d, uid);
    }

    /** Points the uses of `v` that satisfy `pred` to `w`. */
    method ReplaceSomeUses(v: Value, pred: Use -> bool, w: Value)
      requires Valid() && v in values.uses && w in values.uses
      modifies values
      ensures Valid() && GetIds() == old(GetIds())
      ensures var os, us, moved := old(values.operands), old(values.uses), Touched(old(values.uses), v, pred);
              Snap() == WithUses(old(Snap()), MovedOperands(os, v, moved, w), MovedUses(us, v, moved, w))
    {
      ghost var moved := Touched(values.uses, v, pred);
      WithUsesOk(Snap(), GetIds(), MovedOperands(values.operands, v, moved, w), MovedUses(values.uses, v, moved, w));
      MoveUses(v, pred, w);
    }

    method MoveUses(v: Value, pred: Use -> bool, w: Value)
      requires values.Valid() && v in values.uses && w in values.uses
      modifies values
      ensures values.Valid() && GetIds() == old(GetIds())
      ensures var os, us, moved := old(values.operands), old(values.uses), Touched(old(values.uses), v, pred);
              Snap() == WithUses(old(Snap()), MovedOperands(os, v, moved, w), MovedUses(us, v, moved, w))
    {
      values.ReplaceSomeUses(v, pred, w);
    }

    /** Retargets the branches to `b` that satisfy `pred` to `c`. */
    method RetargetSomePreds(b: BlockId, pred: Use -> bool, c: BlockId)
      requires Valid() && b in succs.uses && c in succs.uses
      modifies succs
      ensures GetIds() == old(GetIds())
      ensures var os, us, moved := old(succs.operands), old(succs.uses), Touched(old(succs.uses), b, pred);
              Snap() == WithPreds(old(Snap()), MovedOperands(os, b, moved, c), MovedUses(us, b, moved, c))
      ensures Valid()
    {
      ghost var moved := Touched(succs.uses, b, pred);
      WithPredsOk(Snap(), GetIds(), MovedOperands(succs.operands, b, moved, c), MovedUses(succs.uses, b, moved, c));
      MovePreds(b, pred, c);
    }

    method MovePreds(b: BlockId, pred: Use -> bool, c: BlockId)
      requires succs.Valid() && b in succs.uses && c in succs.uses
      modifies succs
      ensures succs.Valid() && GetIds() == old(GetIds())
      ensures var os, us, moved := old(succs.operands), old(succs.uses), Touched(old(succs.uses), b, pred);
              Snap() == WithPreds(old(Snap()), MovedOperands(os, b, moved, c), MovedUses(us, b, moved, c))
    {
      succs.ReplaceSomeUses(b, pred, c);
    }

    // ----- containment -----

    /** Puts a node without owner at position `i` of another node's list. Nothing stops it from being put under something
        inside itself, which makes a cycle. */
    method Insert(c: Node, n: Node, i: nat)
      requires Valid() && MayLink(Snap(), c, n, i)
      modifies this
      ensures Snap() == WithLink(old(Snap()), c, n, i) && GetIds() == old(GetIds()).(rank := Lifted(old(children), old(rank), c))
      ensures Valid() <==> n !in Sub(old(children), old(rank), c)
      ensures SameBut(old(children), children, n) && IsInserted(old(children)[n], children[n], i, c)
    {
      LinkIs(Snap(), c, n, i);
      WithLinkIff(Snap(), GetIds(), c, n, i);
      SetLink(c, n, children[n][..i] + [c] + children[n][i..], Lifted(children, rank, c));
      ValidIff();
    }

    method SetLink(c: Node, n: Node, cs: seq<Node>, ghost r: Ranks)
      modifies this
      ensures Snap() == old(Snap()).(children := old(children)[n := cs], parent := old(parent)[c := Under(n)])
      ensures GetIds() == old(GetIds()).(rank := r)
    {
      children := children[n := cs];
      parent := parent[c := Under(n)];
      rank := r;
    }

    /** Takes a node out of its owner's list. */
    method Remove(n: Node)
      requires Valid() && n in children && parent[n].Under? && parent[n].owner in children
      modifies this
      ensures Snap() == Unlinked(old(Snap()), n) && GetIds() == old(GetIds())
      ensures Valid()
      ensures var owner := old(parent)[n].owner;
              SameBut(old(children), children, owner) && IsRemoved(old(children)[owner], children[owner], IndexOf(old(children)[owner], n))
    {
      assert IsListed(children, parent, n);
      WithoutIs(children[parent[n].owner], n);
      UnlinkedOk(Snap(), GetIds(), n);
      Unlink(n);
    }

    /** A new region at the end of an op's regions. */
    method AddRegion(o: OpPtr) returns (r: Node)
      requires Valid() && OpNode(o) in children
      modifies this, values, succs
      ensures r == RegionNode(old(nextKey)) && OpNode(o) in old(children)
      ensures Snap() == WithLink(WithNode(old(Snap()), r), r, OpNode(o), |old(children)[OpNode(o)]|)
      ensures values.owners == old(values.owners) && succs.owners == old(succs.owners)
      ensures Valid()
    {
      r := RegionNode(nextKey);
      Alloc(r);
      NewRegionOutside(children, rank, r, OpNode(o));
      Insert(r, OpNode(o), |children[OpNode(o)]|);
    }

    /** A new block with `n` arguments, in no region yet. */
    method NewBlock(n: nat) returns (b: Node)
      requires Valid()
      modifies this, values, succs
      ensures Valid() && b == BlockNode(old(nextKey)) && b in children && parent[b] == Root && |defs[b]| == n
      ensures children == old(children)[b := []] && parent == old(parent)[b := Root]
      ensures values.operands == old(values.operands) && succs.operands == old(succs.operands)
      ensures KeptBut(old(Snap()), Snap(), b) && b !in old(children)
    {
      b := BlockNode(nextKey);
      ghost var s0 := Snap();
      AllocNew(b);
      ghost var s1 := Snap();
      AddDefs(b, n);
      KeptThen(s0, s1, Snap(), b);
    }

    /** Moves a region to the end of the regions of another op; a region that is there already stays where it is. Nothing
        stops it from being moved to an op inside it, which makes a cycle. */
    method MoveRegion(r: Node, n: Node)
      requires Valid() && MayMove(Snap(), r, n)
      modifies this
      ensures old(parent)[r].owner in old(children) && r in old(children)[old(parent)[r].owner]
      ensures Snap() == MovedRegion(old(Snap()), r, n)
      ensures Valid() <==> n !in Sub(old(children), old(rank), r)
      ensures IsMoved(old(children), children, old(parent)[r].owner, r, n)
    {
      OwnerOutside(children, parent, rank, r);
      if parent[r].owner == n { return; }
      MovedIs(Snap(), r, n);
      ghost var rank' := MovedRegionIff(Snap(), GetIds(), r, n);
      RelinkRegion(r, n, rank');
      ValidIff();
    }

    method RelinkRegion(r: Node, n: Node, ghost rank': Ranks)
      requires r in parent && parent[r].Under? && parent[r].owner in children && r in children[parent[r].owner] && n in children
      requires parent[r].owner != n
      modifies this
      ensures Snap() == MovedRegion(old(Snap()), r, n) && GetIds() == old(GetIds()).(rank := rank')
    {
      var src := parent[r].owner;
      var i := FindRegion(children[src], r);
      SetRegions(src, children[src][i := children[src][|children[src]| - 1]][..|children[src]| - 1]);
      SetLink(r, n, children[n] + [r], rank');
    }

    method FindRegion(regions: seq<Node>, r: Node) returns (i: nat)
      requires r in regions
      ensures i == IndexOf(regions, r)
    {
      i := 0;
      assert regions[0..] == regions;
      while regions[i] != r
        invariant i < |regions| && r in regions[i..] && IndexOf(regions, r) == i + IndexOf(regions[i..], r)
        decreases |regions| - i
      {
        assert regions[i..][1..] == regions[i + 1..];
        i := i + 1;
      }
    }

    method SetRegions(n: Node, cs: seq<Node>)
      modifies this
      ensures Snap() == old(Snap()).(children := old(children)[n := cs]) && GetIds() == old(GetIds())
    {
      children := children[n := cs];
    }

    /** A new op, in no block yet. */
    method NewOp(nres: nat, opds: seq<Value>, targets: seq<BlockId>, nregs: nat) returns (o: OpPtr)
      requires Valid() && (forall i :: 0 <= i < |opds| ==> opds[i] in values.uses) && (forall i :: 0 <= i < |targets| ==> targets[i] in succs.uses)
      modifies this, values, succs
      ensures Valid() && o == old(nextKey) && OpNode(o) in children && parent[OpNode(o)] == Root
      ensures |defs[OpNode(o)]| == nres && |children[OpNode(o)]| == nregs
      ensures o in values.operands && Names(values.operands[o], opds) && o in succs.operands && Names(succs.operands[o], targets)
      ensures values.operands == old(values.operands)[o := []][o := values.operands[o]]
      ensures succs.operands == old(succs.operands)[o := []][o := succs.operands[o]]
      ensures KeptBut(old(Snap()), Snap(), OpNode(o)) && OpNode(o) !in old(children)
    {
      ghost var s0 := Snap();
      o := AllocOp(nres);
      ghost var s1 := Snap();
      AddUses(o, opds, targets);
      ghost var s2 := Snap();
      AddRegions(o, nregs);
      KeptSame(s1, s2, OpNode(o));
      KeptThen(s0, s1, s2, OpNode(o));
      KeptThen(s0, s2, Snap(), OpNode(o));
    }

    /** An op with results only. */
    method AllocOp(nres: nat) returns (o: OpPtr)
      requires Valid()
      modifies this, values, succs
      ensures Valid() && o == old(nextKey) && OpNode(o) in children && parent[OpNode(o)] == Root && children[OpNode(o)] == []
      ensures OpNode(o) in defs && |defs[OpNode(o)]| == nres
      ensures values.operands == old(values.operands)[o := []] && succs.operands == old(succs.operands)[o := []]
      ensures succs.uses == old(succs.uses) && forall v :: v in old(values.uses) ==> v in values.uses
      ensures KeptBut(old(Snap()), Snap(), OpNode(o)) && OpNode(o) !in old(children)
    {
      o := nextKey;
      ghost var s0 := Snap();
      AllocNew(OpNode(o));
      ghost var s1 := Snap();
      AddDefs(OpNode(o), nres);
      KeptThen(s0, s1, Snap(), OpNode(o));
    }

    /** Results of a new op, or arguments of a new block. */
    method AddDefs(n: Node, count: nat)
      requires Valid() && n in children && n in defs && defs[n] == [] && !n.RegionNode?
      modifies this, values
      ensures KeptBut(old(Snap()), Snap(), n)
      ensures Valid() && children == old(children) && parent == old(parent) && n in defs && |defs[n]| == count
      ensures unchanged(succs) && values.operands == old(values.operands) && forall v :: v in old(values.uses) ==> v in values.uses
    {
      for i := 0 to count
        invariant Valid() && children == old(children) && parent == old(parent) && n in defs && |defs[n]| == i
        invariant forall m :: m in old(defs) && m != n ==> m in defs && defs[m] == old(defs)[m]
        invariant values.operands == old(values.operands) && forall v :: v in old(values.uses) ==> v in values.uses
      {
        AddDef(n, i);
      }
      KeptSame(old(Snap()), Snap(), n);
    }

    method AddDef(n: Node, i: nat)
      requires Valid() && n in children && n in defs && |defs[n]| == i && !n.RegionNode?
      modifies this, values
      ensures forall m :: m in old(defs) && m != n ==> m in defs && defs[m] == old(defs)[m]
      ensures Valid() && children == old(children) && parent == old(parent) && n in defs && |defs[n]| == i + 1
      ensures values.operands == old(values.operands) && forall v :: v in old(values.uses) ==> v in values.uses
    {
      var v := InsertDef(n, i);
    }

    method AddUses(o: OpPtr, opds: seq<Value>, targets: seq<BlockId>)
      requires Valid() && o in values.operands && values.operands[o] == [] && o in succs.operands && succs.operands[o] == []
      requires (forall i :: 0 <= i < |opds| ==> opds[i] in values.uses) && (forall i :: 0 <= i < |targets| ==> targets[i] in succs.uses)
      modifies this, values, succs
      ensures Valid() && children == old(children) && parent == old(parent) && defs == old(defs)
      ensures GivesOperands(old(values.operands), values.operands, o, opds)
      ensures GivesOperands(old(succs.operands), succs.operands, o, targets)
    {
      AddOperands(o, opds);
      AddSuccessors(o, targets);
    }

    method AddOperands(o: OpPtr, opds: seq<Value>)
      requires Valid() && o in values.operands && values.operands[o] == [] && forall i :: 0 <= i < |opds| ==> opds[i] in values.uses
      modifies this, values
      ensures Valid() && unchanged(this`children, this`parent, this`defs, succs)
      ensures GivesOperands(old(values.operands), values.operands, o, opds)
    {
      ghost var before, os := values.operands, values.operands[o];
      SelfPut(before, o);
      for i := 0 to |opds|
        invariant Valid() && children == old(children) && parent == old(parent) && defs == old(defs) && values.uses.Keys == old(values.uses).Keys
        invariant values.operands == before[o := os] && Names(os, opds[..i])
      {
        NamesNext(os, opds, i, nextUse);
        OverPut(before, o, os, Inserted(os, i, Operand(opds[i], nextUse)));
        os := Inserted(os, i, Operand(opds[i], nextUse));
        InsertOperand(o, i, opds[i]);
      }
      assert opds[..|opds|] == opds;
    }

    method AddSuccessors(o: OpPtr, targets: seq<BlockId>)
      requires Valid() && o in succs.operands && succs.operands[o] == [] && forall i :: 0 <= i < |targets| ==> targets[i] in succs.uses
      modifies this, succs
      ensures Valid() && unchanged(this`children, this`parent, this`defs, values)
      ensures GivesOperands(old(succs.operands), succs.operands, o, targets)
    {
      ghost var before, os := succs.operands, succs.operands[o];
      SelfPut(before, o);
      for i := 0 to |targets|
        invariant Valid() && children == old(children) && parent == old(parent) && defs == old(defs) && succs.uses.Keys == old(succs.uses).Keys
        invariant succs.operands == before[o := os] && Names(os, targets[..i])
      {
        NamesNext(os, targets, i, nextUse);
        OverPut(before, o, os, Inserted(os, i, Operand(targets[i], nextUse)));
        os := Inserted(os, i, Operand(targets[i], nextUse));
        InsertSuccessor(o, i, targets[i]);
      }
      assert targets[..|targets|] == targets;
    }

    method AddRegions(o: OpPtr, n: nat)
      requires Valid() && OpNode(o) in children && children[OpNode(o)] == []
      modifies this, values, succs
      ensures Valid() && OpNode(o) in children && |children[OpNode(o)]| == n
      ensures OpNode(o) in old(parent) && OpNode(o) in parent && parent[OpNode(o)] == old(parent)[OpNode(o)]
      ensures OpNode(o) in old(defs) && OpNode(o) in defs && defs[OpNode(o)] == old(defs)[OpNode(o)]
      ensures values.operands == old(values.operands) && succs.operands == old(succs.operands)
      ensures KeptBut(old(Snap()), Snap(), OpNode(o))
    {
      ghost var op, s0 := OpNode(o), Snap();
      KeptSame(s0, s0, op);
      for i := 0 to n
        invariant Valid() && op in children && |children[op]| == i && op in parent && parent[op] == old(parent)[op]
        invariant op in defs && defs[op] == old(defs)[op] && KeptBut(s0, Snap(), op)
        invariant values.operands == old(values.operands) && succs.operands == old(succs.operands)
      {
        AddOneRegion(o, s0);
      }
    }

    method AddOneRegion(o: OpPtr, ghost s0: State)
      requires Valid() && OpNode(o) in children && OpNode(o) in parent && OpNode(o) in defs && KeptBut(s0, Snap(), OpNode(o))
      modifies this, values, succs
      ensures Valid() && OpNode(o) in children && |children[OpNode(o)]| == |old(children)[OpNode(o)]| + 1
      ensures OpNode(o) in parent && parent[OpNode(o)] == old(parent)[OpNode(o)] && OpNode(o) in defs && defs[OpNode(o)] == old(defs)[OpNode(o)]
      ensures values.operands == old(values.operands) && succs.operands == old(succs.operands) && KeptBut(s0, Snap(), OpNode(o))
    {
      ghost var s := Snap();
      var r := AddRegion(o);
      KeptRegion(s, r, OpNode(o), |s.children[OpNode(o)]|);
      KeptThen(s0, s, Snap(), OpNode(o));
    }

    // ----- erasing -----

    /** Drops every use that a node or anything inside it holds: first its own, then, in order, those of the
        nodes that it owns. */
    method DropAllUses(n: Node)
      requires values.Valid() && succs.Valid() && Ranked(children, rank) && ArenasOk(Snap()) && n in children
      modifies values, succs
      ensures GetIds() == old(GetIds())
      ensures values.Valid() && succs.Valid() && Snap() == Dropped(old(Snap()), Sub(children, rank, n))
      decreases rank[n]
    {
      DropOwnUses(n);
      ghost var s0, done := old(Snap()), {n};
      var cs := children[n];
      assert cs[..0] == [];
      for i := 0 to |cs|
        invariant values.Valid() && succs.Valid() && GetIds() == old(GetIds()) && ArenasOk(Snap()) && Snap() == Dropped(s0, done)
        invariant done == {n} + SubAll(children, rank, n, cs[..i])
      {
        DropAllUses(cs[i]);
        DroppedTwice(s0, done, Sub(children, rank, cs[i]));
        SubAllNext(children, rank, n, cs, i);
        done := done + Sub(children, rank, cs[i]);
        DroppedArenas(s0, done);
      }
      assert cs[..|cs|] == cs;
    }

    method DropOwnUses(n: Node)
      requires values.Valid() && succs.Valid() && ArenasOk(Snap()) && n in children
      modifies values, succs
      ensures GetIds() == old(GetIds())
      ensures values.Valid() && succs.Valid() && ArenasOk(Snap()) && Snap() == Dropped(old(Snap()), {n})
    {
      if n.OpNode? {
        DroppedOne(values.operands, values.uses, n.id);
        DroppedOne(succs.operands, succs.uses, n.id);
        values.DropUses(n.id);
        succs.DropUses(n.id);
      } else {
        DroppedOther(values.operands, values.uses, n);
        DroppedOther(succs.operands, succs.uses, n);
      }
    }

    /** Frees a node: first what it owns, then itself with its operand lists and definitions.
        `s0` is the state when freeing began and `gone` what has been freed since. */
    method Dealloc(n: Node, ghost s0: State, ghost gone: set<Node>)
      requires Freeable(s0, rank, n) && Sub(s0.children, rank, n) !! gone && Snap() == Freed(s0, gone)
      modifies this, values, succs
      ensures GetIds() == old(GetIds())
      ensures Snap() == Freed(s0, gone + Sub(s0.children, rank, n))
      decreases rank[n], 1
    {
      DeallocOwned(n, s0, gone);
      DeallocSelf(s0, rank, gone, n);
      FreeNode(n, Freed(s0, gone + SubAll(s0.children, rank, n, s0.children[n])));
    }

    /** Frees what a node owns, in order. */
    method DeallocOwned(n: Node, ghost s0: State, ghost gone: set<Node>)
      requires Freeable(s0, rank, n) && Sub(s0.children, rank, n) !! gone && Snap() == Freed(s0, gone)
      modifies this, values, succs
      ensures GetIds() == old(GetIds())
      ensures Snap() == Freed(s0, gone + SubAll(s0.children, rank, n, s0.children[n]))
      decreases rank[n], 0
    {
      NotYetFreed(s0, rank, gone, n);
      var cs := children[n];
      ghost var done := gone;
      for i := 0 to |cs|
        invariant GetIds() == old(GetIds()) && Snap() == Freed(s0, done)
        invariant done == gone + SubAll(s0.children, rank, n, cs[..i])
      {
        DeallocReady(s0, rank, gone, n, i, done);
        Dealloc(cs[i], s0, done);
        done := done + Sub(s0.children, rank, cs[i]);
      }
      assert cs[..|cs|] == cs;
    }

    /** Erases an op, a block or a region with everything inside it: drops the uses it holds, takes it out of its
        owner's list, and frees it. The context is valid afterwards exactly when what was defined inside was used inside
        only, of which the code checks a part. */
    method Erase(n: Node)
      requires Valid() && n in children && ErasePasses(Snap(), rank, n)
      modifies this, values, succs
      ensures Snap() == Erased(old(Snap()), old(rank), n)
      ensures Valid() <==> UsedInside(old(Snap()), Sub(old(children), old(rank), n))
    {
      ErasedAllOkIff(Snap(), GetIds(), n);
      ghost var inside := Sub(children, rank, n);
      EraseAll(n, inside);
      ValidIff();
    }

    lemma ValidIff()
      ensures Valid() <==> AllOk(Snap(), GetIds())
    {
    }

    method EraseAll(n: Node, ghost inside: set<Node>)
      requires values.Valid() && succs.Valid() && StateOk(Snap(), rank) && n in children && inside == Sub(children, rank, n)
      modifies this, values, succs
      ensures Snap() == Erased(old(Snap()), old(rank), n) && GetIds() == old(GetIds()).(rank := old(rank) - inside)
    {
      ghost var r := rank - inside;
      EraseNode(n);
      SetRank(r);
    }

    ghost method SetRank(r: Ranks)
      modifies this
      ensures Snap() == old(Snap()) && GetIds() == old(GetIds()).(rank := r)
    {
      rank := r;
    }

    method EraseNode(n: Node)
      requires values.Valid() && succs.Valid() && StateOk(Snap(), rank) && n in children
      modifies this, values, succs
      ensures GetIds() == old(GetIds()) && Snap() == Erased(old(Snap()), rank, n)
    {
      ghost var s0, inside := Snap(), Sub(children, rank, n);
      ErasedReady(s0, rank, n);
      DropAllUses(n);
      ghost var s1 := Snap();
      UnlinkIfLinked(n);
      ghost var s2 := Snap();
      FreeErased(n, s2, inside);
      ErasedSteps(s0, rank, n, s1, s2, Snap());
    }

    /** Frees a node that has no owner. */
    method FreeErased(n: Node, ghost s: State, ghost inside: set<Node>)
      requires Snap() == s && Freeable(s, rank, n) && inside == Sub(s.children, rank, n)
      modifies this, values, succs
      ensures GetIds() == old(GetIds())
      ensures Snap() == Freed(s, inside)
    {
      FreedNone(s);
      assert {} + inside == inside;
      Dealloc(n, s, {});
    }

    method UnlinkIfLinked(n: Node)
      requires n in parent && (parent[n].Under? ==> parent[n].owner in children)
      modifies this
      ensures GetIds() == old(GetIds())
      ensures Snap() == Unlinked(old(Snap()), n)
    {
      if parent[n].Under? { Unlink(n); }
    }

    /** Takes a node out of the list that it is in. */
    method Unlink(n: Node)
      requires n in parent && parent[n].Under? && parent[n].owner in children
      modifies this
      ensures GetIds() == old(GetIds())
      ensures Snap() == Unlinked(old(Snap()), n)
    {
      var owner := parent[n].owner;
      children := children[owner := Without(children[owner], n)];
      parent := parent[n := Root];
    }

    /** Frees a node that owns nothing live any more. */
    method FreeNode(n: Node, ghost s: State)
      requires Snap() == s && ArenasOk(s) && n in children
      modifies this, values, succs
      ensures GetIds() == old(GetIds())
      ensures Snap() == Freed(s, {n})
    {
      FreedOne(s, n);
      FreeDefs(n);
      FreeLists(n);
      children := children - {n};
      parent := parent - {n};
      defs := defs - {n};
    }

    /** An op loses its operand lists, a block its predecessor set. */
    method FreeLists(n: Node)
      requires n.OpNode? ==> n.id in values.operands && n.id in succs.operands
      requires n.BlockNode? ==> n.id in succs.uses
      modifies values, succs
      ensures GetIds() == old(GetIds()) && values.uses == old(values.uses)
      ensures values.operands == (if n.OpNode? then old(values.operands) - {n.id} else old(values.operands))
      ensures succs.operands == (if n.OpNode? then old(succs.operands) - {n.id} else old(succs.operands))
      ensures succs.uses == (if n.BlockNode? then old(succs.uses) - {n.id} else old(succs.uses))
    {
      if n.OpNode? {
        values.ForgetUser(n.id);
        succs.ForgetUser(n.id);
      } else if n.BlockNode? {
        succs.ForgetDef(n.id);
      }
    }

    /** The results or arguments of a node cease to be definitions. */
    method FreeDefs(n: Node)
      requires n in defs && NoDuplicates(defs[n])
      requires forall v: Value :: v.entity == n ==> (v in values.uses <==> v.uid in defs[n])
      modifies values
      ensures values.owners == old(values.owners) && values.operands == old(values.operands)
      ensures values.uses == ValuesLeft(old(values.uses), {n})
    {
      ghost var before := values.uses;
      var ids := defs[n];
      for i := 0 to |ids|
        invariant values.owners == old(values.owners) && values.operands == old(values.operands)
        invariant values.uses == map v | v in before && !(v.entity == n && v.uid in ids[..i]) :: before[v]
      {
        TakeNext(ids, i);
        values.ForgetDef(Value(n, ids[i]));
      }
      assert ids[..|ids|] == ids;
    }
  }

  lemma FreedOne(s: State, n: Node)
    ensures var f := Freed(s, {n});
            && f.operands == (if n.OpNode? then s.operands - {n.id} else s.operands)
            && f.successors == (if n.OpNode? then s.successors - {n.id} else s.successors)
            && f.preds == (if n.BlockNode? then s.preds - {n.id} else s.preds)
  {
  }

  lemma {:induction false} NotYetFreed(s0: State, rank: Ranks, gone: set<Node>, n: Node)
    requires Freeable(s0, rank, n) && Sub(s0.children, rank, n) !! gone
    ensures var s := Freed(s0, gone); n in s.children && s.children[n] == s0.children[n]
    ensures gone + SubAll(s0.children, rank, n, s0.children[n][..0]) == gone
  {
    SubSelf(s0.children, rank, n);
  }

  /** Before the `i`-th owned node is freed: it has nothing in common with those freed so far. */
  lemma {:induction false} DeallocReady(s0: State, rank: Ranks, gone: set<Node>, n: Node, i: nat, done: set<Node>)
    requires Freeable(s0, rank, n) && i < |s0.children[n]| && Sub(s0.children, rank, n) !! gone
    requires done == gone + SubAll(s0.children, rank, n, s0.children[n][..i])
    ensures var c := s0.children[n][i];
            && Freeable(s0, rank, c) && rank[c] < rank[n] && Sub(s0.children, rank, c) !! done
            && done + Sub(s0.children, rank, c) == gone + SubAll(s0.children, rank, n, s0.children[n][..i + 1])
  {
    var cs := s0.children[n];
    var c := cs[i];
    SubHasOwned(s0.children, rank, n, c);
    TakeNext(cs, i);
    SubAllNext(s0.children, rank, n, cs, i);
    forall x | x in Sub(s0.children, rank, c) ensures x !in SubAll(s0.children, rank, n, cs[..i]) {
      SubAllIs(s0.children, rank, n, cs[..i], x);
      forall d | d in cs[..i] ensures x !in Sub(s0.children, rank, d) { SubApart(s0.children, s0.parent, rank, n, c, d, x); }
    }
  }

  /** Once everything inside a node is freed. */
  lemma {:induction false} DeallocSelf(s0: State, rank: Ranks, gone: set<Node>, n: Node)
    requires Freeable(s0, rank, n) && Sub(s0.children, rank, n) !! gone
    ensures var s := Freed(s0, gone + SubAll(s0.children, rank, n, s0.children[n]));
            && ArenasOk(s) && n in s.children
            && Freed(s, {n}) == Freed(s0, gone + Sub(s0.children, rank, n))
  {
    var inside := SubAll(s0.children, rank, n, s0.children[n]);
    FreedArenas(s0, gone + inside);
    FreedTwice(s0, gone + inside, {n});
    assert gone + inside + {n} == gone + Sub(s0.children, rank, n);
    if n in inside {
      SubAllIs(s0.children, rank, n, s0.children[n], n);
      var c :| c in s0.children[n] && n in Sub(s0.children, rank, c);
      SubBelow(s0.children, rank, c, n);
    }
    SubSelf(s0.children, rank, n);
  }

  lemma NamesNext<D>(os: seq<Operand<D>>, ds: seq<D>, i: nat, uid: nat)
    requires i < |ds| && Names(os, ds[..i])
    ensures |os| == i && Names(Inserted(os, i, Operand(ds[i], uid)), ds[..i + 1])
  {
  }

  lemma OverPut<K, V>(m: map<K, V>, k: K, v: V, w: V)
    ensures Put(m[k := v], k, w) == m[k := w]
  {
  }

  lemma {:induction false} NewRegionOutside(children: Children, rank: Ranks, r: Node, n: Node)
    requires Ranked(children, rank) && r in children && children[r] == [] && n in children && n != r
    ensures n !in Sub(children, rank, r)
  {
  }
}

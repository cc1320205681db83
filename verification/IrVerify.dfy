/** The def-use checks of the recursive IR verifier: they pass on an op tree exactly when every operand in it is
    tracked by its definition and every tracked use of what it defines points back; and they pass on a whole
    context exactly when the def-use chains are two-way. */
module IrVerify {
  import opened SeqLists
  import opened DefUse
  import opened IrForest
  import opened IrState

  /** An operand is in the use set of its definition. */
  predicate Tracked<D(==)>(uses: UseSets<D>, o: OpPtr, x: Operand<D>) {
    x.def in uses && Use(o, x.uid) in uses[x.def]
  }

  /** A use is found in its op, and the operand there names `d`. */
  predicate PointsBack<D(==)>(operands: Operands<D>, u: Use, d: D) {
    && u.user in operands && HasUid(operands[u.user], u.uid)
    && operands[u.user][FindIndex(operands[u.user], u.uid)].def == d
  }

  predicate ValueOk(s: State, v: Value)
    requires v in s.uses
  {
    forall u :: u in s.uses[v] ==> PointsBack(s.operands, u, v)
  }

  predicate BlockUsesOk(s: State, b: BlockId)
    requires b in s.preds
  {
    forall u :: u in s.preds[b] ==> PointsBack(s.successors, u, b)
  }

  predicate DefsOk(s: State, n: Node)
    requires n in s.defs && forall uid :: uid in s.defs[n] ==> Value(n, uid) in s.uses
  {
    forall i :: 0 <= i < |s.defs[n]| ==> ValueOk(s, Value(n, s.defs[n][i]))
  }

  /** What the verifier looks at in the node itself. */
  ghost predicate NodeOk(s: State, n: Node)
    requires ArenasOk(s) && n in s.children
  {
    match n
    case OpNode(o) =>
      && (forall i :: 0 <= i < |s.operands[o]| ==> Tracked(s.uses, o, s.operands[o][i]))
      && (forall i :: 0 <= i < |s.successors[o]| ==> Tracked(s.preds, o, s.successors[o][i]))
      && DefsOk(s, n)
    case BlockNode(b) => BlockUsesOk(s, b) && DefsOk(s, n)
    case RegionNode(_) => true
  }

  // ----- the traversal -----

  /** An op checks its operands, successors, regions and results in this order; a block its own uses,
      its arguments and its ops; a region its blocks. */
  ghost predicate Verify(s: State, rank: Ranks, n: Node)
    requires StateOk(s, rank) && n in s.children
    decreases rank[n], 1, 0
  {
    match n
    case OpNode(o) =>
      && (forall i :: 0 <= i < |s.operands[o]| ==> Tracked(s.uses, o, s.operands[o][i]))
      && (forall i :: 0 <= i < |s.successors[o]| ==> Tracked(s.preds, o, s.successors[o][i]))
      && VerifyAll(s, rank, n, s.children[n])
      && DefsOk(s, n)
    case BlockNode(b) => BlockUsesOk(s, b) && DefsOk(s, n) && VerifyAll(s, rank, n, s.children[n])
    case RegionNode(_) => VerifyAll(s, rank, n, s.children[n])
  }

  ghost predicate VerifyAll(s: State, rank: Ranks, n: Node, cs: seq<Node>)
    requires StateOk(s, rank) && n in s.children && forall c :: c in cs ==> c in s.children[n]
    decreases rank[n], 0, |cs|
  {
    cs == [] || (Verify(s, rank, cs[0]) && VerifyAll(s, rank, n, cs[1..]))
  }

  // ----- what passing means -----

  /** The verifier passes on a node exactly when every node nested in it is in order. */
  lemma {:induction false} VerifyIff(s: State, rank: Ranks, n: Node)
    requires StateOk(s, rank) && n in s.children
    ensures Verify(s, rank, n) <==> forall m :: m in Sub(s.children, rank, n) ==> m in s.children && NodeOk(s, m)
    decreases rank[n], 1, 0
  {
    VerifyAllIff(s, rank, n, s.children[n]);
    SubSelf(s.children, rank, n);
    assert Verify(s, rank, n) <==> NodeOk(s, n) && VerifyAll(s, rank, n, s.children[n]);
  }

  lemma {:induction false} VerifyAllIff(s: State, rank: Ranks, n: Node, cs: seq<Node>)
    requires StateOk(s, rank) && n in s.children && forall c :: c in cs ==> c in s.children[n]
    ensures VerifyAll(s, rank, n, cs) <==> forall m :: m in SubAll(s.children, rank, n, cs) ==> m in s.children && NodeOk(s, m)
    decreases rank[n], 0, |cs|
  {
    if cs != [] {
      VerifyIff(s, rank, cs[0]);
      VerifyAllIff(s, rank, n, cs[1..]);
    }
  }

  lemma TrackedFromTwoWay<D(!new)>(operands: Operands<D>, uses: UseSets<D>, owners: Owners, o: OpPtr)
    requires TwoWay(operands, uses, owners) && o in operands
    ensures forall i :: 0 <= i < |operands[o]| ==> Tracked(uses, o, operands[o][i])
  {
    forall i | 0 <= i < |operands[o]| ensures Tracked(uses, o, operands[o][i]) { OperandTracked(operands, uses, owners, o, i); }
  }

  lemma PointsBackFromTwoWay<D(!new)>(operands: Operands<D>, uses: UseSets<D>, owners: Owners, d: D)
    requires TwoWay(operands, uses, owners) && d in uses
    ensures forall u :: u in uses[d] ==> PointsBack(operands, u, d)
  {
    forall u | u in uses[d] ensures PointsBack(operands, u, d) { UseFound(operands, uses, owners, d, u); }
  }

  /** On two-way chains the verifier passes everywhere. */
  lemma {:induction false} TwoWayVerifies(s: State, ids: Ids, n: Node)
    requires StateOk(s, ids.rank) && n in s.children
    requires TwoWay(s.operands, s.uses, ids.operandOwners) && TwoWay(s.successors, s.preds, ids.successorOwners)
    ensures Verify(s, ids.rank, n)
  {
    forall m | m in Sub(s.children, ids.rank, n) ensures m in s.children && NodeOk(s, m) {
      SubBelow(s.children, ids.rank, n, m);
      if m.OpNode? {
        TrackedFromTwoWay(s.operands, s.uses, ids.operandOwners, m.id);
        TrackedFromTwoWay(s.successors, s.preds, ids.successorOwners, m.id);
      } else if m.BlockNode? {
        PointsBackFromTwoWay(s.successors, s.preds, ids.successorOwners, m.id);
      }
      forall i | 0 <= i < |s.defs[m]| ensures ValueOk(s, Value(m, s.defs[m][i])) {
        PointsBackFromTwoWay(s.operands, s.uses, ids.operandOwners, Value(m, s.defs[m][i]));
      }
    }
    VerifyIff(s, ids.rank, n);
  }

  // ----- the converse -----

  /** Every node is nested in a root. */
  lemma {:induction false} UnderRoot(s: State, rank: Ranks, n: Node) returns (r: Node)
    requires ForestOk(s.children, s.parent, rank) && n in s.children
    ensures r in s.children && s.parent[r] == Root && n in Sub(s.children, rank, r)
    decreases |set m | m in s.children && rank[m] > rank[n]|
  {
    SubSelf(s.children, rank, n);
    r := n;
    if s.parent[n].Under? {
      var owner := s.parent[n].owner;
      assert IsListed(s.children, s.parent, n);
      FewerAbove(s, rank, n, owner);
      r := UnderRoot(s, rank, owner);
      SubClosed(s.children, rank, r, owner, n);
    }
  }

  lemma FewerAbove(s: State, rank: Ranks, n: Node, owner: Node)
    requires s.children.Keys == rank.Keys && n in s.children && owner in s.children && rank[n] < rank[owner]
    ensures |set m | m in s.children && rank[m] > rank[owner]| < |set m | m in s.children && rank[m] > rank[n]|
  {
    var a, b := set m | m in s.children && rank[m] > rank[owner], set m | m in s.children && rank[m] > rank[n];
    assert a <= b && owner in b && owner !in a;
    Smaller(a, b);
  }

  lemma Smaller<T>(a: set<T>, b: set<T>)
    requires a < b
    ensures |a| < |b|
  {
    var x :| x in b && x !in a;
    assert a <= b - {x};
    SubsetSize(a, b - {x});
  }

  lemma ExactFromChecks<D(!new)>(operands: Operands<D>, uses: UseSets<D>)
    requires forall o, i :: o in operands && 0 <= i < |operands[o]| ==> Tracked(uses, o, operands[o][i])
    requires forall d, u :: d in uses && u in uses[d] ==> PointsBack(operands, u, d)
    ensures UsesExact(operands, uses)
  {
    forall d, u | d in uses ensures u in uses[d] <==> Holds(operands, u, d) {
      if u in uses[d] {
        assert PointsBack(operands, u, d);
        var os := operands[u.user];
        assert os[FindIndex(os, u.uid)] == Operand(d, u.uid);
      }
      if Holds(operands, u, d) {
        var i :| 0 <= i < |operands[u.user]| && operands[u.user][i] == Operand(d, u.uid);
        assert Tracked(uses, u.user, operands[u.user][i]);
      }
    }
  }

  /** If the verifier passes on every root, uses and operands match throughout. */
  lemma {:induction false} VerifiedIsExact(s: State, rank: Ranks)
    requires StateOk(s, rank) && forall r :: r in s.children && s.parent[r] == Root ==> Verify(s, rank, r)
    ensures UsesExact(s.operands, s.uses) && UsesExact(s.successors, s.preds)
  {
    forall n | n in s.children ensures NodeOk(s, n) {
      var r := UnderRoot(s, rank, n);
      VerifyIff(s, rank, r);
    }
    NodesExact(s);
  }

  lemma NodesExact(s: State)
    requires ArenasOk(s) && forall n :: n in s.children ==> NodeOk(s, n)
    ensures UsesExact(s.operands, s.uses) && UsesExact(s.successors, s.preds)
  {
    forall o, i | o in s.operands && 0 <= i < |s.operands[o]| ensures Tracked(s.uses, o, s.operands[o][i]) { assert NodeOk(s, OpNode(o)); }
    forall o, i | o in s.successors && 0 <= i < |s.successors[o]| ensures Tracked(s.preds, o, s.successors[o][i]) { assert NodeOk(s, OpNode(o)); }
    forall v, u | v in s.uses && u in s.uses[v] ensures PointsBack(s.operands, u, v) {
      assert NodeOk(s, v.entity);
      DefChecked(s, v);
    }
    forall b, u | b in s.preds && u in s.preds[b] ensures PointsBack(s.successors, u, b) { assert NodeOk(s, BlockNode(b)); }
    ExactFromChecks(s.operands, s.uses);
    ExactFromChecks(s.successors, s.preds);
  }

  lemma DefChecked(s: State, v: Value)
    requires ArenasOk(s) && v in s.uses && NodeOk(s, v.entity)
    ensures ValueOk(s, v)
  {
    var i :| 0 <= i < |s.defs[v.entity]| && s.defs[v.entity][i] == v.uid;
    assert Value(v.entity, s.defs[v.entity][i]) == v;
  }
}

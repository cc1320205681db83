/** The containment forest of the IR: an op owns regions, a region owns blocks, a block owns ops.

    The three arenas are one map here, from a node to the nodes it owns, in order. A rank, larger for a node
    than for anything it owns, witnesses that containment has no cycles. */
module IrForest {
  import opened SeqLists
  import opened DefUse

  datatype Node = OpNode(id: OpPtr) | RegionNode(id: nat) | BlockNode(id: nat)

  datatype Link = Root | Under(owner: Node)

  type Children = map<Node, seq<Node>>
  type Parents = map<Node, Link>
  type Ranks = map<Node, nat>

  /** Which kind of node owns which. */
  predicate Fits(owner: Node, n: Node) {
    match owner
    case OpNode(_) => n.RegionNode?
    case RegionNode(_) => n.BlockNode?
    case BlockNode(_) => n.OpNode?
  }

  ghost predicate Ranked(children: Children, rank: Ranks) {
    && children.Keys == rank.Keys
    && forall n, c :: n in children && c in children[n] ==> c in children && rank[c] < rank[n]
  }

  /** Owners and owned nodes name each other, once. */
  ghost predicate Linked(children: Children, parent: Parents) {
    && children.Keys == parent.Keys
    && (forall n, c :: n in children && c in children[n] ==> IsOwned(children, parent, n, c))
    && (forall c {:trigger IsListed(children, parent, c)} :: c in parent && parent[c].Under? ==> IsListed(children, parent, c))
    && (forall n :: n in children ==> NoDuplicates(children[n]))
  }

  predicate IsOwned(children: Children, parent: Parents, n: Node, c: Node) {
    c in parent && parent[c] == Under(n) && Fits(n, c)
  }

  predicate IsListed(children: Children, parent: Parents, c: Node)
    requires c in parent && parent[c].Under?
  {
    parent[c].owner in children && c in children[parent[c].owner]
  }

  ghost predicate ForestOk(children: Children, parent: Parents, rank: Ranks) {
    Ranked(children, rank) && Linked(children, parent)
  }

  // ----- everything inside a node -----

  /** The node and everything nested in it. */
  ghost function Sub(children: Children, rank: Ranks, n: Node): set<Node>
    requires Ranked(children, rank) && n in children
    decreases rank[n], 1, 0
  {
    {n} + SubAll(children, rank, n, children[n])
  }

  ghost function SubAll(children: Children, rank: Ranks, n: Node, cs: seq<Node>): set<Node>
    requires Ranked(children, rank) && n in children && forall c :: c in cs ==> c in children[n]
    decreases rank[n], 0, |cs|
  {
    if cs == [] then {} else Sub(children, rank, cs[0]) + SubAll(children, rank, n, cs[1..])
  }

  lemma {:induction false} SubAllIs(children: Children, rank: Ranks, n: Node, cs: seq<Node>, x: Node)
    requires Ranked(children, rank) && n in children && forall c :: c in cs ==> c in children[n]
    ensures x in SubAll(children, rank, n, cs) <==> exists c :: c in cs && x in Sub(children, rank, c)
    decreases |cs|
  {
    if cs != [] { SubAllIs(children, rank, n, cs[1..], x); }
  }

  /** What a node owns is nested in it, and all of Sub is live with a rank no larger. */
  lemma {:induction false} SubBelow(children: Children, rank: Ranks, n: Node, x: Node)
    requires Ranked(children, rank) && n in children && x in Sub(children, rank, n)
    ensures x in children && rank[x] <= rank[n] && (x != n ==> rank[x] < rank[n])
    decreases rank[n]
  {
    if x != n {
      SubAllIs(children, rank, n, children[n], x);
      var c :| c in children[n] && x in Sub(children, rank, c);
      SubBelow(children, rank, c, x);
    }
  }

  lemma {:induction false} SubHasOwned(children: Children, rank: Ranks, n: Node, c: Node)
    requires Ranked(children, rank) && n in children && c in children[n]
    ensures c in Sub(children, rank, c) && Sub(children, rank, c) <= Sub(children, rank, n)
  {
    forall x | x in Sub(children, rank, c) ensures x in Sub(children, rank, n) { SubAllIs(children, rank, n, children[n], x); }
  }

  /** Sub is closed under ownership. */
  lemma {:induction false} SubClosed(children: Children, rank: Ranks, n: Node, x: Node, y: Node)
    requires Ranked(children, rank) && n in children && x in Sub(children, rank, n) && x in children && y in children[x]
    ensures y in Sub(children, rank, n)
    decreases rank[n]
  {
    if x == n {
      SubHasOwned(children, rank, n, y);
    } else {
      SubAllIs(children, rank, n, children[n], x);
      var c :| c in children[n] && x in Sub(children, rank, c);
      SubClosed(children, rank, c, x, y);
      SubHasOwned(children, rank, n, c);
    }
  }

  /** Everything nested in a node, other than the node itself, has its owner nested in the node. */
  lemma {:induction false} SubOwner(children: Children, parent: Parents, rank: Ranks, n: Node, x: Node)
    requires ForestOk(children, parent, rank) && n in children && x in Sub(children, rank, n) && x != n
    ensures x in parent && parent[x].Under? && parent[x].owner in Sub(children, rank, n)
    decreases rank[n]
  {
    SubAllIs(children, rank, n, children[n], x);
    var c :| c in children[n] && x in Sub(children, rank, c);
    assert IsOwned(children, parent, n, c);
    if x != c {
      SubOwner(children, parent, rank, c, x);
      SubHasOwned(children, rank, n, c);
    }
  }

  /** Two nodes with the same owner hold nothing in common. */
  lemma {:induction false} SubApart(children: Children, parent: Parents, rank: Ranks, n: Node, c: Node, d: Node, x: Node)
    requires ForestOk(children, parent, rank) && n in children && c in children[n] && d in children[n] && c != d
    requires x in Sub(children, rank, c)
    ensures x !in Sub(children, rank, d)
    decreases if x in rank && rank[x] <= rank[n] then rank[n] - rank[x] else 0
  {
    SubBelow(children, rank, c, x);
    if x in Sub(children, rank, d) {
      SubBelow(children, rank, d, x);
      if x == c {
        SubOwner(children, parent, rank, d, x);
        SubBelow(children, rank, d, n);
      } else if x == d {
        SubOwner(children, parent, rank, c, x);
        SubBelow(children, rank, c, n);
      } else {
        SubOwner(children, parent, rank, c, x);
        SubOwner(children, parent, rank, d, x);
        SubBelow(children, rank, c, parent[x].owner);
        assert IsListed(children, parent, x);
        SubApart(children, parent, rank, n, c, d, parent[x].owner);
      }
    }
  }

  // ----- changes to the forest -----

  lemma NewNodeOk(children: Children, parent: Parents, rank: Ranks, n: Node)
    requires ForestOk(children, parent, rank) && n !in children
    ensures ForestOk(children[n := []], parent[n := Root], rank[n := 0])
  {
    var ch, pa := children[n := []], parent[n := Root];
    forall d | d in pa && pa[d].Under? ensures IsListed(ch, pa, d) { assert IsListed(children, parent, d); }
    forall m, d | m in ch && d in ch[m] ensures IsOwned(ch, pa, m, d) { assert IsOwned(children, parent, m, d); }
  }

  /** Ranks that make room for `c` above everything outside of it. */
  ghost function Lifted(children: Children, rank: Ranks, c: Node): Ranks
    requires Ranked(children, rank) && c in children
  {
    map x | x in rank :: if x in Sub(children, rank, c) then rank[x] else rank[x] + rank[c] + 1
  }

  lemma LiftedRanked(children: Children, parent: Parents, rank: Ranks, c: Node)
    requires ForestOk(children, parent, rank) && c in children && parent[c] == Root
    ensures Ranked(children, Lifted(children, rank, c))
  {
    var r := Lifted(children, rank, c);
    forall n, d | n in children && d in children[n] ensures d in children && r[d] < r[n] {
      if n in Sub(children, rank, c) {
        SubClosed(children, rank, c, n, d);
      } else if d in Sub(children, rank, c) {
        SubOwner(children, parent, rank, c, d);
      }
    }
  }

  /** Putting a node without owner under one that is not inside it. */
  lemma {:induction false} LinkOk(children: Children, parent: Parents, rank: Ranks, c: Node, n: Node, i: nat)
    requires ForestOk(children, parent, rank) && c in children && parent[c] == Root && n in children && i <= |children[n]|
    requires Fits(n, c) && n !in Sub(children, rank, c)
    ensures ForestOk(children[n := InsertedAt(children[n], i, c)], parent[c := Under(n)], Lifted(children, rank, c))
  {
    LiftedRanked(children, parent, rank, c);
    RootNotListed(children, parent, n, c);
    InsertedAtIn(children[n], i, c);
    SubSelf(children, rank, c);
    LinkLinked(children, parent, c, n, InsertedAt(children[n], i, c));
    LinkRanked(children, Lifted(children, rank, c), c, n, InsertedAt(children[n], i, c));
  }

  lemma RootNotListed(children: Children, parent: Parents, n: Node, c: Node)
    requires Linked(children, parent) && n in children && c in parent && parent[c] == Root
    ensures c !in children[n]
  {
    assert !IsOwned(children, parent, n, c);
  }

  lemma LinkRanked(children: Children, rank: Ranks, c: Node, n: Node, cs: seq<Node>)
    requires Ranked(children, rank) && n in children && c in children && rank[c] < rank[n] && forall y :: y in cs <==> y in children[n] || y == c
    ensures Ranked(children[n := cs], rank)
  {
  }

  lemma {:induction false} LinkLinked(children: Children, parent: Parents, c: Node, n: Node, cs: seq<Node>)
    requires Linked(children, parent) && n in children && c in children && parent[c] == Root && Fits(n, c)
    requires NoDuplicates(cs) && forall y :: y in cs <==> y in children[n] || y == c
    ensures Linked(children[n := cs], parent[c := Under(n)])
  {
    var ch, pa := children[n := cs], parent[c := Under(n)];
    forall m, d | m in ch && d in ch[m] ensures IsOwned(ch, pa, m, d) {
      RootNotListed(children, parent, m, c);
      if d != c { assert IsOwned(children, parent, m, d); }
    }
    forall d | d in pa && pa[d].Under? ensures IsListed(ch, pa, d) {
      if d != c { assert IsListed(children, parent, d); }
    }
  }

  lemma {:induction false} SubSelf(children: Children, rank: Ranks, n: Node)
    requires Ranked(children, rank) && n in children
    ensures n in Sub(children, rank, n)
  {
  }

  lemma {:induction false} UnlinkOk(children: Children, parent: Parents, rank: Ranks, c: Node)
    requires ForestOk(children, parent, rank) && c in children && parent[c].Under?
    ensures parent[c].owner in children
    ensures var n := parent[c].owner; ForestOk(children[n := Without(children[n], c)], parent[c := Root], rank)
  {
    assert IsListed(children, parent, c);
    WithoutIn(children[parent[c].owner], c);
    UnlinkLinked(children, parent, c, Without(children[parent[c].owner], c));
  }

  lemma {:induction false} UnlinkLinked(children: Children, parent: Parents, c: Node, cs: seq<Node>)
    requires Linked(children, parent) && c in children && parent[c].Under? && parent[c].owner in children
    requires NoDuplicates(cs) && forall y :: y in cs <==> y in children[parent[c].owner] && y != c
    ensures Linked(children[parent[c].owner := cs], parent[c := Root])
  {
    var ch, pa := children[parent[c].owner := cs], parent[c := Root];
    forall m, d | m in ch && d in ch[m] ensures IsOwned(ch, pa, m, d) {
      assert IsOwned(children, parent, m, d);
    }
    forall d | d in pa && pa[d].Under? ensures IsListed(ch, pa, d) {
      assert IsListed(children, parent, d);
    }
  }

  /** Taking out a node without owner, and everything inside it. */
  lemma {:induction false} PruneOk(children: Children, parent: Parents, rank: Ranks, p: Node)
    requires ForestOk(children, parent, rank) && p in children && parent[p] == Root
    ensures var s := Sub(children, rank, p); ForestOk(children - s, parent - s, rank - s)
  {
    var s := Sub(children, rank, p);
    forall n, c | n in children && n !in s && c in children[n] ensures c !in s && IsOwned(children, parent, n, c) {
      if c in s { SubOwner(children, parent, rank, p, c); }
    }
    forall c | c in parent && c !in s && parent[c].Under? ensures parent[c].owner !in s && IsListed(children, parent, c) {
      assert IsListed(children, parent, c);
      if parent[c].owner in s { SubClosed(children, rank, p, parent[c].owner, c); }
    }
  }

  /** Sub looks only at what it contains. */
  lemma {:induction false} SubSame(children: Children, other: Children, rank: Ranks, n: Node)
    requires Ranked(children, rank) && Ranked(other, rank) && n in children && n in other
    requires forall x :: x in Sub(children, rank, n) ==> x in other && other[x] == children[x]
    ensures Sub(other, rank, n) == Sub(children, rank, n)
    decreases rank[n], 1, 0
  {
    SubSelf(children, rank, n);
    SubAllSame(children, other, rank, n, children[n]);
  }

  lemma {:induction false} SubAllSame(children: Children, other: Children, rank: Ranks, n: Node, cs: seq<Node>)
    requires Ranked(children, rank) && Ranked(other, rank) && n in children && n in other && other[n] == children[n]
    requires forall c :: c in cs ==> c in children[n]
    requires forall x :: x in SubAll(children, rank, n, cs) ==> x in other && other[x] == children[x]
    ensures SubAll(other, rank, n, cs) == SubAll(children, rank, n, cs)
    decreases rank[n], 0, |cs|
  {
    if cs != [] {
      SubSame(children, other, rank, cs[0]);
      SubAllSame(children, other, rank, n, cs[1..]);
    }
  }

  lemma {:induction false} OwnerOutside(children: Children, parent: Parents, rank: Ranks, n: Node)
    requires ForestOk(children, parent, rank) && n in children && parent[n].Under?
    ensures parent[n].owner in children && n in children[parent[n].owner] && parent[n].owner !in Sub(children, rank, n)
  {
    assert IsListed(children, parent, n);
    if parent[n].owner in Sub(children, rank, n) { SubBelow(children, rank, n, parent[n].owner); }
  }

  lemma {:induction false} UnlinkForest(children: Children, parent: Parents, rank: Ranks, n: Node)
    requires ForestOk(children, parent, rank) && n in children && parent[n].Under?
    ensures parent[n].owner in children
    ensures var ch := children[parent[n].owner := Without(children[parent[n].owner], n)];
            ForestOk(ch, parent[n := Root], rank) && Sub(ch, rank, n) == Sub(children, rank, n)
  {
    UnlinkOk(children, parent, rank, n);
    OwnerOutside(children, parent, rank, n);
    forall x | x in Sub(children, rank, n) ensures x in children { SubBelow(children, rank, n, x); }
    SubSame(children, children[parent[n].owner := Without(children[parent[n].owner], n)], rank, n);
  }

  // ----- moving a region -----

  /** The forest after a region was moved from its op to the end of another op's regions. */
  lemma {:induction false} MoveOk(children: Children, parent: Parents, rank: Ranks, c: Node, i: nat, n: Node)
    requires ForestOk(children, parent, rank) && c in children && parent[c].Under? && parent[c].owner in children
    requires i < |children[parent[c].owner]| && children[parent[c].owner][i] == c
    requires n in children && n != parent[c].owner && Fits(n, c) && n !in Sub(children, rank, c)
    ensures var src := parent[c].owner;
            var ch, pa := children[src := SwapRemoved(children[src], i)], parent[c := Root];
            && ForestOk(ch, pa, rank) && Sub(ch, rank, c) == Sub(children, rank, c)
            && ForestOk(ch[n := InsertedAt(ch[n], |ch[n]|, c)], pa[c := Under(n)], Lifted(ch, rank, c))
  {
    var src := parent[c].owner;
    var cs := SwapRemoved(children[src], i);
    SwapRemovedIn(children[src], i);
    UnlinkLinked(children, parent, c, cs);
    var ch := children[src := cs];
    assert Ranked(ch, rank);
    assert c in children[src];
    if src in Sub(children, rank, c) { SubBelow(children, rank, c, src); }
    forall x | x in Sub(children, rank, c) ensures x in children { SubBelow(children, rank, c, x); }
    SubSame(children, ch, rank, c);
    LinkOk(ch, parent[c := Root], rank, c, n, |ch[n]|);
  }

  // ----- cycles -----

  /** What is inside a node does not get a higher rank than the node as long as the nodes between them own what they owned. */
  lemma {:induction false} RankInside(children: Children, rank: Ranks, after: Children, rank': Ranks, c: Node, n: Node)
    requires Ranked(children, rank) && Ranked(after, rank') && c in children && n in Sub(children, rank, c) && n in after
    requires forall x, y :: x in Sub(children, rank, c) && x != n && x in children && y in children[x] ==> x in after && y in after[x]
    ensures c in after && rank'[n] <= rank'[c]
    decreases rank[c]
  {
    SubSelf(children, rank, c);
    if n != c {
      SubAllIs(children, rank, c, children[c], n);
      var d :| d in children[c] && n in Sub(children, rank, d);
      SubHasOwned(children, rank, c, d);
      RankInside(children, rank, after, rank', d, n);
    }
  }

  /** No ranks are left once a node owns something that it is inside of. */
  lemma {:induction false} CycleUnranked(children: Children, rank: Ranks, after: Children, rank': Ranks, c: Node, n: Node)
    requires Ranked(children, rank) && c in children && n in Sub(children, rank, c) && n in after && c in after[n]
    requires forall x, y :: x in Sub(children, rank, c) && x != n && x in children && y in children[x] ==> x in after && y in after[x]
    ensures !Ranked(after, rank')
  {
    if Ranked(after, rank') { RankInside(children, rank, after, rank', c, n); }
  }

  lemma {:induction false} SubAllNext(children: Children, rank: Ranks, n: Node, cs: seq<Node>, i: nat)
    requires Ranked(children, rank) && n in children && cs == children[n] && i < |cs|
    ensures SubAll(children, rank, n, cs[..i + 1]) == SubAll(children, rank, n, cs[..i]) + Sub(children, rank, cs[i])
  {
    assert cs[..i + 1] == cs[..i] + [cs[i]];
    forall x ensures x in SubAll(children, rank, n, cs[..i + 1]) <==> x in SubAll(children, rank, n, cs[..i]) || x in Sub(children, rank, cs[i]) {
      SubAllIs(children, rank, n, cs[..i + 1], x);
      SubAllIs(children, rank, n, cs[..i], x);
      if x in Sub(children, rank, cs[i]) { assert cs[i] in cs[..i + 1]; }
    }
  }
}

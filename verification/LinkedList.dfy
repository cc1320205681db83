/** Intrusive doubly linked lists. Every node names its neighbours and its container, every container its first
    and last node; the operations below update those fields in place and refine operations on sequences. */
module LinkedList {
  import opened Options
  import opened SeqLists

  type NodePtr = nat
  type Container = nat

  datatype Links = Links(prev: Option<NodePtr>, next: Option<NodePtr>, container: Option<Container>)
  datatype Ends = Ends(head: Option<NodePtr>, tail: Option<NodePtr>)

  const Unlinked := Links(None, None, None)

  type Nodes = map<NodePtr, Links>
  type EndsMap = map<Container, Ends>
  type Lists = map<Container, seq<NodePtr>>

  function At(s: seq<NodePtr>, i: int): Option<NodePtr> {
    if 0 <= i < |s| then Some(s[i]) else None
  }

  /** The fields of container `c` and its nodes spell out the sequence `s`. */
  ghost predicate Spells(nodes: Nodes, ends: EndsMap, c: Container, s: seq<NodePtr>) {
    && c in ends && ends[c] == Ends(At(s, 0), At(s, |s| - 1))
    && (forall i :: 0 <= i < |s| ==> s[i] in nodes && nodes[s[i]] == Links(At(s, i - 1), At(s, i + 1), Some(c)))
    && NoDuplicates(s)
  }

  /** All lists at once: each container spells out its list, and a node outside of all lists has no links. */
  ghost predicate Consistent(nodes: Nodes, ends: EndsMap, lists: Lists) {
    && lists.Keys == ends.Keys
    && (forall c :: c in lists ==> Spells(nodes, ends, c, lists[c]))
    && (forall p :: p in nodes ==> Placed(nodes, lists, p))
  }

  predicate Placed(nodes: Nodes, lists: Lists, p: NodePtr)
    requires p in nodes
  {
    match nodes[p].container
    case None => nodes[p] == Unlinked
    case Some(c) => c in lists && p in lists[c]
  }

  // ----- one node in, one node out -----

  /** The fields after node `p` was put at position `i` of list `s` of container `c`. */
  function InsertedNodes(nodes: Nodes, c: Container, s: seq<NodePtr>, i: nat, p: NodePtr): Nodes
    requires i <= |s| && forall j :: 0 <= j < |s| ==> s[j] in nodes
  {
    var n1 := nodes[p := Links(At(s, i - 1), At(s, i), Some(c))];
    var n2 := if i > 0 then n1[s[i - 1] := n1[s[i - 1]].(next := Some(p))] else n1;
    if i < |s| then n2[s[i] := n2[s[i]].(prev := Some(p))] else n2
  }

  function InsertedEnds(e: Ends, s: seq<NodePtr>, i: nat, p: NodePtr): Ends {
    Ends(if i == 0 then Some(p) else e.head, if i == |s| then Some(p) else e.tail)
  }

  /** The fields after the node at position `i` was taken out. */
  function RemovedNodes(nodes: Nodes, s: seq<NodePtr>, i: nat): Nodes
    requires i < |s| && forall j :: 0 <= j < |s| ==> s[j] in nodes
  {
    var n1 := if i + 1 < |s| then nodes[s[i + 1] := nodes[s[i + 1]].(prev := At(s, i - 1))] else nodes;
    var n2 := if i > 0 then n1[s[i - 1] := n1[s[i - 1]].(next := At(s, i + 1))] else n1;
    n2[s[i] := Unlinked]
  }

  function RemovedEnds(e: Ends, s: seq<NodePtr>, i: nat): Ends {
    Ends(if i == 0 then At(s, i + 1) else e.head, if i == |s| - 1 then At(s, i - 1) else e.tail)
  }

  lemma InsertSpells(nodes: Nodes, ends: EndsMap, c: Container, s: seq<NodePtr>, i: nat, p: NodePtr)
    requires Spells(nodes, ends, c, s) && i <= |s| && p !in s
    ensures Spells(InsertedNodes(nodes, c, s, i, p), ends[c := InsertedEnds(ends[c], s, i, p)], c, InsertedAt(s, i, p))
  {
    var t, nodes' := InsertedAt(s, i, p), InsertedNodes(nodes, c, s, i, p);
    InsertedAtIn(s, i, p);
    forall j | 0 <= j < |t| ensures t[j] in nodes' && nodes'[t[j]] == Links(At(t, j - 1), At(t, j + 1), Some(c)) {
      InsertedLinks(nodes, c, s, i, p, j);
    }
  }

  /** What is at a position after an insertion, and after a removal. */
  lemma AtInserted(s: seq<NodePtr>, i: nat, p: NodePtr, j: int)
    requires i <= |s|
    ensures At(InsertedAt(s, i, p), j) == if j < i then At(s, j) else if j == i then Some(p) else At(s, j - 1)
  {
  }

  lemma AtRemoved(s: seq<NodePtr>, i: nat, j: int)
    requires i < |s|
    ensures At(s[..i] + s[i + 1..], j) == if j < i then At(s, j) else At(s, j + 1)
  {
  }

  /** A node of the list when `p` is put in: at most one of its links is new. */
  lemma {:induction false} InsertedNode(nodes: Nodes, c: Container, s: seq<NodePtr>, i: nat, p: NodePtr, k: nat)
    requires i <= |s| && p !in s && NoDuplicates(s) && k < |s| && forall j :: 0 <= j < |s| ==> s[j] in nodes
    ensures var nodes' := InsertedNodes(nodes, c, s, i, p);
            && p in nodes' && nodes'[p] == Links(At(s, i - 1), At(s, i), Some(c))
            && s[k] in nodes'
            && nodes'[s[k]] == if k + 1 == i then nodes[s[k]].(next := Some(p)) else if k == i then nodes[s[k]].(prev := Some(p)) else nodes[s[k]]
  {
    if i > 0 && k != i - 1 { Apart(s, k, i - 1); }
    if i < |s| && k != i { Apart(s, k, i); }
    if 0 < i < |s| { Apart(s, i - 1, i); }
  }

  lemma {:induction false} RemovedNode(nodes: Nodes, s: seq<NodePtr>, i: nat, k: nat)
    requires i < |s| && NoDuplicates(s) && k < |s| && k != i && forall j :: 0 <= j < |s| ==> s[j] in nodes
    ensures var nodes' := RemovedNodes(nodes, s, i);
            && s[k] in nodes'
            && nodes'[s[k]] == if k + 1 == i then nodes[s[k]].(next := At(s, i + 1)) else if k == i + 1 then nodes[s[k]].(prev := At(s, i - 1)) else nodes[s[k]]
  {
    Apart(s, k, i);
    if i > 0 && k != i - 1 { Apart(s, k, i - 1); }
    if i + 1 < |s| && k != i + 1 { Apart(s, k, i + 1); }
    if i > 0 && i + 1 < |s| { Apart(s, i - 1, i + 1); }
  }

  lemma {:induction false} InsertedLinks(nodes: Nodes, c: Container, s: seq<NodePtr>, i: nat, p: NodePtr, j: nat)
    requires i <= |s| && p !in s && NoDuplicates(s) && j <= |s|
    requires forall k :: 0 <= k < |s| ==> s[k] in nodes && nodes[s[k]] == Links(At(s, k - 1), At(s, k + 1), Some(c))
    ensures var t, nodes' := InsertedAt(s, i, p), InsertedNodes(nodes, c, s, i, p);
            t[j] in nodes' && nodes'[t[j]] == Links(At(t, j - 1), At(t, j + 1), Some(c))
  {
    AtInserted(s, i, p, j - 1);
    AtInserted(s, i, p, j);
    AtInserted(s, i, p, j + 1);
    if j != i {
      InsertedNode(nodes, c, s, i, p, if j < i then j else j - 1);
    }
  }

  lemma RemoveSpells(nodes: Nodes, ends: EndsMap, c: Container, s: seq<NodePtr>, i: nat)
    requires Spells(nodes, ends, c, s) && i < |s|
    ensures Spells(RemovedNodes(nodes, s, i), ends[c := RemovedEnds(ends[c], s, i)], c, s[..i] + s[i + 1..])
  {
    var t, nodes' := s[..i] + s[i + 1..], RemovedNodes(nodes, s, i);
    WithoutList(s, i);
    forall j | 0 <= j < |t| ensures t[j] in nodes' && nodes'[t[j]] == Links(At(t, j - 1), At(t, j + 1), Some(c)) {
      RemovedLinks(nodes, c, s, i, j);
    }
  }

  lemma {:induction false} WithoutList(s: seq<NodePtr>, i: nat)
    requires NoDuplicates(s) && i < |s|
    ensures NoDuplicates(s[..i] + s[i + 1..]) && forall x :: x in s[..i] + s[i + 1..] <==> x in s && x != s[i]
  {
    WithoutAt(s, i);
    WithoutIn(s, s[i]);
  }

  lemma {:induction false} RemovedLinks(nodes: Nodes, c: Container, s: seq<NodePtr>, i: nat, j: nat)
    requires i < |s| && NoDuplicates(s) && j < |s| - 1
    requires forall k :: 0 <= k < |s| ==> s[k] in nodes && nodes[s[k]] == Links(At(s, k - 1), At(s, k + 1), Some(c))
    ensures var t, nodes' := s[..i] + s[i + 1..], RemovedNodes(nodes, s, i);
            t[j] in nodes' && nodes'[t[j]] == Links(At(t, j - 1), At(t, j + 1), Some(c))
  {
    AtRemoved(s, i, j - 1);
    AtRemoved(s, i, j);
    AtRemoved(s, i, j + 1);
    RemovedNode(nodes, s, i, if j < i then j else j + 1);
  }

  /** A list does not notice changes to nodes outside of it. */
  lemma OtherSpells(nodes: Nodes, ends: EndsMap, nodes': Nodes, ends': EndsMap, c: Container, s: seq<NodePtr>)
    requires Spells(nodes, ends, c, s) && c in ends' && ends'[c] == ends[c]
    requires forall p :: p in s ==> p in nodes' && nodes'[p] == nodes[p]
    ensures Spells(nodes', ends', c, s)
  {
  }

  /** The lists of other containers when a node is inserted, or taken out. */
  lemma InsertOther(nodes: Nodes, ends: EndsMap, lists: Lists, c: Container, i: nat, p: NodePtr, d: Container)
    requires Consistent(nodes, ends, lists) && c in lists && i <= |lists[c]| && p in nodes && nodes[p].container == None
    requires d in lists && d != c && forall j :: 0 <= j < |lists[c]| ==> lists[c][j] in nodes
    ensures Spells(InsertedNodes(nodes, c, lists[c], i, p), ends[c := InsertedEnds(ends[c], lists[c], i, p)], d, lists[d])
  {
    NotListed(nodes, ends, lists, p);
    OtherListKept(nodes, ends, lists, c, d);
    OtherSpells(nodes, ends, InsertedNodes(nodes, c, lists[c], i, p), ends[c := InsertedEnds(ends[c], lists[c], i, p)], d, lists[d]);
  }

  lemma RemoveOther(nodes: Nodes, ends: EndsMap, lists: Lists, c: Container, i: nat, d: Container)
    requires Consistent(nodes, ends, lists) && c in lists && i < |lists[c]|
    requires d in lists && d != c && forall j :: 0 <= j < |lists[c]| ==> lists[c][j] in nodes
    ensures Spells(RemovedNodes(nodes, lists[c], i), ends[c := RemovedEnds(ends[c], lists[c], i)], d, lists[d])
  {
    OtherListKept(nodes, ends, lists, c, d);
    OtherSpells(nodes, ends, RemovedNodes(nodes, lists[c], i), ends[c := RemovedEnds(ends[c], lists[c], i)], d, lists[d]);
  }

  /** Only the node itself changes its container, and only its neighbours' links change beside it. */
  lemma InsertChanges(nodes: Nodes, c: Container, s: seq<NodePtr>, i: nat, p: NodePtr, q: NodePtr)
    requires i <= |s| && (forall j :: 0 <= j < |s| ==> s[j] in nodes) && q in nodes && q != p && p !in s
    ensures var nodes' := InsertedNodes(nodes, c, s, i, p);
            q in nodes' && nodes'[q].container == nodes[q].container && (q !in s ==> nodes'[q] == nodes[q])
  {
  }

  lemma RemoveChanges(nodes: Nodes, s: seq<NodePtr>, i: nat, q: NodePtr)
    requires i < |s| && (forall j :: 0 <= j < |s| ==> s[j] in nodes) && q in nodes && q != s[i]
    ensures var nodes' := RemovedNodes(nodes, s, i);
            q in nodes' && nodes'[q].container == nodes[q].container && (q !in s ==> nodes'[q] == nodes[q])
  {
  }

  lemma InsertPlaced(nodes: Nodes, ends: EndsMap, lists: Lists, c: Container, i: nat, p: NodePtr, q: NodePtr)
    requires Consistent(nodes, ends, lists) && c in lists && i <= |lists[c]| && p in nodes && nodes[p].container == None
    requires (forall j :: 0 <= j < |lists[c]| ==> lists[c][j] in nodes) && q in nodes
    ensures q in InsertedNodes(nodes, c, lists[c], i, p) && Placed(InsertedNodes(nodes, c, lists[c], i, p), lists[c := InsertedAt(lists[c], i, p)], q)
  {
    var s := lists[c];
    NotListed(nodes, ends, lists, p);
    if q == p {
      assert InsertedAt(s, i, p)[i] == p;
      InsertedContainer(nodes, c, s, i, p);
    } else {
      InsertChanges(nodes, c, s, i, p, q);
      InsertPlacedOther(nodes, ends, lists, c, i, p, q);
    }
  }

  lemma InsertedContainer(nodes: Nodes, c: Container, s: seq<NodePtr>, i: nat, p: NodePtr)
    requires i <= |s| && (forall j :: 0 <= j < |s| ==> s[j] in nodes) && p !in s
    ensures var nodes' := InsertedNodes(nodes, c, s, i, p); p in nodes' && nodes'[p].container == Some(c)
  {
  }

  lemma InsertPlacedOther(nodes: Nodes, ends: EndsMap, lists: Lists, c: Container, i: nat, p: NodePtr, q: NodePtr)
    requires Consistent(nodes, ends, lists) && c in lists && i <= |lists[c]| && q in nodes && q != p
    ensures match nodes[q].container
            case None => nodes[q] == Unlinked && q !in lists[c]
            case Some(d) => d in lists[c := InsertedAt(lists[c], i, p)] && q in lists[c := InsertedAt(lists[c], i, p)][d]
  {
    assert Placed(nodes, lists, q);
    if nodes[q].container == None {
      NotListed(nodes, ends, lists, q);
    } else if nodes[q].container == Some(c) {
      StaysIn(lists[c], i, p, q);
    }
  }

  lemma StaysIn(s: seq<NodePtr>, i: nat, p: NodePtr, q: NodePtr)
    requires i <= |s| && q in s
    ensures q in InsertedAt(s, i, p)
  {
    assert s == s[..i] + s[i..];
  }

  lemma RemovePlaced(nodes: Nodes, ends: EndsMap, lists: Lists, c: Container, i: nat, q: NodePtr)
    requires Consistent(nodes, ends, lists) && c in lists && i < |lists[c]|
    requires (forall j :: 0 <= j < |lists[c]| ==> lists[c][j] in nodes) && q in nodes
    ensures q in RemovedNodes(nodes, lists[c], i) && Placed(RemovedNodes(nodes, lists[c], i), lists[c := lists[c][..i] + lists[c][i + 1..]], q)
  {
    var s := lists[c];
    if q != s[i] {
      RemoveChanges(nodes, s, i, q);
      RemovePlacedOther(nodes, ends, lists, c, i, q);
    }
  }

  lemma RemovePlacedOther(nodes: Nodes, ends: EndsMap, lists: Lists, c: Container, i: nat, q: NodePtr)
    requires Consistent(nodes, ends, lists) && c in lists && i < |lists[c]| && q in nodes && q != lists[c][i]
    ensures match nodes[q].container
            case None => nodes[q] == Unlinked && q !in lists[c]
            case Some(d) => d in lists && q in lists[c := lists[c][..i] + lists[c][i + 1..]][d]
  {
    assert Placed(nodes, lists, q);
    if nodes[q].container == None {
      NotListed(nodes, ends, lists, q);
    } else if nodes[q].container == Some(c) {
      assert Spells(nodes, ends, c, lists[c]);
      WithoutList(lists[c], i);
    }
  }

  lemma Listed(nodes: Nodes, ends: EndsMap, lists: Lists, c: Container)
    requires Consistent(nodes, ends, lists) && c in lists
    ensures c in ends && (forall j :: 0 <= j < |lists[c]| ==> lists[c][j] in nodes) && NoDuplicates(lists[c])
  {
    assert Spells(nodes, ends, c, lists[c]);
  }

  lemma InsertSpellsAll(nodes: Nodes, ends: EndsMap, lists: Lists, c: Container, i: nat, p: NodePtr, d: Container)
    requires Consistent(nodes, ends, lists) && c in lists && i <= |lists[c]| && p in nodes && nodes[p].container == None && d in lists
    ensures c in ends && forall j :: 0 <= j < |lists[c]| ==> lists[c][j] in nodes
    ensures Spells(InsertedNodes(nodes, c, lists[c], i, p), ends[c := InsertedEnds(ends[c], lists[c], i, p)], d, lists[c := InsertedAt(lists[c], i, p)][d])
  {
    Listed(nodes, ends, lists, c);
    if d == c {
      NotListed(nodes, ends, lists, p);
      assert Spells(nodes, ends, c, lists[c]);
      InsertSpells(nodes, ends, c, lists[c], i, p);
    } else {
      InsertOther(nodes, ends, lists, c, i, p, d);
    }
  }

  lemma InsertedKeys(nodes: Nodes, c: Container, s: seq<NodePtr>, i: nat, p: NodePtr)
    requires i <= |s| && p in nodes && forall j :: 0 <= j < |s| ==> s[j] in nodes
    ensures InsertedNodes(nodes, c, s, i, p).Keys == nodes.Keys
  {
  }

  lemma InsertPlacedAll(nodes: Nodes, ends: EndsMap, lists: Lists, c: Container, i: nat, p: NodePtr)
    requires Consistent(nodes, ends, lists) && c in lists && i <= |lists[c]| && p in nodes && nodes[p].container == None
    requires forall j :: 0 <= j < |lists[c]| ==> lists[c][j] in nodes
    ensures var nodes' := InsertedNodes(nodes, c, lists[c], i, p);
            forall q :: q in nodes' ==> Placed(nodes', lists[c := InsertedAt(lists[c], i, p)], q)
  {
    var nodes' := InsertedNodes(nodes, c, lists[c], i, p);
    InsertedKeys(nodes, c, lists[c], i, p);
    forall q | q in nodes' ensures Placed(nodes', lists[c := InsertedAt(lists[c], i, p)], q) { InsertPlaced(nodes, ends, lists, c, i, p, q); }
  }

  lemma InsertConsistent(nodes: Nodes, ends: EndsMap, lists: Lists, c: Container, i: nat, p: NodePtr, t: seq<NodePtr>)
    requires Consistent(nodes, ends, lists) && c in lists && i <= |lists[c]| && p in nodes && nodes[p].container == None
    requires t == InsertedAt(lists[c], i, p)
    ensures c in ends && Spells(nodes, ends, c, lists[c])
    ensures Consistent(InsertedNodes(nodes, c, lists[c], i, p), ends[c := InsertedEnds(ends[c], lists[c], i, p)], lists[c := t])
  {
    Listed(nodes, ends, lists, c);
    var nodes', ends', lists' := InsertedNodes(nodes, c, lists[c], i, p), ends[c := InsertedEnds(ends[c], lists[c], i, p)], lists[c := t];
    forall d | d in lists' ensures Spells(nodes', ends', d, lists'[d]) { InsertSpellsAll(nodes, ends, lists, c, i, p, d); }
    InsertPlacedAll(nodes, ends, lists, c, i, p);
  }

  /** No node is lost, and nodes outside of all lists stay there, but for some. */
  ghost predicate Kept(before: Nodes, after: Nodes, but: set<NodePtr>) {
    && after.Keys == before.Keys
    && forall q :: q in before && q !in but && before[q] == Unlinked ==> after[q] == Unlinked
  }

  lemma InsertKept(nodes: Nodes, ends: EndsMap, lists: Lists, c: Container, i: nat, p: NodePtr)
    requires Consistent(nodes, ends, lists) && c in lists && i <= |lists[c]| && p in nodes && nodes[p].container == None
    requires forall j :: 0 <= j < |lists[c]| ==> lists[c][j] in nodes
    ensures Kept(nodes, InsertedNodes(nodes, c, lists[c], i, p), {p})
  {
    InsertedKeys(nodes, c, lists[c], i, p);
    NotListed(nodes, ends, lists, p);
    forall q | q in nodes && q != p && nodes[q] == Unlinked ensures InsertedNodes(nodes, c, lists[c], i, p)[q] == Unlinked {
      NotListed(nodes, ends, lists, q);
      InsertChanges(nodes, c, lists[c], i, p, q);
    }
  }

  lemma InsertedEnd(s: seq<NodePtr>, p: NodePtr)
    ensures InsertedAt(s, 0, p) == [p] + s && InsertedAt(s, |s|, p) == s + [p]
  {
  }

  lemma RemoveSpellsAll(nodes: Nodes, ends: EndsMap, lists: Lists, c: Container, i: nat, d: Container)
    requires Consistent(nodes, ends, lists) && c in lists && i < |lists[c]| && d in lists && Spells(nodes, ends, c, lists[c])
    ensures var s := lists[c];
            Spells(RemovedNodes(nodes, s, i), ends[c := RemovedEnds(ends[c], s, i)], d, lists[c := s[..i] + s[i + 1..]][d])
  {
    if d == c { RemoveSpells(nodes, ends, c, lists[c], i); } else { RemoveOther(nodes, ends, lists, c, i, d); }
  }

  lemma RemovePlacedAll(nodes: Nodes, ends: EndsMap, lists: Lists, c: Container, i: nat)
    requires Consistent(nodes, ends, lists) && c in lists && i < |lists[c]|
    requires forall j :: 0 <= j < |lists[c]| ==> lists[c][j] in nodes
    ensures var s := lists[c]; var nodes' := RemovedNodes(nodes, s, i);
            forall q :: q in nodes' ==> Placed(nodes', lists[c := s[..i] + s[i + 1..]], q)
  {
    var s := lists[c];
    var nodes' := RemovedNodes(nodes, s, i);
    RemovedKeys(nodes, s, i);
    forall q | q in nodes' ensures Placed(nodes', lists[c := s[..i] + s[i + 1..]], q) { RemovePlaced(nodes, ends, lists, c, i, q); }
  }

  lemma RemoveConsistent(nodes: Nodes, ends: EndsMap, lists: Lists, c: Container, i: nat)
    requires Consistent(nodes, ends, lists) && c in lists && i < |lists[c]|
    ensures c in ends && forall j :: 0 <= j < |lists[c]| ==> lists[c][j] in nodes
    ensures Consistent(RemovedNodes(nodes, lists[c], i), ends[c := RemovedEnds(ends[c], lists[c], i)],
                       lists[c := lists[c][..i] + lists[c][i + 1..]])
  {
    Listed(nodes, ends, lists, c);
    var s := lists[c];
    var nodes', ends', lists' := RemovedNodes(nodes, s, i), ends[c := RemovedEnds(ends[c], s, i)], lists[c := s[..i] + s[i + 1..]];
    forall d | d in lists' ensures Spells(nodes', ends', d, lists'[d]) { RemoveSpellsAll(nodes, ends, lists, c, i, d); }
    RemovePlacedAll(nodes, ends, lists, c, i);
  }

  lemma RemovedKeys(nodes: Nodes, s: seq<NodePtr>, i: nat)
    requires i < |s| && forall j :: 0 <= j < |s| ==> s[j] in nodes
    ensures RemovedNodes(nodes, s, i).Keys == nodes.Keys
  {
  }

  lemma RemoveKept(nodes: Nodes, ends: EndsMap, lists: Lists, c: Container, i: nat)
    requires Consistent(nodes, ends, lists) && c in lists && i < |lists[c]|
    requires forall j :: 0 <= j < |lists[c]| ==> lists[c][j] in nodes
    ensures Kept(nodes, RemovedNodes(nodes, lists[c], i), {})
  {
    RemovedKeys(nodes, lists[c], i);
    forall q | q in nodes && nodes[q] == Unlinked ensures RemovedNodes(nodes, lists[c], i)[q] == Unlinked {
      NotListed(nodes, ends, lists, q);
      RemoveChanges(nodes, lists[c], i, q);
    }
  }

  lemma NotListed(nodes: Nodes, ends: EndsMap, lists: Lists, p: NodePtr)
    requires Consistent(nodes, ends, lists) && p in nodes && nodes[p].container == None
    ensures forall c :: c in lists ==> p !in lists[c]
  {
    forall c | c in lists ensures p !in lists[c] { assert Spells(nodes, ends, c, lists[c]); }
  }

  /** Lists of different containers have no node in common. */
  lemma OtherListKept(nodes: Nodes, ends: EndsMap, lists: Lists, c: Container, d: Container)
    requires Consistent(nodes, ends, lists) && c in lists && d in lists && c != d
    ensures forall p :: p in lists[d] ==> p !in lists[c]
  {
    assert Spells(nodes, ends, c, lists[c]) && Spells(nodes, ends, d, lists[d]);
  }

  // ----- the operations, in place -----

  class ListArena {
    var nodes: Nodes
    var ends: EndsMap
    /** What the lists are, as sequences. */
    ghost var lists: Lists

    ghost predicate Valid()
      reads this
    {
      Consistent(nodes, ends, lists)
    }

    constructor ()
      ensures Valid() && nodes == map[] && lists == map[]
    {
      nodes, ends, lists := map[], map[], map[];
    }

    method NewContainer(c: Container)
      requires Valid() && c !in ends
      modifies this
      ensures Valid() && lists == old(lists)[c := []] && nodes == old(nodes)
    {
      ghost var lists' := lists[c := []];
      ends := ends[c := Ends(None, None)];
      forall d | d in lists' ensures Spells(nodes, ends, d, lists'[d]) {
        if d != c { OtherSpells(nodes, old(ends), nodes, ends, d, lists[d]); }
      }
      forall p | p in nodes ensures Placed(nodes, lists', p) { assert Placed(nodes, lists, p); }
      lists := lists';
    }

    method NewNode(p: NodePtr)
      requires Valid() && p !in nodes
      modifies this
      ensures Valid() && lists == old(lists) && nodes == old(nodes)[p := Unlinked]
    {
      ghost var before := nodes;
      nodes := nodes[p := Unlinked];
      forall d | d in lists ensures Spells(nodes, ends, d, lists[d]) {
        assert Spells(before, ends, d, lists[d]);
        OtherSpells(before, ends, nodes, ends, d, lists[d]);
      }
      forall q | q in nodes ensures Placed(nodes, lists, q) {
        if q != p { assert Placed(before, lists, q); }
      }
    }

    method SetNext(p: NodePtr, next: Option<NodePtr>)
      requires p in nodes
      modifies this`nodes
      ensures nodes == old(nodes)[p := old(nodes)[p].(next := next)]
    {
      nodes := nodes[p := nodes[p].(next := next)];
    }

    method SetPrev(p: NodePtr, prev: Option<NodePtr>)
      requires p in nodes
      modifies this`nodes
      ensures nodes == old(nodes)[p := old(nodes)[p].(prev := prev)]
    {
      nodes := nodes[p := nodes[p].(prev := prev)];
    }

    method SetLinks(p: NodePtr, links: Links)
      requires p in nodes
      modifies this`nodes
      ensures nodes == old(nodes)[p := links]
    {
      nodes := nodes[p := links];
    }

    method SetHead(c: Container, head: Option<NodePtr>)
      requires c in ends
      modifies this`ends
      ensures ends == old(ends)[c := old(ends)[c].(head := head)]
    {
      ends := ends[c := ends[c].(head := head)];
    }

    method SetTail(c: Container, tail: Option<NodePtr>)
      requires c in ends
      modifies this`ends
      ensures ends == old(ends)[c := old(ends)[c].(tail := tail)]
    {
      ends := ends[c := ends[c].(tail := tail)];
    }

    /** Inserts an unlinked node after `mark`, which is in a list. */
    method InsertAfter(p: NodePtr, mark: NodePtr)
      requires Valid() && p in nodes && nodes[p] == Unlinked && mark in nodes && nodes[mark].container.Some?
      modifies this
      ensures var c := old(nodes)[mark].container.value;
              c in old(lists) && mark in old(lists)[c] &&
              lists == old(lists)[c := InsertedAt(old(lists)[c], IndexOf(old(lists)[c], mark) + 1, p)]
      ensures Valid() && Kept(old(nodes), nodes, {p})
    {
      ghost var s := lists[nodes[mark].container.value];
      ghost var i := MarkAt(nodes, ends, lists, mark);
      assert mark in s && i == IndexOf(s, mark);
      PutAfter(p, mark, i);
    }

    /** The same, where the position of the mark is known. */
    method PutAfter(p: NodePtr, mark: NodePtr, ghost i: nat)
      requires Valid() && p in nodes && nodes[p] == Unlinked && mark in nodes && nodes[mark].container.Some?
      requires var c := nodes[mark].container.value; c in lists && StandsAt(nodes, ends, c, lists[c], i) && lists[c][i] == mark
      modifies this
      ensures var c := old(nodes)[mark].container.value; c in old(lists) && i < |old(lists)[c]| && lists == old(lists)[c := InsertedAt(old(lists)[c], i + 1, p)]
      ensures Valid() && Kept(old(nodes), nodes, {p})
    {
      ghost var c := nodes[mark].container.value;
      ghost var s, t := lists[c], InsertedAt(lists[c], i + 1, p);
      InsertConsistent(nodes, ends, lists, c, i + 1, p, t);
      InsertKept(nodes, ends, lists, c, i + 1, p);
      LinkAfter(p, mark, s, i);
      SetList(c, t);
    }

    ghost method SetList(c: Container, s: seq<NodePtr>)
      modifies this`lists
      ensures lists == old(lists)[c := s]
    {
      lists := lists[c := s];
    }

    method LinkAfter(p: NodePtr, mark: NodePtr, ghost s: seq<NodePtr>, ghost i: nat)
      requires p in nodes && nodes[p] == Unlinked && mark in nodes && nodes[mark].container.Some?
      requires StandsAt(nodes, ends, nodes[mark].container.value, s, i) && s[i] == mark
      modifies this`nodes, this`ends
      ensures var c := old(nodes)[mark].container.value;
              && nodes == InsertedNodes(old(nodes), c, s, i + 1, p)
              && ends == old(ends)[c := InsertedEnds(old(ends)[c], s, i + 1, p)]
    {
      var c := nodes[mark].container.value;
      var next := nodes[mark].next;
      if next.Some? {
        assert nodes[next.value].prev == Some(mark);
        SetPrev(next.value, Some(p));
      } else {
        assert ends[c].tail == Some(mark);
        SetTail(c, Some(p));
      }
      SetNext(mark, Some(p));
      SetLinks(p, Links(Some(mark), next, Some(c)));
    }

    /** Inserts an unlinked node before `mark`, which is in a list. */
    method InsertBefore(p: NodePtr, mark: NodePtr)
      requires Valid() && p in nodes && nodes[p] == Unlinked && mark in nodes && nodes[mark].container.Some?
      modifies this
      ensures var c := old(nodes)[mark].container.value;
              c in old(lists) && mark in old(lists)[c] &&
              lists == old(lists)[c := InsertedAt(old(lists)[c], IndexOf(old(lists)[c], mark), p)]
      ensures Valid() && Kept(old(nodes), nodes, {p})
    {
      ghost var c := nodes[mark].container.value;
      ghost var i := MarkAt(nodes, ends, lists, mark);
      ghost var s, t := lists[c], InsertedAt(lists[c], i, p);
      InsertConsistent(nodes, ends, lists, c, i, p, t);
      InsertKept(nodes, ends, lists, c, i, p);
      LinkBefore(p, mark, s, i);
      SetList(c, t);
    }

    method LinkBefore(p: NodePtr, mark: NodePtr, ghost s: seq<NodePtr>, ghost i: nat)
      requires p in nodes && nodes[p] == Unlinked && mark in nodes && nodes[mark].container.Some?
      requires StandsAt(nodes, ends, nodes[mark].container.value, s, i) && s[i] == mark
      modifies this`nodes, this`ends
      ensures var c := old(nodes)[mark].container.value;
              && nodes == InsertedNodes(old(nodes), c, s, i, p)
              && ends == old(ends)[c := InsertedEnds(old(ends)[c], s, i, p)]
    {
      var c := nodes[mark].container.value;
      var prev := nodes[mark].prev;
      if prev.Some? {
        assert nodes[prev.value].next == Some(mark);
        SetNext(prev.value, Some(p));
      } else {
        assert ends[c].head == Some(mark);
        SetHead(c, Some(p));
      }
      SetPrev(mark, Some(p));
      SetLinks(p, Links(prev, Some(mark), Some(c)));
    }

    /** Inserts an unlinked node as the head of a list. */
    method InsertAtFront(p: NodePtr, c: Container)
      requires Valid() && p in nodes && nodes[p] == Unlinked && c in ends
      modifies this
      ensures Valid() && lists == old(lists)[c := [p] + old(lists)[c]] && Kept(old(nodes), nodes, {p})
    {
      ghost var s, t := lists[c], [p] + lists[c];
      InsertedEnd(s, p);
      InsertConsistent(nodes, ends, lists, c, 0, p, t);
      InsertKept(nodes, ends, lists, c, 0, p);
      LinkFront(p, c, s);
      SetList(c, t);
    }

    method LinkFront(p: NodePtr, c: Container, ghost s: seq<NodePtr>)
      requires p in nodes && nodes[p] == Unlinked && Spells(nodes, ends, c, s)
      modifies this`nodes, this`ends
      ensures nodes == InsertedNodes(old(nodes), c, s, 0, p) && ends == old(ends)[c := InsertedEnds(old(ends)[c], s, 0, p)]
    {
      var head := ends[c].head;
      if head.Some? {
        assert nodes[head.value].prev == None;
        SetPrev(head.value, Some(p));
      } else {
        SetTail(c, Some(p));
      }
      SetLinks(p, Links(None, head, Some(c)));
      SetHead(c, Some(p));
    }

    /** Inserts an unlinked node as the tail of a list. */
    method InsertAtBack(p: NodePtr, c: Container)
      requires Valid() && p in nodes && nodes[p] == Unlinked && c in ends
      modifies this
      ensures Valid() && lists == old(lists)[c := old(lists)[c] + [p]] && Kept(old(nodes), nodes, {p})
    {
      ghost var s, t := lists[c], lists[c] + [p];
      InsertedEnd(s, p);
      InsertConsistent(nodes, ends, lists, c, |s|, p, t);
      InsertKept(nodes, ends, lists, c, |s|, p);
      LinkBack(p, c, s);
      SetList(c, t);
    }

    method LinkBack(p: NodePtr, c: Container, ghost s: seq<NodePtr>)
      requires p in nodes && nodes[p] == Unlinked && Spells(nodes, ends, c, s)
      modifies this`nodes, this`ends
      ensures nodes == InsertedNodes(old(nodes), c, s, |s|, p) && ends == old(ends)[c := InsertedEnds(old(ends)[c], s, |s|, p)]
    {
      var tail := ends[c].tail;
      if tail.Some? {
        assert nodes[tail.value].next == None;
        SetNext(tail.value, Some(p));
      } else {
        SetHead(c, Some(p));
      }
      SetLinks(p, Links(tail, None, Some(c)));
      SetTail(c, Some(p));
    }

    /** Takes a node out of its list. */
    method Unlink(p: NodePtr)
      requires Valid() && p in nodes && nodes[p].container.Some?
      modifies this
      ensures Valid() && p in nodes && nodes[p] == Unlinked && ends.Keys == old(ends).Keys && Kept(old(nodes), nodes, {})
      ensures var c := old(nodes)[p].container.value;
              c in old(lists) && p in old(lists)[c] && lists == old(lists)[c := Without(old(lists)[c], p)]
    {
      ghost var c := nodes[p].container.value;
      ghost var i := MarkAt(nodes, ends, lists, p);
      RemoveConsistent(nodes, ends, lists, c, i);
      Listed(nodes, ends, lists, c);
      RemoveKept(nodes, ends, lists, c, i);
      WithoutAt(lists[c], i);
      ghost var s := lists[c];
      LinkAround(p, s, i);
      SetList(c, s[..i] + s[i + 1..]);
    }

    method LinkAround(p: NodePtr, ghost s: seq<NodePtr>, ghost i: nat)
      requires p in nodes && nodes[p].container.Some? && StandsAt(nodes, ends, nodes[p].container.value, s, i) && s[i] == p
      modifies this`nodes, this`ends
      ensures var c := old(nodes)[p].container.value;
              nodes == RemovedNodes(old(nodes), s, i) && ends == old(ends)[c := RemovedEnds(old(ends)[c], s, i)]
    {
      var c := nodes[p].container.value;
      var next, prev := nodes[p].next, nodes[p].prev;
      if next.Some? {
        SetPrev(next.value, prev);
      } else {
        SetTail(c, prev);
      }
      if prev.Some? {
        SetNext(prev.value, next);
      } else {
        SetHead(c, next);
      }
      SetLinks(p, Unlinked);
    }

    /** Moves all nodes of one list, one by one, to the back of another. A list may also be given twice if it has one node
        at most. */
    method Append(donee: Container, donor: Container)
      requires Valid() && donee in ends && donor in ends && (donee == donor ==> |lists[donor]| <= 1)
      modifies this
      ensures Valid() && Kept(old(nodes), nodes, {})
      ensures lists == if donee == donor then old(lists) else old(lists)[donee := old(lists)[donee] + old(lists)[donor]][donor := []]
    {
      ghost var before, n, k := lists, |lists[donor]|, 0;
      var current := ends[donor].head;
      HeadLinks(nodes, ends, lists, donor);
      MovedNone(lists, donee, donor);
      while current.Some?
        invariant Valid() && Kept(old(nodes), nodes, {}) && k <= n && donee in ends && donor in ends && current == At(before[donor], k)
        invariant lists == Moved(before, donee, donor, k)
        decreases n - k
      {
        MovedNext(before, donee, donor, k);
        current := MoveHead(donee, donor, current.value);
        k := k + 1;
      }
      assert k == n;
      if donee != donor { MovedAll(before, donee, donor); }
    }

    /** Moves the first node of a list to the back of another, or of the same one, and returns the node that was next. */
    method MoveHead(donee: Container, donor: Container, node: NodePtr) returns (next: Option<NodePtr>)
      requires Valid() && donee in ends && donor in lists && lists[donor] != [] && node == lists[donor][0]
      modifies this
      ensures Valid() && Kept(old(nodes), nodes, {}) && ends.Keys == old(ends).Keys && next == At(old(lists)[donor], 1)
      ensures donee in old(lists) && lists == HeadMoved(old(lists), donee, donor)
    {
      HeadLinks(nodes, ends, lists, donor);
      ghost var lists0, nodes0 := lists, nodes;
      next := nodes[node].next;
      Unlink(node);
      ghost var nodes1 := nodes;
      InsertAtBack(node, donee);
      KeptThen(nodes0, nodes1, nodes, node);
      HeadMovedSteps(lists0, donee, donor);
    }
  }

  /** The lists after the first node of the donor went to the back of the donee. */
  function HeadMoved(lists: Lists, donee: Container, donor: Container): Lists
    requires donee in lists && donor in lists && lists[donor] != []
  {
    var left := lists[donor := lists[donor][1..]];
    left[donee := left[donee] + [lists[donor][0]]]
  }

  lemma HeadMovedSteps(lists: Lists, donee: Container, donor: Container)
    requires donee in lists && donor in lists && lists[donor] != [] && Without(lists[donor], lists[donor][0]) == lists[donor][1..]
    ensures var left := lists[donor := Without(lists[donor], lists[donor][0])];
            HeadMoved(lists, donee, donor) == left[donee := left[donee] + [lists[donor][0]]]
  {
  }

  lemma KeptThen(before: Nodes, between: Nodes, after: Nodes, p: NodePtr)
    requires Kept(before, between, {}) && Kept(between, after, {p}) && p in before && before[p] != Unlinked
    ensures Kept(before, after, {})
  {
  }

  /** The head of a list, and the node behind it. */
  lemma HeadLinks(nodes: Nodes, ends: EndsMap, lists: Lists, c: Container)
    requires Consistent(nodes, ends, lists) && c in lists
    ensures c in ends && ends[c].head == At(lists[c], 0)
    ensures lists[c] != [] ==>
              && lists[c][0] in nodes && nodes[lists[c][0]].container == Some(c) && nodes[lists[c][0]].next == At(lists[c], 1)
              && Without(lists[c], lists[c][0]) == lists[c][1..]
  {
    assert Spells(nodes, ends, c, lists[c]);
  }

  /** The lists once the first `k` nodes of the donor have moved. */
  function Moved(lists: Lists, donee: Container, donor: Container, k: nat): Lists
    requires donee in lists && donor in lists && k <= |lists[donor]|
  {
    if donee == donor then lists else lists[donee := lists[donee] + lists[donor][..k]][donor := lists[donor][k..]]
  }

  lemma MovedNone(lists: Lists, donee: Container, donor: Container)
    requires donee in lists && donor in lists
    ensures Moved(lists, donee, donor, 0) == lists
  {
    assert lists[donee] + lists[donor][..0] == lists[donee] && lists[donor][0..] == lists[donor];
  }

  lemma MovedNext(lists: Lists, donee: Container, donor: Container, k: nat)
    requires donee in lists && donor in lists && k < |lists[donor]| && (donee == donor ==> |lists[donor]| == 1)
    ensures var m := Moved(lists, donee, donor, k);
            && donee in m && donor in m && m[donor] != [] && m[donor][0] == lists[donor][k] && At(m[donor], 1) == At(lists[donor], k + 1)
            && Moved(lists, donee, donor, k + 1) == HeadMoved(m, donee, donor)
  {
    var a, b := lists[donee], lists[donor];
    assert a + b[..k] + [b[k]] == a + b[..k + 1] && b[k..][1..] == b[k + 1..];
    if donee == donor { assert b[1..] + [b[0]] == b; }
  }

  lemma MovedAll(lists: Lists, donee: Container, donor: Container)
    requires donee in lists && donor in lists && donee != donor
    ensures Moved(lists, donee, donor, |lists[donor]|) == lists[donee := lists[donee] + lists[donor]][donor := []]
  {
    var b := lists[donor];
    assert b[|b|..] == [] && b[..|b|] == b;
  }

  /** A list after its first node went to its own back `k` times. */
  function Rotated(s: seq<NodePtr>, k: nat): (r: seq<NodePtr>)
    requires s != []
    ensures |r| == |s|
  {
    if k == 0 then s else var r := Rotated(s, k - 1); r[1..] + [r[0]]
  }

  /** A list of two nodes or more that is appended to itself: each step moves the head, and the node that was next, where the
      loop goes on, is the new head. So there always is one more step. */
  lemma SameListGoesOn(lists: Lists, c: Container, k: nat)
    requires c in lists && |lists[c]| >= 2
    ensures var now := lists[c := Rotated(lists[c], k)];
            && HeadMoved(now, c, c) == lists[c := Rotated(lists[c], k + 1)]
            && At(now[c], 1).Some? && At(now[c], 1) == At(Rotated(lists[c], k + 1), 0)
  {
  }

  /** Node `s[i]` stands between its neighbours. */
  ghost predicate StandsAt(nodes: Nodes, ends: EndsMap, c: Container, s: seq<NodePtr>, i: nat) {
    && i < |s| && (forall j :: 0 <= j < |s| ==> s[j] in nodes) && c in ends && ends[c] == Ends(At(s, 0), At(s, |s| - 1))
    && nodes[s[i]] == Links(At(s, i - 1), At(s, i + 1), Some(c))
    && (i + 1 < |s| ==> nodes[s[i + 1]].prev == Some(s[i]) && s[i + 1] != s[i])
    && (i > 0 ==> nodes[s[i - 1]].next == Some(s[i]) && s[i - 1] != s[i])
    && (i > 0 && i + 1 < |s| ==> s[i - 1] != s[i + 1])
  }

  lemma MarkAt(nodes: Nodes, ends: EndsMap, lists: Lists, p: NodePtr) returns (i: nat)
    requires Consistent(nodes, ends, lists) && p in nodes && nodes[p].container.Some?
    ensures var c := nodes[p].container.value;
            c in lists && i == IndexOf(lists[c], p) && i < |lists[c]| && lists[c][i] == p && StandsAt(nodes, ends, c, lists[c], i)
  {
    assert Placed(nodes, lists, p);
    var c := nodes[p].container.value;
    var s := lists[c];
    i := IndexOf(s, p);
    assert Spells(nodes, ends, c, s);
    SpelledStands(nodes, ends, c, s, i);
  }

  lemma SpelledStands(nodes: Nodes, ends: EndsMap, c: Container, s: seq<NodePtr>, i: nat)
    requires Spells(nodes, ends, c, s) && i < |s|
    ensures StandsAt(nodes, ends, c, s, i)
  {
    if i + 1 < |s| { Apart(s, i, i + 1); }
    if i > 0 { Apart(s, i - 1, i); }
    if i > 0 && i + 1 < |s| { Apart(s, i - 1, i + 1); }
  }
}

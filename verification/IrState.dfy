/** The state of an IR context as a value, and what erasing part of it leaves. */
module IrState {
  import opened SeqLists
  import opened DefUse
  import opened UseChain
  import opened IrForest

  /** A value, by its defining entity (an op's result or a block's argument) and its id. */
  datatype Value = Value(entity: Node, uid: nat)
  type BlockId = nat

  datatype State = State(
    children: Children, parent: Parents,
    defs: map<Node, seq<nat>>,
    operands: Operands<Value>, uses: UseSets<Value>,
    successors: Operands<BlockId>, preds: UseSets<BlockId>)

  /** Every live op has its operand lists, every live block its predecessor set, and every result and
      argument of a live node its use set; nothing else has one. */
  ghost predicate ArenasOk(s: State) {
    && s.defs.Keys == s.children.Keys
    && (forall o: OpPtr :: o in s.operands <==> OpNode(o) in s.children)
    && (forall o: OpPtr :: o in s.successors <==> OpNode(o) in s.children)
    && (forall b: BlockId :: b in s.preds <==> BlockNode(b) in s.children)
    && (forall v: Value :: v in s.uses <==> v.entity in s.children && v.uid in s.defs[v.entity])
    && (forall n :: n in s.defs ==> NoDuplicates(s.defs[n]) && (n.RegionNode? ==> s.defs[n] == []))
  }

  ghost predicate StateOk(s: State, rank: Ranks) {
    ForestOk(s.children, s.parent, rank) && ArenasOk(s)
  }

  /** What was handed out so far: the ranks of nodes, the node that each value id and the op that each use id was
      created for, and the counters that new ids come from. */
  datatype Ids = Ids(rank: Ranks, definers: map<nat, Node>, operandOwners: Owners, successorOwners: Owners,
                     nextKey: nat, nextVal: nat, nextUse: nat)

  /** Ids are below their counters, and value ids are never shared. */
  ghost predicate IdsFresh(s: State, ids: Ids) {
    && (forall n :: n in s.children ==> n.id < ids.nextKey)
    && (forall v :: v in s.uses ==> v.uid in ids.definers && ids.definers[v.uid] == v.entity)
    && (forall uid :: uid in ids.definers ==> uid < ids.nextVal)
    && (forall uid :: uid in ids.operandOwners ==> uid < ids.nextUse)
    && (forall uid :: uid in ids.successorOwners ==> uid < ids.nextUse)
  }

  ghost predicate ContextOk(s: State, ids: Ids) {
    StateOk(s, ids.rank) && IdsFresh(s, ids)
  }

  const EmptyState: State := State(map[], map[], map[], map[], map[], map[], map[])

  lemma EmptyOk()
    ensures ContextOk(EmptyState, Ids(map[], map[], map[], map[], 0, 0, 0))
  {
  }

  // ----- uses dropped -----

  /** No op in `gone` holds operands or successors any more. */
  function Emptied<D>(operands: Operands<D>, gone: set<Node>): Operands<D> {
    map o | o in operands :: if OpNode(o) in gone then [] else operands[o]
  }

  function Unused<D>(uses: UseSets<D>, gone: set<Node>): UseSets<D> {
    map d | d in uses :: set u | u in uses[d] && OpNode(u.user) !in gone
  }

  function Dropped(s: State, gone: set<Node>): State {
    s.(operands := Emptied(s.operands, gone), uses := Unused(s.uses, gone),
       successors := Emptied(s.successors, gone), preds := Unused(s.preds, gone))
  }

  lemma EmptiedTwice<D>(operands: Operands<D>, a: set<Node>, b: set<Node>)
    ensures Emptied(Emptied(operands, a), b) == Emptied(operands, a + b)
  {
  }

  lemma UnusedTwice<D>(uses: UseSets<D>, a: set<Node>, b: set<Node>)
    ensures Unused(Unused(uses, a), b) == Unused(uses, a + b)
  {
    forall d | d in uses ensures Unused(Unused(uses, a), b)[d] == Unused(uses, a + b)[d] {}
  }

  lemma DroppedTwice(s: State, a: set<Node>, b: set<Node>)
    ensures Dropped(Dropped(s, a), b) == Dropped(s, a + b)
  {
    EmptiedTwice(s.operands, a, b);
    EmptiedTwice(s.successors, a, b);
    UnusedTwice(s.uses, a, b);
    UnusedTwice(s.preds, a, b);
  }

  /** Dropping the uses of one op. */
  lemma DroppedOne<D>(operands: Operands<D>, uses: UseSets<D>, o: OpPtr)
    requires o in operands
    ensures operands[o := []] == Emptied(operands, {OpNode(o)}) && WithoutUser(uses, o) == Unused(uses, {OpNode(o)})
  {
    forall d | d in uses ensures WithoutUser(uses, o)[d] == Unused(uses, {OpNode(o)})[d] {}
  }

  lemma DroppedOther<D>(operands: Operands<D>, uses: UseSets<D>, n: Node)
    requires !n.OpNode?
    ensures operands == Emptied(operands, {n}) && uses == Unused(uses, {n})
  {
    forall d | d in uses ensures uses[d] == Unused(uses, {n})[d] {}
  }

  // ----- nodes freed -----

  function OpsLeft<D>(operands: Operands<D>, gone: set<Node>): Operands<D> {
    map o | o in operands && OpNode(o) !in gone :: operands[o]
  }

  function ValuesLeft(uses: UseSets<Value>, gone: set<Node>): UseSets<Value> {
    map v | v in uses && v.entity !in gone :: uses[v]
  }

  function BlocksLeft(preds: UseSets<BlockId>, gone: set<Node>): UseSets<BlockId> {
    map b | b in preds && BlockNode(b) !in gone :: preds[b]
  }

  /** The state without the nodes in `gone`. */
  function Freed(s: State, gone: set<Node>): State {
    State(s.children - gone, s.parent - gone, s.defs - gone, OpsLeft(s.operands, gone), ValuesLeft(s.uses, gone),
          OpsLeft(s.successors, gone), BlocksLeft(s.preds, gone))
  }

  lemma FreedNone(s: State)
    ensures Freed(s, {}) == s
  {
  }

  lemma OpsLeftTwice<D>(operands: Operands<D>, a: set<Node>, b: set<Node>)
    ensures OpsLeft(OpsLeft(operands, a), b) == OpsLeft(operands, a + b)
  {
  }

  lemma DefsLeftTwice(s: State, a: set<Node>, b: set<Node>)
    ensures ValuesLeft(ValuesLeft(s.uses, a), b) == ValuesLeft(s.uses, a + b)
    ensures BlocksLeft(BlocksLeft(s.preds, a), b) == BlocksLeft(s.preds, a + b)
  {
  }

  lemma FreedTwice(s: State, a: set<Node>, b: set<Node>)
    ensures Freed(Freed(s, a), b) == Freed(s, a + b)
  {
    assert s.children - a - b == s.children - (a + b);
    assert s.parent - a - b == s.parent - (a + b);
    assert s.defs - a - b == s.defs - (a + b);
    OpsLeftTwice(s.operands, a, b);
    OpsLeftTwice(s.successors, a, b);
    DefsLeftTwice(s, a, b);
  }

  lemma FreedArenas(s: State, gone: set<Node>)
    requires ArenasOk(s)
    ensures ArenasOk(Freed(s, gone))
  {
  }

  /** What is defined in `part` is used in `part` only. */
  ghost predicate UsedInside(s: State, part: set<Node>) {
    && (forall v, u :: v in s.uses && v.entity in part && u in s.uses[v] ==> OpNode(u.user) in part)
    && (forall b, u :: b in s.preds && BlockNode(b) in part && u in s.preds[b] ==> OpNode(u.user) in part)
  }

  /** The state after `n` was taken out of its owner's list. */
  function Unlinked(s: State, n: Node): State
    requires n in s.parent && (s.parent[n].Under? ==> s.parent[n].owner in s.children)
  {
    if s.parent[n] == Root then s else
    var owner := s.parent[n].owner;
    s.(children := s.children[owner := Without(s.children[owner], n)], parent := s.parent[n := Root])
  }

  function ErasedFrom(s: State, inside: set<Node>, n: Node): State
    requires n in s.parent && (s.parent[n].Under? ==> s.parent[n].owner in s.children)
  {
    Freed(Unlinked(Dropped(s, inside), n), inside)
  }

  /** The state after `n` was erased. */
  ghost function Erased(s: State, rank: Ranks, n: Node): State
    requires ForestOk(s.children, s.parent, rank) && n in s.children
  {
    assert s.parent[n].Under? ==> IsListed(s.children, s.parent, n);
    ErasedFrom(s, Sub(s.children, rank, n), n)
  }

  /** Erasing frees exactly the node and what is inside it, and survivors keep what they own, in order, except for
      the erased node itself. */
  lemma {:induction false} ErasedForest(s: State, rank: Ranks, n: Node, m: Node)
    requires ForestOk(s.children, s.parent, rank) && n in s.children && s.defs.Keys == s.children.Keys
    ensures var e, inside := Erased(s, rank, n), Sub(s.children, rank, n);
            && e.children.Keys == s.children.Keys - inside && n in inside
            && (m in e.children ==>
                  && e.defs[m] == s.defs[m] && e.parent[m] == s.parent[m]
                  && e.children[m] == if s.parent[n] == Under(m) then Without(s.children[m], n) else s.children[m])
  {
    SubSelf(s.children, rank, n);
    assert s.parent[n].Under? ==> IsListed(s.children, s.parent, n);
  }

  /** The operands of survivors stay, and their definitions lose exactly the uses that were erased. */
  lemma {:induction false} ErasedUses(s: State, rank: Ranks, n: Node)
    requires ForestOk(s.children, s.parent, rank) && n in s.children
    ensures var e, inside := Erased(s, rank, n), Sub(s.children, rank, n);
            && (forall o :: o in e.operands ==> e.operands[o] == s.operands[o])
            && (forall o :: o in e.successors ==> e.successors[o] == s.successors[o])
            && (forall v, u :: v in e.uses ==> (u in e.uses[v] <==> u in s.uses[v] && OpNode(u.user) !in inside))
            && (forall b, u :: b in e.preds ==> (u in e.preds[b] <==> u in s.preds[b] && OpNode(u.user) !in inside))
  {
    assert s.parent[n].Under? ==> IsListed(s.children, s.parent, n);
  }

  lemma {:induction false} UnlinkKeeps(s: State, rank: Ranks, n: Node)
    requires ForestOk(s.children, s.parent, rank) && n in s.children
    ensures s.parent[n].Under? ==> s.parent[n].owner in s.children
    ensures ForestOk(Unlinked(s, n).children, Unlinked(s, n).parent, rank) && Unlinked(s, n).parent[n] == Root
    ensures Sub(Unlinked(s, n).children, rank, n) == Sub(s.children, rank, n)
  {
    if s.parent[n].Under? {
      UnlinkForest(s.children, s.parent, rank, n);
      assert Unlinked(s, n).parent == s.parent[n := Root];
    }
  }

  lemma UnlinkArenas(s: State, n: Node)
    requires ArenasOk(s) && n in s.parent && (s.parent[n].Under? ==> s.parent[n].owner in s.children)
    ensures ArenasOk(Unlinked(s, n))
  {
    assert Unlinked(s, n).children.Keys == s.children.Keys;
  }

  lemma DroppedArenas(s: State, inside: set<Node>)
    requires ArenasOk(s)
    ensures ArenasOk(Dropped(s, inside))
  {
  }

  /** A node that can be freed, with everything inside it. */
  ghost predicate Freeable(s: State, rank: Ranks, n: Node) {
    ForestOk(s.children, s.parent, rank) && ArenasOk(s) && n in s.children
  }

  /** When an erased node is about to be freed. */
  lemma {:induction false} ErasedReady(s: State, rank: Ranks, n: Node)
    requires StateOk(s, rank) && n in s.children
    ensures s.parent[n].Under? ==> s.parent[n].owner in s.children
    ensures var t := Unlinked(Dropped(s, Sub(s.children, rank, n)), n);
            Freeable(t, rank, n) && t.parent[n] == Root && Sub(t.children, rank, n) == Sub(s.children, rank, n)
  {
    var inside := Sub(s.children, rank, n);
    DroppedArenas(s, inside);
    UnlinkKeeps(s, rank, n);
    UnlinkArenas(Dropped(s, inside), n);
  }

  lemma {:induction false} ErasedSteps(s: State, rank: Ranks, n: Node, s1: State, s2: State, s3: State)
    requires ForestOk(s.children, s.parent, rank) && n in s.children
    requires s1 == Dropped(s, Sub(s.children, rank, n))
    requires (s1.parent[n].Under? ==> s1.parent[n].owner in s1.children) && s2 == Unlinked(s1, n) && s3 == Freed(s2, Sub(s.children, rank, n))
    ensures s3 == Erased(s, rank, n)
  {
  }

  /** Containment, arenas and ids are in order after erasing, whatever was used where. */
  lemma {:induction false} ErasedOk(s: State, ids: Ids, n: Node)
    requires ContextOk(s, ids) && n in s.children
    ensures ContextOk(Erased(s, ids.rank, n), ids.(rank := ids.rank - Sub(s.children, ids.rank, n)))
  {
    ErasedReady(s, ids.rank, n);
    var inside := Sub(s.children, ids.rank, n);
    var t := Unlinked(Dropped(s, inside), n);
    PruneOk(t.children, t.parent, ids.rank, n);
    FreedArenas(t, inside);
  }

  /** What is checked before a node is freed: the results of an op, or the arguments and predecessors of a block and
      the results of its ops, are used inside only. Nothing is checked for a region, or for anything nested deeper. */
  ghost predicate ErasePasses(s: State, rank: Ranks, n: Node)
    requires ForestOk(s.children, s.parent, rank) && n in s.children
  {
    var inside := Sub(s.children, rank, n);
    match n
    case OpNode(_) => DefsUsedInside(s, n, inside)
    case BlockNode(b) =>
      && (b in s.preds ==> forall u :: u in s.preds[b] ==> OpNode(u.user) in inside)
      && DefsUsedInside(s, n, inside) && forall o :: o in s.children[n] ==> DefsUsedInside(s, o, inside)
    case RegionNode(_) => true
  }

  ghost predicate DefsUsedInside(s: State, n: Node, inside: set<Node>) {
    forall v, u :: v in s.uses && v.entity == n && u in s.uses[v] ==> OpNode(u.user) in inside
  }

  /** Def-use chains are two-way after erasing exactly when what was defined inside was used inside only. */
  lemma {:induction false} ErasedTwoWayIff(s: State, ids: Ids, n: Node)
    requires ForestOk(s.children, s.parent, ids.rank) && n in s.children
    requires TwoWay(s.operands, s.uses, ids.operandOwners) && TwoWay(s.successors, s.preds, ids.successorOwners)
    ensures var e := Erased(s, ids.rank, n);
            TwoWay(e.operands, e.uses, ids.operandOwners) && TwoWay(e.successors, e.preds, ids.successorOwners)
            <==> UsedInside(s, Sub(s.children, ids.rank, n))
  {
    var inside := Sub(s.children, ids.rank, n);
    var us, ps := ValuesLeft(Unused(s.uses, inside), inside), BlocksLeft(Unused(s.preds, inside), inside);
    ErasedChains(s, ids.rank, n);
    LeftTwoWayIff(s.operands, s.uses, ids.operandOwners, inside, us);
    LeftTwoWayIff(s.successors, s.preds, ids.successorOwners, inside, ps);
    UsedInsideParts(s, inside, us, ps);
  }

  /** Containment, arenas, ids and def-use chains are all in order. */
  ghost predicate AllOk(s: State, ids: Ids) {
    && TwoWay(s.operands, s.uses, ids.operandOwners) && TwoWay(s.successors, s.preds, ids.successorOwners)
    && ContextOk(s, ids)
  }

  lemma {:induction false} ErasedAllOkIff(s: State, ids: Ids, n: Node)
    requires AllOk(s, ids) && n in s.children
    ensures var inside := Sub(s.children, ids.rank, n);
            AllOk(Erased(s, ids.rank, n), ids.(rank := ids.rank - inside)) <==> UsedInside(s, inside)
  {
    ErasedOk(s, ids, n);
    ErasedTwoWayIff(s, ids, n);
  }

  // ----- a concrete op that is erased too early -----

  /** Op 0 owns region 1 with block 2, whose only argument op 3 uses from outside. */
  const EarlyChildren: Children :=
    map[OpNode(0) := [RegionNode(1)], RegionNode(1) := [BlockNode(2)], BlockNode(2) := [], OpNode(3) := []]

  const EarlyParents: Parents :=
    map[OpNode(0) := Root, RegionNode(1) := Under(OpNode(0)), BlockNode(2) := Under(RegionNode(1)), OpNode(3) := Root]

  const EarlyRanks: Ranks := map[OpNode(0) := 2, RegionNode(1) := 1, BlockNode(2) := 0, OpNode(3) := 0]

  const EarlyDefs: map<Node, seq<nat>> := map[OpNode(0) := [], RegionNode(1) := [], BlockNode(2) := [0], OpNode(3) := []]

  const EarlyOperands: Operands<Value> := map[0 := [], 3 := [Operand(Value(BlockNode(2), 0), 0)]]

  const EarlyUses: UseSets<Value> := map[Value(BlockNode(2), 0) := {Use(3, 0)}]

  lemma EarlyRanked()
    ensures Ranked(EarlyChildren, EarlyRanks)
  {
  }

  lemma EarlyOwned()
    ensures forall n, c :: n in EarlyChildren && c in EarlyChildren[n] ==> IsOwned(EarlyChildren, EarlyParents, n, c)
  {
    forall n, c | n in EarlyChildren && c in EarlyChildren[n] ensures IsOwned(EarlyChildren, EarlyParents, n, c) {
      assert n == OpNode(0) || n == RegionNode(1);
    }
  }

  lemma EarlyListed()
    ensures forall c {:trigger IsListed(EarlyChildren, EarlyParents, c)} ::
              c in EarlyParents && EarlyParents[c].Under? ==> IsListed(EarlyChildren, EarlyParents, c)
    ensures forall n :: n in EarlyChildren ==> NoDuplicates(EarlyChildren[n])
  {
  }

  lemma EarlyForest()
    ensures ForestOk(EarlyChildren, EarlyParents, EarlyRanks)
  {
    EarlyRanked();
    EarlyOwned();
    EarlyListed();
  }

  lemma EarlyInside()
    requires ForestOk(EarlyChildren, EarlyParents, EarlyRanks)
    ensures BlockNode(2) in Sub(EarlyChildren, EarlyRanks, OpNode(0)) && OpNode(3) !in Sub(EarlyChildren, EarlyRanks, OpNode(0))
  {
  }

  lemma EarlyChains()
    ensures TwoWay(EarlyOperands, EarlyUses, map[0 := 3]) && TwoWay<BlockId>(map[0 := [], 3 := []], map[2 := {}], map[])
  {
  }

  const EarlyState: State := State(EarlyChildren, EarlyParents, EarlyDefs, EarlyOperands, EarlyUses, map[0 := [], 3 := []], map[2 := {}])

  const EarlyIds: Ids := Ids(EarlyRanks, map[0 := BlockNode(2)], map[0 := 3], map[], 4, 1, 1)

  lemma EarlyKeys()
    ensures EarlyDefs.Keys == EarlyChildren.Keys
    ensures forall o: OpPtr :: o in EarlyState.operands <==> OpNode(o) in EarlyChildren
    ensures forall o: OpPtr :: o in EarlyState.successors <==> OpNode(o) in EarlyChildren
    ensures forall b: BlockId :: b in EarlyState.preds <==> BlockNode(b) in EarlyChildren
  {
  }

  lemma EarlyDefsOnce()
    ensures forall v: Value :: v in EarlyUses <==> v.entity in EarlyDefs && v.uid in EarlyDefs[v.entity]
    ensures forall n :: n in EarlyDefs ==> NoDuplicates(EarlyDefs[n]) && (n.RegionNode? ==> EarlyDefs[n] == [])
  {
  }

  lemma EarlyArenas()
    ensures ArenasOk(EarlyState)
  {
    EarlyKeys();
    EarlyDefsOnce();
  }

  lemma EarlyIdsFresh()
    ensures IdsFresh(EarlyState, EarlyIds)
  {
  }

  lemma EarlyAllOk()
    ensures AllOk(EarlyState, EarlyIds)
  {
    EarlyForest();
    EarlyChains();
    EarlyArenas();
    EarlyIdsFresh();
  }

  /** The context is in order and the code's checks pass, but after erasing op 0 the context is not in order any more: the
      operand of op 3 names nothing. */
  lemma ErasedTooEarly()
    ensures AllOk(EarlyState, EarlyIds) && ErasePasses(EarlyState, EarlyRanks, OpNode(0))
    ensures var inside := Sub(EarlyChildren, EarlyRanks, OpNode(0));
            !AllOk(Erased(EarlyState, EarlyRanks, OpNode(0)), EarlyIds.(rank := EarlyRanks - inside))
  {
    EarlyAllOk();
    EarlyInside();
    ErasedAllOkIff(EarlyState, EarlyIds, OpNode(0));
    assert !UsedInside(EarlyState, Sub(EarlyChildren, EarlyRanks, OpNode(0))) by { assert Use(3, 0) in EarlyUses[Value(BlockNode(2), 0)]; }
  }

  lemma {:induction false} ErasedChains(s: State, rank: Ranks, n: Node)
    requires ForestOk(s.children, s.parent, rank) && n in s.children
    ensures var e, inside := Erased(s, rank, n), Sub(s.children, rank, n);
            && e.operands == OpsLeft(Emptied(s.operands, inside), inside) && e.uses == ValuesLeft(Unused(s.uses, inside), inside)
            && e.successors == OpsLeft(Emptied(s.successors, inside), inside) && e.preds == BlocksLeft(Unused(s.preds, inside), inside)
  {
  }

  /** The definitions that are not left are used inside only. */
  ghost predicate GoneInside<D(!new)>(uses: UseSets<D>, left: UseSets<D>, inside: set<Node>) {
    forall d, u :: d in uses && d !in left && u in uses[d] ==> OpNode(u.user) in inside
  }

  lemma UsedInsideParts(s: State, inside: set<Node>, us: UseSets<Value>, ps: UseSets<BlockId>)
    requires us == ValuesLeft(Unused(s.uses, inside), inside) && ps == BlocksLeft(Unused(s.preds, inside), inside)
    ensures UsedInside(s, inside) <==> GoneInside(s.uses, us, inside) && GoneInside(s.preds, ps, inside)
  {
    assert forall v :: v in s.uses ==> (v !in us <==> v.entity in inside);
    assert forall b :: b in s.preds ==> (b !in ps <==> BlockNode(b) in inside);
  }

  /** The same for one kind of definition, of which those in `left` are left. */
  lemma LeftTwoWayIff<D(!new)>(operands: Operands<D>, uses: UseSets<D>, owners: Owners, inside: set<Node>, left: UseSets<D>)
    requires TwoWay(operands, uses, owners) && left.Keys <= uses.Keys && forall d :: d in left ==> left[d] == Unused(uses, inside)[d]
    ensures TwoWay(OpsLeft(Emptied(operands, inside), inside), left, owners) <==> GoneInside(uses, left, inside)
  {
    var os := OpsLeft(Emptied(operands, inside), inside);
    if TwoWay(os, left, owners) {
      forall d, u | d in uses && d !in left && u in uses[d] ensures OpNode(u.user) in inside {
        LeftNames(operands, uses, owners, inside, left, d, u);
      }
    }
    if GoneInside(uses, left, inside) { LeftKeeps(operands, uses, owners, inside, left); }
  }

  /** An operand outside names a definition that is left. */
  lemma LeftNames<D(!new)>(operands: Operands<D>, uses: UseSets<D>, owners: Owners, inside: set<Node>, left: UseSets<D>, d: D, u: Use)
    requires TwoWay(operands, uses, owners) && d in uses && u in uses[d]
    requires OperandsLive(OpsLeft(Emptied(operands, inside), inside), left, owners)
    ensures OpNode(u.user) in inside || d in left
  {
    var os := OpsLeft(Emptied(operands, inside), inside);
    assert Holds(operands, u, d);
    if OpNode(u.user) !in inside { assert u.user in os && Operand(d, u.uid) in os[u.user]; }
  }

  lemma LeftKeeps<D(!new)>(operands: Operands<D>, uses: UseSets<D>, owners: Owners, inside: set<Node>, left: UseSets<D>)
    requires TwoWay(operands, uses, owners) && left.Keys <= uses.Keys && forall d :: d in left ==> left[d] == Unused(uses, inside)[d]
    requires GoneInside(uses, left, inside)
    ensures TwoWay(OpsLeft(Emptied(operands, inside), inside), left, owners)
  {
    var os := OpsLeft(Emptied(operands, inside), inside);
    forall o: OpPtr, x: Operand<D> | o in os && x in os[o] ensures x.def in left {
      var i :| 0 <= i < |operands[o]| && operands[o][i] == x;
      OperandTracked(operands, uses, owners, o, i);
    }
    forall d, u | d in left ensures u in left[d] <==> Holds(os, u, d) { assert u in uses[d] <==> Holds(operands, u, d); }
  }

  // ----- growing the state -----

  /** A node without owner, and with nothing of its own. */
  function WithNode(s: State, n: Node): State {
    WithLists(s, n).(children := s.children[n := []], parent := s.parent[n := Root], defs := s.defs[n := []])
  }

  function WithLists(s: State, n: Node): State {
    s.(operands := if n.OpNode? then s.operands[n.id := []] else s.operands,
       successors := if n.OpNode? then s.successors[n.id := []] else s.successors,
       preds := if n.BlockNode? then s.preds[n.id := {}] else s.preds)
  }

  /** What there was, but for node `o`, owns and defines what it did, under the owner that it had. */
  ghost predicate KeptBut(s: State, t: State, o: Node) {
    forall n {:trigger KeptAt(s, t, n)} :: n in s.children && n != o ==> KeptAt(s, t, n)
  }

  lemma KeptSame(s: State, t: State, o: Node)
    requires s.parent.Keys == s.children.Keys && s.defs.Keys == s.children.Keys && t.children == s.children && t.parent == s.parent
    requires forall m :: m in s.defs && m != o ==> m in t.defs && t.defs[m] == s.defs[m]
    ensures KeptBut(s, t, o)
  {
  }

  lemma KeptThen(s: State, t: State, u: State, o: Node)
    requires KeptBut(s, t, o) && KeptBut(t, u, o)
    ensures KeptBut(s, u, o)
  {
    forall n | n in s.children && n != o ensures KeptAt(s, u, n) { assert KeptAt(s, t, n) && KeptAt(t, u, n); }
  }

  lemma KeptNew(s: State, n: Node)
    requires s.parent.Keys == s.children.Keys && s.defs.Keys == s.children.Keys
    ensures KeptBut(s, WithNode(s, n), n)
  {
  }

  lemma KeptRegion(s: State, r: Node, o: Node, i: nat)
    requires s.parent.Keys == s.children.Keys && s.defs.Keys == s.children.Keys && r !in s.children && o in s.children && i <= |s.children[o]|
    ensures KeptBut(s, WithLink(WithNode(s, r), r, o, i), o)
  {
  }

  predicate KeptAt(s: State, t: State, n: Node) {
    && n in s.children && n in t.children && t.children[n] == s.children[n]
    && n in s.parent && n in t.parent && t.parent[n] == s.parent[n] && n in s.defs && n in t.defs && t.defs[n] == s.defs[n]
  }

  lemma WithNodeOk(s: State, ids: Ids, n: Node)
    requires ContextOk(s, ids) && n.id == ids.nextKey
    ensures n !in s.children && ContextOk(WithNode(s, n), ids.(rank := ids.rank[n := 0], nextKey := n.id + 1))
  {
    NewNodeOk(s.children, s.parent, ids.rank, n);
    WithNodeArenas(s, n);
    WithNodeFresh(s, ids, n);
  }

  lemma WithNodeFresh(s: State, ids: Ids, n: Node)
    requires IdsFresh(s, ids) && n.id == ids.nextKey
    ensures IdsFresh(WithNode(s, n), ids.(rank := ids.rank[n := 0], nextKey := n.id + 1))
  {
  }

  lemma WithNodeArenas(s: State, n: Node)
    requires ArenasOk(s) && n !in s.children
    ensures ArenasOk(WithNode(s, n))
  {
  }

  // ----- where things are afterwards -----

  lemma LinkIs(s: State, c: Node, n: Node, i: nat)
    requires n in s.children && i <= |s.children[n]|
    ensures var t := WithLink(s, c, n, i);
            SameBut(s.children, t.children, n) && IsInserted(s.children[n], t.children[n], i, c)
  {
    InsertedAtIs(s.children[n], i, c);
  }

  lemma DefIs(s: State, n: Node, i: nat, uid: nat)
    requires n in s.defs && i <= |s.defs[n]|
    ensures var t := WithDef(s, n, i, uid); SameBut(s.defs, t.defs, n) && IsInserted(s.defs[n], t.defs[n], i, uid)
  {
    InsertedAtIs(s.defs[n], i, uid);
  }

  lemma NoDefIs(s: State, n: Node, i: nat)
    requires n in s.defs && i < |s.defs[n]|
    ensures var t := WithoutDef(s, n, i); SameBut(s.defs, t.defs, n) && IsRemoved(s.defs[n], t.defs[n], i)
  {
    CutIs(s.defs[n], i);
  }

  lemma OperandIs(s: State, o: OpPtr, i: nat, d: Value, uid: nat)
    requires o in s.operands && i <= |s.operands[o]| && d in s.uses
    ensures var t := WithOperand(s, o, i, d, uid);
            SameBut(s.operands, t.operands, o) && IsInserted(s.operands[o], t.operands[o], i, Operand(d, uid))
  {
    InsertedIs(s.operands[o], i, Operand(d, uid));
  }

  lemma NoOperandIs(s: State, o: OpPtr, i: nat)
    requires o in s.operands && i < |s.operands[o]| && s.operands[o][i].def in s.uses
    ensures var t := WithoutOperand(s, o, i); SameBut(s.operands, t.operands, o) && IsRemoved(s.operands[o], t.operands[o], i)
  {
    RemovedIs(s.operands[o], i);
  }

  lemma SuccessorIs(s: State, o: OpPtr, i: nat, d: BlockId, uid: nat)
    requires o in s.successors && i <= |s.successors[o]| && d in s.preds
    ensures var t := WithSuccessor(s, o, i, d, uid);
            SameBut(s.successors, t.successors, o) && IsInserted(s.successors[o], t.successors[o], i, Operand(d, uid))
  {
    InsertedIs(s.successors[o], i, Operand(d, uid));
  }

  lemma NoSuccessorIs(s: State, o: OpPtr, i: nat)
    requires o in s.successors && i < |s.successors[o]| && s.successors[o][i].def in s.preds
    ensures var t := WithoutSuccessor(s, o, i); SameBut(s.successors, t.successors, o) && IsRemoved(s.successors[o], t.successors[o], i)
  {
    RemovedIs(s.successors[o], i);
  }

  lemma MovedIs(s: State, r: Node, n: Node)
    requires r in s.parent && s.parent[r].Under? && s.parent[r].owner in s.children && r in s.children[s.parent[r].owner] && n in s.children
    ensures IsMoved(s.children, MovedRegion(s, r, n).children, s.parent[r].owner, r, n)
  {
    var src := s.parent[r].owner;
    SwapRemovedIs(s.children[src], IndexOf(s.children[src], r));
  }

  /** Node `r` went from `src` to the end of the list of `n`, and the last one of `src` took its place. */
  ghost predicate IsMoved(before: Children, after: Children, src: Node, r: Node, n: Node) {
    && src in before && n in before && after.Keys == before.Keys
    && (src == n ==> after == before)
    && (forall m :: m in before && m != src && m != n ==> after[m] == before[m])
    && (src != n ==> IsInserted(before[n], after[n], |before[n]|, r) && IsSwapRemoved(before[src], after[src], IndexOf(before[src], r)))
  }

  /** One more result or argument, at position `i`. */
  function WithDef(s: State, n: Node, i: nat, uid: nat): State
    requires n in s.defs && i <= |s.defs[n]|
  {
    s.(defs := s.defs[n := InsertedAt(s.defs[n], i, uid)], uses := s.uses[Value(n, uid) := {}])
  }

  lemma WithDefOk(s: State, ids: Ids, n: Node, i: nat)
    requires ContextOk(s, ids) && n in s.defs && i <= |s.defs[n]| && !n.RegionNode?
    ensures Value(n, ids.nextVal) !in s.uses
    ensures ContextOk(WithDef(s, n, i, ids.nextVal), WithValueId(ids, n))
  {
    var uid := ids.nextVal;
    assert forall x :: x in s.defs[n] ==> Value(n, x) in s.uses;
    WithDefArenas(s, n, i, uid);
    WithDefFresh(s, ids, n, i);
  }

  function WithValueId(ids: Ids, n: Node): Ids {
    ids.(definers := ids.definers[ids.nextVal := n], nextVal := ids.nextVal + 1)
  }

  lemma WithDefFresh(s: State, ids: Ids, n: Node, i: nat)
    requires IdsFresh(s, ids) && n in s.defs && i <= |s.defs[n]|
    ensures IdsFresh(WithDef(s, n, i, ids.nextVal), WithValueId(ids, n))
  {
  }

  /** A map with one entry changed. */
  function Put<K, V>(m: map<K, V>, k: K, v: V): (r: map<K, V>)
    requires k in m
    ensures r.Keys == m.Keys
  {
    m[k := v]
  }

  function WithUses(s: State, operands: Operands<Value>, uses: UseSets<Value>): State {
    s.(operands := operands, uses := uses)
  }

  function WithPreds(s: State, successors: Operands<BlockId>, preds: UseSets<BlockId>): State {
    s.(successors := successors, preds := preds)
  }

  /** A use id handed out for an operand (or a successor) of op `o`. */
  function WithOperandId(ids: Ids, o: OpPtr): Ids {
    ids.(operandOwners := ids.operandOwners[ids.nextUse := o], nextUse := ids.nextUse + 1)
  }

  function WithSuccessorId(ids: Ids, o: OpPtr): Ids {
    ids.(successorOwners := ids.successorOwners[ids.nextUse := o], nextUse := ids.nextUse + 1)
  }

  /** Operands and use sets change, but not which there are. */
  lemma WithUsesOk(s: State, ids: Ids, operands: Operands<Value>, uses: UseSets<Value>)
    requires ContextOk(s, ids) && operands.Keys == s.operands.Keys && uses.Keys == s.uses.Keys
    ensures ContextOk(WithUses(s, operands, uses), ids)
  {
    SameThingsOk(s, WithUses(s, operands, uses), ids);
  }

  lemma WithPredsOk(s: State, ids: Ids, successors: Operands<BlockId>, preds: UseSets<BlockId>)
    requires ContextOk(s, ids) && successors.Keys == s.successors.Keys && preds.Keys == s.preds.Keys
    ensures ContextOk(WithPreds(s, successors, preds), ids)
  {
    SameThingsOk(s, WithPreds(s, successors, preds), ids);
  }

  /** A new operand of op `o`, at position `i`. */
  function WithOperand(s: State, o: OpPtr, i: nat, d: Value, uid: nat): State
    requires o in s.operands && i <= |s.operands[o]| && d in s.uses
  {
    WithUses(s, Put(s.operands, o, Inserted(s.operands[o], i, Operand(d, uid))), Put(s.uses, d, s.uses[d] + {Use(o, uid)}))
  }

  lemma WithOperandOk(s: State, ids: Ids, o: OpPtr, i: nat, d: Value)
    requires ContextOk(s, ids) && o in s.operands && i <= |s.operands[o]| && d in s.uses
    ensures ids.nextUse !in ids.operandOwners && ContextOk(WithOperand(s, o, i, d, ids.nextUse), WithOperandId(ids, o))
  {
    var t := WithOperand(s, o, i, d, ids.nextUse);
    WithUsesOk(s, ids, t.operands, t.uses);
    UseIdOk(t, ids, o);
  }

  /** Op `o` without the operand (or successor) at position `i`. */
  function WithoutOperand(s: State, o: OpPtr, i: nat): State
    requires o in s.operands && i < |s.operands[o]| && s.operands[o][i].def in s.uses
  {
    var x := s.operands[o][i];
    WithUses(s, Put(s.operands, o, Removed(s.operands[o], i)), Put(s.uses, x.def, s.uses[x.def] - {Use(o, x.uid)}))
  }

  /** A new successor of op `o`, at position `i`. */
  function WithSuccessor(s: State, o: OpPtr, i: nat, d: BlockId, uid: nat): State
    requires o in s.successors && i <= |s.successors[o]| && d in s.preds
  {
    WithPreds(s, Put(s.successors, o, Inserted(s.successors[o], i, Operand(d, uid))), Put(s.preds, d, s.preds[d] + {Use(o, uid)}))
  }

  lemma WithSuccessorOk(s: State, ids: Ids, o: OpPtr, i: nat, d: BlockId)
    requires ContextOk(s, ids) && o in s.successors && i <= |s.successors[o]| && d in s.preds
    ensures ids.nextUse !in ids.successorOwners && ContextOk(WithSuccessor(s, o, i, d, ids.nextUse), WithSuccessorId(ids, o))
  {
    var t := WithSuccessor(s, o, i, d, ids.nextUse);
    WithPredsOk(s, ids, t.successors, t.preds);
    UseIdOk(t, ids, o);
  }

  /** Op `o` without the operand (or successor) at position `i`. */
  function WithoutSuccessor(s: State, o: OpPtr, i: nat): State
    requires o in s.successors && i < |s.successors[o]| && s.successors[o][i].def in s.preds
  {
    var x := s.successors[o][i];
    WithPreds(s, Put(s.successors, o, Removed(s.successors[o], i)), Put(s.preds, x.def, s.preds[x.def] - {Use(o, x.uid)}))
  }

  /** A new operand takes the place of the one at position `i`. */
  function ReplacedOperand(s: State, o: OpPtr, i: nat, d: Value, uid: nat): State
    requires o in s.operands && i < |s.operands[o]| && d in s.uses && s.operands[o][i].def in s.uses
  {
    var x, us := s.operands[o][i], Put(s.uses, d, s.uses[d] + {Use(o, uid)});
    WithUses(s, Put(s.operands, o, s.operands[o][i := Operand(d, uid)]), Put(us, x.def, us[x.def] - {Use(o, x.uid)}))
  }

  lemma ReplacedOperandOk(s: State, ids: Ids, o: OpPtr, i: nat, d: Value)
    requires ContextOk(s, ids) && o in s.operands && i < |s.operands[o]| && d in s.uses && s.operands[o][i].def in s.uses
    ensures ids.nextUse !in ids.operandOwners && ContextOk(ReplacedOperand(s, o, i, d, ids.nextUse), WithOperandId(ids, o))
  {
    var t := ReplacedOperand(s, o, i, d, ids.nextUse);
    WithUsesOk(s, ids, t.operands, t.uses);
    UseIdOk(t, ids, o);
  }

  /** A new successor takes the place of the one at position `i`. */
  function ReplacedSuccessor(s: State, o: OpPtr, i: nat, d: BlockId, uid: nat): State
    requires o in s.successors && i < |s.successors[o]| && d in s.preds && s.successors[o][i].def in s.preds
  {
    var x, us := s.successors[o][i], Put(s.preds, d, s.preds[d] + {Use(o, uid)});
    WithPreds(s, Put(s.successors, o, s.successors[o][i := Operand(d, uid)]), Put(us, x.def, us[x.def] - {Use(o, x.uid)}))
  }

  lemma ReplacedSuccessorOk(s: State, ids: Ids, o: OpPtr, i: nat, d: BlockId)
    requires ContextOk(s, ids) && o in s.successors && i < |s.successors[o]| && d in s.preds && s.successors[o][i].def in s.preds
    ensures ids.nextUse !in ids.successorOwners && ContextOk(ReplacedSuccessor(s, o, i, d, ids.nextUse), WithSuccessorId(ids, o))
  {
    var t := ReplacedSuccessor(s, o, i, d, ids.nextUse);
    WithPredsOk(s, ids, t.successors, t.preds);
    UseIdOk(t, ids, o);
  }

  lemma UseIdOk(s: State, ids: Ids, o: OpPtr)
    requires ContextOk(s, ids)
    ensures ids.nextUse !in ids.operandOwners && ContextOk(s, WithOperandId(ids, o))
    ensures ids.nextUse !in ids.successorOwners && ContextOk(s, WithSuccessorId(ids, o))
  {
  }

  lemma WithDefArenas(s: State, n: Node, i: nat, uid: nat)
    requires ArenasOk(s) && n in s.defs && i <= |s.defs[n]| && uid !in s.defs[n] && !n.RegionNode?
    ensures ArenasOk(WithDef(s, n, i, uid))
  {
    InsertedAtIn(s.defs[n], i, uid);
  }

  function WithoutDef(s: State, n: Node, i: nat): State
    requires n in s.defs && i < |s.defs[n]|
  {
    s.(defs := s.defs[n := s.defs[n][..i] + s.defs[n][i + 1..]], uses := s.uses - {Value(n, s.defs[n][i])})
  }

  lemma WithoutDefOk(s: State, ids: Ids, n: Node, i: nat)
    requires ContextOk(s, ids) && n in s.defs && i < |s.defs[n]|
    ensures Value(n, s.defs[n][i]) in s.uses && ContextOk(WithoutDef(s, n, i), ids)
  {
    WithoutDefArenas(s, n, i);
  }

  lemma WithoutDefArenas(s: State, n: Node, i: nat)
    requires ArenasOk(s) && n in s.defs && i < |s.defs[n]|
    ensures ArenasOk(WithoutDef(s, n, i))
  {
    WithoutAt(s.defs[n], i);
    WithoutIn(s.defs[n], s.defs[n][i]);
  }

  /** The operand lists and use sets change, but not what there is. */
  ghost predicate SameThings(s: State, t: State) {
    && t.children == s.children && t.parent == s.parent && t.defs == s.defs
    && t.operands.Keys == s.operands.Keys && t.uses.Keys == s.uses.Keys
    && t.successors.Keys == s.successors.Keys && t.preds.Keys == s.preds.Keys
  }

  lemma SameThingsOk(s: State, t: State, ids: Ids)
    requires ContextOk(s, ids) && SameThings(s, t)
    ensures ContextOk(t, ids)
  {
  }

  /** A node without owner is put under another, at position `i`. */
  function WithLink(s: State, c: Node, n: Node, i: nat): State
    requires n in s.children && i <= |s.children[n]|
  {
    s.(children := s.children[n := InsertedAt(s.children[n], i, c)], parent := s.parent[c := Under(n)])
  }

  /** A node without owner, and a place for it in another node's list. */
  ghost predicate MayLink(s: State, c: Node, n: Node, i: nat)
    requires s.parent.Keys == s.children.Keys
  {
    c in s.children && s.parent[c] == Root && n in s.children && i <= |s.children[n]| && Fits(n, c)
  }

  /** The link makes no cycle. */
  ghost predicate CanLink(s: State, rank: Ranks, c: Node, n: Node, i: nat)
    requires ForestOk(s.children, s.parent, rank)
  {
    MayLink(s, c, n, i) && n !in Sub(s.children, rank, c)
  }

  /** A node that is put under something inside itself is in no forest. */
  lemma {:induction false} LinkedCycle(s: State, rank: Ranks, c: Node, n: Node, i: nat, rank': Ranks)
    requires ForestOk(s.children, s.parent, rank) && MayLink(s, c, n, i) && n in Sub(s.children, rank, c)
    ensures !Ranked(WithLink(s, c, n, i).children, rank')
  {
    var after := WithLink(s, c, n, i).children;
    assert after[n][i] == c;
    CycleUnranked(s.children, rank, after, rank', c, n);
  }

  lemma WithLinkOk(s: State, ids: Ids, c: Node, n: Node, i: nat)
    requires ContextOk(s, ids) && CanLink(s, ids.rank, c, n, i)
    ensures ContextOk(WithLink(s, c, n, i), ids.(rank := Lifted(s.children, ids.rank, c)))
  {
    LinkOk(s.children, s.parent, ids.rank, c, n, i);
    WithLinkArenas(s, c, n, i);
  }

  lemma {:induction false} WithLinkIff(s: State, ids: Ids, c: Node, n: Node, i: nat)
    requires ContextOk(s, ids) && MayLink(s, c, n, i)
    ensures ContextOk(WithLink(s, c, n, i), ids.(rank := Lifted(s.children, ids.rank, c))) <==> n !in Sub(s.children, ids.rank, c)
  {
    if n in Sub(s.children, ids.rank, c) {
      LinkedCycle(s, ids.rank, c, n, i, Lifted(s.children, ids.rank, c));
    } else {
      WithLinkOk(s, ids, c, n, i);
    }
  }

  lemma WithLinkArenas(s: State, c: Node, n: Node, i: nat)
    requires ArenasOk(s) && n in s.children && i <= |s.children[n]|
    ensures ArenasOk(WithLink(s, c, n, i))
  {
    assert WithLink(s, c, n, i).children.Keys == s.children.Keys;
  }

  lemma UnlinkedOk(s: State, ids: Ids, n: Node)
    requires ContextOk(s, ids) && n in s.children
    ensures s.parent[n].Under? ==> s.parent[n].owner in s.children
    ensures ContextOk(Unlinked(s, n), ids)
  {
    UnlinkKeeps(s, ids.rank, n);
    UnlinkArenas(s, n);
  }

  /** The state after region `r` was moved to the end of the regions of op `n`; the last region of its old op
      takes its place there. Nothing changes if it is that op's already. */
  function MovedRegion(s: State, r: Node, n: Node): State
    requires r in s.parent && s.parent[r].Under? && s.parent[r].owner in s.children && r in s.children[s.parent[r].owner] && n in s.children
  {
    var src := s.parent[r].owner;
    if src == n then s else
    var ch := Put(s.children, src, SwapRemoved(s.children[src], IndexOf(s.children[src], r)));
    s.(children := Put(ch, n, ch[n] + [r]), parent := s.parent[r := Under(n)])
  }

  /** A region of an op, and an op. */
  ghost predicate MayMove(s: State, r: Node, n: Node)
    requires s.parent.Keys == s.children.Keys
  {
    r in s.children && s.parent[r].Under? && n in s.children && Fits(n, r)
  }

  /** The region's new op is not inside the region. */
  ghost predicate CanMove(s: State, rank: Ranks, r: Node, n: Node)
    requires ForestOk(s.children, s.parent, rank)
  {
    MayMove(s, r, n) && n !in Sub(s.children, rank, r)
  }

  /** A region that was moved to an op inside it is in no forest. */
  lemma {:induction false} MovedCycle(s: State, rank: Ranks, r: Node, n: Node, rank': Ranks)
    requires ForestOk(s.children, s.parent, rank) && MayMove(s, r, n) && n in Sub(s.children, rank, r)
    ensures s.parent[r].owner in s.children && r in s.children[s.parent[r].owner]
    ensures !Ranked(MovedRegion(s, r, n).children, rank')
  {
    OwnerOutside(s.children, s.parent, rank, r);
    var after := MovedRegion(s, r, n).children;
    assert after[n][|after[n]| - 1] == r;
    CycleUnranked(s.children, rank, after, rank', r, n);
  }

  lemma MovedRegionOk(s: State, ids: Ids, r: Node, n: Node) returns (rank: Ranks)
    requires ContextOk(s, ids) && CanMove(s, ids.rank, r, n)
    ensures s.parent[r].owner in s.children && r in s.children[s.parent[r].owner]
    ensures ContextOk(MovedRegion(s, r, n), ids.(rank := rank))
  {
    rank := MovedForest(s, ids.rank, r, n);
    MovedFrame(s, r, n);
    MovedArenas(s, MovedRegion(s, r, n));
  }

  /** The moved region is in order again exactly when it did not hold its new op. */
  lemma MovedRegionIff(s: State, ids: Ids, r: Node, n: Node) returns (rank: Ranks)
    requires ContextOk(s, ids) && MayMove(s, r, n)
    ensures s.parent[r].owner in s.children && r in s.children[s.parent[r].owner]
    ensures ContextOk(MovedRegion(s, r, n), ids.(rank := rank)) <==> n !in Sub(s.children, ids.rank, r)
  {
    rank := ids.rank;
    if n in Sub(s.children, ids.rank, r) {
      MovedCycle(s, ids.rank, r, n, rank);
    } else {
      rank := MovedRegionOk(s, ids, r, n);
    }
  }

  lemma MovedForest(s: State, rank: Ranks, r: Node, n: Node) returns (rank': Ranks)
    requires ForestOk(s.children, s.parent, rank) && CanMove(s, rank, r, n)
    ensures s.parent[r].owner in s.children && r in s.children[s.parent[r].owner]
    ensures var t := MovedRegion(s, r, n); ForestOk(t.children, t.parent, rank')
  {
    assert IsListed(s.children, s.parent, r);
    if s.parent[r].owner == n { return rank; }
    rank' := MovedElsewhere(s, rank, r, n);
  }

  lemma InsertedLast(ns: seq<Node>, n: Node)
    ensures InsertedAt(ns, |ns|, n) == ns + [n]
  {
  }

  lemma MovedElsewhere(s: State, rank: Ranks, r: Node, n: Node) returns (rank': Ranks)
    requires ForestOk(s.children, s.parent, rank) && CanMove(s, rank, r, n) && s.parent[r].owner != n
    requires s.parent[r].owner in s.children && r in s.children[s.parent[r].owner]
    ensures var t := MovedRegion(s, r, n); ForestOk(t.children, t.parent, rank')
  {
    var src := s.parent[r].owner;
    var i := IndexOf(s.children[src], r);
    MoveOk(s.children, s.parent, rank, r, i, n);
    var ch := s.children[src := SwapRemoved(s.children[src], i)];
    InsertedLast(ch[n], r);
    assert s.parent[r := Root][r := Under(n)] == s.parent[r := Under(n)];
    rank' := Lifted(ch, rank, r);
  }

  lemma MovedArenas(s: State, t: State)
    requires ArenasOk(s) && t.children.Keys == s.children.Keys && t == s.(children := t.children, parent := t.parent)
    ensures ArenasOk(t)
  {
  }

  lemma MovedFrame(s: State, r: Node, n: Node)
    requires r in s.parent && s.parent[r].Under? && s.parent[r].owner in s.children && r in s.children[s.parent[r].owner] && n in s.children
    ensures var t := MovedRegion(s, r, n); t.children.Keys == s.children.Keys && t == s.(children := t.children, parent := t.parent)
  {
  }
}

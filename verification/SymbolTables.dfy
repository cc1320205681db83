/** Symbol tables that are kept up to date while symbols are inserted, removed and erased through them. */
module SymbolTables {
  import opened Options
  import opened SeqLists
  import opened DefUse
  import opened IrForest
  import opened SymbolScan

  datatype SymbolError = SymbolRedefined(name: Name) | SymbolOpAlreadyInAnotherTable(name: Name) | InsertionPointNotInSameTable | SymbolOpNotInTableOp

  datatype Outcome = Ok | Err(error: SymbolError)

  /** Before the op at this position of a block; at its length, the end of the block. */
  datatype InsertionPoint = InsertionPoint(block: Node, index: nat)

  // ----- where things are -----

  /** The op has one region with one block. */
  predicate OneBlock(children: Children, t: OpPtr) {
    && OpNode(t) in children && |children[OpNode(t)]| == 1
    && children[OpNode(t)][0] in children && |children[children[OpNode(t)][0]]| == 1
    && children[children[OpNode(t)][0]][0] in children && children[children[OpNode(t)][0]][0].BlockNode?
  }

  function BodyBlock(children: Children, t: OpPtr): Node
    requires OneBlock(children, t)
  {
    children[children[OpNode(t)][0]][0]
  }

  function Body(children: Children, t: OpPtr): seq<Node>
    requires OneBlock(children, t)
  {
    children[BodyBlock(children, t)]
  }

  function OwnerOf(parent: Parents, n: Node): Option<Node> {
    if n in parent && parent[n].Under? then Some(parent[n].owner) else None
  }

  /** The op whose region holds the node's block, or the node's own block for a block. */
  function ParentOp(parent: Parents, n: Node): Option<OpPtr> {
    var block := if n.BlockNode? then Some(n) else OwnerOf(parent, n);
    if block.None? then None else
    var region := OwnerOf(parent, block.value);
    if region.None? then None else
    var op := OwnerOf(parent, region.value);
    if op.Some? && op.value.OpNode? then Some(op.value.id) else None
  }

  /** A block of an op with one block is that block. */
  lemma OnlyBlock(children: Children, parent: Parents, rank: Ranks, t: OpPtr, b: Node)
    requires ForestOk(children, parent, rank) && OneBlock(children, t) && b.BlockNode? && b in children
    ensures ParentOp(parent, b) == Some(t) <==> b == BodyBlock(children, t)
  {
    var r := children[OpNode(t)][0];
    assert IsOwned(children, parent, OpNode(t), r) && IsOwned(children, parent, r, BodyBlock(children, t));
    if ParentOp(parent, b) == Some(t) {
      assert IsListed(children, parent, b);
      assert IsListed(children, parent, parent[b].owner);
    }
  }

  /** The ops of the body are those whose parent op is the table op. */
  lemma BodyIs(children: Children, parent: Parents, rank: Ranks, t: OpPtr, o: OpPtr)
    requires ForestOk(children, parent, rank) && OneBlock(children, t) && OpNode(o) in children
    ensures OpNode(o) in Body(children, t) <==> ParentOp(parent, OpNode(o)) == Some(t)
    ensures OpNode(o) in Body(children, t) ==> parent[OpNode(o)] == Under(BodyBlock(children, t))
  {
    if OpNode(o) in Body(children, t) {
      assert IsOwned(children, parent, BodyBlock(children, t), OpNode(o));
      OnlyBlock(children, parent, rank, t, BodyBlock(children, t));
    }
    if ParentOp(parent, OpNode(o)) == Some(t) {
      assert IsListed(children, parent, OpNode(o));
      assert IsOwned(children, parent, parent[OpNode(o)].owner, OpNode(o));
      OnlyBlock(children, parent, rank, t, parent[OpNode(o)].owner);
    }
  }

  /** A table op and its cached table. */
  ghost predicate TableOk(children: Children, names: Names, t: OpPtr, table: Table) {
    && OneBlock(children, t) && UniqueNames(names, Body(children, t)) && table == Scan(names, Body(children, t))
  }

  /** Every live table op has its one block, and every cached table of one is what a scan of its body gives. */
  ghost predicate TablesOk(children: Children, names: Names, tableOps: set<OpPtr>, tables: map<OpPtr, Table>) {
    && (forall t :: t in tableOps && OpNode(t) in children ==> OneBlock(children, t))
    && (forall t :: t in tables && OpNode(t) in children ==> t in tableOps && TableOk(children, names, t, tables[t]))
  }

  /** An op that may be put into the body of `t`: it is not linked, or it is in some op already; and `t` is not inside it. */
  ghost predicate Insertable(children: Children, parent: Parents, rank: Ranks, t: OpPtr, o: OpPtr) {
    && ForestOk(children, parent, rank) && OneBlock(children, t) && OpNode(o) in children
    && (ParentOp(parent, OpNode(o)).None? ==> parent[OpNode(o)] == Root)
    && BodyBlock(children, t) !in Sub(children, rank, OpNode(o))
  }

  function InsertOutcome(parent: Parents, table: Table, t: OpPtr, o: OpPtr, x: Name, point: Option<InsertionPoint>): Outcome {
    if x in table then Err(SymbolRedefined(x))
    else if ParentOp(parent, OpNode(o)).Some? then Err(SymbolOpAlreadyInAnotherTable(x))
    else if point.Some? && ParentOp(parent, point.value.block) != Some(t) then Err(InsertionPointNotInSameTable)
    else Ok
  }

  /** The position in the body that a symbol is inserted at. */
  function Place(children: Children, terminators: set<OpPtr>, t: OpPtr, point: Option<InsertionPoint>): nat
    requires OneBlock(children, t)
  {
    var body := Body(children, t);
    if point.Some? then point.value.index
    else if body != [] && body[|body| - 1].OpNode? && body[|body| - 1].id in terminators then |body| - 1
    else |body|
  }

  /** The body ends in a terminator. */
  predicate Terminated(body: seq<Node>, terminators: set<OpPtr>) {
    body != [] && body[|body| - 1].OpNode? && body[|body| - 1].id in terminators
  }

  /** A new op in a body: at the point given, with what was before it before it and what was behind it behind it; without
      a point behind everything, or behind everything but a terminator that comes last. */
  ghost predicate PutIn(before: seq<Node>, after: seq<Node>, n: Node, terminators: set<OpPtr>, point: Option<InsertionPoint>) {
    match point
    case Some(p) => IsInserted(before, after, p.index, n)
    case None =>
      if Terminated(before, terminators) then after == before[..|before| - 1] + [n, before[|before| - 1]] else after == before + [n]
  }

  lemma PlaceIs(children: Children, terminators: set<OpPtr>, t: OpPtr, o: OpPtr, point: Option<InsertionPoint>)
    requires OneBlock(children, t) && Place(children, terminators, t, point) <= |Body(children, t)|
    ensures PutIn(Body(children, t), InsertedAt(Body(children, t), Place(children, terminators, t, point), OpNode(o)), OpNode(o), terminators, point)
  {
    InsertedAtIs(Body(children, t), Place(children, terminators, t, point), OpNode(o));
  }

  /** Without an insertion point, a terminator that comes last stays last. */
  lemma DefaultKeepsTerminator(body: seq<Node>, children: Children, terminators: set<OpPtr>, t: OpPtr, o: OpPtr)
    requires OneBlock(children, t) && body == Body(children, t)
    ensures var i := Place(children, terminators, t, None);
            && i <= |body|
            && var after := InsertedAt(body, i, OpNode(o));
               body != [] && body[|body| - 1].OpNode? && body[|body| - 1].id in terminators ==> after[|after| - 1] == body[|body| - 1]
  {
  }

  /** A symbol that is in the table's body already is in the table: inserting it again is always a redefinition. */
  lemma NotInBody(children: Children, parent: Parents, rank: Ranks, names: Names, t: OpPtr, o: OpPtr, table: Table)
    requires ForestOk(children, parent, rank) && TableOk(children, names, t, table) && OpNode(o) in children && o in names
    requires names[o] !in table
    ensures ParentOp(parent, OpNode(o)) != Some(t)
  {
    BodyIs(children, parent, rank, t, o);
    ScanFinds(names, Body(children, t), names[o], o);
  }

  /** A failed insert leaves the table right only if the op was in it under its name before. */
  lemma FailedInsertIff(children: Children, names: Names, t: OpPtr, o: OpPtr, table: Table)
    requires TableOk(children, names, t, table) && o in names
    ensures TableOk(children, names, t, WithSymbol(table, names[o], o)) <==> OpNode(o) in Body(children, t)
  {
    ScanFinds(names, Body(children, t), names[o], o);
    if OpNode(o) in Body(children, t) { assert table[names[o] := o] == table; }
  }

  /** A body with one symbol, and another op of the same name outside of it. */
  const TwoOfAName: Children :=
    map[OpNode(0) := [RegionNode(1)], RegionNode(1) := [BlockNode(2)], BlockNode(2) := [OpNode(3)], OpNode(3) := [], OpNode(4) := []]

  /** Inserting the other op is refused, and leaves it in the table instead of the op that the body holds. */
  lemma RefusedStays(parent: Parents, names: Names)
    requires names == map[3 := "f", 4 := "f"]
    ensures TableOk(TwoOfAName, names, 0, map["f" := 3])
    ensures InsertOutcome(parent, map["f" := 3], 0, 4, "f", None) == Err(SymbolRedefined("f"))
    ensures !TableOk(TwoOfAName, names, 0, WithSymbol(map["f" := 3], "f", 4))
  {
    var body := Body(TwoOfAName, 0);
    assert body[..0] == [] && Scan(names, body[..0]) == map[];
    assert Scan(names, body) == map["f" := 3];
    FailedInsertIff(TwoOfAName, names, 0, 4, map["f" := 3]);
  }

  /** The body of one table op changes to `cs`, and its table with it. */
  lemma {:induction false} BodyChanged(children: Children, parent: Parents, rank: Ranks, names: Names, tableOps: set<OpPtr>, tables: map<OpPtr, Table>,
                    t: OpPtr, cs: seq<Node>, table: Table)
    requires ForestOk(children, parent, rank) && TablesOk(children, names, tableOps, tables) && t in tableOps && OneBlock(children, t)
    requires UniqueNames(names, cs) && table == Scan(names, cs)
    ensures var ch := children[BodyBlock(children, t) := cs];
            TablesOk(ch, names, tableOps, tables[t := table]) && OneBlock(ch, t) && Body(ch, t) == cs
  {
    var ch := children[BodyBlock(children, t) := cs];
    assert ch.Keys == children.Keys;
    forall u | u in tableOps && OpNode(u) in ch ensures OneBlock(ch, u) && Body(ch, u) == if t == u then cs else Body(children, u) {
      OtherTables(children, parent, rank, t, u, cs);
    }
    OtherTables(children, parent, rank, t, t, cs);
  }

  /** A table op outside of a pruned subtree keeps its body. */
  lemma {:induction false} BodySurvives(children: Children, parent: Parents, rank: Ranks, p: Node, u: OpPtr)
    requires ForestOk(children, parent, rank) && p in children && parent[p] == Root && OneBlock(children, u)
    requires OpNode(u) !in Sub(children, rank, p)
    ensures var left := children - Sub(children, rank, p); OneBlock(left, u) && Body(left, u) == Body(children, u)
  {
    var r, b := children[OpNode(u)][0], BodyBlock(children, u);
    assert IsOwned(children, parent, OpNode(u), r) && IsOwned(children, parent, r, b);
    if r in Sub(children, rank, p) { SubOwner(children, parent, rank, p, r); }
    if b in Sub(children, rank, p) { SubOwner(children, parent, rank, p, b); }
  }

  /** The op put into the body, and its entry into the table. */
  lemma SymbolLinked(children: Children, parent: Parents, rank: Ranks, names: Names, tableOps: set<OpPtr>, tables: map<OpPtr, Table>,
                     t: OpPtr, o: OpPtr, i: nat, before: Table)
    requires ForestOk(children, parent, rank) && TablesOk(children, names, tableOps, tables[t := before]) && t in tables
    requires Insertable(children, parent, rank, t, o) && t in tableOps && parent[OpNode(o)] == Root && o in names && i <= |Body(children, t)|
    requires names[o] !in before && tables[t] == WithSymbol(before, names[o], o)
    ensures var b := BodyBlock(children, t);
            var ch := children[b := InsertedAt(children[b], i, OpNode(o))];
            && ForestOk(ch, parent[OpNode(o) := Under(b)], Lifted(children, rank, OpNode(o))) && TablesOk(ch, names, tableOps, tables)
            && OneBlock(ch, t) && Body(ch, t) == InsertedAt(Body(children, t), i, OpNode(o))
  {
    var b := BodyBlock(children, t);
    LinkOk(children, parent, rank, OpNode(o), b, i);
    assert TableOk(children, names, t, before);
    ScanInserted(names, Body(children, t), i, o);
    BodyChanged(children, parent, rank, names, tableOps, tables[t := before], t, InsertedAt(children[b], i, OpNode(o)), tables[t]);
    assert tables[t := before][t := tables[t]] == tables;
  }

  lemma SymbolUnlinked(children: Children, parent: Parents, rank: Ranks, names: Names, tableOps: set<OpPtr>, tables: map<OpPtr, Table>,
                       t: OpPtr, o: OpPtr)
    requires ForestOk(children, parent, rank) && TablesOk(children, names, tableOps, tables) && t in tables && OpNode(t) in children
    requires OpNode(o) in children && o in names && ParentOp(parent, OpNode(o)) == Some(t)
    ensures OneBlock(children, t) && parent[OpNode(o)] == Under(BodyBlock(children, t))
    ensures var b := BodyBlock(children, t);
            var ch := children[b := Without(children[b], OpNode(o))];
            && ForestOk(ch, parent[OpNode(o) := Root], rank) && TablesOk(ch, names, tableOps, tables[t := tables[t] - {names[o]}])
            && OneBlock(ch, t) && Body(ch, t) == Without(Body(children, t), OpNode(o))
            && Sub(ch, rank, OpNode(o)) == Sub(children, rank, OpNode(o))
  {
    BodyIs(children, parent, rank, t, o);
    UnlinkForest(children, parent, rank, OpNode(o));
    ScanRemoved(names, Body(children, t), o);
    BodyChanged(children, parent, rank, names, tableOps, tables, t, Without(Body(children, t), OpNode(o)), tables[t] - {names[o]});
  }

  lemma {:induction false} TablesSurvive(children: Children, parent: Parents, rank: Ranks, names: Names, tableOps: set<OpPtr>, tables: map<OpPtr, Table>, p: Node)
    requires ForestOk(children, parent, rank) && TablesOk(children, names, tableOps, tables) && p in children && parent[p] == Root
    ensures TablesOk(children - Sub(children, rank, p), names, tableOps, tables)
  {
    var left := children - Sub(children, rank, p);
    forall u | u in tableOps && OpNode(u) in left ensures OneBlock(left, u) && Body(left, u) == Body(children, u) {
      BodySurvives(children, parent, rank, p, u);
    }
  }

  /** The op has left the body, nothing else has, and no other body changed. */
  ghost predicate SymbolGone(before: Children, after: Children, parent: Parents, t: OpPtr, o: OpPtr) {
    && OneBlock(before, t) && OneBlock(after, t) && Body(after, t) == Without(Body(before, t), OpNode(o))
    && after == before[BodyBlock(before, t) := Body(after, t)]
    && OpNode(o) in after && OpNode(o) in parent && parent[OpNode(o)] == Root
  }

  /** A node and everything inside it. */
  method InsideOf(children: Children, n: Node, ghost rank: Ranks) returns (inside: set<Node>)
    requires Ranked(children, rank) && n in children
    ensures inside == Sub(children, rank, n)
    decreases rank[n]
  {
    inside := {n};
    var cs := children[n];
    assert cs[..0] == [];
    for i := 0 to |cs|
      invariant inside == {n} + SubAll(children, rank, n, cs[..i])
    {
      var more := InsideOf(children, cs[i], rank);
      SubAllNext(children, rank, n, cs, i);
      inside := inside + more;
    }
    assert cs[..|cs|] == cs;
  }

  /** Changing the ops of one block changes the body of one table op at most. */
  lemma OtherTables(children: Children, parent: Parents, rank: Ranks, t: OpPtr, u: OpPtr, cs: seq<Node>)
    requires ForestOk(children, parent, rank) && OneBlock(children, t) && OneBlock(children, u)
    ensures OneBlock(children[BodyBlock(children, t) := cs], u) && BodyBlock(children[BodyBlock(children, t) := cs], u) == BodyBlock(children, u)
    ensures Body(children[BodyBlock(children, t) := cs], u) == if t == u then cs else Body(children, u)
  {
    OnlyBlock(children, parent, rank, t, BodyBlock(children, t));
    OnlyBlock(children, parent, rank, u, BodyBlock(children, u));
    var r := children[OpNode(u)][0];
    assert IsOwned(children, parent, OpNode(u), r);
  }

  // ----- the tables -----

  class SymbolTables {
    var children: Children
    var parent: Parents
    const names: Names
    const tableOps: set<OpPtr>
    const terminators: set<OpPtr>
    /** The tables built so far, by table op. */
    var tables: map<OpPtr, Table>
    ghost var rank: Ranks

    constructor (children: Children, parent: Parents, ghost rank: Ranks, names: Names, tableOps: set<OpPtr>, terminators: set<OpPtr>)
      requires ForestOk(children, parent, rank) && forall t :: t in tableOps && OpNode(t) in children ==> OneBlock(children, t)
      ensures Valid() && this.children == children && this.parent == parent && this.rank == rank && tables == map[]
      ensures this.names == names && this.tableOps == tableOps && this.terminators == terminators
    {
      this.children, this.parent, this.rank, this.names, this.tableOps, this.terminators := children, parent, rank, names, tableOps, terminators;
      tables := map[];
    }

    /** Every cached table of a live op is what a scan of its body would give. */
    ghost predicate Valid()
      reads this
    {
      ForestOk(children, parent, rank) && TablesOk(children, names, tableOps, tables)
    }

    /** The table of a table op, built if it is not cached. Names must be unique in the body then. */
    method GetSymbolTable(t: OpPtr)
      requires Valid() && t in tableOps && OpNode(t) in children
      requires t !in tables ==> UniqueNames(names, Body(children, t))
      modifies this`tables
      ensures Valid() && t in tables && tables == old(tables)[t := Scan(names, Body(children, t))]
    {
      if t in tables { return; }
      var body := Body(children, t);
      var table: Table := map[];
      assert body[..0] == [];
      for i := 0 to |body|
        invariant table == Scan(names, body[..i])
      {
        assert body[..i + 1][..i] == body[..i];
        if IsSymbol(names, body[i]) { table := table[names[body[i].id] := body[i].id]; }
      }
      assert body[..|body|] == body;
      tables := tables[t := table];
    }

    method Lookup(t: OpPtr, x: Name) returns (r: Option<OpPtr>)
      requires Valid() && t in tableOps && OpNode(t) in children
      requires t !in tables ==> UniqueNames(names, Body(children, t))
      modifies this`tables
      ensures Valid() && t in tables
      ensures r.Some? ==> Defines(names, Body(children, t), x, r.value)
      ensures r.None? ==> forall o :: !Defines(names, Body(children, t), x, o)
    {
      GetSymbolTable(t);
      ScanKeys(names, Body(children, t), x);
      if x in tables[t] {
        ScanFinds(names, Body(children, t), x, tables[t][x]);
        r := Some(tables[t][x]);
      } else {
        r := None;
      }
    }

    /** Inserts a symbol: at the given point, or else at the end of the body but before its terminator. The table is
        updated first, so a failed insert leaves it with the new entry. */
    method Insert(t: OpPtr, o: OpPtr, point: Option<InsertionPoint>) returns (r: Outcome)
      requires Valid() && t in tables && OpNode(t) in children && Insertable(children, parent, rank, t, o) && o in names
      requires point.Some? ==> point.value.block.BlockNode? && point.value.block in children && point.value.index <= |children[point.value.block]|
      modifies this
      ensures r == InsertOutcome(old(parent), old(tables)[t], t, o, names[o], point)
      ensures r == Err(SymbolRedefined(names[o])) <==> names[o] in old(tables)[t]
      ensures names[o] !in old(tables)[t] ==>
                (r == Err(SymbolOpAlreadyInAnotherTable(names[o])) <==> ParentOp(old(parent), OpNode(o)).Some?)
      ensures names[o] !in old(tables)[t] && ParentOp(old(parent), OpNode(o)).None? ==>
                (r == Ok <==> point.Some? ==> ParentOp(old(parent), point.value.block) == Some(t))
      ensures r.Ok? ==> OneBlock(old(children), t) && OneBlock(children, t) && PutIn(Body(old(children), t), Body(children, t), OpNode(o), terminators, point)
      ensures tables == old(tables)[t := WithSymbol(old(tables)[t], names[o], o)]
      ensures r.Err? ==> children == old(children) && parent == old(parent) && rank == old(rank)
      ensures r.Ok? ==>
                && Valid() && OneBlock(old(children), t) && OneBlock(children, t)
                && Place(old(children), terminators, t, point) <= |Body(old(children), t)|
                && Body(children, t) == InsertedAt(Body(old(children), t), Place(old(children), terminators, t, point), OpNode(o))
                && children == old(children)[BodyBlock(old(children), t) := Body(children, t)]
                && parent == old(parent)[OpNode(o) := Under(BodyBlock(old(children), t))]
    {
      var x := names[o];
      var before := tables[t];
      tables := tables[t := WithSymbol(before, x, o)];
      var i;
      r, i := FindPlace(t, o, point, before);
      if r.Ok? {
        PlaceIs(children, terminators, t, o, point);
        LinkSymbol(t, o, i, before);
      }
    }

    /** The checks of an insert, one after the other, and the position if all of them pass. */
    method FindPlace(t: OpPtr, o: OpPtr, point: Option<InsertionPoint>, before: Table) returns (r: Outcome, i: nat)
      requires Insertable(children, parent, rank, t, o) && TableOk(children, names, t, before) && o in names
      requires point.Some? ==> point.value.block.BlockNode? && point.value.block in children && point.value.index <= |children[point.value.block]|
      ensures r == InsertOutcome(parent, before, t, o, names[o], point)
      ensures r.Ok? ==> i == Place(children, terminators, t, point) && i <= |Body(children, t)|
    {
      var x := names[o];
      i := 0;
      if x in before { return Err(SymbolRedefined(x)), i; }
      if ParentOp(parent, OpNode(o)).Some? {
        NotInBody(children, parent, rank, names, t, o, before);
        return Err(SymbolOpAlreadyInAnotherTable(x)), i;
      }
      if point.Some? {
        if ParentOp(parent, point.value.block) != Some(t) { return Err(InsertionPointNotInSameTable), i; }
        OnlyBlock(children, parent, rank, t, point.value.block);
        i := point.value.index;
      } else {
        var body := Body(children, t);
        i := if body != [] && body[|body| - 1].OpNode? && body[|body| - 1].id in terminators then |body| - 1 else |body|;
      }
      r := Ok;
    }

    /** Puts the op into the body; the table has its entry already. */
    method LinkSymbol(t: OpPtr, o: OpPtr, i: nat, ghost before: Table)
      requires ForestOk(children, parent, rank) && TablesOk(children, names, tableOps, tables[t := before]) && t in tables
      requires Insertable(children, parent, rank, t, o) && t in tableOps && parent[OpNode(o)] == Root && o in names && i <= |Body(children, t)|
      requires names[o] !in before && tables[t] == WithSymbol(before, names[o], o)
      modifies this`children, this`parent, this`rank
      ensures Valid() && OneBlock(old(children), t) && OneBlock(children, t)
      ensures Body(children, t) == InsertedAt(Body(old(children), t), i, OpNode(o))
      ensures children == old(children)[BodyBlock(old(children), t) := Body(children, t)]
      ensures parent == old(parent)[OpNode(o) := Under(BodyBlock(old(children), t))]
    {
      SymbolLinked(children, parent, rank, names, tableOps, tables, t, o, i, before);
      var b := BodyBlock(children, t);
      SetForest(children[b := children[b][..i] + [OpNode(o)] + children[b][i..]], parent[OpNode(o) := Under(b)], Lifted(children, rank, OpNode(o)));
    }

    method SetForest(children: Children, parent: Parents, ghost rank: Ranks)
      modifies this`children, this`parent, this`rank
      ensures this.children == children && this.parent == parent && this.rank == rank
    {
      this.children, this.parent, this.rank := children, parent, rank;
    }

    /** Takes a symbol out of its table and out of the body; the op stays alive. */
    method Remove(t: OpPtr, o: OpPtr) returns (r: Outcome)
      requires Valid() && t in tables && OpNode(t) in children && OpNode(o) in children && o in names
      modifies this
      ensures Valid()
      ensures r == if ParentOp(old(parent), OpNode(o)) == Some(t) then Ok else Err(SymbolOpNotInTableOp)
      ensures r.Err? ==> children == old(children) && parent == old(parent) && tables == old(tables)
      ensures r.Ok? ==> SymbolGone(old(children), children, parent, t, o) && tables == old(tables)[t := old(tables)[t] - {names[o]}]
      ensures rank == old(rank) && (r.Ok? ==> Sub(children, rank, OpNode(o)) == Sub(old(children), rank, OpNode(o)))
    {
      if ParentOp(parent, OpNode(o)) != Some(t) { return Err(SymbolOpNotInTableOp); }
      r := Ok;
      UnlinkSymbol(t, o);
    }

    method UnlinkSymbol(t: OpPtr, o: OpPtr)
      requires Valid() && t in tables && OpNode(t) in children && OpNode(o) in children && o in names && ParentOp(parent, OpNode(o)) == Some(t)
      modifies this
      ensures Valid() && rank == old(rank) && SymbolGone(old(children), children, parent, t, o)
      ensures Sub(children, rank, OpNode(o)) == Sub(old(children), rank, OpNode(o))
      ensures tables == old(tables)[t := old(tables)[t] - {names[o]}]
    {
      SymbolUnlinked(children, parent, rank, names, tableOps, tables, t, o);
      var b := parent[OpNode(o)].owner;
      tables := tables[t := tables[t] - {names[o]}];
      SetForest(children[b := Without(children[b], OpNode(o))], parent[OpNode(o) := Root], rank);
    }

    /** Removes a symbol and frees it with everything inside it. */
    method Erase(t: OpPtr, o: OpPtr) returns (r: Outcome)
      requires Valid() && t in tables && OpNode(t) in children && OpNode(o) in children && o in names
      modifies this
      ensures Valid()
      ensures r == if ParentOp(old(parent), OpNode(o)) == Some(t) then Ok else Err(SymbolOpNotInTableOp)
      ensures r.Err? ==> children == old(children) && parent == old(parent) && tables == old(tables)
      ensures r.Ok? ==> tables == old(tables)[t := old(tables)[t] - {names[o]}]
      ensures r.Ok? ==>
                && OneBlock(old(children), t) && OpNode(o) !in children
                && children == old(children)[BodyBlock(old(children), t) := Without(Body(old(children), t), OpNode(o))] - Sub(old(children), old(rank), OpNode(o))
    {
      r := Remove(t, o);
      if r.Ok? { Free(OpNode(o)); }
    }

    /** Frees a node that has no owner, with everything inside it. */
    method Free(n: Node)
      requires Valid() && n in children && n in parent && parent[n] == Root
      modifies this`children, this`parent, this`rank
      ensures Valid() && n !in children && children == old(children) - Sub(old(children), old(rank), n)
    {
      PruneOk(children, parent, rank, n);
      TablesSurvive(children, parent, rank, names, tableOps, tables, n);
      SubSelf(children, rank, n);
      var inside := InsideOf(children, n, rank);
      SetForest(children - inside, parent - inside, rank - inside);
    }

    /** The nearest table op, from `o` outwards. */
    method Nearest(o: OpPtr) returns (r: Option<OpPtr>)
      requires Valid() && OpNode(o) in children
      ensures r == NearestTable(parent, rank, children, tableOps, o)
    {
      var op := o;
      while op !in tableOps
        invariant OpNode(op) in children && NearestTable(parent, rank, children, tableOps, op) == NearestTable(parent, rank, children, tableOps, o)
        decreases Above(rank, OpNode(op))
      {
        var p := ParentOp(parent, OpNode(op));
        if p.None? { return None; }
        ParentAbove(children, parent, rank, op);
        op := p.value;
      }
      r := Some(op);
    }
  }

  /** How many nodes have a larger rank. */
  ghost function Above(rank: Ranks, n: Node): nat {
    if n in rank then |set m | m in rank && rank[m] > rank[n]| else 0
  }

  lemma ParentAbove(children: Children, parent: Parents, rank: Ranks, o: OpPtr)
    requires ForestOk(children, parent, rank) && OpNode(o) in children && ParentOp(parent, OpNode(o)).Some?
    ensures var p := ParentOp(parent, OpNode(o)).value;
            OpNode(p) in children && rank[OpNode(o)] < rank[OpNode(p)] && Above(rank, OpNode(p)) < Above(rank, OpNode(o))
  {
    var b := parent[OpNode(o)].owner;
    assert IsListed(children, parent, OpNode(o));
    assert IsListed(children, parent, b);
    assert IsListed(children, parent, parent[b].owner);
    var p := ParentOp(parent, OpNode(o)).value;
    var x, y := set m | m in rank && rank[m] > rank[OpNode(p)], set m | m in rank && rank[m] > rank[OpNode(o)];
    assert x <= y && OpNode(p) in y && OpNode(p) !in x;
    SubsetSize(x, y - {OpNode(p)});
  }

  /** The closest op that is a table, among the op and those it is nested in. */
  ghost function NearestTable(parent: Parents, rank: Ranks, children: Children, tableOps: set<OpPtr>, o: OpPtr): (r: Option<OpPtr>)
    requires ForestOk(children, parent, rank) && OpNode(o) in children
    ensures r.Some? ==> r.value in tableOps && EnclosedIn(parent, rank, children, o, r.value)
    decreases Above(rank, OpNode(o))
  {
    if o in tableOps then Some(o) else
    var p := ParentOp(parent, OpNode(o));
    if p.None? then None else
    ParentAbove(children, parent, rank, o);
    NearestTable(parent, rank, children, tableOps, p.value)
  }

  /** `t` is `o` or an op that it is nested in. */
  ghost predicate EnclosedIn(parent: Parents, rank: Ranks, children: Children, o: OpPtr, t: OpPtr)
    requires ForestOk(children, parent, rank) && OpNode(o) in children
    decreases Above(rank, OpNode(o))
  {
    o == t ||
    var p := ParentOp(parent, OpNode(o));
    if p.None? then false else
    ParentAbove(children, parent, rank, o);
    EnclosedIn(parent, rank, children, p.value, t)
  }

  /** The search stops at the nearest table: any other table around `o` is around that one too. */
  lemma {:induction false} NearestIsNearest(parent: Parents, rank: Ranks, children: Children, tableOps: set<OpPtr>, o: OpPtr, t: OpPtr)
    requires ForestOk(children, parent, rank) && OpNode(o) in children && t in tableOps && EnclosedIn(parent, rank, children, o, t)
    ensures var r := NearestTable(parent, rank, children, tableOps, o);
            r.Some? && OpNode(r.value) in children && EnclosedIn(parent, rank, children, r.value, t)
    decreases Above(rank, OpNode(o))
  {
    if o !in tableOps {
      ParentAbove(children, parent, rank, o);
      NearestIsNearest(parent, rank, children, tableOps, ParentOp(parent, OpNode(o)).value, t);
    }
  }
}

/** The symbols of a table op: what a scan of its body finds, and how inserting and removing ops changes that. */
module SymbolScan {
  import opened SeqLists
  import opened DefUse
  import opened IrForest

  type Name = string

  /** The names of the ops that are symbols; an op's name does not change. */
  type Names = map<OpPtr, Name>

  predicate IsSymbol(names: Names, n: Node) {
    n.OpNode? && n.id in names
  }

  type Table = map<Name, OpPtr>

  function WithSymbol(table: Table, x: Name, o: OpPtr): Table {
    table[x := o]
  }

  /** The table that building it from scratch gives: later ops would win, but names are unique. */
  function Scan(names: Names, body: seq<Node>): Table {
    if body == [] then map[] else
    var last, before := body[|body| - 1], Scan(names, body[..|body| - 1]);
    if IsSymbol(names, last) then before[names[last.id] := last.id] else before
  }

  /** No two symbols of the body have the same name. */
  ghost predicate UniqueNames(names: Names, body: seq<Node>) {
    forall m, n :: m in body && n in body && IsSymbol(names, m) && IsSymbol(names, n) && names[m.id] == names[n.id] ==> m == n
  }

  /** The body defines symbol `x` by op `o`. */
  predicate Defines(names: Names, body: seq<Node>, x: Name, o: OpPtr) {
    OpNode(o) in body && o in names && names[o] == x
  }

  /** A scan finds exactly the symbols of the body. */
  lemma {:induction false} ScanFinds(names: Names, body: seq<Node>, x: Name, o: OpPtr)
    requires UniqueNames(names, body)
    ensures (x in Scan(names, body) && Scan(names, body)[x] == o) <==> Defines(names, body, x, o)
  {
    if body != [] {
      var init, last := body[..|body| - 1], body[|body| - 1];
      assert body == init + [last];
      ScanFinds(names, init, x, o);
      if Defines(names, body, x, o) && IsSymbol(names, last) && names[last.id] == x { assert OpNode(o) == last; }
    }
  }

  lemma {:induction false} ScanKeys(names: Names, body: seq<Node>, x: Name)
    requires UniqueNames(names, body)
    ensures x in Scan(names, body) <==> exists o :: Defines(names, body, x, o)
  {
    if x in Scan(names, body) {
      ScanFinds(names, body, x, Scan(names, body)[x]);
      assert Defines(names, body, x, Scan(names, body)[x]);
    }
    if exists o :: Defines(names, body, x, o) {
      var o :| Defines(names, body, x, o);
      ScanFinds(names, body, x, o);
    }
  }

  /** Two bodies with the same symbols have the same scan, but for one name. */
  lemma {:induction false} ScanDiffers(names: Names, body: seq<Node>, other: seq<Node>, x: Name)
    requires UniqueNames(names, body) && UniqueNames(names, other)
    requires forall y, o :: y != x ==> (Defines(names, body, y, o) <==> Defines(names, other, y, o))
    ensures forall y :: y != x ==> (y in Scan(names, body) <==> y in Scan(names, other))
    ensures forall y :: y != x && y in Scan(names, body) ==> Scan(names, other)[y] == Scan(names, body)[y]
  {
    forall y | y != x ensures y in Scan(names, body) <==> y in Scan(names, other)
      ensures y in Scan(names, body) ==> Scan(names, other)[y] == Scan(names, body)[y]
    {
      ScanKeys(names, body, y);
      ScanKeys(names, other, y);
      if y in Scan(names, body) {
        ScanFinds(names, body, y, Scan(names, body)[y]);
        ScanFinds(names, other, y, Scan(names, body)[y]);
      }
    }
  }

  lemma {:induction false} ScanInserted(names: Names, body: seq<Node>, i: nat, o: OpPtr)
    requires UniqueNames(names, body) && i <= |body| && o in names && names[o] !in Scan(names, body)
    ensures UniqueNames(names, InsertedAt(body, i, OpNode(o)))
    ensures Scan(names, InsertedAt(body, i, OpNode(o))) == Scan(names, body)[names[o] := o]
  {
    var other, x := InsertedAt(body, i, OpNode(o)), names[o];
    assert body == body[..i] + body[i..];
    assert forall n :: n in other <==> n in body || n == OpNode(o);
    ScanKeys(names, body, x);
    forall n | n in body && IsSymbol(names, n) ensures names[n.id] != x { assert !Defines(names, body, x, n.id); }
    ScanDiffers(names, body, other, x);
    ScanFinds(names, other, x, o);
  }

  lemma {:induction false} ScanRemoved(names: Names, body: seq<Node>, o: OpPtr)
    requires UniqueNames(names, body) && NoDuplicates(body) && OpNode(o) in body && o in names
    ensures UniqueNames(names, Without(body, OpNode(o)))
    ensures Scan(names, Without(body, OpNode(o))) == Scan(names, body) - {names[o]}
  {
    var other, x := Without(body, OpNode(o)), names[o];
    WithoutIn(body, OpNode(o));
    forall y, p | y != x ensures Defines(names, body, y, p) <==> Defines(names, other, y, p) {}
    ScanDiffers(names, body, other, x);
    ScanKeys(names, other, x);
    forall p ensures !Defines(names, other, x, p) {
      assert OpNode(p) in other ==> OpNode(p) in body && p != o;
    }
  }
}

/** Def-use chains: which operands use a definition, and which definition an operand names.

    The same code serves both kinds of definition, SSA values (used by operands) and
    blocks (used by the successors of branches), so everything here is generic in the definition. */
module DefUse {
  import opened SeqLists


  /** An operation, by its arena key. Keys are never used twice. */
  type OpPtr = nat

  /** Describes the use of a definition, by the operation that holds it and the use's own id. */
  datatype Use = Use(user: OpPtr, uid: nat)

  /** An operand (or successor): the definition it names, and the id of that use. */
  datatype Operand<D> = Operand(def: D, uid: nat)

  type Operands<!D> = map<OpPtr, seq<Operand<D>>>
  type UseSets<!D> = map<D, set<Use>>

  /** The op that every use id handed out so far was created for. */
  type Owners = map<nat, OpPtr>

  /** The use describes an operand that names `d`. */
  predicate Holds<D(==)>(operands: Operands<D>, u: Use, d: D) {
    u.user in operands && Operand(d, u.uid) in operands[u.user]
  }

  /** The position of the operand with the given use id, or the number of operands. */
  function FindIndex<D>(os: seq<Operand<D>>, uid: nat): (i: nat)
    ensures i <= |os| && (i < |os| ==> os[i].uid == uid)
    ensures forall j :: 0 <= j < i ==> os[j].uid != uid
  {
    if os == [] then 0 else if os[0].uid == uid then 0 else 1 + FindIndex(os[1..], uid)
  }

  predicate HasUid<D>(os: seq<Operand<D>>, uid: nat) {
    FindIndex(os, uid) < |os|
  }

  predicate DistinctUids<D>(os: seq<Operand<D>>) {
    os == [] || (!HasUid(os[1..], os[0].uid) && DistinctUids(os[1..]))
  }

  /** A use is in the use set of a definition exactly when its operand names that definition. */
  ghost predicate UsesExact<D(!new)>(operands: Operands<D>, uses: UseSets<D>) {
    forall d, u :: d in uses ==> (u in uses[d] <==> Holds(operands, u, d))
  }

  /** Every operand names a live definition, and has a use id of its own. */
  ghost predicate OperandsLive<D(!new)>(operands: Operands<D>, uses: UseSets<D>, owners: Owners) {
    && (forall o, x :: o in operands && x in operands[o] ==> x.def in uses && x.uid in owners && owners[x.uid] == o)
    && (forall o :: o in operands ==> DistinctUids(operands[o]))
  }

  /** The two-way invariant of def-use chains. */
  ghost predicate TwoWay<D(!new)>(operands: Operands<D>, uses: UseSets<D>, owners: Owners) {
    UsesExact(operands, uses) && OperandsLive(operands, uses, owners)
  }

  /** No two operands of the context share a use id. */
  lemma UidsDistinct<D(!new)>(operands: Operands<D>, uses: UseSets<D>, owners: Owners, o: OpPtr, i: nat, p: OpPtr, j: nat)
    requires TwoWay(operands, uses, owners) && o in operands && p in operands && i < |operands[o]| && j < |operands[p]|
    requires operands[o][i].uid == operands[p][j].uid
    ensures o == p && i == j
  {
    assert operands[o][i] in operands[o] && operands[p][j] in operands[p];
    FindAt(operands[o], i);
    FindAt(operands[o], j);
  }

  // ----- operand lists -----

  function Inserted<D>(os: seq<Operand<D>>, i: nat, x: Operand<D>): seq<Operand<D>>
    requires i <= |os|
  {
    os[..i] + [x] + os[i..]
  }

  function Removed<D>(os: seq<Operand<D>>, i: nat): seq<Operand<D>>
    requires i < |os|
  {
    os[..i] + os[i + 1..]
  }

  lemma HasUidIn<D(!new)>(os: seq<Operand<D>>, uid: nat)
    ensures HasUid(os, uid) <==> exists i :: 0 <= i < |os| && os[i].uid == uid
  {
  }

  lemma {:induction false} FindAt<D>(os: seq<Operand<D>>, i: nat)
    requires DistinctUids(os) && i < |os|
    ensures FindIndex(os, os[i].uid) == i
  {
    if i > 0 { FindAt(os[1..], i - 1); assert HasUid(os[1..], os[i].uid); }
  }

  lemma {:induction false} FindIn<D(!new)>(os: seq<Operand<D>>, x: Operand<D>)
    requires DistinctUids(os) && x in os
    ensures HasUid(os, x.uid) && os[FindIndex(os, x.uid)] == x
  {
    var j :| 0 <= j < |os| && os[j] == x;
    FindAt(os, j);
  }

  lemma {:induction false} DistinctFromIndices<D(!new)>(os: seq<Operand<D>>)
    requires forall i, j :: 0 <= i < j < |os| ==> os[i].uid != os[j].uid
    ensures DistinctUids(os)
  {
    if os != [] {
      HasUidIn(os[1..], os[0].uid);
      DistinctFromIndices(os[1..]);
    }
  }

  lemma {:induction false} InsertedDistinct<D(!new)>(os: seq<Operand<D>>, i: nat, x: Operand<D>)
    requires i <= |os| && DistinctUids(os) && !HasUid(os, x.uid)
    ensures DistinctUids(Inserted(os, i, x))
  {
    var r := Inserted(os, i, x);
    HasUidIn(os, x.uid);
    forall j, k | 0 <= j < k < |r| ensures r[j].uid != r[k].uid {
      InsertedGet(os, i, x, j);
      InsertedGet(os, i, x, k);
      if j != i && k != i {
        FindAt(os, if j < i then j else j - 1);
        FindAt(os, if k < i then k else k - 1);
      }
    }
    DistinctFromIndices(r);
  }

  lemma {:induction false} InsertedIn<D(!new)>(os: seq<Operand<D>>, i: nat, x: Operand<D>)
    requires i <= |os| && DistinctUids(os) && !HasUid(os, x.uid)
    ensures forall y :: y in Inserted(os, i, x) <==> y == x || y in os
    ensures DistinctUids(Inserted(os, i, x))
  {
    assert os == os[..i] + os[i..];
    InsertedDistinct(os, i, x);
  }

  lemma InsertedGet<D>(os: seq<Operand<D>>, i: nat, x: Operand<D>, j: nat)
    requires i <= |os| && j <= |os|
    ensures Inserted(os, i, x)[j] == if j < i then os[j] else if j == i then x else os[j - 1]
  {
  }

  lemma RemovedGet<D>(os: seq<Operand<D>>, i: nat, j: nat)
    requires i < |os| && j < |os| - 1
    ensures Removed(os, i)[j] == os[if j < i then j else j + 1]
  {
  }

  lemma InsertedIs<D(!new)>(os: seq<Operand<D>>, i: nat, x: Operand<D>)
    requires i <= |os|
    ensures IsInserted(os, Inserted(os, i, x), i, x)
  {
  }

  lemma RemovedIs<D(!new)>(os: seq<Operand<D>>, i: nat)
    requires i < |os|
    ensures IsRemoved(os, Removed(os, i), i)
  {
  }

  lemma {:induction false} RemovedDistinct<D(!new)>(os: seq<Operand<D>>, i: nat)
    requires i < |os| && DistinctUids(os)
    ensures DistinctUids(Removed(os, i))
  {
    var r := Removed(os, i);
    forall j, k | 0 <= j < k < |r| ensures r[j].uid != r[k].uid {
      RemovedGet(os, i, j);
      RemovedGet(os, i, k);
      FindAt(os, if j < i then j else j + 1);
      FindAt(os, if k < i then k else k + 1);
    }
    DistinctFromIndices(r);
  }

  lemma {:induction false} RemovedIn<D(!new)>(os: seq<Operand<D>>, i: nat)
    requires i < |os| && DistinctUids(os)
    ensures forall y :: y in Removed(os, i) <==> y in os && y.uid != os[i].uid
    ensures DistinctUids(Removed(os, i))
  {
    RemovedDistinct(os, i);
    forall y ensures y in Removed(os, i) <==> y in os && y.uid != os[i].uid { RemovedOne(os, i, y); }
  }

  /** The other operands have other ids. */
  lemma {:induction false} OtherUids<D(!new)>(os: seq<Operand<D>>, i: nat)
    requires i < |os| && DistinctUids(os)
    ensures forall j :: 0 <= j < |os| && j != i ==> os[j].uid != os[i].uid
  {
    FindAt(os, i);
    forall j | 0 <= j < |os| && j != i ensures os[j].uid != os[i].uid { FindAt(os, j); }
  }

  lemma {:induction false} RemovedOne<D(!new)>(os: seq<Operand<D>>, i: nat, y: Operand<D>)
    requires i < |os| && DistinctUids(os)
    ensures y in Removed(os, i) <==> y in os && y.uid != os[i].uid
  {
    OtherUids(os, i);
    var pre, post := os[..i], os[i + 1..];
    assert os == pre + ([os[i]] + post);
    assert y in os <==> y in pre || y == os[i] || y in post;
    if y in pre { var j :| 0 <= j < i && pre[j] == y; assert os[j] == y; }
    if y in post { var j :| 0 <= j < |post| && post[j] == y; assert os[i + 1 + j] == y; }
  }

  lemma ReplacedIn<D(!new)>(os: seq<Operand<D>>, i: nat, x: Operand<D>)
    requires i < |os| && DistinctUids(os) && (x.uid == os[i].uid || !HasUid(os, x.uid))
    ensures forall y :: y in os[i := x] <==> y == x || (y in os && y.uid != os[i].uid)
    ensures DistinctUids(os[i := x])
  {
    RemovedIn(os, i);
    var rest := Removed(os, i);
    HasUidIn(os, x.uid);
    HasUidIn(rest, x.uid);
    assert forall k :: 0 <= k < |rest| ==> rest[k] in rest;
    InsertedIn(rest, i, x);
    assert Inserted(rest, i, x) == os[i := x];
  }

  // ----- one operand added, dropped, replaced or pointed elsewhere -----

  /** Use id `uid` is new. */
  lemma NewUse<D(!new)>(operands: Operands<D>, uses: UseSets<D>, owners: Owners, o: OpPtr, uid: nat)
    requires TwoWay(operands, uses, owners) && uid !in owners
    ensures forall d :: d in uses ==> Use(o, uid) !in uses[d]
    ensures o in operands ==> !HasUid(operands[o], uid)
  {
    if o in operands {
      HasUidIn(operands[o], uid);
      forall i | 0 <= i < |operands[o]| ensures operands[o][i].uid != uid { assert operands[o][i] in operands[o]; }
    }
  }

  lemma AddKeeps<D(!new)>(operands: Operands<D>, uses: UseSets<D>, owners: Owners, o: OpPtr, i: nat, d: D, uid: nat)
    requires TwoWay(operands, uses, owners) && o in operands && i <= |operands[o]| && d in uses && uid !in owners
    ensures TwoWay(operands[o := Inserted(operands[o], i, Operand(d, uid))], uses[d := uses[d] + {Use(o, uid)}], owners[uid := o])
  {
    NewUse(operands, uses, owners, o, uid);
    InsertedIn(operands[o], i, Operand(d, uid));
  }

  /** The operand that a tracked use describes. */
  lemma UseFound<D(!new)>(operands: Operands<D>, uses: UseSets<D>, owners: Owners, d: D, u: Use)
    requires TwoWay(operands, uses, owners) && d in uses && u in uses[d]
    ensures u.user in operands && HasUid(operands[u.user], u.uid)
    ensures operands[u.user][FindIndex(operands[u.user], u.uid)] == Operand(d, u.uid)
  {
    assert Holds(operands, u, d);
    FindIn(operands[u.user], Operand(d, u.uid));
  }

  /** The use that an operand is. */
  lemma OperandTracked<D(!new)>(operands: Operands<D>, uses: UseSets<D>, owners: Owners, o: OpPtr, i: nat)
    requires TwoWay(operands, uses, owners) && o in operands && i < |operands[o]|
    ensures var x := operands[o][i];
            x.def in uses && Use(o, x.uid) in uses[x.def] && forall d :: d in uses && d != x.def ==> Use(o, x.uid) !in uses[d]
  {
    var x := operands[o][i];
    assert x in operands[o];
    assert Holds(operands, Use(o, x.uid), x.def);
    forall d | d in uses && d != x.def ensures Use(o, x.uid) !in uses[d] {
      FindAt(operands[o], i);
      if Use(o, x.uid) in uses[d] { UseFound(operands, uses, owners, d, Use(o, x.uid)); }
    }
  }

  lemma DropKeeps<D(!new)>(operands: Operands<D>, uses: UseSets<D>, owners: Owners, o: OpPtr, i: nat)
    requires TwoWay(operands, uses, owners) && o in operands && i < |operands[o]|
    ensures var x := operands[o][i];
            && x.def in uses && Use(o, x.uid) in uses[x.def]
            && TwoWay(operands[o := Removed(operands[o], i)], uses[x.def := uses[x.def] - {Use(o, x.uid)}], owners)
  {
    OperandTracked(operands, uses, owners, o, i);
    RemovedIn(operands[o], i);
  }

  function Pointed<D>(operands: Operands<D>, o: OpPtr, i: nat, d: D): Operands<D>
    requires o in operands && i < |operands[o]|
  {
    operands[o := operands[o][i := Operand(d, operands[o][i].uid)]]
  }

  lemma PointKeeps<D(!new)>(operands: Operands<D>, uses: UseSets<D>, owners: Owners, o: OpPtr, i: nat, d: D)
    requires TwoWay(operands, uses, owners) && o in operands && i < |operands[o]| && d in uses && operands[o][i].def != d
    ensures var x := operands[o][i];
            && x.def in uses && Use(o, x.uid) !in uses[d] && Use(o, x.uid) in uses[x.def]
            && TwoWay(Pointed(operands, o, i, d), uses[d := uses[d] + {Use(o, x.uid)}][x.def := uses[x.def] - {Use(o, x.uid)}], owners)
  {
    var x := operands[o][i];
    OperandTracked(operands, uses, owners, o, i);
    ReplacedIn(operands[o], i, Operand(d, x.uid));
    assert x in operands[o];
  }

  lemma ReplaceKeeps<D(!new)>(operands: Operands<D>, uses: UseSets<D>, owners: Owners, o: OpPtr, i: nat, d: D, uid: nat)
    requires TwoWay(operands, uses, owners) && o in operands && i < |operands[o]| && d in uses && uid !in owners
    ensures var x, u := operands[o][i], uses[d := uses[d] + {Use(o, uid)}];
            && Use(o, uid) !in uses[d] && x.def in u && Use(o, x.uid) in u[x.def]
            && TwoWay(operands[o := operands[o][i := Operand(d, uid)]], u[x.def := u[x.def] - {Use(o, x.uid)}], owners[uid := o])
  {
    NewUse(operands, uses, owners, o, uid);
    OperandTracked(operands, uses, owners, o, i);
    ReplacedIn(operands[o], i, Operand(d, uid));
    assert operands[o][i] in operands[o];
  }

  // ----- definitions that come and go -----

  lemma NewDefKeeps<D(!new)>(operands: Operands<D>, uses: UseSets<D>, owners: Owners, d: D)
    requires TwoWay(operands, uses, owners) && d !in uses
    ensures TwoWay(operands, uses[d := {}], owners)
  {
  }

  lemma OldDefKeeps<D(!new)>(operands: Operands<D>, uses: UseSets<D>, owners: Owners, d: D)
    requires TwoWay(operands, uses, owners) && d in uses && uses[d] == {}
    ensures TwoWay(operands, uses - {d}, owners)
  {
    forall o, x | o in operands && x in operands[o] ensures x.def != d {
      assert Holds(operands, Use(o, x.uid), x.def);
    }
  }
}

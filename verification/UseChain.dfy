/** Def-use chains as they are updated in place: operand lists and use sets change one after the other,
    and every operation leaves the two-way invariant true. */
module UseChain {
  import opened DefUse

  // ----- what replacing uses means -----

  /** The operands of op `o` after the uses in `moved` were pointed to `other`. */
  function Retarget<D>(os: seq<Operand<D>>, o: OpPtr, moved: set<Use>, other: D): (r: seq<Operand<D>>)
    ensures |r| == |os|
    ensures forall i :: 0 <= i < |os| ==> r[i].uid == os[i].uid
  {
    seq(|os|, i requires 0 <= i < |os| => if Use(o, os[i].uid) in moved then Operand(other, os[i].uid) else os[i])
  }

  function RetargetAll<D>(operands: Operands<D>, moved: set<Use>, other: D): Operands<D> {
    map o | o in operands :: Retarget(operands[o], o, moved, other)
  }

  /** The uses of `d` that satisfy a predicate. */
  function Touched<D(==)>(uses: UseSets<D>, d: D, pred: Use -> bool): set<Use>
    requires d in uses
  {
    set u | u in uses[d] && pred(u)
  }

  /** The whole state after the uses in `moved` were pointed from `d` to `other`. */
  function MovedOperands<D(==)>(operands: Operands<D>, d: D, moved: set<Use>, other: D): Operands<D> {
    if d == other then operands else RetargetAll(operands, moved, other)
  }

  function MovedUses<D(==)>(uses: UseSets<D>, d: D, moved: set<Use>, other: D): UseSets<D>
    requires d in uses && other in uses
  {
    if d == other then uses else uses[other := uses[other] + moved][d := uses[d] - moved]
  }

  /** Exactly the operands that named `d` and satisfied the predicate now name `other`. */
  lemma ReplacedExactly<D(!new)>(operands: Operands<D>, uses: UseSets<D>, owners: Owners, d: D, pred: Use -> bool, other: D, o: OpPtr, i: nat)
    requires TwoWay(operands, uses, owners) && d in uses && other in uses && o in operands && i < |operands[o]|
    ensures var operands', x := MovedOperands(operands, d, Touched(uses, d, pred), other), operands[o][i];
            && operands'.Keys == operands.Keys && |operands'[o]| == |operands[o]|
            && operands'[o][i] == if x.def == d && pred(Use(o, x.uid)) then Operand(other, x.uid) else x
  {
    var x := operands[o][i];
    OperandTracked(operands, uses, owners, o, i);
  }

  /** No use is lost and none is made up. */
  lemma ReplacedConserves<D(!new)>(operands: Operands<D>, uses: UseSets<D>, owners: Owners, d: D, pred: Use -> bool, other: D)
    requires TwoWay(operands, uses, owners) && d in uses && other in uses && d != other
    ensures var uses' := MovedUses(uses, d, Touched(uses, d, pred), other);
            && |uses'[d]| + |uses'[other]| == |uses[d]| + |uses[other]|
            && uses'[d] + uses'[other] == uses[d] + uses[other] && uses'[d] !! uses'[other]
            && (forall e :: e in uses && e != d && e != other ==> uses'[e] == uses[e])
            && ((forall u :: u in uses[d] ==> pred(u)) ==> uses'[d] == {})
  {
    UsesApart(operands, uses, owners, d, other);
    MoveConserves(uses[d], uses[other], Touched(uses, d, pred));
  }

  lemma MoveConserves(xs: set<Use>, ys: set<Use>, moved: set<Use>)
    requires xs !! ys && moved <= xs
    ensures |xs - moved| + |ys + moved| == |xs| + |ys| && (xs - moved) + (ys + moved) == xs + ys && xs - moved !! ys + moved
  {
    assert xs == (xs - moved) + moved;
    assert |xs| == |xs - moved| + |moved|;
    assert |ys + moved| == |ys| + |moved|;
  }

  /** A use has one definition. */
  lemma UsesApart<D(!new)>(operands: Operands<D>, uses: UseSets<D>, owners: Owners, d: D, e: D)
    requires TwoWay(operands, uses, owners) && d in uses && e in uses && d != e
    ensures uses[d] !! uses[e]
  {
    forall u | u in uses[d] ensures u !in uses[e] {
      UseFound(operands, uses, owners, d, u);
      if u in uses[e] { UseFound(operands, uses, owners, e, u); }
    }
  }

  /** Pointing one more use. */
  lemma RetargetOne<D(!new)>(operands: Operands<D>, moved: set<Use>, other: D, u: Use)
    requires u.user in operands && DistinctUids(operands[u.user]) && HasUid(operands[u.user], u.uid)
    ensures var now := RetargetAll(operands, moved, other);
            HasUid(now[u.user], u.uid)
            && Pointed(now, u.user, FindIndex(now[u.user], u.uid), other) == RetargetAll(operands, moved + {u}, other)
  {
    var o := u.user;
    var now, then_ := RetargetAll(operands, moved, other), RetargetAll(operands, moved + {u}, other);
    RetargetRow(operands[o], moved, other, u);
    var done := Pointed(now, o, FindIndex(now[o], u.uid), other);
    forall p | p in operands ensures done[p] == then_[p] {
      if p != o { RetargetOther(operands[p], p, moved, other, u); }
    }
  }

  lemma RetargetOther<D(!new)>(os: seq<Operand<D>>, o: OpPtr, moved: set<Use>, other: D, u: Use)
    requires o != u.user
    ensures Retarget(os, o, moved, other) == Retarget(os, o, moved + {u}, other)
  {
  }

  lemma {:induction false} RetargetRow<D(!new)>(os: seq<Operand<D>>, moved: set<Use>, other: D, u: Use)
    requires DistinctUids(os) && HasUid(os, u.uid)
    ensures var now, i := Retarget(os, u.user, moved, other), FindIndex(os, u.uid);
            && FindIndex(now, u.uid) == i && now[i].uid == u.uid
            && now[i := Operand(other, u.uid)] == Retarget(os, u.user, moved + {u}, other)
  {
    var now, then_ := Retarget(os, u.user, moved, other), Retarget(os, u.user, moved + {u}, other);
    var i := FindIndex(os, u.uid);
    assert now[i].uid == u.uid && FindIndex(now, u.uid) <= i;
    assert os[FindIndex(now, u.uid)].uid == u.uid;
    forall j | 0 <= j < |os| ensures now[i := Operand(other, u.uid)][j] == then_[j] {
      FindAt(os, j);
    }
  }

  /** The state after pointing one use of `d` to `other`. */
  function PointedUse<D(==)>(operands: Operands<D>, d: D, u: Use, other: D): Operands<D> {
    if d == other || u.user !in operands || !HasUid(operands[u.user], u.uid) then operands
    else Pointed(operands, u.user, FindIndex(operands[u.user], u.uid), other)
  }

  lemma MoveOne<D(!new)>(operands: Operands<D>, uses: UseSets<D>, owners: Owners, d: D, moved: set<Use>, other: D, u: Use)
    requires TwoWay(operands, uses, owners) && d in uses && other in uses && u in uses[d] && u !in moved
    ensures MovedOperands(operands, d, moved + {u}, other) == PointedUse(MovedOperands(operands, d, moved, other), d, u, other)
    ensures var now := MovedUses(uses, d, moved, other);
            && d in now && other in now && u in now[d]
            && MovedUses(uses, d, moved + {u}, other) == MovedUses(now, d, {u}, other)
  {
    UseFound(operands, uses, owners, d, u);
    RetargetOne(operands, moved, other, u);
    MoveOneUse(uses, d, moved, other, u);
  }

  lemma MoveOneUse<D(!new)>(uses: UseSets<D>, d: D, moved: set<Use>, other: D, u: Use)
    requires d in uses && other in uses && u in uses[d] && u !in moved
    ensures var now := MovedUses(uses, d, moved, other);
            && d in now && other in now && u in now[d]
            && MovedUses(uses, d, moved + {u}, other) == MovedUses(now, d, {u}, other)
  {
    assert uses[d] - (moved + {u}) == uses[d] - moved - {u};
    assert uses[other] + (moved + {u}) == uses[other] + moved + {u};
  }

  // ----- what dropping the uses of an op means -----

  function WithoutUser<D>(uses: UseSets<D>, o: OpPtr): UseSets<D> {
    map d | d in uses :: set u | u in uses[d] && u.user != o
  }

  lemma DropFirst<D(!new)>(operands: Operands<D>, uses: UseSets<D>, owners: Owners, o: OpPtr, os: seq<Operand<D>>, i: nat)
    requires o in operands && i < |os| && TwoWay(operands[o := os[i..]], uses, owners)
    ensures var x := os[i];
            && x.def in uses && Use(o, x.uid) in uses[x.def]
            && var uses' := uses[x.def := uses[x.def] - {Use(o, x.uid)}];
               TwoWay(operands[o := os[i + 1..]], uses', owners) && WithoutUser(uses', o) == WithoutUser(uses, o)
  {
    var now := operands[o := os[i..]];
    assert os[i..][0] == os[i] && Removed(os[i..], 0) == os[i + 1..];
    DropKeeps(now, uses, owners, o, 0);
    assert now[o := os[i + 1..]] == operands[o := os[i + 1..]];
    var uses' := uses[os[i].def := uses[os[i].def] - {Use(o, os[i].uid)}];
    forall d | d in uses ensures WithoutUser(uses', o)[d] == WithoutUser(uses, o)[d] {}
    assert WithoutUser(uses', o).Keys == WithoutUser(uses, o).Keys;
  }

  lemma NoUses<D(!new)>(operands: Operands<D>, uses: UseSets<D>, owners: Owners, o: OpPtr)
    requires TwoWay(operands, uses, owners) && o in operands && operands[o] == []
    ensures WithoutUser(uses, o) == uses
  {
    forall d | d in uses ensures WithoutUser(uses, o)[d] == uses[d] {
      forall u | u in uses[d] ensures u.user != o { assert Holds(operands, u, d); }
    }
  }

  // ----- the chains -----

  class Chain<D(==,!new)> {
    var operands: Operands<D>
    var uses: UseSets<D>
    /** The op that each use id was created for. */
    ghost var owners: Owners

    ghost predicate Valid()
      reads this
    {
      TwoWay(operands, uses, owners)
    }

    constructor ()
      ensures Valid() && operands == map[] && uses == map[] && owners == map[]
    {
      operands, uses, owners := map[], map[], map[];
    }

    /** A new definition, without uses. */
    method AddDef(d: D)
      requires Valid() && d !in uses
      modifies this`uses
      ensures Valid() && uses == old(uses)[d := {}]
    {
      NewDefKeeps(operands, uses, owners, d);
      uses := uses[d := {}];
    }

    method RemoveDef(d: D)
      requires Valid() && d in uses && uses[d] == {}
      modifies this`uses
      ensures Valid() && uses == old(uses) - {d}
    {
      OldDefKeeps(operands, uses, owners, d);
      uses := uses - {d};
    }

    /** A definition is freed, whether it is used or not. */
    method ForgetDef(d: D)
      requires d in uses
      modifies this`uses
      ensures uses == old(uses) - {d}
    {
      uses := uses - {d};
    }

    /** A new op, without operands. */
    method AddUser(o: OpPtr)
      requires Valid() && o !in operands
      modifies this`operands
      ensures Valid() && operands == old(operands)[o := []]
    {
      operands := operands[o := []];
    }

    method ForgetUser(o: OpPtr)
      requires o in operands
      modifies this`operands
      ensures operands == old(operands) - {o}
    {
      operands := operands - {o};
    }

    /** Tracks a new use; it must not be tracked yet. */
    method AddUse(d: D, u: Use)
      requires d in uses && u !in uses[d]
      modifies this`uses
      ensures uses == old(uses)[d := old(uses)[d] + {u}]
    {
      uses := uses[d := uses[d] + {u}];
    }

    /** Stops tracking a use; it must be tracked. */
    method RemoveUse(d: D, u: Use)
      requires d in uses && u in uses[d]
      modifies this`uses
      ensures uses == old(uses)[d := old(uses)[d] - {u}]
    {
      uses := uses[d := uses[d] - {u}];
    }

    method InsertOperand(o: OpPtr, i: nat, d: D, uid: nat)
      requires Valid() && o in operands && i <= |operands[o]| && d in uses && uid !in owners
      modifies this
      ensures Valid() && owners == old(owners)[uid := o]
      ensures operands == old(operands)[o := Inserted(old(operands)[o], i, Operand(d, uid))]
      ensures uses == old(uses)[d := old(uses)[d] + {Use(o, uid)}]
    {
      AddKeeps(operands, uses, owners, o, i, d, uid);
      AddUse(d, Use(o, uid));
      operands := operands[o := operands[o][..i] + [Operand(d, uid)] + operands[o][i..]];
      owners := owners[uid := o];
    }

    method PushOperand(o: OpPtr, d: D, uid: nat) returns (index: nat)
      requires Valid() && o in operands && d in uses && uid !in owners
      modifies this
      ensures Valid() && owners == old(owners)[uid := o] && index == |old(operands)[o]|
      ensures operands == old(operands)[o := old(operands)[o] + [Operand(d, uid)]]
      ensures uses == old(uses)[d := old(uses)[d] + {Use(o, uid)}]
    {
      index := |operands[o]|;
      assert Inserted(operands[o], index, Operand(d, uid)) == operands[o] + [Operand(d, uid)];
      InsertOperand(o, index, d, uid);
    }

    method RemoveOperand(o: OpPtr, i: nat) returns (d: D)
      requires Valid() && o in operands && i < |operands[o]|
      modifies this`operands, this`uses
      ensures Valid() && d == old(operands)[o][i].def
      ensures operands == old(operands)[o := Removed(old(operands)[o], i)]
      ensures uses == old(uses)[d := old(uses)[d] - {Use(o, old(operands)[o][i].uid)}]
    {
      DropKeeps(operands, uses, owners, o, i);
      var x := operands[o][i];
      operands := operands[o := operands[o][..i] + operands[o][i + 1..]];
      d := x.def;
      RemoveUse(d, Use(o, x.uid));
    }

    /** The new use is added before the old one is dropped. */
    method ReplaceOperand(o: OpPtr, i: nat, d: D, uid: nat)
      requires Valid() && o in operands && i < |operands[o]| && d in uses && uid !in owners
      modifies this
      ensures Valid() && owners == old(owners)[uid := o]
      ensures operands == old(operands)[o := old(operands)[o][i := Operand(d, uid)]]
      ensures var x := old(operands)[o][i]; var u := old(uses)[d := old(uses)[d] + {Use(o, uid)}];
              uses == u[x.def := u[x.def] - {Use(o, x.uid)}]
    {
      ReplaceKeeps(operands, uses, owners, o, i, d, uid);
      var was := operands[o][i];
      AddUse(d, Use(o, uid));
      operands := operands[o := operands[o][i := Operand(d, uid)]];
      owners := owners[uid := o];
      RemoveUse(was.def, Use(o, was.uid));
    }

    /** The operands of an op cease to be uses: the list is taken, then every use in it is dropped. */
    method DropUses(o: OpPtr)
      requires Valid() && o in operands
      modifies this`operands, this`uses
      ensures Valid() && operands == old(operands)[o := []] && uses == WithoutUser(old(uses), o)
    {
      var os := operands[o];
      operands := operands[o := []];
      assert operands[o := os[0..]] == old(operands);
      for i := 0 to |os|
        invariant operands == old(operands)[o := []]
        invariant TwoWay(operands[o := os[i..]], uses, owners)
        invariant WithoutUser(uses, o) == WithoutUser(old(uses), o)
      {
        DropFirst(operands, uses, owners, o, os, i);
        RemoveUse(os[i].def, Use(o, os[i].uid));
      }
      assert operands[o := os[|os|..]] == operands;
      NoUses(operands, uses, owners, o);
    }

    /** Points one use of `d` to `other`. */
    method ReplaceUse(d: D, u: Use, other: D)
      requires Valid() && d in uses && u in uses[d] && other in uses
      modifies this`operands, this`uses
      ensures Valid()
      ensures operands == PointedUse(old(operands), d, u, other) && uses == MovedUses(old(uses), d, {u}, other)
    {
      UseFound(operands, uses, owners, d, u);
      if d == other { return; }
      var i := FindIndex(operands[u.user], u.uid);
      PointKeeps(operands, uses, owners, u.user, i, other);
      AddUse(other, u);
      operands := operands[u.user := operands[u.user][i := Operand(other, u.uid)]];
      RemoveUse(d, u);
    }

    /** Points the uses of `d` that satisfy `pred` to `other`, one by one. */
    method ReplaceSomeUses(d: D, pred: Use -> bool, other: D)
      requires Valid() && d in uses && other in uses
      modifies this`operands, this`uses
      ensures Valid()
      ensures operands == MovedOperands(old(operands), d, Touched(old(uses), d, pred), other)
      ensures uses == MovedUses(old(uses), d, Touched(old(uses), d, pred), other)
    {
      var todo := Touched(uses, d, pred);
      ghost var moved: set<Use>, touched := {}, todo;
      NothingMoved(operands, uses, d, other);
      while todo != {}
        invariant Valid() && moved + todo == touched && moved !! todo
        invariant operands == MovedOperands(old(operands), d, moved, other)
        invariant uses == MovedUses(old(uses), d, moved, other)
        decreases |todo|
      {
        var u :| u in todo;
        MoveOne(old(operands), old(uses), old(owners), d, moved, other, u);
        ReplaceUse(d, u, other);
        TakeOne(moved, todo, u);
        moved := moved + {u};
        todo := todo - {u};
      }
      assert moved == touched;
    }
  }

  lemma TakeOne(moved: set<Use>, todo: set<Use>, u: Use)
    requires u in todo && moved !! todo
    ensures moved + {u} + (todo - {u}) == moved + todo && moved + {u} !! todo - {u}
  {
  }

  lemma NothingMoved<D>(operands: Operands<D>, uses: UseSets<D>, d: D, other: D)
    requires d in uses && other in uses
    ensures MovedOperands(operands, d, {}, other) == operands && MovedUses(uses, d, {}, other) == uses
  {
    forall o | o in operands ensures Retarget(operands[o], o, {}, other) == operands[o] {}
    assert uses[other] + {} == uses[other] && uses[d] - {} == uses[d];
    assert uses[other := uses[other]][d := uses[d]] == uses;
  }
}

/** Collecting the verifiers of an owner (an op, a type or an attribute) over all interfaces that it implements: each
    once, those of super-interfaces first. A verifier stands for the interface that defines it. */
module InterfaceVerifiers {
  import opened SeqLists

  type Interface = nat
  type Owner = nat
  type Verifier = Interface

  /** The direct super-interfaces, in order, with ranks that show that there are no cycles. */
  datatype Hierarchy = Hierarchy(supers: map<Interface, seq<Interface>>, rank: map<Interface, nat>)

  ghost predicate Acyclic(h: Hierarchy) {
    && h.supers.Keys == h.rank.Keys
    && forall i, s :: i in h.supers && s in h.supers[i] ==> s in h.supers && h.rank[s] < h.rank[i]
  }

  // ----- the list that an interface contributes -----

  /** The verifiers of the super-interfaces, one after another, then the interface's own. */
  ghost function AllVerifiers(h: Hierarchy, i: Interface): (r: seq<Verifier>)
    requires Acyclic(h) && i in h.supers
    ensures r != [] && r[|r| - 1] == i
    decreases h.rank[i], 1, 0
  {
    SuperVerifiers(h, i, h.supers[i]) + [i]
  }

  ghost function SuperVerifiers(h: Hierarchy, i: Interface, ss: seq<Interface>): seq<Verifier>
    requires Acyclic(h) && i in h.supers && forall s :: s in ss ==> s in h.supers[i]
    decreases h.rank[i], 0, |ss|
  {
    if ss == [] then [] else AllVerifiers(h, ss[0]) + SuperVerifiers(h, i, ss[1..])
  }

  /** The super-interfaces contribute in the order in which they are declared, each its whole list. */
  lemma {:induction false} SupersInOrder(h: Hierarchy, i: Interface, ss: seq<Interface>, k: nat)
    requires Acyclic(h) && i in h.supers && k < |ss| && forall s :: s in ss ==> s in h.supers[i]
    ensures SuperVerifiers(h, i, ss) == SuperVerifiers(h, i, ss[..k]) + AllVerifiers(h, ss[k]) + SuperVerifiers(h, i, ss[k + 1..])
    decreases k
  {
    if k == 0 {
      assert SuperVerifiers(h, i, ss[..0]) == [];
    } else {
      var rest := ss[1..];
      SupersInOrder(h, i, rest, k - 1);
      assert ss[..k][0] == ss[0] && ss[..k][1..] == rest[..k - 1] && rest[k..] == ss[k + 1..];
      Associate(AllVerifiers(h, ss[0]), SuperVerifiers(h, i, rest[..k - 1]), AllVerifiers(h, rest[k - 1]), SuperVerifiers(h, i, rest[k..]));
    }
  }

  lemma Associate<T>(a: seq<T>, b: seq<T>, c: seq<T>, d: seq<T>)
    ensures a + (b + c + d) == (a + b) + c + d
  {
  }

  /** `s` is `i` or a direct or indirect super-interface of it. */
  ghost predicate IsSuper(h: Hierarchy, s: Interface, i: Interface)
    requires Acyclic(h) && i in h.supers
    decreases h.rank[i]
  {
    s == i || exists d :: d in h.supers[i] && IsSuper(h, s, d)
  }

  /** Every verifier comes after those of the direct super-interfaces. */
  ghost predicate Ordered(h: Hierarchy, vs: seq<Verifier>)
    requires Acyclic(h)
  {
    forall k :: 0 <= k < |vs| ==> vs[k] in h.supers && SupersIn(h, vs[k], vs[..k])
  }

  predicate SupersIn(h: Hierarchy, i: Interface, vs: seq<Verifier>)
    requires i in h.supers
  {
    forall s :: s in h.supers[i] ==> s in vs
  }

  lemma OrderedConcat(h: Hierarchy, xs: seq<Verifier>, ys: seq<Verifier>)
    requires Acyclic(h) && Ordered(h, xs) && Ordered(h, ys)
    ensures Ordered(h, xs + ys)
  {
    var zs := xs + ys;
    forall k | 0 <= k < |zs| ensures zs[k] in h.supers && SupersIn(h, zs[k], zs[..k]) {
      if k < |xs| {
        assert zs[..k] == xs[..k];
      } else {
        assert zs[..k] == xs + ys[..k - |xs|];
        assert SupersIn(h, ys[k - |xs|], ys[..k - |xs|]);
      }
    }
  }

  lemma {:induction false} AllVerifiersAre(h: Hierarchy, i: Interface, v: Verifier)
    requires Acyclic(h) && i in h.supers
    ensures v in AllVerifiers(h, i) <==> IsSuper(h, v, i)
    decreases h.rank[i], 1, 0
  {
    SuperVerifiersAre(h, i, h.supers[i], v);
  }

  lemma {:induction false} SuperVerifiersAre(h: Hierarchy, i: Interface, ss: seq<Interface>, v: Verifier)
    requires Acyclic(h) && i in h.supers && forall s :: s in ss ==> s in h.supers[i]
    ensures v in SuperVerifiers(h, i, ss) <==> exists d :: d in ss && IsSuper(h, v, d)
    decreases h.rank[i], 0, |ss|
  {
    if ss != [] {
      AllVerifiersAre(h, ss[0], v);
      SuperVerifiersAre(h, i, ss[1..], v);
    }
  }

  lemma {:induction false} AllVerifiersOrdered(h: Hierarchy, i: Interface)
    requires Acyclic(h) && i in h.supers
    ensures Ordered(h, AllVerifiers(h, i))
    decreases h.rank[i], 1, 0
  {
    SuperVerifiersOrdered(h, i, h.supers[i]);
    var vs := SuperVerifiers(h, i, h.supers[i]);
    forall k | 0 <= k < |vs + [i]| ensures (vs + [i])[k] in h.supers && SupersIn(h, (vs + [i])[k], (vs + [i])[..k]) {
      assert (vs + [i])[..k] == vs[..k];
      if k < |vs| { assert SupersIn(h, vs[k], vs[..k]); } else { assert vs[..k] == vs; }
    }
  }

  lemma {:induction false} SuperVerifiersOrdered(h: Hierarchy, i: Interface, ss: seq<Interface>)
    requires Acyclic(h) && i in h.supers && forall s :: s in ss ==> s in h.supers[i]
    ensures Ordered(h, SuperVerifiers(h, i, ss))
    ensures forall s :: s in ss ==> s in SuperVerifiers(h, i, ss)
    decreases h.rank[i], 0, |ss|
  {
    if ss != [] {
      AllVerifiersOrdered(h, ss[0]);
      SuperVerifiersOrdered(h, i, ss[1..]);
      OrderedConcat(h, AllVerifiers(h, ss[0]), SuperVerifiers(h, i, ss[1..]));
    }
  }

  // ----- dropping repetitions -----

  lemma {:induction false} FirstSeenOrdered(h: Hierarchy, vs: seq<Verifier>)
    requires Acyclic(h) && Ordered(h, vs)
    ensures Ordered(h, FirstSeen(vs))
  {
    if vs != [] {
      var init, last := vs[..|vs| - 1], vs[|vs| - 1];
      assert forall k :: 0 <= k < |init| ==> init[..k] == vs[..k];
      FirstSeenOrdered(h, init);
      FirstSeenSame(init);
      var d := FirstSeen(init);
      assert SupersIn(h, last, init) by { assert SupersIn(h, vs[|vs| - 1], vs[..|vs| - 1]); }
      forall k | 0 <= k < |d + [last]| ensures (d + [last])[k] in h.supers && SupersIn(h, (d + [last])[k], (d + [last])[..k]) {
        assert (d + [last])[..k] == d[..k];
        if k < |d| { assert SupersIn(h, d[k], d[..k]); } else { assert d[..k] == d; }
      }
    }
  }

  /** In an ordered list a verifier comes after those of all its super-interfaces, direct or not. */
  lemma {:induction false} AfterSupers(h: Hierarchy, vs: seq<Verifier>, k: nat, s: Interface) returns (j: nat)
    requires Acyclic(h) && Ordered(h, vs) && k < |vs| && IsSuper(h, s, vs[k])
    ensures j <= k && vs[j] == s && (s != vs[k] ==> j < k)
    decreases h.rank[vs[k]]
  {
    j := k;
    if s != vs[k] {
      var d :| d in h.supers[vs[k]] && IsSuper(h, s, d);
      assert SupersIn(h, vs[k], vs[..k]);
      assert d in vs[..k];
      var m :| 0 <= m < k && vs[m] == d;
      j := AfterSupers(h, vs, m, s);
    }
  }

  // ----- collecting -----

  datatype Entry = Entry(owner: Owner, interface_: Interface)

  ghost predicate Known(h: Hierarchy, entries: seq<Entry>) {
    forall k :: 0 <= k < |entries| ==> entries[k].interface_ in h.supers
  }

  /** What the entries of one owner contribute, in order. */
  ghost function Contributed(h: Hierarchy, entries: seq<Entry>, o: Owner): seq<Verifier>
    requires Acyclic(h) && Known(h, entries)
  {
    if entries == [] then [] else
    var last := entries[|entries| - 1];
    var before := Contributed(h, entries[..|entries| - 1], o);
    if last.owner == o then before + AllVerifiers(h, last.interface_) else before
  }

  /** The owner has an interface that has verifier `v`, itself or from a super-interface. */
  ghost predicate Gives(h: Hierarchy, entries: seq<Entry>, o: Owner, v: Verifier)
    requires Acyclic(h) && Known(h, entries)
  {
    exists k :: 0 <= k < |entries| && entries[k].owner == o && IsSuper(h, v, entries[k].interface_)
  }

  lemma {:induction false} GivesLast(h: Hierarchy, entries: seq<Entry>, o: Owner, v: Verifier)
    requires Acyclic(h) && Known(h, entries) && entries != []
    ensures var init, last := entries[..|entries| - 1], entries[|entries| - 1];
            Gives(h, entries, o, v) <==> Gives(h, init, o, v) || (last.owner == o && IsSuper(h, v, last.interface_))
  {
    var init := entries[..|entries| - 1];
    assert forall k :: 0 <= k < |init| ==> init[k] == entries[k];
  }

  lemma {:induction false} ContributedAre(h: Hierarchy, entries: seq<Entry>, o: Owner, v: Verifier)
    requires Acyclic(h) && Known(h, entries)
    ensures Ordered(h, Contributed(h, entries, o))
    ensures v in Contributed(h, entries, o) <==> Gives(h, entries, o, v)
  {
    if entries != [] {
      var init, last := entries[..|entries| - 1], entries[|entries| - 1];
      ContributedAre(h, init, o, v);
      GivesLast(h, entries, o, v);
      if last.owner == o {
        AllVerifiersAre(h, last.interface_, v);
        AllVerifiersOrdered(h, last.interface_);
        OrderedConcat(h, Contributed(h, init, o), AllVerifiers(h, last.interface_));
      }
    }
  }

  /** The final list of an owner: no verifier twice, exactly those of its interfaces and their super-interfaces, and
      every one after those of its super-interfaces. */
  lemma {:induction false} CollectedAre(h: Hierarchy, entries: seq<Entry>, o: Owner, v: Verifier)
    requires Acyclic(h) && Known(h, entries)
    ensures var vs := FirstSeen(Contributed(h, entries, o));
            && NoneTwice(vs) && Ordered(h, vs)
            && (v in vs <==> Gives(h, entries, o, v))
  {
    ContributedAre(h, entries, o, v);
    FirstSeenSame(Contributed(h, entries, o));
    FirstSeenOrdered(h, Contributed(h, entries, o));
  }

  // ----- the collecting as it is done -----

  /** The registered functions return the lists of the hierarchy. */
  ghost predicate Lists(h: Hierarchy, all: map<Interface, seq<Verifier>>) {
    Acyclic(h) && all.Keys == h.supers.Keys && forall i :: i in all ==> all[i] == AllVerifiers(h, i)
  }

  /** The interfaces of one owner, in order. */
  function InterfacesOf(entries: seq<Entry>, o: Owner): seq<Interface> {
    if entries == [] then [] else
    var before := InterfacesOf(entries[..|entries| - 1], o);
    if entries[|entries| - 1].owner == o then before + [entries[|entries| - 1].interface_] else before
  }

  function Owners(entries: seq<Entry>): set<Owner> {
    set k | 0 <= k < |entries| :: entries[k].owner
  }

  method Group(entries: seq<Entry>) returns (grouped: map<Owner, seq<Interface>>)
    ensures grouped.Keys == Owners(entries)
    ensures forall o :: o in grouped ==> grouped[o] == InterfacesOf(entries, o)
  {
    grouped := map[];
    for n := 0 to |entries|
      invariant forall o :: o in grouped <==> exists k :: 0 <= k < n && entries[k].owner == o
      invariant forall o :: (if o in grouped then grouped[o] else []) == InterfacesOf(entries[..n], o)
    {
      var e := entries[n];
      assert entries[..n + 1][..n] == entries[..n];
      grouped := grouped[e.owner := (if e.owner in grouped then grouped[e.owner] else []) + [e.interface_]];
    }
    assert entries[..|entries|] == entries;
  }

  ghost function Joined(h: Hierarchy, is_: seq<Interface>): seq<Verifier>
    requires Acyclic(h) && forall i :: i in is_ ==> i in h.supers
  {
    if is_ == [] then [] else Joined(h, is_[..|is_| - 1]) + AllVerifiers(h, is_[|is_| - 1])
  }

  lemma {:induction false} JoinedIsContributed(h: Hierarchy, entries: seq<Entry>, o: Owner)
    requires Acyclic(h) && Known(h, entries)
    ensures forall i :: i in InterfacesOf(entries, o) ==> i in h.supers
    ensures Joined(h, InterfacesOf(entries, o)) == Contributed(h, entries, o)
  {
    if entries != [] {
      var init, last := entries[..|entries| - 1], entries[|entries| - 1];
      JoinedIsContributed(h, init, o);
      var is_ := InterfacesOf(entries, o);
      if last.owner == o { assert is_[..|is_| - 1] == InterfacesOf(init, o); }
    }
  }

  lemma {:induction false} FirstSeenNext(before: seq<Verifier>, list: seq<Verifier>, m: nat)
    requires m < |list|
    ensures var seen := FirstSeen(before + list[..m]);
            FirstSeen(before + list[..m + 1]) == if list[m] in seen then seen else seen + [list[m]]
  {
    assert (before + list[..m + 1])[..|before| + m] == before + list[..m];
  }

  /** Runs through the lists, and keeps what was not seen yet. */
  method Dedup(all: map<Interface, seq<Verifier>>, is_: seq<Interface>, ghost h: Hierarchy) returns (vs: seq<Verifier>)
    requires Lists(h, all) && forall i :: i in is_ ==> i in all
    ensures vs == FirstSeen(Joined(h, is_))
  {
    vs := [];
    var seen: set<Verifier> := {};
    for n := 0 to |is_|
      invariant vs == FirstSeen(Joined(h, is_[..n])) && forall v :: v in seen <==> v in vs
    {
      var list := all[is_[n]];
      ghost var before := Joined(h, is_[..n]);
      assert before + list[..0] == before;
      for m := 0 to |list|
        invariant vs == FirstSeen(before + list[..m]) && forall v :: v in seen <==> v in vs
      {
        FirstSeenNext(before, list, m);
        if list[m] !in seen {
          seen := seen + {list[m]};
          vs := vs + [list[m]];
        }
      }
      assert list[..|list|] == list;
      assert is_[..n + 1][..n] == is_[..n];
    }
    assert is_[..|is_|] == is_;
  }

  method DedupOwner(all: map<Interface, seq<Verifier>>, is_: seq<Interface>, ghost h: Hierarchy, ghost entries: seq<Entry>, ghost o: Owner)
    returns (vs: seq<Verifier>)
    requires Lists(h, all) && Known(h, entries) && is_ == InterfacesOf(entries, o)
    ensures vs == FirstSeen(Contributed(h, entries, o))
  {
    JoinedIsContributed(h, entries, o);
    vs := Dedup(all, is_, h);
  }

  /** Every owner has the list it should have. */
  ghost predicate Collected(h: Hierarchy, entries: seq<Entry>, r: map<Owner, seq<Verifier>>)
    requires Acyclic(h) && Known(h, entries)
  {
    forall o :: o in r ==> r[o] == FirstSeen(Contributed(h, entries, o))
  }

  method Collect(all: map<Interface, seq<Verifier>>, entries: seq<Entry>, ghost h: Hierarchy) returns (r: map<Owner, seq<Verifier>>)
    requires Lists(h, all) && Known(h, entries)
    ensures r.Keys == Owners(entries)
    ensures Collected(h, entries, r)
  {
    var grouped := Group(entries);
    r := map[];
    var todo := grouped.Keys;
    while todo != {}
      invariant todo <= grouped.Keys && (forall o :: o in r <==> o in grouped && o !in todo) && Collected(h, entries, r)
      decreases todo
    {
      var o :| o in todo;
      var vs := DedupOwner(all, grouped[o], h, entries, o);
      r := r[o := vs];
      todo := todo - {o};
    }
  }
}

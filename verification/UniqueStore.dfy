/** Hash-consing: equal objects are stored once, whatever collisions the hash has. */
module UniqueStore {
  import opened Options

  // ----- what saving means -----

  /** `eq` is an equivalence, and equal objects have equal hashes. */
  ghost predicate Suitable<T(!new), H>(eq: (T, T) -> bool, hash: T -> H) {
    && (forall x :: eq(x, x))
    && (forall x, y :: eq(x, y) ==> eq(y, x) && hash(x) == hash(y))
    && (forall x, y, z :: eq(x, y) && eq(y, z) ==> eq(x, z))
  }

  /** The first stored object equal to `t`, or the length. */
  function Find<T>(eq: (T, T) -> bool, store: seq<T>, t: T): (i: nat)
    ensures i <= |store| && (i < |store| ==> eq(t, store[i]))
    ensures forall j :: 0 <= j < i ==> !eq(t, store[j])
  {
    if store == [] then 0 else if eq(t, store[0]) then 0 else 1 + Find(eq, store[1..], t)
  }

  /** The store after `t` was saved; its index is `Find(eq, Saved(eq, store, t), t)`. */
  function Saved<T>(eq: (T, T) -> bool, store: seq<T>, t: T): seq<T> {
    if Find(eq, store, t) < |store| then store else store + [t]
  }

  ghost predicate NoTwoEqual<T(!new)>(eq: (T, T) -> bool, store: seq<T>) {
    forall i, j :: 0 <= i < j < |store| ==> !eq(store[i], store[j])
  }

  /** The store after a run of saves. */
  function SavedAll<T>(eq: (T, T) -> bool, store: seq<T>, ts: seq<T>): seq<T>
    decreases |ts|
  {
    if ts == [] then store else SavedAll(eq, Saved(eq, store, ts[0]), ts[1..])
  }

  /** The indices that a run of saves returns. */
  function Indices<T>(eq: (T, T) -> bool, store: seq<T>, ts: seq<T>): (r: seq<nat>)
    ensures |r| == |ts|
    decreases |ts|
  {
    if ts == [] then [] else [Find(eq, store, ts[0])] + Indices(eq, Saved(eq, store, ts[0]), ts[1..])
  }

  lemma {:induction false} SavedKeeps<T(!new), H>(eq: (T, T) -> bool, hash: T -> H, store: seq<T>, t: T)
    requires Suitable(eq, hash) && NoTwoEqual(eq, store)
    ensures var s := Saved(eq, store, t);
            store <= s && NoTwoEqual(eq, s) && Find(eq, store, t) < |s| && eq(t, s[Find(eq, store, t)])
  {
    var s := Saved(eq, store, t);
    forall i, j | 0 <= i < j < |s| ensures !eq(s[i], s[j]) {
      if j == |store| { assert !eq(t, s[i]); }
    }
  }

  /** Stored objects keep their places, and every index that a save returned denotes an object equal to the saved one. */
  lemma {:induction false} IndicesDenote<T(!new), H>(eq: (T, T) -> bool, hash: T -> H, store: seq<T>, ts: seq<T>, k: nat)
    requires Suitable(eq, hash) && NoTwoEqual(eq, store)
    ensures store <= SavedAll(eq, store, ts) && NoTwoEqual(eq, SavedAll(eq, store, ts))
    ensures k < |ts| ==> var i := Indices(eq, store, ts)[k]; i < |SavedAll(eq, store, ts)| && eq(ts[k], SavedAll(eq, store, ts)[i])
    decreases |ts|
  {
    if ts != [] {
      SavedKeeps(eq, hash, store, ts[0]);
      IndicesDenote(eq, hash, Saved(eq, store, ts[0]), ts[1..], if k == 0 then 0 else k - 1);
    }
  }

  /** Two saves of a run return the same index exactly when the saved objects are equal. */
  lemma {:induction false} SameIndexIffEqual<T(!new), H>(eq: (T, T) -> bool, hash: T -> H, store: seq<T>, ts: seq<T>, a: nat, b: nat)
    requires Suitable(eq, hash) && NoTwoEqual(eq, store) && a < |ts| && b < |ts|
    ensures Indices(eq, store, ts)[a] == Indices(eq, store, ts)[b] <==> eq(ts[a], ts[b])
  {
    IndicesDenote(eq, hash, store, ts, a);
    IndicesDenote(eq, hash, store, ts, b);
    var s := SavedAll(eq, store, ts);
    var i, j := Indices(eq, store, ts)[a], Indices(eq, store, ts)[b];
    assert eq(ts[a], s[i]) && eq(ts[b], s[j]) && eq(s[i], ts[a]) && eq(s[j], ts[b]);
    if eq(ts[a], ts[b]) {
      assert eq(s[i], ts[b]);
      assert eq(s[i], s[j]) && eq(s[j], s[i]);
    }
  }

  // ----- the store as it is kept -----

  class Store<T(!new), H(==)> {
    const eq: (T, T) -> bool
    const hash: T -> H
    var store: seq<T>
    /** The indices of the stored objects, by hash. */
    var buckets: map<H, seq<nat>>

    ghost predicate Valid()
      reads this
    {
      && Suitable(eq, hash) && NoTwoEqual(eq, store)
      && (forall h :: h in buckets ==> BucketOk(h))
      && (forall i :: 0 <= i < |store| ==> InBucket(i))
    }

    predicate BucketOk(h: H)
      reads this
      requires h in buckets
    {
      forall n :: 0 <= n < |buckets[h]| ==> buckets[h][n] < |store| && hash(store[buckets[h][n]]) == h
    }

    predicate InBucket(i: nat)
      reads this
      requires i < |store|
    {
      hash(store[i]) in buckets && i in buckets[hash(store[i])]
    }

    constructor (eq: (T, T) -> bool, hash: T -> H)
      requires Suitable(eq, hash)
      ensures Valid() && store == [] && this.eq == eq && this.hash == hash
    {
      this.eq, this.hash, store, buckets := eq, hash, [], map[];
    }

    /** Searches the bucket of a hash for an object that satisfies `matches`. */
    method Search(h: H, matches: T -> bool) returns (r: Option<nat>)
      requires h in buckets ==> BucketOk(h)
      ensures r.Some? ==> h in buckets && r.value in buckets[h] && matches(store[r.value])
      ensures r.None? && h in buckets ==> forall k: nat :: k in buckets[h] ==> !matches(store[k])
    {
      if h !in buckets { return None; }
      var bucket := buckets[h];
      for n := 0 to |bucket|
        invariant forall m :: 0 <= m < n ==> !matches(store[bucket[m]])
      {
        if matches(store[bucket[n]]) { return Some(bucket[n]); }
      }
      return None;
    }

    /** Saves an object, unless one equal to it is stored already; returns the index of the stored one. */
    method GetOrCreateUnique(t: T) returns (i: nat)
      requires Valid()
      modifies this
      ensures Valid() && store == Saved(eq, old(store), t) && i == Find(eq, old(store), t)
    {
      var h := hash(t);
      var found := Search(h, x => eq(t, x));
      SavedKeeps(eq, hash, store, t);
      if found.Some? {
        i := found.value;
        OnlyOne(eq, hash, store, t, i);
      } else {
        forall k | 0 <= k < |store| ensures !eq(t, store[k]) { assert InBucket(k); }
        i := |store|;
        Push(t, h);
      }
    }

    method Push(t: T, h: H)
      requires Valid() && h == hash(t) && NoTwoEqual(eq, store + [t])
      modifies this
      ensures Valid() && store == old(store) + [t]
    {
      ghost var before := buckets;
      assert forall g :: g in before ==> BucketOk(g);
      buckets := buckets[h := (if h in buckets then buckets[h] else []) + [|store|]];
      store := store + [t];
      forall k | 0 <= k < |store| ensures InBucket(k) {
        if k < |store| - 1 { assert store[k] == old(store)[k] && old(InBucket(k)); } else { assert buckets[h][|buckets[h]| - 1] == k; }
      }
    }

    /** Finds what was saved: `matches` holds of exactly the objects equal to `q`, whose hash is `h`. */
    method Get(h: H, matches: T -> bool, ghost q: T) returns (r: Option<nat>)
      requires Valid() && h == hash(q) && forall x :: matches(x) <==> eq(q, x)
      ensures r == if Find(eq, store, q) < |store| then Some(Find(eq, store, q)) else None
    {
      r := Search(h, matches);
      if r.Some? {
        OnlyOne(eq, hash, store, q, r.value);
      } else {
        forall k | 0 <= k < |store| ensures !eq(q, store[k]) { assert InBucket(k); }
      }
    }
  }

  /** No other stored object is equal to `t`. */
  lemma {:induction false} OnlyOne<T(!new), H>(eq: (T, T) -> bool, hash: T -> H, store: seq<T>, t: T, i: nat)
    requires Suitable(eq, hash) && NoTwoEqual(eq, store) && i < |store| && eq(t, store[i])
    ensures Find(eq, store, t) == i
  {
    var j := Find(eq, store, t);
    assert eq(store[j], t) && eq(store[i], t);
    assert eq(store[j], store[i]) && eq(store[i], store[j]);
  }

  // ----- objects of any Rust type in one store -----

  /** A stored object: its type, and its value among those of that type. */
  datatype Any<V> = Any(ty: nat, val: V)

  /** What saving at type `ty` compares with: both objects are downcast to `ty`, and what that yields is compared. */
  function Downcast<V>(x: Any<V>, ty: nat): Option<V> {
    if x.ty == ty then Some(x.val) else None
  }

  function EqAt<V>(eq: (nat, V, V) -> bool, ty: nat, x: Any<V>, y: Any<V>): bool {
    match (Downcast(x, ty), Downcast(y, ty))
    case (Some(a), Some(b)) => eq(ty, a, b)
    case (None, None) => true
    case _ => false
  }

  /** Objects of one type compared as that type compares them; objects of different types are different. */
  function SameAny<V>(eq: (nat, V, V) -> bool): (Any<V>, Any<V>) -> bool {
    (x: Any<V>, y: Any<V>) => x.ty == y.ty && eq(x.ty, x.val, y.val)
  }

  /** A type compares its values with an equivalence, and hashes equal ones alike. */
  ghost predicate SuitableAt<V(!new), H>(eq: (nat, V, V) -> bool, hash: Any<V> -> H, ty: nat) {
    && (forall a :: eq(ty, a, a))
    && (forall a, b :: eq(ty, a, b) ==> eq(ty, b, a) && hash(Any(ty, a)) == hash(Any(ty, b)))
    && (forall a, b, c :: eq(ty, a, b) && eq(ty, b, c) ==> eq(ty, a, c))
  }

  /** One store for all types: what each save compares with is one equivalence, which keeps types apart, as long
      as every type compares and hashes its own values consistently. */
  lemma TypesKeptApart<V(!new), H(!new)>(eq: (nat, V, V) -> bool, hash: Any<V> -> H)
    requires forall ty: nat :: SuitableAt(eq, hash, ty)
    ensures Suitable(SameAny(eq), hash)
    ensures forall x: Any<V>, y: Any<V> :: EqAt(eq, x.ty, x, y) == SameAny(eq)(x, y)
  {
    var same := SameAny(eq);
    forall x: Any<V>, y: Any<V> | same(x, y) ensures same(y, x) && hash(x) == hash(y) {
      assert SuitableAt(eq, hash, x.ty) && x == Any(x.ty, x.val) && y == Any(x.ty, y.val);
    }
    forall x: Any<V>, y: Any<V>, z: Any<V> | same(x, y) && same(y, z) ensures same(x, z) {
      assert SuitableAt(eq, hash, x.ty) && eq(x.ty, x.val, y.val) && eq(x.ty, y.val, z.val);
    }
    forall x: Any<V> ensures same(x, x) { assert SuitableAt(eq, hash, x.ty); }
  }
}

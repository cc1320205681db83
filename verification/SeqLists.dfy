/** Sequences without duplicates, what inserting and removing one element does to them, and the size of subsets. */
module SeqLists {
  predicate NoDuplicates<T(==)>(xs: seq<T>) {
    xs == [] || (xs[0] !in xs[1..] && NoDuplicates(xs[1..]))
  }

  function Without<T(==)>(xs: seq<T>, x: T): seq<T> {
    if xs == [] then [] else if xs[0] == x then xs[1..] else [xs[0]] + Without(xs[1..], x)
  }

  lemma {:induction false} WithoutIn<T(!new)>(xs: seq<T>, x: T)
    requires NoDuplicates(xs)
    ensures NoDuplicates(Without(xs, x)) && forall y :: y in Without(xs, x) <==> y in xs && y != x
    ensures x !in xs ==> Without(xs, x) == xs
  {
    if xs != [] && xs[0] != x {
      WithoutIn(xs[1..], x);
      var r := [xs[0]] + Without(xs[1..], x);
      assert r[1..] == Without(xs[1..], x);
    }
  }

  function InsertedAt<T>(xs: seq<T>, i: nat, x: T): seq<T>
    requires i <= |xs|
  {
    xs[..i] + [x] + xs[i..]
  }

  lemma {:induction false} InsertedAtIn<T(!new)>(xs: seq<T>, i: nat, x: T)
    requires i <= |xs| && NoDuplicates(xs) && x !in xs
    ensures NoDuplicates(InsertedAt(xs, i, x)) && forall y :: y in InsertedAt(xs, i, x) <==> y in xs || y == x
  {
    if i == 0 {
      assert InsertedAt(xs, 0, x)[1..] == xs;
    } else {
      InsertedAtIn(xs[1..], i - 1, x);
      assert InsertedAt(xs, i, x) == [xs[0]] + InsertedAt(xs[1..], i - 1, x);
      assert InsertedAt(xs, i, x)[1..] == InsertedAt(xs[1..], i - 1, x);
    }
  }

  // ----- what changed, position by position -----

  /** `x` is at position `i` now; what was before stays where it was, and the others are one further on. */
  ghost predicate IsInserted<T(!new)>(before: seq<T>, after: seq<T>, i: nat, x: T) {
    && |after| == |before| + 1 && i <= |before| && after[i] == x
    && (forall j :: 0 <= j < i ==> after[j] == before[j])
    && (forall j :: i <= j < |before| ==> after[j + 1] == before[j])
  }

  /** What was at position `i` is gone. */
  ghost predicate IsRemoved<T(!new)>(before: seq<T>, after: seq<T>, i: nat) {
    && |after| == |before| - 1 && i < |before|
    && (forall j :: 0 <= j < i ==> after[j] == before[j])
    && (forall j :: i < j < |before| ==> after[j - 1] == before[j])
  }

  /** `x` is at position `i` instead of what was there. */
  ghost predicate IsReplaced<T(!new)>(before: seq<T>, after: seq<T>, i: nat, x: T) {
    && |after| == |before| && i < |before| && after[i] == x
    && forall j :: 0 <= j < |before| && j != i ==> after[j] == before[j]
  }

  /** What was at position `i` is gone, and what was last is there instead, if it was not last itself. */
  ghost predicate IsSwapRemoved<T(!new)>(before: seq<T>, after: seq<T>, i: nat) {
    && |after| == |before| - 1 && i < |before|
    && (i < |after| ==> after[i] == before[|before| - 1])
    && forall j :: 0 <= j < |after| && j != i ==> after[j] == before[j]
  }

  /** Only the list of `k` changed. */
  ghost predicate SameBut<K(!new), V>(before: map<K, V>, after: map<K, V>, k: K) {
    && k in before && after.Keys == before.Keys
    && forall m :: m in before && m != k ==> after[m] == before[m]
  }

  lemma InsertedAtIs<T(!new)>(xs: seq<T>, i: nat, x: T)
    requires i <= |xs|
    ensures IsInserted(xs, InsertedAt(xs, i, x), i, x)
  {
  }

  lemma CutIs<T(!new)>(xs: seq<T>, i: nat)
    requires i < |xs|
    ensures IsRemoved(xs, xs[..i] + xs[i + 1..], i)
  {
  }

  lemma SwapRemovedIs<T(!new)>(xs: seq<T>, i: nat)
    requires i < |xs|
    ensures IsSwapRemoved(xs, SwapRemoved(xs, i), i)
  {
  }

  /** Removing an element removes the position where it is found. */
  lemma {:induction false} WithoutIs<T(!new)>(xs: seq<T>, x: T)
    requires x in xs
    ensures IsRemoved(xs, Without(xs, x), IndexOf(xs, x))
  {
    if xs[0] != x { WithoutIs(xs[1..], x); }
  }

  /** The first position of `x`, or the length. */
  function IndexOf<T(==)>(xs: seq<T>, x: T): (i: nat)
    ensures i <= |xs| && (i < |xs| ==> xs[i] == x) && (x in xs ==> i < |xs|)
  {
    if xs == [] then 0 else if xs[0] == x then 0 else 1 + IndexOf(xs[1..], x)
  }

  /** The last element takes the place of the one at position `i`. */
  function SwapRemoved<T>(xs: seq<T>, i: nat): seq<T>
    requires i < |xs|
  {
    xs[i := xs[|xs| - 1]][..|xs| - 1]
  }

  lemma {:induction false} NoDuplicatesAt<T>(xs: seq<T>, i: nat, j: nat)
    requires NoDuplicates(xs) && i < j < |xs|
    ensures xs[i] != xs[j]
  {
    if i > 0 { NoDuplicatesAt(xs[1..], i - 1, j - 1); } else { assert xs[j] in xs[1..]; }
  }

  lemma {:induction false} NoDuplicatesFrom<T(!new)>(xs: seq<T>)
    requires forall i, j :: 0 <= i < j < |xs| ==> xs[i] != xs[j]
    ensures NoDuplicates(xs)
  {
    if xs != [] { NoDuplicatesFrom(xs[1..]); }
  }

  /** Elements at different places differ. */
  lemma {:induction false} Apart<T>(xs: seq<T>, i: nat, j: nat)
    requires NoDuplicates(xs) && i < |xs| && j < |xs| && i != j
    ensures xs[i] != xs[j]
  {
    if i < j { NoDuplicatesAt(xs, i, j); } else { NoDuplicatesAt(xs, j, i); }
  }

  /** The place in `xs` of what is at place `j` once the element at place `i` is gone. */
  lemma SwapRemovedPlace<T>(xs: seq<T>, i: nat, j: nat)
    requires i < |xs| && j < |xs| - 1
    ensures SwapRemoved(xs, i)[j] == xs[if j == i then |xs| - 1 else j]
  {
  }

  lemma {:induction false} SwapRemovedDistinct<T(!new)>(xs: seq<T>, i: nat)
    requires NoDuplicates(xs) && i < |xs|
    ensures NoDuplicates(SwapRemoved(xs, i))
  {
    var r, last := SwapRemoved(xs, i), |xs| - 1;
    forall j, k | 0 <= j < k < |r| ensures r[j] != r[k] {
      SwapRemovedPlace(xs, i, j);
      SwapRemovedPlace(xs, i, k);
      Apart(xs, if j == i then last else j, if k == i then last else k);
    }
    NoDuplicatesFrom(r);
  }

  lemma {:induction false} SwapRemovedIn<T(!new)>(xs: seq<T>, i: nat)
    requires NoDuplicates(xs) && i < |xs|
    ensures NoDuplicates(SwapRemoved(xs, i)) && forall y :: y in SwapRemoved(xs, i) <==> y in xs && y != xs[i]
  {
    SwapRemovedDistinct(xs, i);
    forall y ensures y in SwapRemoved(xs, i) <==> y in xs && y != xs[i] { SwapRemovedOne(xs, i, y); }
  }

  lemma {:induction false} SwapRemovedOne<T(!new)>(xs: seq<T>, i: nat, y: T)
    requires NoDuplicates(xs) && i < |xs|
    ensures y in SwapRemoved(xs, i) <==> y in xs && y != xs[i]
  {
    var r, last := SwapRemoved(xs, i), |xs| - 1;
    if y in r {
      var j :| 0 <= j < |r| && r[j] == y;
      SwapRemovedPlace(xs, i, j);
      Apart(xs, if j == i then last else j, i);
    }
    if y in xs && y != xs[i] {
      var j :| 0 <= j < |xs| && xs[j] == y;
      var m := if j == last then i else j;
      SwapRemovedPlace(xs, i, m);
      assert r[m] == y;
    }
  }

  lemma {:induction false} WithoutAt<T(!new)>(xs: seq<T>, i: nat)
    requires NoDuplicates(xs) && i < |xs|
    ensures xs[..i] + xs[i + 1..] == Without(xs, xs[i])
  {
    if i > 0 {
      WithoutAt(xs[1..], i - 1);
      assert xs[..i] + xs[i + 1..] == [xs[0]] + (xs[1..][..i - 1] + xs[1..][i..]);
    }
  }

  /** In a list without duplicates the next element is not among those before it. */
  lemma {:induction false} TakeNext<T>(xs: seq<T>, i: nat)
    requires NoDuplicates(xs) && i < |xs|
    ensures xs[i] !in xs[..i] && xs[..i + 1] == xs[..i] + [xs[i]]
  {
    if i > 0 {
      TakeNext(xs[1..], i - 1);
      assert xs[..i] == [xs[0]] + xs[1..][..i - 1];
    }
  }

  lemma {:induction false} SubsetSize<T>(a: set<T>, b: set<T>)
    requires a <= b
    ensures |a| <= |b|
  {
    if a != {} {
      var x :| x in a;
      SubsetSize(a - {x}, b - {x});
    }
  }

  /** Each element where it occurs first. */
  function FirstSeen<T(==)>(vs: seq<T>): seq<T> {
    if vs == [] then [] else
    var d := FirstSeen(vs[..|vs| - 1]);
    if vs[|vs| - 1] in d then d else d + [vs[|vs| - 1]]
  }

  ghost predicate NoneTwice<T(!new)>(vs: seq<T>) {
    forall j, k :: 0 <= j < k < |vs| ==> vs[j] != vs[k]
  }

  lemma {:induction false} FirstSeenSame<T(!new)>(vs: seq<T>)
    ensures NoneTwice(FirstSeen(vs)) && forall v :: v in FirstSeen(vs) <==> v in vs
  {
    if vs != [] {
      FirstSeenSame(vs[..|vs| - 1]);
      assert vs == vs[..|vs| - 1] + [vs[|vs| - 1]];
    }
  }

  /** What occurs first earlier is kept earlier. */
  lemma {:induction false} FirstSeenOrder<T(!new)>(vs: seq<T>, a: T, b: T)
    requires a in vs && b in vs
    ensures a in FirstSeen(vs) && b in FirstSeen(vs)
    ensures IndexOf(FirstSeen(vs), a) < IndexOf(FirstSeen(vs), b) <==> IndexOf(vs, a) < IndexOf(vs, b)
  {
    FirstSeenSame(vs);
    var init, last := vs[..|vs| - 1], vs[|vs| - 1];
    assert vs == init + [last];
    FirstSeenSame(init);
    IndexOfLast(init, last, a);
    IndexOfLast(init, last, b);
    IndexOfLast(FirstSeen(init), last, a);
    IndexOfLast(FirstSeen(init), last, b);
    if a in init && b in init { FirstSeenOrder(init, a, b); }
  }

  lemma {:induction false} IndexOfLast<T(!new)>(xs: seq<T>, y: T, a: T)
    ensures IndexOf(xs + [y], a) == if a in xs then IndexOf(xs, a) else if a == y then |xs| else |xs| + 1
    ensures a !in xs ==> IndexOf(xs, a) == |xs|
  {
    if xs == [] {
      assert xs + [y] == [y];
    } else {
      IndexOfLast(xs[1..], y, a);
      assert (xs + [y])[1..] == xs[1..] + [y];
    }
  }
}

/** The double-ended iterator over an intrusive list that is not changed meanwhile. */
module ListIter {
  import opened Options
  import opened SeqLists
  import opened LinkedList

  /** The next node from the front and from the back. */
  datatype Cursor = Cursor(next: Option<NodePtr>, back: Option<NodePtr>)

  /** The cursor that has `s[lo..hi]` still to come. */
  function Range(s: seq<NodePtr>, lo: nat, hi: nat): Cursor
    requires lo <= hi <= |s|
  {
    if lo < hi then Cursor(Some(s[lo]), Some(s[hi - 1])) else Cursor(None, None)
  }

  /** Neither end is ever missing while the other is there. */
  predicate BothOrNone(c: Cursor) {
    c.next.Some? <==> c.back.Some?
  }

  function FrontOf(nodes: Nodes, c: Cursor): Cursor
    requires BothOrNone(c) && (c.next.Some? ==> c.next.value in nodes)
  {
    if c.next == c.back then Cursor(None, None) else c.(next := nodes[c.next.value].next)
  }

  function BackOf(nodes: Nodes, c: Cursor): Cursor
    requires BothOrNone(c) && (c.back.Some? ==> c.back.value in nodes)
  {
    if c.next == c.back then Cursor(None, None) else c.(back := nodes[c.back.value].prev)
  }

  class Iter {
    var next: Option<NodePtr>
    var nextBack: Option<NodePtr>

    function Here(): Cursor
      reads this
    {
      Cursor(next, nextBack)
    }

    /** Starts at both ends of a list. */
    constructor (arena: ListArena, c: Container)
      requires arena.Valid() && c in arena.ends
      ensures Here() == Range(arena.lists[c], 0, |arena.lists[c]|)
    {
      next, nextBack := arena.ends[c].head, arena.ends[c].tail;
      assert Spells(arena.nodes, arena.ends, c, arena.lists[c]);
    }

    method Next(arena: ListArena) returns (r: Option<NodePtr>)
      requires BothOrNone(Here()) && (next.Some? ==> next.value in arena.nodes)
      modifies this
      ensures r == old(next) && Here() == FrontOf(arena.nodes, old(Here()))
    {
      r := next;
      if next.Some? {
        if next.value == nextBack.value {
          next, nextBack := None, None;
        } else {
          next := arena.nodes[next.value].next;
        }
      }
    }

    method NextBack(arena: ListArena) returns (r: Option<NodePtr>)
      requires BothOrNone(Here()) && (nextBack.Some? ==> nextBack.value in arena.nodes)
      modifies this
      ensures r == old(nextBack) && Here() == BackOf(arena.nodes, old(Here()))
    {
      r := nextBack;
      if nextBack.Some? {
        if nextBack.value == next.value {
          nextBack, next := None, None;
        } else {
          nextBack := arena.nodes[nextBack.value].prev;
        }
      }
    }
  }

  // ----- any interleaving -----

  /** What a run of calls returns from the front and from the back, each in order; a call panics if one end is
      missing and the other is not. */
  datatype Outcome = Panic | Done(fronts: seq<NodePtr>, backs: seq<NodePtr>, last: Cursor)

  /** A run of calls: `true` for `next`, `false` for `next_back`. */
  function Run(nodes: Nodes, c: Cursor, calls: seq<bool>): Outcome
    decreases |calls|
  {
    if calls == [] then Done([], [], c)
    else if !BothOrNone(c) || (c.next.Some? && (c.next.value !in nodes || c.back.value !in nodes)) then Panic
    else
      var rest := Run(nodes, if calls[0] then FrontOf(nodes, c) else BackOf(nodes, c), calls[1..]);
      if rest.Panic? || c.next.None? then rest
      else if calls[0] then rest.(fronts := [c.next.value] + rest.fronts)
      else rest.(backs := [c.back.value] + rest.backs)
  }

  function Reversed(s: seq<NodePtr>): (r: seq<NodePtr>)
    ensures |r| == |s|
  {
    if s == [] then [] else Reversed(s[1..]) + [s[0]]
  }

  lemma StepFront(nodes: Nodes, ends: EndsMap, c: Container, s: seq<NodePtr>, lo: nat, hi: nat)
    requires Spells(nodes, ends, c, s) && lo <= hi <= |s|
    ensures BothOrNone(Range(s, lo, hi)) && (lo < hi ==> s[lo] in nodes && s[hi - 1] in nodes)
    ensures FrontOf(nodes, Range(s, lo, hi)) == if lo < hi then Range(s, lo + 1, hi) else Range(s, lo, hi)
    ensures BackOf(nodes, Range(s, lo, hi)) == if lo < hi then Range(s, lo, hi - 1) else Range(s, lo, hi)
  {
    if lo + 1 < hi { Apart(s, lo, hi - 1); }
  }

  /** The nodes in `s[lo..lo']` came from the front, those in `s[hi'..hi]` from the back. */
  predicate Splits(r: Outcome, s: seq<NodePtr>, lo: nat, lo': nat, hi': nat, hi: nat, calls: nat) {
    && lo <= lo' <= hi' <= hi <= |s| && r.Done? && r.last == Range(s, lo', hi')
    && r.fronts == s[lo..lo'] && Reversed(r.backs) == s[hi'..hi]
    && (if calls >= hi - lo then lo' == hi' else |r.fronts| + |r.backs| == calls)
  }

  /** Any run of calls on an unchanged list succeeds, and takes a prefix from the front and a reversed suffix from
      the back: with what remains they make up the list, and nothing remains once there were as many calls as nodes. */
  lemma {:induction false} RunSplits(nodes: Nodes, ends: EndsMap, c: Container, s: seq<NodePtr>, lo: nat, hi: nat, calls: seq<bool>)
    returns (lo': nat, hi': nat)
    requires Spells(nodes, ends, c, s) && lo <= hi <= |s|
    ensures Splits(Run(nodes, Range(s, lo, hi), calls), s, lo, lo', hi', hi, |calls|)
    decreases |calls|
  {
    if calls == [] {
      lo', hi' := lo, hi;
      assert s[lo..lo] == [] && s[hi..hi] == [];
    } else {
      StepFront(nodes, ends, c, s, lo, hi);
      var front := calls[0] && lo < hi;
      var back := !calls[0] && lo < hi;
      var lo1, hi1 := if front then lo + 1 else lo, if back then hi - 1 else hi;
      lo', hi' := RunSplits(nodes, ends, c, s, lo1, hi1, calls[1..]);
      TakeStep(nodes, s, lo, hi, calls, lo', hi');
    }
  }

  /** One call in front of others. */
  lemma {:induction false} TakeStep(nodes: Nodes, s: seq<NodePtr>, lo: nat, hi: nat, calls: seq<bool>, lo': nat, hi': nat)
    requires lo <= hi <= |s| && calls != [] && (lo < hi ==> s[lo] in nodes && s[hi - 1] in nodes)
    requires FrontOf(nodes, Range(s, lo, hi)) == if lo < hi then Range(s, lo + 1, hi) else Range(s, lo, hi)
    requires BackOf(nodes, Range(s, lo, hi)) == if lo < hi then Range(s, lo, hi - 1) else Range(s, lo, hi)
    requires var lo1, hi1 := if calls[0] && lo < hi then lo + 1 else lo, if !calls[0] && lo < hi then hi - 1 else hi;
             Splits(Run(nodes, Range(s, lo1, hi1), calls[1..]), s, lo1, lo', hi', hi1, |calls| - 1)
    ensures Splits(Run(nodes, Range(s, lo, hi), calls), s, lo, lo', hi', hi, |calls|)
  {
    if lo < hi && calls[0] {
      assert s[lo..lo'] == [s[lo]] + s[lo + 1..lo'];
    } else if lo < hi {
      BackStep(Run(nodes, Range(s, lo, hi - 1), calls[1..]).backs, s, hi', hi);
    }
  }

  lemma {:induction false} BackStep(backs: seq<NodePtr>, s: seq<NodePtr>, hi': nat, hi: nat)
    requires hi' < hi <= |s| && Reversed(backs) == s[hi'..hi - 1]
    ensures Reversed([s[hi - 1]] + backs) == s[hi'..hi]
  {
    assert ([s[hi - 1]] + backs)[1..] == backs;
  }
}

/** Which inputs the parser can resolve, and to what: the names of one kind form a tree of scopes, a name means
    the one definition that its own scope holds, and neither the order of uses and definitions nor the
    placeholders of the parser matter. */
module NameScopes {
  import opened Options
  import opened SeqLists
  import opened DefUse
  import opened NameBook

  /** What the parser meets inside a region: a use of a value or of a block by an op, an op's result or a block, or a
      nested region, of an op that is isolated from above or not. */
  datatype Event =
    | OperandUse(op: OpPtr, name: Name)
    | SuccessorUse(op: OpPtr, name: Name)
    | ValueDef(name: Name)
    | BlockDef(name: Name)
    | Region(isolated: bool, inside: seq<Event>)

  /** The same for the names of one kind: a nested scope is part of the scope that it is written in. */
  datatype Item = UseOf(op: OpPtr, name: Name) | DefOf(name: Name) | Scope(inside: seq<Item>)

  /** SSA names: only the regions of isolated ops are scopes. */
  function ValueItems(events: seq<Event>): seq<Item>
    decreases events
  {
    if events == [] then [] else ValueItemsOf(events[0]) + ValueItems(events[1..])
  }

  function ValueItemsOf(e: Event): seq<Item>
    decreases e
  {
    match e
    case OperandUse(o, x) => [UseOf(o, x)]
    case ValueDef(x) => [DefOf(x)]
    case Region(isolated, inside) => if isolated then [Scope(ValueItems(inside))] else ValueItems(inside)
    case _ => []
  }

  /** Block labels: every region is a scope. */
  function LabelItems(events: seq<Event>): seq<Item>
    decreases events
  {
    if events == [] then [] else LabelItemsOf(events[0]) + LabelItems(events[1..])
  }

  function LabelItemsOf(e: Event): seq<Item>
    decreases e
  {
    match e
    case SuccessorUse(o, x) => [UseOf(o, x)]
    case BlockDef(x) => [DefOf(x)]
    case Region(_, inside) => [Scope(LabelItems(inside))]
    case _ => []
  }

  // ----- which scopes are in order -----

  /** The names that a scope itself defines, and those that it uses. */
  function Defs(items: seq<Item>): seq<Name> {
    if items == [] then [] else (if items[0].DefOf? then [items[0].name] else []) + Defs(items[1..])
  }

  function Uses(items: seq<Item>): seq<Name> {
    if items == [] then [] else (if items[0].UseOf? then [items[0].name] else []) + Uses(items[1..])
  }

  /** Every scope, nested ones included, defines each of its names once, and all the names that it uses. */
  predicate WellScoped(items: seq<Item>)
    decreases items, 1
  {
    NoDuplicates(Defs(items)) && (forall x :: x in Uses(items) ==> x in Defs(items)) && NestedOk(items)
  }

  predicate NestedOk(items: seq<Item>)
    decreases items, 0
  {
    forall i :: 0 <= i < |items| && items[i].Scope? ==> WellScoped(items[i].inside)
  }

  // ----- reading item by item -----

  /** The open scopes, the number of the next one, the places seen, the places defined, in order, and the places that the
      operands of each op were written with. */
  datatype View = View(open: seq<nat>, next: nat, bound: set<Place>, given: seq<Place>, written: map<OpPtr, seq<Place>>)

  function Top(s: View): nat
    requires s.open != []
  {
    s.open[|s.open| - 1]
  }

  function Written(s: View, o: OpPtr): seq<Place> {
    if o in s.written then s.written[o] else []
  }

  function Used(s: View, o: OpPtr, x: Name): View
    requires s.open != []
  {
    var p := Place(Top(s), x);
    s.(bound := s.bound + {p}, written := s.written[o := Written(s, o) + [p]])
  }

  /** A name is defined once in a scope. */
  function Defined(s: View, x: Name): Option<View>
    requires s.open != []
  {
    var p := Place(Top(s), x);
    if p in s.given then None else Some(s.(bound := s.bound + {p}, given := s.given + [p]))
  }

  function Opened(s: View): View {
    s.(open := s.open + [s.next], next := s.next + 1)
  }

  /** Whatever was seen in a scope must be defined when it is closed. */
  function Closed(s: View): Option<View>
    requires s.open != []
  {
    if forall p :: p in s.bound && p.scope == Top(s) ==> p in s.given then Some(s.(open := s.open[..|s.open| - 1])) else None
  }

  function Read(items: seq<Item>, s: View): (r: Option<View>)
    requires s.open != []
    ensures r.Some? ==> r.value.open == s.open
    decreases items, 0
  {
    if items == [] then Some(s) else
    var r := ReadOne(items[0], s);
    if r.None? then None else Read(items[1..], r.value)
  }

  function ReadOne(item: Item, s: View): (r: Option<View>)
    requires s.open != []
    ensures r.Some? ==> r.value.open == s.open
    decreases item
  {
    match item
    case UseOf(o, x) => Some(Used(s, o, x))
    case DefOf(x) => Defined(s, x)
    case Scope(inside) => ReadScope(inside, s)
  }

  /** A scope is opened, read and closed. */
  function ReadScope(items: seq<Item>, s: View): (r: Option<View>)
    ensures r.Some? ==> r.value.open == s.open
    decreases items, 1
  {
    var r := Read(items, Opened(s));
    if r.None? then None else Closed(r.value)
  }

  /** One scope after another. */
  function ReadAll(scopes: seq<seq<Item>>, s: View): (r: Option<View>)
    ensures r.Some? ==> r.value.open == s.open
    decreases |scopes|
  {
    if scopes == [] then Some(s) else
    var r := ReadScope(scopes[0], s);
    if r.None? then None else ReadAll(scopes[1..], r.value)
  }

  lemma {:induction false} ReadConcat(xs: seq<Item>, ys: seq<Item>, s: View)
    requires s.open != []
    ensures Read(xs + ys, s) == (var r := Read(xs, s); if r.None? then None else Read(ys, r.value))
    decreases |xs|
  {
    if xs == [] {
      assert xs + ys == ys;
    } else {
      assert (xs + ys)[0] == xs[0] && (xs + ys)[1..] == xs[1..] + ys;
      var r := ReadOne(xs[0], s);
      if r.Some? { ReadConcat(xs[1..], ys, r.value); }
    }
  }

  lemma {:induction false} ReadSingle(item: Item, s: View)
    requires s.open != []
    ensures Read([item], s) == ReadOne(item, s)
  {
    var r := ReadOne(item, s);
    assert [item][1..] == [];
    if r.Some? { assert Read([], r.value) == r; }
  }

  // ----- reading succeeds exactly on scopes in order -----

  /** Scopes are numbered in the order in which they are opened. */
  ghost predicate Numbered(s: View) {
    && (forall i :: 0 <= i < |s.open| ==> s.open[i] < s.next)
    && (forall p :: p in s.bound || p in s.given ==> p.scope < s.next)
  }

  /** What reading adds to the scopes that there were: the names of the innermost one. */
  ghost predicate Adds(s: View, t: View, uses: seq<Name>, defs: seq<Name>)
    requires s.open != []
  {
    && Numbered(t) && s.next <= t.next
    && (forall p: Place :: p.scope < s.next ==> (p in t.given <==> p in s.given || (p.scope == Top(s) && p.name in defs)))
    && (forall p: Place :: p.scope < s.next ==> (p in t.bound <==> p in s.bound || (p.scope == Top(s) && (p.name in uses || p.name in defs))))
  }

  /** None of the names is defined in the innermost scope yet. */
  ghost predicate New(s: View, defs: seq<Name>)
    requires s.open != []
  {
    forall x :: x in defs ==> Place(Top(s), x) !in s.given
  }

  lemma {:induction false} ReadIff(items: seq<Item>, s: View)
    requires Numbered(s) && s.open != []
    ensures Read(items, s).Some? <==> NoDuplicates(Defs(items)) && New(s, Defs(items)) && NestedOk(items)
    ensures Read(items, s).Some? ==> Adds(s, Read(items, s).value, Uses(items), Defs(items))
    decreases items, 1
  {
    if items == [] { return; }
    var item, rest := items[0], items[1..];
    ReadOneIff(item, s);
    NestedFirst(items);
    FirstNames(items);
    var r := ReadOne(item, s);
    if r.Some? {
      ReadIff(rest, r.value);
      NewStep(s, r.value, Uses([item]), Defs([item]), Defs(rest));
      var t := Read(rest, r.value);
      if t.Some? { AddsTwice(s, r.value, t.value, Uses([item]), Defs([item]), Uses(rest), Defs(rest)); }
    }
  }

  /** The first item's own name in front of those of the others. */
  lemma {:induction false} FirstNames(items: seq<Item>)
    requires items != []
    ensures Uses(items) == Uses([items[0]]) + Uses(items[1..]) && Defs(items) == Defs([items[0]]) + Defs(items[1..])
    ensures NoDuplicates(Defs(items)) <==> (forall x :: x in Defs([items[0]]) ==> x !in Defs(items[1..])) && NoDuplicates(Defs(items[1..]))
  {
    OneName(items[0]);
    if items[0].DefOf? {
      FirstDistinct(items[0].name, Defs(items[1..]));
    } else {
      assert Defs(items) == Defs(items[1..]);
    }
  }

  lemma OneName(item: Item)
    ensures Uses([item]) == if item.UseOf? then [item.name] else []
    ensures Defs([item]) == if item.DefOf? then [item.name] else []
  {
    assert [item][1..] == [];
  }

  lemma {:induction false} FirstDistinct(x: Name, xs: seq<Name>)
    ensures NoDuplicates([x] + xs) <==> x !in xs && NoDuplicates(xs)
  {
    assert ([x] + xs)[0] == x && ([x] + xs)[1..] == xs;
  }

  lemma NewStep(s: View, t: View, uses: seq<Name>, defs: seq<Name>, more: seq<Name>)
    requires Numbered(s) && s.open != [] && Adds(s, t, uses, defs) && t.open == s.open
    ensures New(t, more) <==> New(s, more) && forall x :: x in defs ==> x !in more
  {
    assert Top(t) == Top(s) && Top(s) < s.next;
    forall x ensures Place(Top(s), x) in t.given <==> Place(Top(s), x) in s.given || x in defs {
      assert Place(Top(s), x).scope < s.next;
    }
  }

  lemma AddsTwice(s: View, t: View, u: View, uses: seq<Name>, defs: seq<Name>, uses': seq<Name>, defs': seq<Name>)
    requires Numbered(s) && s.open != [] && Adds(s, t, uses, defs) && t.open == s.open && Adds(t, u, uses', defs')
    ensures Adds(s, u, uses + uses', defs + defs')
  {
    assert Top(t) == Top(s);
  }

  lemma {:induction false} NestedFirst(items: seq<Item>)
    requires items != []
    ensures NestedOk(items) <==> (items[0].Scope? ==> WellScoped(items[0].inside)) && NestedOk(items[1..])
  {
    forall i | 0 < i < |items| ensures items[1..][i - 1] == items[i] {}
    if NestedOk(items) {
      forall i | 0 <= i < |items[1..]| && items[1..][i].Scope? ensures WellScoped(items[1..][i].inside) { assert items[1..][i] == items[i + 1]; }
    }
  }

  lemma {:induction false} ReadOneIff(item: Item, s: View)
    requires Numbered(s) && s.open != []
    ensures ReadOne(item, s).Some? <==>
            match item
            case UseOf(_, _) => true
            case DefOf(x) => Place(Top(s), x) !in s.given
            case Scope(inside) => WellScoped(inside)
    ensures ReadOne(item, s).Some? ==> Adds(s, ReadOne(item, s).value, Uses([item]), Defs([item]))
    decreases item, 3
  {
    if item.Scope? { ReadScopeIff(item.inside, s); }
  }

  /** A scope can be read exactly when it and all scopes in it are in order. */
  lemma {:induction false} ReadScopeIff(items: seq<Item>, s: View)
    requires Numbered(s)
    ensures ReadScope(items, s).Some? <==> WellScoped(items)
    ensures ReadScope(items, s).Some? ==> Numbered(ReadScope(items, s).value) && (s.open != [] ==> Adds(s, ReadScope(items, s).value, [], []))
    decreases items, 2
  {
    ReadIff(items, Opened(s));
    assert Top(Opened(s)) == s.next;
    var r := Read(items, Opened(s));
    if r.Some? { ScopeCloses(items, s, r.value); }
  }

  /** At the end of a scope everything that was seen in it is defined exactly when all the names that it uses are. */
  lemma {:induction false} ScopeCloses(items: seq<Item>, s: View, t: View)
    requires Numbered(s) && t.open == s.open + [s.next] && Adds(Opened(s), t, Uses(items), Defs(items))
    ensures Closed(t).Some? <==> forall x :: x in Uses(items) ==> x in Defs(items)
    ensures Closed(t).Some? ==> Numbered(Closed(t).value) && (s.open != [] ==> Adds(s, Closed(t).value, [], []))
  {
    var k := s.next;
    assert Top(t) == k && Top(Opened(s)) == k;
    forall x ensures Place(k, x) in t.given <==> x in Defs(items) { assert Place(k, x).scope < Opened(s).next; }
    forall x ensures Place(k, x) in t.bound <==> x in Uses(items) || x in Defs(items) { assert Place(k, x).scope < Opened(s).next; }
    if forall x :: x in Uses(items) ==> x in Defs(items) {
      forall p | p in t.bound && p.scope == k ensures p in t.given { assert p == Place(k, p.name); }
    } else {
      var x :| x in Uses(items) && x !in Defs(items);
      assert Place(k, x) in t.bound && Place(k, x) !in t.given;
    }
    assert t.open[..|t.open| - 1] == s.open;
  }

  // ----- the operands, in order -----

  /** The names that op `o` uses, in the order they are written in, in whatever scope. */
  function UsesBy(items: seq<Item>, o: OpPtr): seq<Name>
    decreases items
  {
    if items == [] then [] else UsesByOne(items[0], o) + UsesBy(items[1..], o)
  }

  function UsesByOne(item: Item, o: OpPtr): seq<Name>
    decreases item
  {
    match item
    case UseOf(p, x) => if p == o then [x] else []
    case DefOf(_) => []
    case Scope(inside) => UsesBy(inside, o)
  }

  function NamesOf(ps: seq<Place>): seq<Name> {
    seq(|ps|, i requires 0 <= i < |ps| => ps[i].name)
  }

  lemma {:induction false} ReadNames(items: seq<Item>, s: View, o: OpPtr)
    requires s.open != [] && Read(items, s).Some?
    ensures NamesOf(Written(Read(items, s).value, o)) == NamesOf(Written(s, o)) + UsesBy(items, o)
    decreases items, 1
  {
    if items != [] {
      ReadOneNames(items[0], s, o);
      ReadNames(items[1..], ReadOne(items[0], s).value, o);
    }
  }

  lemma {:induction false} ReadOneNames(item: Item, s: View, o: OpPtr)
    requires s.open != [] && ReadOne(item, s).Some?
    ensures NamesOf(Written(ReadOne(item, s).value, o)) == NamesOf(Written(s, o)) + UsesByOne(item, o)
    decreases item, 3
  {
    if item.Scope? { ReadScopeNames(item.inside, s, o); }
  }

  lemma {:induction false} ReadScopeNames(items: seq<Item>, s: View, o: OpPtr)
    requires ReadScope(items, s).Some?
    ensures NamesOf(Written(ReadScope(items, s).value, o)) == NamesOf(Written(s, o)) + UsesBy(items, o)
    decreases items, 2
  {
    ReadNames(items, Opened(s), o);
  }

  /** The operands of an op name what the op uses, in order, over all scopes. */
  lemma {:induction false} ReadAllNames(scopes: seq<seq<Item>>, s: View, o: OpPtr)
    requires ReadAll(scopes, s).Some?
    ensures NamesOf(Written(ReadAll(scopes, s).value, o)) == NamesOf(Written(s, o)) + UsesByAll(scopes, o)
    decreases |scopes|
  {
    if scopes != [] {
      ReadScopeNames(scopes[0], s, o);
      ReadAllNames(scopes[1..], ReadScope(scopes[0], s).value, o);
    }
  }

  function UsesByAll(scopes: seq<seq<Item>>, o: OpPtr): seq<Name> {
    if scopes == [] then [] else UsesBy(scopes[0], o) + UsesByAll(scopes[1..], o)
  }

  // ----- the definitions, in order -----

  /** The names that are defined, in the order they are written in, in whatever scope. */
  function AllDefs(items: seq<Item>): seq<Name>
    decreases items
  {
    if items == [] then [] else AllDefsOf(items[0]) + AllDefs(items[1..])
  }

  function AllDefsOf(item: Item): seq<Name>
    decreases item
  {
    match item
    case UseOf(_, _) => []
    case DefOf(x) => [x]
    case Scope(inside) => AllDefs(inside)
  }

  function DefsByAll(scopes: seq<seq<Item>>): seq<Name> {
    if scopes == [] then [] else AllDefs(scopes[0]) + DefsByAll(scopes[1..])
  }

  lemma {:induction false} ReadDefs(items: seq<Item>, s: View)
    requires s.open != [] && Read(items, s).Some?
    ensures NamesOf(Read(items, s).value.given) == NamesOf(s.given) + AllDefs(items)
    decreases items, 1
  {
    if items != [] {
      ReadOneDefs(items[0], s);
      ReadDefs(items[1..], ReadOne(items[0], s).value);
    }
  }

  lemma {:induction false} ReadOneDefs(item: Item, s: View)
    requires s.open != [] && ReadOne(item, s).Some?
    ensures NamesOf(ReadOne(item, s).value.given) == NamesOf(s.given) + AllDefsOf(item)
    decreases item, 3
  {
    if item.Scope? { ReadScopeDefs(item.inside, s); }
  }

  lemma {:induction false} ReadScopeDefs(items: seq<Item>, s: View)
    requires ReadScope(items, s).Some?
    ensures NamesOf(ReadScope(items, s).value.given) == NamesOf(s.given) + AllDefs(items)
    decreases items, 2
  {
    ReadDefs(items, Opened(s));
  }

  /** The places defined are those of all definitions, in the order of the text. */
  lemma {:induction false} ReadAllDefs(scopes: seq<seq<Item>>, s: View)
    requires ReadAll(scopes, s).Some?
    ensures NamesOf(ReadAll(scopes, s).value.given) == NamesOf(s.given) + DefsByAll(scopes)
    decreases |scopes|
  {
    if scopes != [] {
      ReadScopeDefs(scopes[0], s);
      ReadAllDefs(scopes[1..], ReadScope(scopes[0], s).value);
    }
  }

  // ----- whole inputs -----

  const Start := View([], 0, {}, [], map[])

  /** The regions of a top-level op, as scopes. */
  function ValueScopes(regions: seq<seq<Event>>): (r: seq<seq<Item>>)
    ensures |r| == |regions|
  {
    seq(|regions|, i requires 0 <= i < |regions| => ValueItems(regions[i]))
  }

  function LabelScopes(regions: seq<seq<Event>>): (r: seq<seq<Item>>)
    ensures |r| == |regions|
  {
    seq(|regions|, i requires 0 <= i < |regions| => LabelItems(regions[i]))
  }

  predicate AllWellScoped(scopes: seq<seq<Item>>) {
    forall i :: 0 <= i < |scopes| ==> WellScoped(scopes[i])
  }

  /** An input can be read exactly when its scopes are in order. */
  lemma {:induction false} ReadAllIff(scopes: seq<seq<Item>>, s: View)
    requires Numbered(s)
    ensures ReadAll(scopes, s).Some? <==> AllWellScoped(scopes)
    decreases |scopes|
  {
    if scopes != [] {
      ReadScopeIff(scopes[0], s);
      var r := ReadScope(scopes[0], s);
      if r.Some? { ReadAllIff(scopes[1..], r.value); }
      assert forall i :: 0 < i < |scopes| ==> scopes[1..][i - 1] == scopes[i];
      assert AllWellScoped(scopes) <==> WellScoped(scopes[0]) && AllWellScoped(scopes[1..]);
    }
  }
}

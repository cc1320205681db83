/** Forward references: what the parser knows about the names of one kind (SSA values, or block labels), and what it
    must keep true of the def-use chain while it reads uses before their definitions. */
module NameBook {
  import opened SeqLists
  import opened DefUse
  import opened UseChain

  type Name = string

  /** A scope by the order in which scopes were opened, and a name in it. */
  datatype Place = Place(scope: nat, name: Name)

  /** The open scopes and the placeholders, as the parser holds them, together with the history of the parse:
      what every scope binds, what each use was made for, which definition was given for a name, and in which order. */
  datatype Book<!D> = Book(
    scopes: seq<map<Name, D>>,
    forwards: set<D>,
    ids: seq<nat>,
    bindings: map<nat, map<Name, D>>,
    origin: map<D, Place>,
    madeFor: map<Use, Place>,
    given: map<Place, D>,
    order: seq<Place>)

  predicate Bound<D>(b: Book<D>, p: Place) {
    p.scope in b.bindings && p.name in b.bindings[p.scope]
  }

  function BoundTo<D>(b: Book<D>, p: Place): D
    requires Bound(b, p)
  {
    b.bindings[p.scope][p.name]
  }

  predicate Open<D>(b: Book<D>, scope: nat) {
    scope in b.ids
  }

  /** The open scopes are where the history says they are. */
  ghost predicate ScopesOk<D(!new)>(b: Book<D>) {
    && |b.ids| == |b.scopes|
    && (forall i :: 0 <= i < |b.ids| ==> b.ids[i] in b.bindings && b.bindings[b.ids[i]] == b.scopes[i])
    && (forall i, j :: 0 <= i < j < |b.ids| ==> b.ids[i] != b.ids[j])
    && (forall s :: s in b.bindings ==> s < |b.bindings|)
  }

  /** A name is bound to the definition given for it, or else to a placeholder of its own. */
  ghost predicate NamesOk<D(!new)>(b: Book<D>, defs: set<D>) {
    && (forall p :: Bound(b, p) ==> BoundTo(b, p) in defs && NameOk(b, p))
    && (forall p :: p in b.given ==> Bound(b, p) && BoundTo(b, p) == b.given[p])
  }

  predicate NameOk<D(==)>(b: Book<D>, p: Place)
    requires Bound(b, p)
  {
    var d := BoundTo(b, p);
    if d in b.forwards then d in b.origin && b.origin[d] == p && p !in b.given else p in b.given && b.given[p] == d
  }

  /** Every placeholder stands for a name of an open scope. */
  ghost predicate ForwardsOk<D(!new)>(b: Book<D>, defs: set<D>) {
    forall d :: d in b.forwards ==> d in defs && d in b.origin && ForwardOk(b, d)
  }

  predicate ForwardOk<D(==)>(b: Book<D>, d: D)
    requires d in b.origin
  {
    var p := b.origin[d];
    Open(b, p.scope) && Bound(b, p) && BoundTo(b, p) == d
  }

  /** Every use names what its name is bound to, and placeholders have no other uses. */
  ghost predicate UsesOk<D(!new)>(b: Book<D>, operands: Operands<D>, uses: UseSets<D>) {
    && (forall u :: u in b.madeFor ==> Bound(b, b.madeFor[u]) && Holds(operands, u, BoundTo(b, b.madeFor[u])))
    && (forall d, u :: d in b.forwards && d in uses && u in uses[d] ==> u in b.madeFor && d in b.origin && b.madeFor[u] == b.origin[d])
  }

  /** Every operand there is was made for a name. */
  ghost predicate AllMade<D(!new)>(b: Book<D>, operands: Operands<D>) {
    forall o, i :: o in operands && 0 <= i < |operands[o]| ==> Use(o, operands[o][i].uid) in b.madeFor
  }

  ghost predicate BookOk<D(!new)>(b: Book<D>, operands: Operands<D>, uses: UseSets<D>) {
    ScopesOk(b) && NamesOk(b, uses.Keys) && ForwardsOk(b, uses.Keys) && UsesOk(b, operands, uses)
  }

  /** The definitions made so far, each for one name, in the order in which they were registered; the last one may not
      be registered yet. There are no definitions but these and the placeholders. */
  ghost predicate MadeOk<D(!new)>(b: Book<D>, made: seq<D>, defs: set<D>) {
    && Listed(b) && NoneTwice(made) && |b.order| <= |made|
    && (forall k {:trigger b.order[k]} :: 0 <= k < |b.order| ==> b.given[b.order[k]] == made[k])
    && (forall d {:trigger d in defs} :: d in defs <==> d in made || d in b.forwards)
    && (forall d :: d in made ==> d !in b.forwards)
  }

  ghost predicate Listed<D(!new)>(b: Book<D>) {
    forall p :: p in b.given <==> p in b.order
  }

  // ----- what it means -----

  /** An operand of an op names the definition given for the name that it was written with, in the scope that it was
      written in, once that scope is closed. */
  lemma OperandResolved<D(!new)>(b: Book<D>, operands: Operands<D>, uses: UseSets<D>, owners: Owners, o: OpPtr, i: nat)
    requires BookOk(b, operands, uses) && AllMade(b, operands) && TwoWay(operands, uses, owners) && o in operands && i < |operands[o]|
    ensures Use(o, operands[o][i].uid) in b.madeFor
    ensures var p := b.madeFor[Use(o, operands[o][i].uid)]; !Open(b, p.scope) ==> p in b.given && operands[o][i].def == b.given[p]
  {
    var u := Use(o, operands[o][i].uid);
    var p := b.madeFor[u];
    if !Open(b, p.scope) {
      ClosedMeansResolved(b, operands, uses, u);
      FindAt(operands[o], i);
      FindIn(operands[o], Operand(b.given[p], u.uid));
    }
  }

  /** Once a scope is closed, every use made in it names the definition that was given for its name there. */
  lemma ClosedMeansResolved<D(!new)>(b: Book<D>, operands: Operands<D>, uses: UseSets<D>, u: Use)
    requires BookOk(b, operands, uses) && u in b.madeFor && !Open(b, b.madeFor[u].scope)
    ensures b.madeFor[u] in b.given && Holds(operands, u, b.given[b.madeFor[u]])
  {
    var p := b.madeFor[u];
    assert NameOk(b, p);
    assert BoundTo(b, p) !in b.forwards;
  }

  /** With no scope open, no placeholder is left. */
  lemma NothingLeft<D(!new)>(b: Book<D>, operands: Operands<D>, uses: UseSets<D>)
    requires BookOk(b, operands, uses) && b.scopes == []
    ensures b.forwards == {}
  {
    assert b.ids == [];
    assert forall d :: d !in b.forwards;
  }

  // ----- the definitions made -----

  lemma MadeSame<D(!new)>(b: Book<D>, c: Book<D>, made: seq<D>, defs: set<D>)
    requires MadeOk(b, made, defs) && c.forwards == b.forwards && c.given == b.given && c.order == b.order
    ensures MadeOk(c, made, defs)
  {
  }

  lemma MadeUsed<D(!new)>(b: Book<D>, made: seq<D>, uses: UseSets<D>, x: Name, d: D, u: Use)
    requires MadeOk(b, made, uses.Keys) && b.ids != [] && d in uses
    ensures MadeOk(WithUse(b, u, x), made, uses[d := uses[d] + {u}].Keys)
  {
    assert uses[d := uses[d] + {u}].Keys == uses.Keys;
  }

  lemma MadeForward<D(!new)>(b: Book<D>, made: seq<D>, defs: set<D>, x: Name, d: D)
    requires MadeOk(b, made, defs) && b.scopes != [] && b.ids != [] && d !in defs
    ensures MadeOk(WithForward(b, x, d), made, defs + {d})
  {
  }

  lemma MadeOne<D(!new)>(b: Book<D>, made: seq<D>, defs: set<D>, d: D)
    requires MadeOk(b, made, defs) && d !in defs
    ensures MadeOk(b, made + [d], defs + {d})
  {
    assert d !in made;
  }

  /** The definition that was made last is registered for a name that has none yet. */
  lemma MadeGiven<D(!new)>(b: Book<D>, made: seq<D>, defs: set<D>, x: Name, d: D)
    requires MadeOk(b, made, defs) && b.scopes != [] && b.ids != [] && Here(b, x) !in b.given
    requires |made| == |b.order| + 1 && d == made[|b.order|]
    ensures var top := b.scopes[|b.scopes| - 1];
            MadeOk(WithGiven(b, x, d), made, if x in top && top[x] in b.forwards then defs - {top[x]} else defs)
  {
  }

  // ----- scopes -----

  function Entered<D>(b: Book<D>): Book<D> {
    b.(scopes := b.scopes + [map[]], ids := b.ids + [|b.bindings|], bindings := b.bindings[|b.bindings| := map[]])
  }

  lemma EnterOk<D(!new)>(b: Book<D>, operands: Operands<D>, uses: UseSets<D>)
    requires BookOk(b, operands, uses)
    ensures BookOk(Entered(b), operands, uses)
  {
    var c := Entered(b);
    EnterScopes(b);
    SameNames(b, c, operands, uses);
    forall d | d in c.forwards ensures d in c.origin && ForwardOk(c, d) { OpenStays(b, c, d); }
  }

  lemma EnterScopes<D(!new)>(b: Book<D>)
    requires ScopesOk(b)
    ensures ScopesOk(Entered(b)) && SameBindings(b, Entered(b))
  {
    assert |b.bindings| !in b.bindings;
  }

  /** Names are bound to what they were bound to. */
  ghost predicate SameBindings<D(!new)>(b: Book<D>, c: Book<D>) {
    && (forall p :: Bound(c, p) <==> Bound(b, p))
    && (forall p :: Bound(b, p) ==> BoundTo(c, p) == BoundTo(b, p))
  }

  lemma SameNames<D(!new)>(b: Book<D>, c: Book<D>, operands: Operands<D>, uses: UseSets<D>)
    requires SameBindings(b, c) && NamesOk(b, uses.Keys) && UsesOk(b, operands, uses)
    requires c == b.(scopes := c.scopes, ids := c.ids, bindings := c.bindings)
    ensures NamesOk(c, uses.Keys) && UsesOk(c, operands, uses)
  {
    forall p | Bound(c, p) ensures NameOk(c, p) { assert NameOk(b, p); }
  }

  /** The scope of a placeholder's name stays open. */
  lemma OpenStays<D(!new)>(b: Book<D>, c: Book<D>, d: D)
    requires SameBindings(b, c) && c.origin == b.origin && d in b.origin && ForwardOk(b, d)
    requires b.ids <= c.ids
    ensures ForwardOk(c, d)
  {
    var i :| 0 <= i < |b.ids| && b.ids[i] == b.origin[d].scope;
    assert c.ids[i] == b.ids[i];
  }

  function Left<D>(b: Book<D>): Book<D>
    requires b.scopes != [] && b.ids != []
  {
    b.(scopes := b.scopes[..|b.scopes| - 1], ids := b.ids[..|b.ids| - 1])
  }

  /** No name of the scope is bound to a placeholder. */
  predicate Settled<D(==)>(scope: map<Name, D>, forwards: set<D>) {
    forall x :: x in scope ==> scope[x] !in forwards
  }

  lemma LeaveOk<D(!new)>(b: Book<D>, operands: Operands<D>, uses: UseSets<D>)
    requires BookOk(b, operands, uses) && b.scopes != []
    requires Settled(b.scopes[|b.scopes| - 1], b.forwards)
    ensures b.ids != [] && BookOk(Left(b), operands, uses)
  {
    var c, last := Left(b), |b.ids| - 1;
    SameNames(b, c, operands, uses);
    forall d | d in c.forwards ensures d in c.origin && ForwardOk(c, d) {
      assert ForwardOk(b, d);
      var p := b.origin[d];
      var i :| 0 <= i < |b.ids| && b.ids[i] == p.scope;
      assert i < last;
      assert c.ids[i] == p.scope;
    }
  }

  /** The innermost scope binds `x` to `d`. */
  function WithBinding<D>(b: Book<D>, x: Name, d: D): Book<D>
    requires b.scopes != [] && b.ids != []
  {
    var last := |b.scopes| - 1;
    b.(scopes := b.scopes[last := b.scopes[last][x := d]], bindings := b.bindings[b.ids[|b.ids| - 1] := b.scopes[last][x := d]])
  }

  function Here<D>(b: Book<D>, x: Name): Place
    requires b.ids != []
  {
    Place(b.ids[|b.ids| - 1], x)
  }

  lemma BindingScopes<D(!new)>(b: Book<D>, x: Name, d: D)
    requires ScopesOk(b) && b.scopes != []
    ensures ScopesOk(WithBinding(b, x, d))
    ensures forall p :: Bound(WithBinding(b, x, d), p) <==> Bound(b, p) || p == Here(b, x)
    ensures forall p :: Bound(WithBinding(b, x, d), p) ==> BoundTo(WithBinding(b, x, d), p) == if p == Here(b, x) then d else BoundTo(b, p)
    ensures Bound(b, Here(b, x)) <==> x in b.scopes[|b.scopes| - 1]
    ensures Bound(b, Here(b, x)) ==> BoundTo(b, Here(b, x)) == b.scopes[|b.scopes| - 1][x]
  {
    var c := WithBinding(b, x, d);
    assert c.bindings.Keys == b.bindings.Keys;
  }

  // ----- a name used for the first time -----

  /** A placeholder for a name that is not bound yet. */
  function WithForward<D>(b: Book<D>, x: Name, d: D): Book<D>
    requires b.scopes != [] && b.ids != []
  {
    WithBinding(b, x, d).(forwards := b.forwards + {d}, origin := b.origin[d := Here(b, x)])
  }

  lemma ForwardKeeps<D(!new)>(b: Book<D>, operands: Operands<D>, uses: UseSets<D>, x: Name, d: D)
    requires BookOk(b, operands, uses) && b.scopes != [] && x !in b.scopes[|b.scopes| - 1] && d !in uses
    ensures BookOk(WithForward(b, x, d), operands, uses[d := {}])
  {
    BindingScopes(b, x, d);
    assert d !in b.forwards;
    ForwardNames(b, uses.Keys, x, d);
    ForwardForwards(b, uses.Keys, x, d);
    assert uses[d := {}].Keys == uses.Keys + {d};
  }

  lemma ForwardNames<D(!new)>(b: Book<D>, defs: set<D>, x: Name, d: D)
    requires ScopesOk(b) && NamesOk(b, defs) && b.scopes != [] && x !in b.scopes[|b.scopes| - 1] && d !in defs && d !in b.forwards
    ensures NamesOk(WithForward(b, x, d), defs + {d})
  {
    var c, here := WithForward(b, x, d), Here(b, x);
    BindingScopes(b, x, d);
    forall p | Bound(c, p) ensures BoundTo(c, p) in defs + {d} && NameOk(c, p) {
      if p != here { assert NameOk(b, p); }
    }
  }

  lemma ForwardForwards<D(!new)>(b: Book<D>, defs: set<D>, x: Name, d: D)
    requires ScopesOk(b) && ForwardsOk(b, defs) && b.scopes != [] && x !in b.scopes[|b.scopes| - 1] && d !in defs
    ensures ForwardsOk(WithForward(b, x, d), defs + {d})
  {
    var c, here := WithForward(b, x, d), Here(b, x);
    BindingScopes(b, x, d);
    forall e | e in c.forwards ensures e in defs + {d} && e in c.origin && ForwardOk(c, e) {
      if e != d { assert ForwardOk(b, e); } else { assert c.ids[|c.ids| - 1] == here.scope; }
    }
  }

  /** A definition that nothing refers to yet. */
  lemma NewDefBook<D(!new)>(b: Book<D>, operands: Operands<D>, uses: UseSets<D>, d: D)
    requires BookOk(b, operands, uses) && d !in uses
    ensures BookOk(b, operands, uses[d := {}]) && d !in b.forwards
  {
  }

  // ----- a use -----

  function WithUse<D>(b: Book<D>, u: Use, x: Name): Book<D>
    requires b.ids != []
  {
    b.(madeFor := b.madeFor[u := Here(b, x)])
  }

  /** A new operand at the end of op `o`, for name `x` of the innermost scope. */
  lemma UseKeeps<D(!new)>(b: Book<D>, operands: Operands<D>, uses: UseSets<D>, o: OpPtr, x: Name, d: D, uid: nat)
    requires BookOk(b, operands, uses) && b.scopes != [] && x in b.scopes[|b.scopes| - 1] && d == b.scopes[|b.scopes| - 1][x]
    requires o in operands && d in uses && Use(o, uid) !in b.madeFor
    ensures BookOk(WithUse(b, Use(o, uid), x), operands[o := operands[o] + [Operand(d, uid)]], uses[d := uses[d] + {Use(o, uid)}])
  {
    var c, uses' := WithUse(b, Use(o, uid), x), uses[d := uses[d] + {Use(o, uid)}];
    assert uses'.Keys == uses.Keys;
    forall p | Bound(c, p) ensures NameOk(c, p) { assert NameOk(b, p); }
    forall e | e in c.forwards ensures e in c.origin && ForwardOk(c, e) { assert ForwardOk(b, e); }
    UseUses(b, operands, uses, o, x, d, uid);
  }

  lemma UseUses<D(!new)>(b: Book<D>, operands: Operands<D>, uses: UseSets<D>, o: OpPtr, x: Name, d: D, uid: nat)
    requires BookOk(b, operands, uses) && b.scopes != [] && x in b.scopes[|b.scopes| - 1] && d == b.scopes[|b.scopes| - 1][x]
    requires o in operands && d in uses && Use(o, uid) !in b.madeFor
    ensures UsesOk(WithUse(b, Use(o, uid), x), operands[o := operands[o] + [Operand(d, uid)]], uses[d := uses[d] + {Use(o, uid)}])
  {
    var c, operands' := WithUse(b, Use(o, uid), x), operands[o := operands[o] + [Operand(d, uid)]];
    var here := Here(b, x);
    assert Bound(b, here) && BoundTo(b, here) == d;
    forall u | u in c.madeFor ensures Bound(c, c.madeFor[u]) && Holds(operands', u, BoundTo(c, c.madeFor[u])) {
      if u == Use(o, uid) { assert operands'[o][|operands[o]|] == Operand(d, uid); } else { UseStays(operands, u, BoundTo(b, b.madeFor[u]), o, Operand(d, uid)); }
    }
    assert d in b.forwards ==> NameOk(b, here);
  }

  lemma UseStays<D(!new)>(operands: Operands<D>, u: Use, d: D, o: OpPtr, x: Operand<D>)
    requires o in operands && Holds(operands, u, d)
    ensures Holds(operands[o := operands[o] + [x]], u, d)
  {
  }

  // ----- a definition -----

  /** A definition for a name that is not bound yet, or bound to a placeholder, which goes away. */
  function WithGiven<D>(b: Book<D>, x: Name, d: D): Book<D>
    requires b.scopes != [] && b.ids != []
  {
    var top := b.scopes[|b.scopes| - 1];
    WithBinding(b, x, d).(forwards := if x in top then b.forwards - {top[x]} else b.forwards, given := b.given[Here(b, x) := d],
                          order := b.order + [Here(b, x)])
  }

  lemma GivenKeeps<D(!new)>(b: Book<D>, operands: Operands<D>, uses: UseSets<D>, x: Name, d: D)
    requires BookOk(b, operands, uses) && b.scopes != [] && x !in b.scopes[|b.scopes| - 1] && d in uses && d !in b.forwards
    ensures BookOk(WithGiven(b, x, d), operands, uses)
  {
    var c, here := WithGiven(b, x, d), Here(b, x);
    BindingScopes(b, x, d);
    forall p | Bound(c, p) ensures BoundTo(c, p) in uses && NameOk(c, p) {
      if p != here { assert NameOk(b, p); }
    }
    forall e | e in c.forwards ensures e in c.origin && ForwardOk(c, e) { assert ForwardOk(b, e); }
  }

  /** The placeholder of name `x` gives way to the definition: all of its uses move there. */
  lemma ResolveKeeps<D(!new)>(b: Book<D>, operands: Operands<D>, uses: UseSets<D>, owners: Owners, x: Name, d: D)
    requires BookOk(b, operands, uses) && TwoWay(operands, uses, owners) && b.scopes != [] && x in b.scopes[|b.scopes| - 1]
    requires d in uses && d !in b.forwards && b.scopes[|b.scopes| - 1][x] in b.forwards
    ensures var f := b.scopes[|b.scopes| - 1][x];
            && f in uses && f != d
            && BookOk(WithGiven(b, x, d), MovedOperands(operands, f, uses[f], d), MovedUses(uses, f, uses[f], d) - {f})
  {
    var f := b.scopes[|b.scopes| - 1][x];
    BindingScopes(b, x, d);
    assert NameOk(b, Here(b, x));
    assert ForwardOk(b, f);
    ResolveNames(b, uses.Keys, x, d);
    ResolveForwards(b, uses.Keys, x, d);
    ResolveUses(b, operands, uses, owners, x, d);
    assert (MovedUses(uses, f, uses[f], d) - {f}).Keys == uses.Keys - {f};
  }

  lemma ResolveNames<D(!new)>(b: Book<D>, defs: set<D>, x: Name, d: D)
    requires ScopesOk(b) && NamesOk(b, defs) && b.scopes != [] && x in b.scopes[|b.scopes| - 1]
    requires d in defs && d !in b.forwards && b.scopes[|b.scopes| - 1][x] in b.forwards
    ensures NamesOk(WithGiven(b, x, d), defs - {b.scopes[|b.scopes| - 1][x]})
  {
    var c, here, f := WithGiven(b, x, d), Here(b, x), b.scopes[|b.scopes| - 1][x];
    BindingScopes(b, x, d);
    assert NameOk(b, here);
    forall p | Bound(c, p) ensures BoundTo(c, p) in defs - {f} && NameOk(c, p) {
      if p != here { assert NameOk(b, p); }
    }
  }

  lemma ResolveForwards<D(!new)>(b: Book<D>, defs: set<D>, x: Name, d: D)
    requires ScopesOk(b) && NamesOk(b, defs) && ForwardsOk(b, defs) && b.scopes != [] && x in b.scopes[|b.scopes| - 1]
    requires d in defs && d !in b.forwards && b.scopes[|b.scopes| - 1][x] in b.forwards
    ensures ForwardsOk(WithGiven(b, x, d), defs - {b.scopes[|b.scopes| - 1][x]})
  {
    var c, here, f := WithGiven(b, x, d), Here(b, x), b.scopes[|b.scopes| - 1][x];
    BindingScopes(b, x, d);
    forall e | e in c.forwards ensures e in c.origin && ForwardOk(c, e) {
      assert ForwardOk(b, e);
      assert b.origin[e] != here;
    }
  }

  lemma ResolveUses<D(!new)>(b: Book<D>, operands: Operands<D>, uses: UseSets<D>, owners: Owners, x: Name, d: D)
    requires BookOk(b, operands, uses) && TwoWay(operands, uses, owners) && b.scopes != [] && x in b.scopes[|b.scopes| - 1]
    requires d in uses && d !in b.forwards && b.scopes[|b.scopes| - 1][x] in b.forwards && b.scopes[|b.scopes| - 1][x] in uses
    ensures var f := b.scopes[|b.scopes| - 1][x];
            UsesOk(WithGiven(b, x, d), MovedOperands(operands, f, uses[f], d), MovedUses(uses, f, uses[f], d) - {f})
  {
    var c, f := WithGiven(b, x, d), b.scopes[|b.scopes| - 1][x];
    var operands' := MovedOperands(operands, f, uses[f], d);
    forall u | u in c.madeFor ensures Bound(c, c.madeFor[u]) && Holds(operands', u, BoundTo(c, c.madeFor[u])) {
      ResolveUse(b, operands, uses, owners, x, d, u);
    }
  }

  lemma ResolveUse<D(!new)>(b: Book<D>, operands: Operands<D>, uses: UseSets<D>, owners: Owners, x: Name, d: D, u: Use)
    requires BookOk(b, operands, uses) && TwoWay(operands, uses, owners) && b.scopes != [] && x in b.scopes[|b.scopes| - 1] && u in b.madeFor
    requires d in uses && d !in b.forwards && b.scopes[|b.scopes| - 1][x] in b.forwards && b.scopes[|b.scopes| - 1][x] in uses
    ensures var c, f := WithGiven(b, x, d), b.scopes[|b.scopes| - 1][x];
            Bound(c, c.madeFor[u]) && Holds(MovedOperands(operands, f, uses[f], d), u, BoundTo(c, c.madeFor[u]))
  {
    var f, here, p := b.scopes[|b.scopes| - 1][x], Here(b, x), b.madeFor[u];
    BindingScopes(b, x, d);
    assert NameOk(b, here) && NameOk(b, p);
    assert BoundTo(b, p) == f <==> p == here;
    MovedHolds(operands, uses, owners, f, d, u, BoundTo(b, p));
  }

  /** After all uses of `f` moved to `d`, what named `f` names `d`, and other uses name what they named. */
  lemma MovedHolds<D(!new)>(operands: Operands<D>, uses: UseSets<D>, owners: Owners, f: D, d: D, u: Use, e: D)
    requires TwoWay(operands, uses, owners) && f in uses && d in uses && f != d && e in uses && Holds(operands, u, e)
    ensures Holds(MovedOperands(operands, f, uses[f], d), u, if e == f then d else e)
  {
    var os := operands[u.user];
    var i :| 0 <= i < |os| && os[i] == Operand(e, u.uid);
    OperandTracked(operands, uses, owners, u.user, i);
    assert MovedOperands(operands, f, uses[f], d)[u.user][i] == Operand(if e == f then d else e, u.uid);
  }

  lemma UseMade<D(!new)>(b: Book<D>, operands: Operands<D>, o: OpPtr, x: Name, d: D, uid: nat)
    requires AllMade(b, operands) && o in operands && b.ids != []
    ensures AllMade(WithUse(b, Use(o, uid), x), operands[o := operands[o] + [Operand(d, uid)]])
  {
  }

  lemma MovedMade<D(!new)>(b: Book<D>, c: Book<D>, operands: Operands<D>, f: D, moved: set<Use>, d: D)
    requires AllMade(b, operands) && c.madeFor == b.madeFor
    ensures AllMade(c, MovedOperands(operands, f, moved, d))
  {
  }
}

/** The parser's name tracker: uses may come before definitions, names are looked up in the innermost scope only, and
    leaving a scope fails while one of its names has no definition. */
module NameTracker {
  import opened SeqLists
  import opened DefUse
  import opened Options
  import opened UseChain
  import opened NameBook
  import opened NameScopes

  datatype NameError = MultipleDefinitions(name: Name) | UnresolvedReference(name: Name) | TopLevelOpRegionNotIsolatedFromAbove

  datatype Outcome = Ok | Err(error: NameError)

  /** A definition, be it a value or a block, by its id. */
  datatype Def = Def(id: nat)

  // ----- the history, as a reader of scopes sees it -----

  ghost function BoundPlaces(b: Book<Def>): set<Place> {
    set s, x | s in b.bindings && x in b.bindings[s] :: Place(s, x)
  }

  /** What the operands of an op were made for. */
  function Places(madeFor: map<Use, Place>, o: OpPtr, os: seq<Operand<Def>>): seq<Place> {
    seq(|os|, i requires 0 <= i < |os| => var u := Use(o, os[i].uid); if u in madeFor then madeFor[u] else Place(0, ""))
  }

  ghost function WrittenBy(madeFor: map<Use, Place>, operands: Operands<Def>): map<OpPtr, seq<Place>> {
    map o | o in operands && operands[o] != [] :: Places(madeFor, o, operands[o])
  }

  ghost function ViewOf(b: Book<Def>, operands: Operands<Def>): View {
    View(b.ids, |b.bindings|, BoundPlaces(b), b.order, WrittenBy(b.madeFor, operands))
  }

  lemma BoundIn(b: Book<Def>)
    ensures forall p :: p in BoundPlaces(b) <==> Bound(b, p)
  {
  }

  lemma EnteredView(b: Book<Def>, operands: Operands<Def>)
    requires ScopesOk(b)
    ensures ViewOf(Entered(b), operands) == Opened(ViewOf(b, operands))
  {
    assert |b.bindings| !in b.bindings;
    assert BoundPlaces(Entered(b)) == BoundPlaces(b);
  }

  /** A scope can be closed exactly when none of its names is bound to a placeholder any more. */
  lemma LeftView(b: Book<Def>, operands: Operands<Def>, defs: set<Def>)
    requires ScopesOk(b) && NamesOk(b, defs) && Listed(b) && b.scopes != []
    ensures b.ids != [] && (Settled(b.scopes[|b.scopes| - 1], b.forwards) <==> Closed(ViewOf(b, operands)).Some?)
    ensures Closed(ViewOf(b, operands)).Some? ==> Closed(ViewOf(b, operands)).value == ViewOf(Left(b), operands)
  {
    BoundIn(b);
    var k, top := b.ids[|b.ids| - 1], b.scopes[|b.scopes| - 1];
    assert b.bindings[k] == top;
    forall p | Bound(b, p) ensures BoundTo(b, p) in b.forwards <==> p !in b.given { assert NameOk(b, p); }
    if Closed(ViewOf(b, operands)).Some? {
      forall x | x in top ensures top[x] !in b.forwards { assert Bound(b, Place(k, x)) && BoundTo(b, Place(k, x)) == top[x]; }
    }
    assert BoundPlaces(Left(b)) == BoundPlaces(b);
  }

  lemma LeftBook(b: Book<Def>, operands: Operands<Def>, uses: UseSets<Def>, made: seq<Def>)
    requires BookOk(b, operands, uses) && AllMade(b, operands) && MadeOk(b, made, uses.Keys) && b.scopes != []
    requires Settled(b.scopes[|b.scopes| - 1], b.forwards)
    ensures b.ids != [] && BookOk(Left(b), operands, uses) && AllMade(Left(b), operands) && MadeOk(Left(b), made, uses.Keys)
  {
    LeaveOk(b, operands, uses);
    MadeSame(b, Left(b), made, uses.Keys);
  }

  lemma BindingView(b: Book<Def>, x: Name, d: Def)
    requires ScopesOk(b) && b.scopes != []
    ensures b.ids != [] && BoundPlaces(WithBinding(b, x, d)) == BoundPlaces(b) + {Here(b, x)}
    ensures |WithBinding(b, x, d).bindings| == |b.bindings|
    ensures x in b.scopes[|b.scopes| - 1] <==> Here(b, x) in BoundPlaces(b)
  {
    BoundIn(b);
    BoundIn(WithBinding(b, x, d));
    BindingScopes(b, x, d);
    assert WithBinding(b, x, d).bindings.Keys == b.bindings.Keys;
  }

  lemma UseWritten(b: Book<Def>, operands: Operands<Def>, o: OpPtr, p: Place, x: Operand<Def>)
    requires AllMade(b, operands) && o in operands && Use(o, x.uid) !in b.madeFor
    ensures WrittenBy(b.madeFor[Use(o, x.uid) := p], operands[o := operands[o] + [x]])
            == WrittenBy(b.madeFor, operands)[o := Places(b.madeFor, o, operands[o]) + [p]]
  {
    var m, m' := b.madeFor, b.madeFor[Use(o, x.uid) := p];
    var w, w' := WrittenBy(m, operands), WrittenBy(m', operands[o := operands[o] + [x]]);
    assert w'.Keys == w.Keys + {o};
    forall q | q in w' && q != o ensures w'[q] == w[q] {}
    assert w'[o] == Places(m, o, operands[o]) + [p];
  }

  /** A use, in two steps: the name is met, and an operand written for it. */
  ghost function Met(s: View, p: Place): View { s.(bound := s.bound + {p}) }

  ghost function Wrote(s: View, o: OpPtr, p: Place): View { s.(written := s.written[o := Written(s, o) + [p]]) }

  lemma UsedSteps(s: View, t: View, u: View, o: OpPtr, x: Name)
    requires s.open != [] && t == Met(s, Place(Top(s), x)) && u == Wrote(t, o, Place(Top(t), x))
    ensures u == Used(s, o, x)
  {
  }

  lemma UseView(b: Book<Def>, operands: Operands<Def>, o: OpPtr, x: Name, d: Def, uid: nat)
    requires AllMade(b, operands) && o in operands && Use(o, uid) !in b.madeFor && b.ids != []
    ensures var v := ViewOf(b, operands);
            ViewOf(WithUse(b, Use(o, uid), x), operands[o := operands[o] + [Operand(d, uid)]])
            == Wrote(v, o, Here(b, x))
  {
    UseWritten(b, operands, o, Here(b, x), Operand(d, uid));
    assert operands[o] == [] ==> Places(b.madeFor, o, operands[o]) == [];
    assert BoundPlaces(WithUse(b, Use(o, uid), x)) == BoundPlaces(b);
  }

  lemma NoneView()
    ensures ViewOf(Book([], {}, [], map[], map[], map[], map[], []), map[]) == Start
  {
    assert BoundPlaces(Book([], {}, [], map[], map[], map[], map[], [])) == {};
    assert WrittenBy(map[], map[]) == map[];
  }

  lemma NoneWritten(madeFor: map<Use, Place>, operands: Operands<Def>, o: OpPtr)
    requires o !in operands
    ensures WrittenBy(madeFor, operands[o := []]) == WrittenBy(madeFor, operands)
  {
  }

  lemma MovedWritten(madeFor: map<Use, Place>, operands: Operands<Def>, f: Def, moved: set<Use>, d: Def)
    ensures WrittenBy(madeFor, MovedOperands(operands, f, moved, d)) == WrittenBy(madeFor, operands)
  {
    var operands' := MovedOperands(operands, f, moved, d);
    assert operands'.Keys == operands.Keys && forall o :: o in operands ==> |operands'[o]| == |operands[o]|;
    forall o | o in operands ensures Places(madeFor, o, operands'[o]) == Places(madeFor, o, operands[o]) {
      assert |operands'[o]| == |operands[o]| && forall i :: 0 <= i < |operands[o]| ==> operands'[o][i].uid == operands[o][i].uid;
    }
  }

  lemma GivenSeen(b: Book<Def>, operands: Operands<Def>, x: Name, d: Def)
    requires ScopesOk(b) && b.scopes != []
    ensures b.ids != [] && var p := Here(b, x);
            ViewOf(WithGiven(b, x, d), operands) == ViewOf(b, operands).(bound := BoundPlaces(b) + {p}, given := b.order + [p])
  {
    BindingView(b, x, d);
    BoundIn(WithGiven(b, x, d));
    BoundIn(WithBinding(b, x, d));
    assert BoundPlaces(WithGiven(b, x, d)) == BoundPlaces(WithBinding(b, x, d));
  }

  /** A definition is refused exactly when its place has one already. */
  lemma GivenView(b: Book<Def>, operands: Operands<Def>, defs: set<Def>, x: Name, d: Def)
    requires ScopesOk(b) && NamesOk(b, defs) && Listed(b) && b.scopes != []
    ensures b.ids != [] && (Defined(ViewOf(b, operands), x).Some? <==> Here(b, x) !in b.given)
    ensures var top := b.scopes[|b.scopes| - 1]; Defined(ViewOf(b, operands), x).None? <==> x in top && top[x] !in b.forwards
    ensures Defined(ViewOf(b, operands), x).Some? ==> Defined(ViewOf(b, operands), x).value == ViewOf(WithGiven(b, x, d), operands)
  {
    BoundIn(b);
    BindingScopes(b, x, d);
    var p := Here(b, x);
    if Bound(b, p) { assert NameOk(b, p); }
    GivenSeen(b, operands, x, d);
  }

  /** What was made last is registered for a new name, or in place of a placeholder. */
  lemma MadeNew(b: Book<Def>, made: seq<Def>, defs: set<Def>, x: Name, d: Def)
    requires ScopesOk(b) && NamesOk(b, defs) && MadeOk(b, made, defs) && b.scopes != [] && x !in b.scopes[|b.scopes| - 1]
    requires |made| == |b.order| + 1 && d == made[|b.order|]
    ensures b.ids != [] && d in defs && d !in b.forwards && MadeOk(WithGiven(b, x, d), made, defs)
  {
    assert !Bound(b, Here(b, x));
    MadeGiven(b, made, defs, x, d);
  }

  lemma MadeResolved(b: Book<Def>, made: seq<Def>, defs: set<Def>, x: Name, d: Def)
    requires ScopesOk(b) && NamesOk(b, defs) && MadeOk(b, made, defs) && b.scopes != [] && x in b.scopes[|b.scopes| - 1]
    requires |made| == |b.order| + 1 && d == made[|b.order|] && b.scopes[|b.scopes| - 1][x] in b.forwards
    ensures b.ids != [] && d in defs && d !in b.forwards && MadeOk(WithGiven(b, x, d), made, defs - {b.scopes[|b.scopes| - 1][x]})
  {
    assert Bound(b, Here(b, x)) && NameOk(b, Here(b, x));
    MadeGiven(b, made, defs, x, d);
  }

  /** The names of one kind: SSA names, whose placeholders are results of forward-reference ops, or block labels,
      whose placeholders are empty blocks. */
  class Resolver {
    const chain: Chain<Def>
    var scopes: seq<map<Name, Def>>
    var forwards: set<Def>
    var nextDef: nat
    /** The results, or blocks, that were parsed, in the order in which they are written. */
    var made: seq<Def>
    ghost var book: Book<Def>

    ghost predicate Valid()
      reads this, chain
    {
      BookValid() && MadeOk(book, made, chain.uses.Keys)
    }

    /** The same while a definition is being made. */
    ghost predicate BookValid()
      reads this, chain
    {
      && chain.Valid() && BookOk(book, chain.operands, chain.uses) && AllMade(book, chain.operands)
      && book.scopes == scopes && book.forwards == forwards
      && (forall d :: d in chain.uses ==> d.id < nextDef)
      && (forall u :: u in book.madeFor ==> u.uid in chain.owners)
    }

    /** Everything made is registered under its name. */
    ghost predicate Complete()
      reads this
    {
      |made| == |book.order|
    }

    ghost function Seen(): View
      reads this, chain
    {
      ViewOf(book, chain.operands)
    }

    constructor ()
      ensures Valid() && Complete() && scopes == [] && forwards == {} && Seen() == Start && fresh(chain) && chain.owners == map[]
    {
      scopes, forwards, nextDef, made := [], {}, 0, [];
      book := Book([], {}, [], map[], map[], map[], map[], []);
      chain := new Chain();
      new;
      NoneView();
    }

    method Enter()
      requires Valid()
      modifies this
      ensures Valid() && book == Entered(old(book)) && scopes == old(scopes) + [map[]] && Seen() == Opened(old(Seen())) && made == old(made)
    {
      MadeSame(book, Entered(book), made, chain.uses.Keys);
      EnteredView(book, chain.operands);
      EnterOk(book, chain.operands, chain.uses);
      scopes := scopes + [map[]];
      book := Entered(book);
    }

    /** Pops the innermost scope; one of its names may still be bound to a placeholder. */
    method Leave() returns (r: Outcome)
      requires Valid() && scopes != []
      modifies this
      ensures scopes == old(scopes)[..|old(scopes)| - 1] && made == old(made)
      ensures old(book).ids != [] && (r.Ok? <==> Closed(old(Seen())).Some?)
      ensures r.Err? ==> r.error.UnresolvedReference? && r.error.name in old(scopes)[|old(scopes)| - 1]
      ensures r.Ok? ==> Valid() && book == Left(old(book)) && Seen() == Closed(old(Seen())).value
    {
      LeftView(book, chain.operands, chain.uses.Keys);
      var missing := Unresolved(scopes[|scopes| - 1]);
      if missing.Some? {
        scopes := scopes[..|scopes| - 1];
        return Err(UnresolvedReference(missing.value));
      }
      Pop();
      r := Ok;
    }

    method Pop()
      requires Valid() && scopes != [] && Settled(scopes[|scopes| - 1], forwards)
      modifies this`scopes, this`book
      ensures Valid() && scopes == old(scopes)[..|old(scopes)| - 1] && old(book).ids != [] && book == Left(old(book))
    {
      LeftBook(book, chain.operands, chain.uses, made);
      scopes := scopes[..|scopes| - 1];
      book := Left(book);
    }

    /** A name of a scope that is bound to a placeholder. */
    method Unresolved(scope: map<Name, Def>) returns (missing: Option<Name>)
      ensures missing.Some? ==> missing.value in scope && scope[missing.value] in forwards
      ensures missing.None? <==> Settled(scope, forwards)
    {
      var todo := scope.Keys;
      while todo != {}
        invariant todo <= scope.Keys && forall x :: x in scope && x !in todo ==> scope[x] !in forwards
        decreases |todo|
      {
        var x :| x in todo;
        if scope[x] in forwards { return Some(x); }
        todo := todo - {x};
      }
      return None;
    }

    /** What the name is bound to in the innermost scope; a placeholder is made on first use. */
    method Lookup(x: Name) returns (d: Def)
      requires Valid() && scopes != []
      modifies this, chain`uses
      ensures Valid() && scopes != [] && x in scopes[|scopes| - 1] && d == scopes[|scopes| - 1][x] && d in chain.uses
      ensures old(Seen()).open != [] && Seen() == Met(old(Seen()), Place(Top(old(Seen())), x)) && made == old(made)
    {
      var top := scopes[|scopes| - 1];
      if x in top {
        d := top[x];
        assert Bound(book, Here(book, x));
      } else {
        ghost var b := book;
        d := NewForward(x);
        BindingView(b, x, d);
      }
    }

    /** A placeholder for a name that the innermost scope does not have. */
    method NewForward(x: Name) returns (d: Def)
      requires Valid() && scopes != [] && x !in scopes[|scopes| - 1]
      modifies this, chain`uses
      ensures Valid() && d in chain.uses && old(book).ids != [] && book == WithForward(old(book), x, d) && made == old(made)
    {
      ghost var uses := chain.uses;
      d := Fresh();
      MadeForward(book, made, uses.Keys, x, d);
      ForwardKeeps(book, chain.operands, uses, x, d);
      Bind(x, d, forwards + {d}, WithForward(book, x, d));
    }

    method Bind(x: Name, d: Def, forwards': set<Def>, ghost book': Book<Def>)
      requires scopes != []
      modifies this`scopes, this`forwards, this`book
      ensures scopes == old(scopes)[|old(scopes)| - 1 := old(scopes)[|old(scopes)| - 1][x := d]] && forwards == forwards' && book == book'
    {
      var last := |scopes| - 1;
      scopes := scopes[last := scopes[last][x := d]];
      forwards := forwards';
      book := book';
    }

    /** A use of name `x` by op `o`, which is made with its first operand: the name is looked up and the operand made
        in one step. */
    method UseBy(o: OpPtr, x: Name, uid: nat)
      requires Valid() && scopes != [] && uid !in chain.owners
      modifies this, chain
      ensures Valid() && chain.owners == old(chain.owners)[uid := o] && made == old(made)
      ensures old(book).ids != [] && Seen() == Used(old(Seen()), o, x)
    {
      AddUser(o);
      AppendUse(o, x, uid);
    }

    method AppendUse(o: OpPtr, x: Name, uid: nat)
      requires Valid() && scopes != [] && uid !in chain.owners && o in chain.operands
      modifies this, chain
      ensures Valid() && chain.owners == old(chain.owners)[uid := o] && made == old(made)
      ensures old(book).ids != [] && Seen() == Used(old(Seen()), o, x)
    {
      ghost var s := Seen();
      var d := Lookup(x);
      ghost var t := Seen();
      AppendOperand(o, x, d, uid);
      UsedSteps(s, t, Seen(), o, x);
    }

    method AddUser(o: OpPtr)
      requires Valid()
      modifies chain`operands
      ensures Valid() && o in chain.operands && Seen() == old(Seen())
    {
      if o !in chain.operands {
        NoneWritten(book.madeFor, chain.operands, o);
        chain.AddUser(o);
      }
    }

    method AppendOperand(o: OpPtr, x: Name, d: Def, uid: nat)
      requires Valid() && scopes != [] && o in chain.operands && uid !in chain.owners
      requires x in scopes[|scopes| - 1] && d == scopes[|scopes| - 1][x] && d in chain.uses
      modifies this`book, chain
      ensures Valid() && chain.owners == old(chain.owners)[uid := o]
      ensures old(Seen()).open != [] && Seen() == Wrote(old(Seen()), o, Place(Top(old(Seen())), x))
    {
      MadeUsed(book, made, chain.uses, x, d, Use(o, uid));
      WriteOperand(o, x, d, uid);
    }

    method WriteOperand(o: OpPtr, x: Name, d: Def, uid: nat)
      requires BookValid() && scopes != [] && o in chain.operands && uid !in chain.owners
      requires x in scopes[|scopes| - 1] && d == scopes[|scopes| - 1][x] && d in chain.uses
      modifies this`book, chain
      ensures BookValid() && chain.owners == old(chain.owners)[uid := o] && old(book).ids != [] && book == WithUse(old(book), Use(o, uid), x)
      ensures Seen() == Wrote(old(Seen()), o, Here(old(book), x))
      ensures d in old(chain.uses) && chain.uses == old(chain.uses)[d := old(chain.uses)[d] + {Use(o, uid)}]
    {
      UseView(book, chain.operands, o, x, d, uid);
      PushUse(o, x, d, uid);
    }

    method PushUse(o: OpPtr, x: Name, d: Def, uid: nat)
      requires BookValid() && scopes != [] && o in chain.operands && uid !in chain.owners
      requires x in scopes[|scopes| - 1] && d == scopes[|scopes| - 1][x] && d in chain.uses
      modifies this`book, chain
      ensures BookValid() && old(book).ids != [] && book == WithUse(old(book), Use(o, uid), x)
      ensures chain.owners == old(chain.owners)[uid := o]
      ensures o in old(chain.operands) && chain.operands == old(chain.operands)[o := old(chain.operands)[o] + [Operand(d, uid)]]
      ensures d in old(chain.uses) && chain.uses == old(chain.uses)[d := old(chain.uses)[d] + {Use(o, uid)}]
    {
      UseKeeps(book, chain.operands, chain.uses, o, x, d, uid);
      UseMade(book, chain.operands, o, x, d, uid);
      var i := chain.PushOperand(o, d, uid);
      book := WithUse(book, Use(o, uid), x);
    }

    /** A new result or block, not registered under a name yet. */
    method NewDef() returns (d: Def)
      requires Valid() && Complete()
      modifies this`nextDef, this`made, chain`uses
      ensures Valid() && d !in old(chain.uses) && chain.uses == old(chain.uses)[d := {}] && made == old(made) + [d]
    {
      MadeOne(book, made, chain.uses.Keys, Def(nextDef));
      d := Fresh();
      made := made + [d];
    }

    /** A new definition, which is neither registered nor a placeholder yet. */
    method Fresh() returns (d: Def)
      requires BookValid()
      modifies this`nextDef, chain`uses
      ensures BookValid() && d == Def(old(nextDef)) && d !in old(chain.uses) && chain.uses == old(chain.uses)[d := {}] && d !in forwards
    {
      d := Def(nextDef);
      NewDefBook(book, chain.operands, chain.uses, d);
      chain.AddDef(d);
      nextDef := nextDef + 1;
    }

    /** Registers a definition under a name. A placeholder of that name gives way to it: all of its uses move to the
        definition and the placeholder is erased. Any other earlier definition is an error, and nothing changes. */
    method Define(x: Name, d: Def) returns (r: Outcome)
      requires Valid() && scopes != [] && |made| == |book.order| + 1 && d == made[|book.order|]
      modifies this, chain`operands, chain`uses
      ensures Valid() && made == old(made) && old(book).ids != [] && r == (if Defined(old(Seen()), x).Some? then Ok else Err(MultipleDefinitions(x)))
      ensures r.Ok? ==> book == WithGiven(old(book), x, d) && Seen() == Defined(old(Seen()), x).value
      ensures r.Ok? ==> Complete()
      ensures r.Err? ==> book == old(book) && chain.operands == old(chain.operands) && chain.uses == old(chain.uses)
    {
      ghost var defined := Defined(Seen(), x);
      GivenView(book, chain.operands, chain.uses.Keys, x, d);
      var top := scopes[|scopes| - 1];
      if x in top {
        if top[x] !in forwards {
          assert defined.None?;
          return Err(MultipleDefinitions(x));
        }
        assert defined.Some?;
        ReplaceForward(x, d);
      } else {
        DefineNew(x, d);
      }
      r := Ok;
    }

    /** A new definition, registered under a name. */
    method DefBy(x: Name) returns (r: Outcome, d: Def)
      requires Valid() && Complete() && scopes != []
      modifies this, chain
      ensures Valid() && d !in old(chain.uses) && made == old(made) + [d] && chain.owners == old(chain.owners)
      ensures old(book).ids != [] && r == (if Defined(old(Seen()), x).Some? then Ok else Err(MultipleDefinitions(x)))
      ensures r.Ok? ==> Complete() && Seen() == Defined(old(Seen()), x).value && book.given == old(book).given[Here(old(book), x) := d]
    {
      d := NewDef();
      GivenView(book, chain.operands, chain.uses.Keys, x, d);
      r := Define(x, d);
    }

    /** A name that was not seen in its scope. */
    method DefineNew(x: Name, d: Def)
      requires Valid() && scopes != [] && x !in scopes[|scopes| - 1] && |made| == |book.order| + 1 && d == made[|book.order|]
      modifies this
      ensures Valid() && made == old(made) && old(book).ids != [] && book == WithGiven(old(book), x, d)
    {
      MadeNew(book, made, chain.uses.Keys, x, d);
      GivenKeeps(book, chain.operands, chain.uses, x, d);
      Bind(x, d, forwards, WithGiven(book, x, d));
    }

    /** The placeholder of a name gives way to its definition; operands stay with the names they were written with. */
    method ReplaceForward(x: Name, d: Def)
      requires Valid() && scopes != [] && |made| == |book.order| + 1 && d == made[|book.order|]
      requires x in scopes[|scopes| - 1] && scopes[|scopes| - 1][x] in forwards
      modifies this, chain`operands, chain`uses
      ensures Valid() && made == old(made) && old(book).ids != [] && book == WithGiven(old(book), x, d)
      ensures WrittenBy(book.madeFor, chain.operands) == WrittenBy(old(book).madeFor, old(chain.operands))
    {
      MadeResolved(book, made, chain.uses.Keys, x, d);
      Resolve(x, scopes[|scopes| - 1][x], d);
    }

    method Resolve(x: Name, f: Def, d: Def)
      requires BookValid() && scopes != [] && d in chain.uses && d !in forwards
      requires x in scopes[|scopes| - 1] && f == scopes[|scopes| - 1][x] && f in forwards
      modifies this, chain`operands, chain`uses
      ensures BookValid() && made == old(made) && old(book).ids != [] && book == WithGiven(old(book), x, d)
      ensures WrittenBy(book.madeFor, chain.operands) == WrittenBy(old(book).madeFor, old(chain.operands))
      ensures chain.uses.Keys == old(chain.uses).Keys - {f}
    {
      ResolveKeeps(book, chain.operands, chain.uses, chain.owners, x, d);
      MovedMade(book, WithGiven(book, x, d), chain.operands, f, chain.uses[f], d);
      MovedWritten(book.madeFor, chain.operands, f, chain.uses[f], d);
      EraseForward(f, d);
      Bind(x, d, forwards - {f}, WithGiven(book, x, d));
    }

    method EraseForward(f: Def, d: Def)
      requires chain.Valid() && f in chain.uses && d in chain.uses && f != d
      modifies chain`operands, chain`uses
      ensures chain.Valid() && chain.operands == MovedOperands(old(chain.operands), f, old(chain.uses)[f], d)
      ensures chain.uses == MovedUses(old(chain.uses), f, old(chain.uses)[f], d) - {f}
    {
      assert Touched(chain.uses, f, u => true) == chain.uses[f];
      chain.ReplaceSomeUses(f, u => true, d);
      chain.RemoveDef(f);
    }
  }

  // ----- regions -----

  class NameTracker {
    const values: Resolver
    const labels: Resolver
    var nextUse: nat

    ghost predicate Valid()
      reads this, values, labels, values.chain, labels.chain
    {
      && values.Valid() && values.Complete() && labels.Valid() && labels.Complete() && values != labels && values.chain != labels.chain
      && (forall uid :: uid in values.chain.owners ==> uid < nextUse) && (forall uid :: uid in labels.chain.owners ==> uid < nextUse)
    }

    /** Nothing that was made is taken back. */
    ghost predicate Grown(values0: seq<Def>, labels0: seq<Def>)
      reads values, labels
    {
      values0 <= values.made && labels0 <= labels.made
    }

    constructor ()
      ensures Valid() && values.scopes == [] && labels.scopes == [] && values.Seen() == Start && labels.Seen() == Start
      ensures fresh(values) && fresh(labels) && fresh(values.chain) && fresh(labels.chain)
    {
      values := new Resolver();
      labels := new Resolver();
      nextUse := 0;
    }

    /** A block label scope is opened for every region, an SSA name scope for those of isolated ops only. */
    method EnterRegion(isolated: bool) returns (r: Outcome)
      requires Valid()
      modifies this, values, labels
      ensures Valid() && values.made == old(values.made) && labels.made == old(labels.made)
      ensures r == if !isolated && old(values.scopes) == [] then Err(TopLevelOpRegionNotIsolatedFromAbove) else Ok
      ensures r.Ok? ==> values.Seen() == (if isolated then Opened(old(values.Seen())) else old(values.Seen())) && labels.Seen() == Opened(old(labels.Seen()))
      ensures r.Err? ==> values.Seen() == old(values.Seen()) && labels.Seen() == old(labels.Seen())
    {
      if isolated {
        values.Enter();
      } else if values.scopes == [] {
        return Err(TopLevelOpRegionNotIsolatedFromAbove);
      }
      labels.Enter();
      r := Ok;
    }

    /** Leaving fails exactly when a scope that is to be closed has a name without definition. */
    method ExitRegion(isolated: bool) returns (r: Outcome)
      requires Valid() && labels.Seen().open != [] && values.Seen().open != []
      modifies this, values, labels
      ensures values.made == old(values.made) && labels.made == old(labels.made)
      ensures r.Ok? <==> (isolated ==> Closed(old(values.Seen())).Some?) && Closed(old(labels.Seen())).Some?
      ensures r.Err? ==> r.error.UnresolvedReference?
      ensures r.Ok? ==> Valid() && labels.Seen() == Closed(old(labels.Seen())).value
      ensures r.Ok? ==> values.Seen() == if isolated then Closed(old(values.Seen())).value else old(values.Seen())
    {
      if isolated {
        r := values.Leave();
        if r.Err? { return; }
      }
      r := labels.Leave();
    }

    /** Op `o` uses a value's name, or a block's. */
    method UseValue(o: OpPtr, x: Name)
      requires Valid() && values.Seen().open != []
      modifies this, values, values.chain
      ensures Valid() && values.Seen() == Used(old(values.Seen()), o, x) && values.made == old(values.made)
    {
      values.UseBy(o, x, nextUse);
      nextUse := nextUse + 1;
    }

    method UseLabel(o: OpPtr, x: Name)
      requires Valid() && labels.Seen().open != []
      modifies this, labels, labels.chain
      ensures Valid() && labels.Seen() == Used(old(labels.Seen()), o, x) && labels.made == old(labels.made)
    {
      labels.UseBy(o, x, nextUse);
      nextUse := nextUse + 1;
    }

    /** A new result, or block, with a name. */
    method MakeDef(names: Resolver, x: Name) returns (r: Outcome, d: Def)
      requires Valid() && (names == values || names == labels) && names.Seen().open != []
      modifies names, names.chain
      ensures d !in old(names.made) && names.made == old(names.made) + [d]
      ensures (r.Ok? ==> Valid()) && r == (if Defined(old(names.Seen()), x).Some? then Ok else Err(MultipleDefinitions(x)))
      ensures r.Ok? ==> names.Seen() == Defined(old(names.Seen()), x).value
    {
      r, d := names.DefBy(x);
    }

    /** Parses what is inside a region, event by event: that succeeds exactly when the names of both kinds can be read,
        and leaves what reading leaves. */
    method ParseAll(events: seq<Event>) returns (r: Outcome)
      requires Valid() && values.Seen().open != [] && labels.Seen().open != []
      modifies this, values, labels, values.chain, labels.chain
      ensures ParseAgrees(r, ValueItems(events), LabelItems(events), old(values.Seen()), old(labels.Seen()), values.Seen(), labels.Seen())
      ensures (r.Ok? ==> Valid()) && Grown(old(values.made), old(labels.made))
      decreases events, 0
    {
      ghost var v, l := values.Seen(), labels.Seen();
      assert events[0..] == events;
      for i := 0 to |events|
        invariant Valid() && values.Seen().open == v.open && labels.Seen().open == l.open && Grown(old(values.made), old(labels.made))
        invariant Read(ValueItems(events[i..]), values.Seen()) == Read(ValueItems(events), v)
        invariant Read(LabelItems(events[i..]), labels.Seen()) == Read(LabelItems(events), l)
      {
        assert events[i..][0] == events[i] && events[i..][1..] == events[i + 1..];
        ReadConcat(ValueItemsOf(events[i]), ValueItems(events[i + 1..]), values.Seen());
        ReadConcat(LabelItemsOf(events[i]), LabelItems(events[i + 1..]), labels.Seen());
        r := Parse(events[i]);
        if r.Err? { return; }
      }
      r := Ok;
    }

    method Parse(e: Event) returns (r: Outcome)
      requires Valid() && values.Seen().open != [] && labels.Seen().open != []
      modifies this, values, labels, values.chain, labels.chain
      ensures ParseAgrees(r, ValueItemsOf(e), LabelItemsOf(e), old(values.Seen()), old(labels.Seen()), values.Seen(), labels.Seen())
      ensures (r.Ok? ==> Valid()) && Grown(old(values.made), old(labels.made))
      decreases e, 1
    {
      match e
      case OperandUse(_, _) =>
        ParseUse(e);
        r := Ok;
      case SuccessorUse(_, _) =>
        ParseUse(e);
        r := Ok;
      case ValueDef(_) => r := ParseDef(e);
      case BlockDef(_) => r := ParseDef(e);
      case Region(isolated, inside) =>
        ghost var v, l := values.Seen(), labels.Seen();
        r := ParseRegion(isolated, inside);
        RegionEventAgrees(r, isolated, inside, v, l, values.Seen(), labels.Seen());
    }

    method ParseUse(e: Event)
      requires Valid() && values.Seen().open != [] && labels.Seen().open != [] && (e.OperandUse? || e.SuccessorUse?)
      modifies this, values, labels, values.chain, labels.chain
      ensures ParseAgrees(Ok, ValueItemsOf(e), LabelItemsOf(e), old(values.Seen()), old(labels.Seen()), values.Seen(), labels.Seen())
      ensures Valid() && Grown(old(values.made), old(labels.made))
    {
      ghost var v, l := values.Seen(), labels.Seen();
      if e.OperandUse? {
        UseValue(e.op, e.name);
        ValueUseAgrees(e.op, e.name, v, l);
      } else {
        UseLabel(e.op, e.name);
        LabelUseAgrees(e.op, e.name, v, l);
      }
    }

    method ParseDef(e: Event) returns (r: Outcome)
      requires Valid() && values.Seen().open != [] && labels.Seen().open != [] && (e.ValueDef? || e.BlockDef?)
      modifies this, values, labels, values.chain, labels.chain
      ensures ParseAgrees(r, ValueItemsOf(e), LabelItemsOf(e), old(values.Seen()), old(labels.Seen()), values.Seen(), labels.Seen())
      ensures (r.Ok? ==> Valid()) && Grown(old(values.made), old(labels.made))
    {
      ghost var v, l := values.Seen(), labels.Seen();
      if e.ValueDef? {
        var d;
        r, d := MakeDef(values, e.name);
        ValueDefAgrees(r, e.name, v, l, values.Seen());
      } else {
        var d;
        r, d := MakeDef(labels, e.name);
        LabelDefAgrees(r, e.name, v, l, labels.Seen());
      }
    }

    /** Parses the regions of an isolated op, one after another. */
    method ParseRegions(regions: seq<seq<Event>>) returns (r: Outcome)
      requires Valid()
      modifies this, values, labels, values.chain, labels.chain
      ensures var rv, rl := ReadAll(ValueScopes(regions), old(values.Seen())), ReadAll(LabelScopes(regions), old(labels.Seen()));
              && (r.Ok? <==> rv.Some? && rl.Some?)
              && (r.Ok? ==> Valid() && values.Seen() == rv.value && labels.Seen() == rl.value)
      ensures Grown(old(values.made), old(labels.made))
    {
      ghost var v, l, vs, ls := values.Seen(), labels.Seen(), ValueScopes(regions), LabelScopes(regions);
      assert vs[0..] == vs && ls[0..] == ls;
      for i := 0 to |regions|
        invariant Valid() && Grown(old(values.made), old(labels.made))
        invariant ReadAll(vs[i..], values.Seen()) == ReadAll(vs, v)
        invariant ReadAll(ls[i..], labels.Seen()) == ReadAll(ls, l)
      {
        assert vs[i..][0] == ValueItems(regions[i]) && vs[i..][1..] == vs[i + 1..];
        assert ls[i..][0] == LabelItems(regions[i]) && ls[i..][1..] == ls[i + 1..];
        r := ParseRegion(true, regions[i]);
        if r.Err? { return; }
      }
      r := Ok;
    }

    /** Opens the scopes of a region, parses what is inside, and closes the scopes. */
    method ParseRegion(isolated: bool, inside: seq<Event>) returns (r: Outcome)
      requires Valid() && (isolated || values.Seen().open != [])
      modifies this, values, labels, values.chain, labels.chain
      ensures RegionAgrees(r, isolated, inside, old(values.Seen()), old(labels.Seen()), values.Seen(), labels.Seen())
      ensures (r.Ok? ==> Valid()) && Grown(old(values.made), old(labels.made))
      decreases inside, 1
    {
      ghost var v, l := values.Seen(), labels.Seen();
      r := EnterRegion(isolated);
      if r.Err? { return; }
      r := ParseAll(inside);
      ghost var r1, v1, l1 := r, values.Seen(), labels.Seen();
      if r.Ok? { r := ExitRegion(isolated); }
      RegionSteps(r1, r, isolated, inside, v, l, v1, l1, values.Seen(), labels.Seen());
    }
  }

  /** What parsing a region comes to: a label scope always, a value scope only if the op is isolated. */
  ghost predicate RegionAgrees(r: Outcome, isolated: bool, inside: seq<Event>, v: View, l: View, v': View, l': View)
    requires isolated || v.open != []
  {
    var rv, rl := if isolated then ReadScope(ValueItems(inside), v) else Read(ValueItems(inside), v), ReadScope(LabelItems(inside), l);
    && (r.Ok? <==> rv.Some? && rl.Some?)
    && (r.Ok? ==> v' == rv.value && l' == rl.value)
  }

  /** Parsing succeeds exactly when the names of both kinds can be read, and leaves what reading leaves. */
  ghost predicate ParseAgrees(r: Outcome, vs: seq<Item>, ls: seq<Item>, v: View, l: View, v': View, l': View)
    requires v.open != [] && l.open != []
  {
    && (r.Ok? <==> Read(vs, v).Some? && Read(ls, l).Some?)
    && (r.Ok? ==> v' == Read(vs, v).value && l' == Read(ls, l).value)
  }

  /** The scopes of a region are opened, what is inside is parsed with outcome `r1`, and the scopes are closed. */
  lemma {:induction false} RegionSteps(r1: Outcome, r: Outcome, isolated: bool, inside: seq<Event>, v: View, l: View, v1: View, l1: View, v': View, l': View)
    requires isolated || v.open != []
    requires ParseAgrees(r1, ValueItems(inside), LabelItems(inside), if isolated then Opened(v) else v, Opened(l), v1, l1)
    requires r1.Err? ==> r.Err?
    requires r1.Ok? ==> (r.Ok? <==> (isolated ==> Closed(v1).Some?) && Closed(l1).Some?)
    requires r1.Ok? && r.Ok? ==> l' == Closed(l1).value && v' == if isolated then Closed(v1).value else v1
    ensures RegionAgrees(r, isolated, inside, v, l, v', l')
  {
  }

  lemma ValueUseAgrees(o: OpPtr, x: Name, v: View, l: View)
    requires v.open != [] && l.open != []
    ensures var e := OperandUse(o, x); ParseAgrees(Ok, ValueItemsOf(e), LabelItemsOf(e), v, l, Used(v, o, x), l)
  {
    ReadSingle(UseOf(o, x), v);
  }

  lemma LabelUseAgrees(o: OpPtr, x: Name, v: View, l: View)
    requires v.open != [] && l.open != []
    ensures var e := SuccessorUse(o, x); ParseAgrees(Ok, ValueItemsOf(e), LabelItemsOf(e), v, l, v, Used(l, o, x))
  {
    ReadSingle(UseOf(o, x), l);
  }

  lemma ValueDefAgrees(r: Outcome, x: Name, v: View, l: View, v': View)
    requires v.open != [] && l.open != [] && (r.Ok? <==> Defined(v, x).Some?) && (r.Ok? ==> v' == Defined(v, x).value)
    ensures var e := ValueDef(x); ParseAgrees(r, ValueItemsOf(e), LabelItemsOf(e), v, l, v', l)
  {
    ReadSingle(DefOf(x), v);
  }

  lemma LabelDefAgrees(r: Outcome, x: Name, v: View, l: View, l': View)
    requires v.open != [] && l.open != [] && (r.Ok? <==> Defined(l, x).Some?) && (r.Ok? ==> l' == Defined(l, x).value)
    ensures var e := BlockDef(x); ParseAgrees(r, ValueItemsOf(e), LabelItemsOf(e), v, l, v, l')
  {
    ReadSingle(DefOf(x), l);
  }

  lemma RegionEventAgrees(r: Outcome, isolated: bool, inside: seq<Event>, v: View, l: View, v': View, l': View)
    requires v.open != [] && l.open != [] && RegionAgrees(r, isolated, inside, v, l, v', l')
    ensures var e := Region(isolated, inside); ParseAgrees(r, ValueItemsOf(e), LabelItemsOf(e), v, l, v', l')
  {
    ReadSingle(Scope(ValueItems(inside)), v);
    ReadSingle(Scope(LabelItems(inside)), l);
  }

  /** Every operand names the definition given for the place that it was made for. */
  ghost predicate GivenNamed(b: Book<Def>, operands: Operands<Def>) {
    forall o, i :: o in operands && 0 <= i < |operands[o]| ==>
      && Use(o, operands[o][i].uid) in b.madeFor && b.madeFor[Use(o, operands[o][i].uid)] in b.given
      && operands[o][i].def == b.given[b.madeFor[Use(o, operands[o][i].uid)]]
  }

  lemma AllResolved(b: Book<Def>, operands: Operands<Def>, uses: UseSets<Def>, owners: Owners)
    requires BookOk(b, operands, uses) && AllMade(b, operands) && TwoWay(operands, uses, owners) && b.ids == []
    ensures GivenNamed(b, operands)
  {
    forall o, i | o in operands && 0 <= i < |operands[o]|
      ensures var u := Use(o, operands[o][i].uid); u in b.madeFor && b.madeFor[u] in b.given && operands[o][i].def == b.given[b.madeFor[u]]
    {
      OperandResolved(b, operands, uses, owners, o, i);
    }
  }

  /** The ops have the operands that they were written with, and each of them names the definition that was made for its
      name in the scope that it was written in: the `k`-th one made is the `k`-th one written. */
  ghost predicate Resolved(made: seq<Def>, operands: Operands<Def>, v: View) {
    && NoneTwice(made) && |made| == |v.given| && (forall o :: o in v.written ==> o in operands)
    && (forall o :: o in operands ==> |operands[o]| == |Written(v, o)|)
    && (forall o, i :: o in operands && 0 <= i < |operands[o]| ==> Names(made, v.given, operands[o][i].def, Written(v, o)[i]))
  }

  predicate Names(made: seq<Def>, given: seq<Place>, d: Def, p: Place)
    requires |made| == |given|
  {
    p in given && d == made[IndexOf(given, p)]
  }

  /** Two operands name the same definition exactly when they were written with the same name in the same scope. */
  lemma SameDefinitionIff(made: seq<Def>, operands: Operands<Def>, v: View, o: OpPtr, i: nat, q: OpPtr, j: nat)
    requires Resolved(made, operands, v) && o in operands && i < |operands[o]| && q in operands && j < |operands[q]|
    ensures operands[o][i].def == operands[q][j].def <==> Written(v, o)[i] == Written(v, q)[j]
  {
    assert Names(made, v.given, operands[o][i].def, Written(v, o)[i]) && Names(made, v.given, operands[q][j].def, Written(v, q)[j]);
  }

  lemma ResolvedBy(b: Book<Def>, made: seq<Def>, defs: set<Def>, operands: Operands<Def>)
    requires GivenNamed(b, operands) && MadeOk(b, made, defs) && |made| == |b.order|
    ensures Resolved(made, operands, ViewOf(b, operands))
  {
    var v := ViewOf(b, operands);
    forall o, i | o in operands && 0 <= i < |operands[o]| ensures Names(made, v.given, operands[o][i].def, Written(v, o)[i]) {
      assert Written(v, o) == Places(b.madeFor, o, operands[o]);
    }
  }

  /** Parses the regions of a top-level op. That succeeds exactly when the op is isolated or has no regions, and the scopes
      of both kinds are in order. Then no scope is open any more, nothing but the definitions that were written is left,
      uses and operands agree, and every op has the operands and successors that it was written with, each of which names
      the definition that was written for its name in its own scope. */
  method ParseTopLevel(isolated: bool, regions: seq<seq<Event>>) returns (r: Outcome, names: NameTracker)
    ensures r.Ok? <==> (isolated || regions == []) && AllWellScoped(ValueScopes(regions)) && AllWellScoped(LabelScopes(regions))
    ensures r.Ok? ==> AllRead(names.values, ValueScopes(regions)) && AllRead(names.labels, LabelScopes(regions))
    ensures !isolated && regions != [] ==> r == Err(TopLevelOpRegionNotIsolatedFromAbove)
  {
    names := new NameTracker();
    ReadAllIff(ValueScopes(regions), Start);
    ReadAllIff(LabelScopes(regions), Start);
    if !isolated && regions != [] {
      // the first region cannot be entered
      r := names.EnterRegion(isolated);
      return;
    }
    r := names.ParseRegions(regions);
    if r.Err? { return; }
    AllDone(names.values);
    AllDone(names.labels);
  }

  /** What there is once everything was read: no scope and no placeholder, and what the text says. */
  ghost predicate AllRead(names: Resolver, scopes: seq<seq<Item>>)
    reads names, names.chain
  {
    && names.scopes == [] && names.forwards == {} && names.chain.Valid()
    && (forall d :: d in names.chain.uses <==> d in names.made)
    && ReadAll(scopes, Start).Some? && Resolved(names.made, names.chain.operands, ReadAll(scopes, Start).value)
  }

  lemma AllDone(names: Resolver)
    requires names.Valid() && names.Complete() && names.Seen().open == []
    ensures names.scopes == [] && names.forwards == {} && Resolved(names.made, names.chain.operands, names.Seen())
    ensures forall d :: d in names.chain.uses <==> d in names.made
  {
    NothingLeft(names.book, names.chain.operands, names.chain.uses);
    AllResolved(names.book, names.chain.operands, names.chain.uses, names.chain.owners);
    ResolvedBy(names.book, names.made, names.chain.uses.Keys, names.chain.operands);
  }
}

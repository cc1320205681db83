/** Source locations: what the printer writes, the parser reads back. */
module Location {
  import opened Options
  import opened SeqLists

  datatype Source = File(path: string) | InMemory

  /** `metadata` stands for an attribute, which prints and parses as one lexeme. */
  datatype Location =
    | SrcPos(src: Source, line: int, column: int)
    | Fused(metadata: Option<nat>, locations: seq<Location>)
    | Named(name: string, child: Location)
    | CallSite(callee: Location, caller: Location)
    | Unknown

  /** Quoted strings, numbers, words, the in-memory source and attributes are read as a whole. */
  datatype Lex = Str(s: string) | Num(n: int) | Word(w: string) | InMem | Attr(a: nat) | Ch(c: char) | Space

  type Input = seq<Lex>

  // ----- printing -----

  function PrintSource(src: Source): Lex {
    if src.InMemory? then InMem else Str(src.path)
  }

  function Print(l: Location): (r: Input)
    ensures r != []
    decreases l
  {
    match l
    case SrcPos(src, line, column) =>
      [PrintSource(src), Ch(':'), Space, Word("line"), Ch(':'), Space, Num(line), Ch(','), Space, Word("column"), Ch(':'), Space, Num(column)]
    case Fused(metadata, ls) =>
      [Word("fused")] + (if metadata.Some? then [Ch('<'), Attr(metadata.value), Ch('>')] else []) + [Ch('[')] + PrintList(ls) + [Ch(']')]
    case Named(name, child) =>
      [Word("name"), Ch(':'), Space, Str(name), Ch(','), Space, Word("loc"), Ch(':'), Space, Ch('(')] + Print(child) + [Ch(')')]
    case CallSite(callee, caller) =>
      [Word("callsite"), Ch('(')] + Print(callee) + [Space, Word("at"), Space] + Print(caller) + [Ch(')')]
    case Unknown => [Ch('?')]
  }

  function PrintList(ls: seq<Location>): Input
    decreases ls
  {
    if ls == [] then [] else Print(ls[0]) + PrintMore(ls[1..])
  }

  function PrintMore(ls: seq<Location>): Input
    decreases ls
  {
    if ls == [] then [] else [Ch(','), Space] + Print(ls[0]) + PrintMore(ls[1..])
  }

  // ----- parsing -----

  datatype P<+T> = Ok(value: T, rest: Input) | Empty | Commit

  function Committed<T>(p: P<T>): P<T> {
    if p.Empty? then Commit else p
  }

  function Skip(s: Input): (r: Input)
    ensures |r| <= |s| && (r != [] ==> !r[0].Space?)
  {
    if s != [] && s[0].Space? then Skip(s[1..]) else s
  }

  function Take(s: Input, x: Lex): (r: Option<Input>)
    ensures r.Some? ==> |r.value| < |s|
  {
    if s != [] && s[0] == x then Some(s[1..]) else None
  }

  /** A lexeme with white space allowed on both sides. */
  function Spaced(s: Input, x: Lex): (r: Option<Input>)
    ensures r.Some? ==> |r.value| < |s|
  {
    var t := Take(Skip(s), x);
    if t.Some? then Some(Skip(t.value)) else None
  }

  function ParsePos(src: Source, s: Input): (r: P<Location>)
    ensures r.Ok? ==> |r.rest| < |s|
  {
    var colon := Spaced(s, Ch(':'));
    if colon.None? then Commit else
    var line := Take(colon.value, Word("line"));
    if line.None? then Commit else
    var c1 := Spaced(line.value, Ch(':'));
    if c1.None? || c1.value == [] || !c1.value[0].Num? then Commit else
    var comma := Spaced(c1.value[1..], Ch(','));
    if comma.None? then Commit else
    var column := Take(comma.value, Word("column"));
    if column.None? then Commit else
    var c2 := Spaced(column.value, Ch(':'));
    if c2.None? || c2.value == [] || !c2.value[0].Num? then Commit else
    Ok(SrcPos(src, c1.value[0].n, c2.value[0].n), c2.value[1..])
  }

  function Parse(s: Input): (r: P<Location>)
    ensures r.Ok? ==> |r.rest| < |s|
    decreases |s|, 0
  {
    if s == [] then Empty
    else if s[0].Str? then ParsePos(File(s[0].s), s[1..])
    else if s[0].InMem? then ParsePos(InMemory, s[1..])
    else if s[0] == Word("fused") then ParseFused(Skip(s[1..]))
    else if s[0] == Word("name") then ParseNamed(s[1..])
    else if s[0] == Word("callsite") then ParseCallSite(s[1..])
    else if s[0] == Ch('?') then Ok(Unknown, s[1..])
    else Empty
  }

  /** Optional metadata in angle brackets. */
  function ParseMetadata(s: Input): (r: P<Option<nat>>)
    ensures r.Ok? ==> |r.rest| <= |s|
  {
    var open := Take(s, Ch('<'));
    if open.None? then Ok(None, s) else
    var a := Skip(open.value);
    if a == [] || !a[0].Attr? then Commit else
    var close := Take(Skip(a[1..]), Ch('>'));
    if close.None? then Commit else Ok(Some(a[0].a), close.value)
  }

  function ParseFused(s: Input): (r: P<Location>)
    ensures r.Ok? ==> |r.rest| < |s|
    decreases |s|, 3
  {
    var metadata := ParseMetadata(s);
    if !metadata.Ok? then Commit else
    var open := Take(metadata.rest, Ch('['));
    if open.None? then Commit else
    var ls := ParseList(Skip(open.value));
    if !ls.Ok? then Commit else
    var close := Take(Skip(ls.rest), Ch(']'));
    if close.None? then Commit else Ok(Fused(metadata.value, ls.value), close.value)
  }

  /** Locations separated by commas, possibly none. */
  function ParseList(s: Input): (r: P<seq<Location>>)
    ensures r.Ok? ==> |r.rest| <= |s|
    decreases |s|, 2
  {
    match Parse(s)
    case Ok(l, rest) => ParseMore([l], Skip(rest))
    case Empty => Ok([], s)
    case Commit => Commit
  }

  function ParseMore(acc: seq<Location>, s: Input): (r: P<seq<Location>>)
    ensures r.Ok? ==> |r.rest| <= |s|
    decreases |s|, 1
  {
    var comma := Take(s, Ch(','));
    if comma.None? then Ok(acc, s) else
    match Parse(Skip(comma.value))
    case Ok(l, rest) => ParseMore(acc + [l], Skip(rest))
    case _ => Commit
  }

  function ParseNamed(s: Input): (r: P<Location>)
    ensures r.Ok? ==> |r.rest| < |s|
    decreases |s|, 1
  {
    var colon := Spaced(s, Ch(':'));
    if colon.None? || colon.value == [] || !colon.value[0].Str? then Commit else
    var comma := Spaced(colon.value[1..], Ch(','));
    if comma.None? then Commit else
    var loc := Take(comma.value, Word("loc"));
    if loc.None? then Commit else
    var c2 := Spaced(loc.value, Ch(':'));
    if c2.None? then Commit else
    var open := Take(c2.value, Ch('('));
    if open.None? then Commit else
    match Parse(open.value)
    case Ok(child, rest) =>
      var close := Take(rest, Ch(')'));
      if close.None? then Commit else Ok(Named(colon.value[0].s, child), close.value)
    case _ => Commit
  }

  function ParseCallSite(s: Input): (r: P<Location>)
    ensures r.Ok? ==> |r.rest| < |s|
    decreases |s|, 1
  {
    var open := Spaced(s, Ch('('));
    if open.None? then Commit else
    match Parse(open.value)
    case Ok(callee, rest) =>
      var at := Spaced(rest, Word("at"));
      if at.None? then Commit else
      (match Parse(at.value)
       case Ok(caller, rest) =>
         var close := Spaced(rest, Ch(')'));
         if close.None? then Commit else Ok(CallSite(callee, caller), close.value)
       case _ => Commit)
    case _ => Commit
  }

  // ----- the round trip -----

  /** Reading a call site takes the white space behind it too; the other forms leave it alone. */
  function After(l: Location, t: Input): Input {
    if l.CallSite? then Skip(t) else t
  }

  lemma {:induction false} TakeFirst(x: Lex, t: Input)
    ensures Take([x] + t, x) == Some(t)
    ensures !x.Space? ==> Skip([x] + t) == [x] + t && Spaced([x] + t, x) == Some(Skip(t))
    ensures Skip([Space] + t) == Skip(t)
    ensures forall y :: y != x ==> Take([x] + t, y) == None
  {
    assert ([x] + t)[1..] == t && ([Space] + t)[1..] == t;
  }

  lemma {:induction false} PrintStart(l: Location)
    ensures !Print(l)[0].Space? && Print(l)[0] != Ch(']') && Print(l)[0] != Ch(',')
  {
  }

  lemma {:induction false} StartSkip(l: Location, t: Input)
    ensures Skip(Print(l) + t) == Print(l) + t
  {
    PrintStart(l);
  }

  /** Any location, in front of any input. */
  lemma {:induction false} ParsePrint(l: Location, t: Input)
    ensures Parse(Print(l) + t) == Ok(l, After(l, t))
    decreases l
  {
    match l
    case SrcPos(_, _, _) => ParsePrintPos(l, t);
    case Fused(_, _) => ParsePrintFused(l, t);
    case Named(_, _) => ParsePrintNamed(l, t);
    case CallSite(_, _) => ParsePrintCallSite(l, t);
    case Unknown => assert (Print(l) + t)[1..] == t;
  }

  /** Punctuation and a blank in front of something that is no blank. */
  lemma Punctuation(c: char, r: Input)
    requires r != [] && !r[0].Space?
    ensures Spaced([Ch(c)] + ([Space] + r), Ch(c)) == Some(r)
  {
    TakeFirst(Ch(c), [Space] + r);
    TakeFirst(Space, r);
  }

  /** What comes behind the word `column`, behind the line number, and behind the source. */
  function Tail3(l: Location, t: Input): Input
    requires l.SrcPos?
  {
    [Num(l.column)] + t
  }

  function Tail2(l: Location, t: Input): Input
    requires l.SrcPos?
  {
    [Word("column")] + ([Ch(':')] + ([Space] + Tail3(l, t)))
  }

  function Tail1(l: Location, t: Input): Input
    requires l.SrcPos?
  {
    [Num(l.line)] + ([Ch(',')] + ([Space] + Tail2(l, t)))
  }

  lemma {:induction false} PosSplit(l: Location, t: Input)
    requires l.SrcPos?
    ensures Print(l) + t == [PrintSource(l.src)] + ([Ch(':')] + ([Space] + ([Word("line")] + ([Ch(':')] + ([Space] + Tail1(l, t))))))
  {
  }

  lemma {:induction false} ParsePrintPos(l: Location, t: Input)
    requires l.SrcPos?
    ensures Parse(Print(l) + t) == Ok(l, t)
  {
    PosSplit(l, t);
    var r := [Word("line")] + ([Ch(':')] + ([Space] + Tail1(l, t)));
    assert (Print(l) + t)[1..] == [Ch(':')] + ([Space] + r);
    Punctuation(':', r);
    TakeFirst(Word("line"), [Ch(':')] + ([Space] + Tail1(l, t)));
    Punctuation(':', Tail1(l, t));
    assert Tail1(l, t)[1..] == [Ch(',')] + ([Space] + Tail2(l, t));
    ColumnBack(l, t);
  }

  lemma ColumnBack(l: Location, t: Input)
    requires l.SrcPos?
    ensures Spaced([Ch(',')] + ([Space] + Tail2(l, t)), Ch(',')) == Some(Tail2(l, t))
    ensures Take(Tail2(l, t), Word("column")) == Some([Ch(':')] + ([Space] + Tail3(l, t)))
    ensures Spaced([Ch(':')] + ([Space] + Tail3(l, t)), Ch(':')) == Some(Tail3(l, t)) && Tail3(l, t)[1..] == t
  {
    Punctuation(',', Tail2(l, t));
    TakeFirst(Word("column"), [Ch(':')] + ([Space] + Tail3(l, t)));
    Punctuation(':', Tail3(l, t));
  }

  lemma MetadataBack(m: Option<nat>, t: Input)
    requires t != [] && t[0] == Ch('[')
    ensures var s := MetadataLex(m) + t; Skip(s) == s && ParseMetadata(s) == Ok(m, t)
  {
    if m.Some? {
      var s := [Ch('<')] + ([Attr(m.value)] + ([Ch('>')] + t));
      assert [Ch('<'), Attr(m.value), Ch('>')] + t == s;
      TakeFirst(Ch('<'), [Attr(m.value)] + ([Ch('>')] + t));
      TakeFirst(Attr(m.value), [Ch('>')] + t);
      TakeFirst(Ch('>'), t);
      assert ([Attr(m.value)] + ([Ch('>')] + t))[1..] == [Ch('>')] + t;
    } else {
      assert [] + t == t;
    }
  }

  function MetadataLex(m: Option<nat>): Input {
    if m.Some? then [Ch('<'), Attr(m.value), Ch('>')] else []
  }

  lemma {:induction false} FusedSplit(l: Location, t: Input)
    requires l.Fused?
    ensures Print(l) + t == [Word("fused")] + (MetadataLex(l.metadata) + ([Ch('[')] + (PrintList(l.locations) + ([Ch(']')] + t))))
  {
  }

  lemma {:induction false} ParsePrintFused(l: Location, t: Input)
    requires l.Fused?
    ensures Parse(Print(l) + t) == Ok(l, t)
    decreases l, 0
  {
    var end := [Ch(']')] + t;
    var list := PrintList(l.locations) + end;
    var body := [Ch('[')] + list;
    var s := MetadataLex(l.metadata) + body;
    FusedSplit(l, t);
    ParseFusedWord(s);
    MetadataBack(l.metadata, body);
    TakeFirst(Ch('['), list);
    ListBack(l.locations, t);
    TakeFirst(Ch(']'), t);
    FusedParts(s, l.metadata, body, list, l.locations, end, t);
  }

  lemma {:induction false} ParseFusedWord(r: Input)
    ensures Parse([Word("fused")] + r) == ParseFused(Skip(r))
  {
    assert ([Word("fused")] + r)[1..] == r;
  }

  /** A fused location, piece by piece. */
  lemma {:induction false} FusedParts(s: Input, m: Option<nat>, body: Input, list: Input, ls: seq<Location>, end: Input, t: Input)
    requires ParseMetadata(s) == Ok(m, body) && Take(body, Ch('[')) == Some(list) && Skip(list) == list
    requires ParseList(list) == Ok(ls, end) && Skip(end) == end && Take(end, Ch(']')) == Some(t)
    ensures ParseFused(s) == Ok(Fused(m, ls), t)
  {
  }

  lemma NoneBack(t: Input)
    ensures var s := [Ch(']')] + t; Skip(s) == s && ParseList(s) == Ok([], s)
  {
  }

  lemma {:induction false} ListBack(ls: seq<Location>, t: Input)
    ensures var s := PrintList(ls) + ([Ch(']')] + t); Skip(s) == s && ParseList(s) == Ok(ls, [Ch(']')] + t)
    decreases ls, 1
  {
    var end := [Ch(']')] + t;
    TakeFirst(Ch(']'), t);
    if ls == [] {
      assert PrintList(ls) + end == end;
      NoneBack(t);
    } else {
      var more := PrintMore(ls[1..]) + end;
      Associate(Print(ls[0]), PrintMore(ls[1..]), end);
      StartSkip(ls[0], more);
      ParsePrint(ls[0], more);
      MoreBack([ls[0]], ls[1..], t);
      ListStep(ls, Print(ls[0]) + more, After(ls[0], more), more, end);
    }
  }

  lemma {:induction false} MoreBack(acc: seq<Location>, ls: seq<Location>, t: Input)
    ensures var s := PrintMore(ls) + ([Ch(']')] + t); Skip(s) == s && ParseMore(acc, s) == Ok(acc + ls, [Ch(']')] + t)
    decreases ls, 0
  {
    var end := [Ch(']')] + t;
    TakeFirst(Ch(']'), t);
    if ls == [] {
      assert PrintMore(ls) + end == end && acc + ls == acc;
    } else {
      var more := PrintMore(ls[1..]) + end;
      MoreSplit(ls, end);
      CommaBack(ls[0], more);
      ParsePrint(ls[0], more);
      MoreBack(acc + [ls[0]], ls[1..], t);
      MoreStep(acc, ls[0], [Ch(',')] + ([Space] + (Print(ls[0]) + more)), Print(ls[0]) + more, After(ls[0], more), more);
      Regrouped(acc, ls);
    }
  }

  /** The first location of a list, and the others. */
  lemma {:induction false} ListStep(ls: seq<Location>, s: Input, after: Input, more: Input, end: Input)
    requires ls != [] && Parse(s) == Ok(ls[0], after) && Skip(after) == more && ParseMore([ls[0]], more) == Ok([ls[0]] + ls[1..], end)
    ensures ParseList(s) == Ok(ls, end)
  {
    assert [ls[0]] + ls[1..] == ls;
  }

  lemma Regrouped(acc: seq<Location>, ls: seq<Location>)
    requires ls != []
    ensures acc + [ls[0]] + ls[1..] == acc + ls
  {
  }

  lemma {:induction false} CommaBack(l: Location, more: Input)
    ensures var s := [Ch(',')] + ([Space] + (Print(l) + more));
            Skip(s) == s && Take(s, Ch(',')).Some? && Skip(Take(s, Ch(',')).value) == Print(l) + more
  {
    StartSkip(l, more);
    TakeFirst(Ch(','), [Space] + (Print(l) + more));
    TakeFirst(Space, Print(l) + more);
  }

  /** One more location of a list. */
  lemma {:induction false} MoreStep(acc: seq<Location>, l: Location, s: Input, r: Input, after: Input, more: Input)
    requires Take(s, Ch(',')).Some? && Skip(Take(s, Ch(',')).value) == r && Parse(r) == Ok(l, after) && Skip(after) == more
    ensures ParseMore(acc, s) == ParseMore(acc + [l], more)
  {
  }

  lemma {:induction false} MoreSplit(ls: seq<Location>, end: Input)
    requires ls != []
    ensures PrintMore(ls) + end == [Ch(',')] + ([Space] + (Print(ls[0]) + (PrintMore(ls[1..]) + end)))
  {
    Regroup([Ch(','), Space], Print(ls[0]), PrintMore(ls[1..]), end);
    assert forall r: Input :: [Ch(','), Space] + r == [Ch(',')] + ([Space] + r);
  }

  lemma Regroup(a: Input, b: Input, c: Input, d: Input)
    ensures a + b + c + d == a + (b + (c + d))
  {
  }

  /** What comes behind the name, and behind the keyword `loc`. */
  function Paren(l: Location, t: Input): Input {
    [Ch('(')] + (Print(l) + ([Ch(')')] + t))
  }

  function LocTail(l: Location, t: Input): Input {
    [Word("loc")] + ([Ch(':')] + ([Space] + Paren(l, t)))
  }

  lemma {:induction false} NamedSplit(l: Location, t: Input)
    requires l.Named?
    ensures Print(l) + t == [Word("name")] + ([Ch(':')] + ([Space] + ([Str(l.name)] + ([Ch(',')] + ([Space] + LocTail(l.child, t))))))
  {
  }

  lemma {:induction false} ParsePrintNamed(l: Location, t: Input)
    requires l.Named?
    ensures Parse(Print(l) + t) == Ok(l, t)
    decreases l, 0
  {
    NamedSplit(l, t);
    var r := [Str(l.name)] + ([Ch(',')] + ([Space] + LocTail(l.child, t)));
    ParseNamedWord([Ch(':')] + ([Space] + r));
    Punctuation(':', r);
    assert r[1..] == [Ch(',')] + ([Space] + LocTail(l.child, t));
    ParsePrint(l.child, [Ch(')')] + t);
    LocBack(l.child, t);
  }

  lemma {:induction false} ParseNamedWord(r: Input)
    ensures Parse([Word("name")] + r) == ParseNamed(r)
  {
    assert ([Word("name")] + r)[1..] == r;
  }

  lemma {:induction false} LocBack(l: Location, t: Input)
    ensures Spaced([Ch(',')] + ([Space] + LocTail(l, t)), Ch(',')) == Some(LocTail(l, t))
    ensures Take(LocTail(l, t), Word("loc")) == Some([Ch(':')] + ([Space] + Paren(l, t)))
    ensures Spaced([Ch(':')] + ([Space] + Paren(l, t)), Ch(':')) == Some(Paren(l, t))
    ensures Take(Paren(l, t), Ch('(')) == Some(Print(l) + ([Ch(')')] + t)) && Take(After(l, [Ch(')')] + t), Ch(')')) == Some(t)
  {
    Punctuation(',', LocTail(l, t));
    TakeFirst(Word("loc"), [Ch(':')] + ([Space] + Paren(l, t)));
    Punctuation(':', Paren(l, t));
    TakeFirst(Ch('('), Print(l) + ([Ch(')')] + t));
    TakeFirst(Ch(')'), t);
  }

  /** The blank, the keyword `at`, and the caller. */
  function AtTail(l: Location, t: Input): Input {
    [Space] + ([Word("at")] + ([Space] + (Print(l) + ([Ch(')')] + t))))
  }

  lemma {:induction false} CallSiteSplit(l: Location, t: Input)
    requires l.CallSite?
    ensures Print(l) + t == [Word("callsite")] + ([Ch('(')] + (Print(l.callee) + AtTail(l.caller, t)))
  {
  }

  lemma {:induction false} AtBack(l: Location, t: Input)
    ensures var r := Print(l) + ([Ch(')')] + t);
            Spaced(AtTail(l, t), Word("at")) == Some(r) && Spaced(Skip(AtTail(l, t)), Word("at")) == Some(r)
  {
    var r := Print(l) + ([Ch(')')] + t);
    PrintStart(l);
    TakeFirst(Space, [Word("at")] + ([Space] + r));
    TakeFirst(Word("at"), [Space] + r);
    TakeFirst(Space, r);
  }

  lemma {:induction false} ParsePrintCallSite(l: Location, t: Input)
    requires l.CallSite?
    ensures Parse(Print(l) + t) == Ok(l, Skip(t))
    decreases l, 0
  {
    CallSiteSplit(l, t);
    var r := Print(l.callee) + AtTail(l.caller, t);
    ParseKeyword([Ch('(')] + r);
    OpenCallee(l.callee, AtTail(l.caller, t));
    ParsePrint(l.callee, AtTail(l.caller, t));
    AtBack(l.caller, t);
    ParsePrint(l.caller, [Ch(')')] + t);
    CloseBack(l.caller, t);
    CallSiteParts([Ch('(')] + r, r, l.callee, After(l.callee, AtTail(l.caller, t)), Print(l.caller) + ([Ch(')')] + t), l.caller,
                  After(l.caller, [Ch(')')] + t), Skip(t));
  }

  lemma {:induction false} ParseKeyword(r: Input)
    ensures Parse([Word("callsite")] + r) == ParseCallSite(r)
  {
    assert ([Word("callsite")] + r)[1..] == r;
  }

  /** A call site, piece by piece. */
  lemma {:induction false} CallSiteParts(s: Input, a: Input, callee: Location, b: Input, c: Input, caller: Location, d: Input, e: Input)
    requires Spaced(s, Ch('(')) == Some(a) && Parse(a) == Ok(callee, b) && Spaced(b, Word("at")) == Some(c)
    requires Parse(c) == Ok(caller, d) && Spaced(d, Ch(')')) == Some(e)
    ensures ParseCallSite(s) == Ok(CallSite(callee, caller), e)
  {
  }

  lemma {:induction false} OpenCallee(l: Location, r: Input)
    ensures Spaced([Ch('(')] + (Print(l) + r), Ch('(')) == Some(Print(l) + r)
  {
    TakeFirst(Ch('('), Print(l) + r);
    PrintStart(l);
  }

  lemma {:induction false} CloseBack(l: Location, t: Input)
    ensures Spaced(After(l, [Ch(')')] + t), Ch(')')) == Some(Skip(t))
  {
    TakeFirst(Ch(')'), t);
  }

  // ----- sources -----

  /** What the four forms look like: `a: line: 1, column: 2`. */
  lemma PositionText(path: string, line: int, column: int)
    ensures Parse([Str(path), Ch(':'), Space, Word("line"), Ch(':'), Space, Num(line), Ch(','), Space, Word("column"), Ch(':'), Space, Num(column)])
            == Ok(SrcPos(File(path), line, column), [])
  {
    WrittenBack(SrcPos(File(path), line, column));
  }

  lemma CallSiteText(line: int, column: int)
    ensures Parse([Word("callsite"), Ch('(')] + [Ch('?')] + [Space, Word("at"), Space]
                  + [InMem, Ch(':'), Space, Word("line"), Ch(':'), Space, Num(line), Ch(','), Space, Word("column"), Ch(':'), Space, Num(column)] + [Ch(')')])
            == Ok(CallSite(Unknown, SrcPos(InMemory, line, column)), [])
  {
    var caller := SrcPos(InMemory, line, column);
    assert Print(caller) == [InMem, Ch(':'), Space, Word("line"), Ch(':'), Space, Num(line), Ch(','), Space, Word("column"), Ch(':'), Space, Num(column)];
    WrittenBack(CallSite(Unknown, caller));
  }

  /** `name: "n", loc: (?)`. */
  lemma NamedText(name: string)
    ensures Parse([Word("name"), Ch(':'), Space, Str(name), Ch(','), Space, Word("loc"), Ch(':'), Space, Ch('('), Ch('?'), Ch(')')])
            == Ok(Named(name, Unknown), [])
  {
    var l := Named(name, Unknown);
    assert Print(l) == [Word("name"), Ch(':'), Space, Str(name), Ch(','), Space, Word("loc"), Ch(':'), Space, Ch('('), Ch('?'), Ch(')')];
    WrittenBack(l);
  }

  lemma FusedText(m: nat)
    ensures Parse([Word("fused")] + [Ch('<'), Attr(m), Ch('>')] + [Ch('[')] + [Ch('?'), Ch(','), Space, Ch('?')] + [Ch(']')])
            == Ok(Fused(Some(m), [Unknown, Unknown]), [])
  {
    TwoUnknown();
    WrittenBack(Fused(Some(m), [Unknown, Unknown]));
  }

  lemma TwoUnknown()
    ensures PrintList([Unknown, Unknown]) == [Ch('?'), Ch(','), Space, Ch('?')]
  {
    var none: seq<Location> := [];
    assert [Unknown, Unknown][1..] == [Unknown] && [Unknown][1..] == none;
    assert PrintMore(none) == [];
    assert PrintMore([Unknown]) == [Ch(','), Space] + Print(Unknown) + PrintMore(none);
  }

  lemma {:induction false} WrittenBack(l: Location)
    ensures Parse(Print(l)) == Ok(l, [])
  {
    assert Print(l) + [] == Print(l);
    ParsePrint(l, []);
  }

  /** The sources that a location names, from left to right. */
  function Mentioned(l: Location): seq<Source>
    decreases l
  {
    match l
    case SrcPos(src, _, _) => [src]
    case Fused(_, ls) => MentionedAll(ls)
    case Named(_, child) => Mentioned(child)
    case CallSite(callee, caller) => Mentioned(callee) + Mentioned(caller)
    case Unknown => []
  }

  function MentionedAll(ls: seq<Location>): seq<Source>
    decreases ls
  {
    if ls == [] then [] else Mentioned(ls[0]) + MentionedAll(ls[1..])
  }

  /** The sources of a location, each where it is mentioned first. */
  class SourceSet {
    var items: seq<Source>

    constructor ()
      ensures items == []
    {
      items := [];
    }

    method Insert(src: Source)
      modifies this
      ensures items == if src in old(items) then old(items) else old(items) + [src]
    {
      if src !in items { items := items + [src]; }
    }

    method Collect(l: Location, ghost before: seq<Source>)
      requires items == FirstSeen(before)
      modifies this
      ensures items == FirstSeen(before + Mentioned(l))
      decreases l
    {
      match l
      case SrcPos(src, _, _) =>
        assert (before + [src])[..|before|] == before;
        Insert(src);
      case Fused(_, ls) =>
        CollectAll(ls, before);
      case Named(_, child) => Collect(child, before);
      case CallSite(callee, caller) =>
        Collect(callee, before);
        Collect(caller, before + Mentioned(callee));
        Associate(before, Mentioned(callee), Mentioned(caller));
      case Unknown => assert before + [] == before;
    }

    method CollectAll(ls: seq<Location>, ghost before: seq<Source>)
      requires items == FirstSeen(before)
      modifies this
      ensures items == FirstSeen(before + MentionedAll(ls))
      decreases ls
    {
      ghost var all := before;
      assert before + MentionedAll(ls[..0]) == before;
      for i := 0 to |ls|
        invariant all == before + MentionedAll(ls[..i]) && items == FirstSeen(all)
      {
        Collect(ls[i], all);
        MentionedNext(ls, i);
        Associate(before, MentionedAll(ls[..i]), Mentioned(ls[i]));
        all := all + Mentioned(ls[i]);
      }
      assert ls[..|ls|] == ls;
    }
  }

  /** A location is inside itself, and what is inside its parts is inside it. */
  ghost predicate Within(m: Location, l: Location)
    decreases l
  {
    || m == l
    || match l
       case Fused(_, ls) => exists i :: 0 <= i < |ls| && Within(m, ls[i])
       case Named(_, child) => Within(m, child)
       case CallSite(callee, caller) => Within(m, callee) || Within(m, caller)
       case _ => false
  }

  /** A source is mentioned exactly when some position inside the location is in it. */
  lemma {:induction false} MentionedIff(l: Location, s: Source)
    ensures s in Mentioned(l) <==> exists m :: Within(m, l) && m.SrcPos? && m.src == s
    decreases l
  {
    match l
    case SrcPos(_, _, _) => assert Within(l, l);
    case Fused(_, ls) => AllMentionedIff(l, ls, s);
    case Named(_, child) => MentionedIff(child, s);
    case CallSite(callee, caller) =>
      MentionedIff(callee, s);
      MentionedIff(caller, s);
    case Unknown =>
  }

  lemma {:induction false} AllMentionedIff(l: Location, ls: seq<Location>, s: Source)
    requires l.Fused? && l.locations == ls
    ensures s in MentionedAll(ls) <==> exists m :: Within(m, l) && m.SrcPos? && m.src == s
    decreases l, 0
  {
    forall i | 0 <= i < |ls| ensures s in Mentioned(ls[i]) <==> exists m :: Within(m, ls[i]) && m.SrcPos? && m.src == s { MentionedIff(ls[i], s); }
    InAll(ls, s);
    if s in MentionedAll(ls) {
      var i :| 0 <= i < |ls| && s in Mentioned(ls[i]);
      var m :| Within(m, ls[i]) && m.SrcPos? && m.src == s;
      assert Within(m, l);
    }
    if m :| Within(m, l) && m.SrcPos? && m.src == s {
      var i :| 0 <= i < |ls| && Within(m, ls[i]);
      assert s in Mentioned(ls[i]);
    }
  }

  lemma {:induction false} InAll(ls: seq<Location>, s: Source)
    ensures s in MentionedAll(ls) <==> exists i :: 0 <= i < |ls| && s in Mentioned(ls[i])
  {
    if ls != [] {
      InAll(ls[1..], s);
      assert forall i :: 0 < i < |ls| ==> ls[1..][i - 1] == ls[i];
      if s in MentionedAll(ls[1..]) {
        var i :| 0 <= i < |ls[1..]| && s in Mentioned(ls[1..][i]);
        assert s in Mentioned(ls[i + 1]);
      }
    }
  }

  /** What comes earlier in the location is mentioned earlier: a callee before its caller, and a location of a fused one
      before those behind it. */
  lemma {:induction false} MentionedInOrder(callee: Location, caller: Location, metadata: Option<nat>, xs: seq<Location>, ys: seq<Location>)
    ensures Mentioned(callee) <= Mentioned(CallSite(callee, caller))
    ensures Mentioned(Fused(metadata, xs)) <= Mentioned(Fused(metadata, xs + ys))
  {
    AllInOrder(xs, ys);
  }

  lemma {:induction false} AllInOrder(xs: seq<Location>, ys: seq<Location>)
    ensures MentionedAll(xs + ys) == MentionedAll(xs) + MentionedAll(ys)
    decreases |xs|
  {
    if xs == [] {
      assert xs + ys == ys;
    } else {
      AllInOrder(xs[1..], ys);
      assert (xs + ys)[1..] == xs[1..] + ys;
      Associate(Mentioned(xs[0]), MentionedAll(xs[1..]), MentionedAll(ys));
    }
  }

  lemma Associate<T>(a: seq<T>, b: seq<T>, c: seq<T>)
    ensures a + b + c == a + (b + c)
  {
  }

  lemma {:induction false} MentionedNext(ls: seq<Location>, i: nat)
    requires i < |ls|
    ensures MentionedAll(ls[..i + 1]) == MentionedAll(ls[..i]) + Mentioned(ls[i])
    decreases |ls|
  {
    if i == 0 {
      assert ls[..1] == [ls[0]] && ls[..1][1..] == [];
    } else {
      assert ls[..i + 1][1..] == ls[1..][..i] && ls[..i][1..] == ls[1..][..i - 1];
      MentionedNext(ls[1..], i - 1);
    }
  }

  method Sources(l: Location) returns (r: seq<Source>)
    ensures r == FirstSeen(Mentioned(l))
  {
    var set_ := new SourceSet();
    set_.Collect(l, []);
    assert [] + Mentioned(l) == Mentioned(l);
    r := set_.items;
  }

  /** How many different sources there are decides whether there is only one. */
  lemma CountMentioned(all: seq<Source>, vs: seq<Source>)
    requires NoneTwice(all) && forall s :: s in all <==> s in vs
    ensures |all| == 0 ==> vs == []
    ensures |all| == 1 ==> all[0] in vs && forall s :: s in vs ==> s == all[0]
    ensures |all| > 1 ==> all[0] in vs && all[1] in vs && all[0] != all[1]
  {
    if vs != [] { assert vs[0] in all; }
  }

  /** The source, if the location is from exactly one. */
  method OnlySource(l: Location) returns (r: Option<Source>)
    ensures r.Some? ==> r.value in Mentioned(l) && forall s :: s in Mentioned(l) ==> s == r.value
    ensures r.None? ==> Mentioned(l) == [] || exists s, t :: s in Mentioned(l) && t in Mentioned(l) && s != t
  {
    var all := Sources(l);
    FirstSeenSame(Mentioned(l));
    CountMentioned(all, Mentioned(l));
    if |all| == 1 { return Some(all[0]); }
    return None;
  }
}

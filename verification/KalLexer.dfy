/** Lexemes as text: how a text is divided, and programs read from their characters.

    The source has no lexer of its own: its parsers for words and numbers take as many characters as they can, and those
    for punctuation take one. Which characters are letters and white space is left open, but for those of the grammar. */
module KalLexer {
  import opened Options
  import opened Decimals
  import opened KalAst
  import opened KalParser
  import opened KalRoundTrip
  import KalGrammar
  import Legaliser

  /** What counts as a letter, as a letter or digit, and as white space. */
  datatype Classes = Classes(alpha: char -> bool, alnum: char -> bool, space: char -> bool) {
    predicate InWord(c: char) { alnum(c) || c == '_' }

    predicate BeginsWord(c: char) { alpha(c) || c == '_' }

    /** Digits are no letters, and neither white space nor punctuation belongs to a word. */
    ghost predicate Ok() {
      && (forall c: char :: alpha(c) ==> alnum(c))
      && (forall c: char :: IsDigit(c) ==> alnum(c) && !alpha(c))
      && (forall c: char :: space(c) ==> !InWord(c))
      && (forall c: char :: IsPunctuation(c) ==> !InWord(c) && !space(c))
    }

    predicate IsIdent(w: string) {
      w != [] && BeginsWord(w[0]) && forall i :: 1 <= i < |w| ==> InWord(w[i])
    }
  }

  predicate IsPunctuation(c: char) { c in "+-*<>=!(),;{}" }

  /** With ASCII letters only, the words are the identifiers of the IR. */
  lemma AsciiIdentifiers(cs: Classes, w: string)
    requires forall c: char :: (cs.alpha(c) <==> Legaliser.IsLetter(c)) && (cs.alnum(c) <==> Legaliser.IsAlnum(c))
    ensures cs.IsIdent(w) <==> Legaliser.IsIdentifier(w)
  {
  }

  // ----- dividing a text -----

  /** How many characters at the start satisfy `p`. */
  function Run(p: char -> bool, s: string): (n: nat)
    ensures n <= |s| && (forall i :: 0 <= i < n ==> p(s[i])) && (n < |s| ==> !p(s[n]))
  {
    if s == [] || !p(s[0]) then 0 else 1 + Run(p, s[1..])
  }

  function Lexemes(cs: Classes, s: string): Input
    decreases |s|
  {
    if s == [] then []
    else if IsDigit(s[0]) then
      var n := Run(IsDigit, s);
      [Int(Value(s[..n]))] + Lexemes(cs, s[n..])
    else if cs.BeginsWord(s[0]) then
      var n := 1 + Run(cs.InWord, s[1..]);
      [Word(s[..n])] + Lexemes(cs, s[n..])
    else
      [if cs.space(s[0]) then Space else Ch(s[0])] + Lexemes(cs, s[1..])
  }

  /** A way to spell a lexeme: any digits for a number, leading zeros included, and any white space. */
  predicate Spells(cs: Classes, x: Lex, w: string) {
    match x
    case Int(n) => w != [] && (forall i :: 0 <= i < |w| ==> IsDigit(w[i])) && Value(w) == n
    case Word(v) => w == v && cs.IsIdent(v)
    case Ch(c) => w == [c] && !IsDigit(c) && !cs.BeginsWord(c) && !cs.space(c)
    case Space => |w| == 1 && cs.space(w[0])
  }

  function Concat(ws: seq<string>): string {
    if ws == [] then "" else ws[0] + Concat(ws[1..])
  }

  /** The pieces spell the lexemes, and no word or number goes on in the piece behind it. */
  predicate SpelledAs(cs: Classes, s: Input, ws: seq<string>) {
    && |ws| == |s| && (forall i :: 0 <= i < |s| ==> Spells(cs, s[i], ws[i]))
    && forall i :: 0 <= i < |s| - 1 ==> ws[i + 1] != "" ==> !GoesOn(cs, s[i], ws[i + 1][0])
  }

  predicate GoesOn(cs: Classes, x: Lex, c: char) {
    (x.Word? && cs.InWord(c)) || (x.Int? && IsDigit(c))
  }

  lemma {:induction false} RunIs(p: char -> bool, w: string, t: string)
    requires (forall i :: 0 <= i < |w| ==> p(w[i])) && (t == "" || !p(t[0]))
    ensures Run(p, w + t) == |w|
  {
    assert forall i :: 0 <= i < |w| ==> (w + t)[i] == w[i];
    assert t != "" ==> (w + t)[|w|] == t[0];
  }

  /** One lexeme in front of text that does not go on with it. */
  lemma {:induction false} LexemeBack(cs: Classes, x: Lex, w: string, t: string)
    requires cs.Ok() && Spells(cs, x, w) && (t != "" ==> !GoesOn(cs, x, t[0]))
    ensures Lexemes(cs, w + t) == [x] + Lexemes(cs, t)
  {
    var s := w + t;
    assert s[|w|..] == t && s[..|w|] == w;
    match x
    case Int(n) => RunIs(IsDigit, w, t);
    case Word(_) =>
      assert s[1..] == w[1..] + t;
      RunIs(cs.InWord, w[1..], t);
    case _ => assert s[0] == w[0];
  }

  lemma {:induction false} SpelledBack(cs: Classes, s: Input, ws: seq<string>)
    requires cs.Ok() && SpelledAs(cs, s, ws)
    ensures Lexemes(cs, Concat(ws)) == s
  {
    if s != [] {
      assert forall i :: 0 < i < |s| ==> s[1..][i - 1] == s[i] && ws[1..][i - 1] == ws[i];
      SpelledBack(cs, s[1..], ws[1..]);
      if |s| > 1 {
        assert Spells(cs, s[1], ws[1]);
        assert Concat(ws[1..])[0] == ws[1][0];
      }
      LexemeBack(cs, s[0], ws[0], Concat(ws[1..]));
    }
  }

  /** The first lexeme, and how many characters spell it. */
  lemma FirstPiece(cs: Classes, t: string) returns (n: nat)
    requires cs.Ok() && t != []
    ensures 0 < n <= |t| && Lexemes(cs, t) != []
    ensures var x := Lexemes(cs, t)[0];
            Lexemes(cs, t) == [x] + Lexemes(cs, t[n..]) && Spells(cs, x, t[..n]) && (n < |t| ==> !GoesOn(cs, x, t[n]))
  {
    if IsDigit(t[0]) {
      n := Run(IsDigit, t);
    } else if cs.BeginsWord(t[0]) {
      n := 1 + Run(cs.InWord, t[1..]);
    } else {
      n := 1;
    }
  }

  lemma SpelledThen(cs: Classes, x: Lex, w: string, s: Input, ws: seq<string>)
    requires Spells(cs, x, w) && SpelledAs(cs, s, ws) && (ws != [] && ws[0] != "" ==> !GoesOn(cs, x, ws[0][0]))
    ensures SpelledAs(cs, [x] + s, [w] + ws)
  {
  }

  lemma {:induction false} FirstOf(cs: Classes, s: Input, ws: seq<string>)
    requires SpelledAs(cs, s, ws)
    ensures ws != [] ==> ws[0] != "" && Concat(ws) != "" && Concat(ws)[0] == ws[0][0]
  {
    if ws != [] { assert Spells(cs, s[0], ws[0]); }
  }

  lemma {:induction false} ConcatThen(w: string, ws: seq<string>)
    ensures Concat([w] + ws) == w + Concat(ws)
  {
    assert ([w] + ws)[1..] == ws;
  }

  /** The pieces that a text is divided into. */
  lemma {:induction false} Divided(cs: Classes, t: string) returns (ws: seq<string>)
    requires cs.Ok()
    ensures Concat(ws) == t && SpelledAs(cs, Lexemes(cs, t), ws)
    decreases |t|
  {
    if t == [] { return []; }
    var n := FirstPiece(cs, t);
    var more := Divided(cs, t[n..]);
    FirstOf(cs, Lexemes(cs, t[n..]), more);
    SpelledThen(cs, Lexemes(cs, t)[0], t[..n], Lexemes(cs, t[n..]), more);
    ws := [t[..n]] + more;
    ConcatThen(t[..n], more);
    assert t == t[..n] + t[n..];
  }

  /** A text is read as exactly those lexemes that its pieces spell. */
  lemma {:induction false} LexemesIff(cs: Classes, t: string, s: Input)
    requires cs.Ok()
    ensures Lexemes(cs, t) == s <==> exists ws :: Concat(ws) == t && SpelledAs(cs, s, ws)
  {
    if Lexemes(cs, t) == s {
      var ws := Divided(cs, t);
    }
    if ws :| Concat(ws) == t && SpelledAs(cs, s, ws) {
      SpelledBack(cs, s, ws);
    }
  }

  // ----- what is written can be told apart -----

  predicate Wordy(x: Lex) { x.Word? || x.Int? }

  /** No word or number is right behind another, and all single characters are punctuation. */
  predicate Separated(s: Input) {
    && (forall i :: 0 <= i < |s| - 1 ==> !(Wordy(s[i]) && Wordy(s[i + 1])))
    && (forall i :: 0 <= i < |s| ==> s[i].Ch? ==> IsPunctuation(s[i].c))
  }

  /** Pieces may be put together where a word or number does not meet another. */
  lemma Joined(a: Input, b: Input)
    requires Separated(a) && Separated(b)
    requires a == [] || b == [] || !Wordy(a[|a| - 1]) || !Wordy(b[0])
    ensures Separated(a + b)
  {
    var s := a + b;
    forall i | 0 <= i < |s| - 1 ensures !(Wordy(s[i]) && Wordy(s[i + 1])) {
      if i < |a| - 1 { assert s[i] == a[i] && s[i + 1] == a[i + 1]; }
    }
  }

  /** Separated, and ending in something that anything may follow. */
  predicate Closed(s: Input) {
    Separated(s) && (s != [] ==> !Wordy(s[|s| - 1]))
  }

  lemma ClosedThen(a: Input, b: Input)
    requires Closed(a)
    ensures Separated(b) ==> Separated(a + b)
    ensures Closed(b) ==> Closed(a + b)
  {
    if Separated(b) { Joined(a, b); }
  }

  /** A piece with a closed one behind it that does not begin with a word or number. */
  lemma ThenPunctuation(a: Input, b: Input)
    requires Separated(a) && Closed(b) && b != [] && !Wordy(b[0])
    ensures Closed(a + b)
  {
    Joined(a, b);
  }

  lemma {:induction false} BlankClosed(n: nat)
    ensures Closed(Blank(n))
  {
  }

  lemma TkClosed(c: char, gap: nat)
    requires IsPunctuation(c)
    ensures Closed(Tk(Ch(c), gap)) && !Wordy(Tk(Ch(c), gap)[0])
  {
    BlankClosed(gap);
    ClosedThen([Ch(c)], Blank(gap));
  }

  lemma TkSeparated(x: Lex, gap: nat)
    requires Wordy(x)
    ensures Separated(Tk(x, gap)) && (gap > 0 ==> Closed(Tk(x, gap)))
  {
    BlankClosed(gap);
    Joined([x], Blank(gap));
  }

  lemma {:induction false} JoinSeparated(l: Input, op: BinOp, gap: nat, r: Input)
    requires Separated(l) && Separated(r)
    ensures Separated(l + (OpLex(op) + Blank(gap)) + r)
  {
    BlankClosed(gap);
    ClosedThen(OpLex(op), Blank(gap));
    ThenPunctuation(l, OpLex(op) + Blank(gap));
    ClosedThen(l + (OpLex(op) + Blank(gap)), r);
  }

  lemma {:induction false} TreeSeparated(e: Tree)
    ensures Separated(Flat(e))
    decreases e
  {
    match e
    case Num(n, gap) => TkSeparated(Int(n), gap);
    case Name(x, gap) => TkSeparated(Word(x), gap);
    case Paren(open, inner, close) =>
      TreeSeparated(inner);
      TkClosed('(', open);
      TkClosed(')', close);
      Enclosed(Tk(Ch('('), open), Flat(inner), Tk(Ch(')'), close));
    case Apply(f, gap, open, args, close) =>
      ArgsSeparated(args);
      TkClosed('(', open);
      TkClosed(')', close);
      TkSeparated(Word(f), gap);
      ThenPunctuation(Tk(Word(f), gap), Tk(Ch('('), open));
      Enclosed(Tk(Word(f), gap) + Tk(Ch('('), open), FlatArgs(args), Tk(Ch(')'), close));
    case Join(op, l, gap, r) =>
      TreeSeparated(l);
      TreeSeparated(r);
      JoinSeparated(Flat(l), op, gap, Flat(r));
  }

  lemma Enclosed(a: Input, e: Input, b: Input)
    requires Closed(a) && Separated(e) && Closed(b) && b != [] && !Wordy(b[0])
    ensures Closed(a + e + b)
  {
    ClosedThen(a, e);
    ThenPunctuation(a + e, b);
  }

  lemma {:induction false} ArgsSeparated(args: seq<Arg>)
    ensures Separated(FlatArgs(args))
    decreases args
  {
    if args != [] {
      assert args[0].tree < args[0];
      TreeSeparated(args[0].tree);
      MoreArgsSeparated(args[1..]);
      Joined(Flat(args[0].tree), FlatMore(args[1..]));
    }
  }

  lemma {:induction false} MoreArgsSeparated(args: seq<Arg>)
    ensures Separated(FlatMore(args)) && (args != [] ==> FlatMore(args)[0] == Ch(','))
    decreases args
  {
    if args != [] {
      assert args[0].tree < args[0];
      TreeSeparated(args[0].tree);
      MoreArgsSeparated(args[1..]);
      TkClosed(',', args[0].gap);
      ClosedThen(Tk(Ch(','), args[0].gap), Flat(args[0].tree));
      Joined(Tk(Ch(','), args[0].gap) + Flat(args[0].tree), FlatMore(args[1..]));
    }
  }

  /** There is white space behind every keyword that something other than a brace comes behind. */
  predicate Spaced(s: Line)
    decreases s
  {
    match s
    case VarLine(gap, _, _, _, _) => gap > 0
    case ReturnLine(gap, e, _) => gap > 0 || !Wordy(Flat(e)[0])
    case WhileLine(gap, c, body) => (gap > 0 || !Wordy(Flat(c)[0])) && BracesSpaced(body)
    case IfLine(gap, c, thn, _, els) => (gap > 0 || !Wordy(Flat(c)[0])) && BracesSpaced(thn) && BracesSpaced(els)
    case _ => true
  }

  predicate BracesSpaced(b: Braces)
    decreases b
  {
    AllSpaced(b.lines)
  }

  predicate AllSpaced(ss: seq<Line>)
    decreases ss
  {
    forall i :: 0 <= i < |ss| ==> Spaced(ss[i])
  }

  /** A keyword, an expression and what comes behind it. */
  lemma {:induction false} KeywordSeparated(kw: string, gap: nat, e: Tree, b: Input)
    requires (gap > 0 || !Wordy(Flat(e)[0])) && Closed(b) && b != [] && !Wordy(b[0])
    ensures Closed(Tk(Word(kw), gap) + Flat(e) + b)
  {
    TreeSeparated(e);
    TkSeparated(Word(kw), gap);
    Joined(Tk(Word(kw), gap), Flat(e));
    ThenPunctuation(Tk(Word(kw), gap) + Flat(e), b);
  }

  /** `= e ;` */
  lemma {:induction false} ValueSeparated(gap: nat, e: Tree, end: nat)
    ensures var s := Tk(Ch('='), gap) + Flat(e) + Tk(Ch(';'), end); Closed(s) && !Wordy(s[0])
  {
    TreeSeparated(e);
    TkClosed('=', gap);
    TkClosed(';', end);
    Enclosed(Tk(Ch('='), gap), Flat(e), Tk(Ch(';'), end));
  }

  lemma {:induction false} LineSeparated(s: Line)
    requires Spaced(s)
    ensures Closed(FlatLine(s))
    decreases s, 1
  {
    match s
    case VarLine(_, _, _, _, _) => VarSeparated(s);
    case AssignLine(x, xgap, gap, e, end) =>
      ValueSeparated(gap, e, end);
      TkSeparated(Word(x), xgap);
      ThenPunctuation(Tk(Word(x), xgap), Tk(Ch('='), gap) + Flat(e) + Tk(Ch(';'), end));
    case ReturnLine(gap, e, end) =>
      TkClosed(';', end);
      KeywordSeparated("return", gap, e, Tk(Ch(';'), end));
    case WhileLine(gap, c, body) =>
      BracesSeparated(body);
      KeywordSeparated("while", gap, c, FlatBraces(body));
    case IfLine(_, _, _, _, _) => IfSeparated(s);
    case ExprLine(e, end) =>
      TreeSeparated(e);
      TkClosed(';', end);
      ThenPunctuation(Flat(e), Tk(Ch(';'), end));
  }

  lemma {:induction false} VarSeparated(s: Line)
    requires s.VarLine? && Spaced(s)
    ensures Closed(FlatLine(s))
  {
    TkClosed(';', s.end);
    if s.init.Some? { ValueSeparated(s.init.value.gap, s.init.value.tree, s.end); }
    TkSeparated(Word("var"), s.gap);
    TkSeparated(Word(s.x), s.xgap);
    ClosedThen(Tk(Word("var"), s.gap), Tk(Word(s.x), s.xgap));
    ThenPunctuation(Tk(Word("var"), s.gap) + Tk(Word(s.x), s.xgap), VarTail(s));
  }

  lemma {:induction false} IfSeparated(s: Line)
    requires s.IfLine? && Spaced(s)
    ensures Closed(FlatLine(s))
    decreases s, 0
  {
    BracesSeparated(s.thn);
    BracesSeparated(s.els);
    KeywordSeparated("if", s.gap, s.cond, FlatBraces(s.thn));
    TkSeparated(Word("else"), s.elseGap);
    ThenPunctuation(Tk(Word("else"), s.elseGap), FlatBraces(s.els));
    ClosedThen(Tk(Word("if"), s.gap) + Flat(s.cond) + FlatBraces(s.thn), Tk(Word("else"), s.elseGap) + FlatBraces(s.els));
  }

  lemma {:induction false} BracesSeparated(b: Braces)
    requires BracesSpaced(b)
    ensures Closed(FlatBraces(b))
    decreases b, 2
  {
    LinesSeparated(b.lines);
    TkClosed('{', b.open);
    TkClosed('}', b.close);
    ClosedThen(Tk(Ch('{'), b.open), FlatLines(b.lines));
    ClosedThen(Tk(Ch('{'), b.open) + FlatLines(b.lines), Tk(Ch('}'), b.close));
  }

  lemma {:induction false} LinesSeparated(ss: seq<Line>)
    requires AllSpaced(ss)
    ensures Closed(FlatLines(ss))
    decreases ss
  {
    if ss != [] {
      LineSeparated(ss[0]);
      LinesSeparated(ss[1..]);
      ClosedThen(FlatLine(ss[0]), FlatLines(ss[1..]));
    }
  }

  lemma {:induction false} MoreParamsSeparated(ps: seq<Param>)
    ensures Separated(FlatMoreParams(ps)) && (ps != [] ==> FlatMoreParams(ps)[0] == Ch(','))
  {
    if ps != [] {
      MoreParamsSeparated(ps[1..]);
      TkClosed(',', ps[0].comma);
      TkSeparated(Word(ps[0].name), ps[0].gap);
      ClosedThen(Tk(Ch(','), ps[0].comma), Tk(Word(ps[0].name), ps[0].gap));
      Joined(Tk(Ch(','), ps[0].comma) + Tk(Word(ps[0].name), ps[0].gap), FlatMoreParams(ps[1..]));
    }
  }

  lemma ParamsSeparated(ps: seq<Param>)
    ensures Separated(FlatParams(ps))
  {
    if ps != [] {
      MoreParamsSeparated(ps[1..]);
      TkSeparated(Word(ps[0].name), ps[0].gap);
      Joined(Tk(Word(ps[0].name), ps[0].gap), FlatMoreParams(ps[1..]));
    }
  }

  predicate DefsSpaced(ds: seq<Def>) {
    forall i :: 0 <= i < |ds| ==> ds[i].gap > 0 && BracesSpaced(ds[i].body)
  }

  lemma DefSeparated(d: Def)
    requires d.gap > 0 && BracesSpaced(d.body)
    ensures Closed(FlatDef(d))
  {
    var def, name := Tk(Word("def"), d.gap), Tk(Word(d.name), d.ngap);
    var params := Tk(Ch('('), d.open) + FlatParams(d.params) + Tk(Ch(')'), d.close);
    ParamsSeparated(d.params);
    TkClosed('(', d.open);
    TkClosed(')', d.close);
    Enclosed(Tk(Ch('('), d.open), FlatParams(d.params), Tk(Ch(')'), d.close));
    TkSeparated(Word("def"), d.gap);
    TkSeparated(Word(d.name), d.ngap);
    ClosedThen(def, name);
    ThenPunctuation(def + name, params);
    BracesSeparated(d.body);
    ClosedThen(def + name + params, FlatBraces(d.body));
  }

  lemma {:induction false} DefsSeparated(ds: seq<Def>)
    requires DefsSpaced(ds)
    ensures Closed(FlatDefs(ds))
  {
    if ds != [] {
      DefSeparated(ds[0]);
      DefsSeparated(ds[1..]);
      ClosedThen(FlatDef(ds[0]), FlatDefs(ds[1..]));
    }
  }

  /** A program with white space behind its keywords, where something other than a brace or parenthesis comes behind them, never
      has a word or number right behind another. */
  lemma TextSeparated(p: KalRoundTrip.Text)
    requires DefsSpaced(p.defs)
    ensures Closed(FlatText(p))
  {
    BlankClosed(p.lead);
    DefsSeparated(p.defs);
    ClosedThen(Blank(p.lead), FlatDefs(p.defs));
  }

  // ----- programs from characters -----

  /** What is separated can be spelled in any way. */
  lemma SeparatedSpelled(cs: Classes, s: Input, ws: seq<string>)
    requires cs.Ok() && Separated(s) && |ws| == |s| && forall i :: 0 <= i < |s| ==> Spells(cs, s[i], ws[i])
    ensures SpelledAs(cs, s, ws)
  {
    forall i | 0 <= i < |s| - 1 && ws[i + 1] != "" ensures !GoesOn(cs, s[i], ws[i + 1][0]) {
      assert Spells(cs, s[i + 1], ws[i + 1]) && !(Wordy(s[i]) && Wordy(s[i + 1]));
      assert s[i + 1].Ch? ==> IsPunctuation(s[i + 1].c);
    }
  }

  /** From any text of a program, with any white space, any redundant parentheses and leading zeros, none where none is needed,
      the parser gives the program back exactly when its statements begin with words of their own. */
  lemma {:induction false} ProgramTextBack(cs: Classes, p: KalRoundTrip.Text, ws: seq<string>)
    requires cs.Ok() && FormedDefs(p.defs) && DefsSpaced(p.defs)
    requires |ws| == |FlatText(p)| && forall i :: 0 <= i < |ws| ==> Spells(cs, FlatText(p)[i], ws[i])
    ensures ParseProgram(Lexemes(cs, Concat(ws))) == Ok(DefsMeaning(p.defs), []) <==> DefsWorded(p.defs)
  {
    TextSeparated(p);
    SeparatedSpelled(cs, FlatText(p), ws);
    SpelledBack(cs, FlatText(p), ws);
    TextBackIff(p);
  }

  /** A text is read as a program exactly when its pieces spell a way to write that program. */
  lemma {:induction false} TextAcceptedIff(cs: Classes, t: string, ds: seq<Definition>)
    requires cs.Ok()
    ensures ParseProgram(Lexemes(cs, t)) == Ok(ds, []) <==>
            exists p: KalRoundTrip.Text, ws :: Writes(p, ds) && SpelledAs(cs, FlatText(p), ws) && Concat(ws) == t
  {
    KalGrammar.AcceptedIff(Lexemes(cs, t), ds);
    if ParseProgram(Lexemes(cs, t)) == Ok(ds, []) {
      var ws := Divided(cs, t);
    }
    if p: KalRoundTrip.Text, ws :| Writes(p, ds) && SpelledAs(cs, FlatText(p), ws) && Concat(ws) == t {
      SpelledBack(cs, FlatText(p), ws);
    }
  }
}

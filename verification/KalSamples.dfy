/** Two of the programs of `KalExamples` as they are written, without white space where none is needed. */
module KalSamples {
  import opened KalAst
  import opened KalParser
  import opened KalRoundTrip
  import opened Options
  import opened KalArith
  import KalExamples

  // ----- their lexemes -----

  const GiveNLexemes: Input := [Word("return"), Space, Word("n"), Ch(';')]
  const SumLexemes: Input :=
    [Word("fib"), Ch('('), Word("n"), Ch('-'), Int(1), Ch(')'), Ch('+'), Word("fib"), Ch('('), Word("n"), Ch('-'), Int(2), Ch(')')]
  const ChoiceLexemes: Input :=
    [Word("if"), Space] + [Word("n"), Ch('<'), Int(2)] + ([Ch('{')] + GiveNLexemes + [Ch('}')])
    + ([Word("else")] + ([Ch('{')] + ([Word("return"), Space] + SumLexemes + [Ch(';')]) + [Ch('}')]))
  const FibLexemes: Input := [Word("def"), Space, Word("fib"), Ch('('), Word("n"), Ch(')')] + ([Ch('{')] + ChoiceLexemes + [Ch('}')])

  const InitLexemes: Input := [Word("var"), Space, Word("r"), Ch('='), Int(1), Ch(';')]
  const TimesLexemes: Input := [Word("r"), Ch('='), Word("r"), Ch('*'), Word("n"), Ch(';')]
  const DownLexemes: Input := [Word("n"), Ch('='), Word("n"), Ch('-'), Int(1), Ch(';')]
  const LoopLexemes: Input := [Word("while"), Space] + [Word("n"), Ch('>'), Int(0)] + ([Ch('{')] + (TimesLexemes + DownLexemes) + [Ch('}')])
  const GiveRLexemes: Input := [Word("return"), Space, Word("r"), Ch(';')]
  const FactLexemes: Input :=
    [Word("def"), Space, Word("fact"), Ch('('), Word("n"), Ch(')')] + ([Ch('{')] + (InitLexemes + (LoopLexemes + GiveRLexemes)) + [Ch('}')])

  // ----- their trees -----

  const N := Name("n", 0)
  const R := Name("r", 0)

  function Down(k: nat): Tree { Join(Sub, N, 0, Num(k, 0)) }
  function Again(k: nat): Tree { Apply("fib", 0, 0, [Arg(0, Down(k))], 0) }

  const Smaller := Join(Lt, N, 0, Num(2, 0))
  const Sum := Join(Add, Again(1), 0, Again(2))
  const GiveN := ReturnLine(1, N, 0)
  const GiveSum := ReturnLine(1, Sum, 0)
  const Choice := IfLine(1, Smaller, Braces(0, [GiveN], 0), 0, Braces(0, [GiveSum], 0))

  const Init := VarLine(1, "r", 0, Some(Arg(0, Num(1, 0))), 0)
  const TimesLine := AssignLine("r", 0, 0, Join(Mul, R, 0, N), 0)
  const DownLine := AssignLine("n", 0, 0, Down(1), 0)
  const Loop := WhileLine(1, Join(Gt, N, 0, Num(0, 0)), Braces(0, [TimesLine, DownLine], 0))
  const GiveR := ReturnLine(1, R, 0)

  // ----- they are read -----

  lemma LinesNone()
    ensures FormedLines([]) && AllWellWorded([]) && LinesMeaning([]) == [] && FlatLines([]) == []
  {
  }

  /** Statements, one in front of others. */
  lemma {:induction false} LinesMore(s: Line, ss: seq<Line>)
    requires FormedLine(s) && WellWorded(s) && FormedLines(ss) && AllWellWorded(ss)
    ensures var all := [s] + ss;
            && FormedLines(all) && AllWellWorded(all) && LinesMeaning(all) == [LineMeaning(s)] + LinesMeaning(ss)
            && FlatLines(all) == FlatLine(s) + FlatLines(ss)
  {
    assert ([s] + ss)[1..] == ss;
  }

  lemma {:induction false} InBraces(ss: seq<Line>)
    ensures var b := Braces(0, ss, 0);
            && (FormedLines(ss) ==> FormedBraces(b) && BracesMeaning(b) == LinesMeaning(ss)) && (AllWellWorded(ss) ==> BracesWorded(b))
            && FlatBraces(b) == [Ch('{')] + FlatLines(ss) + [Ch('}')]
  {
    assert Tk(Ch('{'), 0) == [Ch('{')] && Tk(Ch('}'), 0) == [Ch('}')];
  }

  lemma {:induction false} OneLine(s: Line)
    requires FormedLine(s) && WellWorded(s)
    ensures var b := Braces(0, [s], 0);
            && FormedBraces(b) && BracesWorded(b) && BracesMeaning(b) == [LineMeaning(s)] && FlatBraces(b) == [Ch('{')] + FlatLine(s) + [Ch('}')]
  {
    LinesNone();
    LinesMore(s, []);
    InBraces([s]);
    assert [s] + [] == [s];
  }

  /** One function with one parameter. */
  lemma {:induction false} OneDef(f: string, x: string, b: Braces)
    requires FormedBraces(b) && BracesWorded(b)
    ensures ParseProgram([Word("def"), Space, Word(f), Ch('('), Word(x), Ch(')')] + FlatBraces(b)) == Ok([Definition(f, Function([x], BracesMeaning(b)))], [])
  {
    var d := Def(1, f, 0, 0, [Param(0, x, 0)], 0, b);
    OneFlat(f, x, b);
    OneText(d);
    TextBackIff(Text(0, [d]));
  }

  lemma {:induction false} OneFlat(f: string, x: string, b: Braces)
    ensures var d := Def(1, f, 0, 0, [Param(0, x, 0)], 0, b);
            ParamNames(d.params) == [x] && FlatDef(d) == [Word("def"), Space, Word(f), Ch('('), Word(x), Ch(')')] + FlatBraces(b)
  {
    var d := Def(1, f, 0, 0, [Param(0, x, 0)], 0, b);
    assert FlatParams(d.params) == [Word(x)] && ParamNames(d.params) == [x];
    assert FlatDef(d) == [Word("def"), Space] + [Word(f)] + ([Ch('(')] + [Word(x)] + [Ch(')')]) + FlatBraces(b);
  }

  lemma {:induction false} OneText(d: Def)
    requires FormedBraces(d.body)
    ensures FormedDefs([d]) && DefsMeaning([d]) == [DefMeaning(d)] && FlatText(Text(0, [d])) == FlatDef(d)
  {
    assert [d][1..] == [];
    assert FlatDefs([d]) == FlatDef(d);
    assert Blank(0) + FlatDef(d) == FlatDef(d);
  }

  lemma AgainIs(k: nat)
    requires k <= 2
    ensures var e := Again(k);
            && Formed(e) && Meaning(e) == Call("fib", [Binary(Sub, Variable("n"), Integer(k))])
            && Flat(e) == [Word("fib"), Ch('('), Word("n"), Ch('-'), Int(k), Ch(')')]
  {
    assert Flat(Down(k)) == [Word("n"), Ch('-'), Int(k)];
  }

  lemma SumIs()
    ensures Formed(Sum) && Meaning(Sum) == KalExamples.Sum && Flat(Sum) == SumLexemes
  {
    AgainIs(1);
    AgainIs(2);
    assert Flat(Sum) == Flat(Again(1)) + [Ch('+')] + Flat(Again(2));
  }

  lemma GivesAre()
    ensures FormedLine(GiveN) && WellWorded(GiveN) && LineMeaning(GiveN) == Return(Variable("n")) && FlatLine(GiveN) == GiveNLexemes
    ensures FormedLine(GiveSum) && WellWorded(GiveSum) && LineMeaning(GiveSum) == Return(KalExamples.Sum)
    ensures FlatLine(GiveSum) == [Word("return"), Space] + SumLexemes + [Ch(';')]
  {
    SumIs();
    assert Tk(Word("return"), 1) == [Word("return"), Space];
  }

  lemma ChoiceIs()
    ensures FormedLine(Choice) && WellWorded(Choice) && LineMeaning(Choice) == If(KalExamples.Small, [Return(Variable("n"))], [Return(KalExamples.Sum)])
    ensures FlatLine(Choice) == ChoiceLexemes
  {
    GivesAre();
    OneLine(GiveN);
    OneLine(GiveSum);
    ChoiceFlat();
  }

  lemma ChoiceFlat()
    ensures var thn, els := FlatBraces(Choice.thn), FlatBraces(Choice.els);
            FlatLine(Choice) == [Word("if"), Space] + [Word("n"), Ch('<'), Int(2)] + thn + ([Word("else")] + els)
  {
    assert Flat(Smaller) == [Word("n"), Ch('<'), Int(2)];
    assert Tk(Word("if"), 1) == [Word("if"), Space] && Tk(Word("else"), 0) == [Word("else")];
  }

  /** The text of `fib` is read as `fib`. */
  lemma FibRead()
    ensures ParseProgram(FibLexemes) == Ok([Definition("fib", KalExamples.Fib)], [])
  {
    ChoiceIs();
    OneLine(Choice);
    OneDef("fib", "n", Braces(0, [Choice], 0));
  }

  lemma InitIs()
    ensures FormedLine(Init) && WellWorded(Init) && LineMeaning(Init) == VarDecl("r", Some(Integer(1))) && FlatLine(Init) == InitLexemes
    ensures FormedLine(GiveR) && WellWorded(GiveR) && LineMeaning(GiveR) == Return(Variable("r")) && FlatLine(GiveR) == GiveRLexemes
  {
  }

  lemma AssignsAre()
    ensures var ss := [TimesLine, DownLine];
            FormedLines(ss) && AllWellWorded(ss) && LinesMeaning(ss) == [Assign("r", KalExamples.Times), Assign("n", KalExamples.Down)]
            && FlatLines(ss) == TimesLexemes + DownLexemes
  {
    assert FlatLine(TimesLine) == TimesLexemes && FlatLine(DownLine) == DownLexemes;
    LinesNone();
    LinesMore(DownLine, []);
    LinesMore(TimesLine, [DownLine]);
    assert [DownLine] + [] == [DownLine] && [TimesLine] + [DownLine] == [TimesLine, DownLine];
  }

  lemma LoopIs()
    ensures FormedLine(Loop) && WellWorded(Loop) && FlatLine(Loop) == LoopLexemes
    ensures LineMeaning(Loop) == While(KalExamples.More, [Assign("r", KalExamples.Times), Assign("n", KalExamples.Down)])
  {
    AssignsAre();
    InBraces([TimesLine, DownLine]);
    assert Tk(Word("while"), 1) == [Word("while"), Space];
    assert Flat(Loop.cond) == [Word("n"), Ch('>'), Int(0)];
  }

  lemma FactLines()
    ensures var ss := [Init, Loop, GiveR];
            FormedLines(ss) && AllWellWorded(ss) && LinesMeaning(ss) == KalExamples.Fact.body && FlatLines(ss) == InitLexemes + (LoopLexemes + GiveRLexemes)
  {
    InitIs();
    LoopIs();
    LinesNone();
    LinesMore(GiveR, []);
    assert [GiveR] + [] == [GiveR] && FlatLines([GiveR]) == GiveRLexemes;
    LinesMore(Loop, [GiveR]);
    assert [Loop] + [GiveR] == [Loop, GiveR];
    LinesMore(Init, [Loop, GiveR]);
    assert [Init] + [Loop, GiveR] == [Init, Loop, GiveR];
  }

  /** The text of `fact` is read as `fact`. */
  lemma FactRead()
    ensures ParseProgram(FactLexemes) == Ok([Definition("fact", KalExamples.Fact)], [])
  {
    FactLines();
    InBraces([Init, Loop, GiveR]);
    OneDef("fact", "n", Braces(0, [Init, Loop, GiveR], 0));
  }
}

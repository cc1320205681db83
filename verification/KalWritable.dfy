/** Which programs there is a text for, and how operators next to each other are read. */
module KalWritable {
  import opened Options
  import opened KalArith
  import opened KalAst
  import opened KalParser
  import opened KalRoundTrip
  import opened Decimals
  import opened KalLexer
  import KalGrammar

  // ----- programs that can be written -----

  /** Literals have no sign. */
  predicate Literals(e: Expr)
    decreases e
  {
    match e
    case Integer(n) => n >= 0
    case Variable(_) => true
    case Binary(_, l, r) => Literals(l) && Literals(r)
    case Call(_, args) => forall i :: 0 <= i < |args| ==> Literals(args[i])
  }

  /** Nothing is assigned to a name that begins a statement of its own. */
  predicate Writable(s: KalAst.Stmt)
    decreases s
  {
    match s
    case VarDecl(_, init) => init.Some? ==> Literals(init.value)
    case Assign(x, e) => !IsStatementWord(x) && Literals(e)
    case Return(e) => Literals(e)
    case While(c, body) => Literals(c) && AllWritable(body)
    case If(c, thn, els) => Literals(c) && AllWritable(thn) && AllWritable(els)
    case ExprStmt(e) => Literals(e)
  }

  predicate AllWritable(ss: seq<KalAst.Stmt>)
    decreases ss
  {
    forall i :: 0 <= i < |ss| ==> Writable(ss[i])
  }

  predicate ProgramWritable(ds: seq<Definition>) {
    forall i :: 0 <= i < |ds| ==> AllWritable(ds[i].function_.body)
  }

  // ----- a way to write each of them -----

  function Within(t: Tree, level: nat): Tree {
    if Level(t) <= level then t else Paren(0, t, 0)
  }

  /** With the parentheses that are needed. */
  function Written(e: Expr): Tree
    requires Literals(e)
    decreases e
  {
    match e
    case Integer(n) => Num(n, 0)
    case Variable(x) => Name(x, 0)
    case Binary(op, l, r) =>
      Join(op, Within(Written(l), if OpLevel(op) == 1 then 1 else 2), 0, Within(Written(r), if OpLevel(op) == 3 then 2 else OpLevel(op) - 1))
    case Call(f, args) => Apply(f, 0, 0, WrittenArgs(args), 0)
  }

  function WrittenArgs(args: seq<Expr>): seq<Arg>
    requires forall i :: 0 <= i < |args| ==> Literals(args[i])
    decreases args
  {
    if args == [] then [] else [Arg(0, Written(args[0]))] + WrittenArgs(args[1..])
  }

  lemma {:induction false} WrittenMeans(e: Expr)
    requires Literals(e)
    ensures Formed(Written(e)) && Meaning(Written(e)) == e
    decreases e
  {
    match e
    case Binary(_, l, r) =>
      WrittenMeans(l);
      WrittenMeans(r);
    case Call(_, args) => ArgsMean(args);
    case _ =>
  }

  lemma {:induction false} ArgsMean(args: seq<Expr>)
    requires forall i :: 0 <= i < |args| ==> Literals(args[i])
    ensures var ts := WrittenArgs(args); (forall i :: 0 <= i < |ts| ==> Formed(ts[i].tree)) && Meanings(ts) == args
    decreases args
  {
    if args != [] {
      WrittenMeans(args[0]);
      ArgsMean(args[1..]);
      assert WrittenArgs(args)[1..] == WrittenArgs(args[1..]);
    }
  }

  /** An expression statement goes in parentheses, so that its first word does not matter. */
  function WrittenLine(s: KalAst.Stmt): Line
    requires Writable(s)
    decreases s
  {
    match s
    case VarDecl(x, init) => VarLine(1, x, 0, if init.Some? then Some(Arg(0, Written(init.value))) else None, 0)
    case Assign(x, e) => AssignLine(x, 0, 0, Written(e), 0)
    case Return(e) => ReturnLine(1, Written(e), 0)
    case While(c, body) => WhileLine(1, Written(c), Braces(0, WrittenLines(body), 0))
    case If(c, thn, els) => IfLine(1, Written(c), Braces(0, WrittenLines(thn), 0), 0, Braces(0, WrittenLines(els), 0))
    case ExprStmt(e) => ExprLine(Paren(0, Written(e), 0), 0)
  }

  function WrittenLines(ss: seq<KalAst.Stmt>): seq<Line>
    requires AllWritable(ss)
    decreases ss
  {
    if ss == [] then [] else [WrittenLine(ss[0])] + WrittenLines(ss[1..])
  }

  lemma {:induction false} LineMeans(s: KalAst.Stmt)
    requires Writable(s)
    ensures var l := WrittenLine(s); FormedLine(l) && WellWorded(l) && Spaced(l) && LineMeaning(l) == s
    decreases s, 1
  {
    match s
    case VarDecl(_, init) => if init.Some? { WrittenMeans(init.value); }
    case Assign(_, e) => WrittenMeans(e);
    case Return(e) => WrittenMeans(e);
    case While(c, body) =>
      WrittenMeans(c);
      LinesMean(body);
    case If(c, thn, els) =>
      WrittenMeans(c);
      LinesMean(thn);
      LinesMean(els);
    case ExprStmt(e) => WrittenMeans(e);
  }

  lemma {:induction false} LinesMean(ss: seq<KalAst.Stmt>)
    requires AllWritable(ss)
    ensures var ls := WrittenLines(ss); FormedLines(ls) && AllWellWorded(ls) && AllSpaced(ls) && LinesMeaning(ls) == ss
    decreases ss, 0
  {
    if ss != [] {
      LineMeans(ss[0]);
      LinesMean(ss[1..]);
      assert WrittenLines(ss)[1..] == WrittenLines(ss[1..]);
    }
  }

  function WrittenParams(ps: seq<string>): seq<Param> {
    if ps == [] then [] else [Param(0, ps[0], 0)] + WrittenParams(ps[1..])
  }

  lemma {:induction false} ParamsMean(ps: seq<string>)
    ensures ParamNames(WrittenParams(ps)) == ps
  {
    if ps != [] {
      ParamsMean(ps[1..]);
      assert WrittenParams(ps)[1..] == WrittenParams(ps[1..]);
    }
  }

  function WrittenDefs(ds: seq<Definition>): seq<Def>
    requires ProgramWritable(ds)
  {
    if ds == [] then [] else
    [Def(1, ds[0].name, 0, 0, WrittenParams(ds[0].function_.params), 0, Braces(0, WrittenLines(ds[0].function_.body), 0))] + WrittenDefs(ds[1..])
  }

  lemma {:induction false} DefsMean(ds: seq<Definition>)
    requires ProgramWritable(ds)
    ensures var ts := WrittenDefs(ds); FormedDefs(ts) && DefsWorded(ts) && DefsSpaced(ts) && DefsMeaning(ts) == ds
  {
    if ds != [] {
      ParamsMean(ds[0].function_.params);
      LinesMean(ds[0].function_.body);
      DefsMean(ds[1..]);
      assert WrittenDefs(ds)[1..] == WrittenDefs(ds[1..]);
    }
  }

  // ----- nothing else can -----

  lemma {:induction false} MeaningLiterals(t: Tree)
    requires Formed(t)
    ensures Literals(Meaning(t))
    decreases t
  {
    match t
    case Paren(_, inner, _) => MeaningLiterals(inner);
    case Join(_, l, _, r) =>
      MeaningLiterals(l);
      MeaningLiterals(r);
    case Apply(_, _, _, args, _) => MeaningsLiterals(args);
    case _ =>
  }

  lemma {:induction false} MeaningsLiterals(args: seq<Arg>)
    requires forall i :: 0 <= i < |args| ==> Formed(args[i].tree)
    ensures forall i :: 0 <= i < |Meanings(args)| ==> Literals(Meanings(args)[i])
    decreases args
  {
    if args != [] {
      assert args[0].tree < args[0];
      MeaningLiterals(args[0].tree);
      MeaningsLiterals(args[1..]);
    }
  }

  lemma {:induction false} LineWritable(s: Line)
    requires FormedLine(s) && WellWorded(s)
    ensures Writable(LineMeaning(s))
    decreases s, 1
  {
    match s
    case VarLine(_, _, _, init, _) => if init.Some? { MeaningLiterals(init.value.tree); }
    case AssignLine(_, _, _, e, _) => MeaningLiterals(e);
    case ReturnLine(_, e, _) => MeaningLiterals(e);
    case WhileLine(_, c, body) =>
      MeaningLiterals(c);
      LinesWritable(body.lines);
    case IfLine(_, c, thn, _, els) =>
      MeaningLiterals(c);
      LinesWritable(thn.lines);
      LinesWritable(els.lines);
    case ExprLine(e, _) => MeaningLiterals(e);
  }

  lemma {:induction false} LinesWritable(ss: seq<Line>)
    requires FormedLines(ss) && AllWellWorded(ss)
    ensures AllWritable(LinesMeaning(ss))
    decreases ss, 0
  {
    if ss != [] {
      LineWritable(ss[0]);
      LinesWritable(ss[1..]);
    }
  }

  lemma {:induction false} DefsWritable(ds: seq<Def>)
    requires FormedDefs(ds) && DefsWorded(ds)
    ensures ProgramWritable(DefsMeaning(ds))
  {
    if ds != [] {
      LinesWritable(ds[0].body.lines);
      DefsWritable(ds[1..]);
    }
  }

  /** The parser can give exactly the programs without negative literals and without assignments to names that begin a
      statement. */
  lemma ReadableIff(ds: seq<Definition>)
    ensures (exists s :: ParseProgram(s) == Ok(ds, [])) <==> ProgramWritable(ds)
  {
    if s :| ParseProgram(s) == Ok(ds, []) {
      KalGrammar.AcceptedIff(s, ds);
      var p: KalRoundTrip.Text :| Writes(p, ds) && FlatText(p) == s;
      DefsWritable(p.defs);
    }
    if ProgramWritable(ds) {
      DefsMean(ds);
      var p := Text(0, WrittenDefs(ds));
      TextBackIff(p);
      assert ParseProgram(FlatText(p)) == Ok(ds, []);
    }
  }

  // ----- names -----

  predicate NamesOk(ok: string -> bool, e: Expr)
    decreases e
  {
    match e
    case Integer(_) => true
    case Variable(x) => ok(x)
    case Binary(_, l, r) => NamesOk(ok, l) && NamesOk(ok, r)
    case Call(f, args) => ok(f) && ArgsOk(ok, args)
  }

  predicate ArgsOk(ok: string -> bool, es: seq<Expr>)
    decreases es
  {
    forall i :: 0 <= i < |es| ==> NamesOk(ok, es[i])
  }

  predicate Each(ok: string -> bool, xs: seq<string>) {
    forall i :: 0 <= i < |xs| ==> ok(xs[i])
  }

  predicate StmtNamesOk(ok: string -> bool, s: KalAst.Stmt)
    decreases s
  {
    match s
    case VarDecl(x, init) => ok(x) && (init.Some? ==> NamesOk(ok, init.value))
    case Assign(x, e) => ok(x) && NamesOk(ok, e)
    case Return(e) => NamesOk(ok, e)
    case While(c, body) => NamesOk(ok, c) && AllNamesOk(ok, body)
    case If(c, thn, els) => NamesOk(ok, c) && AllNamesOk(ok, thn) && AllNamesOk(ok, els)
    case ExprStmt(e) => NamesOk(ok, e)
  }

  predicate AllNamesOk(ok: string -> bool, ss: seq<KalAst.Stmt>)
    decreases ss
  {
    forall i :: 0 <= i < |ss| ==> StmtNamesOk(ok, ss[i])
  }

  predicate DefNamesOk(ok: string -> bool, d: Definition) {
    ok(d.name) && Each(ok, d.function_.params) && AllNamesOk(ok, d.function_.body)
  }

  predicate ProgramNamesOk(ok: string -> bool, ds: seq<Definition>) {
    forall i :: 0 <= i < |ds| ==> DefNamesOk(ok, ds[i])
  }

  predicate WordsOk(ok: string -> bool, s: Input) {
    forall i :: 0 <= i < |s| ==> s[i].Word? ==> ok(s[i].w)
  }

  lemma WordsIn(ok: string -> bool, a: Input, b: Input)
    ensures WordsOk(ok, a + b) <==> WordsOk(ok, a) && WordsOk(ok, b)
  {
    assert forall i :: 0 <= i < |a| ==> (a + b)[i] == a[i];
    assert forall i :: 0 <= i < |b| ==> (a + b)[|a| + i] == b[i];
  }

  lemma WordsIn3(ok: string -> bool, a: Input, b: Input, c: Input)
    ensures WordsOk(ok, a + b + c) <==> WordsOk(ok, a) && WordsOk(ok, b) && WordsOk(ok, c)
  {
    WordsIn(ok, a, b);
    WordsIn(ok, a + b, c);
  }

  lemma WordsTk(ok: string -> bool, x: Lex, gap: nat)
    ensures WordsOk(ok, Tk(x, gap)) <==> (x.Word? ==> ok(x.w))
  {
    WordsIn(ok, [x], Blank(gap));
  }

  lemma {:induction false} TreeNames(ok: string -> bool, t: Tree)
    requires Formed(t)
    ensures WordsOk(ok, Flat(t)) <==> NamesOk(ok, Meaning(t))
    decreases t
  {
    match t
    case Num(n, gap) => WordsTk(ok, Int(n), gap);
    case Name(x, gap) => WordsTk(ok, Word(x), gap);
    case Paren(open, inner, close) =>
      TreeNames(ok, inner);
      WordsTk(ok, Ch('('), open);
      WordsTk(ok, Ch(')'), close);
      WordsIn3(ok, Tk(Ch('('), open), Flat(inner), Tk(Ch(')'), close));
    case Apply(f, gap, open, args, close) =>
      ArgNames(ok, args);
      CallNames(ok, f, gap, open, FlatArgs(args), close);
    case Join(op, l, gap, r) =>
      TreeNames(ok, l);
      TreeNames(ok, r);
      WordsIn(ok, OpLex(op), Blank(gap));
      WordsIn3(ok, Flat(l), OpLex(op) + Blank(gap), Flat(r));
  }

  lemma CallNames(ok: string -> bool, f: string, gap: nat, open: nat, args: Input, close: nat)
    ensures WordsOk(ok, Tk(Word(f), gap) + Tk(Ch('('), open) + args + Tk(Ch(')'), close)) <==> ok(f) && WordsOk(ok, args)
  {
    WordsTk(ok, Word(f), gap);
    WordsTk(ok, Ch('('), open);
    WordsTk(ok, Ch(')'), close);
    WordsIn3(ok, Tk(Word(f), gap), Tk(Ch('('), open), args);
    WordsIn(ok, Tk(Word(f), gap) + Tk(Ch('('), open) + args, Tk(Ch(')'), close));
  }

  lemma {:induction false} ArgNames(ok: string -> bool, args: seq<Arg>)
    requires forall i :: 0 <= i < |args| ==> Formed(args[i].tree)
    ensures WordsOk(ok, FlatArgs(args)) <==> ArgsOk(ok, Meanings(args))
    decreases args, 1
  {
    if args != [] {
      assert args[0].tree < args[0];
      TreeNames(ok, args[0].tree);
      MoreArgNames(ok, args[1..]);
      WordsIn(ok, Flat(args[0].tree), FlatMore(args[1..]));
      FirstAndMore(ok, Meaning(args[0].tree), Meanings(args[1..]));
    }
  }

  lemma {:induction false} FirstAndMore(ok: string -> bool, e: Expr, more: seq<Expr>)
    ensures ArgsOk(ok, [e] + more) <==> NamesOk(ok, e) && ArgsOk(ok, more)
  {
    var es := [e] + more;
    assert es[0] == e && forall i :: 0 <= i < |more| ==> more[i] == es[i + 1];
  }

  lemma {:induction false} MoreArgNames(ok: string -> bool, args: seq<Arg>)
    requires forall i :: 0 <= i < |args| ==> Formed(args[i].tree)
    ensures WordsOk(ok, FlatMore(args)) <==> ArgsOk(ok, Meanings(args))
    decreases args
  {
    if args != [] {
      assert args[0].tree < args[0];
      TreeNames(ok, args[0].tree);
      MoreArgNames(ok, args[1..]);
      WordsTk(ok, Ch(','), args[0].gap);
      WordsIn3(ok, Tk(Ch(','), args[0].gap), Flat(args[0].tree), FlatMore(args[1..]));
      FirstAndMore(ok, Meaning(args[0].tree), Meanings(args[1..]));
    }
  }

  predicate KeywordsOk(ok: string -> bool) {
    ok("def") && ok("var") && ok("return") && ok("while") && ok("if") && ok("else")
  }

  lemma {:induction false} LineNames(ok: string -> bool, s: Line)
    requires FormedLine(s) && KeywordsOk(ok)
    ensures WordsOk(ok, FlatLine(s)) <==> StmtNamesOk(ok, LineMeaning(s))
    decreases s, 1
  {
    match s
    case VarLine(_, _, _, _, _) => VarNames(ok, s);
    case AssignLine(x, xgap, gap, e, end) =>
      ValueNames(ok, gap, e, end);
      WordsTk(ok, Word(x), xgap);
      WordsIn(ok, Tk(Word(x), xgap), Tk(Ch('='), gap) + Flat(e) + Tk(Ch(';'), end));
    case ReturnLine(gap, e, end) =>
      WordsTk(ok, Ch(';'), end);
      KeywordNames(ok, "return", gap, e, Tk(Ch(';'), end));
    case WhileLine(gap, c, body) =>
      BracesNames(ok, body);
      KeywordNames(ok, "while", gap, c, FlatBraces(body));
    case IfLine(_, _, _, _, _) => IfNames(ok, s);
    case ExprLine(e, end) =>
      TreeNames(ok, e);
      WordsTk(ok, Ch(';'), end);
      WordsIn(ok, Flat(e), Tk(Ch(';'), end));
  }

  lemma {:induction false} KeywordNames(ok: string -> bool, kw: string, gap: nat, e: Tree, b: Input)
    requires Formed(e) && ok(kw)
    ensures WordsOk(ok, Tk(Word(kw), gap) + Flat(e) + b) <==> NamesOk(ok, Meaning(e)) && WordsOk(ok, b)
  {
    TreeNames(ok, e);
    WordsTk(ok, Word(kw), gap);
    WordsIn3(ok, Tk(Word(kw), gap), Flat(e), b);
  }

  lemma {:induction false} ValueNames(ok: string -> bool, gap: nat, e: Tree, end: nat)
    requires Formed(e)
    ensures WordsOk(ok, Tk(Ch('='), gap) + Flat(e) + Tk(Ch(';'), end)) <==> NamesOk(ok, Meaning(e))
  {
    TreeNames(ok, e);
    WordsTk(ok, Ch('='), gap);
    WordsTk(ok, Ch(';'), end);
    WordsIn3(ok, Tk(Ch('='), gap), Flat(e), Tk(Ch(';'), end));
  }

  lemma {:induction false} VarNames(ok: string -> bool, s: Line)
    requires s.VarLine? && FormedLine(s) && KeywordsOk(ok)
    ensures WordsOk(ok, FlatLine(s)) <==> StmtNamesOk(ok, LineMeaning(s))
  {
    if s.init.Some? { ValueNames(ok, s.init.value.gap, s.init.value.tree, s.end); }
    WordsTk(ok, Word("var"), s.gap);
    WordsTk(ok, Word(s.x), s.xgap);
    WordsTk(ok, Ch(';'), s.end);
    WordsIn3(ok, Tk(Word("var"), s.gap), Tk(Word(s.x), s.xgap), VarTail(s));
  }

  lemma {:induction false} IfNames(ok: string -> bool, s: Line)
    requires s.IfLine? && FormedLine(s) && KeywordsOk(ok)
    ensures WordsOk(ok, FlatLine(s)) <==> StmtNamesOk(ok, LineMeaning(s))
    decreases s, 0
  {
    BracesNames(ok, s.thn);
    BracesNames(ok, s.els);
    WordsTk(ok, Word("else"), s.elseGap);
    KeywordNames(ok, "if", s.gap, s.cond, FlatBraces(s.thn));
    WordsIn(ok, Tk(Word("else"), s.elseGap), FlatBraces(s.els));
    WordsIn(ok, Tk(Word("if"), s.gap) + Flat(s.cond) + FlatBraces(s.thn), Tk(Word("else"), s.elseGap) + FlatBraces(s.els));
  }

  lemma {:induction false} BracesNames(ok: string -> bool, b: Braces)
    requires FormedBraces(b) && KeywordsOk(ok)
    ensures WordsOk(ok, FlatBraces(b)) <==> AllNamesOk(ok, BracesMeaning(b))
    decreases b, 2
  {
    LinesNames(ok, b.lines);
    WordsTk(ok, Ch('{'), b.open);
    WordsTk(ok, Ch('}'), b.close);
    WordsIn3(ok, Tk(Ch('{'), b.open), FlatLines(b.lines), Tk(Ch('}'), b.close));
  }

  lemma {:induction false} LinesNames(ok: string -> bool, ss: seq<Line>)
    requires FormedLines(ss) && KeywordsOk(ok)
    ensures WordsOk(ok, FlatLines(ss)) <==> AllNamesOk(ok, LinesMeaning(ss))
    decreases ss
  {
    if ss != [] {
      LineNames(ok, ss[0]);
      LinesNames(ok, ss[1..]);
      WordsIn(ok, FlatLine(ss[0]), FlatLines(ss[1..]));
      FirstAndMoreStmts(ok, LineMeaning(ss[0]), LinesMeaning(ss[1..]));
    }
  }

  lemma {:induction false} FirstAndMoreStmts(ok: string -> bool, s: KalAst.Stmt, more: seq<KalAst.Stmt>)
    ensures AllNamesOk(ok, [s] + more) <==> StmtNamesOk(ok, s) && AllNamesOk(ok, more)
  {
    var ss := [s] + more;
    assert ss[0] == s && forall i :: 0 <= i < |more| ==> more[i] == ss[i + 1];
  }

  lemma FirstAndMoreDefs(ok: string -> bool, d: Definition, more: seq<Definition>)
    ensures ProgramNamesOk(ok, [d] + more) <==> DefNamesOk(ok, d) && ProgramNamesOk(ok, more)
  {
    var ds := [d] + more;
    assert ds[0] == d && forall i :: 0 <= i < |more| ==> more[i] == ds[i + 1];
  }

  lemma {:induction false} MoreParamNames(ok: string -> bool, ps: seq<Param>)
    ensures WordsOk(ok, FlatMoreParams(ps)) <==> Each(ok, ParamNames(ps))
  {
    if ps != [] {
      MoreParamNames(ok, ps[1..]);
      WordsTk(ok, Ch(','), ps[0].comma);
      WordsTk(ok, Word(ps[0].name), ps[0].gap);
      WordsIn3(ok, Tk(Ch(','), ps[0].comma), Tk(Word(ps[0].name), ps[0].gap), FlatMoreParams(ps[1..]));
      FirstAndMoreNames(ok, ps[0].name, ParamNames(ps[1..]));
    }
  }

  lemma FirstAndMoreNames(ok: string -> bool, x: string, more: seq<string>)
    ensures Each(ok, [x] + more) <==> ok(x) && Each(ok, more)
  {
    var xs := [x] + more;
    assert xs[0] == x && forall i :: 0 <= i < |more| ==> more[i] == xs[i + 1];
  }

  lemma {:induction false} ParamsNames(ok: string -> bool, ps: seq<Param>)
    ensures WordsOk(ok, FlatParams(ps)) <==> Each(ok, ParamNames(ps))
  {
    if ps != [] {
      MoreParamNames(ok, ps[1..]);
      WordsTk(ok, Word(ps[0].name), ps[0].gap);
      WordsIn(ok, Tk(Word(ps[0].name), ps[0].gap), FlatMoreParams(ps[1..]));
      FirstAndMoreNames(ok, ps[0].name, ParamNames(ps[1..]));
    }
  }

  lemma DefNames(ok: string -> bool, d: Def)
    requires FormedBraces(d.body) && KeywordsOk(ok)
    ensures WordsOk(ok, FlatDef(d)) <==> DefNamesOk(ok, DefMeaning(d))
  {
    var def, name, open, ps, close := Tk(Word("def"), d.gap), Tk(Word(d.name), d.ngap), Tk(Ch('('), d.open), FlatParams(d.params), Tk(Ch(')'), d.close);
    ParamsNames(ok, d.params);
    BracesNames(ok, d.body);
    WordsTk(ok, Word("def"), d.gap);
    WordsTk(ok, Word(d.name), d.ngap);
    WordsTk(ok, Ch('('), d.open);
    WordsTk(ok, Ch(')'), d.close);
    WordsIn3(ok, open, ps, close);
    WordsIn3(ok, def, name, open + ps + close);
    WordsIn(ok, def + name + (open + ps + close), FlatBraces(d.body));
  }

  lemma {:induction false} DefsNames(ok: string -> bool, ds: seq<Def>)
    requires FormedDefs(ds) && KeywordsOk(ok)
    ensures WordsOk(ok, FlatDefs(ds)) <==> ProgramNamesOk(ok, DefsMeaning(ds))
  {
    if ds != [] {
      DefNames(ok, ds[0]);
      DefsNames(ok, ds[1..]);
      WordsIn(ok, FlatDef(ds[0]), FlatDefs(ds[1..]));
      FirstAndMoreDefs(ok, DefMeaning(ds[0]), DefsMeaning(ds[1..]));
    }
  }

  /** The words of a text are its keywords and the names of the program. */
  lemma TextNames(ok: string -> bool, p: KalRoundTrip.Text)
    requires FormedDefs(p.defs) && KeywordsOk(ok)
    ensures WordsOk(ok, FlatText(p)) <==> ProgramNamesOk(ok, DefsMeaning(p.defs))
  {
    DefsNames(ok, p.defs);
    WordsIn(ok, Blank(p.lead), FlatDefs(p.defs));
  }

  // ----- texts -----

  function Spelling(x: Lex): string {
    match x
    case Int(n) => Decimal(n)
    case Word(w) => w
    case Ch(c) => [c]
    case Space => " "
  }

  function Spellings(s: Input): (r: seq<string>)
    ensures |r| == |s| && forall i :: 0 <= i < |s| ==> r[i] == Spelling(s[i])
  {
    if s == [] then [] else [Spelling(s[0])] + Spellings(s[1..])
  }

  lemma Spelled(cs: Classes, s: Input)
    requires cs.Ok() && cs.space(' ') && Separated(s) && WordsOk(cs.IsIdent, s)
    ensures forall i :: 0 <= i < |s| ==> Spells(cs, s[i], Spelling(s[i]))
  {
    forall i | 0 <= i < |s| ensures Spells(cs, s[i], Spelling(s[i])) {
      if s[i].Int? { DecimalValue(s[i].n); }
    }
  }

  lemma TextFound(cs: Classes, ds: seq<Definition>) returns (t: string)
    requires cs.Ok() && cs.space(' ') && KeywordsOk(cs.IsIdent) && ProgramWritable(ds) && ProgramNamesOk(cs.IsIdent, ds)
    ensures ParseProgram(Lexemes(cs, t)) == Ok(ds, [])
  {
    DefsMean(ds);
    var p := Text(0, WrittenDefs(ds));
    TextNames(cs.IsIdent, p);
    TextSeparated(p);
    Spelled(cs, FlatText(p));
    ProgramTextBack(cs, p, Spellings(FlatText(p)));
    t := Concat(Spellings(FlatText(p)));
  }

  lemma TextHasNames(cs: Classes, p: KalRoundTrip.Text, ws: seq<string>)
    requires FormedDefs(p.defs) && SpelledAs(cs, FlatText(p), ws) && KeywordsOk(cs.IsIdent)
    ensures ProgramNamesOk(cs.IsIdent, DefsMeaning(p.defs))
  {
    assert forall i :: 0 <= i < |FlatText(p)| ==> Spells(cs, FlatText(p)[i], ws[i]);
    TextNames(cs.IsIdent, p);
  }

  /** There is a text for a program exactly when all its names are identifiers, its literals have no sign, and nothing is
      assigned to a name that begins a statement. */
  lemma {:induction false} TextExistsIff(cs: Classes, ds: seq<Definition>)
    requires cs.Ok() && cs.space(' ') && KeywordsOk(cs.IsIdent)
    ensures (exists t :: ParseProgram(Lexemes(cs, t)) == Ok(ds, [])) <==> ProgramWritable(ds) && ProgramNamesOk(cs.IsIdent, ds)
  {
    if t :| ParseProgram(Lexemes(cs, t)) == Ok(ds, []) {
      ReadableIff(ds);
      TextAcceptedIff(cs, t, ds);
      var p: KalRoundTrip.Text, ws :| Writes(p, ds) && SpelledAs(cs, FlatText(p), ws) && Concat(ws) == t;
      TextHasNames(cs, p, ws);
    }
    if ProgramWritable(ds) && ProgramNamesOk(cs.IsIdent, ds) {
      var t := TextFound(cs, ds);
    }
  }

  // ----- operators next to each other -----

  predicate IsComparison(op: BinOp) { op in {Lt, Gt, Le, Ge, Eq, Ne} }

  /** Two operators that bind equally are read from left to right, and so is one that binds tighter in front. */
  lemma {:induction false} LeftFirst(a: Tree, op: BinOp, gap: nat, b: Tree, op2: BinOp, gap2: nat, c: Tree, t: Input)
    requires Formed(a) && Formed(b) && Formed(c) && Level(a) == 0 && Level(b) == 0 && Level(c) == 0 && AfterCmp(t)
    requires op.Mul? || (op in {Add, Sub} && op2 != Mul)
    ensures CmpExpr(Flat(a) + (OpLex(op) + Blank(gap)) + Flat(b) + (OpLex(op2) + Blank(gap2)) + Flat(c) + t)
            == Ok(Binary(op2, Binary(op, Meaning(a), Meaning(b)), Meaning(c)), Skip(t))
  {
    JoinFlat(op, a, gap, b);
    JoinFlat(op2, Join(op, a, gap, b), gap2, c);
    CmpBack(Join(op2, Join(op, a, gap, b), gap2, c), t);
  }

  /** One that binds tighter behind another is read first. */
  lemma {:induction false} RightFirst(a: Tree, op: BinOp, gap: nat, b: Tree, op2: BinOp, gap2: nat, c: Tree, t: Input)
    requires Formed(a) && Formed(b) && Formed(c) && Level(a) == 0 && Level(b) == 0 && Level(c) == 0 && AfterCmp(t)
    requires (op != Mul && op2.Mul?) || (IsComparison(op) && op2 in {Add, Sub})
    ensures CmpExpr(Flat(a) + (OpLex(op) + Blank(gap)) + (Flat(b) + (OpLex(op2) + Blank(gap2)) + Flat(c)) + t)
            == Ok(Binary(op, Meaning(a), Binary(op2, Meaning(b), Meaning(c))), Skip(t))
  {
    JoinFlat(op2, b, gap2, c);
    JoinFlat(op, a, gap, Join(op2, b, gap2, c));
    CmpBack(Join(op, a, gap, Join(op2, b, gap2, c)), t);
  }

  lemma {:induction false} JoinFlat(op: BinOp, l: Tree, gap: nat, r: Tree)
    requires Formed(l) && Formed(r) && Level(l) <= (if OpLevel(op) == 1 then 1 else 2) && Level(r) <= (if OpLevel(op) == 3 then 2 else OpLevel(op) - 1)
    ensures var e := Join(op, l, gap, r);
            Flat(e) == Flat(l) + (OpLex(op) + Blank(gap)) + Flat(r) && Formed(e) && Meaning(e) == Binary(op, Meaning(l), Meaning(r)) && Level(e) == OpLevel(op)
  {
  }

  /** Behind a comparison a second one is left over. */
  lemma {:induction false} SecondComparison(a: Tree, op: BinOp, gap: nat, b: Tree, op2: BinOp, gap2: nat, c: Tree, t: Input)
    requires Formed(a) && Formed(b) && Level(a) <= 2 && Level(b) <= 2 && IsComparison(op) && IsComparison(op2)
    ensures var rest := (OpLex(op2) + Blank(gap2)) + (Flat(c) + t);
            CmpExpr(Flat(a) + ((OpLex(op) + Blank(gap)) + (Flat(b) + rest))) == Ok(Binary(op, Meaning(a), Meaning(b)), rest)
  {
    var rest := (OpLex(op2) + Blank(gap2)) + (Flat(c) + t);
    var tail := Flat(b) + rest;
    Start(c);
    StartSkip(c, t);
    CmpOpLex(op2, gap2, Flat(c) + t);
    Compared(a, op, gap, b, rest);
  }

  lemma {:induction false} Compared(a: Tree, op: BinOp, gap: nat, b: Tree, rest: Input)
    requires Formed(a) && Formed(b) && Level(a) <= 2 && Level(b) <= 2 && IsComparison(op) && AfterAdd(rest) && Skip(rest) == rest
    ensures CmpExpr(Flat(a) + ((OpLex(op) + Blank(gap)) + (Flat(b) + rest))) == Ok(Binary(op, Meaning(a), Meaning(b)), rest)
  {
    var tail := Flat(b) + rest;
    Start(b);
    StartSkip(b, rest);
    CmpOpLex(op, gap, tail);
    AddBack(a, (OpLex(op) + Blank(gap)) + tail);
    assert AddLoop(Meaning(a), (OpLex(op) + Blank(gap)) + tail) == Ok(Meaning(a), (OpLex(op) + Blank(gap)) + tail);
    AddBack(b, rest);
    assert AddLoop(Meaning(b), rest) == Ok(Meaning(b), rest);
  }
}

/** What can be written, and what the parser reads: every way to write a program, with any white space and any redundant
    parentheses, is read as that program, and nothing else is read. */
module KalRoundTrip {
  import opened Options
  import opened KalArith
  import opened KalAst
  import opened KalParser

  // ----- expressions as they are written -----

  /** An expression with its parentheses, and the white space behind each of its lexemes. */
  datatype Tree =
    | Num(n: nat, gap: nat)
    | Name(x: string, gap: nat)
    | Paren(open: nat, inner: Tree, close: nat)
    | Apply(f: string, gap: nat, open: nat, args: seq<Arg>, close: nat)
    | Join(op: BinOp, lhs: Tree, gap: nat, rhs: Tree)

  /** An argument, and the white space behind the comma in front of it; there is none in front of the first. */
  datatype Arg = Arg(gap: nat, tree: Tree)

  /** 0 for what stands anywhere, 1 for products, 2 for sums, 3 for comparisons. */
  function Level(t: Tree): (r: nat)
    ensures r <= 3
  {
    if t.Join? then OpLevel(t.op) else 0
  }

  function OpLevel(op: BinOp): (r: nat)
    ensures 1 <= r <= 3
  {
    match op
    case Mul => 1
    case Add => 2
    case Sub => 2
    case _ => 3
  }

  /** Products bind tighter than sums, and sums tighter than comparisons; products and sums go on to the right, and
      comparisons do not. Numbers fit. */
  predicate Formed(t: Tree)
    decreases t
  {
    match t
    case Num(n, _) => n <= 0x7fff_ffff_ffff_ffff
    case Name(_, _) => true
    case Paren(_, inner, _) => Formed(inner)
    case Apply(_, _, _, args, _) => forall i :: 0 <= i < |args| ==> Formed(args[i].tree)
    case Join(op, l, _, r) =>
      && Formed(l) && Formed(r)
      && Level(l) <= (if OpLevel(op) == 1 then 1 else 2) && Level(r) <= (if OpLevel(op) == 3 then 2 else OpLevel(op) - 1)
  }

  function Meaning(t: Tree): Expr
    requires Formed(t)
    decreases t
  {
    match t
    case Num(n, _) => Integer(n)
    case Name(x, _) => Variable(x)
    case Paren(_, inner, _) => Meaning(inner)
    case Apply(f, _, _, args, _) => Call(f, Meanings(args))
    case Join(op, l, _, r) => Binary(op, Meaning(l), Meaning(r))
  }

  function Meanings(args: seq<Arg>): seq<Expr>
    requires forall i :: 0 <= i < |args| ==> Formed(args[i].tree)
    decreases args
  {
    if args == [] then [] else
    assert args[0].tree < args[0];
    [Meaning(args[0].tree)] + Meanings(args[1..])
  }

  function Blank(n: nat): (r: Input)
    ensures |r| == n && forall i :: 0 <= i < n ==> r[i] == Space
  {
    if n == 0 then [] else [Space] + Blank(n - 1)
  }

  /** A lexeme and the white space behind it. */
  function Tk(x: Lex, gap: nat): (r: Input)
    ensures r != [] && r[0] == x
  {
    [x] + Blank(gap)
  }

  function OpLex(op: BinOp): (r: Input)
    ensures 1 <= |r| <= 2
  {
    match op
    case Add => [Ch('+')]
    case Sub => [Ch('-')]
    case Mul => [Ch('*')]
    case Lt => [Ch('<')]
    case Gt => [Ch('>')]
    case Le => [Ch('<'), Ch('=')]
    case Ge => [Ch('>'), Ch('=')]
    case Eq => [Ch('='), Ch('=')]
    case Ne => [Ch('!'), Ch('=')]
  }

  function Flat(t: Tree): (r: Input)
    ensures r != []
    decreases t
  {
    match t
    case Num(n, gap) => Tk(Int(n), gap)
    case Name(x, gap) => Tk(Word(x), gap)
    case Paren(open, inner, close) => Tk(Ch('('), open) + Flat(inner) + Tk(Ch(')'), close)
    case Apply(f, gap, open, args, close) => Tk(Word(f), gap) + Tk(Ch('('), open) + FlatArgs(args) + Tk(Ch(')'), close)
    case Join(op, l, gap, r) => Flat(l) + (OpLex(op) + Blank(gap)) + Flat(r)
  }

  function FlatArgs(args: seq<Arg>): Input
    decreases args
  {
    if args == [] then [] else
    assert args[0].tree < args[0];
    Flat(args[0].tree) + FlatMore(args[1..])
  }

  function FlatMore(args: seq<Arg>): Input
    decreases args
  {
    if args == [] then [] else
    assert args[0].tree < args[0];
    Tk(Ch(','), args[0].gap) + Flat(args[0].tree) + FlatMore(args[1..])
  }

  // ----- what may follow -----

  predicate Next(t: Input, c: char) {
    Skip(t) != [] && Skip(t)[0] == Ch(c)
  }

  predicate AfterPrimary(t: Input) { !Next(t, '(') }
  predicate AfterMul(t: Input) { AfterPrimary(t) && !Next(t, '*') }
  predicate AfterAdd(t: Input) { AfterMul(t) && !Next(t, '+') && !Next(t, '-') }
  predicate AfterCmp(t: Input) { AfterAdd(t) && CmpOp(Skip(t)).None? }

  lemma {:induction false} SkipTwice(t: Input)
    ensures Skip(Skip(t)) == Skip(t)
  {
  }

  lemma {:induction false} SkipBlank(n: nat, t: Input)
    ensures Skip(Blank(n) + t) == Skip(t)
  {
    if n == 0 {
      assert Blank(n) + t == t;
    } else {
      SkipBlank(n - 1, t);
      assert (Blank(n) + t)[1..] == Blank(n - 1) + t;
    }
  }

  /** A lexeme, and what is behind it and its white space. */
  lemma {:induction false} TkRest(x: Lex, gap: nat, t: Input)
    requires !x.Space?
    ensures var s := Tk(x, gap) + t; s != [] && s[0] == x && Skip(s) == s && s[1..] == Blank(gap) + t && Skip(s[1..]) == Skip(t)
  {
    SkipBlank(gap, t);
    assert (Tk(x, gap) + t)[1..] == Blank(gap) + t;
  }

  lemma {:induction false} TkCh(c: char, gap: nat, t: Input)
    ensures var s := Tk(Ch(c), gap) + t;
            Skip(s) == s && s != [] && s[0] == Ch(c) && Tok(s, c) == Some(Skip(t)) && (forall d :: d != c ==> Tok(s, d) == None)
    ensures forall d :: Next(Tk(Ch(c), gap) + t, d) <==> c == d
  {
    TkRest(Ch(c), gap, t);
  }

  lemma Associate(a: Input, b: Input, c: Input)
    ensures a + b + c == a + (b + c)
  {
  }

  lemma Regroup(a: Input, b: Input, c: Input, d: Input)
    ensures a + b + c + d == a + (b + (c + d))
  {
  }

  /** An operator of a comparison in front of something that begins with neither `=` nor white space. */
  lemma {:induction false} CmpOpLex(op: BinOp, gap: nat, t: Input)
    requires OpLevel(op) == 3 && t != [] && t[0] != Ch('=') && !t[0].Space?
    ensures var s := (OpLex(op) + Blank(gap)) + t; CmpOp(s) == Some((op, t)) && AfterAdd(s) && Skip(s) == s
  {
    var s := (OpLex(op) + Blank(gap)) + t;
    SkipBlank(gap, t);
    if |OpLex(op)| == 2 {
      TwoCh(OpLex(op)[0].c, OpLex(op)[1].c, gap, t);
    } else {
      TkCh(OpLex(op)[0].c, gap, t);
      assert s == Tk(OpLex(op)[0], gap) + t;
      assert s[1] == if gap > 0 then Space else t[0];
    }
  }

  lemma {:induction false} TwoCh(c: char, d: char, gap: nat, t: Input)
    ensures var s := ([Ch(c), Ch(d)] + Blank(gap)) + t; |s| >= 2 && s[0] == Ch(c) && s[1] == Ch(d) && s[2..] == Blank(gap) + t
  {
  }

  // ----- expressions are read -----

  lemma {:induction false} Start(t: Tree)
    ensures !Flat(t)[0].Space? && Flat(t)[0] != Ch('=') && Flat(t)[0] != Ch(')') && Flat(t)[0] != Ch('}')
    decreases t
  {
    if t.Join? { Start(t.lhs); }
  }

  lemma {:induction false} StartSkip(t: Tree, r: Input)
    ensures Skip(Flat(t) + r) == Flat(t) + r && (Flat(t) + r)[0] == Flat(t)[0]
  {
    Start(t);
  }

  lemma {:induction false} PrimaryBack(e: Tree, t: Input)
    requires Formed(e) && Level(e) == 0 && AfterPrimary(t)
    ensures Primary(Flat(e) + t) == Ok(Meaning(e), Skip(t))
    decreases e, 1
  {
    match e
    case Num(n, gap) => TkRest(Int(n), gap, t);
    case Name(x, gap) => NameBack(x, gap, t);
    case Paren(_, _, _) => ParenBack(e, t);
    case Apply(_, _, _, _, _) => CallBack(e, t);
  }

  lemma {:induction false} NameBack(x: string, gap: nat, t: Input)
    requires AfterPrimary(t)
    ensures Primary(Tk(Word(x), gap) + t) == Ok(Variable(x), Skip(t))
  {
    var s := Tk(Word(x), gap) + t;
    TkRest(Word(x), gap, t);
    assert Ident(s) == Ok(x, Skip(t));
    assert Tok(Skip(t), '(') == None;
    assert CallExpr(s) == Commit;
  }

  /** Parentheses, needed or not. */
  lemma {:induction false} ParenBack(e: Tree, t: Input)
    requires e.Paren? && Formed(e)
    ensures Primary(Flat(e) + t) == Ok(Meaning(e), Skip(t))
    decreases e, 0
  {
    var end := Tk(Ch(')'), e.close) + t;
    var inner := Flat(e.inner) + end;
    Regroup(Tk(Ch('('), e.open), Flat(e.inner), Tk(Ch(')'), e.close), t);
    var s := Tk(Ch('('), e.open) + inner;
    TkCh('(', e.open, inner);
    TkCh(')', e.close, t);
    StartSkip(e.inner, end);
    Punctuation(')', e.close, t);
    CmpBack(e.inner, end);
    assert CallExpr(s).Empty?;
  }

  lemma {:induction false} CallBack(e: Tree, t: Input)
    requires e.Apply? && Formed(e)
    ensures CallExpr(Flat(e) + t) == Ok(Meaning(e), Skip(t)) && !(Flat(e) + t)[0].Int?
    decreases e, 0
  {
    var end := Tk(Ch(')'), e.close) + t;
    var inner := FlatArgs(e.args) + end;
    var args := Tk(Ch('('), e.open) + inner;
    CallSplit(e, t);
    TkRest(Word(e.f), e.gap, args);
    TkCh('(', e.open, inner);
    TkCh(')', e.close, t);
    ArgsBack(e.args, e.close, t);
  }

  lemma {:induction false} CallSplit(e: Tree, t: Input)
    requires e.Apply?
    ensures Flat(e) + t == Tk(Word(e.f), e.gap) + (Tk(Ch('('), e.open) + (FlatArgs(e.args) + (Tk(Ch(')'), e.close) + t)))
  {
    var a, b, c, d := Tk(Word(e.f), e.gap), Tk(Ch('('), e.open), FlatArgs(e.args), Tk(Ch(')'), e.close);
    assert Flat(e) == a + b + c + d;
    Associate(a + b + c, d, t);
    Regroup(a, b, c, d + t);
  }

  lemma {:induction false} ArgsBack(args: seq<Arg>, close: nat, t: Input)
    requires forall i :: 0 <= i < |args| ==> Formed(args[i].tree)
    ensures var end := Tk(Ch(')'), close) + t; var s := FlatArgs(args) + end; Skip(s) == s && Args(s) == Ok(Meanings(args), end)
    decreases args, 4
  {
    var end := Tk(Ch(')'), close) + t;
    TkCh(')', close, t);
    if args == [] {
      assert FlatArgs(args) + end == end;
      NoExpression(end);
    } else {
      var rest := FlatMore(args[1..]) + end;
      Associate(Flat(args[0].tree), FlatMore(args[1..]), end);
      StartSkip(args[0].tree, rest);
      MoreArgsFollow(args[1..], close, t);
      assert args[0].tree < args[0];
      CmpBack(args[0].tree, rest);
      MoreArgsBack([Meaning(args[0].tree)], args[1..], close, t);
    }
  }

  /** No expression begins with these. */
  lemma {:induction false} NoExpression(s: Input)
    requires s != [] && (s[0] == Ch(')') || s[0] == Ch('=') || s[0] == Ch('}'))
    ensures CmpExpr(s) == Empty
  {
    assert Primary(s) == Empty;
    assert MulExpr(s) == Empty;
    assert AddExpr(s) == Empty;
  }

  /** Punctuation cannot continue an expression. */
  lemma Punctuation(c: char, gap: nat, t: Input)
    requires c == ',' || c == ')' || c == ';' || c == '{'
    ensures var s := Tk(Ch(c), gap) + t; AfterCmp(s) && Skip(s) == s
  {
    TkCh(c, gap, t);
  }

  lemma {:induction false} MoreArgsSplit(args: seq<Arg>, end: Input)
    requires args != []
    ensures FlatMore(args) + end == Tk(Ch(','), args[0].gap) + (Flat(args[0].tree) + (FlatMore(args[1..]) + end))
  {
    var comma, first, more := Tk(Ch(','), args[0].gap), Flat(args[0].tree), FlatMore(args[1..]);
    assert FlatMore(args) == comma + first + more;
    Regroup(comma, first, more, end);
  }

  lemma {:induction false} MoreArgsFollow(args: seq<Arg>, close: nat, t: Input)
    ensures var s := FlatMore(args) + (Tk(Ch(')'), close) + t); AfterCmp(s) && Skip(s) == s
  {
    var end := Tk(Ch(')'), close) + t;
    if args == [] {
      assert FlatMore(args) + end == end;
      Punctuation(')', close, t);
    } else {
      MoreArgsSplit(args, end);
      Punctuation(',', args[0].gap, Flat(args[0].tree) + (FlatMore(args[1..]) + end));
    }
  }

  lemma {:induction false} MoreArgsStep(acc: seq<Expr>, s: Input, rest: Input, e: Expr, more: Input)
    requires Tok(s, ',') == Some(rest) && CmpExpr(rest) == Ok(e, more)
    ensures ArgsLoop(acc, s) == ArgsLoop(acc + [e], more)
  {
  }

  lemma {:induction false} MoreArgsBack(acc: seq<Expr>, args: seq<Arg>, close: nat, t: Input)
    requires forall i :: 0 <= i < |args| ==> Formed(args[i].tree)
    ensures var end := Tk(Ch(')'), close) + t; ArgsLoop(acc, FlatMore(args) + end) == Ok(acc + Meanings(args), end)
    decreases args, 3
  {
    var end := Tk(Ch(')'), close) + t;
    if args == [] {
      assert FlatMore(args) + end == end && acc + Meanings(args) == acc;
      TkCh(')', close, t);
    } else {
      var more := FlatMore(args[1..]) + end;
      var rest := Flat(args[0].tree) + more;
      MoreArgsSplit(args, end);
      TkCh(',', args[0].gap, rest);
      StartSkip(args[0].tree, more);
      MoreArgsFollow(args[1..], close, t);
      assert args[0].tree < args[0];
      CmpBack(args[0].tree, more);
      MoreArgsBack(acc + [Meaning(args[0].tree)], args[1..], close, t);
      MoreArgsStep(acc, FlatMore(args) + end, rest, Meaning(args[0].tree), more);
      Regrouped(acc, Meaning(args[0].tree), Meanings(args[1..]));
    }
  }

  lemma {:induction false} JoinSplit(e: Tree, t: Input)
    requires e.Join?
    ensures Flat(e) + t == Flat(e.lhs) + ((OpLex(e.op) + Blank(e.gap)) + (Flat(e.rhs) + t))
    ensures |OpLex(e.op)| == 1 ==> OpLex(e.op) + Blank(e.gap) == Tk(OpLex(e.op)[0], e.gap)
  {
    Regroup(Flat(e.lhs), OpLex(e.op) + Blank(e.gap), Flat(e.rhs), t);
  }

  lemma {:induction false} MulBack(e: Tree, t: Input)
    requires Formed(e) && Level(e) <= 1 && AfterPrimary(t)
    ensures MulExpr(Flat(e) + t) == MulLoop(Meaning(e), Skip(t))
    decreases e, 2
  {
    if e.Join? {
      var rest := Flat(e.rhs) + t;
      JoinSplit(e, t);
      TkCh('*', e.gap, rest);
      MulBack(e.lhs, Tk(Ch('*'), e.gap) + rest);
      StartSkip(e.rhs, t);
      PrimaryBack(e.rhs, t);
    } else {
      PrimaryBack(e, t);
    }
  }

  lemma {:induction false} AddBack(e: Tree, t: Input)
    requires Formed(e) && Level(e) <= 2 && AfterMul(t)
    ensures AddExpr(Flat(e) + t) == AddLoop(Meaning(e), Skip(t))
    decreases e, 3
  {
    if Level(e) == 2 {
      var c := if e.op.Add? then '+' else '-';
      var rest := Flat(e.rhs) + t;
      JoinSplit(e, t);
      TkCh(c, e.gap, rest);
      AddBack(e.lhs, Tk(Ch(c), e.gap) + rest);
      StartSkip(e.rhs, t);
      MulBack(e.rhs, t);
      assert MulLoop(Meaning(e.rhs), Skip(t)) == Ok(Meaning(e.rhs), Skip(t));
    } else {
      MulBack(e, t);
      assert MulLoop(Meaning(e), Skip(t)) == Ok(Meaning(e), Skip(t));
    }
  }

  /** An expression in front of something that cannot continue it, however it is written. */
  lemma {:induction false} CmpBack(e: Tree, t: Input)
    requires Formed(e) && AfterCmp(t)
    ensures CmpExpr(Flat(e) + t) == Ok(Meaning(e), Skip(t))
    decreases e, 4
  {
    if Level(e) == 3 {
      var rest := Flat(e.rhs) + t;
      var op := (OpLex(e.op) + Blank(e.gap)) + rest;
      JoinSplit(e, t);
      Start(e.rhs);
      StartSkip(e.rhs, t);
      CmpOpLex(e.op, e.gap, rest);
      AddBack(e.lhs, op);
      assert AddLoop(Meaning(e.lhs), op) == Ok(Meaning(e.lhs), op);
      AddBack(e.rhs, t);
      assert AddLoop(Meaning(e.rhs), Skip(t)) == Ok(Meaning(e.rhs), Skip(t));
    } else {
      AddBack(e, t);
      assert AddLoop(Meaning(e), Skip(t)) == Ok(Meaning(e), Skip(t));
    }
  }

  // ----- statements as they are written -----

  datatype Line =
    | VarLine(gap: nat, x: string, xgap: nat, init: Option<Arg>, end: nat)
    | AssignLine(x: string, xgap: nat, gap: nat, value: Tree, end: nat)
    | ReturnLine(gap: nat, value: Tree, end: nat)
    | WhileLine(gap: nat, cond: Tree, body: Braces)
    | IfLine(gap: nat, cond: Tree, thn: Braces, elseGap: nat, els: Braces)
    | ExprLine(value: Tree, end: nat)

  /** Statements in braces. */
  datatype Braces = Braces(open: nat, lines: seq<Line>, close: nat)

  predicate FormedLine(s: Line)
    decreases s
  {
    match s
    case VarLine(_, _, _, init, _) => init.Some? ==> Formed(init.value.tree)
    case AssignLine(_, _, _, e, _) => Formed(e)
    case ReturnLine(_, e, _) => Formed(e)
    case WhileLine(_, c, body) => Formed(c) && FormedBraces(body)
    case IfLine(_, c, thn, _, els) => Formed(c) && FormedBraces(thn) && FormedBraces(els)
    case ExprLine(e, _) => Formed(e)
  }

  predicate FormedBraces(b: Braces)
    decreases b
  {
    FormedLines(b.lines)
  }

  predicate FormedLines(ss: seq<Line>)
    decreases ss
  {
    forall i :: 0 <= i < |ss| ==> FormedLine(ss[i])
  }

  function LineMeaning(s: Line): KalAst.Stmt
    requires FormedLine(s)
    decreases s
  {
    match s
    case VarLine(_, x, _, init, _) => VarDecl(x, if init.Some? then Some(Meaning(init.value.tree)) else None)
    case AssignLine(x, _, _, e, _) => Assign(x, Meaning(e))
    case ReturnLine(_, e, _) => Return(Meaning(e))
    case WhileLine(_, c, body) => While(Meaning(c), BracesMeaning(body))
    case IfLine(_, c, thn, _, els) => If(Meaning(c), BracesMeaning(thn), BracesMeaning(els))
    case ExprLine(e, _) => ExprStmt(Meaning(e))
  }

  function BracesMeaning(b: Braces): seq<KalAst.Stmt>
    requires FormedBraces(b)
    decreases b
  {
    LinesMeaning(b.lines)
  }

  function LinesMeaning(ss: seq<Line>): (r: seq<KalAst.Stmt>)
    requires FormedLines(ss)
    ensures |r| == |ss|
    decreases ss
  {
    if ss == [] then [] else [LineMeaning(ss[0])] + LinesMeaning(ss[1..])
  }

  function FlatLine(s: Line): (r: Input)
    ensures r != []
    decreases s
  {
    match s
    case VarLine(gap, x, xgap, None, end) => Tk(Word("var"), gap) + Tk(Word(x), xgap) + Tk(Ch(';'), end)
    case VarLine(gap, x, xgap, Some(e), end) =>
      Tk(Word("var"), gap) + Tk(Word(x), xgap) + (Tk(Ch('='), e.gap) + Flat(e.tree) + Tk(Ch(';'), end))
    case AssignLine(x, xgap, gap, e, end) => Tk(Word(x), xgap) + (Tk(Ch('='), gap) + Flat(e) + Tk(Ch(';'), end))
    case ReturnLine(gap, e, end) => Tk(Word("return"), gap) + Flat(e) + Tk(Ch(';'), end)
    case WhileLine(gap, c, body) => Tk(Word("while"), gap) + Flat(c) + FlatBraces(body)
    case IfLine(gap, c, thn, elseGap, els) =>
      Tk(Word("if"), gap) + Flat(c) + FlatBraces(thn) + (Tk(Word("else"), elseGap) + FlatBraces(els))
    case ExprLine(e, end) => Flat(e) + Tk(Ch(';'), end)
  }

  function FlatBraces(b: Braces): (r: Input)
    ensures r != [] && r[0] == Ch('{')
    decreases b
  {
    Tk(Ch('{'), b.open) + FlatLines(b.lines) + Tk(Ch('}'), b.close)
  }

  function FlatLines(ss: seq<Line>): Input
    decreases ss
  {
    if ss == [] then [] else FlatLine(ss[0]) + FlatLines(ss[1..])
  }

  predicate IsStatementWord(x: string) {
    x == "var" || x == "return" || x == "while" || x == "if"
  }

  /** The first word of an assignment or of an expression statement is not one that begins another kind of statement. */
  predicate FirstWordOk(s: Line) {
    match s
    case AssignLine(x, _, _, _, _) => !IsStatementWord(x)
    case ExprLine(e, _) => Flat(e)[0].Word? ==> !IsStatementWord(Flat(e)[0].w)
    case _ => true
  }

  predicate WellWorded(s: Line)
    decreases s
  {
    match s
    case WhileLine(_, _, body) => BracesWorded(body)
    case IfLine(_, _, thn, _, els) => BracesWorded(thn) && BracesWorded(els)
    case _ => FirstWordOk(s)
  }

  predicate BracesWorded(b: Braces)
    decreases b
  {
    AllWellWorded(b.lines)
  }

  predicate AllWellWorded(ss: seq<Line>)
    decreases ss
  {
    forall i :: 0 <= i < |ss| ==> WellWorded(ss[i])
  }

  // ----- statements are read -----

  /** What comes behind the first word of an expression: nothing of it, or something that is not a single `=`. */
  lemma {:induction false} AfterWord(e: Tree, t: Input)
    requires Flat(e)[0].Word? && (Next(t, '=') ==> |Skip(t)| >= 2 && Skip(t)[1] == Ch('='))
    ensures var r := Skip((Flat(e) + t)[1..]); r != [] && r[0] == Ch('=') ==> |r| >= 2 && r[1] == Ch('=')
    decreases e
  {
    match e
    case Name(x, gap) => TkRest(Word(x), gap, t);
    case Apply(_, _, _, _, _) => AfterName(e, t);
    case Join(op, l, gap, r) =>
      var rest := (OpLex(op) + Blank(gap)) + (Flat(r) + t);
      JoinSplit(e, t);
      assert Next(rest, '=') ==> |rest| >= 2 && rest[1] == Ch('=') && Skip(rest) == rest by { OpFollows(op, gap, Flat(r) + t); }
      AfterWord(l, rest);
  }

  lemma {:induction false} AfterName(e: Tree, t: Input)
    requires e.Apply?
    ensures var r := Skip((Flat(e) + t)[1..]); r != [] && r[0] == Ch('(')
  {
    var args := FlatArgs(e.args) + (Tk(Ch(')'), e.close) + t);
    CallSplit(e, t);
    TkRest(Word(e.f), e.gap, Tk(Ch('('), e.open) + args);
    TkCh('(', e.open, args);
  }

  lemma {:induction false} OpFollows(op: BinOp, gap: nat, t: Input)
    ensures var s := (OpLex(op) + Blank(gap)) + t; Skip(s) == s && s[0] == OpLex(op)[0] && (s[0] == Ch('=') ==> s[1] == Ch('='))
  {
  }

  /** An expression statement is never taken for an assignment, not even one that begins with `x ==`. */
  lemma {:induction false} NotAnAssignment(e: Tree, end: nat, t: Input)
    ensures Attempt(AssignStmt(Flat(e) + (Tk(Ch(';'), end) + t))) == Empty
  {
    var s := Flat(e) + (Tk(Ch(';'), end) + t);
    Start(e);
    TkCh(';', end, t);
    if Flat(e)[0].Word? {
      AfterWord(e, Tk(Ch(';'), end) + t);
      var r := Skip(s[1..]);
      if r != [] && r[0] == Ch('=') {
        assert r[1..][0] == Ch('=') && Skip(r[1..]) == r[1..];
        NoExpression(r[1..]);
      }
    }
  }

  /** An expression up to the end of its statement. */
  lemma {:induction false} ExprEnd(e: Tree, end: nat, t: Input)
    requires Formed(e)
    ensures var semi := Tk(Ch(';'), end) + t; var s := Flat(e) + semi;
            CmpExpr(s) == Ok(Meaning(e), semi) && Tok(semi, ';') == Some(Skip(t)) && Skip(s) == s
  {
    Punctuation(';', end, t);
    TkCh(';', end, t);
    CmpBack(e, Tk(Ch(';'), end) + t);
    StartSkip(e, Tk(Ch(';'), end) + t);
  }

  /** A keyword in front of something. */
  lemma {:induction false} KeywordBack(kw: string, gap: nat, rest: Input)
    requires Skip(rest) == rest
    ensures Keyword(Tk(Word(kw), gap) + rest, kw) == Some(rest)
    ensures forall k :: k != kw ==> Keyword(Tk(Word(kw), gap) + rest, k) == None
  {
    TkRest(Word(kw), gap, rest);
  }

  lemma {:induction false} LineBack(s: Line, t: Input)
    requires FormedLine(s) && WellWorded(s)
    ensures KalParser.Stmt(FlatLine(s) + t) == Ok(LineMeaning(s), Skip(t))
    decreases s, 1
  {
    match s
    case VarLine(_, _, _, _, _) => VarBack(s, t);
    case AssignLine(_, _, _, _, _) => AssignBack(s, t);
    case ReturnLine(gap, e, end) =>
      var rest := Flat(e) + (Tk(Ch(';'), end) + t);
      Regroup(Tk(Word("return"), gap), Flat(e), Tk(Ch(';'), end), t);
      ExprEnd(e, end, t);
      KeywordBack("return", gap, rest);
    case WhileLine(_, _, _) => WhileBack(s, t);
    case IfLine(_, _, _, _, _) => IfBack(s, t);
    case ExprLine(e, end) =>
      Associate(Flat(e), Tk(Ch(';'), end), t);
      ExprEnd(e, end, t);
      NotAnAssignment(e, end, t);
  }

  lemma {:induction false} VarBack(s: Line, t: Input)
    requires s.VarLine? && FormedLine(s)
    ensures KalParser.Stmt(FlatLine(s) + t) == Ok(LineMeaning(s), Skip(t))
  {
    var tail := VarTail(s) + t;
    var named := Tk(Word(s.x), s.xgap) + tail;
    VarSplit(s, t);
    TkRest(Word(s.x), s.xgap, tail);
    KeywordBack("var", s.gap, named);
    VarTailBack(s, t);
  }

  /** What comes behind the name. */
  function VarTail(s: Line): Input
    requires s.VarLine?
  {
    if s.init.None? then Tk(Ch(';'), s.end) else Tk(Ch('='), s.init.value.gap) + Flat(s.init.value.tree) + Tk(Ch(';'), s.end)
  }

  lemma {:induction false} VarSplit(s: Line, t: Input)
    requires s.VarLine?
    ensures FlatLine(s) + t == Tk(Word("var"), s.gap) + (Tk(Word(s.x), s.xgap) + (VarTail(s) + t))
  {
    Regroup(Tk(Word("var"), s.gap), Tk(Word(s.x), s.xgap), VarTail(s), t);
  }

  lemma {:induction false} VarTailBack(s: Line, t: Input)
    requires s.VarLine? && FormedLine(s)
    ensures var tail := VarTail(s) + t;
            Skip(tail) == tail && VarDeclStmt(Tk(Word(s.x), s.xgap) + tail) == Ok(LineMeaning(s), Skip(t))
  {
    var tail := VarTail(s) + t;
    TkCh(';', s.end, t);
    TkRest(Word(s.x), s.xgap, tail);
    if s.init.Some? {
      var e := s.init.value;
      Regroup(Tk(Ch('='), e.gap), Flat(e.tree), Tk(Ch(';'), s.end), t);
      TkCh('=', e.gap, Flat(e.tree) + (Tk(Ch(';'), s.end) + t));
      ExprEnd(e.tree, s.end, t);
    }
  }

  /** An assignment, piece by piece. */
  lemma {:induction false} AssignReads(s: Input, x: string, eq: Input, value: Input, e: Expr, semi: Input, rest: Input)
    requires s != [] && s[0] == Word(x) && !IsStatementWord(x) && Skip(s[1..]) == eq
    requires Tok(eq, '=') == Some(value) && CmpExpr(value) == Ok(e, semi) && Tok(semi, ';') == Some(rest)
    ensures KalParser.Stmt(s) == Ok(Assign(x, e), rest)
  {
    assert AssignStmt(s) == Ok(Assign(x, e), rest);
  }

  lemma {:induction false} AssignBack(s: Line, t: Input)
    requires s.AssignLine? && FormedLine(s) && WellWorded(s)
    ensures KalParser.Stmt(FlatLine(s) + t) == Ok(LineMeaning(s), Skip(t))
  {
    var tail := Flat(s.value) + (Tk(Ch(';'), s.end) + t);
    AssignSplit(s, t);
    TkCh('=', s.gap, tail);
    TkRest(Word(s.x), s.xgap, Tk(Ch('='), s.gap) + tail);
    ExprEnd(s.value, s.end, t);
    AssignReads(FlatLine(s) + t, s.x, Tk(Ch('='), s.gap) + tail, tail, Meaning(s.value), Tk(Ch(';'), s.end) + t, Skip(t));
  }

  lemma {:induction false} AssignSplit(s: Line, t: Input)
    requires s.AssignLine?
    ensures FlatLine(s) + t == Tk(Word(s.x), s.xgap) + (Tk(Ch('='), s.gap) + (Flat(s.value) + (Tk(Ch(';'), s.end) + t)))
  {
    var name, eq, value, semi := Tk(Word(s.x), s.xgap), Tk(Ch('='), s.gap), Flat(s.value), Tk(Ch(';'), s.end);
    assert FlatLine(s) == name + (eq + value + semi);
    Associate(name, eq + value + semi, t);
    Regroup(eq, value, semi, t);
  }

  /** A condition up to the block that follows it. */
  lemma {:induction false} CondBack(c: Tree, b: Braces, t: Input)
    requires Formed(c)
    ensures var block := FlatBraces(b) + t; var s := Flat(c) + block; CmpExpr(s) == Ok(Meaning(c), block) && Skip(s) == s
  {
    BracesSplit(b, t);
    Punctuation('{', b.open, FlatLines(b.lines) + (Tk(Ch('}'), b.close) + t));
    CmpBack(c, FlatBraces(b) + t);
    StartSkip(c, FlatBraces(b) + t);
  }

  lemma {:induction false} BracesSplit(b: Braces, t: Input)
    ensures FlatBraces(b) + t == Tk(Ch('{'), b.open) + (FlatLines(b.lines) + (Tk(Ch('}'), b.close) + t))
  {
    Regroup(Tk(Ch('{'), b.open), FlatLines(b.lines), Tk(Ch('}'), b.close), t);
  }

  lemma {:induction false} WhileBack(s: Line, t: Input)
    requires s.WhileLine? && FormedLine(s) && WellWorded(s)
    ensures KalParser.Stmt(FlatLine(s) + t) == Ok(LineMeaning(s), Skip(t))
    decreases s, 0
  {
    Regroup(Tk(Word("while"), s.gap), Flat(s.cond), FlatBraces(s.body), t);
    CondBack(s.cond, s.body, t);
    KeywordBack("while", s.gap, Flat(s.cond) + (FlatBraces(s.body) + t));
    BlockBack(s.body, t);
  }

  lemma {:induction false} IfSplit(s: Line, t: Input)
    requires s.IfLine?
    ensures FlatLine(s) + t
            == Tk(Word("if"), s.gap) + (Flat(s.cond) + (FlatBraces(s.thn) + (Tk(Word("else"), s.elseGap) + (FlatBraces(s.els) + t))))
  {
    var kw, cond, thn, else_, els := Tk(Word("if"), s.gap), Flat(s.cond), FlatBraces(s.thn), Tk(Word("else"), s.elseGap), FlatBraces(s.els);
    assert FlatLine(s) == kw + cond + thn + (else_ + els);
    Associate(kw + cond + thn, else_ + els, t);
    Associate(else_, els, t);
    Regroup(kw, cond, thn, else_ + (els + t));
  }

  /** An `if`, piece by piece. */
  lemma {:induction false} IfReads(s: Input, c: Expr, thn: Input, thnBody: seq<KalAst.Stmt>, els: Input, elsBody: seq<KalAst.Stmt>, rest: Input)
    requires CmpExpr(s) == Ok(c, thn) && Block(thn) == Ok(thnBody, els) && Keyword(els, "else").Some?
    requires Block(Keyword(els, "else").value) == Ok(elsBody, rest)
    ensures IfStmt(s) == Ok(If(c, thnBody, elsBody), rest)
  {
  }

  lemma {:induction false} IfBack(s: Line, t: Input)
    requires s.IfLine? && FormedLine(s) && WellWorded(s)
    ensures KalParser.Stmt(FlatLine(s) + t) == Ok(LineMeaning(s), Skip(t))
    decreases s, 0
  {
    var els := Tk(Word("else"), s.elseGap) + (FlatBraces(s.els) + t);
    var thn := FlatBraces(s.thn) + els;
    var rest := Flat(s.cond) + thn;
    IfSplit(s, t);
    CondBack(s.cond, s.thn, els);
    KeywordBack("if", s.gap, rest);
    BlockBack(s.thn, els);
    ElseStart(s.els, s.elseGap, t);
    BlockBack(s.els, t);
    IfReads(rest, Meaning(s.cond), thn, BracesMeaning(s.thn), els, BracesMeaning(s.els), Skip(t));
    IfStart(FlatLine(s) + t, rest);
  }

  lemma {:induction false} ElseStart(b: Braces, gap: nat, t: Input)
    ensures var block := FlatBraces(b) + t; var els := Tk(Word("else"), gap) + block; Skip(els) == els && Keyword(els, "else") == Some(block)
  {
    BlockStart(b, t);
    KeywordBack("else", gap, FlatBraces(b) + t);
    TkRest(Word("else"), gap, FlatBraces(b) + t);
  }

  lemma {:induction false} BlockStart(b: Braces, t: Input)
    ensures Skip(FlatBraces(b) + t) == FlatBraces(b) + t
  {
    assert (FlatBraces(b) + t)[0] == Ch('{');
  }

  lemma {:induction false} BlockBack(b: Braces, t: Input)
    requires FormedBraces(b) && BracesWorded(b)
    ensures Block(FlatBraces(b) + t) == Ok(BracesMeaning(b), Skip(t))
    decreases b, 2
  {
    var end := Tk(Ch('}'), b.close) + t;
    BracesSplit(b, t);
    TkCh('{', b.open, FlatLines(b.lines) + end);
    TkCh('}', b.close, t);
    LinesStart(b.lines, end);
    LinesBack(b.lines, end);
  }

  lemma {:induction false} LinesSplit(ss: seq<Line>, end: Input)
    requires ss != []
    ensures FlatLines(ss) + end == FlatLine(ss[0]) + (FlatLines(ss[1..]) + end)
  {
    Associate(FlatLine(ss[0]), FlatLines(ss[1..]), end);
  }

  lemma {:induction false} LineStart(s: Line)
    ensures !FlatLine(s)[0].Space?
  {
    if s.ExprLine? { Start(s.value); }
  }

  lemma {:induction false} LinesStart(ss: seq<Line>, end: Input)
    requires Skip(end) == end
    ensures Skip(FlatLines(ss) + end) == FlatLines(ss) + end
  {
    if ss == [] {
      assert FlatLines(ss) + end == end;
    } else {
      LineStart(ss[0]);
      LinesSplit(ss, end);
    }
  }

  lemma {:induction false} LinesBack(ss: seq<Line>, end: Input)
    requires FormedLines(ss) && AllWellWorded(ss) && Skip(end) == end && end != [] && end[0] == Ch('}')
    ensures Stmts(FlatLines(ss) + end) == Ok(LinesMeaning(ss), end)
    decreases ss, 1
  {
    if ss == [] {
      assert FlatLines(ss) + end == end;
      NoExpression(end);
    } else {
      LinesSplit(ss, end);
      LinesStart(ss[1..], end);
      LineBack(ss[0], FlatLines(ss[1..]) + end);
      LinesBack(ss[1..], end);
    }
  }

  // ----- statements that are not read -----

  /** What is read, if anything is, is something else. */
  predicate Misread<T(==)>(p: P<T>, x: T) {
    p.Ok? ==> p.value != x
  }

  lemma {:induction false} WordAstray(s: Line, t: Input)
    requires FormedLine(s) && !FirstWordOk(s)
    ensures Misread(KalParser.Stmt(FlatLine(s) + t), LineMeaning(s))
  {
    var text := FlatLine(s) + t;
    var x := if s.AssignLine? then s.x else Flat(s.value)[0].w;
    assert text[0] == Word(x) && Keyword(text, x).Some? && forall k :: k != x ==> Keyword(text, k) == None;
  }

  lemma {:induction false} LineAstray(s: Line, t: Input)
    requires FormedLine(s) && !WellWorded(s)
    ensures Misread(KalParser.Stmt(FlatLine(s) + t), LineMeaning(s))
    decreases s, 1
  {
    match s
    case WhileLine(_, _, _) => WhileAstray(s, t);
    case IfLine(_, _, _, _, _) => IfAstray(s, t);
    case _ => WordAstray(s, t);
  }

  lemma {:induction false} WhileAstray(s: Line, t: Input)
    requires s.WhileLine? && FormedLine(s) && !WellWorded(s)
    ensures Misread(KalParser.Stmt(FlatLine(s) + t), LineMeaning(s))
    decreases s, 0
  {
    Regroup(Tk(Word("while"), s.gap), Flat(s.cond), FlatBraces(s.body), t);
    CondBack(s.cond, s.body, t);
    KeywordBack("while", s.gap, Flat(s.cond) + (FlatBraces(s.body) + t));
    BlockAstray(s.body, t);
  }

  /** Either block may be the one that goes astray. */
  lemma {:induction false} IfAstray(s: Line, t: Input)
    requires s.IfLine? && FormedLine(s) && !WellWorded(s)
    ensures Misread(KalParser.Stmt(FlatLine(s) + t), LineMeaning(s))
    decreases s, 0
  {
    var els := Tk(Word("else"), s.elseGap) + (FlatBraces(s.els) + t);
    var thn := FlatBraces(s.thn) + els;
    var rest := Flat(s.cond) + thn;
    IfSplit(s, t);
    CondBack(s.cond, s.thn, els);
    KeywordBack("if", s.gap, rest);
    ElseStart(s.els, s.elseGap, t);
    if BracesWorded(s.thn) {
      BlockBack(s.thn, els);
      BlockAstray(s.els, t);
    } else {
      BlockAstray(s.thn, els);
    }
    IfMisread(s, rest, thn, els);
    IfStart(FlatLine(s) + t, rest);
  }

  lemma {:induction false} IfMisread(s: Line, rest: Input, thn: Input, els: Input)
    requires s.IfLine? && FormedLine(s) && CmpExpr(rest) == Ok(Meaning(s.cond), thn)
    requires || Misread(Block(thn), BracesMeaning(s.thn))
             || (Block(thn) == Ok(BracesMeaning(s.thn), els) && Keyword(els, "else").Some?
                 && Misread(Block(Keyword(els, "else").value), BracesMeaning(s.els)))
    ensures Misread(IfStmt(rest), LineMeaning(s))
  {
  }

  lemma {:induction false} IfStart(s: Input, rest: Input)
    requires Keyword(s, "if") == Some(rest) && forall k :: k != "if" ==> Keyword(s, k) == None
    ensures KalParser.Stmt(s) == IfStmt(rest)
  {
  }

  lemma {:induction false} BlockAstray(b: Braces, t: Input)
    requires FormedBraces(b) && !BracesWorded(b)
    ensures Misread(Block(FlatBraces(b) + t), BracesMeaning(b))
    decreases b, 2
  {
    var end := Tk(Ch('}'), b.close) + t;
    BracesSplit(b, t);
    TkCh('{', b.open, FlatLines(b.lines) + end);
    TkCh('}', b.close, t);
    LinesStart(b.lines, end);
    LinesAstray(b.lines, end);
  }

  /** The first statement that is not well worded is the first that is not read as itself. */
  lemma {:induction false} LinesAstray(ss: seq<Line>, end: Input)
    requires FormedLines(ss) && !AllWellWorded(ss) && Skip(end) == end
    ensures Misread(Stmts(FlatLines(ss) + end), LinesMeaning(ss))
    decreases ss, 1
  {
    var rest := FlatLines(ss[1..]) + end;
    LinesSplit(ss, end);
    LinesStart(ss[1..], end);
    if WellWorded(ss[0]) {
      LineBack(ss[0], rest);
      LaterLine(ss);
      LinesAstray(ss[1..], end);
    } else {
      LineAstray(ss[0], rest);
    }
    FirstAstray(ss, FlatLine(ss[0]) + rest);
  }

  lemma {:induction false} LaterLine(ss: seq<Line>)
    requires ss != [] && !AllWellWorded(ss) && WellWorded(ss[0])
    ensures !AllWellWorded(ss[1..])
  {
    assert forall i :: 0 < i < |ss| ==> ss[1..][i - 1] == ss[i];
  }

  lemma {:induction false} FirstAstray(ss: seq<Line>, s: Input)
    requires ss != [] && FormedLines(ss)
    requires || Misread(KalParser.Stmt(s), LineMeaning(ss[0]))
             || (KalParser.Stmt(s).Ok? && Misread(Stmts(KalParser.Stmt(s).rest), LinesMeaning(ss[1..])))
    ensures Misread(Stmts(s), LinesMeaning(ss))
  {
    var first := KalParser.Stmt(s);
    if first.Ok? && Stmts(first.rest).Ok? {
      var more := Stmts(first.rest).value;
      assert ([first.value] + more)[0] == first.value && ([first.value] + more)[1..] == more;
      assert LinesMeaning(ss)[1..] == LinesMeaning(ss[1..]);
    }
  }

  /** A statement, however it is written, is read as it was written exactly when it and all statements in it begin with words
      of their own. */
  lemma {:induction false} LineBackIff(s: Line, t: Input)
    requires FormedLine(s)
    ensures KalParser.Stmt(FlatLine(s) + t) == Ok(LineMeaning(s), Skip(t)) <==> WellWorded(s)
  {
    if WellWorded(s) { LineBack(s, t); } else { LineAstray(s, t); }
  }

  // ----- programs -----

  /** A parameter, and the white space behind the comma in front of it; there is none in front of the first. */
  datatype Param = Param(comma: nat, name: string, gap: nat)

  datatype Def = Def(gap: nat, name: string, ngap: nat, open: nat, params: seq<Param>, close: nat, body: Braces)

  /** A program, and the white space in front of it. */
  datatype Text = Text(lead: nat, defs: seq<Def>)

  predicate FormedDefs(ds: seq<Def>) {
    forall i :: 0 <= i < |ds| ==> FormedBraces(ds[i].body)
  }

  predicate DefsWorded(ds: seq<Def>) {
    forall i :: 0 <= i < |ds| ==> BracesWorded(ds[i].body)
  }

  function ParamNames(ps: seq<Param>): seq<string> {
    if ps == [] then [] else [ps[0].name] + ParamNames(ps[1..])
  }

  function DefMeaning(d: Def): Definition
    requires FormedBraces(d.body)
  {
    Definition(d.name, Function(ParamNames(d.params), BracesMeaning(d.body)))
  }

  function DefsMeaning(ds: seq<Def>): (r: seq<Definition>)
    requires FormedDefs(ds)
    ensures |r| == |ds|
  {
    if ds == [] then [] else [DefMeaning(ds[0])] + DefsMeaning(ds[1..])
  }

  function FlatParams(ps: seq<Param>): Input {
    if ps == [] then [] else Tk(Word(ps[0].name), ps[0].gap) + FlatMoreParams(ps[1..])
  }

  function FlatMoreParams(ps: seq<Param>): Input {
    if ps == [] then [] else Tk(Ch(','), ps[0].comma) + Tk(Word(ps[0].name), ps[0].gap) + FlatMoreParams(ps[1..])
  }

  function FlatDef(d: Def): (r: Input)
    ensures r != [] && r[0] == Word("def")
  {
    Tk(Word("def"), d.gap) + Tk(Word(d.name), d.ngap) + (Tk(Ch('('), d.open) + FlatParams(d.params) + Tk(Ch(')'), d.close)) + FlatBraces(d.body)
  }

  function FlatDefs(ds: seq<Def>): Input {
    if ds == [] then [] else FlatDef(ds[0]) + FlatDefs(ds[1..])
  }

  function FlatText(p: Text): Input {
    Blank(p.lead) + FlatDefs(p.defs)
  }

  /** A way to write a program, in words that do not begin another kind of statement. */
  predicate Writes(p: Text, ds: seq<Definition>) {
    FormedDefs(p.defs) && DefsWorded(p.defs) && DefsMeaning(p.defs) == ds
  }

  lemma {:induction false} MoreParamsBack(acc: seq<string>, ps: seq<Param>, end: Input)
    requires end != [] && end[0] == Ch(')')
    ensures var s := FlatMoreParams(ps) + end; Skip(s) == s && ParamsLoop(acc, s) == Ok(acc + ParamNames(ps), end)
    decreases ps
  {
    if ps == [] {
      assert FlatMoreParams(ps) + end == end && acc + ParamNames(ps) == acc;
    } else {
      MoreParamsBack(acc + [ps[0].name], ps[1..], end);
      MoreParamsStep(acc, ps, end);
      Regrouped(acc, ps[0].name, ParamNames(ps[1..]));
    }
  }

  lemma Regrouped<T>(acc: seq<T>, x: T, xs: seq<T>)
    ensures acc + [x] + xs == acc + ([x] + xs)
  {
  }

  lemma {:induction false} MoreParamsStep(acc: seq<string>, ps: seq<Param>, end: Input)
    requires ps != [] && Skip(FlatMoreParams(ps[1..]) + end) == FlatMoreParams(ps[1..]) + end
    ensures var s, rest := FlatMoreParams(ps) + end, FlatMoreParams(ps[1..]) + end;
            Skip(s) == s && ParamsLoop(acc, s) == ParamsLoop(acc + [ps[0].name], rest)
  {
    var rest := FlatMoreParams(ps[1..]) + end;
    var named := Tk(Word(ps[0].name), ps[0].gap) + rest;
    Regroup(Tk(Ch(','), ps[0].comma), Tk(Word(ps[0].name), ps[0].gap), FlatMoreParams(ps[1..]), end);
    TkCh(',', ps[0].comma, named);
    TkRest(Word(ps[0].name), ps[0].gap, rest);
  }

  lemma {:induction false} ParamsBack(ps: seq<Param>, end: Input)
    requires end != [] && end[0] == Ch(')')
    ensures var s := FlatParams(ps) + end; Skip(s) == s && Params(s) == Ok(ParamNames(ps), end)
  {
    if ps == [] {
      assert FlatParams(ps) + end == end;
    } else {
      var rest := FlatMoreParams(ps[1..]) + end;
      Associate(Tk(Word(ps[0].name), ps[0].gap), FlatMoreParams(ps[1..]), end);
      TkRest(Word(ps[0].name), ps[0].gap, rest);
      MoreParamsBack([ps[0].name], ps[1..], end);
    }
  }

  lemma DefSplit(d: Def, t: Input)
    ensures FlatDef(d) + t ==
            Tk(Word("def"), d.gap) + (Tk(Word(d.name), d.ngap) + (Tk(Ch('('), d.open) + (FlatParams(d.params) + (Tk(Ch(')'), d.close) + (FlatBraces(d.body) + t)))))
  {
    var def, name, open, ps, close, body :=
      Tk(Word("def"), d.gap), Tk(Word(d.name), d.ngap), Tk(Ch('('), d.open), FlatParams(d.params), Tk(Ch(')'), d.close), FlatBraces(d.body);
    assert FlatDef(d) == def + name + (open + ps + close) + body;
    Associate(def + name + (open + ps + close), body, t);
    Regroup(def, name, open + ps + close, body + t);
    Regroup(open, ps, close, body + t);
  }

  /** Up to the block. */
  lemma DefHead(d: Def, t: Input)
    ensures var block := FlatBraces(d.body) + t; var end := Tk(Ch(')'), d.close) + block;
            var params := FlatParams(d.params) + end; var open := Tk(Ch('('), d.open) + params; var named := Tk(Word(d.name), d.ngap) + open;
            && Keyword(FlatDef(d) + t, "def") == Some(named) && Ident(named) == Ok(d.name, open) && Tok(open, '(') == Some(params)
            && Params(params) == Ok(ParamNames(d.params), end) && Tok(end, ')') == Some(block)
  {
    var block := FlatBraces(d.body) + t;
    var end := Tk(Ch(')'), d.close) + block;
    var params := FlatParams(d.params) + end;
    var open := Tk(Ch('('), d.open) + params;
    DefSplit(d, t);
    TkRest(Word(d.name), d.ngap, open);
    KeywordBack("def", d.gap, Tk(Word(d.name), d.ngap) + open);
    ParamsBack(d.params, end);
    TkCh('(', d.open, params);
    BlockStart(d.body, t);
    TkCh(')', d.close, block);
  }

  lemma {:induction false} DefBack(d: Def, t: Input)
    requires FormedBraces(d.body) && BracesWorded(d.body)
    ensures FuncDef(FlatDef(d) + t) == Ok(DefMeaning(d), Skip(t))
  {
    DefHead(d, t);
    BlockBack(d.body, t);
  }

  lemma DefAstray(d: Def, t: Input)
    requires FormedBraces(d.body) && !BracesWorded(d.body)
    ensures Misread(FuncDef(FlatDef(d) + t), DefMeaning(d))
  {
    DefHead(d, t);
    BlockAstray(d.body, t);
  }

  lemma {:induction false} DefsStart(ds: seq<Def>)
    ensures Skip(FlatDefs(ds)) == FlatDefs(ds)
  {
  }

  lemma {:induction false} DefsBack(ds: seq<Def>)
    requires FormedDefs(ds) && DefsWorded(ds)
    ensures FuncDefs(FlatDefs(ds)) == Ok(DefsMeaning(ds), [])
  {
    if ds != [] {
      DefsStart(ds[1..]);
      DefsBack(ds[1..]);
      DefBack(ds[0], FlatDefs(ds[1..]));
    }
  }

  lemma {:induction false} DefsAstray(ds: seq<Def>)
    requires FormedDefs(ds) && !DefsWorded(ds)
    ensures Misread(FuncDefs(FlatDefs(ds)), DefsMeaning(ds))
  {
    var rest := FlatDefs(ds[1..]);
    DefsStart(ds[1..]);
    if BracesWorded(ds[0].body) {
      DefBack(ds[0], rest);
      LaterDef(ds);
      DefsAstray(ds[1..]);
    } else {
      DefAstray(ds[0], rest);
    }
    FirstDefAstray(ds, FlatDef(ds[0]) + rest);
  }

  lemma LaterDef(ds: seq<Def>)
    requires ds != [] && !DefsWorded(ds) && BracesWorded(ds[0].body)
    ensures !DefsWorded(ds[1..])
  {
    assert forall i :: 0 < i < |ds| ==> ds[1..][i - 1] == ds[i];
  }

  lemma {:induction false} FirstDefAstray(ds: seq<Def>, s: Input)
    requires ds != [] && FormedDefs(ds)
    requires Misread(FuncDef(s), DefMeaning(ds[0])) || (FuncDef(s).Ok? && Misread(FuncDefs(FuncDef(s).rest), DefsMeaning(ds[1..])))
    ensures Misread(FuncDefs(s), DefsMeaning(ds))
  {
    var first := FuncDef(s);
    if first.Ok? && FuncDefs(first.rest).Ok? {
      var more := FuncDefs(first.rest).value;
      assert ([first.value] + more)[0] == first.value && ([first.value] + more)[1..] == more;
      assert DefsMeaning(ds)[1..] == DefsMeaning(ds[1..]);
    }
  }

  /** A program, however it is written, is read as it was written exactly when none of its statements begins with the first
      word of another kind of statement, whatever its other names. */
  lemma TextBackIff(p: Text)
    requires FormedDefs(p.defs)
    ensures ParseProgram(FlatText(p)) == Ok(DefsMeaning(p.defs), []) <==> DefsWorded(p.defs)
  {
    SkipBlank(p.lead, FlatDefs(p.defs));
    DefsStart(p.defs);
    if DefsWorded(p.defs) {
      DefsBack(p.defs);
    } else {
      DefsAstray(p.defs);
      ProgramAstray(DefsMeaning(p.defs), FlatText(p), FlatDefs(p.defs));
    }
  }

  lemma {:induction false} ProgramAstray(ds: seq<Definition>, s: Input, t: Input)
    requires Skip(s) == t && Misread(FuncDefs(t), ds)
    ensures ParseProgram(s) != Ok(ds, [])
  {
  }

  // ----- a concrete one -----

  /** `var = 0;` is what an assignment to a variable named `var` is written as, and is no statement at all. */
  lemma KeywordAssigned()
    ensures var s := AssignLine("var", 1, 1, Num(0, 0), 0); FormedLine(s) && !FirstWordOk(s) && KalParser.Stmt(FlatLine(s)) == Commit
  {
    var tail := Tk(Ch('='), 1) + Flat(Num(0, 0)) + Tk(Ch(';'), 0);
    var s := Tk(Word("var"), 1) + tail;
    assert Skip(tail) == tail && tail[0] == Ch('=');
    TkRest(Word("var"), 1, tail);
    assert Ident(tail) == Empty;
  }
}

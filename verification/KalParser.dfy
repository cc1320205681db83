/** The Kaleidoscope grammar over lexemes: numbers, words, single characters and white space.

    A parser that fails before it consumes anything lets the next alternative try; one that fails later fails for
    good, unless it is run under `attempt`. An integer literal outside the 64-bit range is a crash. */
module KalParser {
  import opened Options
  import opened KalArith
  import opened KalAst

  /** A number and a word are as long as they can be; operators are characters one by one. */
  datatype Lex = Int(n: nat) | Word(w: string) | Ch(c: char) | Space

  type Input = seq<Lex>

  datatype P<+T> = Ok(value: T, rest: Input) | Empty | Commit | Crash

  /** A parser that comes after others have consumed input. */
  function Committed<T>(p: P<T>): P<T> {
    if p.Empty? then Commit else p
  }

  function Attempt<T>(p: P<T>): P<T> {
    if p.Commit? then Empty else p
  }

  function Skip(s: Input): (r: Input)
    ensures |r| <= |s| && (r != [] ==> !r[0].Space?)
  {
    if s != [] && s[0].Space? then Skip(s[1..]) else s
  }

  /** One character, or nothing. */
  function Tok(s: Input, c: char): Option<Input> {
    if s != [] && s[0] == Ch(c) then Some(Skip(s[1..])) else None
  }

  /** Two characters next to each other. */
  function Sym(s: Input, c: char, d: char): Option<Input> {
    if |s| >= 2 && s[0] == Ch(c) && s[1] == Ch(d) then Some(Skip(s[2..])) else None
  }

  function Keyword(s: Input, kw: string): Option<Input> {
    if s != [] && s[0] == Word(kw) then Some(Skip(s[1..])) else None
  }

  function Ident(s: Input): P<string> {
    if s != [] && s[0].Word? then Ok(s[0].w, Skip(s[1..])) else Empty
  }

  // ----- expressions -----

  /** An integer, a call, an expression in parentheses, or a variable; a call that fails may still be a variable. */
  function Primary(s: Input): (r: P<Expr>)
    ensures r.Ok? ==> |r.rest| < |s|
    decreases |s|, 1
  {
    if s != [] && s[0].Int? then
      if s[0].n <= 0x7fff_ffff_ffff_ffff then Ok(Integer(s[0].n), Skip(s[1..])) else Crash
    else
      var call := Attempt(CallExpr(s));
      if !call.Empty? then call else
      var open := Tok(s, '(');
      if open.Some? then
        var e := Committed(CmpExpr(open.value));
        if !e.Ok? then e else
        var close := Tok(e.rest, ')');
        if close.Some? then Ok(e.value, close.value) else Commit
      else
        var x := Ident(s);
        if x.Ok? then Ok(Variable(x.value), x.rest) else Empty
  }

  function CallExpr(s: Input): (r: P<Expr>)
    ensures r.Ok? ==> |r.rest| < |s|
    decreases |s|, 0
  {
    var f := Ident(s);
    if !f.Ok? then Empty else
    var open := Tok(f.rest, '(');
    if open.None? then Commit else
    var args := Args(open.value);
    match args
    case Ok(es, rest) =>
      var close := Tok(rest, ')');
      if close.Some? then Ok(Call(f.value, es), close.value) else Commit
    case Crash => Crash
    case _ => Commit
  }

  /** Expressions separated by commas, possibly none. */
  function Args(s: Input): (r: P<seq<Expr>>)
    ensures r.Ok? ==> |r.rest| <= |s|
    decreases |s|, 5
  {
    match CmpExpr(s)
    case Ok(e, rest) => ArgsLoop([e], rest)
    case Empty => Ok([], s)
    case Commit => Commit
    case Crash => Crash
  }

  function ArgsLoop(acc: seq<Expr>, s: Input): (r: P<seq<Expr>>)
    ensures r.Ok? ==> |r.rest| <= |s|
    decreases |s|, 5
  {
    var comma := Tok(s, ',');
    if comma.None? then Ok(acc, s) else
    match CmpExpr(comma.value)
    case Ok(e, rest) => ArgsLoop(acc + [e], rest)
    case Crash => Crash
    case _ => Commit
  }

  /** `primary ('*' primary)*`, folded to the left. */
  function MulExpr(s: Input): (r: P<Expr>)
    ensures r.Ok? ==> |r.rest| < |s|
    decreases |s|, 2
  {
    var first := Primary(s);
    if first.Ok? then MulLoop(first.value, first.rest) else first
  }

  function MulLoop(acc: Expr, s: Input): (r: P<Expr>)
    ensures r.Ok? ==> |r.rest| <= |s|
    decreases |s|, 2
  {
    var op := Tok(s, '*');
    if op.None? then Ok(acc, s) else
    var rhs := Committed(Primary(op.value));
    if rhs.Ok? then MulLoop(Binary(BinOp.Mul, acc, rhs.value), rhs.rest) else rhs
  }

  /** `mul (('+' | '-') mul)*`, folded to the left. */
  function AddExpr(s: Input): (r: P<Expr>)
    ensures r.Ok? ==> |r.rest| < |s|
    decreases |s|, 3
  {
    var first := MulExpr(s);
    if first.Ok? then AddLoop(first.value, first.rest) else first
  }

  function AddLoop(acc: Expr, s: Input): (r: P<Expr>)
    ensures r.Ok? ==> |r.rest| <= |s|
    decreases |s|, 3
  {
    var plus, minus := Tok(s, '+'), Tok(s, '-');
    if plus.None? && minus.None? then Ok(acc, s) else
    var rhs := Committed(MulExpr(if plus.Some? then plus.value else minus.value));
    if rhs.Ok? then AddLoop(Binary(if plus.Some? then BinOp.Add else BinOp.Sub, acc, rhs.value), rhs.rest) else rhs
  }

  /** Two-character operators are tried first. */
  function CmpOp(s: Input): Option<(BinOp, Input)> {
    if Sym(s, '<', '=').Some? then Some((BinOp.Le, Sym(s, '<', '=').value))
    else if Sym(s, '>', '=').Some? then Some((BinOp.Ge, Sym(s, '>', '=').value))
    else if Sym(s, '=', '=').Some? then Some((BinOp.Eq, Sym(s, '=', '=').value))
    else if Sym(s, '!', '=').Some? then Some((BinOp.Ne, Sym(s, '!', '=').value))
    else if Tok(s, '<').Some? then Some((BinOp.Lt, Tok(s, '<').value))
    else if Tok(s, '>').Some? then Some((BinOp.Gt, Tok(s, '>').value))
    else None
  }

  /** `add (cmp add)?`: comparisons do not chain. */
  function CmpExpr(s: Input): (r: P<Expr>)
    ensures r.Ok? ==> |r.rest| < |s|
    decreases |s|, 4
  {
    var lhs := AddExpr(s);
    if !lhs.Ok? then lhs else
    var op := CmpOp(lhs.rest);
    if op.None? then lhs else
    var rhs := Committed(AddExpr(op.value.1));
    if rhs.Ok? then Ok(Binary(op.value.0, lhs.value, rhs.value), rhs.rest) else rhs
  }

  // ----- statements -----

  function Stmt(s: Input): (r: P<KalAst.Stmt>)
    ensures r.Ok? ==> |r.rest| < |s|
    decreases |s|, 0
  {
    if Keyword(s, "var").Some? then VarDeclStmt(Keyword(s, "var").value)
    else if Keyword(s, "return").Some? then ReturnStmt(Keyword(s, "return").value)
    else if Keyword(s, "while").Some? then WhileStmt(Keyword(s, "while").value)
    else if Keyword(s, "if").Some? then IfStmt(Keyword(s, "if").value)
    else
      var assign := Attempt(AssignStmt(s));
      if assign.Empty? then ExpressionStmt(s) else assign
  }

  /** The end of a statement. */
  function Semicolon(s: KalAst.Stmt, rest: Input): (r: P<KalAst.Stmt>)
    ensures r.Ok? ==> |r.rest| < |rest|
  {
    var semi := Tok(rest, ';');
    if semi.Some? then Ok(s, semi.value) else Commit
  }

  function VarDeclStmt(s: Input): (r: P<KalAst.Stmt>)
    ensures r.Ok? ==> |r.rest| < |s|
  {
    var x := Ident(s);
    if !x.Ok? then Commit else
    var eq := Tok(x.rest, '=');
    if eq.None? then Semicolon(VarDecl(x.value, None), x.rest) else
    match CmpExpr(eq.value)
    case Ok(e, rest) => Semicolon(VarDecl(x.value, Some(e)), rest)
    case Crash => Crash
    case _ => Commit
  }

  function ReturnStmt(s: Input): (r: P<KalAst.Stmt>)
    ensures r.Ok? ==> |r.rest| < |s|
  {
    match CmpExpr(s)
    case Ok(e, rest) => Semicolon(Return(e), rest)
    case Crash => Crash
    case _ => Commit
  }

  function AssignStmt(s: Input): (r: P<KalAst.Stmt>)
    ensures r.Ok? ==> |r.rest| < |s|
  {
    var x := Ident(s);
    if !x.Ok? then Empty else
    var eq := Tok(x.rest, '=');
    if eq.None? then Commit else
    match CmpExpr(eq.value)
    case Ok(e, rest) => Semicolon(Assign(x.value, e), rest)
    case Crash => Crash
    case _ => Commit
  }

  function ExpressionStmt(s: Input): (r: P<KalAst.Stmt>)
    ensures r.Ok? ==> |r.rest| < |s|
  {
    match CmpExpr(s)
    case Ok(e, rest) => Semicolon(ExprStmt(e), rest)
    case Empty => Empty
    case Commit => Commit
    case Crash => Crash
  }

  function WhileStmt(s: Input): (r: P<KalAst.Stmt>)
    ensures r.Ok? ==> |r.rest| < |s|
    decreases |s|, 3
  {
    match CmpExpr(s)
    case Ok(c, rest) =>
      var body := Block(rest);
      if body.Ok? then Ok(While(c, body.value), body.rest) else if body.Crash? then Crash else Commit
    case Crash => Crash
    case _ => Commit
  }

  function IfStmt(s: Input): (r: P<KalAst.Stmt>)
    ensures r.Ok? ==> |r.rest| < |s|
    decreases |s|, 3
  {
    match CmpExpr(s)
    case Ok(c, rest) =>
      var thn := Block(rest);
      if !thn.Ok? then (if thn.Crash? then Crash else Commit) else
      var else_ := Keyword(thn.rest, "else");
      if else_.None? then Commit else
      var els := Block(else_.value);
      if els.Ok? then Ok(If(c, thn.value, els.value), els.rest) else if els.Crash? then Crash else Commit
    case Crash => Crash
    case _ => Commit
  }

  /** Statements in braces. */
  function Block(s: Input): (r: P<seq<KalAst.Stmt>>)
    ensures r.Ok? ==> |r.rest| < |s|
    decreases |s|, 2
  {
    var open := Tok(s, '{');
    if open.None? then Empty else
    var body := Stmts(open.value);
    if !body.Ok? then Committed(body) else
    var close := Tok(body.rest, '}');
    if close.Some? then Ok(body.value, close.value) else Commit
  }

  /** As many statements as there are. */
  function Stmts(s: Input): (r: P<seq<KalAst.Stmt>>)
    ensures r.Ok? ==> |r.rest| <= |s|
    decreases |s|, 1
  {
    match Stmt(s)
    case Ok(first, rest) =>
      var more := Stmts(rest);
      if more.Ok? then Ok([first] + more.value, more.rest) else more
    case Empty => Ok([], s)
    case Commit => Commit
    case Crash => Crash
  }

  // ----- programs -----

  datatype Definition = Definition(name: string, function_: Function)

  function Params(s: Input): (r: P<seq<string>>)
    ensures r.Ok? ==> |r.rest| <= |s|
  {
    var x := Ident(s);
    if x.Ok? then ParamsLoop([x.value], x.rest) else Ok([], s)
  }

  function ParamsLoop(acc: seq<string>, s: Input): (r: P<seq<string>>)
    ensures r.Ok? ==> |r.rest| <= |s|
    decreases |s|
  {
    var comma := Tok(s, ',');
    if comma.None? then Ok(acc, s) else
    var x := Ident(comma.value);
    if x.Ok? then ParamsLoop(acc + [x.value], x.rest) else Commit
  }

  function FuncDef(s: Input): (r: P<Definition>)
    ensures r.Ok? ==> |r.rest| < |s|
  {
    var def := Keyword(s, "def");
    if def.None? then Empty else
    var name := Ident(def.value);
    if !name.Ok? then Commit else
    var open := Tok(name.rest, '(');
    if open.None? then Commit else
    var params := Params(open.value);
    if !params.Ok? then Commit else
    var close := Tok(params.rest, ')');
    if close.None? then Commit else
    var body := Committed(Block(close.value));
    match body
    case Ok(ss, rest) => Ok(Definition(name.value, Function(params.value, ss)), rest)
    case Crash => Crash
    case _ => Commit
  }

  function FuncDefs(s: Input): P<seq<Definition>>
    decreases |s|
  {
    match FuncDef(s)
    case Ok(d, rest) =>
      var more := FuncDefs(rest);
      if more.Ok? then Ok([d] + more.value, more.rest) else more
    case Empty => Ok([], s)
    case Commit => Commit
    case Crash => Crash
  }

  /** Function definitions up to the end of the input. */
  function ParseProgram(s: Input): P<seq<Definition>> {
    var ds := FuncDefs(Skip(s));
    if ds.Ok? && ds.rest != [] then Commit else ds
  }
}

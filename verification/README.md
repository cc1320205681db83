# Verified model of pliron and its Kaleidoscope compiler

pliron is a compiler framework in the style of MLIR: operations own regions, regions own blocks, blocks own
operations, and values and blocks carry their uses. Its Kaleidoscope example compiles a small imperative language
through structured IR to a control-flow graph of LLVM-dialect operations.

The project models the parts in which the state and the control flow are intricate, and proves what they are for:

- **The Kaleidoscope compiler** (`Kal*.dfy`). `KalAst` gives the language a definitional interpreter over a stack of
  bindings. `KalIR` gives one interpreter for structured ops, for flat blocks, and for every mixture in between.
  `KalFromAst` is the first lowering, as a function and as the class that carries it out on a variable map and a list
  of ops; `KalFromAstCorrect` proves it correct by simulation. `KalToLlvm` holds the rewrites of the second lowering,
  `KalToLlvmCorrect` proves that each of them keeps every call's result in both directions, and `KalConvert` carries
  them out on mutable blocks until none is left. `KalPipeline` puts both stages together, and `KalMachine` takes the
  result down to a small-step machine with an explicit stack. `KalTerminators`, `KalSideConditions` and `KalLoopScope`
  are about the side conditions: which functions are accepted, which pass the IR verifier's terminator rule, and when
  the re-evaluated loop condition reads the right slots. `KalExamples` pins the meaning down from outside: exact
  arithmetic, every bit of a comparison, and programs whose results are known, down to their compiled form. `KalParser` is
  the grammar, over lexemes. `KalRoundTrip` describes every way to write a program, with any white space and any redundant
  parentheses, and proves that each is read as that program; `KalGrammar` proves that nothing else is read. `KalLexer` takes
  both down to characters, with `Decimals` for numbers, `KalWritable` says which programs there is a text for, and
  `KalSamples` reads two concrete ones.
- **The SSA graph** (`DefUse`, `UseChain`, `IrForest`, `IrState`, `IrContext`, `IrVerify`): def-use chains of values
  and of blocks, the containment forest, creation, mutation and recursive erasing, and the recursive verifier.
- **Intrusive lists** (`LinkedList`, `ListIter`): links updated in place for all lists at once, and the double-ended
  iterator.
- **Forward references in the parser** (`NameScopes`, `NameBook`, `NameTracker`): placeholders made on first use and
  replaced on definition, against a reading of the same input in which there are no placeholders.
- **The pass manager** (`PassManager`): the analysis cache under nested managers, guards and skips, against the same
  pipeline without a cache, and against the history of the passes that ran.
- **Smaller cores**: the hash-consing store (`UniqueStore`), the identifier legaliser (`Legaliser`), ordered
  deduplication of interface verifiers (`InterfaceVerifiers`), the `Location` printer and parser (`Location`), and the
  symbol tables (`SymbolScan`, `SymbolTables`).

Code that updates state in place is modelled by classes and methods with loops, each proved against a function of the
old state; what the source promises is then proved about those functions. Fuel appears in the interpreters only to
make them total: "a call gives `r`" means that it ends with `r` for some amount of fuel, and `r` is a value or undefined
behaviour.

## Conventions

- Arithmetic wraps at 64 bits; a true comparison is -1, a one-bit one sign-extended.
- A declared name is in scope, without a value, in its own initialiser. A function that falls off its end returns 0.
- Reading a variable that was never given a value, calling an unknown function and passing the wrong number of
  arguments are undefined behaviour in the source language and in both IRs alike.
- Arena keys, value ids and use ids are natural numbers that are never used twice.
- Every induction is written out: the lemmas over recursive data carry `{:induction false}`, so that none rests on an induction
  hypothesis of the verifier's own making.

## What turned out false

- A loop body that redeclares a variable of the loop's condition makes the compiled loop test the inner variable
  (`KalLoopScope.RedeclarationChangesMeaning`, on a concrete program). The re-evaluation reads the right slots exactly
  when the body itself declares none of the condition's variables (`KalSideConditions.ReevaluationReadsSameSlots`).
- A function whose `return` is not the last statement of its list keeps its meaning, but its blocks have a terminator in
  the middle: the compiled function has its terminators in place exactly when returns come last
  (`KalSideConditions.CompiledCleanIffReturnsLast`, with a concrete one in `KalSideConditions.TwoReturnsNotClean`).
- An assignment or expression statement whose first word is a statement keyword is not read as itself, nor is anything that
  holds one; words of their own are the exact condition (`KalRoundTrip.LineBackIff`, `KalRoundTrip.TextBackIff`, with a
  concrete one in `KalRoundTrip.KeywordAssigned`). Parentheses help an expression statement and nothing helps an assignment:
  there is a text for a program exactly when nothing is assigned to such a name, its literals have no sign, and its names are
  identifiers (`KalWritable.TextExistsIff`).
- The legaliser returns an invalid identifier exactly for names that begin with an alphabetic character outside of
  ASCII (`Legaliser.LegalIff`, `Legaliser.NonAsciiLetterStays`).
- A failed `insert` leaves the symbol table different from its body unless the op was there before
  (`SymbolTables.FailedInsertIff`; `SymbolTables.RefusedStays` is a concrete one).
- Erasing checks the uses of an op's own results, and of a block's arguments, predecessors and direct ops. A definition
  nested deeper that is used outside is freed all the same, and its users keep operands that name nothing: the context
  is valid afterwards exactly when there is no such use (`IrContext.Context.Erase`, `IrState.ErasedTwoWayIff`, with a
  concrete one in `IrState.ErasedTooEarly`).
- Inserting a node under something inside itself, or moving a region to an op inside it, is not stopped and makes a cycle:
  the context is valid afterwards exactly when that is not so (`IrContext.Context.Insert`, `IrContext.Context.MoveRegion`).
- Appending a list to itself ends exactly for lists of one node at most (`LinkedList.ListArena.Append`,
  `LinkedList.SameListGoesOn`).
- Parsing a call-site location also takes the white space behind it (`Location.After` in `Location.ParsePrint`).

## Model

| member | source | states |
|---|---|---|
| KalPipeline.CompilePreserves | examples/kaleidoscope/to_llvm.rs:78-116 | main result: if no loop body redeclares a variable of its condition, a call of the compiled program gives a result exactly when the call of the source program gives it, for every program, function and arguments |
| KalMachine.CompiledRunsAsSource | examples/kaleidoscope/to_llvm.rs:78-116 | the same down to single steps: the machine with its explicit stack ends with a result exactly when the source call does |
| KalMachine.MachineAgrees | examples/kaleidoscope/to_llvm.rs:118-330 | on flat programs the small-step machine and the interpreter reach the same results, both ways |
| KalPipeline.LoweringPreserves | examples/kaleidoscope/from_ast.rs:60-335 | a lowered program gives exactly what the source program gives, and is ready for conversion |
| KalPipeline.LoweredOk | examples/kaleidoscope/from_ast.rs:60-266 | every lowered function has regions of one block that ends in a yield or a return, no yield elsewhere, and only ids that exist |
| KalPipeline.CompileFunction | examples/kaleidoscope/to_llvm.rs:108-116 | a function that can be lowered becomes a flat body that is equivalent to its lowering in every module; otherwise the lowering's own error comes out |
| KalPipeline.Compile | examples/kaleidoscope/to_llvm.rs:108-116 | every function of the program is compiled, or the error is that of one of its functions |
| KalFromAst.Lowering.SpillParams | examples/kaleidoscope/from_ast.rs:80-91 | the loop emits a slot and a store per parameter, and binds each name to its slot, the last one winning |
| KalFromAst.Lowering.LowerExpr | examples/kaleidoscope/from_ast.rs:272-335 | appends exactly the code of the expression and returns its value, or the error for an undeclared name |
| KalFromAst.Lowering.LowerStmts | examples/kaleidoscope/from_ast.rs:115-126 | appends the code of the statements in order and reports what the last one reported |
| KalFromAst.Lowering.LowerStmt | examples/kaleidoscope/from_ast.rs:130-266 | appends exactly the code of one statement, updates the variable map, and reports whether it was a return |
| KalFromAst.Lowering.LowerBranch | examples/kaleidoscope/from_ast.rs:189-214 | a branch is lowered with a copy of the variable map and closed by a yield unless a return came last |
| KalFromAst.Lowering.LowerWhile | examples/kaleidoscope/from_ast.rs:225-256 | the condition is stored to a slot before the loop; the variable map does not change |
| KalFromAst.Lowering.LowerLoopBody | examples/kaleidoscope/from_ast.rs:239-253 | unless the body returns, the condition is evaluated again with the body's variables and stored to the slot |
| KalFromAst.LowerFunction | examples/kaleidoscope/from_ast.rs:60-107 | the whole lowering, with the fallback return when the entry block has no terminator |
| KalFromAstCorrect.FunctionSim | examples/kaleidoscope/from_ast.rs:60-335 | for every amount of fuel a lowered function gives what the interpreter gives: a value, undefined behaviour, or no result yet |
| KalFromAstCorrect.BodySim | examples/kaleidoscope/from_ast.rs:60-107 | a lowered body returns what the source body returns, and 0 where the source falls off its end |
| KalFromAstCorrect.StmtsSim | examples/kaleidoscope/from_ast.rs:115-126 | where statements leave the execution their code does, and where they go on the slots again hold the bindings in scope |
| KalFromAstCorrect.ExprSim | examples/kaleidoscope/from_ast.rs:272-335 | the code of an expression binds its value to the result, keeps memory and all older values, and is undefined when the expression is |
| KalFromAstCorrect.BranchSim | examples/kaleidoscope/from_ast.rs:189-214 | after a branch the outer bindings have the values that the branch gave them, and the inner ones are gone |
| KalFromAstCorrect.WhileSim | examples/kaleidoscope/from_ast.rs:225-256 | a lowered loop does what the source loop does |
| KalFromAstCorrect.LoopSim | examples/kaleidoscope/from_ast.rs:225-256 | from a slot that holds the condition's value, the region loop agrees with the source loop over any number of iterations |
| KalFromAstCorrect.CondAfterBody | examples/kaleidoscope/from_ast.rs:246-250 | evaluating the condition among the body's bindings gives what the outer bindings give, if the body does not redeclare its variables |
| KalFromAstCorrect.TerminatedMeansReturn | examples/kaleidoscope/from_ast.rs:112-126 | the flag is true exactly when a return comes last, which is exactly when the emitted ops end in a terminator |
| KalFromAstCorrect.ReturnLastNeverFalls | examples/kaleidoscope/from_ast.rs:172-179 | statements that end in a return never go on behind it |
| KalFromAstCorrect.NoFallback | examples/kaleidoscope/from_ast.rs:95-105 | where the fallback return is left out, the source body cannot fall off its end |
| KalSideConditions.LowersIffScoped | examples/kaleidoscope/from_ast.rs:158-304 | a function is lowered without error exactly when every name is declared before it is used |
| KalSideConditions.CleanIffReturnsLast | examples/kaleidoscope/from_ast.rs:112-126 | every lowered block and region has one terminator, at its end, exactly when every return is last in its list |
| KalSideConditions.CompiledCleanIffReturnsLast | examples/kaleidoscope/to_llvm.rs:352-529 | the same condition decides it for the blocks of the compiled function |
| KalSideConditions.TwoReturnsNotClean | examples/kaleidoscope/from_ast.rs:112-126 | a concrete function with two returns whose lowering, and whatever it is compiled to, has a terminator in the middle |
| KalSideConditions.ReevaluationReadsSameSlots | examples/kaleidoscope/from_ast.rs:243-250 | the re-evaluated condition reads the slots it read before the loop exactly when the body declares none of its variables |
| KalLoopScope.RedeclarationChangesMeaning | examples/kaleidoscope/from_ast.rs:243-250 | for a concrete program that redeclares one, the source call has no result and the lowered call returns 0 |
| KalSideConditions.ReportsFirstFault | examples/kaleidoscope/from_ast.rs:158-304 | the error of a function that cannot be lowered names the first undeclared use in the order of the text, and says whether it was read or assigned |
| KalArith.WrapExact | examples/kaleidoscope/to_llvm.rs:226-258 | truncation changes nothing that fits in 64 bits, and otherwise takes off a multiple of 2^64 |
| KalArith.WrapOnly | examples/kaleidoscope/to_llvm.rs:226-258 | it is the only 64-bit number that does |
| KalArith.SignExtendBits | examples/kaleidoscope/to_llvm.rs:259-269 | a one-bit one becomes 64 ones, and a zero 64 zeros |
| KalExamples.ArithmeticExact | examples/kaleidoscope/to_llvm.rs:226-258 | sums, differences and products that fit are exact, in the source language and in both IRs, and the others are off by a multiple of 2^64 |
| KalExamples.ComparisonExact | examples/kaleidoscope/to_llvm.rs:259-275 | all 64 bits of a comparison are set or clear by the sign of the exact difference |
| KalExamples.CompiledFact | examples/kaleidoscope/to_llvm.rs:78-116 | the compiled factorial gives the factorial of every number, truncated to 64 bits |
| KalExamples.CompiledFib | examples/kaleidoscope/fibonacci.kal:5-11 | the compiled `fib` gives the Fibonacci number of every number, truncated to 64 bits |
| KalExamples.CompiledSubtract | examples/kaleidoscope/to_llvm.rs:78-116 | a compiled difference takes its arguments in the order in which they are given |
| KalExamples.TrueUnlessZero | examples/kaleidoscope/to_llvm.rs:383-389 | every condition but 0 takes the first branch and enters a loop |
| KalExamples.HiddenUntilTheEnd | examples/kaleidoscope/from_ast.rs:158-214 | a concrete block hides an outer name until its end, and a declared name has no value in its own initialiser |
| KalExamples.NothingBehind | examples/kaleidoscope/from_ast.rs:115-126 | an expression without a value ends the execution wherever it stands, and a `return` ends it with its value |
| KalExamples.FallsOff | examples/kaleidoscope/from_ast.rs:95-105 | a function that goes on behind its last statement gives 0 |
| KalToLlvmCorrect.RewritePreserves | examples/kaleidoscope/to_llvm.rs:118-568 | any rewrite at any op at block level of any function of any well-formed module keeps what every call of every function gives, both ways |
| KalToLlvmCorrect.RewriteKeepsOk | examples/kaleidoscope/to_llvm.rs:352-568 | a rewrite leaves a module that the next rewrite applies to: blocks end in terminators, branches have targets, regions are intact |
| KalToLlvmCorrect.LeafStep | examples/kaleidoscope/to_llvm.rs:123-275 | the LLVM ops for a constant, slot, load, store, arithmetic or comparison op compute what it computes, or are undefined with it |
| KalToLlvmCorrect.ForwardIf | examples/kaleidoscope/to_llvm.rs:352-442 | what an `if` and the ops behind it do, the branch, the two inlined blocks and the merge block do |
| KalToLlvmCorrect.BackwardIf | examples/kaleidoscope/to_llvm.rs:352-442 | and the other way round, with the same fuel |
| KalToLlvmCorrect.ForwardWhile | examples/kaleidoscope/to_llvm.rs:448-529 | what a loop and the ops behind it do, the header, the body block with its back edge and the exit block do |
| KalToLlvmCorrect.BackwardWhile | examples/kaleidoscope/to_llvm.rs:448-529 | and the other way round, with the same fuel |
| KalToLlvmCorrect.ForwardFunction | examples/kaleidoscope/to_llvm.rs:533-568 | every call that has a result before a rewrite has it afterwards, also through the new entry block |
| KalToLlvmCorrect.BackwardFunction | examples/kaleidoscope/to_llvm.rs:533-568 | every call that has a result after a rewrite had it before |
| KalTerminators.IfClean | examples/kaleidoscope/to_llvm.rs:392-424 | converting an `if` neither mends nor breaks "one terminator, at the end" |
| KalTerminators.WhileClean | examples/kaleidoscope/to_llvm.rs:463-516 | neither does converting a `while` |
| KalConvertSteps.IfWeight | examples/kaleidoscope/to_llvm.rs:352-442 | converting an `if` leaves exactly one op less to convert, so nothing nested is lost or doubled |
| KalConvertSteps.WhileWeight | examples/kaleidoscope/to_llvm.rs:448-529 | converting a `while` leaves exactly one op less to convert |
| KalConvertSteps.StageNext | examples/kaleidoscope/to_llvm.rs:87-102 | every rewrite of the driver keeps what is done done, keeps the order of the blocks, keeps equivalence with the function at the start, and shrinks what is left |
| KalConvertSteps.IfLaidOut | examples/kaleidoscope/to_llvm.rs:386-437 | behind the block of an `if` come the then block, the else block and the block of the ops behind it, in this order; the condition branches to the first two, and both go on to the third |
| KalConvertSteps.WhileLaidOut | examples/kaleidoscope/to_llvm.rs:463-525 | behind the block of a loop come the header, the body and the block of the ops behind it, in this order; the header branches to the other two, and the body goes back to the header |
| KalConvert.Converter.ConvertLeaf | examples/kaleidoscope/to_llvm.rs:123-330 | inserting the replacement op by op and erasing the original is the rewrite of an op without regions |
| KalConvert.Converter.SplitBlock | examples/kaleidoscope/to_llvm.rs:392-403 | the ops from a position on move, in order, to a new block behind the old one |
| KalConvert.Converter.ConvertIf | examples/kaleidoscope/to_llvm.rs:352-442 | comparing, splitting, branching, closing and inlining both regions and erasing the op is the rewrite of `if`, layout included; replacing a region's yield by a branch, which the source does in two calls of the rewriter, is one step here (`KalToLlvm.Close`) |
| KalConvert.Converter.ConvertWhile | examples/kaleidoscope/to_llvm.rs:448-529 | splitting, creating the header, filling it, closing the body with the back edge, inlining and erasing is the rewrite of `while`, layout included; the body's yield is replaced in one step here as well |
| KalConvert.Converter.ConvertEntry | examples/kaleidoscope/to_llvm.rs:533-568 | a new entry block passes the arguments on to the old one |
| KalConvert.Converter.Convert | examples/kaleidoscope/to_llvm.rs:78-116 | the driver ends, leaves LLVM-dialect ops only, lists every block once with the entry first, and its result is equivalent to the function in every module |
| KalRoundTrip.CmpBack | examples/kaleidoscope/ast.rs:306-409 | an expression, with any white space and any redundant parentheses, is read as that expression in front of anything that cannot continue it |
| KalRoundTrip.ParenBack | examples/kaleidoscope/ast.rs:306-332 | parentheses around an expression, needed or not, give that expression, whatever comes behind them |
| KalWritable.LeftFirst | examples/kaleidoscope/ast.rs:336-409 | without parentheses, two sums or two products in a row are read from left to right, and what binds tighter in front comes first |
| KalWritable.RightFirst | examples/kaleidoscope/ast.rs:336-409 | a product behind a sum or a comparison, and a sum behind a comparison, is its operand |
| KalWritable.SecondComparison | examples/kaleidoscope/ast.rs:379-409 | comparisons do not chain: a second one is left over |
| KalRoundTrip.NotAnAssignment | examples/kaleidoscope/ast.rs:429-519 | an expression statement, `x == e;` included, is never taken for an assignment |
| KalRoundTrip.LineBackIff | examples/kaleidoscope/ast.rs:412-521 | a statement, however it is written, is read as what it was written for exactly when it and all statements in it begin with words of their own |
| KalRoundTrip.TextBackIff | examples/kaleidoscope/ast.rs:524-573 | so is a whole program, with nothing left over, from any way to write it |
| KalGrammar.AcceptedIff | examples/kaleidoscope/ast.rs:306-573 | the parser gives a program exactly for the ways to write it: no other input is accepted, and none is read as another program |
| KalWritable.ReadableIff | examples/kaleidoscope/ast.rs:412-573 | the parser can give a program exactly when its literals have no sign and it assigns to no name that begins a statement |
| KalRoundTrip.KeywordAssigned | examples/kaleidoscope/ast.rs:506-519 | a concrete assignment, to a variable named `var`, that is no statement as it is written |
| KalLexer.LexemesIff | examples/kaleidoscope/ast.rs:188-260 | a text is read as exactly the lexemes that its pieces spell: words and numbers as long as they can be, any white space, punctuation one by one |
| KalLexer.AsciiIdentifiers | examples/kaleidoscope/ast.rs:200-217 | with ASCII letters only, the words are exactly the identifiers of the IR |
| Decimals.ValueConcat | examples/kaleidoscope/ast.rs:220-228 | digits in front count for as many powers of ten as there are digits behind them |
| KalLexer.TextSeparated | examples/kaleidoscope/ast.rs:524-573 | white space behind the keywords that need it keeps all words and numbers of a program apart |
| KalLexer.ProgramTextBack | examples/kaleidoscope/ast.rs:188-573 | from any text of a program, with any characters of white space, none where none is needed, and any redundant parentheses, the parser gives the program exactly when its statements begin with words of their own |
| KalLexer.TextAcceptedIff | examples/kaleidoscope/ast.rs:188-573 | a text is read as a program exactly when its pieces spell a way to write that program |
| KalWritable.TextExistsIff | examples/kaleidoscope/ast.rs:188-573 | there is a text for a program exactly when its names are identifiers, its literals have no sign, and it assigns to no name that begins a statement |
| KalSamples.FibRead | examples/kaleidoscope/fibonacci.kal:5-11 | the lexemes of `fib` are read as `fib` |
| KalSamples.FactRead | examples/kaleidoscope/ast.rs:412-573 | the lexemes of a factorial, with a declaration, a loop and assignments, are read as that function |
| DefUse.UidsDistinct | src/operation.rs:657-697 | in a two-way graph two operands with one use id are the same operand |
| DefUse.AddKeeps | src/value.rs:79-84 | a new operand that is tracked under a fresh id keeps the graph two-way |
| DefUse.DropKeeps | src/operation.rs:648-655 | an operand is tracked where it should be, and dropping it with its use keeps the graph two-way |
| DefUse.ReplaceKeeps | src/operation.rs:387-391 | replacing an operand, new use first, keeps the graph two-way and never drops a use that is not there |
| UseChain.Chain.InsertOperand | src/operation.rs:395-398 | exactly one operand and one use are added, at the given position, and the graph stays two-way |
| UseChain.Chain.RemoveOperand | src/operation.rs:404-409 | exactly one operand and its use are removed, and the definition it named is returned |
| UseChain.Chain.ReplaceOperand | src/operation.rs:387-391 | exactly one operand changes; its old use goes and a new one comes |
| UseChain.Chain.DropUses | src/operation.rs:557-565 | the op has no operands left, and exactly its uses are gone from all use sets |
| UseChain.Chain.ReplaceUse | src/value.rs:94-108 | one use moves to the other definition, and nothing happens if both are the same |
| UseChain.Chain.ReplaceSomeUses | src/value.rs:235-252 | the loop over the touched uses moves exactly the uses that satisfy the predicate, and the graph stays two-way |
| UseChain.ReplacedExactly | src/value.rs:235-262 | exactly the operands that named the value and satisfied the predicate name the other one now; no other operand and no id changes |
| UseChain.ReplacedConserves | src/value.rs:235-262 | the number and the union of the two use sets stay the same, all other use sets stay as they were, and with a predicate true of every use the old value is unused |
| IrContext.Context.NewOp | src/operation.rs:177-219 | the new op has its results, operands and successors in order and its regions; everything else keeps its operands, children, parent and definitions, and the context stays valid |
| IrContext.Context.NewBlock | src/basic_block.rs:131-156 | the new block has its arguments and no parent; everything else is as it was |
| IrContext.Context.AddRegion | src/operation.rs:530-534 | a fresh region is last among the op's regions |
| IrContext.Context.InsertDef | src/basic_block.rs:220-226 | a fresh result or argument, not used yet, is at the given position, those before it are where they were and those behind it one further on; all other lists are unchanged and the context stays valid |
| IrContext.Context.RemoveDef | src/basic_block.rs:229-239 | an unused result or argument goes, and the context stays valid |
| IrContext.Context.InsertOperand | src/operation.rs:395-398 | an operand with a fresh use id is at the given position and moves only those behind it, and its definition has one more use; def-use chains, forest and ids stay valid |
| IrContext.Context.RemoveOperand | src/operation.rs:404-409 | the operand and its use go, those behind it move up by one, and the context stays valid |
| IrContext.Context.ReplaceOperand | src/operation.rs:387-391 | one operand is exchanged under a fresh use id; the context stays valid |
| IrContext.Context.InsertSuccessor | src/operation.rs:460-469 | the same for successors and predecessor sets |
| IrContext.Context.ReplaceSuccessor | src/operation.rs:428-437 | one successor is exchanged under a fresh use id; the context stays valid |
| IrContext.Context.RemoveSuccessor | src/operation.rs:474-483 | the same for removal |
| IrContext.Context.ReplaceSomeUses | src/value.rs:235-252 | replacing uses keeps the whole context valid and touches nothing but the two use sets and the operands |
| IrContext.Context.RetargetSomePreds | src/value.rs:478-505 | retargeting branches keeps the whole context valid and touches nothing but the two predecessor sets and the successors |
| IrContext.Context.Insert | src/linked_list.rs:150-288 | the node is at the given position, every node before it is where it was, every later one is one further on, and all other lists are unchanged; the context is valid exactly when the node does not hold its new owner |
| IrContext.Context.MoveRegion | src/region.rs:53-67 | the region becomes the last of the other op, the last region of its old op takes its place there, and nothing happens if it is the same op; the context is valid exactly when the op is not inside the region |
| IrContext.Context.DropAllUses | src/operation.rs:557-574 | exactly the uses held by the node and everything nested in it are dropped, whatever the nesting |
| IrContext.Context.Dealloc | src/operation.rs:624-629 | frees exactly the node and what is nested in it, each once |
| IrContext.Context.Erase | src/operation.rs:577-592 | whenever the code's own checks pass, erasing ends and leaves exactly the state without the subtree; the context is valid again exactly when what was defined inside was used inside only |
| IrState.ErasedForest | src/operation.rs:577-592 | erasing frees exactly the subtree; survivors keep owner, definitions and children, in order, but for the erased node |
| IrState.ErasedUses | src/operation.rs:557-592 | survivors keep their operands and successors, and definitions lose exactly the uses from inside |
| IrState.ErasedOk | src/basic_block.rs:291-327 | containment, arenas and ids are in order after erasing, whatever was used where |
| IrState.ErasedTwoWayIff | src/operation.rs:577-592 | def-use chains are two-way after erasing exactly when no survivor used what was defined inside |
| IrState.ErasedTooEarly | src/operation.rs:577-592 | a concrete context in order, and an op that the code's checks let be erased, after which the context is not in order |
| IrForest.LinkOk | src/linked_list.rs:150-192 | putting an unowned node under one that is not inside it keeps the forest consistent and without cycles |
| IrForest.CycleUnranked | src/region.rs:53-67 | a node that comes to own something it is inside of leaves no forest, whatever the ranks |
| IrVerify.VerifyIff | src/operation.rs:792-831 | the recursive verifier passes on a node exactly when every nested node's own checks pass |
| IrVerify.TwoWayVerifies | src/operation.rs:673-688 | on two-way chains the verifier passes on every node |
| IrVerify.VerifiedIsExact | src/value.rs:308-321 | if it passes on every root, a use is in a definition's set exactly when its operand names that definition |
| LinkedList.ListArena.InsertAfter | src/linked_list.rs:150-192 | the links spell out the list with the node right behind the mark; all other lists, and all other nodes outside of lists, are as they were |
| LinkedList.ListArena.InsertBefore | src/linked_list.rs:195-238 | the same right before the mark |
| LinkedList.ListArena.InsertAtFront | src/linked_list.rs:241-263 | the node comes first |
| LinkedList.ListArena.InsertAtBack | src/linked_list.rs:266-288 | the node comes last |
| LinkedList.ListArena.Unlink | src/linked_list.rs:302-328 | the list loses exactly the node, which has no links left; nodes outside of lists stay |
| LinkedList.ListArena.Append | src/linked_list.rs:130-142 | for two different lists the loop ends, the donee is the concatenation and the donor is empty; a list with one node at most may be given twice, and stays as it is |
| LinkedList.SameListGoesOn | src/linked_list.rs:130-142 | for a longer list given twice there is one more step after any number of steps |
| LinkedList.InsertConsistent | src/linked_list.rs:150-288 | writing the new links at any position leaves head, tail, prev, next and container right for all lists at once |
| LinkedList.RemoveConsistent | src/linked_list.rs:302-328 | so does writing the links around a removed node |
| ListIter.RunSplits | src/linked_list.rs:80-114 | any interleaving of calls succeeds: the fronts are a prefix, the backs a reversed suffix, what remains is between them, and after as many calls as nodes nothing remains |
| ListIter.Iter.Next | src/linked_list.rs:83-96 | returns the front cursor and moves it, or ends both cursors when they meet |
| ListIter.Iter.NextBack | src/linked_list.rs:104-113 | the same from the back |
| NameTracker.ParseTopLevel | src/parsable.rs:536-590 | for any number of regions, parsing succeeds exactly when the op is isolated or has no region, and every scope of values and of labels defines each name once and all the names it uses; then no scope is open, there are no definitions but those that were written, each its own, uses and operands agree, every op has the operands it was written with, and each operand names the definition that was written for its name in its own scope |
| NameTracker.SameDefinitionIff | src/parsable.rs:420-480 | afterwards two operands name the same definition exactly when they were written with the same name in the same scope |
| NameScopes.ReadAllIff | src/parsable.rs:420-590 | reading scope by scope, item by item, succeeds exactly on inputs whose scopes are in order, whatever the order of uses and definitions |
| NameScopes.ReadAllNames | src/parsable.rs:420-434 | the operands of an op stand for the names that the op uses, in order, over all scopes |
| NameScopes.ReadAllDefs | src/parsable.rs:438-480 | the `k`-th definition made stands for the `k`-th name that the text defines, over all scopes |
| NameTracker.NameTracker.ParseAll | src/parsable.rs:536-590 | succeeds exactly when both kinds of names can be read from the current state, and leaves what reading leaves; every place that has a definition has its own one, made for it in the order of the text, and what was made before stays |
| NameTracker.NameTracker.EnterRegion | src/parsable.rs:536-549 | opens a label scope, and a value scope for isolated ops; fails only at top level without isolation, and then changes nothing |
| NameTracker.NameTracker.ExitRegion | src/parsable.rs:554-590 | succeeds exactly when every name seen in the scopes to be closed is defined in them |
| NameTracker.Resolver.UseBy | src/parsable.rs:420-434 | the operand is made for its name in the innermost scope; a name seen for the first time gets a placeholder |
| NameTracker.Resolver.Define | src/parsable.rs:438-480 | fails exactly when the scope has a definition of the name already, changing nothing; otherwise all uses of a placeholder move to the definition and the placeholder is gone |
| NameBook.ResolveKeeps | src/parsable.rs:503-530 | replacing a placeholder keeps every use on what its name is bound to, and leaves no use of the placeholder |
| NameBook.OperandResolved | src/parsable.rs:554-590 | once its scope is closed, an operand names the definition given for its name there |
| PassManager.Manager.Run | src/pass.rs:250-423 | for any nesting of managers and guards over honest passes, what a successful run claims to be preserved equals fresh computation; the steps that ran lead from the old IR to the new one, it reports a change exactly when one of them did, and if no pass hides a change then "unchanged" means the old IR; if passes do not depend on what is cached, IR, flag and success are those of the pipeline without a cache |
| PassManager.Manager.RunPass | src/pass.rs:456-550 | the same with skipping and with verification before and after; a single pass succeeds exactly when it is skipped, or its own run and the verifications asked for succeed, and then has run once |
| PassManager.Manager.RunSeq | src/pass.rs:250-272 | the same for a list of passes: "changed" exactly when a step was, "unchanged" only with the old IR, each pass once and in order; after every step the whole cache equals fresh computation, exactly the kinds still cached are reported preserved, and analyses that no pass drops stay |
| PassManager.Manager.RunNested | src/pass.rs:299-330 | the same over all blocks of all regions: a pass runs on exactly their ops, in order, when passes leave the structure alone |
| PassManager.Manager.RunBlocks | src/pass.rs:308-321 | the same over the ops of some blocks |
| PassManager.Manager.RunOps | src/pass.rs:311-319 | the same over some ops; what was changed before stays reported |
| PassManager.InRegionsIff | src/pass.rs:309-314 | the ops a nested pass runs on are exactly those in a block of a region of the op |
| PassManager.RegionsInOrder | src/pass.rs:309-314 | those of earlier regions come first |
| PassManager.Manager.ComputeAnalysis | src/pass.rs:657-668 | returns what fresh computation returns, cached or not; what the analysis asked the manager for while it was computed is cached too, the whole cache stays fresh, and nothing is dropped |
| PassManager.Manager.Compute | src/pass.rs:657-668 | the loop that answers an analysis' questions from the manager ends, and gives what answering them by fresh computation gives |
| PassManager.SkippedIsErased | src/pass.rs:469-485 | skipping passes by name, however deep they are nested, has the effect of the pipeline with them taken out |
| UniqueStore.Store.GetOrCreateUnique | src/storage_uniquer.rs:83-109 | returns the index of the one stored object equal to the given one, storing it only if there is none |
| UniqueStore.Store.Get | src/storage_uniquer.rs:112-121 | finds exactly what was saved, collisions or not |
| UniqueStore.SameIndexIffEqual | src/storage_uniquer.rs:83-109 | over every run of saves two saves return one index exactly when the objects are equal |
| UniqueStore.IndicesDenote | src/storage_uniquer.rs:83-121 | an index keeps denoting the object it was returned for, however many saves follow |
| UniqueStore.TypesKeptApart | src/uniqued_any.rs:71-82 | in one store for all types, comparing by downcast is one equivalence, and objects of different types are never equal |
| Legaliser.Legaliser.Legalise | src/identifier.rs:268-289 | the maps stay mutually inverse, a known name keeps its identifier, a new one gets its legal form, or else that with an underscore and the first number that is free, after at most as many renamings as the table has entries; the identifier's validity is decided by the name's first character |
| Legaliser.KeptCharacters | src/identifier.rs:244-265 | character by character: letters, digits and underscores are kept, and an alphabetic character in front; everything else becomes an underscore, and so does the empty name |
| Legaliser.Legaliser.SourceName | src/identifier.rs:292-294 | undoes legalising, and knows nothing else |
| Legaliser.IsValid | src/identifier.rs:31-47 | the loop accepts exactly a letter or underscore followed by letters, digits and underscores |
| Legaliser.LegalIff | src/identifier.rs:244-265 | replacing illegal characters gives an identifier exactly when the name is empty or its first character is ASCII or not alphabetic, and leaves identifiers alone |
| Legaliser.NonAsciiLetterStays | src/identifier.rs:244-265 | a concrete name that stays invalid |
| Legaliser.InverseInjective | src/identifier.rs:268-289 | names have the same identifier exactly when they are the same |
| InterfaceVerifiers.Collect | src/context.rs:373-410 | the two nested loops leave every owner the list of its contributions, each verifier where it occurs first |
| InterfaceVerifiers.CollectedAre | src/context.rs:373-410 | that list has no duplicates, holds exactly the verifiers of the owner's interfaces and their super-interfaces, and respects the order, for every registration order |
| InterfaceVerifiers.AfterSupers | src/context.rs:392-394 | in such a list a verifier comes strictly after those of all its direct and indirect super-interfaces |
| InterfaceVerifiers.AllVerifiersAre | pliron-derive/src/interfaces.rs:50-60 | an interface contributes exactly itself and its direct and indirect super-interfaces |
| InterfaceVerifiers.AllVerifiersOrdered | pliron-derive/src/interfaces.rs:50-60 | and does so with super-interfaces first |
| InterfaceVerifiers.SupersInOrder | pliron-derive/src/interfaces.rs:50-60 | the super-interfaces contribute their whole lists in the order in which they are declared |
| Location.ParsePrint | src/location.rs:222-353 | any nested location, printed in front of any input, is read back and leaves that input, but for white space behind a call site |
| Location.PositionText | src/location.rs:229-232 | what a position looks like, read as that position |
| Location.CallSiteText | src/location.rs:256-263 | what a call site looks like |
| Location.NamedText | src/location.rs:248-255 | what a named location looks like |
| Location.FusedText | src/location.rs:236-247 | what fused locations look like |
| Location.Sources | src/location.rs:187-214 | the sources of a location, each once, in the order of first mention |
| Location.MentionedIff | src/location.rs:187-214 | a source is mentioned exactly when a position in it is nested in the location, both sides of a call site included |
| Location.MentionedInOrder | src/location.rs:204-212 | a callee is mentioned before its caller, and fused locations in their order |
| SeqLists.FirstSeenOrder | src/location.rs:187-214 | of two kept values, the one that was seen first comes first |
| Location.OnlySource | src/location.rs:177-184 | there is a single source exactly when all that is mentioned is that source |
| SymbolTables.SymbolTables.GetSymbolTable | src/symbol_table.rs:60-90 | the table that is built, or found cached, is what a scan of the body gives |
| SymbolTables.SymbolTables.Lookup | src/symbol_table.rs:264-272 | a cached lookup finds a symbol exactly when the body has one of that name, and finds that one |
| SymbolTables.SymbolTables.Insert | src/symbol_table.rs:94-154 | each error exactly when its check is the first that fails; on success the op is in the body at the point given, with what was before the point before it and what was behind it behind it, or without a point last, or last but for a terminator; nothing else moved, names stay unique and all cached tables stay right |
| SymbolTables.PlaceIs | src/symbol_table.rs:131-151 | the place chosen is the point given, or the end of the body, or right before the terminator that ends it |
| SymbolTables.SymbolTables.Remove | src/symbol_table.rs:158-171 | fails exactly when the op is not directly in the table op; otherwise the body and the table lose exactly it |
| SymbolTables.SymbolTables.Erase | src/symbol_table.rs:175-183 | as removal, and then exactly the op's subtree is freed; tables of surviving ops stay right (containment only: `IrContext.Context.Erase` is about the uses) |
| SymbolTables.SymbolTables.Nearest | src/symbol_table.rs:241-253 | the loop ends and returns the nearest table op outwards |
| SymbolTables.NearestIsNearest | src/symbol_table.rs:241-253 | any other table around the op is also around the one found, and one is found if there is any |
| SymbolTables.DefaultKeepsTerminator | src/symbol_table.rs:139-151 | without an insertion point a terminator that comes last stays last |
| SymbolTables.NotInBody | src/symbol_table.rs:100-128 | an op that is in the table's body already is in its table, so inserting it again is always a redefinition |
| SymbolTables.FailedInsertIff | src/symbol_table.rs:100-112 | the entry written before an error leaves the table right exactly when the op was in the body before |
| SymbolTables.RefusedStays | src/symbol_table.rs:100-112 | a concrete insert that is refused for its name and leaves the table wrong |
| SymbolScan.ScanFinds | src/symbol_table.rs:60-90 | a scan maps a name to an op exactly when the body defines it so |

## Left out

- KalPipeline.CompilePreserves: asks that no loop body redeclares a variable of its condition; the property is false
  without it, and the exact condition is given for the slots that are read, not for the results (the inner variable may
  happen to have the right value).
- IrContext.Context.Erase: the panic itself is not modelled; what the code checks before it frees anything is the precondition,
  and nothing else is asked for.
- SymbolTables.SymbolTables.Erase: containment and tables only; dropping the op's uses, and the panic on results in use, are part of
  `IrContext.Context.Erase`.
- LinkedList.ListArena.Append: a longer list that is given twice is excluded, as the loop does not end for it; what the steps do then is
  in `LinkedList.SameListGoesOn`.
- SymbolTables.SymbolTables.Insert: a symbol is not put into something inside itself, and an op in a block without a region is not
  inserted (the code panics, as the op is linked).
- NameTracker.NameTracker.ExitRegion: what a failed exit leaves behind is not stated.
- KalRoundTrip.TextBackIff: negative literals have no notation; an integer literal out of range is a crash, and such a text is not a way to
  write a program.
- The conversion driver's worklist (src/irbuild/dialect_conversion.rs:232-258, 417-520), which starts in pre-order and puts pending
  definitions of operands first, is not a data structure here: ops are visited in pre-order along the layout, the function op
  first, which is that order, as definitions come before uses. `KalToLlvmCorrect.RewritePreserves` holds for any order. Yields are
  erased by the rewrites of their parents only, and region blocks get their labels when they are inlined.
- A structured op is appended together with its finished regions; the source appends it first and fills it then.
- Memory is local to an activation, slots are never freed, and the stack does not overflow.
- Types, attributes, names of blocks, and source locations of ops; the LLVM library and the JIT.
- Values keep their ids when their defining op is replaced by the conversion.
- The parsers of the source read characters themselves; here the grammar is over lexemes, and `KalLexer` divides a text into them.
  Which characters are letters and white space is a parameter. Identifiers may be spelled like keywords, as in the source. Error messages of the parsers.
- The three arenas are one map from tagged nodes, child lists are sequences (`LinkedList` shows that links refine them),
  small sets are sets, and interior mutability does not appear.
- The verifier's checks other than those of operands, successors, values and block uses: dominance, terminators,
  predecessors in the same region, types, and what ops and interfaces verify themselves.
- The pass manager's logging, timing, printing and counting; a pass is a function of the op, the IR and the cache. An analysis
  that asks for itself, directly or through others, would not end; changing a cached analysis in place is not modelled.
- The symbol names of ops are fixed while a table is in use; symbol visibility and the walk over all tables.
- Quoted strings, numbers and attribute metadata are read as a whole in locations.
- Characters stand for themselves in the legaliser: which characters outside of ASCII are alphabetic is a parameter.
- Verifier function pointers are identities; that a compiler may merge or duplicate functions does not appear.
- The hash of the unique store is any function that agrees with equality.
- File reading, IR dumping, the inserter's listeners, cloning between contexts, and macros that emit Rust text.

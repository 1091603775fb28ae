# x0: verified models

Dafny models of four parts of the x0 HTTP server and what is proved about them.

**The Flow compiler.** x0 is configured in Flow. `IRGenerator` lowers handlers to basic blocks
(nested conditionals, `match`, short-circuit `or`, inlined handler calls), and
`TargetCodeGenerator` turns the blocks into code for a register machine: it hands out registers,
lets loads share the register of their variable, leaves out jumps to the next block, and patches
the remaining jumps and match tables at the end. The model has a semantics for the source
(`FlowAst`), for the blocks (`FlowIr`) and for the machine (`FlowVm`), the two translations as
functions (`FlowLowering`, `FlowTarget`) and as the classes that perform them by mutation
(`IrGenerator`, `TargetCodeGenerator`). Operators, builtins and regular expressions belong to an
arbitrary host. Lowering terminates on every unit, cyclic calls included: the set of handlers not
on the stack shrinks, or else the statement does. The main theorem is
`FlowPipeline.CompilerPreservesMeaning`: the machine stops with a result and a sequence of builtin
calls exactly if the source has that result and makes those calls. `FlowCompiler.Compile` runs the
two classes on all exported handlers and has that for its contract. The theorem assumes, of the
handlers that can be reached, what the code needs to be right. For each operator `FlowLimits` proves
the assumption on it to be necessary and sufficient for that operator to come out right on every
lawful host, `FlowTargetProof.LoadConstExact` does so for constants, and `FlowLate.LeftStoreExact`
for the left side of `or`; an operator in code that is never reached is held to them all the same.
`FlowTidy…`, `FlowLoads` and `FlowLate` are about every unit and every host, without such assumptions;
`FlowMeaning` says what the source semantics means without naming its own helpers.

**The token shaper.** A tree of buckets with an assured rate, a ceiling, a load, a queue and a
round-robin offset. `TokenShaper` is the heap of nodes with parent and child pointers; every
method is proved equal to a function on the tree's value, and the `Shaper…` modules prove what
those functions do: who may take tokens, that loads are what the subtree holds over every run,
ceilings, exactly which shapers keep to their capacity, rates after any reconfiguration, complete
and fair dequeueing, queues that account for every item, and no item dropped before its time.

**Indexes and arguments.** `PrefixTree` and `SuffixTree` against a scan of a map; matching of
named and positional arguments against a builtin's parameters, in place.

**Codecs and the calendar.** Base64, FastCGI name-value streams, URI printing and parsing, and
civil time to Unix microseconds. Besides the round trips, `Base64Format`, `FastCgiFormat` and
`UriGrammar` state each format on its own and prove that writer and reader keep to it on every input.

## Where code and expectation differ

Each of these is kept as it is in the code. The lemma named gives the exact condition or an
example.

- A constant on the left of an operator that does not commute changes sides (`5 - x` is compiled
  as `x - 5`), immediates are cut to 16 unsigned bits, and a disjunction instruction emits a
  conjunction: `FlowLimits.EmitterExact`. Constants from -32768 to -1 are loaded as positive
  numbers: `FlowTargetProof.LoadConstExact`.
- A non-constant exclusive or is built as a conjunction, and `x + ""` is built as `""`:
  `FlowLimits.BuilderExact`.
- The left value of an `or` is stored in a block that is laid out before the block that computes
  it if that value is computed behind a nested `or`. The store is then left out (a debug build stops
  at an assertion), exactly for the `or`s that `FlowLate.LeftStoreExact` says; in
  `FlowWitness.LateStoreLost` a handler that tests `(not (f() or g())) or h()` does something else
  than its source.
- A value that is used, in layout order, before it is defined gets two registers. Blocks that do so
  need not stop as their code does: `FlowWitness.CrossedDiffers`. The blocks of a handler with
  early left sides of `or`, and constants that fit, are in order: `FlowPipeline.ExportedTranslatable`.
- A case of a prefix or suffix match at address 0 is not found: `FlowVm.EvaluateSelects` says exactly
  when a match still goes where it should. In the code of such a handler no case is at address 0:
  `FlowPipeline.BehindMatch`.
- A shaper can hand out more than its capacity. With tokens taken anywhere it never does exactly if,
  going down from the root, every bucket has reserved all of its rate for its children until some
  have reserved nothing: `ShaperOverflow.CapacityExact`. With tokens taken only below the root, and
  rates assured only to the root's children, it never does exactly if it reserves no more than it
  has: `ShaperOverflow.BelowRootExact`. `ShaperLimits.RootOverflow` and `ShaperLimits.DeepOverflow`
  are calls on a new shaper that go past the capacity, the latter with tokens taken at leaves only.
- The comment on `childRate` says the children never reserve more than the node has. `setRate`
  does not look at the siblings: `ShaperReserve.SetRateReserved`,
  `ShaperReserve.RootChildrenFit`, `ShaperLimits.SetRateOversubscribes`.
- A time before 1970 in Greenwich wraps around to the far future:
  `CivilTime.MicrosOrdered`, `CivilTime.WrapsBelowEpoch`.
- A named match that fails for want of an argument leaves the defaults before it in the list,
  which the parser then offers to the next candidate: `ParamList.FailedFill`.
- Named arguments are not checked for their types, positional ones are. What is bound has the
  declared types exactly if what was given had them: `ParamList.TypesExact`,
  `ParamList.WrongTypeBound`, `ParamList.ParamList.MatchPositional`.

## Model

| member | source | states |
|---|---|---|
| `FlowVm.PickDecides` | src/xzero-flow/vm/Match.cc:26-108 | the label that decides a `match` is the longest that fits (the last written among equals), the first for patterns, and none only if none fits |
| `FlowVm.EvaluateGoes` | src/xzero-flow/vm/Match.cc:26-108 | for every table, whatever its addresses, hash table, prefix tree, suffix tree and pattern list go to the deciding one of the cases that can be found (for the trees: written last and not at address 0), and to the else block if none of them fits |
| `FlowVm.EvaluateSelects` | src/xzero-flow/vm/Match.cc:26-108 | that is the case the source selects if and only if the source does not select a prefix or suffix case at address 0, or nothing is found and the else block is at address 0 too |
| `FlowMeaning.EvalAllSplit` | src/xzero-flow/IRGenerator.cc:329-347 | a list of expressions is evaluated from left to right, each after the calls of those before it |
| `FlowMeaning.BinaryInOrder` | src/xzero-flow/IRGenerator.cc:314-319 | an operator other than `or` evaluates its operands like a list of two |
| `FlowMeaning.OrChain` | src/xzero-flow/IRGenerator.cc:281-313 | the value of a chain of `or` is that of its first operand other than the number 0, or else of its last; the operands up to there are evaluated in order and those behind it not at all |
| `FlowMeaning.FirstTrueArm` | src/xzero-flow/IRGenerator.cc:471-490 | a chain of conditions runs the first arm whose condition is not the number 0, or the last one; conditions behind it are not evaluated |
| `FlowMeaning.ConstantCondition` | src/xzero-flow/IRGenerator.cc:471-490 | of the constants only 0 and `false` are false |
| `FlowMeaning.ExecAllSplit` | src/xzero-flow/IRGenerator.cc:463-469 | statements run one after the other, up to the first that takes over the request or is stuck |
| `FlowMeaning.HandlerInPlace` | src/xzero-flow/IRGenerator.cc:131-193 | a handler called in place runs as the assignments of its local variables followed by its body, and not at all if it is on the stack or has no body |
| `FlowMeaning.ExecGrows` | src/xzero-flow/IRGenerator.cc:457-550 | no statement of any unit takes a call back |
| `FlowMeaning.JumpsExact` | src/xzero-flow/vm/Runner.cc:264-278 | the branch between blocks and the two jumps of the machine take the number 0, and nothing else, for false, and the two jumps are opposites |
| `FlowMeaning.CallsExact` | src/xzero-flow/vm/Runner.cc:717-766 | a call makes one event whose arguments are the registers behind the base, in order, and leaves its result in the base register; a handler that takes over stops the machine |
| `IrGenerator.Generator.Codegen` | src/xzero-flow/IRGenerator.cc:207-432 | the visitor over an expression leaves blocks, insert point, scope and result exactly as the lowering function says |
| `IrGenerator.Generator.CreateBinary` | src/xzero-flow/ir/IRBuilder.cc:172-422 | folding, dropping of empty strings and insertion of a binary operator as in the lowering function |
| `IrGenerator.Generator.CodegenArgs` | src/xzero-flow/IRGenerator.cc:329-347 | arguments are lowered left to right |
| `IrGenerator.Generator.CodegenOrLeft` | src/xzero-flow/IRGenerator.cc:281-303 | the three blocks, the result cell, the branch and the true arm of `or` |
| `IrGenerator.Generator.CodegenOr` | src/xzero-flow/IRGenerator.cc:281-313 | the whole of `or`, ending in the continuation block |
| `IrGenerator.Generator.CodegenStmt` | src/xzero-flow/IRGenerator.cc:457-550 | the visitor over a statement refines the lowering function and restores the handler stack |
| `IrGenerator.Generator.CodegenAll` | src/xzero-flow/IRGenerator.cc:463-469 | statements in order |
| `IrGenerator.Generator.CodegenCond` | src/xzero-flow/IRGenerator.cc:471-490 | both arms and their branches |
| `IrGenerator.Generator.AddCase` | src/xzero-flow/IRGenerator.cc:512-525 | a finished match instruction is extended in place by one case |
| `IrGenerator.Generator.SetElseBlock` | src/xzero-flow/IRGenerator.cc:526-534 | and given its else block |
| `IrGenerator.Generator.CodegenCases` | src/xzero-flow/IRGenerator.cc:512-525 | one block per case, each going on to the continuation |
| `IrGenerator.Generator.CodegenMatch` | src/xzero-flow/IRGenerator.cc:504-535 | the whole of `match` |
| `IrGenerator.Generator.CodegenLocals` | src/xzero-flow/IRGenerator.cc:131-142 | one cell per local variable, initialised in order |
| `IrGenerator.Generator.CodegenInline` | src/xzero-flow/IRGenerator.cc:166-193 | inlining with the handler stack pushed and popped, or one of the two errors |
| `IrGenerator.Generator.Generate` | src/xzero-flow/IRGenerator.cc:144-164 | an exported handler from its entry block to its final return |
| `FlowExprProof.ExprRuns` | src/xzero-flow/IRGenerator.cc:207-366 | lowered code of any expression arrives with the expression's value, makes its builtin calls and leaves older cells alone, under both readings of loads |
| `FlowExprProof.OrRuns` | src/xzero-flow/IRGenerator.cc:281-313 | the right side of `or` is evaluated only if the left is false |
| `FlowStmtProof.StmtRuns` | src/xzero-flow/IRGenerator.cc:457-550 | lowered code of any statement ends with the store, trace and outcome of the statement |
| `FlowStmtProof.CondRuns` | src/xzero-flow/IRGenerator.cc:471-490 | conditionals take the arm the source takes and meet again |
| `FlowStmtProof.SwitchRuns` | src/xzero-flow/IRGenerator.cc:504-535 | `match` takes the case the source takes |
| `FlowStmtProof.InlineRuns` | src/xzero-flow/IRGenerator.cc:166-193 | an inlined handler does what calling it means |
| `FlowStmtProof.LocalsRun` | src/xzero-flow/IRGenerator.cc:131-142 | local variables hold their initial values |
| `FlowCorrectness.LoweringPreservesMeaning` | src/xzero-flow/IRGenerator.cc:144-193 | the blocks of an exported handler stop with the source's result and trace, and in the state before the final return the cells hold the source's final variables |
| `FlowTidyStmt.ExportedTidy` | src/xzero-flow/IRGenerator.cc:144-550 | the blocks of every handler of every unit use only loads that are up to date on every way there, and store too early only values that nothing laid out before speaks of |
| `FlowLoads.NoStoreBetween` | src/xzero-flow/IRGenerator.cc:207-550 | in generated code every way to a use of a load passes the load, and the variable is not stored to in between |
| `FlowLoads.LoadsMayAlias` | src/xzero-flow/TargetCodeGenerator.cc:333-337 | for every unit and host, copying at a load and sharing the variable's register are step by step the same: same place, same calls, same variables, same end |
| `FlowRecursion.RecursionReported` | src/xzero-flow/IRGenerator.cc:166-174 | the recursion error is reported if and only if a call cycle is reachable from the exported handler |
| `FlowRecursion.ErrorFree` | src/xzero-flow/IRGenerator.cc:166-193 | no error if and only if neither a cycle nor a handler without a body is reachable |
| `FlowRecursion.MissingReported` | src/xzero-flow/IRGenerator.cc:184-187 | a handler is reported to have no body if and only if it has none and a chain of calls leads to it, whatever cycles there are beside |
| `FlowRecursion.HandlerErrors` | src/xzero-flow/IRGenerator.cc:166-193 | the errors of lowering are those found by walking the calls alone |
| `TargetCodeGenerator.Generator.Emit` | src/xzero-flow/TargetCodeGenerator.cc:129-132 | code is appended |
| `TargetCodeGenerator.Generator.EmitCondJump` | src/xzero-flow/TargetCodeGenerator.cc:134-139 | a placeholder and an entry in the table of conditional jumps stand for a jump to a block |
| `TargetCodeGenerator.Generator.EmitJump` | src/xzero-flow/TargetCodeGenerator.cc:141-145 | the same for unconditional jumps |
| `TargetCodeGenerator.Generator.Allocate` | src/xzero-flow/TargetCodeGenerator.cc:204-214 | consecutive new registers for a value |
| `TargetCodeGenerator.Generator.GetRegister` | src/xzero-flow/TargetCodeGenerator.cc:393-477 | the register of an operand, loading constants and allocating for a value that has none |
| `TargetCodeGenerator.Generator.EmitCallArgs` | src/xzero-flow/TargetCodeGenerator.cc:339-356 | arguments are copied behind the base register |
| `TargetCodeGenerator.Generator.EmitBinary` | src/xzero-flow/TargetCodeGenerator.cc:147-193 | register, immediate and exchanged forms of a binary operator |
| `TargetCodeGenerator.Generator.StoreValue` | src/xzero-flow/TargetCodeGenerator.cc:241-331 | constants are loaded, registers moved, unknown values skipped |
| `TargetCodeGenerator.Generator.LoadVariable` | src/xzero-flow/TargetCodeGenerator.cc:333-337 | a load only names its variable's register |
| `TargetCodeGenerator.Generator.EmitCondBr` | src/xzero-flow/TargetCodeGenerator.cc:483-492 | one jump if either target comes next, else two |
| `TargetCodeGenerator.Generator.EmitMatch` | src/xzero-flow/TargetCodeGenerator.cc:506-545 | a match table whose targets are filled in later |
| `TargetCodeGenerator.Generator.VisitInstr` | src/xzero-flow/TargetCodeGenerator.cc:223-545 | every instruction extends code and tables as the translation function says |
| `TargetCodeGenerator.Generator.EmitBlocks` | src/xzero-flow/TargetCodeGenerator.cc:70-76 | all blocks in layout order, with their entry addresses |
| `TargetCodeGenerator.Generator.FixConditionalJumps` | src/xzero-flow/TargetCodeGenerator.cc:78-86 | every conditional jump, and nothing else, gets its block's address, in whatever order the table is walked |
| `TargetCodeGenerator.Generator.FixUnconditionalJumps` | src/xzero-flow/TargetCodeGenerator.cc:88-95 | the same for unconditional jumps |
| `TargetCodeGenerator.Generator.FixMatches` | src/xzero-flow/TargetCodeGenerator.cc:97-112 | the same for match tables |
| `TargetCodeGenerator.Generator.Generate` | src/xzero-flow/TargetCodeGenerator.cc:64-119 | the patched code and tables are the symbolic program with every block replaced by its address, and the generator is ready for the next handler |
| `FlowRegisters.BeforeGood` | src/xzero-flow/TargetCodeGenerator.cc:204-214 | before each instruction exactly the values defined earlier in the layout have registers, all distinct except that loads share their variable's |
| `FlowTargetProof.LoadConstExact` | src/xzero-flow/TargetCodeGenerator.cc:393-477 | a constant load delivers the constant if and only if it is not a negative 16-bit number |
| `FlowTargetProof.ImmediateExact` | src/xzero-flow/TargetCodeGenerator.cc:157-193 | an immediate survives if and only if it fits 16 unsigned bits |
| `FlowTargetProof.BinRuns` | src/xzero-flow/TargetCodeGenerator.cc:147-193 | the code of a safe binary operator leaves the operator's value in its register and all other cells intact |
| `FlowTargetProof.StoreRuns` | src/xzero-flow/TargetCodeGenerator.cc:241-331 | the code of a store changes the variable's register only |
| `FlowTargetProof.CallRuns` | src/xzero-flow/TargetCodeGenerator.cc:339-384 | the code of a call passes the arguments' values and extends the trace |
| `FlowTargetSim.StepSimulated` | src/xzero-flow/TargetCodeGenerator.cc:64-145 | one step of the blocks is some steps of the machine, none only if the blocks moved forward in the layout |
| `FlowTargetSim.RunSimulated` | src/xzero-flow/TargetCodeGenerator.cc:64-145 | whole runs of the blocks are runs of the machine |
| `FlowTargetSim.StopReflected` | src/xzero-flow/TargetCodeGenerator.cc:483-545 | if the machine stops, so do the blocks |
| `FlowTargetSim.CodeSimulatesBlocks` | src/xzero-flow/TargetCodeGenerator.cc:64-119 | for every layout that defines values before it uses them, the code stops with a result and trace if and only if the blocks do |
| `FlowLayoutExpr.ExprSound` | src/xzero-flow/IRGenerator.cc:207-366 | lowering an expression keeps operands defined before use in layout order and instructions safe |
| `FlowLayoutStmt.StmtSound` | src/xzero-flow/IRGenerator.cc:457-550 | lowering a statement closes every block it leaves and keeps that order |
| `FlowLayoutStmt.InlineSound` | src/xzero-flow/IRGenerator.cc:166-193 | so does inlining a handler |
| `FlowPipeline.ExportedTranslatable` | src/xzero-flow/IRGenerator.cc:144-164 | the blocks of every compilable handler meet the code generator's needs |
| `FlowReach.PartSuffices` | src/xzero-flow/IRGenerator.cc:144-193 | lowering a handler, and its meaning, depend only on the handlers it can reach |
| `FlowPipeline.CompilerPreservesMeaning` | src/xzero-flow/TargetCodeGenerator.cc:64-119 | the compiled handler stops with a result and builtin calls if and only if the source handler does, given that the handlers it can reach are compilable |
| `FlowCompiler.Lower` | src/xzero-flow/IRGenerator.cc:93-99 | one generator lowers all exported handlers; there are no errors if and only if no call cycle or handler without a body can be reached |
| `FlowCompiler.Compile` | src/x0d/XzeroDaemon.cc:181-216 | both generators on a whole configuration: it fails if and only if lowering does, and every compilable handler, run on the common match table, does what its source means |
| `FlowLimits.BuiltIsCreated` | src/xzero-flow/ir/IRBuilder.cc:172-422 | what the builder returns or inserts denotes the value the exactness lemma speaks about |
| `FlowLimits.BuilderExact` | src/xzero-flow/ir/IRBuilder.cc:172-422 | the builder makes the requested operator on every lawful host if and only if the operation is faithful |
| `FlowLimits.EmittedRuns` | src/xzero-flow/TargetCodeGenerator.cc:147-193 | the instruction emitted for a binary operator computes what the exactness lemma speaks about |
| `FlowLimits.EmitterExact` | src/xzero-flow/TargetCodeGenerator.cc:147-193 | the emitted instruction computes the operator on every lawful host if and only if it is safe |
| `FlowLimits.EmitterListed` | src/xzero-flow/TargetCodeGenerator.cc:147-193 | the same condition with operators and bounds listed: which have an immediate form, which exchange their operands, which of those commute, and the numbers that fit |
| `FlowTidyExpr.EarlyExact` | src/xzero-flow/IRGenerator.cc:281-313 | the value of an expression is constant or defined in the block where its evaluation starts if and only if it is early; otherwise that block does not even use it |
| `FlowLate.BeforeVars` | src/xzero-flow/TargetCodeGenerator.cc:393-477 | whatever the order of definitions and uses, what was defined has a register, and what has one was defined or used |
| `FlowLate.LeftStoreExact` | src/xzero-flow/TargetCodeGenerator.cc:315-331 | for every `or` of a generated handler, code is emitted for the store of its left value if and only if the left side is early |
| `FlowWitness.LateStoreLost` | src/xzero-flow/TargetCodeGenerator.cc:315-331 | a handler, otherwise without fault, whose source calls `f`, `g` and `yes` and whose code calls `f` and `g` only |
| `FlowWitness.CrossedDiffers` | src/xzero-flow/TargetCodeGenerator.cc:476-476 | blocks that use a value before its definition in layout order and stop with true, while their code stops with false |
| `TokenShaper.Node.constructor` | src/xzero/TokenShaper-inl.h:69-91 | the fields of a new node |
| `TokenShaper.Node.Increment` | src/xzero/Counter.cc:39-62 | one load goes up and nothing else changes |
| `TokenShaper.Node.Decrement` | src/xzero/Counter.cc:64-66 | one load goes down and nothing else changes |
| `TokenShaper.Node.OverRate` | src/xzero/TokenShaper-inl.h:230-233 | the load above the rate, zero if there is none |
| `TokenShaper.Node.ChildRateSum` | src/xzero/TokenShaper-inl.h:125-131 | the loop sums the children's rates |
| `TokenShaper.Node.ActualChildRate` | src/xzero/TokenShaper-inl.h:140-146 | the loop sums the children's loads |
| `TokenShaper.Node.ActualChildOverRate` | src/xzero/TokenShaper-inl.h:149-155 | the loop sums what the children borrowed |
| `TokenShaper.Node.ChildRatePercent` | src/xzero/TokenShaper-inl.h:109-117 | the loop sums the children's percentages |
| `TokenShaper.Node.Propagate` | src/xzero/TokenShaper-inl.h:368-375 | the node and all its ancestors go up by n |
| `TokenShaper.Node.Get` | src/xzero/TokenShaper-inl.h:357-390 | assured tokens first, else a recursive loan from the parent, as the value function says |
| `TokenShaper.Node.Put` | src/xzero/TokenShaper-inl.h:396-411 | lowers the node and its ancestors, or stops where an assertion fails |
| `TokenShaper.Node.Send` | src/xzero/TokenShaper-inl.h:334-339 | takes the tokens or enqueues the packet |
| `TokenShaper.Node.Enqueue` | src/xzero/TokenShaper-inl.h:414-420 | appends with the time of arrival, drops from the front the items whose arrival plus timeout is past, in order, and sets the timer for the first that is left |
| `TokenShaper.Node.DropExpired` | src/xzero/TokenShaper-inl.h:551-569 | of the queue the items before the rest have arrival plus timeout at or before now and are reported in order, and the first of the rest does not |
| `TokenShaper.Node.UpdateQueueTimer` | src/xzero/TokenShaper-inl.h:548-584 | the same, and the timer is set for the new front item |
| `TokenShaper.Node.TryChild` | src/xzero/TokenShaper-inl.h:440-449 | moves the offset one place round and asks that child |
| `TokenShaper.Node.ServeQueue` | src/xzero/TokenShaper-inl.h:451-464 | the front item if there is one and a token for it |
| `TokenShaper.Node.Dequeue` | src/xzero/TokenShaper-inl.h:437-465 | children round-robin, then the own queue |
| `TokenShaper.Node.UpdateChildNodes` | src/xzero/TokenShaper-inl.h:251-253 | every child is recomputed in turn |
| `TokenShaper.Node.Update` | src/xzero/TokenShaper-inl.h:245-254 | rate and ceiling from the parent, then the children |
| `TokenShaper.Node.UpdateCapacity` | src/xzero/TokenShaper-inl.h:235-242 | the same from a new capacity |
| `TokenShaper.Node.SetRate` | src/xzero/TokenShaper-inl.h:166-180 | a new percentage, the errors, and the recomputation below, as the value function says whose whole effect is `ShaperRates.SetRateConfigured` |
| `TokenShaper.Node.SetCeil` | src/xzero/TokenShaper-inl.h:183-195 | the same for the ceiling |
| `TokenShaper.Node.SetRateAndCeil` | src/xzero/TokenShaper-inl.h:198-212 | both at once |
| `TokenShaper.Node.RootNode` | src/xzero/TokenShaper-inl.h:305-312 | the walk up ends at the root |
| `TokenShaper.Node.FindChild` | src/xzero/TokenShaper-inl.h:315-324 | direct children first, then below each |
| `TokenShaper.Node.SetName` | src/xzero/TokenShaper-inl.h:158-163 | renames unless the name is taken |
| `TokenShaper.Node.CreateChild` | src/xzero/TokenShaper-inl.h:264-281 | the three errors, or a new last child |
| `TokenShaper.Shaper.constructor` | src/xzero/TokenShaper-inl.h:15-17 | a tree of one root |
| `TokenShaper.Shaper.Resize` | src/xzero/TokenShaper-inl.h:30-36 | the whole tree follows the new capacity |
| `TokenShaper.Shaper.CreateNode` | src/xzero/TokenShaper-inl.h:50-53 | a child of the root |
| `TokenShaper.Shaper.FindNode` | src/xzero/TokenShaper-inl.h:44-47 | null if and only if no node but the root has the name |
| `TokenShaper.Shaper.Get` | src/xzero/TokenShaper.h:117-117 | tokens at the root, keeping the configuration |
| `TokenShaper.Shaper.Put` | src/xzero/TokenShaper.h:118-118 | tokens put back at the root, keeping the configuration |
| `TokenShaper.Shaper.Dequeue` | src/xzero/TokenShaper.h:119-119 | an item from anywhere in the tree, keeping the configuration |
| `ShaperTokens.GetOutcome` | src/xzero/TokenShaper-inl.h:341-390 | get gives n or nothing; it gives n if and only if some bucket on the way to the root can serve them with everyone below it under its ceiling, and then exactly the bucket and its ancestors go up by n |
| `ShaperTokens.ChargeRaises` | src/xzero/TokenShaper-inl.h:368-375 | the upward loop touches exactly the ancestors |
| `ShaperTokens.PutOutcome` | src/xzero/TokenShaper-inl.h:396-411 | the assertions at the bucket imply all assertions on the way up; put lowers exactly the bucket and its ancestors |
| `ShaperLedger.OwnTokens` | src/xzero/TokenShaper-inl.h:133-146 | a load is the bucket's own holdings plus its children's loads |
| `ShaperLedger.GetBooks` | src/xzero/TokenShaper-inl.h:357-390 | after get every load is what its subtree holds |
| `ShaperLedger.PutBooks` | src/xzero/TokenShaper-inl.h:396-411 | put succeeds if and only if the bucket itself holds n tokens, and keeps the books |
| `ShaperLedger.PutUndoesGet` | src/xzero/TokenShaper-inl.h:357-411 | put after a successful get restores the whole tree |
| `ShaperRates.RateWithinCeil` | src/xzero/TokenShaper-inl.h:166-281 | no rate exceeds its ceiling or the parent's rate |
| `ShaperRates.PortionFloor` | src/xzero/TokenShaper-inl.h:166-254 | a share is the whole number of tokens in it: n if and only if percentage times tokens is at least n and less than n + 1 |
| `ShaperRates.UpdateRecomputes` | src/xzero/TokenShaper-inl.h:245-254 | update changes the subtree only, and all of it follows its parents |
| `ShaperRates.SetRateConfigured` | src/xzero/TokenShaper-inl.h:166-180 | setRate succeeds exactly on a percentage from 0 to the ceiling's of a bucket other than the root; that bucket gets it, every rate is again the rounded-down share of its parent, every ceiling, every other percentage and every bucket that is not it or below it stays as it was; an error says which check failed and changes nothing |
| `ShaperRates.SetCeilConfigured` | src/xzero/TokenShaper-inl.h:183-195 | the same for setCeil, which leaves every rate as it was |
| `ShaperRates.SetBothConfigured` | src/xzero/TokenShaper-inl.h:198-212 | the same for both, which leaves other buckets' percentages as they were |
| `ShaperRates.ResizeConfigured` | src/xzero/TokenShaper-inl.h:30-36 | resize keeps the shares and sets the capacity |
| `ShaperRates.CreateConfigured` | src/xzero/TokenShaper-inl.h:264-281 | so does creating a child |
| `ShaperRates.CreateOutcome` | src/xzero/TokenShaper-inl.h:264-281 | exactly when createChild fails with each of its three errors; otherwise a last child, idle, with the name and both percentages asked for, an empty queue and a timeout of 50 seconds, and nothing else but its parent's list changes |
| `ShaperRates.FindChildFinds` | src/xzero/TokenShaper-inl.h:315-324 | a name is found if and only if a bucket strictly below has it |
| `ShaperRates.NameTaken` | src/xzero/TokenShaper-inl.h:158-159 | a name conflicts if and only if a bucket other than the root has it |
| `ShaperRates.CreateUnique` | src/xzero/TokenShaper-inl.h:264-281 | names below the root stay unique |
| `ShaperRates.SetNameUnique` | src/xzero/TokenShaper-inl.h:158-163 | also under renaming |
| `ShaperRates.SetNameOutcome` | src/xzero/TokenShaper-inl.h:158-163 | setName succeeds if and only if no bucket but the root has the name, and then that bucket has it and nothing else changes |
| `ShaperReserve.ChildRateFits` | src/xzero/TokenShaper-inl.h:119-131 | children whose percentages add up to at most one reserve no more than their parent has |
| `ShaperReserve.RootChildrenFit` | src/xzero/TokenShaper-inl.h:119-131 | at every capacity, if and only if they do |
| `ShaperReserve.CreateReserved` | src/xzero/TokenShaper-inl.h:264-268 | creating a child keeps the percentages within one |
| `ShaperReserve.CeilAndSizeReserved` | src/xzero/TokenShaper-inl.h:183-195 | so do a new ceiling and a new capacity |
| `ShaperReserve.SetRateReserved` | src/xzero/TokenShaper-inl.h:166-180 | setRate does if and only if the new percentage fits beside the siblings' |
| `ShaperQueues.ExpireDrops` | src/xzero/TokenShaper-inl.h:551-569 | a timer run removes the longest stale front and counts it as dropped |
| `ShaperQueues.ExpireFront` | src/xzero/TokenShaper-inl.h:548-584 | a timer run on any queue takes items from the front exactly as long as arrival plus timeout is at or before now, counts them as dropped and changes nothing else |
| `ShaperQueues.ExpireExact` | src/xzero/TokenShaper-inl.h:548-584 | on a queue in arrival order an item is dropped if and only if its arrival plus the timeout is at or before now, and what remains has a positive time to live |
| `ShaperQueues.DequeueOutcome` | src/xzero/TokenShaper-inl.h:422-465 | dequeue serves if and only if some bucket of the subtree has an item and would get a token; it takes that bucket's front item, charges one token along its ancestors, moves only the offsets in between, prefers children and the first able one in turn; otherwise nothing changes |
| `ShaperFairness.StepServes` | src/xzero/TokenShaper-inl.h:440-449 | while a child can serve, one whose turn is not later serves and the offset moves to it |
| `ShaperFairness.EachServedOnce` | src/xzero/TokenShaper-inl.h:440-449 | while all k children can serve, k dequeues serve each exactly once |
| `ShaperFairness.NeverPassedTwice` | src/xzero/TokenShaper-inl.h:440-449 | a child that can serve all along is never passed over twice by the same sibling, whatever happens in between |
| `ShaperRuns.StepConsistent` | src/xzero/TokenShaper-inl.h:158-465 | every call keeps configuration, names, ledger and queues consistent, and only a put of more than is held aborts |
| `ShaperRuns.RunConsistent` | src/xzero/TokenShaper-inl.h:158-584 | so does every run |
| `ShaperRuns.Reachable` | src/xzero/TokenShaper-inl.h:158-584 | in every reachable state each load is what the subtree holds, each rate is the rounded-down share and within the ceiling, and arrived = delivered + dropped + queued, in order |
| `ShaperWaiting.ArrivalsExact` | src/xzero/TokenShaper-inl.h:334-420 | a queue gets the packet of a call that queues it, with the time that call read, and nothing else ever |
| `ShaperWaiting.HoldingsExact` | src/xzero/TokenShaper-inl.h:357-465 | the holdings of a bucket's users go up by what it was granted and by one for an item served from its queue, and down by what was put back |
| `ShaperWaiting.StepDrops` | src/xzero/TokenShaper-inl.h:548-584 | no call drops an item before its time or without counting it, and only a call that looks at the bucket's timer drops any |
| `ShaperWaiting.NoneDroppedEarly` | src/xzero/TokenShaper-inl.h:548-584 | over every run of a new shaper each item counted as dropped had waited fifty seconds or more when the call that dropped it read the clock |
| `ShaperCapacity.RunLeaves` | src/xzero/TokenShaper-inl.h:357-390 | over every run that leaves rates alone, no leaf's load exceeds its ceiling |
| `ShaperCapacity.PeaksSum` | src/xzero/TokenShaper-inl.h:125-155 | reserved plus borrowed is the sum of the children's max(load, rate) |
| `ShaperCapacity.RunBounded` | src/xzero/TokenShaper-inl.h:357-411 | in a tree of any depth in which only the root's children are assured anything, with tokens taken below the root, every run keeps the sum of the root's children's max(load, rate), and the root's load, within the root's rate |
| `ShaperCapacity.IdleBounded` | src/xzero/TokenShaper-inl.h:264-281 | such runs can start from any idle shaper that reserves no more than it has, and so from one whose percentages add up to at most one |
| `ShaperOverflow.BelowRootExact` | src/xzero/TokenShaper-inl.h:357-411 | such a shaper keeps to its capacity over all those runs if and only if it reserves no more than it has |
| `ShaperExact.StepMoves` | src/xzero/TokenShaper-inl.h:334-465 | a call that keeps the configuration grants tokens to one bucket, or no load and no holding grows |
| `ShaperExact.TightKeeps` | src/xzero/TokenShaper-inl.h:357-411 | no run from idle, with tokens taken anywhere, hands out more than the capacity of a tight tree |
| `ShaperOverflow.Fill` | src/xzero/TokenShaper-inl.h:357-390 | from idle, some run makes a bucket use all of its rate, taking tokens at it or below it only |
| `ShaperOverflow.Spill` | src/xzero/TokenShaper-inl.h:357-390 | from idle, some run pushes a bucket that is not tight past its rate |
| `ShaperOverflow.CapacityExact` | src/xzero/TokenShaper-inl.h:357-411 | every run of a shaper of any shape, with tokens taken anywhere, keeps to the capacity if and only if the tree is tight |
| `ShaperOverflow.LeavesTight` | src/xzero/TokenShaper-inl.h:119-131 | for a root with leaves: if and only if its children reserve nothing, or all of its rate |
| `ShaperLimits.DeepOverflow` | src/xzero/TokenShaper-inl.h:357-390 | calls on a new shaper of capacity 10 that build three levels, take tokens at leaves only and hand out 12 |
| `ShaperLimits.RootOverflow` | src/xzero/TokenShaper-inl.h:357-390 | calls on a new shaper of capacity 10 that take tokens at the root and at a leaf and hand out 15 |
| `ShaperLimits.SetRateOversubscribes` | src/xzero/TokenShaper-inl.h:166-180 | calls on a new shaper of capacity 10, the last one setRate, after which the children reserve 15 |
| `PrefixTree.Acquire` | src/xzero/PrefixTree.h:73-81 | finds or adds the child, growing the tree by at most that node |
| `PrefixTree.Climb` | src/xzero/PrefixTree.h:94-102 | the walk up finds the value of the longest key with a value |
| `PrefixTree.PrefixTree.Insert` | src/xzero/PrefixTree.h:64-71 | the key has the new value, every other key its old one |
| `PrefixTree.PrefixTree.Lookup` | src/xzero/PrefixTree.h:83-103 | the value of the longest non-empty inserted key that begins the query and has a value |
| `PrefixTree.SuffixTree.Insert` | src/xzero/SuffixTree.h:64-73 | the same under the reversed key |
| `PrefixTree.SuffixTree.Lookup` | src/xzero/SuffixTree.h:85-105 | the same for the reversed query |
| `PrefixIndex.LongestByScan` | src/xzero/PrefixTree.h:83-103 | the value found is the one a scan of all keys finds, and none is found only if the scan finds none |
| `PrefixIndex.LongestByReverseScan` | src/xzero/SuffixTree.h:85-105 | over reversed keys, the longest key that ends the query |
| `PrefixIndex.LongestAfterInsert` | src/xzero/PrefixTree.h:64-71 | an insertion changes an answer only if the key begins the query and is at least as long as the best so far |
| `ParamList.ParamList.PushNamed` | src/xzero-flow/AST.cc:322-330 | a value with its name at the end |
| `ParamList.ParamList.PushBack` | src/xzero-flow/AST.cc:332-336 | a value without a name at the end |
| `ParamList.ParamList.Contains` | src/xzero-flow/AST.cc:363-368 | whether the name was given |
| `ParamList.ParamList.Find` | src/xzero-flow/AST.cc:449-454 | the first place of a name, -1 if it was not given |
| `ParamList.ParamList.Swap` | src/xzero-flow/AST.cc:370-379 | two pairs change places, none is lost |
| `ParamList.ParamList.Reorder` | src/xzero-flow/AST.cc:389-437 | a permutation of the pairs; every place up to the number of parameters holds its parameter or a name the builtin does not know, and exactly those names and the rest are reported; with all declared names present they come first in order, and only with one missing can the assertion fail |
| `ParamList.ParamList.CompleteNamed` | src/xzero-flow/AST.cc:219-234 | defaults of omitted parameters up to the first that has none |
| `ParamList.ParamList.MatchNamed` | src/xzero-flow/AST.cc:210-252 | succeeds if and only if given names are distinct and known and every omitted parameter has a default; then every parameter has the value given under its name or its default, with the declared types if and only if the given values had them; a failure leaves the filled-in list, reordered if something was left over |
| `ParamList.ParamList.MatchPositional` | src/xzero-flow/AST.cc:253-303 | succeeds if and only if there are not too many arguments, their types match and the rest have defaults of a type with a constant expression; otherwise the outcome names the first argument or parameter that fails and why; never touches what was given |
| `ParamList.ParamList.TryMatch` | src/xzero-flow/AST.cc:202-304 | both of these, with the values they bind, and handlers that take nothing |
| `ParamList.FillOutcome` | src/xzero-flow/AST.cc:219-234 | filling in succeeds if and only if every omitted parameter has a usable default, and then appends exactly those |
| `ParamList.FillExact` | src/xzero-flow/AST.cc:119-234 | filling in ends at the first omitted parameter that has no default, which it names, or has one that is not a boolean, number, string, address or network, on which the process aborts; otherwise all are served |
| `ParamList.FailedFill` | src/xzero-flow/AST.cc:219-234 | how much a fill appends, and that it leaves the list as it was if and only if the first parameter left out has no usable default |
| `ParamList.NothingOver` | src/xzero-flow/AST.cc:236-252 | nothing is left over if and only if the given names are distinct and known |
| `ParamList.AllBound` | src/xzero-flow/AST.cc:389-437 | reordering binds every parameter to its own value |
| `ParamList.TypesExact` | src/xzero-flow/AST.cc:210-252 | values bound by name have the declared types if and only if every given value has the type of the parameter it names |
| `ParamList.WrongTypeBound` | src/xzero-flow/AST.cc:210-252 | a string given by name for a number: all that a match asks for is there, and the string is bound |
| `Uri.Uri.Parse` | src/xzero/Uri.cc:170-269 | the cursor loops overwrite exactly the parts the text has, and fail only on a port that does not fit; what they make of any text is `UriGrammar.ParseExact` |
| `Uri.Uri.ParseScheme` | src/xzero/Uri.cc:182-195 | what stands before a colon that no slash precedes becomes the scheme; without such a colon nothing changes and nothing is consumed |
| `Uri.Uri.ParseAuthority` | src/xzero/Uri.cc:197-243 | the userinfo stage |
| `Uri.Uri.ParseHost` | src/xzero/Uri.cc:219-241 | host and port |
| `Uri.Uri.ParsePath` | src/xzero/Uri.cc:245-253 | the path stage |
| `Uri.Uri.ParseQuery` | src/xzero/Uri.cc:255-263 | the query stage |
| `Uri.Uri.ParseFragment` | src/xzero/Uri.cc:265-268 | the fragment stage |
| `Uri.Uri.ToString` | src/xzero/Uri.cc:133-168 | the printed form |
| `UriProof.RoundTrip` | src/xzero/Uri.cc:133-269 | parsing the printed form gives back every part if and only if the parts are well formed |
| `UriProof.RestClean` | src/xzero/Uri.cc:197-268 | no parsed part holds a character that ends it |
| `UriGrammar.ParseExact` | src/xzero/Uri.cc:170-269 | any text, parsed onto any parts, falls apart into scheme, authority, path, query and fragment that make it up again and decide every part and whether parsing fails; there is only one such outcome |
| `UriGrammar.NoSchemeParsed` | src/xzero/Uri.cc:182-195 | a text without a colon before its first slash keeps the scheme there was, and is otherwise parsed as it would be behind a colon |
| `UriGrammar.PartsMakeText` | src/xzero/Uri.cc:170-269 | from scratch, the parts are the pieces of the text, empty where missing, so they make the text again up to marks with nothing behind them and the way the port is written; parsing fails if and only if the port is above 2147483647 |
| `UriGrammar.PlainText` | src/xzero/Uri.cc:245-268 | without scheme and authority the text is path, query and fragment, up to such marks |
| `UriGrammar.PrintedPieces` | src/xzero/Uri.cc:133-168 | a printed text is made of those pieces: a scheme always, an authority if there is a host, the others if they are not empty |
| `UriGrammar.NumberPlaces` | src/xzero/Uri.cc:228-241 | digits of a port count by their places |
| `UriText.NumberBack` | src/xzero/Uri.cc:228-241 | decimal numbers read back |
| `Base64.Encode` | src/xzero/base64-inl.h:27-70 | the encoder writes the encoding of all its input, padding included, whose every character `Base64Format.EncodedFormat` gives |
| `Base64.Decode` | src/xzero/base64-inl.h:118-161 | the decoder writes exactly the decoded bytes, returns their number and leaves the rest of the buffer alone |
| `Base64.DecodedLength` | src/xzero/base64-inl.h:82-92 | the size estimate |
| `Base64.CountFits` | src/xzero/base64-inl.h:82-161 | the number returned is the number of bytes written and never exceeds the estimate |
| `Base64.RoundTrip` | src/xzero/base64-inl.h:27-161 | decoding an encoding gives back every byte string |
| `Base64Format.EncodedFormat` | src/xzero/base64-inl.h:27-70 | character j of an encoded text is the letter of the alphabet, written out, for the six bits from bit 6 j of the input on, filled up with zeros; behind the last letter there is padding |
| `Base64Format.PaddingFormat` | src/xzero/base64-inl.h:27-70 | the text is as long as whole groups of four need, and the last (3 - n % 3) % 3 characters, and no others, are padding |
| `Base64Format.IndexIs` | src/xzero/base64-inl.h:118-125 | the value of a character is its place in the alphabet, and those outside have none |
| `Base64Format.DecodedFormat` | src/xzero/base64-inl.h:118-161 | of any text, the letters up to the first character outside the alphabet are read as bits, eight to a byte; bits that do not fill a byte are left |
| `FastCgi.ParamStreamWriter.EncodeLength` | src/x0d/modules/fastcgi_protocol.h:253-265 | one byte below 127, else four |
| `FastCgi.ParamStreamWriter.Encode` | src/x0d/modules/fastcgi_protocol.h:267-275 | both lengths, then both strings |
| `FastCgi.ParamStreamWriter.EncodeParts` | src/x0d/modules/fastcgi_protocol.h:277-286 | a value in two parts is the value joined |
| `FastCgi.ProcessParams` | src/x0d/modules/fastcgi_protocol.h:292-346 | the reader reports the parameters of the buffer in order, or runs past its end |
| `FastCgi.LengthBack` | src/x0d/modules/fastcgi_protocol.h:253-340 | a length reads back as its low 31 bits, from wherever it stands |
| `FastCgi.ParamBack` | src/x0d/modules/fastcgi_protocol.h:253-340 | a parameter reads back if and only if both lengths fit 31 bits |
| `FastCgi.StreamBack` | src/x0d/modules/fastcgi_protocol.h:253-346 | a list reads back, in order and to the very end, if and only if all lengths fit |
| `FastCgiFormat.LengthFormat` | src/x0d/modules/fastcgi_protocol.h:253-265 | a length up to 126 is the byte of that value, and from 127 on four bytes that are, big-endian, its low 31 bits with the highest bit set |
| `FastCgiFormat.LengthExact` | src/x0d/modules/fastcgi_protocol.h:297-333 | the reader takes a length exactly where one is spelt: a byte below 128, or four bytes from 128 on, big-endian with the highest bit cleared |
| `FastCgiFormat.ParamExact` | src/x0d/modules/fastcgi_protocol.h:297-344 | it takes a parameter exactly where its name's length, its value's length, its name and its value follow one another |
| `FastCgiFormat.StreamExact` | src/x0d/modules/fastcgi_protocol.h:292-346 | it takes a buffer for a list of parameters if and only if the buffer is their records in that order and nothing else |
| `FastCgiFormat.WrittenExact` | src/x0d/modules/fastcgi_protocol.h:253-346 | what the writer makes of a list is its records if and only if no name and no value is longer than 2147483647 bytes |
| `CivilTime.UnixTime.constructor` | src/xzero/UnixTime.cc:22-40 | the two loops and the sum, modulo 2^64, of the number that `CivilTime.ExactCounts` and the lemmas after it pin down |
| `CivilTime.ExactCounts` | src/xzero/UnixTime.cc:33-39 | the number is a million for each local second, a thousand for each millisecond, less a million for each second of the offset |
| `CivilTime.SameDayDistance` | src/xzero/UnixTime.cc:33-39 | within a day, times differ by a thousand for each millisecond between them, whatever the hours, minutes and seconds |
| `CivilTime.EpochAndOffset` | src/xzero/UnixTime.cc:22-40 | 1970 in Greenwich is 0, and one second further east is a million less |
| `CivilTime.NextMillisecondExact` | src/xzero/UnixTime.cc:22-40 | the next millisecond is a thousand later, over every carry from seconds to years, in the stored number too |
| `CivilTime.MonthLengths` | src/xzero/ISO8601.cc:285-291 | the month formula gives the calendar's lengths |
| `CivilTime.YearsClosedForm` | src/xzero/UnixTime.cc:25-27 | the year loop is the closed-form count of leap years |
| `CivilTime.MonthsMakeYear` | src/xzero/UnixTime.cc:29-31 | twelve months make the year's days |
| `CivilTime.ExactOrdered` | src/xzero/UnixTime.cc:22-40 | earlier civil times have fewer microseconds |
| `CivilTime.BelowEpoch` | src/xzero/UnixTime.cc:33-39 | a time is before 1970 in Greenwich if and only if its offset exceeds the local seconds since then |
| `CivilTime.MicrosOrdered` | src/xzero/UnixTime.cc:33-39 | the stored numbers are ordered too, if and only if the offset does not exceed the local seconds since 1970 of the earlier time, or exceeds those of both |
| `CivilTime.MicrosInjective` | src/xzero/UnixTime.cc:22-40 | equal numbers mean equal times |
| `CivilTime.NextDayExact` | src/xzero/UnixTime.cc:22-40 | the next day is one day of microseconds later, over months, years and leap days |
| `CivilTime.WrapsBelowEpoch` | src/xzero/UnixTime.cc:33-39 | two times for which the order turns round |

## Left out

- Flow: the lexer, the parser's operator and type tables, unit-level variables, handler references, arrays and indexed stores, `for` loops, and the transform passes between the two generators.
- Flow: operators, builtins and regular expressions are arbitrary functions of the host; captures that a regular expression match leaves behind, and suspending or resuming a handler, are not modelled.
- Flow: registers, pool indices and addresses are unbounded; only the 16-bit immediates are given their width.
- Flow: register reuse flags in `free` have no effect on generated code and are not modelled.
- Token shaper: counts are unbounded, percentages are real numbers without float rounding, and calls do not interleave; the header says the class is not thread safe. The compare-and-swap of a load succeeds at once.
- Token shaper: `destroyNode`, `setQueueTimeout`, JSON output, and the maximum and total that `Counter` records.
- TokenShaper.Shaper.Put: says nothing about the tree after a failed assertion, because the process aborts there.
- Token shaper: for trees that are not tight, which runs stay within the capacity when tokens are taken at leaves only is settled where rates are assured to the root's children only; `ShaperLimits.DeepOverflow` is a run that does not.
- FlowLimits.EmitterExact: is for operands the parser's type check lets through; without it `1 - true` would come out right by accident.
- PrefixTree.PrefixTree.Insert: elements of keys are characters and values are numbers with 0 for null; other key and value types are not modelled. Releasing nodes is not modelled.
- ParamList.ParamList.Reorder: a builtin's parameter names are taken to be distinct; error texts are reduced to their kind.
- Base64.Decode: characters outside the ASCII range, for which the table is indexed by a negative number, count as not in the alphabet.
- FastCgi.ProcessParams: stops where the source would read past the buffer.
- URI: percent-decoding, query parameters and reference resolution.
- CivilTime: parsing and formatting of dates, and the clock.

# RT-Thread kernel and finsh shell: a verified model

This project models the parts of the RT-Thread tree in `E110_1/` whose correctness depends on
more than one function at a time, and proves what they are for. All paths below are relative
to the repository's root.

**The finsh shell** (`Basics`, `FinshWords`, `FinshOperators`, `FinshSyntax`, `FinshMeaning`, `FinshMachine`,
`FinshCompiler`, `FinshNodes`, `FinshProgram`, `FinshGrammar`, `FinshProductions`, `FinshParser`, `FinshShell`).
A line of C-like statements is parsed by recursive descent into a child/sibling tree in a
16-entry node table, marked by a type check, compiled into at most 128 bytes of code and run by
a stack machine with 64 slots. `FinshSyntax.Eval` says what an expression means on a
byte-addressed store, and `FinshOperators` and `FinshMeaning` say what that is bit by bit and
byte by byte. The parser, the type check, the code generator and the machine are imperative, on
the table, the text segment and the stack; each refines a function, and the functions are
connected by two theorems. Parsing inverts printing for every expression written without
parentheses, and reports an error exactly when the tree does not fit the table;
`FinshProductions` writes down the grammar of finsh_parser.c production by production, and what
it derives is exactly what is printed. Compiled code computes the evaluator's value and store,
crashes exactly when the evaluator faults, and never moves the stack by more than the tree has
nodes plus two. `FinshShell.Evaluate` puts both together, from tokens to the value the shell
prints.

**Three heaps.** `BlockList` is what the kernel's two heaps share: headers laid end to end, with
`prev` inverse to `next`, aligned offsets and no two free neighbours, and how cutting and
merging act on that and on the summed sizes. `SmallMem` is the small memory heap with its
cached lowest free block, `Memheap` the memory heap with its free list, byte counts and
in-place growing and shrinking, and `FinshHeap` the shell's heap with two sorted singly linked
lists and a garbage collector. In each, `Valid()` is the invariant of the whole pool, every
method keeps it, and every method says which blocks and which bytes it leaves alone.

**Blocking objects and scheduling.** `RingList`, `SingleList` and `WaitList` are the lists.
`MessageQueue`, `Mailbox`, `Event` and `Mutex` each define a state machine in which every
interrupt-disabled region is one step and threads interleave freely between steps; timers are
steps of the environment. Invariants are proved of every step and every run, and a class with
the source's own fields refines the machine region by region. `Bitmap` and `Scheduler` are the
ready queue, its one- and two-level bitmaps and `__rt_ffs`.

A few things the proofs turned up; the code is modelled as it is, the exact condition is proved
in each case, and a lemma gives an input:

- An operator whose first operand is a call has no data type, and no opcode is emitted for it: not
  for binary operators, nor for complement and dereference, nor for assignment through such a
  dereference (`FinshProgram.OperatorNeedsDword`, `FinshProgram.UnaryNeedsDword`,
  `FinshProgram.AssignNeedsDword`, `FinshProgram.CallPlusOneLeavesTwo`).
- The comment above proc_assign_expr asks for a unary expression on the left of `=`; the code takes
  any expression that is no assignment (`FinshProductions.AssignsToSum`).
- Aligning a request within three bytes of 2^32 wraps to 0, so `rt_malloc` and
  `rt_memheap_alloc` hand out their smallest block for it, and the two realloc functions shrink
  live memory for it (`BlockList.AlignCovers`, `SmallMem.AlignmentShortchanges`,
  `SmallMem.Heap.Malloc`, `SmallMem.Heap.Realloc`, `Memheap.Heap.Alloc`, `Memheap.Heap.Realloc`).
- In a pool with less room than the smallest block the bound of the search loop in `rt_malloc`
  wraps, and the loop does not end (`SmallMem.TinyPoolSpins`).
- `lfree` is commented as the lowest free block, but the split in `rt_realloc` does not lower it
  (`SmallMem.LowestAfterShrink`, `SmallMem.LowestLostByShrink`, `SmallMem.Heap.Realloc`).
- The tests for growing in `rt_memheap_realloc` and for room in `finsh_heap_allocate` wrap for
  requests close to 2^32. The former then writes the header of the free rest over the header of
  the block that was to grow; the latter clears memory beyond the heap. The model stops there
  with the result `Wrapped` (`Memheap.GrowGuardIsExact`, `Memheap.GrowWraps`,
  `Memheap.NewHeaderWraps`, `FinshHeap.FitTestIsExact`, `FinshHeap.FitTestWraps`).
- `finsh_block_insert` at the end of a list keeps a stale `next`; it never happens, since the
  highest block of that heap is always free (`FinshHeap.Heap.BlockInsert`,
  `FinshHeap.FreeAbove`).
- A mutex counts nesting in a byte, so at a nesting 257 deep the first release already gives it
  up (`Mutex.GivesUpExactly`, `Mutex.NestingOverflows`).
- With the first-in first-out flag a hand-over can lose priority inheritance, and no other step
  can (`Mutex.InheritsExactly`, `Mutex.FifoLosesInheritance`).

Where an operation changes several things at once, its contract equates the new state with a
function of the old one and says outright what that does to the fields, the lists and the other
threads; the lemmas listed beside it say what the function keeps, and laws over whole runs count
takes and releases, sent and received bits, and messages from the events alone. In the state
machines `t in st.phase` means that thread `t` is inside an operation, between two of its
interrupt-disabled regions.

## Model

| member | source | states |
|---|---|---|
| `FinshWords.WordRoundTrip` | E110_1/Libraries/finsh/finsh_compiler.c:199-216 | the four little-endian bytes the compiler appends for a word are read back by the machine as that word |
| `FinshWords.SaveThenLoad` | E110_1/Libraries/finsh/finsh_ops.c:375-440 | a dword stored at a mapped address is what a dword load there yields |
| `FinshOperators.BitwiseMeans` | E110_1/Libraries/finsh/finsh_ops.c:164-230 | bit by bit, the and has what both operands have, the or what either has, the exclusive or what just one has |
| `FinshOperators.ComplementMeans` | E110_1/Libraries/finsh/finsh_ops.c:230-252 | complement inverts every bit |
| `FinshOperators.RingMeans` | E110_1/Libraries/finsh/finsh_ops.c:69-163 | sum, difference and product are right modulo 2^32, with operands and result read as signed numbers or not |
| `FinshOperators.DivisionMeans` | E110_1/Libraries/finsh/finsh_ops.c:98-141 | signed quotient and remainder make up the dividend, the remainder is smaller than the divisor and has the dividend’s sign; only a zero divisor has none, and the most negative number divided by -1 wraps |
| `FinshOperators.ShiftMeans` | E110_1/Libraries/finsh/finsh_ops.c:252-295 | a left shift multiplies by the power of 2 modulo 2^32, a right shift is the signed quotient rounded down; exactly shifts by 32 or more have no result |
| `FinshOperators.LittleEndian` | E110_1/Libraries/finsh/finsh_compiler.c:199-216 | byte k of a stored word is its bits from 8k on |
| `FinshOperators.SaveElsewhere` | E110_1/Libraries/finsh/finsh_ops.c:375-403 | a dword store writes those four bytes, and no other byte of the store changes |
| `FinshMeaning.AssignMeans` | E110_1/Libraries/finsh/finsh_compiler.c:311-372 | an assignment leaves its value, and nothing else, at the address its left side had before the right side was evaluated, and faults exactly when either side does or nothing is mapped there |
| `FinshMeaning.StepMeans` | E110_1/Libraries/finsh/finsh_compiler.c:373-713 | ++ and -- leave the word one more or one less than it was and change nothing else; in front they yield the new word, behind the old one |
| `FinshMeaning.NegMeans` | E110_1/Libraries/finsh/finsh_parser.c:710-750 | unary minus yields the negative modulo 2^32 |
| `FinshMeaning.ArgumentsInOrder` | E110_1/Libraries/finsh/finsh_compiler.c:285-310 | the last argument is evaluated last, in the store the others left, and comes last |
| `FinshMachine.Vm.constructor` | E110_1/Libraries/finsh/finsh_vm.c:47-72 | an empty stack, program counter 0 and a zeroed text segment of the real size |
| `FinshMachine.Vm.Fetch` | E110_1/Libraries/finsh/finsh_ops.c:317-326 | fetches a little-endian operand and advances the program counter by four; none is fetched past the text |
| `FinshMachine.Vm.PushWord` | E110_1/Libraries/finsh/finsh_ops.c:317-326 | pushes exactly one slot if there is room and changes nothing else |
| `FinshMachine.Vm.Operate` | E110_1/Libraries/finsh/finsh_ops.c:69-295 | a binary dword operator replaces the two top slots by the operator applied to them in order, and is undefined exactly for a missing operand, a zero divisor or an oversized shift; what the operators compute is said in `FinshOperators` |
| `FinshMachine.Vm.CallOut` | E110_1/Libraries/finsh/finsh_ops.c:444-569 | the call opcode passes the parameters below the top in order, replaces callee and parameters by the returned word, and threads the store |
| `FinshMachine.Vm.LoadOperand` | E110_1/Libraries/finsh/finsh_ops.c:317-403 | loads a constant, or the word at the operand address, onto the stack; the store is untouched |
| `FinshMachine.Vm.StackOnly` | E110_1/Libraries/finsh/finsh_ops.c:245-441 | complement, indirect load, store and pop do to the real stack and store what the instruction function says |
| `FinshMachine.Vm.OperateBy` | E110_1/Libraries/finsh/finsh_ops.c:69-295 | an arithmetic opcode, dispatched by number, does what the instruction function says |
| `FinshMachine.Vm.Dispatch` | E110_1/Libraries/finsh/finsh_vm.c:47-72 | one turn of the dispatch loop on the arrays refines one abstract instruction, for every dword opcode and every opcode without a width; the others are reported as a crash |
| `FinshMachine.Vm.Execute` | E110_1/Libraries/finsh/finsh_vm.c:47-72 | the loop over the whole text terminates and ends in the state of the abstract run, or reports a crash exactly when that run crashes, which it does at a byte or word opcode |
| `FinshCompiler.ValueRuns` | E110_1/Libraries/finsh/finsh_compiler.c:43-757 | from any stack and store the code of any sound expression crashes iff the reference evaluation faults, and otherwise pushes its value and leaves its store |
| `FinshCompiler.AddressRuns` | E110_1/Libraries/finsh/finsh_compiler.c:742-757 | the code of an lvalue in address position pushes the address the lvalue denotes |
| `FinshCompiler.ArgumentsRun` | E110_1/Libraries/finsh/finsh_compiler.c:285-310 | the code of an argument list pushes the argument values left to right, each evaluated in the store the previous one left |
| `FinshCompiler.BinaryRuns` | E110_1/Libraries/finsh/finsh_compiler.c:217-284 | left operand, right operand, opcode: the value is the operator on both values, right operand evaluated in the left one’s store |
| `FinshCompiler.UnaryRuns` | E110_1/Libraries/finsh/finsh_compiler.c:266-271 | complement and dereference, including the fault when the address is not mapped |
| `FinshCompiler.NegRuns` | E110_1/Libraries/finsh/finsh_parser.c:710-750 | unary minus, compiled as 0 minus the operand, is the two’s complement negation |
| `FinshCompiler.AssignRuns` | E110_1/Libraries/finsh/finsh_compiler.c:311-372 | assignment stores at the address computed first and leaves the stored value as its own value |
| `FinshCompiler.PrefixRuns` | E110_1/Libraries/finsh/finsh_compiler.c:373-534 | ++x and --x store the value changed by 1 modulo 2^32 and yield the new value |
| `FinshCompiler.PostfixRuns` | E110_1/Libraries/finsh/finsh_compiler.c:535-713 | x++ and x-- store the value changed by 1 modulo 2^32 and yield the old value, popping the scratch slot |
| `FinshCompiler.StepRuns` | E110_1/Libraries/finsh/finsh_compiler.c:373-713 | all four step operators agree with the evaluator, including the fault at an unmapped variable |
| `FinshCompiler.BumpCrashes` | E110_1/Libraries/finsh/finsh_ops.c:375-388 | a step operator on an unmapped variable crashes before it stores anything |
| `FinshCompiler.CallRuns` | E110_1/Libraries/finsh/finsh_compiler.c:285-310 | callee, arguments, call: the evaluator’s call, with the parameter count in the operand byte |
| `FinshCompiler.ApplyRuns` | E110_1/Libraries/finsh/finsh_ops.c:444-569 | with the callee already on the stack, arguments and call opcode leave just the result in its place |
| `FinshCompiler.CallOutRuns` | E110_1/Libraries/finsh/finsh_ops.c:444-569 | the call opcode consumes exactly the callee and its parameters |
| `FinshCompiler.CheckedWidth` | E110_1/Libraries/finsh/finsh_compiler.c:759-901 | the data type the type check gives a node is that of its first leaf |
| `FinshCompiler.CountSiblings` | E110_1/Libraries/finsh/finsh_compiler.c:285-310 | counting siblings after the type check counts the arguments |
| `FinshCompiler.OwnIsValueCode` | E110_1/Libraries/finsh/finsh_compiler.c:43-901 | type check then code generation of the tree of a sound expression emits the expected value code |
| `FinshCompiler.OwnIsAddressCode` | E110_1/Libraries/finsh/finsh_compiler.c:759-901 | marked as an address, the same tree emits the address code instead |
| `FinshCompiler.CodeIsArgsCode` | E110_1/Libraries/finsh/finsh_compiler.c:285-310 | a sibling chain is emitted operand by operand in order |
| `FinshCompiler.OwnStep` | E110_1/Libraries/finsh/finsh_compiler.c:373-713 | the code of a step operator’s tree is the expected load, add or subtract, store sequence |
| `FinshCompiler.LoadsByType` | E110_1/Libraries/finsh/finsh_compiler.c:54-198 | the load opcode, by number, of a variable of every type, as a value and as an address |
| `FinshCompiler.StepsByWidth` | E110_1/Libraries/finsh/finsh_compiler.c:373-713 | the whole code of the four step operators on a byte and on a word, opcode by opcode |
| `FinshProgram.CompiledExpressionRuns` | E110_1/Libraries/finsh/finsh_compiler.c:43-901 | compiler correctness and stack bound: compiled code of any sound tree with n nodes pushes exactly the evaluator’s value, leaves its store, crashes iff it faults, and never goes below its start nor more than n + 2 above it |
| `FinshProgram.OperatorNeedsDword` | E110_1/Libraries/finsh/finsh_compiler.c:791-795 | a binary operator is computed exactly when its first operand has dword type; otherwise no opcode is emitted and both operands stay on the stack |
| `FinshProgram.UnaryNeedsDword` | E110_1/Libraries/finsh/finsh_compiler.c:791-795 | so are complement and dereference; without a data type the operand’s value stays as it is |
| `FinshProgram.AssignNeedsDword` | E110_1/Libraries/finsh/finsh_compiler.c:791-795 | and assignment through a dereference; without a data type nothing is stored, and address and value stay on the stack |
| `FinshProgram.CallPlusOneLeavesTwo` | E110_1/Libraries/finsh/finsh_compiler.c:791-795 | f() + 1 for any system call f: the evaluator adds, the compiled program ends with the result and the 1 on the stack |
| `FinshProgram.SkippedOperator` | E110_1/Libraries/finsh/finsh_compiler.c:217-221 | with a first operand that has no data type the emitted code is that of the two operands and nothing more |
| `FinshProgram.SizeIsNodes` | E110_1/Libraries/finsh/finsh_node.c:45-62 | the number of table nodes of a tree is the number its expression needs |
| `FinshProgram.StatementsRun` | E110_1/Libraries/finsh/finsh_compiler.c:903-937 | a statement list runs statement by statement, popping every value but the last, with the store threaded through |
| `FinshProgram.NoOpsRun` | E110_1/Libraries/finsh/finsh_vm.c:47-72 | the zero tail of the text segment runs to its end and changes nothing |
| `FinshProgram.ProgramRuns` | E110_1/Libraries/finsh/finsh_compiler.c:903-937 | whole program: for any non-empty list of sound statements whose tree fits the node table and whose code fits the text, the machine ends with exactly the last value on the 64-slot stack and the threaded store |
| `FinshProgram.CheckKeepsIds` | E110_1/Libraries/finsh/finsh_compiler.c:759-901 | the type check neither moves nor shares nodes |
| `FinshProgram.Compiler.constructor` | E110_1/Libraries/finsh/finsh_compiler.c:903-937 | a compiler over the given table and text, at program counter 0 |
| `FinshProgram.MarkNode` | E110_1/Libraries/finsh/finsh_compiler.c:759-901 | marks one node and leaves the rest of its record |
| `FinshProgram.TypeCheck` | E110_1/Libraries/finsh/finsh_compiler.c:759-901 | the in-place marking of the table turns the tree rooted at a node into its checked form and touches no other entry |
| `FinshProgram.Compiler.CodeByte` | E110_1/Libraries/finsh/finsh_compiler.c:38-41 | appends one byte at the compile pointer |
| `FinshProgram.Compiler.CodeDword` | E110_1/Libraries/finsh/finsh_compiler.c:38-41 | appends a word low byte first |
| `FinshProgram.Compiler.CodeId` | E110_1/Libraries/finsh/finsh_compiler.c:54-198 | appends the load of an identifier by kind, type and address mode, and nothing for types the source skips |
| `FinshProgram.Compiler.CodeStep` | E110_1/Libraries/finsh/finsh_compiler.c:373-713 | appends the code of one step operator at the node’s width |
| `FinshProgram.Compiler.CodeAddress` | E110_1/Libraries/finsh/finsh_compiler.c:535-713 | appends the address that a postfix form stores to |
| `FinshProgram.Compiler.CountParameters` | E110_1/Libraries/finsh/finsh_compiler.c:285-310 | the loop over siblings counts the parameters |
| `FinshProgram.Compiler.EmitNode` | E110_1/Libraries/finsh/finsh_compiler.c:43-757 | appends exactly the code of one node after its operands, for every node kind, and writes nowhere else |
| `FinshProgram.Compiler.EmitOp` | E110_1/Libraries/finsh/finsh_compiler.c:217-757 | the operator part of the switch |
| `FinshProgram.Compiler.Compile` | E110_1/Libraries/finsh/finsh_compiler.c:43-757 | the recursive walk appends child, node, sibling code of the tree at the compile pointer |
| `FinshProgram.Compiler.CompileOne` | E110_1/Libraries/finsh/finsh_compiler.c:903-937 | cuts one statement off its successors, appends its code, and hands back the rest of the chain unharmed |
| `FinshProgram.Compiler.CompileStatements` | E110_1/Libraries/finsh/finsh_compiler.c:903-937 | the cleared text ends up holding the code of all statements separated by pops, zero after that |
| `FinshProgram.Compiler.ClearText` | E110_1/Libraries/finsh/finsh_compiler.c:903-937 | the text segment is zero from end to end |
| `FinshProgram.RunLine` | E110_1/Libraries/finsh/shell.c:200-240 | mark, compile, run on the arrays: the bottom of the stack is the last statement’s value and the store is the evaluator’s, or the run fails exactly when the evaluation faults |
| `FinshNodes.Allocate` | E110_1/Libraries/finsh/finsh_node.c:45-62 | takes the first unused entry of any table, marks it and leaves the rest; a full table is left unchanged and gives none |
| `FinshNodes.ShapeKept` | E110_1/Libraries/finsh/finsh_node.c:45-62 | a tree in the table survives every change outside its own entries |
| `FinshGrammar.BuildBack` | E110_1/Libraries/finsh/finsh_parser.c:467-668 | folding the operands of a level from the left rebuilds the expression: the binary operators associate to the left |
| `FinshGrammar.PrintIsSpine` | E110_1/Libraries/finsh/finsh_parser.c:467-668 | the tokens of an expression are its tighter first operand followed by operator and operand pairs of its level |
| `FinshGrammar.SpineFits` | E110_1/Libraries/finsh/finsh_parser.c:467-668 | those operands are all one level tighter |
| `FinshGrammar.BuildPostBack` | E110_1/Libraries/finsh/finsh_parser.c:758-806 | applying postfix operators and calls in order rebuilds the expression |
| `FinshGrammar.PrintIsPostSpine` | E110_1/Libraries/finsh/finsh_parser.c:758-806 | the tokens of a postfix expression are its primary followed by its suffixes |
| `FinshProductions.AssignExprIs` | E110_1/Libraries/finsh/finsh_parser.c:438-460 | the production of an assignment derives exactly the token strings printed for the expressions that need no parentheses, each with its expression |
| `FinshProductions.OrExprIs` | E110_1/Libraries/finsh/finsh_parser.c:463-488 | so does that of the inclusive or, over operands of ^ |
| `FinshProductions.XorExprIs` | E110_1/Libraries/finsh/finsh_parser.c:490-513 | of ^ over & |
| `FinshProductions.AndExprIs` | E110_1/Libraries/finsh/finsh_parser.c:515-540 | of & over shifts |
| `FinshProductions.ShiftExprIs` | E110_1/Libraries/finsh/finsh_parser.c:542-580 | of << and >> over sums |
| `FinshProductions.AdditiveExprIs` | E110_1/Libraries/finsh/finsh_parser.c:582-620 | of + and - over products |
| `FinshProductions.MultiplicativeExprIs` | E110_1/Libraries/finsh/finsh_parser.c:622-668 | of *, / and % over casts |
| `FinshProductions.CastExprIs` | E110_1/Libraries/finsh/finsh_parser.c:670-750 | of the prefix operators, each by its token, over postfix expressions |
| `FinshProductions.PostfixExprIs` | E110_1/Libraries/finsh/finsh_parser.c:752-806 | of ++, -- and calls over primary expressions |
| `FinshProductions.ParameterListIs` | E110_1/Libraries/finsh/finsh_parser.c:859-886 | of arguments separated by commas |
| `FinshProductions.NestsByTightness` | E110_1/Libraries/finsh/finsh_parser.c:463-668 | of two operators between three leaves the tighter one takes the middle, and of two that bind alike the left one, in that tree and no other |
| `FinshProductions.AssignsToSum` | E110_1/Libraries/finsh/finsh_parser.c:438-460 | the code derives a sum on the left of =, which the comment above it does not allow |
| `FinshParser.Parser.NextToken` | E110_1/Libraries/finsh/finsh_token.c:80-86 | delivers the next token once, or the replayed one, and then the end of input for good |
| `FinshParser.Parser.Replay` | E110_1/Libraries/finsh/finsh_parser.c:67-90 | puts the current token back so that it is read again next |
| `FinshParser.Parser.MatchToken` | E110_1/Libraries/finsh/finsh_parser.c:67-90 | consumes the expected token; any other one is put back and reported as an error |
| `FinshParser.Parser.MakeSysNode` | E110_1/Libraries/finsh/finsh_parser.c:897-911 | a new operator node with the first operand as child and the second linked behind it as sibling; an exhausted table is an error and changes nothing |
| `FinshParser.MadeIsFresh` | E110_1/Libraries/finsh/finsh_parser.c:897-911 | linking two separate trees under a new node loses no sibling and shares no entry |
| `FinshParser.Parser.NewValue` | E110_1/Libraries/finsh/finsh_node.c:125-202 | a leaf for a constant, or an error when the table is full |
| `FinshParser.Parser.NewId` | E110_1/Libraries/finsh/finsh_node.c:64-123 | a leaf for a known name; an unknown name or a full table is an error |
| `FinshParser.Parser.ProcPrimary` | E110_1/Libraries/finsh/finsh_parser.c:814-857 | reads exactly one identifier or number, character or null literal and builds its leaf, or reports an error if the table is full |
| `FinshParser.Parser.ProcAssign` | E110_1/Libraries/finsh/finsh_parser.c:442-460 | parses exactly the tokens of an assignment expression, to the right, and builds its tree, or reports an error exactly when the tree does not fit the table |
| `FinshParser.Parser.ProcBinary` | E110_1/Libraries/finsh/finsh_parser.c:467-668 | for each of the six binary levels: parses exactly the tokens of an expression of that level and builds its left-associated tree, never reading into what follows; which operators those are and how they nest is what `NestsByTightness` and the productions say |
| `FinshParser.Parser.ProcCast` | E110_1/Libraries/finsh/finsh_parser.c:675-696 | without a parenthesis the cast level is the unary level; a parenthesis opens a cast, which is an error as no token is a type |
| `FinshParser.Parser.ProcUnary` | E110_1/Libraries/finsh/finsh_parser.c:710-750 | each prefix operator applies to the unary expression behind it; minus becomes 0 minus it, plus leaves it |
| `FinshParser.Parser.UnaryNode` | E110_1/Libraries/finsh/finsh_parser.c:710-750 | the node of a prefix operator over its operand, or an error exactly when the table has no room for it |
| `FinshParser.Parser.NegNode` | E110_1/Libraries/finsh/finsh_parser.c:710-750 | unary minus takes two nodes, the constant 0 and a subtraction |
| `FinshParser.Parser.ProcType` | E110_1/Libraries/finsh/finsh_parser.c:273-345 | where no token is a type, always an error that consumes nothing |
| `FinshParser.Parser.ProcPostfix` | E110_1/Libraries/finsh/finsh_parser.c:758-806 | postfix steps and calls apply in order to the primary |
| `FinshParser.Parser.BumpNode` | E110_1/Libraries/finsh/finsh_parser.c:758-806 | the node of a postfix step over what is there |
| `FinshParser.Parser.CallNode` | E110_1/Libraries/finsh/finsh_parser.c:758-806 | the node of a call over callee and arguments, or an error exactly when they do not fit |
| `FinshParser.Parser.ProcArguments` | E110_1/Libraries/finsh/finsh_parser.c:758-806 | a call’s arguments up to and including the closing parenthesis |
| `FinshParser.Parser.ProcParamList` | E110_1/Libraries/finsh/finsh_parser.c:864-886 | parses a comma-separated list exactly and chains every argument, in order, as siblings |
| `FinshParser.Parser.ProcStatement` | E110_1/Libraries/finsh/finsh_parser.c:412-427 | parses one expression statement and its semicolon |
| `FinshParser.Parser.Run` | E110_1/Libraries/finsh/finsh_parser.c:916-998 | parsing the tokens of any statement list reports a new error exactly when its trees do not fit the rest of the table; otherwise it consumes all of them and builds the sibling chain of all its trees |
| `FinshParser.EncodesAppend` | E110_1/Libraries/finsh/finsh_parser.c:864-886 | appending a tree to the chain appends its expression to the list |
| `FinshParser.AppendShape` | E110_1/Libraries/finsh/finsh_parser.c:864-886 | linking a tree behind the last sibling gives the appended chain in the table |
| `FinshParser.AssignSplits` | E110_1/Libraries/finsh/finsh_parser.c:442-460 | after the left operand the next token is = exactly when the expression is an assignment |
| `FinshParser.SpineEnds` | E110_1/Libraries/finsh/finsh_parser.c:467-668 | the loop of a level sees one of its operators exactly as long as operands are left |
| `FinshParser.SuffixEnds` | E110_1/Libraries/finsh/finsh_parser.c:758-806 | the postfix loop sees a suffix token exactly as long as suffixes are left |
| `FinshParser.UnarySplits` | E110_1/Libraries/finsh/finsh_parser.c:710-750 | the first token of a unary expression decides which prefix operator it is, if any |
| `FinshParser.PrintHasNoEof` | E110_1/Libraries/finsh/finsh_parser.c:916-998 | no expression prints the end of input |
| `FinshShell.StatementsCodeIsLineCode` | E110_1/Libraries/finsh/finsh_compiler.c:903-937 | the code of a compiled line is the value code of its statements with pops between |
| `FinshShell.LineIs` | E110_1/Libraries/finsh/finsh_parser.c:408-427 | a line is derived, statement by statement and semicolon by semicolon, exactly when it is what is printed for statements that need no parentheses |
| `FinshShell.Evaluate` | E110_1/Libraries/finsh/shell.c:200-240 | end to end, for every line that the productions derive for sound statements whose code fits: an error exactly when its tree does not fit the table, and then nothing is run; otherwise parsing its tokens, compiling and running yields the evaluator’s last value at the stack bottom and its store |
| `FinshHeap.FreeAbove` | E110_1/Libraries/finsh/finsh_heap.c:166-200 | above any allocated block there is a free one |
| `FinshHeap.CarvedKeepsPool` | E110_1/Libraries/finsh/finsh_heap.c:232-246 | handing out the front of a free block keeps the pool tiled and aligned, no two free blocks touching and the highest block free |
| `FinshHeap.ReleasedKeepsPool` | E110_1/Libraries/finsh/finsh_heap.c:248-298 | so does freeing any block and merging it with its neighbours |
| `FinshHeap.ReleasedBlocks` | E110_1/Libraries/finsh/finsh_heap.c:115-128 | freeing a block frees that one and leaves every other used block as large as it was |
| `FinshHeap.CarvedBlocks` | E110_1/Libraries/finsh/finsh_heap.c:73-110 | handing out puts that block in use with just the aligned size, and no other block in use changes |
| `FinshHeap.SweptKeepsPointed` | E110_1/Libraries/finsh/finsh_heap.c:133-161 | a collection leaves exactly the used blocks that some typed variable points to |
| `FinshHeap.FitTestIsExact` | E110_1/Libraries/finsh/finsh_heap.c:73-110 | the 32-bit fit test is the intended one for every request except the eight whose aligned size plus a header wraps |
| `FinshHeap.FitTestWraps` | E110_1/Libraries/finsh/finsh_heap.c:73-110 | on a heap with nothing allocated a request of 2^32 - 4 passes the test |
| `FinshHeap.JoinedLists` | E110_1/Libraries/finsh/finsh_heap.c:248-298 | the list surgery of a merge turns the sorted free list and lengths into those of the merged pool |
| `FinshHeap.RightInList` | E110_1/Libraries/finsh/finsh_heap.c:248-298 | in the sorted free list the next element touches the block exactly when the next block of the pool is free |
| `FinshHeap.LeftInList` | E110_1/Libraries/finsh/finsh_heap.c:248-298 | and the previous one exactly when the previous block is |
| `FinshHeap.Searched` | E110_1/Libraries/finsh/finsh_heap.c:73-110 | the walk along the sorted free list finds the lowest free block with enough room, or there is none |
| `FinshHeap.InsertSortedIsSorted` | E110_1/Libraries/finsh/finsh_heap.c:166-200 | inserting at the first higher address keeps the list ascending and adds just that block |
| `FinshHeap.Heap.constructor` | E110_1/Libraries/finsh/finsh_heap.c:55-68 | one free block of the whole heap and nothing allocated |
| `FinshHeap.Heap.BlockInsert` | E110_1/Libraries/finsh/finsh_heap.c:166-200 | the result is the sorted list with the block in place exactly when the block is not the highest or its next field was clear; other lists are untouched |
| `FinshHeap.Heap.BlockRemove` | E110_1/Libraries/finsh/finsh_heap.c:205-227 | unlinks the block, whose own next field stays behind as it was |
| `FinshHeap.Heap.BlockSplit` | E110_1/Libraries/finsh/finsh_heap.c:232-246 | the remainder follows the block in the list and the two lengths plus a header make up the old one |
| `FinshHeap.Heap.BlockMerge` | E110_1/Libraries/finsh/finsh_heap.c:248-298 | merges with either or both free neighbours in the list, and none that does not touch |
| `FinshHeap.Heap.FindPrevious` | E110_1/Libraries/finsh/finsh_heap.c:248-298 | the search ends at the element before the block |
| `FinshHeap.Heap.Free` | E110_1/Libraries/finsh/finsh_heap.c:115-128 | both lists stay sorted and tile the heap together; exactly this block is freed |
| `FinshHeap.Heap.Gc` | E110_1/Libraries/finsh/finsh_heap.c:133-161 | afterwards a block is allocated iff it was and a typed variable points to it; those keep their extent |
| `FinshHeap.Heap.IsPointed` | E110_1/Libraries/finsh/finsh_heap.c:133-161 | the scan of the variable table finds a typed pointer to the block iff there is one |
| `FinshHeap.Heap.Allocate` | E110_1/Libraries/finsh/finsh_heap.c:73-110 | returns the lowest block with strictly more than the aligned size and a header, else after one collection the lowest with at least that, else none; the payload is cleared and no other byte beyond the two headers changes; it leaves the heap exactly when the room wraps and some block passes the test |
| `FinshHeap.Heap.FindFirst` | E110_1/Libraries/finsh/finsh_heap.c:73-110 | the lowest free block with at least the wanted room |
| `FinshHeap.Heap.Give` | E110_1/Libraries/finsh/finsh_heap.c:73-110 | hands the block out: its payload is cleared and no byte outside it and the two headers changes |
| `FinshHeap.Heap.MoveOver` | E110_1/Libraries/finsh/finsh_heap.c:90-108 | splits the block and moves its front from the free to the allocated list, both staying sorted |
| `BlockList.AlignCovers` | E110_1/Libraries/kernel/mem.c:263-274 | 32-bit alignment covers the request exactly up to 2^32 - 4; the last three sizes align to 0 |
| `BlockList.NeededMeans` | E110_1/Libraries/kernel/mem.c:263-277 | a request of at most 12 bytes, or one that wraps, needs 12, and any other the next multiple of four |
| `BlockList.CutKeepsShape` | E110_1/Libraries/kernel/mem.c:303-319 | splitting a block keeps the tiling, the order, the alignment and prev as inverse of next |
| `BlockList.MergeKeepsShape` | E110_1/Libraries/kernel/mem.c:136-181 | so does swallowing the next block |
| `BlockList.TakenKeepsShape` | E110_1/Libraries/kernel/mem.c:290-341 | handing out a free block, split or whole, keeps all that and leaves no two free neighbours |
| `BlockList.PluggedKeepsShape` | E110_1/Libraries/kernel/mem.c:136-181 | after a block was freed between proper neighbours, merging right then left restores that no two neighbours are free |
| `BlockList.ShrunkKeepsShape` | E110_1/Libraries/kernel/mem.c:431-454 | cutting the tail off a used block and plugging it keeps every invariant |
| `BlockList.ReleasedKeepsShape` | E110_1/Libraries/kernel/mem.c:505-559 | freeing keeps every invariant |
| `BlockList.PrevIsPredecessor` | E110_1/Libraries/kernel/mem.c:162-178 | prev of a block is the block whose next is this one |
| `BlockList.TakenKeepsLive` | E110_1/Libraries/kernel/mem.c:290-341 | no other live block changes its extent or any byte of its payload |
| `BlockList.ShrunkKeepsLive` | E110_1/Libraries/kernel/mem.c:431-454 | nor when a block is shrunk, and the kept part of that block is unchanged too |
| `BlockList.ReleasedKeepsLive` | E110_1/Libraries/kernel/mem.c:505-559 | nor when another one is freed |
| `BlockList.TakenTotal` | E110_1/Libraries/kernel/mem.c:290-341 | the summed size of used or free blocks changes by exactly what was handed out |
| `BlockList.CutTotal` | E110_1/Libraries/kernel/mem.c:303-319 | splitting a free block takes one header off the free sum; splitting a used one moves the rest, less a header, from the used to the free sum |
| `BlockList.MergeTotal` | E110_1/Libraries/kernel/mem.c:136-181 | merging two free blocks gives back exactly one header |
| `BlockList.ShrunkTotal` | E110_1/Libraries/kernel/mem.c:431-454 | shrinking lowers the used sum by exactly what was cut off |
| `BlockList.CopyMore` | E110_1/Libraries/kernel/kservice.c:219-276 | copying the next run of bytes extends the copied prefix, since source and destination do not overlap |
| `BlockList.CopyWord` | E110_1/Libraries/kernel/kservice.c:250-265 | one word load and store moves four bytes and no others |
| `BlockList.CopyNextWord` | E110_1/Libraries/kernel/kservice.c:250-265 | advances the copied prefix by a word |
| `BlockList.Copy` | E110_1/Libraries/kernel/kservice.c:219-276 | the block, word and byte loops together copy every byte of a non-overlapping range, for any length and alignment, and nothing else |
| `SmallMem.FirstFitFits` | E110_1/Libraries/kernel/mem.c:279-352 | the search loop returns a free block with enough room that starts within the loop’s bound, and every earlier free block is too small; if it returns none, every free block up to the bound is |
| `SmallMem.FirstOfAll` | E110_1/Libraries/kernel/mem.c:279-352 | with nothing free below the cached block, the hit is the first fitting block of the whole heap, and no hit means that none fits |
| `SmallMem.FirstFitFromLowest` | E110_1/Libraries/kernel/mem.c:279-352 | scanning from the cached lowest free block finds the same block as scanning from offset 0 |
| `SmallMem.NextFreeIsFree` | E110_1/Libraries/kernel/mem.c:345-352 | the block the advancing loop ends on is free or the end marker, and the lowest free block if nothing below the start was free |
| `SmallMem.FollowPlugStaysFree` | E110_1/Libraries/kernel/mem.c:136-181 | through every merge the cached pointer stays on a free block boundary, and lowest if it was |
| `SmallMem.ReleasedTotal` | E110_1/Libraries/kernel/mem.c:505-559 | freeing lowers the summed used size by the block, header included |
| `SmallMem.LowestAfterShrink` | E110_1/Libraries/kernel/mem.c:431-454 | after realloc’s split the cached block is still the lowest free one exactly when it lies below the shrunk block or was the free block right behind it |
| `SmallMem.LowestLostByShrink` | E110_1/Libraries/kernel/mem.c:431-454 | a full heap where it is not: the next allocation fails from the cached block although a scan from 0 would succeed |
| `SmallMem.AlignmentShortchanges` | E110_1/Libraries/kernel/mem.c:263-274 | a new heap answers a request of 2^32 - 1 with a payload of 12 bytes |
| `SmallMem.TakenKeepsLowest` | E110_1/Libraries/kernel/mem.c:345-352 | taking the cached block and advancing, or taking another, keeps the cached block the lowest free one |
| `SmallMem.TinyPoolSpins` | E110_1/Libraries/kernel/mem.c:275-284 | in a pool with less room than the smallest block the search loop’s bound wraps: after any number of turns it is still below the bound and on no block that fits, so it never ends |
| `SmallMem.Heap.constructor` | E110_1/Libraries/kernel/mem.c:184-235 | one free block up to the end marker, nothing used |
| `SmallMem.Heap.PlugHoles` | E110_1/Libraries/kernel/mem.c:136-181 | merges right, then left, and moves the cached pointer along |
| `SmallMem.Heap.Malloc` | E110_1/Libraries/kernel/mem.c:246-375 | hands out exactly the first fitting free block of the heap within the loop’s bound, or none if all are too small; all invariants kept (tiling, accounting, high-water mark, lowest free), other live bytes untouched; the payload covers the request iff it is at most 2^32 - 4 |
| `SmallMem.Heap.TakeBlock` | E110_1/Libraries/kernel/mem.c:285-352 | split or whole, the accounting grows by the block taken and the cached pointer stays right |
| `SmallMem.Heap.SplitOrTake` | E110_1/Libraries/kernel/mem.c:290-341 | splits exactly when the rest can hold a header and a smallest payload |
| `SmallMem.Heap.AdvanceFree` | E110_1/Libraries/kernel/mem.c:345-352 | the loop over used blocks ends on the next free block or the end marker |
| `SmallMem.Heap.Free` | E110_1/Libraries/kernel/mem.c:505-559 | frees exactly that block, merges it, keeps all invariants and the cached lowest block; null and foreign pointers change nothing |
| `SmallMem.Heap.Shrink` | E110_1/Libraries/kernel/mem.c:431-454 | cuts the tail off in place: accounting, payload prefix and all other live blocks kept |
| `SmallMem.Heap.Cutting` | E110_1/Libraries/kernel/mem.c:433-448 | writes the header of the tail and nothing outside it |
| `SmallMem.Heap.Move` | E110_1/Libraries/kernel/mem.c:458-467 | allocate, copy, free: succeeds exactly when the search for the size finds a block; the first bytes carried over, other live blocks unchanged, the old block given up, used and peak size exact; on failure nothing changes |
| `SmallMem.Heap.CopyPayload` | E110_1/Libraries/kernel/mem.c:458-467 | the copy stays inside the new payload and leaves every live block as it was |
| `SmallMem.Heap.Realloc` | E110_1/Libraries/kernel/mem.c:386-467 | stays put exactly for the same or a sufficiently smaller size, fails exactly when it may not stay and the search finds nothing, and then changes nothing; the first min(old, new) payload bytes are the old ones and every other live block keeps its extent and bytes; a cached block that was the lowest free one stays so exactly under the condition of `LowestAfterShrink` when it cuts, and always when it does not; the payload covers the request iff that is at most 2^32 - 4 |
| `SmallMem.Heap.ReallocLive` | E110_1/Libraries/kernel/mem.c:419-467 | the same for live memory and an aligned size |
| `Memheap.FirstInListFits` | E110_1/Libraries/kernel/memheap.c:176-187 | the walk along the unordered free list returns its first block that is large enough; none means that every listed block is too small |
| `Memheap.NothingFits` | E110_1/Libraries/kernel/memheap.c:176-190 | the walk finds nothing exactly when no free block of the heap is large enough |
| `Memheap.TakenListsFree` | E110_1/Libraries/kernel/memheap.c:195-262 | after handing out, the free list is again exactly the free blocks, the remainder at its head |
| `Memheap.FreedKeepsShape` | E110_1/Libraries/kernel/memheap.c:499-597 | merging left then right keeps the circular tiling, with no two free neighbours |
| `Memheap.FreedTotal` | E110_1/Libraries/kernel/memheap.c:538-564 | the free bytes grow by the payload and one header for every merge |
| `Memheap.FreedListsFree` | E110_1/Libraries/kernel/memheap.c:536-592 | the free list, with a joined right neighbour dropped and a new block at its front, is again exactly the free blocks, for every combination of merges |
| `Memheap.FreedKeepsLive` | E110_1/Libraries/kernel/memheap.c:499-597 | no other live block is touched |
| `Memheap.FreedKeepsUsed` | E110_1/Libraries/kernel/memheap.c:536-592 | exactly the released block stops being used, whichever merges happen |
| `Memheap.MergedLeftKeepsShape` | E110_1/Libraries/kernel/memheap.c:536-558 | after the left merge all is well except possibly to the right of the hole |
| `Memheap.GrownKeepsShape` | E110_1/Libraries/kernel/memheap.c:338-400 | growing into the free neighbour and re-creating its rest keeps the shape |
| `Memheap.GrownTotal` | E110_1/Libraries/kernel/memheap.c:356-359 | the free bytes fall by exactly the growth |
| `Memheap.GrownKeepsLive` | E110_1/Libraries/kernel/memheap.c:333-400 | no other live byte changes and the grown block keeps its own |
| `Memheap.GrownListsFree` | E110_1/Libraries/kernel/memheap.c:361-400 | the free list is again exactly the free blocks |
| `Memheap.ShrunkFreeTotal` | E110_1/Libraries/kernel/memheap.c:458-489 | the free bytes grow by what was cut off, less a header if it stands alone |
| `Memheap.ShrunkListsFree` | E110_1/Libraries/kernel/memheap.c:436-489 | the free list is again exactly the free blocks |
| `Memheap.FreeTotalBounds` | E110_1/Libraries/kernel/memheap.c:237-249 | the free bytes are never negative nor more than the pool |
| `Memheap.PeakGrows` | E110_1/Libraries/kernel/memheap.c:241-249 | raising the mark when the used bytes exceed it keeps it the maximum over the whole run |
| `Memheap.GrowGuardIsExact` | E110_1/Libraries/kernel/memheap.c:337-359 | the 32-bit test for growing in place is the intended one exactly for sizes up to 2^32 - 16 |
| `Memheap.NewHeaderWraps` | E110_1/Libraries/kernel/memheap.c:337-397 | for every size above 2^32 - 16 the address of the free rest’s new header wraps into the last 12 bytes of the growing block’s own header |
| `Memheap.GrowWraps` | E110_1/Libraries/kernel/memheap.c:337-397 | a heap with one block of 100 bytes, at any address: a request of 2^32 - 12 for it passes the test, and the new header would start 12 bytes into the block’s own one |
| `Memheap.Heap.constructor` | E110_1/Libraries/kernel/memheap.c:60-131 | one free block and a used tail stub, circularly linked, the free list holding that block |
| `Memheap.Heap.Search` | E110_1/Libraries/kernel/memheap.c:176-187 | the pointer walk over the free list finds its first fitting block; a failed walk means that no listed block fits |
| `Memheap.Heap.Take` | E110_1/Libraries/kernel/memheap.c:189-262 | hands out a block of at least the size and less than a header and smallest payload more; accounting, peak and free list exact |
| `Memheap.Heap.SplitOrTake` | E110_1/Libraries/kernel/memheap.c:195-262 | splits exactly when the rest can hold a header and a smallest payload, and accounts for both cases |
| `Memheap.Heap.Alloc` | E110_1/Libraries/kernel/memheap.c:146-288 | fails exactly when the bytes are not there or no free block is large enough, and then changes nothing; else hands out the first listed block that fits and puts what is split off at the front of the list; the peak is the maximum of used bytes over the run; other live bytes untouched |
| `Memheap.Heap.Free` | E110_1/Libraries/kernel/memheap.c:499-597 | frees exactly that block with all merges; free list in order, byte counts exact; null changes nothing |
| `Memheap.Heap.JoinLeft` | E110_1/Libraries/kernel/memheap.c:536-558 | merges into a free left neighbour, or not, and counts a header if so |
| `Memheap.Heap.JoinRight` | E110_1/Libraries/kernel/memheap.c:560-592 | takes a free right neighbour off the list and merges it; inserts the hole only if it is new |
| `Memheap.Heap.Grow` | E110_1/Libraries/kernel/memheap.c:332-405 | grows in place to exactly the new size: own bytes, others’ bytes, free list, counts and peak |
| `Memheap.Heap.ShrinkTo` | E110_1/Libraries/kernel/memheap.c:422-496 | shrinks in place to exactly the new size with the tail freed and merged; the peak does not move |
| `Memheap.Heap.SplitOff` | E110_1/Libraries/kernel/memheap.c:436-489 | the tail becomes a free block, or joins the free one behind it, counts exact |
| `Memheap.Heap.Resize` | E110_1/Libraries/kernel/memheap.c:314-496 | stays put exactly when the block is large enough or its free neighbour leaves enough, else moves exactly when there are more bytes left than asked and some free block is large enough; payload prefix preserved in every case; on failure nothing changes; the 32-bit test lets a wrapped size pass exactly when that is above 2^32 - 16 and the neighbour is free; the run behind the peak is only extended |
| `Memheap.Heap.Realloc` | E110_1/Libraries/kernel/memheap.c:291-496 | the same from the caller’s side for every request, with size 0 freeing and a null pointer allocating, exactly when there is room; the payload covers the request iff that is at most 2^32 - 4 |
| `Memheap.Heap.Move` | E110_1/Libraries/kernel/memheap.c:412-420 | allocate, copy, free: succeeds exactly when there are more bytes left than asked and some free block is large enough; the old payload carried over, other live blocks unchanged; the run behind the peak is only extended |
| `Memheap.Heap.CopyPayload` | E110_1/Libraries/kernel/memheap.c:412-420 | the copy leaves every live block as it was |
| `RingList.ChainInsert` | E110_1/include/rtservice.h:63-89 | linking a node between two neighbours gives the chain with it inserted there |
| `RingList.ChainRemove` | E110_1/include/rtservice.h:91-97 | unlinking a node gives the chain without it |
| `RingList.RingElsewhere` | E110_1/include/rtservice.h:63-97 | a ring none of whose nodes was written to stays the ring it was |
| `RingList.Links.Init` | E110_1/include/rtservice.h:52-55 | an initialised head is an empty ring; nothing else changes |
| `RingList.Links.InsertAfter` | E110_1/include/rtservice.h:63-70 | the list with the node right behind the given one; other rings untouched |
| `RingList.Links.InsertBefore` | E110_1/include/rtservice.h:78-85 | the list with the node right before the given one; before the head is at the end |
| `RingList.Links.Remove` | E110_1/include/rtservice.h:91-97 | the list without the node, which ends up linked to itself |
| `RingList.Links.IsEmpty` | E110_1/include/rtservice.h:103-106 | true iff the list is empty |
| `SingleList.ListInsert` | E110_1/Libraries/finsh/finsh_heap.c:166-200 | linking a node behind its predecessor inserts it there |
| `SingleList.ListRemove` | E110_1/Libraries/finsh/finsh_heap.c:205-227 | linking past a node removes it |
| `WaitList.PrioPosSplits` | E110_1/Libraries/kernel/ipc.c:92-135 | the insert position is behind all waiters at least as urgent and before the first less urgent one |
| `WaitList.EnqueueKeepsSorted` | E110_1/Libraries/kernel/ipc.c:92-135 | suspending by priority keeps the wait list sorted |
| `WaitList.EnqueueIsStable` | E110_1/Libraries/kernel/ipc.c:92-135 | among equals the newcomer goes last, and the others keep their order |
| `WaitList.EnqueueMembers` | E110_1/Libraries/kernel/ipc.c:92-135 | with either flag just this thread is added |
| `WaitList.EnqueueLast` | E110_1/Libraries/kernel/ipc.c:92-135 | with the first-in first-out flag the newcomer goes last |
| `WaitList.LeaveKeepsSorted` | E110_1/Libraries/kernel/ipc.c:146-160 | a thread leaving keeps the list sorted |
| `WaitList.Suspend` | E110_1/Libraries/kernel/ipc.c:92-135 | the loop over the linked list puts the thread at exactly that position |
| `WaitList.ResumeFirst` | E110_1/Libraries/kernel/ipc.c:146-160 | the first thread leaves the list and is the one returned |
| `WaitList.ResumeAll` | E110_1/Libraries/kernel/ipc.c:169-196 | the loop empties the list and sets the error of exactly the threads that were on it |
| `WaitList.Withdraw` | E110_1/Libraries/kernel/thread.c:636-660 | the expired thread, wherever it stands, leaves the list |
| `MessageQueue.StepListed` | E110_1/Libraries/kernel/ipc.c:1924-2278 | every step keeps free list and queue free of repeats, apart, and within the pool |
| `MessageQueue.StepHeldApart` | E110_1/Libraries/kernel/ipc.c:1924-2220 | a slot held while copying is on neither list |
| `MessageQueue.StepHeldOnce` | E110_1/Libraries/kernel/ipc.c:1924-2220 | no two threads hold the same slot |
| `MessageQueue.StepNoneLost` | E110_1/Libraries/kernel/ipc.c:1924-2278 | every pool slot is on the free list, in the queue or held by some thread, also across reset |
| `MessageQueue.StepWaiters` | E110_1/Libraries/kernel/ipc.c:2126-2202 | the suspended threads are exactly those on the wait list, each once |
| `MessageQueue.StepNoLostWakeup` | E110_1/Libraries/kernel/ipc.c:2126-2202 | while a receiver is suspended the queue is no longer than the number of receivers resumed but not yet run |
| `MessageQueue.StepFlows` | E110_1/Libraries/kernel/ipc.c:1924-2220 | every step acts on the messages as on a double-ended queue: send appends, urgent prepends, receive takes the oldest, reset empties |
| `MessageQueue.OthersKeepHeld` | E110_1/Libraries/kernel/ipc.c:1924-2220 | while a thread copies, no step of another thread changes the slot it holds or that it holds it |
| `MessageQueue.StepInv` | E110_1/Libraries/kernel/ipc.c:1924-2278 | conservation and no lost wakeup are kept by every step |
| `MessageQueue.RunInv` | E110_1/Libraries/kernel/ipc.c:1924-2278 | both hold after any interleaved run of senders, receivers, timeouts and resets, and the queue’s messages are what the run makes of a double-ended queue |
| `MessageQueue.StepCarries` | E110_1/Libraries/kernel/ipc.c:1924-2278 | every step acts on the buffers the senders passed as on a queue without slots: each slot starts with its sender’s bytes while it is sent, queued and received |
| `MessageQueue.RunCarries` | E110_1/Libraries/kernel/ipc.c:1924-2278 | over any run, with urgent messages and resets, the slot a receiver copies out starts with the bytes of the buffer that the slotless queue gave it |
| `MessageQueue.RunDelivers` | E110_1/Libraries/kernel/ipc.c:1924-2278 | in particular for every run from the empty queue |
| `MessageQueue.StepRecorded` | E110_1/Libraries/kernel/ipc.c:2126-2202 | a waiting or resumed thread’s error field is clear, a failed one’s says why |
| `MessageQueue.Fifo` | E110_1/Libraries/kernel/ipc.c:1924-2220 | over any run without urgent sends and resets, what was there and was sent is what was received and is there, in order |
| `MessageQueue.StartInv` | E110_1/Libraries/kernel/ipc.c:1738-1785 | the initial queue satisfies the invariant |
| `MessageQueue.Queue.constructor` | E110_1/Libraries/kernel/ipc.c:1738-1785 | the initialisation loop chains all slots on the free list |
| `MessageQueue.Queue.ReserveSlot` | E110_1/Libraries/kernel/ipc.c:1939-1956 | takes the head of the free list, or reports full exactly when it is empty |
| `MessageQueue.Queue.CopyIn` | E110_1/Libraries/kernel/ipc.c:1958-1961 | fills the held slot: the message is its prefix and the rest of the slot stays |
| `MessageQueue.Queue.LinkMessage` | E110_1/Libraries/kernel/ipc.c:1963-1995 | links the slot in, at the front or the back, counts it and wakes the first receiver of the wait list and nobody else; the pointers hold the abstract queue again |
| `MessageQueue.Queue.LinkTail` | E110_1/Libraries/kernel/ipc.c:1965-1976 | appends at the tail pointer, in the empty queue too |
| `MessageQueue.Queue.LinkHead` | E110_1/Libraries/kernel/ipc.c:2052-2058 | prepends at the head and sets the tail only in the empty queue |
| `MessageQueue.Queue.TakeMessage` | E110_1/Libraries/kernel/ipc.c:2126-2205 | takes the oldest message, clearing the tail with the last one; enqueues the receiver or gives up exactly when there is none |
| `MessageQueue.Queue.Resumed` | E110_1/Libraries/kernel/ipc.c:2172-2180 | the error field tells a thread resumed for a message from one that failed, and which error it returns |
| `MessageQueue.Queue.CopyOut` | E110_1/Libraries/kernel/ipc.c:2207-2208 | the caller gets the slot’s first bytes, as many as it has room for and the slot has; if it has room for the sender’s buffer, the whole buffer |
| `MessageQueue.Queue.ReturnSlot` | E110_1/Libraries/kernel/ipc.c:2210-2216 | puts the slot back on the free list |
| `MessageQueue.Queue.Timeout` | E110_1/Libraries/kernel/thread.c:636-660 | a waiter whose timer expires leaves the wait list with a timeout error; the queue and everybody else stay |
| `MessageQueue.Queue.Reset` | E110_1/Libraries/kernel/ipc.c:2234-2278 | every receiver fails and nobody else is affected, every queued slot moves to the free list, no message is left |
| `MessageQueue.Queue.ReleaseAll` | E110_1/Libraries/kernel/ipc.c:2249-2264 | the loop drains the queue into the free list, newest on top |
| `Mailbox.SendWakes` | E110_1/Libraries/kernel/ipc.c:1404-1523 | sending keeps that no wakeup is lost, on both wait lists |
| `Mailbox.ReceiveWakes` | E110_1/Libraries/kernel/ipc.c:1551-1674 | so does receiving |
| `Mailbox.StepInv` | E110_1/Libraries/kernel/ipc.c:1404-1712 | never more entries than places; a suspended receiver means no more mails than resumed receivers, a suspended sender no more room than resumed senders; kept by every step |
| `Mailbox.RoleKept` | E110_1/Libraries/kernel/ipc.c:1404-1674 | a suspended or resumed thread keeps its role, and a sender its value, until it runs or fails |
| `Mailbox.RunInv` | E110_1/Libraries/kernel/ipc.c:1404-1712 | after any interleaved run |
| `Mailbox.Fifo` | E110_1/Libraries/kernel/ipc.c:1404-1674 | between resets the values received followed by those still there are the values there before and those accepted, in order; an accepted value is the one rt_mb_send_wait was called with |
| `Mailbox.RunDelivers` | E110_1/Libraries/kernel/ipc.c:1404-1712 | over any run, resets included, the mailbox holds and hands out what a plain queue of its size would, computed from the events alone; nothing survives a reset |
| `Mailbox.AroundIsMod` | E110_1/Libraries/kernel/ipc.c:1498-1501 | resetting the offset to 0 at the end is counting modulo the size |
| `Mailbox.PutInRing` | E110_1/Libraries/kernel/ipc.c:1496-1503 | writing at in_offset appends to the ring’s contents |
| `Mailbox.TakeFromRing` | E110_1/Libraries/kernel/ipc.c:1643-1651 | reading at out_offset takes the oldest |
| `Mailbox.Box.constructor` | E110_1/Libraries/kernel/ipc.c:1253-1282 | an empty mailbox over the given pool |
| `Mailbox.Box.SendWait` | E110_1/Libraries/kernel/ipc.c:1404-1523 | accepts iff there is room, puts the value last and wakes the first receiver, else enqueues the sender with its value, or gives up; the offsets stay (out + entry) modulo size |
| `Mailbox.Box.Recv` | E110_1/Libraries/kernel/ipc.c:1551-1674 | hands out the oldest mail iff there is one and wakes the first sender, else enqueues the receiver, or gives up |
| `Mailbox.Box.Put` | E110_1/Libraries/kernel/ipc.c:1496-1503 | writes at the input offset, which goes around |
| `Mailbox.Box.Get` | E110_1/Libraries/kernel/ipc.c:1643-1651 | reads at the output offset, which goes around |
| `Mailbox.Box.Resumed` | E110_1/Libraries/kernel/ipc.c:1476-1484 | the error field tells a thread resumed for mail or room from one that failed, and which error it returns |
| `Mailbox.Box.ResumeEveryone` | E110_1/Libraries/kernel/ipc.c:1686-1712 | both lists are emptied and exactly their threads get the error |
| `Mailbox.Box.Timeout` | E110_1/Libraries/kernel/thread.c:636-660 | a waiter whose timer expires leaves its list with a timeout error; the mail and everybody else stay |
| `Mailbox.Box.Reset` | E110_1/Libraries/kernel/ipc.c:1686-1712 | entry and both offsets are 0, no mail is left, every waiter of both kinds has failed and nobody else is affected |
| `Event.ClearingAgrees` | E110_1/Libraries/kernel/ipc.c:1030-1146 | clearing the received bits, as the send pass does, and clearing the wanted bits, as the non-blocking path does, leave the same set |
| `Event.WalkShrinks` | E110_1/Libraries/kernel/ipc.c:1020-1067 | a send pass only clears bits |
| `Event.WalkKeeps` | E110_1/Libraries/kernel/ipc.c:1020-1067 | a pass wakes or keeps each waiter and touches no other thread |
| `Event.WalkLeavesQuiet` | E110_1/Libraries/kernel/ipc.c:1020-1067 | although bits go as the pass walks, whoever is left waiting is not satisfied by the bits left |
| `Event.WalkAnswers` | E110_1/Libraries/kernel/ipc.c:1020-1067 | each waiter is woken iff its condition holds of the set at its turn, and receives exactly its wanted bits of that set |
| `Event.ConsumedOnce` | E110_1/Libraries/kernel/ipc.c:1020-1067 | the bits taken by clearing waiters in one send are pairwise disjoint and, with what is left, are exactly what was there |
| `Event.SatisfiedMeans` | E110_1/Libraries/kernel/ipc.c:1029-1043 | with the AND option no wanted bit is missing, with the OR option one is there |
| `Event.SendMeans` | E110_1/Libraries/kernel/ipc.c:1018-1067 | the sent bits are or-ed to the set; what the clearing waiters take and what is left afterwards make up that set, without overlap |
| `Event.SendAnswers` | E110_1/Libraries/kernel/ipc.c:1018-1067 | each waiter is answered from that set less what clearing waiters before it took |
| `Event.ReceiveMeans` | E110_1/Libraries/kernel/ipc.c:1138-1146 | a receive that need not wait clears exactly its wanted bits with the clearing option, none without, and affects nobody else |
| `Event.TakenFromLater` | E110_1/Libraries/kernel/ipc.c:1020-1067 | what a clearing waiter takes goes to nobody behind it in the same send |
| `Event.StepHands` | E110_1/Libraries/kernel/ipc.c:998-1240 | a step hands out only bits that were there or are sent by it, and what it cleared is not there afterwards |
| `Event.ClearedUntilSent` | E110_1/Libraries/kernel/ipc.c:998-1240 | over any run, a bit handed out with the clearing option is handed out to nobody again until it is sent again |
| `Event.StepInv` | E110_1/Libraries/kernel/ipc.c:998-1240 | in every reachable state no suspended thread’s condition holds of the set: no wakeup is lost |
| `Event.RunInv` | E110_1/Libraries/kernel/ipc.c:998-1240 | after any interleaved run |
| `Event.EventObject.constructor` | E110_1/Libraries/kernel/ipc.c:889-910 | no bits and nobody waiting |
| `Event.EventObject.SendBits` | E110_1/Libraries/kernel/ipc.c:998-1080 | or-s the bits to the set and walks the waiters; what is left and what the clearing waiters took make up the joined set; an empty send is refused and changes nothing |
| `Event.EventObject.WalkList` | E110_1/Libraries/kernel/ipc.c:1020-1067 | the pointer loop, removing nodes as it walks, is the abstract pass |
| `Event.EventObject.Turn` | E110_1/Libraries/kernel/ipc.c:1020-1066 | one waiter’s turn: resumed and taken off the list, or kept, with the rest of the pass to come unchanged |
| `Event.EventObject.Offer` | E110_1/Libraries/kernel/ipc.c:1029-1058 | one waiter is checked against its stored set and option, and gets the received bits written over its set |
| `Event.EventObject.Met` | E110_1/Libraries/kernel/ipc.c:1122-1137 | the test of the non-blocking path is the condition the option asks for |
| `Event.EventObject.Recv` | E110_1/Libraries/kernel/ipc.c:1093-1199 | received without blocking iff the condition holds, with the wanted bits of the set, which then loses exactly those with the clearing option; invalid iff nothing is wanted; else the thread is enqueued, or fails with a timeout and changes nothing |
| `Event.StepTold` | E110_1/Libraries/kernel/ipc.c:998-1240 | the error fields say of every thread in the event whether it failed, and how |
| `Event.EventObject.Resumed` | E110_1/Libraries/kernel/ipc.c:1180-1191 | a resumed thread returns its error, or finds the bits of its wakeup |
| `Event.EventObject.Timeout` | E110_1/Libraries/kernel/thread.c:636-660 | the waiter whose timer expires leaves the list with a timeout error; nobody else and no bit changes |
| `Event.EventObject.Reset` | E110_1/Libraries/kernel/ipc.c:1211-1240 | no bits left, every waiter failed, nobody else affected |
| `Mutex.StepWaiters` | E110_1/Libraries/kernel/ipc.c:642-859 | the suspended threads are exactly those on the wait list |
| `Mutex.StepExclusive` | E110_1/Libraries/kernel/ipc.c:642-859 | free means value 1, no owner, hold 0, nobody waiting; held means value 0, an owner that does not wait, and hold equal to its unmatched takes modulo 256; a woken taker owns it |
| `Mutex.GivesUpExactly` | E110_1/Libraries/kernel/ipc.c:795-849 | a release gives the mutex up exactly when it matches the first take, except precisely at a nesting depth above 1 that is 1 modulo 256 |
| `Mutex.NestingOverflows` | E110_1/Libraries/kernel/ipc.c:806-848 | from a free mutex, 257 nested takes and one release: nobody owns it any more |
| `Mutex.TakesNeedReleases` | E110_1/Libraries/kernel/ipc.c:642-859 | up to 256 takes of one thread need as many releases: after fewer it still owns the mutex with the difference in hold, after as many the mutex is free |
| `Mutex.DepthIsTally` | E110_1/Libraries/kernel/ipc.c:642-859 | over any run the nesting depth is the owner’s takes less its releases since it became the owner, counted from the events |
| `Mutex.HoldIsTally` | E110_1/Libraries/kernel/ipc.c:642-859 | so over any run from a free mutex hold is that count modulo 256, and the mutex is owned exactly while the count is positive |
| `Mutex.StepRestores` | E110_1/Libraries/kernel/ipc.c:642-859 | only the owner’s priority ever differs from its own, only upwards, and the mutex remembers the original |
| `Mutex.StepSorted` | E110_1/Libraries/kernel/ipc.c:92-135 | with the priority flag the wait list stays sorted, through every boost and restore |
| `Mutex.StepInherits` | E110_1/Libraries/kernel/ipc.c:706-718 | with the priority flag the owner is always at least as urgent as every waiter, also after a hand-over |
| `Mutex.HandOverInherits` | E110_1/Libraries/kernel/ipc.c:806-839 | with either flag a hand-over keeps that exactly when the first waiter is at least as urgent as the others |
| `Mutex.InheritsExactly` | E110_1/Libraries/kernel/ipc.c:642-859 | of all steps, with either flag, exactly the last release with a later waiter more urgent than the first loses inheritance |
| `Mutex.FifoLosesInheritance` | E110_1/Libraries/kernel/ipc.c:806-839 | a first-in first-out run of four steps after which the owner is less urgent than a waiter |
| `Mutex.StepInv` | E110_1/Libraries/kernel/ipc.c:642-859 | all of this is kept by every step with the priority flag |
| `Mutex.RunInv` | E110_1/Libraries/kernel/ipc.c:642-859 | after any interleaved run with the priority flag |
| `Mutex.RunExcludes` | E110_1/Libraries/kernel/ipc.c:642-859 | exclusion after any interleaved run with either flag |
| `Mutex.FreeAgain` | E110_1/Libraries/kernel/ipc.c:806-848 | whenever the mutex is free again, every thread has the priority it started with |
| `Mutex.Lock.constructor` | E110_1/Libraries/kernel/ipc.c:525-545 | a free mutex |
| `Mutex.Lock.TakeMutex` | E110_1/Libraries/kernel/ipc.c:642-759 | taken at once iff free or already owned by the caller, with hold one more; else the caller is enqueued and the owner raised to its priority if that is more urgent, or it is refused and nothing changes |
| `Mutex.Lock.ReleaseMutex` | E110_1/Libraries/kernel/ipc.c:772-859 | refused iff the caller is not the owner; otherwise hold goes down by one and nothing else changes, or from 1 the caller’s priority is restored and the mutex handed to the first waiter, or freed |
| `Mutex.Lock.PassOn` | E110_1/Libraries/kernel/ipc.c:806-848 | restores the owner’s priority, then hands over to the first waiter, or frees the mutex |
| `Mutex.Lock.Resumed` | E110_1/Libraries/kernel/ipc.c:740-752 | a resumed thread owns the mutex, or its error says that it timed out |
| `Mutex.Lock.Timeout` | E110_1/Libraries/kernel/thread.c:636-660 | a waiter whose timer expires leaves the list and fails; the owner’s boost stays |
| `Bitmap.PutDrop` | E110_1/Libraries/kernel/scheduler.c:268-354 | setting or clearing a priority’s mask changes that bit and no other |
| `Bitmap.TableIsRight` | E110_1/Libraries/kernel/kservice.c:1196-1214 | all 255 entries of the lowest-bit table are right |
| `Bitmap.FfsIsLowest` | E110_1/Libraries/kernel/kservice.c:1226-1240 | the four-way branch over the table gives one more than the lowest set bit, for every non-zero word |
| `Bitmap.LowestIsLowest` | E110_1/Libraries/kernel/kservice.c:1216-1240 | that bit is set and none below it is |
| `Bitmap.ZeroHasNoBits` | E110_1/Libraries/kernel/scheduler.c:341-346 | a word is zero iff none of its bits is set |
| `Bitmap.GroupIsLeast` | E110_1/Libraries/kernel/scheduler.c:206-208 | with at most 32 priorities the computation yields the least occupied one |
| `Bitmap.TableIsLeast` | E110_1/Libraries/kernel/scheduler.c:208-213 | so does the two-level computation for up to 256 |
| `Bitmap.MasksDisjoint` | E110_1/Libraries/kernel/scheduler.c:268-306 | different priorities have disjoint masks |
| `Bitmap.MaskIsShift` | E110_1/Libraries/kernel/thread.c:213-219 | the mask of a number is 1 shifted left by it |
| `Scheduler.GroupChanges` | E110_1/Libraries/kernel/scheduler.c:268-354 | one bit changed in step with one list keeps all bits right |
| `Scheduler.TableChanges` | E110_1/Libraries/kernel/scheduler.c:268-354 | so do a table bit and its group bit, the latter cleared only with the last of its entry |
| `Scheduler.MarksFollow` | E110_1/Libraries/kernel/scheduler.c:268-354 | in both forms the marks follow any change of one ready list |
| `Scheduler.HighestIsLeast` | E110_1/Libraries/kernel/scheduler.c:206-218 | the priority computed from the marks is the least one with a ready thread |
| `Scheduler.OtherRings` | E110_1/Libraries/kernel/scheduler.c:268-354 | relinking in one ready list leaves all other ready lists |
| `Scheduler.Neighbours` | E110_1/Libraries/kernel/thread.c:377-410 | next equals prev iff the thread is alone in its ready list |
| `Scheduler.Calculate` | E110_1/Libraries/kernel/thread.c:498-505 | the number and masks calculated from a priority, in both forms, are the ones the bitmaps need |
| `Scheduler.ReadyQueue.constructor` | E110_1/Libraries/kernel/scheduler.c:120-147 | empty ready lists for every priority and no marks |
| `Scheduler.ReadyQueue.Startup` | E110_1/Libraries/kernel/thread.c:203-234 | a new thread gets the attributes of its priority and goes to the end of that list |
| `Scheduler.ReadyQueue.InsertThread` | E110_1/Libraries/kernel/scheduler.c:268-306 | appends to the ready list of the thread’s priority and sets the bits from the masks cached in the thread; lists, rings, marks and caches agree |
| `Scheduler.ReadyQueue.RemoveThread` | E110_1/Libraries/kernel/scheduler.c:314-354 | removes it; the bit of the cached mask is cleared exactly when the list became empty, the group bit with the entry |
| `Scheduler.ReadyQueue.Schedule` | E110_1/Libraries/kernel/scheduler.c:192-258 | unless locked, the running thread becomes the head of the least occupied priority’s list |
| `Scheduler.ReadyQueue.HighestPriority` | E110_1/Libraries/kernel/scheduler.c:206-213 | the branch taken computes the least priority with a ready thread |
| `Scheduler.ReadyQueue.Yield` | E110_1/Libraries/kernel/thread.c:377-410 | the running thread goes behind its equals, if any, and the scheduler picks the least priority’s head |
| `Scheduler.ReadyQueue.ChangePriority` | E110_1/Libraries/kernel/thread.c:476-540 | a ready thread moves to the end of its new priority’s list, marks included; any other thread changes no list; the cached attributes follow in both cases |

## Left out

- FinshMachine.Exec: only the dword opcodes and those without a width; byte and word opcodes, and so operands of mixed width, count as a crash. A stack slot is a C union, and what a wider read of a narrower write finds is not modelled.
- FinshMachine.Vm.Dispatch: reports a crash for byte and word opcodes, which the source runs; see `Exec`.
- FinshMachine.Vm.Execute: the same for a text that holds such opcodes; the compiler emits none for a well-formed tree.
- FinshProgram.CompiledExpressionRuns: `++` and `--` on system variables or on anything but a variable, string constants and `void *` variables are outside the well-formed expressions.
- FinshProgram.Compiler.CompileStatements: that the code fits the 128-byte text segment is a precondition, as nothing in the source checks it.
- FinshWords.Apply: the most negative number divided by -1 wraps, which C leaves undefined; division by zero and shifts by 32 or more fault.
- FinshParser.Parser.Run: declarations, types and so casts, string literals, error recovery and the character lexer are not modelled; what the table holds after an error is not described, as it is not compiled. Only lines without parentheses other than those of calls are covered, since the source takes every other opening parenthesis as a cast.
- FinshParser.Parser.ProcPrimary: string literals are left out; a parenthesised primary is never reached from a line without an error, as the cast level does not let it through.
- FinshShell.Evaluate: printing the value, flushing the tables and error strings are left out; a system call is a function of its address, its parameters and the store.
- FinshHeap.Heap.Allocate: what the source does to the memory beyond the heap after its test has wrapped is not modelled; `Wrapped` says exactly when that happens.
- Memheap.Heap.Realloc: nor is the heap after the header of the growing block has been overwritten; `NewHeaderWraps` says where that write goes.
- Memheap.Heap.Alloc: exact-fit completeness is not claimed; the source's bound on the available size is strict, and the contract says exactly when it succeeds.
- SmallMem.Heap.constructor: excludes pools with less room than the smallest block, on which `rt_malloc` does not end (`TinyPoolSpins`), and does not model the alignment of the pool’s ends.
- SmallMem.Heap.Malloc: block headers are a map from offsets to records and writing one overwrites the bytes there with anything; their layout in bytes and the magic numbers are left out. The same holds of the memory heap.
- SmallMem.Heap.Realloc: the heap semaphore is left out, so nothing runs between the allocation, the copy and the release of a move. The same holds of the memory heap.
- BlockList.Copy: `rt_memmove` and `rt_memset` are not modelled, nor is the other form of `rt_memcpy`, which is its last loop alone.
- MessageQueue.RunInv: detaching and deleting the object, tick arithmetic of the remaining timeout, and the call from an interrupt are left out; a timeout is a step that may happen at any time while a thread waits. The same holds of mailboxes, events and mutexes.
- Mutex.StepInherits: one mutex per thread, and nobody else changes priorities while it is held; with the first-in first-out flag it is false, see `HandOverInherits`.
- Mutex.Lock.Timeout: the source does not lower the owner's priority when the waiter it was raised for gives up, and neither does the model.
- Scheduler.ReadyQueue.Schedule: the context switch, hooks, stack checks and nested critical sections are left out; a thread's state flags and its timer are not fields.
- Semaphores and memory pools: simpler than the objects modelled here.
- Object names and containers, timers, idle and interrupt handling, module loading, devices and their drivers, file systems and user interfaces are left out.
- Shell line editing, history, completion, and the Ymodem receiver are left out.

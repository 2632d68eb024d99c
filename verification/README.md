# Zeroscript, modelled and proved

Zeroscript compiles a small scripting language to register bytecode and runs it on a virtual
machine with a stop-the-world collector. This project models its three cores in Dafny and proves
what they are for:

- **The compile pipeline.** Trees are lowered to labelled code with a temporary-register
  allocator (`Codegen`, `Registers`, `Symbols`, and the compiler's own classes in `Compilation`),
  rewritten by a peephole optimizer to a fixpoint (`Optimizer`), laid out as bytes (`Assembler`)
  and run (`Machine`, `ByteMachine`). `EndToEnd` joins the stages: the interpreter on the bytes
  of a whole class halts as the source does. `Driver` is the compiler from tree to bytes. Outside
  the fragment, `Temporaries` and `Outside` say what the code of every expression does to registers
  and what calls, throws and outer names ask for; `Definitions`, `Construction` and `ImageEntry`
  how functions are loaded, objects constructed, and where an image is entered.
- **The machine at run time.** `Vm` runs whole programs with calls, handlers, exceptions and the
  translation of opcodes by frame headers; `Places` and `StackCode` prove what emitted code
  guarantees it, `StackRuns` follows the operand stack, `CallRuns` and `CallArguments` whole
  calls, `Scopes` the variables found by name.
- **Memory.** `Collector` is mark and sweep on a cyclic graph, `Barrier` the two-barrier protocol
  with threads coming and going, `HashMap`, `ArrayList` and `KeyList` the containers below.

`dafny verify dfyconfig.toml` checks the whole project.

The original changes state in place, and so do the classes and methods here: each is proved
against a function of values, and the theorems are about those functions. Numbers are reals.
Everything outside one activation (heap, other activations, native functions) is in `Machine` an
arbitrary environment that sees every outside instruction with its operands, and may answer with
any result, any change of the variables, or an exception: meaning is preserved for all of them.

## Hypotheses

The code as written does not establish these; the theorems that need them say so.

- `Compilable`: the function is in the fragment - pure expressions over its own symbols,
  `var x = e`, `x = e` with e no other bare variable, `x++`, `x--`, blocks, conditionals, loops
  with a condition, break inside a loop, return - and its name does not start like a label.
- `Optimizable`: every optimizer rule that fires on the function's code, in any pass, may. This
  can be decided by running the optimizer. `AllPlain` is a condition on the source that implies it.
- `AnswersLoads`, `TextsLoad`: loads of functions and texts are answered by what they name and change
  no variable.
- `LoadsFunctions`: the instruction that loads a function reference answers with a value and
  changes no variable.
- `DistinctClass`, `SpellableClass`: function names of a class, and the names of their ends, are
  distinct and do not start like labels; no text contains a NUL character.
- `ContainedClass`: no break or return leaves a try statement. `AllSupported` is weaker: no
  return stands in a try with a finally block.
- `NamedClass`: calls with arguments call a bare name. Only the operand stack of optimized
  programs needs it.
- `AllVisible`: no function is defined inside a try statement (see Findings). Where one is, the
  source compiles it without a symbol table, which the program model does not do.
- Collector: versions do not wrap, and no object has the new version before it is used.
- `NormalRun`: nothing is thrown, and calls of anything else than a function of the program take
  exactly their arguments. `PushesQuietly`: a PUSH changes no variable and raises nothing.
- Natives and calls of other instances take no more from the stack than the arguments of the call.

## Findings

Where the code falls short of what it is for, with the lemma that shows it and the exact condition.

- An assignment of one bare variable to another emits no code
  (src/compiler/ExprssionCompiler.cpp:140-151, 153-216); every other assignment is right:
  `Miscompiled.AssignmentExact`.
- The compare rule (src/program/BytecodeOptimizer.cpp:76-83) means to fold a MOV but drops any
  instruction whose second operand is the comparison's result. `Miscompiled.OptimizerBreaks` is a
  program that returns 3 instead of 1; `RuleConditions.SwallowExact` says exactly when dropping goes
  unnoticed.
- Fusing a comparison with a jump (src/program/BytecodeOptimizer.cpp:85-114) does not check that
  the jump tests the comparison's result, nor that this is a dead temporary.
  `WrongTest.OptimizerMistakes` is a program that branches on the wrong condition and returns 2
  instead of 1; `RuleConditions.TestFusionExact` is the exact condition.
- Fusing a number load with a jump (src/program/BytecodeOptimizer.cpp:31-72) drops writes to
  variables. `LostWrite.OptimizerLoses` is a program that returns an unset variable;
  `RuleConditions.LoadFusionExact` is the exact condition.
- A call's argument that is no bare variable is computed into the nearest bare variable to its
  right, if there is one (src/compiler/ExprssionCompiler.cpp:102-121): a variable of the caller is
  overwritten if and only if there is one (`ArgumentCode.ArgumentOverwrites`). In `f(x, 1, x)` the
  callee's first argument is 1 (`ArgumentCode.FirstTurnsOne`). For all choices of operators and
  numbers and all stores the right values are passed if and only if no argument reads a variable
  overwritten so (`ArgumentCode.ArgumentsExact`); single lists may be lucky, as `f(x, x + 0, x)` is
  (`ArgumentCode.HappensToArrive`).
- A loop without a condition never runs its body (src/compiler/Compiler.cpp:116-154):
  `Miscompiled.UnconditionalSkips`.
- Some registers are taken and never given back (src/compiler/ExprssionCompiler.cpp:38-59, 102-121,
  171-193): `Temporaries.ExprLoses` has the exact number for every expression that does not throw.
  A call of pure arguments loses one if and only if one of them is a bare variable
  (`Temporaries.CallLosesOne`), so frames grow by one register for every statement `f(x);`
  (`Temporaries.CallsGrow`).
- A map's size counts a key's enumerable bit when the key is new, and never again
  (src/common/data_structures/map.c:52-77). `KeyList.SizeOverwritten` is `o.size = v`: one
  enumerable key, size 0. After any writes by a script the size is right if and only if none wrote
  `size` or `keys` (`KeyList.ScriptSizeExact`); `HashMap.SizeExact` has the exact difference for
  any insertions.
- A full list with capacity 0 gets no room from doubling (src/common/data_structures/arraylist.c:79-86):
  `ArrayList.ArrayList.ExtendCapacity` has the exact condition; `Push` appends if and only if there
  was some capacity.
- The address calculator does not visit the bodies of try statements
  (src/compiler/AddressCalculator.cpp:72-75). A function defined there is compiled without a table:
  `Visibility.HiddenFunction` is a class with one, and with distinct names all functions have
  tables if and only if none is defined there (`Visibility.VisitedExact`). A variable declared only
  there has no register but the null register (`Visibility.RegisterExact`, an if-and-only-if), and
  its declaration makes a later return without a value return it (`Visibility.VarOverwritesNull`,
  `Visibility.LeakingVariable`).
- A handler stays registered while its own body and the finally body run
  (src/compiler/Compiler.cpp:197-220, src/interpreter/interpreter_dd.c:305-330): what is thrown
  there enters the same handler again, if and only if no inner region is open
  (`Handlers.HandlerCatchesItself`).

## Model

| member | source | states |
|---|---|---|
| EndToEnd.ImageHaltsAsSource | src/program/Assembler.cpp:25-142 | For every class with distinct, spellable names and no function defined inside a try statement, every one of its functions in the fragment whose optimizer rules may all fire, every start of its variables and every environment: the byte machine, entered at the function's address in the assembled, optimized image of the whole class, ends with an outcome (a returned value, an uncaught division by zero, or leaving the model) if and only if the source of the function does. |
| EndToEnd.PlainImageHaltsAsSource | src/compiler/Compiler.cpp:34-46 | The same equivalence with a condition on the source text only: comparisons stand outermost in conditions and returned expressions, and none of two bare variables directly follows a number load into its right operand. |
| EndToEnd.ClassLoadable | src/program/Assembler.cpp:74-90 | The optimized program of every class with distinct, spellable names has unique labels and only operands and constants the byte format can hold: what the byte-level theorems need of it. |
| Driver.Compile | src/compiler/Compiler.cpp:34-46 | The compiler from tree to bytes, for classes with no function inside a try statement and no return inside one with a finally block: addresses, code, optimizer, assembler, each the object the source uses, produce exactly the image the end-to-end theorems speak of. |
| FunctionProof.FunctionHaltsAsSource | src/compiler/Compiler.cpp:60-114 | Running a fragment function's emitted code from its label halts with an outcome if and only if the source evaluation does, and observes nothing but the load of the function's own reference; so it also runs forever exactly when the source does. |
| StmtProof.SimStmt | src/compiler/Compiler.cpp:116-256 | For every fragment statement, store and amount of fuel: the emitted code, wherever it stands in a larger program, ends past itself with the same variables, at the enclosing loop's end after a break, or returned with the same value, or still runs after at least as many steps as fuel was given. |
| ExprProof.ExprComputes | src/compiler/ExprssionCompiler.cpp:153-235 | For every pure expression, register pool and destination: the emitted code leaves the value in the result register or raises exactly when the expression does, and changes no variable but the destination and no temporary in use on entry, also when the destination occurs in the expression. |
| ExprProof.ExprPool | src/compiler/ast/FunctionKind.cpp:16-55 | The result register is the variable itself, the destination, or a register that was free; nothing else leaves the pool and nothing in use enters it. |
| Temporaries.ExprCareful | src/compiler/ExprssionCompiler.cpp:237-256 | For every expression, calls, assignments, throws and outer names nested in any way: the code writes only variables, the destination and registers that were free, and no register in use is given back or handed out. |
| Temporaries.TemporariesKept | src/compiler/ExprssionCompiler.cpp:237-256 | Run in any environment, whatever the calls in it do, it leaves every temporary in use as it was. |
| Temporaries.ExprLoses | src/compiler/ast/FunctionKind.cpp:16-55 | Where nothing throws, the registers in use afterwards are more by the result's and by exactly those the expression never gives back: one or two for an assignment to an outer name, one for `++` on one, one for a call whose arguments start in a temporary and end elsewhere. |
| Temporaries.CallLosesOne | src/compiler/ExprssionCompiler.cpp:102-121 | A call of pure arguments loses a register, one, if and only if an argument is a bare variable of the function. |
| Temporaries.CallsGrow | src/compiler/ast/FunctionKind.cpp:26-46 | k statements `f(x);` leave k registers in use for good, so the frame has at least k more. |
| Outside.CallAsks | src/compiler/ExprssionCompiler.cpp:102-121 | The code of a call of pure arguments pushes what ArgumentsPass says, then calls the callee's value with the number of arguments, and leaves the answer in the call's register; or raises what an argument or the callee raises. |
| Outside.NameCalled | src/compiler/ExprssionCompiler.cpp:140-151 | The same for a callee that is no symbol of the function: it is asked for on this, by its name, after the arguments are pushed, and the answer is called. |
| Outside.NameSet | src/compiler/ExprssionCompiler.cpp:171-193 | An assignment to a name of an outer scope sets the field of this with that name to the value, and changes no variable before that. |
| Outside.PostfixSets | src/compiler/ExprssionCompiler.cpp:38-59 | `x++` on such a name asks for the field, keeps what it was as the result, and sets the field to one more. |
| Outside.ThrowRaises | src/compiler/ExprssionCompiler.cpp:79-82 | A throw raises the value of its expression, or what the expression raises. |
| Miscompiled.AssignmentExact | src/compiler/ExprssionCompiler.cpp:140-151 | The code of an assignment stores the value from every store if and only if it is not the assignment of one bare variable to another, for which no code is emitted. |
| Miscompiled.UnconditionalSkips | src/compiler/Compiler.cpp:116-154 | A loop without a condition never runs its body: its code goes from its start to its end and changes nothing. |
| Machine.FmodExact | src/interpreter/interpreter_dd.c:460-470 | The remainder differs from a by an integer multiple of b, is smaller than b in size, and has the sign of a or is 0. |
| ArgumentCode.ArgumentOverwrites | src/compiler/ExprssionCompiler.cpp:102-121 | For all pure arguments, the code of a call's arguments writes a variable of the caller if and only if some argument that is not a bare variable stands to the left of one that is. |
| ArgumentCode.ArgumentsPass | src/compiler/ExprssionCompiler.cpp:102-121 | Run from any store, that code pushes the arguments' values one after the other from the last, each but bare variables stored into the nearest bare variable to its right, and raises exactly when one of them does. |
| ArgumentCode.ArgumentsExact | src/compiler/ExprssionCompiler.cpp:102-121 | For every choice of operators and numbers in the arguments and from every store the pushed values are those of the arguments in that store, if and only if no argument reads a bare variable that one standing between them is computed into. |
| ArgumentCode.FirstTurnsOne | src/compiler/ExprssionCompiler.cpp:102-121 | `f(x, 1, x)` passes 1 for the first x, whatever x is. |
| Pipeline.OptimizedHaltsAsSource | src/program/BytecodeOptimizer.cpp:8-125 | The optimized code of a fragment function halts exactly as its source. |
| WholeProgram.ClassHaltsAsSource | src/compiler/Compiler.cpp:282-318 | The same for the function inside the optimized program of its class, between the class's own code and all other functions, none of them defined inside a try statement. |
| WholeProgram.ClassLabels | src/compiler/Compiler.cpp:116-124 | In the program of a class with distinct names every label is defined once, generated labels never meet a function's name or end label. |
| WholeProgram.ClassSplit | src/compiler/Compiler.cpp:278-318 | The program of a class is what precedes function k, the code of function k compiled with the counter it finds, and what follows, for every k: deferred functions come out in one line. |
| OptimizerProof.OptimizerPreservesRuns | src/program/BytecodeOptimizer.cpp:8-125 | For every environment and every code meeting the liveness discipline in which every rule that fires in any pass may: entered anywhere with any registers, the optimized code halts in the same ways with the same calls, pushes, field accesses, handlers and exceptions, and in endless runs observes nothing else. |
| OptimizerProof.PassPreservesRuns | src/program/BytecodeOptimizer.cpp:11-117 | The same for a single pass, by a step simulation over all instruction kinds. |
| OptimizerProof.OptimizerKeepsDiscipline | src/program/BytecodeOptimizer.cpp:85-114 | That no temporary is live across a label or a jump is still true of the optimizer's result. |
| RuleConditions.TestFusionExact | src/program/BytecodeOptimizer.cpp:85-114 | Fusing a comparison with a jump goes unnoticed for all register contents if and only if the jump tests the comparison's result and that is a dead temporary. |
| RuleConditions.LoadFusionExact | src/program/BytecodeOptimizer.cpp:31-72 | Fusing a number load with a comparing jump goes unnoticed for all register contents if and only if the loaded register is a dead temporary and not also the jump's left operand. |
| RuleConditions.SwallowExact | src/program/BytecodeOptimizer.cpp:76-83 | Leaving out any instruction whose second operand is the preceding comparison's result goes unnoticed for all register contents if and only if it is quiet (no jump that may be taken, no outside effect, no possible division by zero) and what it writes is a dead temporary or provably left as it is. |
| Miscompiled.OptimizerBreaks | src/program/BytecodeOptimizer.cpp:76-83 | `return 1 + (3 < 2)`: the source returns 1, the optimized code 3. |
| LostWrite.OptimizerLoses | src/program/BytecodeOptimizer.cpp:31-72 | `var a = 0; var b = 3; if (a < b) { return b; }`: the source returns 3, the optimized code what the register of b held at entry. |
| WrongTest.OptimizerMistakes | src/program/BytecodeOptimizer.cpp:85-114 | `var a = 1; var b = 2; var y = 0; var x = a < b; if (y) { return b; } return x;`: the source returns 1, the optimized code 2. |
| RuleSafety.PlainFunctionTidy | src/compiler/Compiler.cpp:143-166 | Code of functions written in the plain way stated above meets a condition on adjacent instructions. |
| RuleSafety.TidyRunsSafely | src/program/BytecodeOptimizer.cpp:8-125 | Under that condition on the unoptimized code every rule that fires in any pass may. |
| Optimizer.BytecodeOptimizer.Optimize | src/program/BytecodeOptimizer.cpp:8-125 | The loop over a changing index, with its recursion, computes the fixpoint the theorems are about. |
| Optimizer.OptimizedIsFixpoint | src/program/BytecodeOptimizer.cpp:119-124 | A further pass over the result changes nothing. |
| Optimizer.OptimizedExact | src/program/BytecodeOptimizer.cpp:8-125 | In the result no return follows a return, no register is moved to itself, no number is loaded for the comparing jump after it, and no comparison precedes a test jump or a use of its result as second operand; code is left as it is if and only if it has none of these. |
| Optimizer.OptimizedKeepsMarks | src/program/BytecodeOptimizer.cpp:8-125 | Labels and frame headers survive all passes, in order, none dropped or duplicated. |
| Optimizer.OptimizedConcat | src/program/BytecodeOptimizer.cpp:8-125 | Functions are optimized independently of each other: no rule of any pass reaches across a label. |
| CodeDiscipline.FunctionDisciplined | src/compiler/Compiler.cpp:143-166 | In all code of fragment functions every temporary is written before it is read within its straight-line segment; none is live across a label or a jump. |
| FrameSize.FunctionFits | src/compiler/Compiler.cpp:108-110 | Every register operand of every function's code, calls and try statements included, is at most the number of locals its frame header asks for. |
| FrameDemand.FunctionFrame | src/compiler/Compiler.cpp:108-110 | A fragment function's frame has its symbols and exactly as many temporaries as its most demanding expression needs, at most the height of its tallest expression plus two. |
| FrameDemand.ExprDemand | src/compiler/ExprssionCompiler.cpp:194-215 | Compiling a pure expression makes the register table exactly as large as the peak number of temporaries in use. |
| Registers.TableSizeIsPeak | src/compiler/ast/FunctionKind.cpp:26-55 | After any history of requests and releases the table is as large as the peak demand, or as it started. |
| Registers.NeverSharesRegister | src/compiler/ast/FunctionKind.cpp:26-55 | A request is never served with a register in use. |
| Registers.FunctionKind.GetTemporary | src/compiler/ast/FunctionKind.cpp:26-46 | The loop over the table hands out the lowest free register or extends the contiguous table by one. |
| Registers.FunctionKind.FreeRegister | src/compiler/ast/FunctionKind.cpp:16-24 | Only a register of the table is marked free; variables and unknown registers change nothing. |
| Labels.TagInjective | src/compiler/Compiler.cpp:116-124 | Labels made from different counter values differ, whatever their prefixes. |
| Symbols.FunctionNumbering | src/compiler/AddressCalculator.cpp:22-25 | Every function's table is a bijection onto 1..size, and its private names are in it. |
| Symbols.ParameterRegister | src/compiler/AddressCalculator.cpp:32-44 | With distinct parameters, parameter i has register i + 3, the function itself 2, this 1. |
| Symbols.AddressCalculator.CalculateFunction | src/compiler/AddressCalculator.cpp:32-44 | The walk with a stack of functions gives every function below the table of its own names, and its parent its name. |
| Symbols.AddressCalculator.CalculateClass | src/compiler/AddressCalculator.cpp:86-93 | The walk over a class leaves the class's table on the stack and a table for every function it visits. |
| Visibility.VisitedExact | src/compiler/AddressCalculator.cpp:56-84 | With distinct names, every function of a class is given a table if and only if no function is defined inside a try statement, at any depth. |
| Visibility.HiddenFunction | src/compiler/AddressCalculator.cpp:72-75 | A class whose only function is defined in a try body: it is compiled, has no table, and its reference is loaded into register 0. |
| Visibility.RegisterExact | src/compiler/AddressCalculator.cpp:56-84 | A name has no register in a function if and only if it is neither this, nor the function, nor a parameter, nor declared outside the bodies of its try statements. |
| Visibility.PrivateExact | src/compiler/AddressCalculator.cpp:95-104 | A name is private to a class if and only if a declaration of it outside the bodies of try statements is. |
| Visibility.VarOverwritesNull | src/compiler/Compiler.cpp:181-195 | Declaring a variable without a register puts its value into the null register, and a return without a value then returns it. |
| Compilation.Compiler.CompileStmt | src/compiler/Compiler.cpp:222-256 | The recursive walk, with its label counter, loop-end stack, finally stack and deferred functions, appends exactly the code the theorems are about and leaves stacks, pool and counter as they say. |
| Compilation.Compiler.CompileTryCatch | src/compiler/Compiler.cpp:197-220 | The same for try statements: region, handler with POP, finally body, CLEAR_CATCH. |
| Compilation.Compiler.CompileFunction | src/compiler/Compiler.cpp:60-114 | A function's header is emitted blank and patched with the locals count, table and end label after its body; deferred functions follow. |
| Compilation.Compiler.CompileClass | src/compiler/Compiler.cpp:290-318 | The whole class, with constructor parameters popped, then every deferred function. |
| Definitions.DefinitionsLoaded | src/compiler/Compiler.cpp:258-270 | Run from its start, a body's code comes to its first statement with the register of every function defined directly in it holding what a load of the function's own label and async flag is answered, and all other variables as they were. |
| Definitions.CompiledExact | src/compiler/Compiler.cpp:278-288 | The functions compiled for a class are exactly those defined within its body at any depth. |
| Construction.ConstructorReceives | src/compiler/Compiler.cpp:290-306 | Every run of a class from its header comes to the code of its body with constructor parameter i holding what was i below the top of the stack, and the parameters off it. |
| Compilation.ExpressionCompiler.CompileExpression | src/compiler/ExprssionCompiler.cpp:237-256 | Emits the code of every kind of expression modelled, and leaves the register table as the pool functions say. |
| Compilation.ExpressionCompiler.CompileMethodCall | src/compiler/ExprssionCompiler.cpp:102-121 | Arguments are compiled and pushed last to first, each asked to be left where the one before it was; then the callee and the CALL. |
| Assembler.Assembler.Assemble | src/program/Assembler.cpp:25-142 | The two passes with a growing buffer, a label map and header words patched in place produce the image, constants first, then 32 bytes for each real instruction. |
| AssemblerProof.ImageFetched | src/program/Assembler.cpp:91-140 | At the address of any real instruction the image decodes to it, labels resolved: strings and symbol tables are unharmed by all later appends and patches. |
| AssemblerProof.LabelResolved | src/program/Assembler.cpp:74-90 | Every resolved operand is the code start plus 32 times the number of real instructions before its label. |
| AssemblerProof.ImageEnds | src/program/Assembler.cpp:91-140 | The address past the last instruction is the image's size, and nothing decodes there. |
| ImageEntry.StartFetched | src/interpreter/interpreter_dd.c:237-239 | For every loadable program the word at 0 of its image is an address that decodes to the program's first real instruction with its labels resolved. |
| ImageEntry.StaticFetched | src/program/Assembler.cpp:74-87 | If the static constructor is a label, the word at 8 is the address of its first real instruction. |
| ImageEntry.OperandsFetched | src/program/Assembler.cpp:92-108 | The operand that names a label decodes to the address of the instruction after that label, in whichever place the kind of instruction has it, and the other operands decode to themselves. |
| ImageEntry.ClassStarts | src/program/Assembler.cpp:141-142 | The first word of a class's image leads to the class's own frame header, with the class's own table. |
| ImageEntry.FunctionStarts | src/program/Assembler.cpp:43-90 | The address of every function of a class decodes to that function's frame header, with its own names and private marks. |
| AssemblerProof.SymbolsRead | src/interpreter/object.c:259-278 | Decoding an emitted symbol table gives back exactly the name numbers and the private marks. |
| AssemblerProof.TextRead | src/program/Assembler.cpp:18-23 | A stored text is read back, whatever is stored around it. |
| ByteMachine.SimulateByte | src/interpreter/interpreter_dd.c:471-666 | In a run that never gets stuck, one step of the byte-addressed machine is one step of the labelled one after passing any labels. |
| ByteMachine.ImageHaltsAsCode | src/interpreter/interpreter_dd.c:471-666 | Entered at a label, the image of a program that does not get stuck halts as the labelled program does and observes the same, in both directions. |
| Vm.EveryRun | src/interpreter/interpreter_dd.c:305-330 | In every run of a lawful program, for every choice of branches, callees, results and failures: the current frame's handlers are those of the try regions around its instruction, and each waiting caller's those around its call; an exception now resumes at the innermost dynamic handler in the activation that opened it (and ends the run only if there is none); and the next instruction has had its opcode translated exactly once. |
| Vm.CatcherIsInnermost | src/interpreter/interpreter_dd.c:1184-1210 | The search along the contexts finds the innermost open handler, where open handlers are read off the positions of the calls, not off any list. |
| Vm.StepKeeps | src/interpreter/interpreter_dd.c:868-1037 | Every step keeps the invariant, although after a RETURN the saved context still is the finished callee. |
| Vm.RangeIsUnit | src/interpreter/interpreter_dd.c:1024-1035 | The ranges of the frame headers partition the instructions: an instruction is in the range of a header if and only if it belongs to the same function. |
| Vm.TranslateKeeps | src/interpreter/interpreter_dd.c:1024-1035 | Entering a frame header translates every opcode of its function, once, and no other. |
| Places.ProgramLawful | src/compiler/Compiler.cpp:197-220 | Emitted programs of classes with distinct names, where no break or return leaves a try statement, are lawful: non-call jumps stay in their function and region, handlers stand just inside the region they guard, regions nest and close, functions end in a return. |
| Places.StmtConsistent | src/compiler/Compiler.cpp:197-220 | Every statement, try statements included, keeps its labels, jumps and handlers in the place it is put. |
| Handlers.HandlerStays | src/compiler/Compiler.cpp:197-220 | From its body to its CLEAR_CATCH, handler and finally body included, a try statement's own handler is registered above those around the statement. |
| Handlers.HandlerCatchesItself | src/interpreter/interpreter_dd.c:1184-1210 | In every state of a lawful run, what is thrown there resumes at the statement's own catch label, in the same activation, if and only if no inner region is open. |
| Handlers.TryControl | src/compiler/Compiler.cpp:197-220 | In every step that throws nothing, control goes from SET_CATCH into the body, from the ends of the body and of the handler to the finally body, and from there past the statement, where its handler is no longer registered. |
| Handlers.CaughtArrives | src/interpreter/interpreter_dd.c:1184-1210 | What is caught enters the handler's code with the message in the register of the exception's name and off the stack. |
| MachineHandlers.EveryState | src/interpreter/interpreter_dd.c:305-330 | In every run of one activation in any environment its handlers are those of the try regions around its instruction. |
| MachineHandlers.RaiseResumes | src/interpreter/interpreter_dd.c:1184-1210 | So what it raises resumes at the innermost of them, or ends the activation if and only if there is none. |
| OptimizedPlaces.OptimizedLawful | src/program/BytecodeOptimizer.cpp:8-125 | The optimizer keeps lawful programs lawful, whatever rules fire. |
| OptimizedPlaces.CompiledRunsLawfully | src/compiler/Compiler.cpp:290-318 | Every run of the optimized program of a class has the properties of Vm.EveryRun. |
| StackCode.ProgramBalanced | src/compiler/ExprssionCompiler.cpp:102-121 | In the program of every class with distinct names and without constructor parameters, calls nested in any way, every instruction finds its operands and every label is met with one stack height: one at catch labels, where the message waits, else none. |
| StackCode.ExprEven | src/compiler/ExprssionCompiler.cpp:102-121 | The code of every expression, with any nesting of calls, leaves the operand stack as it was. |
| StackRuns.EveryStack | src/interpreter/interpreter_dd.c:962-990 | In every run of lawful, balanced code, thrown through or not: the stack an activation began with is still there below its own operands and no instruction takes from it; while nothing was thrown an activation returns with exactly the stack it began with. |
| CallRuns.Before | src/interpreter/interpreter_dd.c:868-990 | In every run in which nothing is thrown, an activation that stands after a straight-line instruction executed it before, was not current in between, and the stack is what the instruction alone makes of it: a call, with all it runs, takes its arguments off. |
| CallArguments.CallTakesArguments | src/compiler/ExprssionCompiler.cpp:102-121 | An activation that stands at the CALL emitted for a method call executed the call's code from its first instruction on; on top of the stack it had then are its arguments, each as its result register held it at its own PUSH, the first on top, whatever calls the arguments made. |
| CallArguments.CallPasses | src/interpreter/interpreter_dd.c:923-961 | When a function is invoked there, register i + 3 of its activation holds what argument i's register held at its own PUSH, register 1 what the first activation has there, and every other register null. |
| CallArguments.CallRoundTrip | src/interpreter/interpreter_dd.c:974-990 | At the return of that activation the caller goes on behind the CALL, was not current since, and the stack is as it was before the first argument's code; the register of the call's result holds what the returned register held in the callee, and, where nothing wrote into the caller's frame through a scope chain, every other register of the caller is as it was at the CALL. |
| CallArguments.ParametersReceive | src/compiler/AddressCalculator.cpp:32-44 | With distinct parameters, that register is the one the compiler gave parameter i of the function. |
| CallArguments.ClassRuns | src/compiler/Compiler.cpp:290-318 | Every run of a class's program in which nothing is thrown is one the theorems above speak of. |
| OptimizedStack.OptimizedBalanced | src/program/BytecodeOptimizer.cpp:8-125 | The optimizer keeps balanced code balanced when no comparison stands between the arguments of a call and the call. |
| OptimizedStack.CompiledKeepsStack | src/compiler/Compiler.cpp:290-318 | Every run of the optimized program of a class keeps the stack as StackRuns.EveryStack says. |
| Scopes.Find | src/interpreter/interpreter_dd.c:688-720 | The search along the parent chain, decoding symbol tables on first use, finds the innermost scope that defines the name and the number the compiler gave it. |
| Scopes.GetField | src/interpreter/interpreter_dd.c:667-787 | A field of this reads the innermost defining frame's register, or finds nothing. |
| Scopes.SetField | src/interpreter/interpreter_dd.c:789-829 | A field of this is written into that register; all other registers of all frames are as before. |
| Scopes.ReadAfterWrite | src/interpreter/interpreter_dd.c:800-829 | Reading a name after writing it gives the value written; every other name, and every cell but one, is as before. |
| Scopes.OwnVariable | src/compiler/ast/FunctionKind.cpp:47-54 | In its own function a variable by name is the register the compiler uses. |
| Scopes.HeaderTable | src/program/Assembler.cpp:43-71 | The table a frame of the image points at decodes to the table the compiler put into its header. |
| Collector.Collector.Gc | src/interpreter/garbage_collector.h:30-63 | After a collection an object has the new version if and only if a path of references leads to it from a state or a static register: registers of contexts from the third on, parents and callers, values of maps, scopes of functions, contexts and stacks of states, each by index. The object list holds exactly the marked objects. |
| Collector.KeptInOrder | src/interpreter/garbage_collector.h:30-63 | It holds them in the order they had. |
| Collector.Collector.Sweep | src/interpreter/garbage_collector.h:30-63 | The new list is the old one without the unmarked objects, in order. |
| Collector.VisitObject | src/interpreter/garbage_collector.h:95-168 | A visit ends on every graph, changes nothing but versions, and marks the object; everything newly marked has all its successors marked and lies in any closed set around the object. |
| Collector.MarkedIsReachable | src/interpreter/garbage_collector.h:95-168 | Marks that cover the roots and their successors and nothing unreachable are exactly the reachable objects. |
| Barrier.StepKeeps | src/common/alloc.c:86-100 | Every step of every thread keeps the protocol's invariant. |
| Barrier.WorldIsStopped | src/common/alloc.c:86-100 | In every interleaving, while one thread collects or re-initializes, every other participant is between its two waits, no other collects, and the barrier to be re-initialized has no waiter. |
| Barrier.NextBarrierCounts | src/interpreter/interpreter_dd.c:194-214 | In every interleaving, when no round is going on, the barrier the next round uses counts exactly the participants, those about to be created included. |
| Barrier.OneCollectionPerRound | src/common/alloc.c:86-100 | In every interleaving as many collections have started as rounds have opened, but for one about to start. |
| Barrier.NeverBlocked | src/common/alloc.c:86-100 | In every interleaving, as long as there is a thread, one runs or one can go on with the round it asked for: nobody waits for a barrier that cannot open. |
| Barrier.RoundFinishes | src/common/alloc.c:86-100 | Every round that is going on ends within as many steps as there is work left, whatever their order: then those that asked for memory run, those that ended are gone, those that start a thread are about to create it, and nobody else is there. |
| Barrier.OpensTogether | src/common/alloc.c:86-100 | Every round that opens is then going on. |
| Barrier.ThreadStarts | src/interpreter/interpreter_dd.c:194-214 | From the start of the program the main thread can start another: one round, one collection. |
| Barrier.ThreadEnds | src/interpreter/interpreter_dd.c:194-214 | And that one can end while the main thread goes on: the barriers then count one again. |
| HashMap.HashMap.InsertFlags | src/common/data_structures/map.c:52-77 | Insertion into the ten buckets is insertion into a finite map with flags, and a new key comes last in the order of first insertions; an immutable map does not change. |
| HashMap.HashMap.GetFlags | src/common/data_structures/map.c:83-98 | Lookup finds the last inserted value and flags, or nothing. |
| HashMap.HashMap.KeyList | src/common/data_structures/map.c:100-113 | The loops over the buckets list the enumerable keys, bucket by bucket. |
| HashMap.KeyOrderListsKeys | src/common/data_structures/map.c:100-113 | That list has every enumerable key once and nothing else. |
| HashMap.KeyOrderExact | src/common/data_structures/map.c:100-113 | Its order is bucket by bucket, and within a bucket that of first insertion, however often keys were overwritten since. |
| KeyList.IndexBucket | src/common/data_structures/map.c:24-29 | Index n, written in decimal, is kept in bucket n mod 10, for all 64-bit n. |
| HashMap.SizeExact | src/common/data_structures/map.c:52-77 | After any insertions the size field differs from the number of enumerable keys by exactly the drift of overwritten enumerable bits. |
| KeyList.ScriptSizeExact | src/common/data_structures/map.c:52-77 | After any writes by a script an object's size is the number of its enumerable keys if and only if none of them wrote size or keys. |
| HashMap.GetHash | src/common/data_structures/map.c:24-29 | The loop computes the bucket of a key, wrapping at 64 bits with signed characters. |
| ArrayList.ArrayList.Push | src/common/data_structures/arraylist.c:42-50 | The item is appended, the others stay, also when the buffer is replaced; not so if and only if the list was made without capacity. |
| ArrayList.ArrayList.Set | src/common/data_structures/arraylist.c:58-63 | One item is replaced. |
| ArrayList.ArrayList.Pop | src/common/data_structures/arraylist.c:69-73 | The last item is returned and removed. |
| ArrayList.ArrayList.ExtendCapacity | src/common/data_structures/arraylist.c:79-86 | The capacity doubles and nothing else changes; a full list has room afterwards if and only if its capacity was not 0. |
| KeyList.ScriptObject.Keys | src/interpreter/native_functions.c:128-149 | keys() returns the cached list, or makes an immutable one of exactly the current enumerable keys in key-list order. |
| KeyList.ScriptObject.SetField | src/interpreter/interpreter_dd.c:846-851 | A write forgets the cached list; in an immutable object nothing else changes. |
| KeyList.NumberedLists | src/interpreter/native_functions.c:128-149 | Such a list has key i under the name i for every i, and no other enumerable name. |

## Left out

- Pipeline.OptimizedHaltsAsSource: one way in its hypothesis Optimizable; an exact condition is proved for each rule, not for whole programs, where two wrong rewrites may cancel out.
- RuleSafety.PlainFunctionTidy: a sufficient condition only; comparisons stored in variables or used in arithmetic are shut out although some are compiled right.
- FunctionProof.FunctionHaltsAsSource: only for fragment functions; calls, throw, try, fields, nested assignments used as values and prefix operators have code or places here but no source meaning.
- ArgumentCode.ArgumentsExact: pure arguments only; exact over all lists with the same operands, since whether one list is lucky is a question of arithmetic.
- CallArguments.CallRoundTrip: nothing is thrown, and the call's code stands in the program as it was emitted; for rewritten code only the stack heights of OptimizedStack are proved.
- Outside.CallAsks: pure arguments, and a callee that is pure or a name of an outer scope.
- Temporaries.ExprLoses: a throw gives its result's register back at once, so what an expression around it loses depends on the register; left out, as control does not come back.
- Construction.ConstructorReceives: making this may fail by choice, which the source's code does not.
- OptimizedStack.CompiledKeepsStack: only for classes without constructor parameters, which the creating class leaves on the stack below the new object's frame.
- StackCode.ProgramBalanced: only for classes without constructor parameters, for the same reason.
- ArrayList.ArrayList.Push: where the source writes past the buffer of a list made without capacity, nothing is appended here.
- StackRuns.EveryStack: after an exception, or a call outside the program that leaves arguments behind, only a lower bound on the stack.
- Compilation.Compiler.CompileStmt: a return inside a try with a finally block is excluded; the copies of finally bodies that the source puts before such returns are not modelled.
- Driver.Compile: static constructor bodies, static, shared and synchronized variables, imports and the header word of a class without a static constructor are not modelled.
- HashMap.HashMap.InsertFlags: the three lists of a bucket are sequences, not ArrayList objects; aliasing between buckets is not modelled.
- HashMap.GetHash: keys are sequences of characters below 256.
- KeyList.ScriptObject.Keys: the decimal name of an index stands for the source's number formatting, which agrees for the indices of any real list.
- WholeProgram.ClassHaltsAsSource: classes with functions defined inside try statements are shut out, because the program model gives such functions the tables the source does not.
- Collector.Collector.Gc: the cached key list and this of a frame are not followed, as in the source; freeing memory is not modelled.
- Barrier.WorldIsStopped: a barrier is an atomic counted rendezvous and each access to a shared counter is one step.
- Vm.EveryRun: the first context of a run stands for the root context whose this new frames get; register values, branches, callees and failures are choices; a try statement's finally label operand is not used by the interpreter and not modelled.
- Scopes.GetField: native names and the fall back to synchronized variables are not modelled; nor are fields of other objects and private access across classes.
- Machine values: strings, string concatenation by +, NaN, negative zero and remainders by zero (runs leave the model there).
- Expressions with dots, JSON objects, prefix minus and prefix increments, class references.
- Statements continue, and loops without a condition in the meaning theorems.
- The parser and tree builder, file loading, type registration, imports, the event queue, printing and input.
- src/program/program.h, an older optimizer the pipeline does not use.
- Calls of other instances on cloned states, asynchronous calls beyond their effect on the stack, races on shared variables, thread-library and allocator internals.

# A Toy system, verified

Toys is a small computer system: a one-pass compiler for its language Toy, which writes x86-64 machine code, a file
system, a kernel with nested processes, a boot loader and a text editor. This project models these parts in Dafny and
proves what they are for.

- **The compiler** (`Words`, `X86`, `Encoder`, `Source`, `Codegen`, `Sizes`, `Execution`, `Steps`, `Reachability`,
  `Preservation`, `Layout`, `Linking`, `Encodings`, `Syntax`, `Scanner`, `Patching`, `Parsing`, `Conditions`,
  `Statements`, `Functions`, `Links`, `Statics`, `Compiler`, `Correctness`, `Limits`, `Results`, `Safety`, `Language`,
  `Elaboration`, `Programs`, `Grammar`). `X86` is a processor that decodes bytes and runs them; `Syntax` is the grammar,
  with what the compiler makes of each tree in terms of the core language `Source`; `Language` says, independently of
  the compiler, what the trees mean, with all names as they are written. `Compiler` is the one-pass compiler as it is: a
  class that reads tokens, writes bytes into a buffer and patches chains of forward jumps in it. The main results: the
  bytes that it writes are those of the program that it read (`Correctness.CompileText`); the text has no other reading
  (`Scanner.OnlyLaidOut`, `Grammar.OneProgram`); elaboration preserves meaning (`Programs.ProgramMeans`); and a
  processor that runs the bytes does what the program means, for all programs, arguments, memory, stacks and running
  times (`Correctness.ProgramCallOk`, `Safety.CleanCallOk`, `Programs.ObjectRuns`).
- **The file system** (`Blocks`, `Volumes`, `Reshaping`, `Appending`, `FileSystem`): `FileSystem` is the class that
  changes blocks of an image; `Volumes.Good` says what a good image is, and every operation keeps it and states the
  bytes and names of all files after it.
- **The kernel** (`Stores`, `Paging`, `Records`, `Streams`, `Output`, `Requests`, `Calls`, `Kernel`, `Runs`): processes nested in
  each other's memory, their records on a heap, their file streams, the page tables, and all system calls. `Calls` says
  what each call answers and how it changes the state of the kernel. `Runs` is about whole runs, in which processes
  store what they like to their memory, trap with any registers, start other programs and end.
- **The boot loader and the editor** (`Boot`, `Editor`).

A source evaluation ends, faults (division by zero, unmapped memory), outlives its fuel, or is `Wrong` where the source
has no meaning here; the compiled code then returns with the same result, stops at a fault, runs for at least as many
steps, or is free. `Safety` says for which functions the last case never comes up.

## Model

| member | source | states |
|---|---|---|
| Words.From32OfLE32 | tools/toyc/base.h:35-49 | loading the four bytes that are stored for an integer gives it modulo 2^32 |
| Words.LE32OfFrom32 | tools/toyc/base.h:35-49 | any four bytes are those stored for the integer that they load as |
| Words.From64OfLE64 | tools/toys/filesystem.c:29-43 | writing a 64-bit word as eight little-endian bytes and reading them gives it back |
| Words.LE64OfFrom64 | tools/toys/filesystem.c:29-43 | reading any eight bytes as a word and writing it gives them back |
| Encoder.RoundTrip | tools/toyc/backend.c:83-254 | the processor decodes each instruction that the backend writes to just that instruction and its size, exactly if it is not the load of field 0 through R13, which it reads as RIP-relative |
| Encoder.DecodesMemOperand | tools/toyc/backend.c:150-161 | the ModR/M, SIB and displacement bytes of a memory operand decode to its base and slot |
| Encodings.FnEncoded | tools/toyc/backend.c:150-216 | all instructions of a function are read as meant exactly if its source has no variable or field 2^28 or more words away and loads no field 0 in register 5 |
| Encodings.MisreadExample | tools/toyc/backend.c:163-169 | such a load, six operands deep, is not |
| Reachability.NoBreakOut | tools/toyc/parser.c:543-565 | a statement without a break of its own does not leave a loop by one |
| Reachability.NoNormalEnd | tools/toyc/parser.c:485-605 | a statement whose end the compiler calls unreachable never ends normally |
| Reachability.NoNormalItemsEnd | tools/toyc/parser.c:712-731 | nor does such a function body |
| Preservation.ExprOk | tools/toyc/parser.c:272-434 | the code of an expression puts its value in its register, with the memory of the source and the registers below and the stack as they were; it stops if the source faults |
| Preservation.AndOk | tools/toyc/parser.c:456-464 | where the code of a conjunction goes, for each value and for both senses of its last jump |
| Preservation.OrOk | tools/toyc/parser.c:466-478 | short-circuit code goes to the then part when the condition is true and to the else part when it is false, evaluating as much as the source does |
| Preservation.StmtOk | tools/toyc/parser.c:485-605 | the code of a statement does what its evaluation does, and leaves to the next statement, the break target or the caller with it |
| Preservation.ApplyOk | tools/toyc/backend.c:226-248 | a call keeps the registers in use, passes its arguments and leaves the result above them |
| Preservation.FnOk | tools/toyc/parser.c:695-731 | the code of a function, called with its arguments in registers, ends, faults or runs on as the source does, and returns to its caller with the stack as it was |
| Layout.PatchLast | tools/toyc/backend.c:47-63 | writing a displacement into the last placeholder of a chain makes the bytes those of the code with its last waiting jump resolved; what it held leads to the one before |
| Layout.SubstResolved | tools/toyc/backend.c:55-63 | code in which a chain was resolved waits for it no more |
| Patching.SubstFn | tools/toyc/parser.c:64-74 | resolving a function in the code of another gives the code generated with that function known from the start |
| Linking.DecodesPlaced | tools/toyc/backend.c:30-45 | from the finished bytes of a program the processor decodes at each offset the instruction that was placed there |
| Linking.BytesRun | tools/toyc/backend.c:30-45 | running the bytes is running the placed instructions, for any number of steps |
| Conditions.AndResolved | tools/toyc/parser.c:466-478 | a conjunction written with a chain, once the chain is resolved, is the code with known targets |
| Statements.LoopReachable | tools/toyc/parser.c:550-565 | the end of a loop is reachable exactly if its chain of breaks is not empty |
| Scanner.KeywordTokenIs | tools/toyc/scanner.c:67-75 | the lookup by hash code finds a word exactly if it is a keyword, with its token |
| Scanner.SpellingIs | tools/toyc/scanner.c:34-57 | the tables hold the operators, punctuation and keywords with these spellings, and no others |
| Scanner.Types | tools/toyc/scanner.c:23-32 | which characters are blanks, digits, letters and starts of operators, exactly |
| Scanner.QuotedExactly | tools/toyc/scanner.c:105-113 | a quote, one of the characters from 32 to 126 and a quote are the integer of the character, and nothing else that starts with a quote is a token |
| Scanner.RoundTrip | tools/toyc/scanner.c:154-173 | scanning the text printed for a sequence of tokens gives these tokens |
| Scanner.TextScanned | tools/toyc/scanner.c:94-173 | however tokens are spelled (decimal or quoted integers, words, operators) and laid out, with blanks, ends of lines, comments or nothing between them, scanning gives them |
| Scanner.OnlyLaidOut | tools/toyc/scanner.c:94-173 | and a text that scans to known tokens is one in which they are so laid out |
| Scanner.ScanAll | tools/toyc/scanner.c:154-173 | the scanner reads the tokens that the definition of the tokens of a text gives, or panics where it does |
| Scanner.Scanner.ReadToken | tools/toyc/scanner.c:154-173 | one token: the next one of the text, and where it ends; `TextScanned` and `OnlyLaidOut` say which one that is |
| Scanner.Scanner.ReadOperator | tools/toyc/scanner.c:129-143 | one or two characters are taken as the table of operators says |
| Scanner.Scanner.ReadComment | tools/toyc/scanner.c:145-152 | finds a comment exactly if there is one, and moves to its end |
| Scanner.Scanner.ReadIdentifier | tools/toyc/scanner.c:115-127 | the word or keyword up to the first other character |
| Compiler.Compiler.WritePlaceholder | tools/toyc/backend.c:47-53 | the bytes link to the last place of the chain, which becomes this one |
| Compiler.Compiler.FillPlaceholders | tools/toyc/backend.c:55-63 | afterwards the bytes are those of the code in which every jump that waited goes to the target |
| Compiler.Compiler.SaveRegisters | tools/toyc/backend.c:74-81 | adds the pushes of the registers in use, and counts them in the frame |
| Compiler.Compiler.WriteCallInsn | tools/toyc/backend.c:226-248 | adds the call, the move of its result and the pops, and frees the frame and registers |
| Compiler.Compiler.WriteJumpInsn | tools/toyc/backend.c:133-138 | adds the comparison and the jump, as the last one of its chain |
| Compiler.Compiler.ParseFnArguments | tools/toyc/parser.c:242-260 | a call of a function: the tokens are those of a grammatical call whose arguments have the declared types, and the code is that of its elaboration |
| Compiler.Compiler.ParsePathExpr | tools/toyc/parser.c:306-318 | the tokens are those of a path, and the code is that of its elaboration |
| Compiler.Compiler.ParseAddressOf | tools/toyc/parser.c:320-346 | a reference: the load is erased and its address computed |
| Compiler.Compiler.ParseCastExpr | tools/toyc/parser.c:348-357 | a cast keeps the code and changes the type |
| Compiler.Compiler.ParseExpr | tools/toyc/parser.c:426-434 | the tokens are those of a grammatical expression, its value and type are pushed, and its code is added |
| Compiler.Compiler.ParseComparisonExpr | tools/toyc/parser.c:446-454 | two operands of comparable types, in registers 0 and 1 |
| Compiler.Compiler.ParseBooleanExpr | tools/toyc/parser.c:466-478 | a condition, with its two chains of jumps to be resolved later |
| Compiler.Compiler.ParseAssignment | tools/toyc/parser.c:496-516 | an assignment to an lvalue of a comparable type: the load is erased and a store added |
| Compiler.Compiler.ParseReturnStmt | tools/toyc/parser.c:529-541 | a return, with a value of the type of the function exactly if it has a result |
| Compiler.Compiler.ParseWhileOrLoopStmt | tools/toyc/parser.c:550-565 | a loop whose condition and breaks are resolved at its end |
| Compiler.Compiler.ParseIfStmt | tools/toyc/parser.c:567-591 | a conditional, with nested else-ifs |
| Compiler.Compiler.ParseStmt | tools/toyc/parser.c:593-605 | any statement: grammatical tokens, the code of its elaboration, and whether its end is reachable |
| Compiler.Compiler.ParseLetStmt | tools/toyc/parser.c:607-632 | a new variable, pushed on the frame |
| Compiler.Compiler.AddOrResolveFnSymbol | tools/toyc/parser.c:64-74 | a new function, or one declared forward, whose waiting calls go to the present place from now on |
| Compiler.Compiler.CheckFnParameters | tools/toyc/parser.c:640-652 | accepts exactly the declared types |
| Compiler.Compiler.ParseFnBody | tools/toyc/parser.c:695-731 | nothing, machine code or statements; the functions before stay right |
| Compiler.Compiler.ParseFn | tools/toyc/parser.c:740-749 | a function declaration takes the unit to the one that its elaboration gives |
| Compiler.Compiler.ParseStatic | tools/toyc/parser.c:132-146 | a static block is the bytes of its numbers |
| Compiler.Compiler.ParseStruct | tools/toyc/parser.c:148-169 | a struct has its fields in order, and may refer to itself; `Programs.StructFields` says with which slots |
| Programs.StructFields | tools/toyc/parser.c:148-169 | field i of an accepted struct has slot i and its declared type; different fields have different slots, below the size |
| Programs.FieldStored | tools/toyc/backend.c:163-178 | what is stored to a field is loaded from it, and the other fields of the same value stay |
| Statics.BlocksAreIn | tools/toyc/parser.c:132-146 | the numbers of every static block, and of every function in machine code, are the bytes at the offset of its symbol |
| Statics.DataKeptSubst | tools/toyc/backend.c:55-63 | resolving jumps changes no such bytes |
| Compiler.Compiler.ParseProgram | tools/toyc/parser.c:751-766 | the tokens are those of a grammatical program, elaborated declaration by declaration |
| Compiler.Compiler.CheckSymbols | tools/toyc/parser.c:733-738 | accepts exactly if no function is left without a definition |
| Links.PlacedIffLinked | tools/toyc/parser.c:64-74 | the code is that of the functions as the symbols say exactly if every call goes where the symbols say |
| Links.FnAlike | tools/toyc/backend.c:226-235 | two codes of a function are equal exactly if its calls go to the same places |
| Links.LinkedIffNotEarly | tools/toyc/parser.c:695-701 | in an accepted program all calls go to the functions that they name exactly if no function is called between two forward declarations of it whose second one is not at the offset of its definition |
| Links.EarlyExample | tools/toyc/parser.c:695-701 | a program in which a call goes to a static block instead |
| Links.OnceIsEnough | tools/toyc/parser.c:695-701 | with at most one forward declaration per function there is no such call |
| Correctness.CompiledCallOk | tools/toyc/toyc.c:83-97 | running the bytes from the offset of a function does what its evaluation does: same result, memory and stack; a fault stops it; no end means no end |
| Correctness.ObjectMeans | tools/toyc/toyc.c:83-97 | for an object file: all calls go right exactly if none is early, and all instructions are read as meant exactly if all functions are encodable |
| Correctness.Compile | src/toyc/toyc.toy:63-90 | if it accepts the tokens, they are those of a grammatical program without undefined functions, and the bytes are its object code, with functions and static blocks at their symbols |
| Correctness.CompileText | tools/toyc/toyc.c:75-97 | the same from the text of the program |
| Correctness.ProgramCallOk | tools/toyc/toyc.c:83-97 | for such an object file without early calls and misread loads, wherever it is loaded, calling any of its functions does what the source says |
| Grammar.ExprRead | tools/toyc/parser.c:272-434 | the tokens of an expression, whatever may follow it, are those of no other one: precedence and association are unambiguous |
| Grammar.TwoOperators | tools/toyc/parser.c:359-434 | of two operators without parentheses the first is applied first, unless the second binds more tightly, for each pair of operators; two shifts need parentheses |
| Grammar.StmtRead | tools/toyc/parser.c:485-605 | nor are those of a statement |
| Grammar.OneProgram | tools/toyc/parser.c:751-766 | tokens are those of one program at most |
| Elaboration.TypeSame | tools/toyc/parser.c:184-346 | the compiler gives every expression the type that it has as it is written |
| Elaboration.ExprSame | tools/toyc/parser.c:184-434 | an expression, with variables, fields, structs and operators as they are written, means what its elaboration, with slots and offsets, evaluates to; and lvalues are where the elaboration says |
| Elaboration.StmtSame | tools/toyc/parser.c:485-605 | a statement ends as its elaboration does, with the same values of all variables |
| Elaboration.ItemsSame | tools/toyc/parser.c:607-632 | so does a function body, in which constants and variables are declared on the way |
| Programs.ProgramMeans | tools/toyc/parser.c:640-766 | in every accepted program without casts around assigned or referenced places but first words, every function is elaborated to one that means the same |
| Programs.ObjectRuns | tools/toyc/toyc.c:83-97 | the processor that runs the object code does what the program as it is written means: same result, memory and stack; a fault stops it; no end means no end |
| Results.AcceptedFnReturns | tools/toyc/parser.c:712-731 | every call that ends of an accepted function with a result type has a result |
| Safety.DeclsTyped | tools/toyc/parser.c:184-240 | in every accepted program all variables exist where they are used, calls have as many arguments as the function has parameters, and no missing result is used |
| Safety.AcceptedNotWrong | tools/toyc/parser.c:231-240 | functions of an accepted program that call only each other, take no address of a variable and assign to no variable through a cast never go wrong |
| Safety.CleanCallOk | tools/toyc/parser.c:231-260 | so the compiled code of such a function returns as the source says, stops at a fault of the source, or outruns any fuel |
| Limits.CastSlot | tools/toyc/parser.c:348-357 | the slot that a value remembers is the one that it was loaded from exactly if no cast is on top or that slot is 0 |
| Limits.AssignSlot | tools/toyc/parser.c:496-516 | so an assignment stores at the slot that its left side designates exactly under that condition |
| Limits.RefSlot | tools/toyc/parser.c:320-346 | and a reference computes that address exactly under that condition |
| Limits.CastExample | tools/toyc/parser.c:496-516 | `p.b as u64 = 1` for the second field stores into the first |
| Limits.CallValue | tools/toyc/parser.c:203-212 | the values that count as variables but are results of calls are those of calls, cast or in parentheses |
| Limits.LvalueOrNot | tools/toyc/parser.c:320-346 | `&` and assignment take exactly the lvalues, and a call on top is none |
| Blocks.CompareNames | tools/toys/filesystem.c:62-74 | the lexicographic order of two names |
| Blocks.LessMeans | tools/toys/filesystem.c:62-74 | a name is less than another one exactly if at the first place where they differ it ends or has the smaller byte |
| Volumes.Covered | tools/toys/filesystem.h:44-58 | in a good image every block is the superblock, free, or in the chain of a file |
| Volumes.Disjoint | tools/toys/filesystem.h:44-58 | and it is so at one place only, so that no list has a cycle |
| Volumes.FilesDistinct | tools/toys/filesystem.h:44-58 | no file is listed twice |
| FileSystem.FileSystem.Format | tools/maketoysfs.c:33-43 | a good image without files, all blocks but the superblock free |
| FileSystem.FileSystem.FindFile | tools/toys/filesystem.c:89-102 | the file with the name, or 0 exactly if there is none; and the file before the place of the name |
| FileSystem.FileSystem.GetFileSize | tools/toys/filesystem.c:104-116 | the number of bytes of the file |
| FileSystem.FileSystem.ReadFile | tools/toys/filesystem.c:122-146 | the bytes at the cursor, as many as there are; the cursor moves past them, but for its offset when bytes were missing |
| FileSystem.FileSystem.CreateFile | tools/toys/filesystem.c:148-193 | an empty file with the name, in order; or, without change, why not |
| FileSystem.FileSystem.WriteFile | tools/toys/filesystem.c:195-232 | appends the data exactly if it fits; otherwise as much as fits, and then the old rest of the last block taken; other files keep names, blocks and bytes |
| FileSystem.FileSystem.ClearFile | tools/toys/filesystem.c:247-260 | the file is empty and its other blocks are free; other files are as they were |
| FileSystem.FileSystem.DeleteFile | tools/toys/filesystem.c:262-280 | the file is gone, its blocks are free, and the list links past it |
| FileSystem.FileSystem.ReadChunks | tools/dumptoysfs.c:119-188 | consecutive reads give the bytes in order, and all of them when one comes short |
| FileSystem.ChunksAre | tools/dumptoysfs.c:119-188 | the pieces that such reads give are, one after the other, the first bytes of the file |
| FileSystem.FileSystem.AddFile | tools/maketoysfs.c:67-103 | succeeds exactly if the name is valid and new, a block is free and all pieces together fit in the free blocks, and otherwise says why not; the file then holds the pieces in order, and the other files are as they were in any case |
| FileSystem.FileSystem.WritePiece | tools/maketoysfs.c:90-101 | one piece is written exactly if it still fits |
| Paging.PageTables.SetEntry | src/toys/processes.toy:56-65 | the user bit is set or cleared, the address stays, and no-execute is cleared |
| Paging.PageTables.SetPage | src/toys/processes.toy:67-74 | the user bits on the walk of one page, and no others |
| Paging.PageTables.SetPages | src/toys/processes.toy:76-82 | the pages of a range are accessible or not, and other pages are as they were |
| Paging.Switched | src/toys/processes.toy:84-90 | closing the parent's pages and opening the process's leaves exactly these open |
| Records.RecordsDisjoint | src/toys/processes.toy:139-154 | records on the kernel heap never overlap, whatever was started, opened and ended |
| Records.PoppedArranged | src/toys/processes.toy:158-168 | ending the last process leaves the records of the others linked as they were, and the heap as before it was started |
| Streams.SharedExactly | src/toys/systemcalls.toy:55-71 | a file may be opened exactly if a new stream on it leaves every write stream alone on its file |
| Output.PrintedIs | src/toys/systemcalls.toy:162-166 | a write to an output in order puts as many bytes as there is room for after what was there, and moves the pointer past them |
| Output.OutputsKept | src/toys/systemcalls.toy:162-166 | what the last process may change keeps the outputs of all processes in order, and is what each process before it may change |
| Output.PointerStays | src/toys/processes.toy:120-123 | a process cannot change where its output goes by its own stores exactly if the pointer is not in its range |
| Output.OutputStays | src/toys/systemcalls.toy:162-166 | writes of all sizes stay before the limit exactly if the pointer is not after it |
| Output.OutputTaken | src/toys/processes.toy:120-123 | with the pointer in its range, a process sends its next write to any address |
| Output.OutputOver | src/toys/systemcalls.toy:162-166 | with the pointer in the output, two writes do so |
| Output.KeyStays | src/toys/systemcalls.toy:127-133 | a key read into a buffer stays in the range exactly if eight bytes fit |
| Requests.StackStays | src/toys/processes.toy:111-114 | a new process ends in the range of its parent exactly if the saved stack pointer is not a page past that range |
| Requests.UnsafeRequest | src/toys/processes.toy:110-124 | a request that passes all checks of os_spawn and is not safe |
| Requests.SafeEffect | src/toys/systemcalls.toy:119-185 | a safe call changes only the range of the process, the rest of its output and the pointer to its end |
| Requests.StartedOutput | src/toys/processes.toy:101-156 | a program that a safe request starts has its output in order, in the range of its parent |
| Kernel.Kernel.SetCurrentProcess | src/toys/processes.toy:84-90 | afterwards user code can access exactly the pages of the process |
| Kernel.Kernel.Spawn | src/toys/processes.toy:101-156 | starts a program exactly if the record fits, the request passes the checks and a file with the name fits; memory then holds code, size of the arguments and arguments; each failure with its cause and no change |
| Kernel.Kernel.Exit | src/toys/processes.toy:158-168 | the parent is current again with the result; heap, records and streams are those from before the process |
| Kernel.Kernel.Stat | src/toys/systemcalls.toy:7-16 | the size of the file with the name, or why not |
| Kernel.Kernel.GetStream | src/toys/systemcalls.toy:24-32 | the stream of the current process with the number |
| Kernel.Kernel.GetUnused | src/toys/systemcalls.toy:34-53 | an unused stream, made if there is room |
| Kernel.Kernel.CanOpen | src/toys/systemcalls.toy:55-71 | exactly if no stream of any process excludes it |
| Kernel.Kernel.Open | src/toys/systemcalls.toy:73-113 | a stream at the start of the file, made or emptied for writing, or at the list; each failure with its cause |
| Kernel.Kernel.Read | src/toys/systemcalls.toy:119-152 | the next name, or the next bytes; what is left to read in every stream |
| Kernel.Kernel.ReadKey | src/toys/systemcalls.toy:127-133 | a whole word is stored for the one byte that is read |
| Kernel.Kernel.Write | src/toys/systemcalls.toy:154-185 | the bytes come to the end of the file, and what other streams have left is the same |
| Kernel.Kernel.WriteOutput | src/toys/systemcalls.toy:162-166 | the bytes go to where the pointer is, as far as the limit in 64 bits allows, and the pointer moves |
| Kernel.Kernel.WriteScreen | src/toys/systemcalls.toy:167-172 | takes whole triples |
| Kernel.Kernel.Close | src/toys/systemcalls.toy:187-196 | the stream is unused |
| Kernel.Kernel.Delete | src/toys/systemcalls.toy:198-224 | the file is gone, and list streams at it go to the next one; refused while a stream reads or writes it |
| Calls.CallPassed | src/base.toy:45-90 | the handler finds in memory the call that the library function for it passes |
| Calls.AnswerFollows | src/toys/toys.toy:42-58 | what every answered call does to records, streams of other processes and memory |
| Kernel.Kernel.Dispatch | src/toys/toys.toy:42-58 | every call answers and changes disk, streams, records and memory as `Calls.Answered` says: sizes, bytes and names read, data appended, streams opened and closed, files removed, programs started and ended, or the cause of a failure and no change |
| Kernel.Kernel.SystemCall | src/toys/toys.toy:42-58 | for any registers and memory: a bad number or argument block changes nothing but registers; otherwise the call that memory holds is answered so, and its result is left for the process; records change by one step, streams of other processes stay, and memory changes as the call says |
| Kernel.Kernel.UserStore | src/toys/processes.toy:56-82 | the page tables let a store of the current process through exactly if all its bytes are in the range of the process |
| Kernel.Kernel.HardFault | src/toys/toys.toy:12-15 | ends the process, but the first one |
| Kernel.Kernel.OwnPages | src/toys/processes.toy:84-90 | in every valid state user code can access exactly the pages of the current process |
| Kernel.Kernel.OneWriter | src/toys/systemcalls.toy:55-71 | while a stream writes a file no other one reads or writes it |
| Kernel.Kernel.RecordsApart | src/toys/processes.toy:139-154 | records overlap neither each other nor the memory of a process |
| Kernel.Kernel.Nested | src/toys/processes.toy:101-156 | the range of a process is in that of its parent |
| Runs.Run | src/toys/toys.toy:42-58 | over any sequence of traps and stores: the states after each of them follow one another as the handler, the page tables and the end of processes say, and the calls made are those of the traps; the state stays valid, streams from before stay, and after its end the records are those from before it; if its output is in order and all calls are safe, memory changes only in its range and the rest of its output, and the pointer stays in it |
| Runs.RunProgram | src/toys/processes.toy:101-168 | the same from the request that starts a program, which is answered as os_spawn does, to its end, with the heap back at its address |
| Runs.RunShell | src/toys/toys.toy:208-215 | the first process runs the named file; from its start on there is always a process, and while all calls are safe the kernel's memory never changes |
| Boot.Loader.FindKernel | src/boot/boot.toy:66-78 | the file with the name of the kernel, if there is one and the superblock does not look like it |
| Boot.Loader.LoadChain | src/boot/boot.toy:79-90 | the blocks of a chain, read over each other's ends, leave the content of the file in one piece |
| Boot.Loader.LoadKernel | src/boot/boot.toy:62-93 | the memory from the address that is called holds what the kernel's file holds |
| Editor.MemCopy | src/edit/edit.toy:1-23 | copies to overlapping memory in either direction, by words and bytes |
| Editor.TextEditor.SetCursor | src/edit/edit.toy:37-44 | moves the gap; the text is the same |
| Editor.TextEditor.MoveBackward | src/edit/edit.toy:46-64 | the start of a line before the cursor, with row and column |
| Editor.TextEditor.MoveForward | src/edit/edit.toy:66-75 | the start of a line after the cursor |
| Editor.TextEditor.HandleKey | src/edit/edit.toy:77-94 | where each key moves the cursor; `UpKeys`, `DownKeys` and `OtherKeys` say which place that is |
| Editor.TextEditor.PressKey | src/edit/edit.toy:123-158 | what each key does to the text and the cursor, and nothing outside the buffer |
| Editor.LineStartIs | src/edit/edit.toy:46-64 | the start of a line is where one starts and the right number of lines end after it |
| Editor.LineAfterIs | src/edit/edit.toy:66-75 | the start of the line after so many ends of lines, or the end of the text |
| Editor.MovesKeepText | src/edit/edit.toy:77-94 | keys that move the cursor keep the text |
| Editor.UpKeys | src/edit/edit.toy:84-89 | up and page up move the cursor to the only start of a line that is one line, or 30, before it, or to the start of the text |
| Editor.DownKeys | src/edit/edit.toy:86-91 | down and page down move it to the only start of a line that is one line, or 30, after it, or to the end of the text |
| Editor.OtherKeys | src/edit/edit.toy:77-145 | left and right move it by a character; backspace removes the one before it; the other keys from 127 on do nothing |
| Editor.TypedText | src/edit/edit.toy:136-150 | typing characters inserts them before the cursor in order, as far as there is room |
| Editor.RoomKept | src/edit/edit.toy:123-158 | over any run of keys the text and the room for more are together as much as before, so the text never outgrows the buffer |
| Editor.TypedAndErased | src/edit/edit.toy:136-150 | backspace undoes typing |
| Editor.LeftAndRight | src/edit/edit.toy:77-94 | the arrows undo each other |
| Editor.EditText | src/edit/edit.toy:123-158 | after the keys up to escape the buffer holds the text that they make of the old one, after its length |

## Findings

Where the code does something else than its text suggests, the model follows the code, and these members give the
input and the exact condition.

- A cast on top of an lvalue makes an assignment or a reference use slot 0 (`Limits.CastSlot`, `Limits.CastExample`).
  `Language` means the place that is written; `Programs.ProgramMeans` is about programs without such casts, but of
  first words, where it makes no difference.
- The load of a field 0 in register 5 is encoded as a load relative to the instruction pointer (`Encoder.RoundTrip`,
  `Encodings.FnEncoded`, `Encodings.MisreadExample`).
- A second forward declaration resolves the calls that wait for the function to its own place, which is that of the
  function only if no code comes in between (`Links.LinkedIffNotEarly`, `Links.EarlyExample`).
- `tc_check_symbols` is called by the compiler in Toy (src/toyc/toyc.toy:82) and not by the one in C
  (tools/toyc/toyc.c:83-85); `Correctness.Compile` calls it.
- `os_spawn` lets the pointer to the output be in the new process's range or in the output; the process can then send
  its output to any address. `Requests.SafeCall` is the condition under which it stays where it should
  (`Requests.UnsafeRequest`, `Output.OutputTaken`, `Output.OutputOver`, `Requests.SafeEffect`).
- The handler saves any stack pointer, and `os_spawn` ends the new process at the page of it, which is in the range of
  its parent exactly if it is not a page past it (`Requests.StackStays`).
- A read from the keyboard checks the bytes that are asked for and stores eight (`Output.KeyStays`).
- A read that comes short does not move the offset of its stream (`FileSystem.FileSystem.ReadFile`,
  `Requests.AtEnd`).
- A write that does not fit leaves a full old block at the end of the file (`FileSystem.FileSystem.WriteFile`,
  `Requests.Extended`).
- The boot loader takes the superblock for the kernel if its bytes look like it (`Boot.Loader.FindKernel`).

## Left out

- `f() = e` and `&f()`: the compiler does not reject them; the model stops there with a status of its own
  (`Limits.LvalueOrNot` says which trees these are).
- Correctness.CompileText: does not say that a program that fits is accepted, only what acceptance means.
- Panic codes are not part of the contracts, only that there is a panic.
- The stack is apart from the memory of the source, so that `&variable` has no meaning in `Source` and stack overflow
  does not happen.
- The machine code of a function written as bytes is placed but has no meaning; a call of it is `Wrong` in `Source`.
- Static blocks are placed as bytes; what memory holds when a program starts is a parameter.
- The compiler's own heap, which holds symbols and values, does not run out.
- Devices: key codes, the screen's registers, the disk's errors, the firmware's tables and calls; what a device gives
  is a parameter (`key`), and time does not pass in a sleep.
- Kernel.Kernel.WriteOutput: does not say what a copy to an address before the memory of programs or past its end
  does; `ok` tells when it would happen.
- Kernel.Kernel.ReadKey: the same for a word past the end of memory.
- Runs.Run: stops when a process traps with its stack pointer a page or more above its range; the ranges of what it
  would start then are not followed.
- The initialisation of the kernel, its descriptor tables and its entry and exit instructions.
- The editor's drawing of the text, its arguments and its prompt, and the other programs (copy, delete, list, shell,
  snake).
- The images and tools around the file system (partitions, the firmware's file system).

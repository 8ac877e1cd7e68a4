# Verified models of the embedded Lua core and three build tools

The repository carries a complete Lua 5.1 interpreter (`misc/luabash/lua`) and the build tools of the
distribution. This project models the parts of both whose correctness does not show in any single
function, and proves what they are for:

- **The incremental collector** (`Gc*.dfy`, lgc.c): two whites, gray lists, forward and back barriers,
  weak tables, finalizers, open upvalues and the string table, interleaved with a program that
  allocates, stores and closes upvalues. Nothing live is ever freed, no live object refers to a freed
  one, what the program reaches without the weak halves of weak tables stays reachable, a full
  collection leaves exactly what can be reached when its marking starts, and the userdata that cannot be
  reached get their finalizers called, no others and none of them forgotten.
- **The code generator for boolean expressions** (`Code*.dfy`, lcode.c): jump lists threaded through
  the instructions themselves. A small machine runs the emitted code: control always goes the right way,
  and the value that arrives is that of the expression except in one case, which is stated exactly. Every
  register and operand fits into its field of the instruction word.
- **Tables** (`Table*.dfy`, ltable.c): array part, chained scatter table with Brent's variation,
  rehashing, traversal and border search, against a finite map.
- **The pattern matcher** (`Pattern*.dfy`, lstrlib.c) against a declarative order of matches, and the texts of
  patterns, character by character.
- **Interned strings** (`Intern.dfy`, lstring.c) and **open upvalues** (`Upval*.dfy`, lfunc.c), which must
  stay unique while a sweep is under way.
- **Precompiled chunks** (`Dump*.dfy`, `Undump.dfy`, ldump.c and lundump.c), **quoted strings**
  (`Quote.dfy`, lstrlib.c and llex.c) and **operator priorities** (`Expr*.dfy`, lparser.c): round trips, and what
  the texts say.
- **table.sort** (`Sort.dfy`, ltablib.c), **the semaphore** (`Semaphore.dfy`, Threads.cc), **MD5 in pieces**
  (`Md5*.dfy`, md5.c) and **the dependency graph** (`Dependency.dfy`, dependency.cc).

Code that changes state is a class with the source's own fields, loops and lists; each method is tied to
a function or relation on values, and the theorems are proved about those. Verify everything with
`dafny verify dfyconfig.toml`.

## Model

| member | source | states |
|---|---|---|
| GcCollector.Collector.Run | misc/luabash/lua/lgc.c:556-607 | Every interleaving of program operations and collector steps: each state satisfies the invariant, each step changes the state, heap contents included, as `Stepped` says; whatever is reachable before a step is in the heap after it, and whatever a live object refers to is in the heap. |
| GcCollector.Collector.Perform | misc/luabash/lua/lgc.c:556-710 | One operation, from any state of a cycle, keeps the invariant and every live object and is related to the old state as `Stepped` says: collector steps remove empty entries while marking, clear weak tables at the flip, shrink open upvalue lists and close upvalues of dead threads while sweeping, push one userdata while finalizing, and change no other object. |
| GcCollector.Collector.FullCollection | misc/luabash/lua/lgc.c:636-659 | luaC_fullgc ends, in GCSpause. The states it goes through are collector steps: what was under way ends, a new cycle starts in `start`, and its marking is over in `flip`. At the end the heap holds everything that strong references reach from the roots of `start`, the running thread and the userdata that then wait for finalizers, and besides these only strings that are fixed or that a weak table so reached refers to. Nothing live at the start is freed before `flip`, and what is firmly reachable at the start still is. Every userdata with `__gc` that is not finalized and cannot be reached at `start` is on the stack of the running thread, handed to its finalizer. |
| GcCollector.Collector.SingleStep | misc/luabash/lua/lgc.c:556-607 | In every phase live objects survive, and the step does the work of its phase and no more: marks spread along strong references, a bucket is swept, the backlog of the sweep shrinks, the first waiting userdata is handed to its finalizer if the table in its metatable field has `__gc`. |
| GcCollector.Collector.Atomic | misc/luabash/lua/lgc.c:525-553 | Ends marking without freeing anything: marks are complete and spread only along strong references, exactly those userdata are put on tmudata that marking left white, that have not been finalized and whose metatable has `__gc` (stated on the fields), exactly the dead entries of weak tables are cleared, the white changes and the sweep starts with its invariant established. |
| GcCollector.Collector.PropagateMark | misc/luabash/lua/lgc.c:277-320 | Tracing the first gray object keeps the marking invariant, only adds marks and comes nearer to the end. |
| GcCollector.Collector.SweepOne | misc/luabash/lua/lgc.c:407-428 | The object at the sweep position is freed if it is dead; otherwise it stays and is repainted, after the dead open upvalues of a thread. Live objects stay, what stays condemned is still to come, and the contents of everything else stay. |
| GcCollector.Collector.StoreForward | misc/luabash/lua/lgc.c:662-672 | A store with the forward barrier keeps the invariant in every phase. |
| GcCollector.Collector.StoreTable | misc/luabash/lua/lgc.c:675-683 | A store with the back barrier keeps the invariant in every phase. |
| GcCollector.Collector.CloseUpval | misc/luabash/lua/lgc.c:695-710 | Closing an upvalue frees a dead one; any other is linked with the value its slot had, also in the middle of marking. |
| GcCollector.Collector.constructor | misc/luabash/lua/lstate.c:143-190 | A new state satisfies the invariant. |
| GcState.ReachableIsLive | misc/luabash/lua/lgc.h:70 | An object that isdead calls dead cannot be reached from the roots. |
| GcState.BlackNeverPointsToWhite | misc/luabash/lua/lgc.c:277-320 | While marking, a black object outside tmudata refers to marked objects only. |
| GcState.GrayIsListed | misc/luabash/lua/lgc.c:69-112 | While marking, a gray table, closure, thread or prototype is on exactly one of gray, grayagain and weak. |
| GcAtomic.FlipKeepsInv | misc/luabash/lua/lgc.c:525-553 | When marking is complete and weak tables are cleared, changing the white gives a state in which every survivor refers to survivors only. |
| GcRun.CycleDone | misc/luabash/lua/lgc.c:636-659 | At the end of a cycle nothing remains that was condemned when marking ended, and nothing live then is missing. |
| GcFull.FlipExact | misc/luabash/lua/lgc.c:501-553 | At the flip of a cycle that markroot started and no program operation interrupted, everything that strong references reach from the roots and from userdata waiting for finalizers is live, and besides it only strings that are fixed or that a weak table so reached refers to. |
| GcFirm.FirmStays | misc/luabash/lua/lgc.c:556-710 | Over any sequence of collector operations: what the program can reach without the weak halves of weak tables, and without their entries that hang on a collectable weak half, stays in the heap and stays so reachable. |
| GcFirm.StrongHalfLost | misc/luabash/lua/lgc.c:365-371 | The strong half of a weak entry is not enough: a key that only an entry of a weak-valued table holds is lost when the value of that entry is dead. |
| GcFirm.FinalizedValueLost | misc/luabash/lua/lgc.c:337-345 | A marked userdata that has been finalized before is dropped as a value of a weak-keyed table, where values are strong. |
| GcWeak.ItemsKept | misc/luabash/lua/lgc.c:337-362 | At the end of marking a table loses an array item only if that is an object, not a string, that is dead or a finalized userdata. |
| GcWeak.EntriesKept | misc/luabash/lua/lgc.c:337-372 | It loses an entry with a value only if a half is such an object; a finalized userdata counts as a value only, not as a key. |
| GcFinal.FlipFinalizers | misc/luabash/lua/lgc.c:128-155 | A userdata that joins tmudata has `__gc` in its metatable, was never finalized, and no path of strong references leads to it from the roots past the waiting userdata. Any userdata with `__gc` that was never finalized joins or survives. |
| GcFinal.CycleFinalizers | misc/luabash/lua/lgc.c:525-545 | In a cycle that no program operation interrupted, all userdata with `__gc` that cannot be reached at its start join, and stay in the heap. |
| GcFinal.NeverForgotten | misc/luabash/lua/lgc.c:445-471 | Over every run of program and collector: a userdata on tmudata stays there and in the heap until a step of the collector takes it and, if its metatable still has `__gc`, hands it to the finalizer on the stack of the running thread. |
| GcFinal.SteppedJoins | misc/luabash/lua/lgc.c:128-155 | The converse: only the flip adds to tmudata, and only userdata with `__gc` that are out of reach and were never finalized. |
| GcFields.PointsByField | misc/luabash/lua/lgc.c:158-271 | The references that the theorems speak of are those found by reading fields: metatable, environment, array item, key and value of an entry, upvalue, variable, prototype, stack slot, globals, name, constant. |
| GcFields.RefersByField | misc/luabash/lua/lgc.c:158-196 | Strong references are those in fields that a weak mode in the metatable does not exempt. |
| GcFields.GetThere | misc/luabash/lua/lgc.h:70 | Whatever a field of a live object holds is in the heap and live: no field dangles. |
| GcCollector.Collector.Read | misc/luabash/lua/lobject.h:215-348 | The program reads a field of an object in hand: the value is that of the field, and the object it refers to is there. |
| CodeGen.FuncState.ExpThen | misc/luabash/lua/lcode.c:390-419 | Compiling any expression of locals, nil, booleans, numbers, comparisons, not, and, or into a register, followed by any instruction: for all register contents and all comparison functions the code arrives at that instruction with no other register in use changed. The register holds the value of the expression if and only if the run is not misled by a jump that an always-jump has caught, and always if no operand calls for such a jump. The code before stays. The jumps that waited lead to the start of the new code, or where the jump there leads; only if that is an always-jump, those that carry a value bring it into the register and lead to the end. Every register and operand emitted fits its field: registers are below 250, constants of operands below 256. |
| CodeGen.FuncState.ConditionThen | misc/luabash/lua/lcode.c:539-591 | luaK_goiftrue and luaK_goiffalse on any such expression: control reaches the next instruction exactly if the expression is true (false), and leaves by the returned list otherwise, in every case. The code before stays, and the jumps that waited lead to the start of the new code, or leave by the list if the jump there does. Every register and operand emitted fits its field. |
| CodeRoute.DeliveredRight | misc/luabash/lua/lcode.c:539-591 | The value delivered is the expression's exactly if the last jump was not caught with another value than the constant's. |
| CodeRoute.DeliveredWrong | misc/luabash/lua/lcode.c:575-578 | `((1 or false) and true) or false` is true, but 1 is delivered. |
| CodeRoute.DeliveredTruthy | misc/luabash/lua/lcode.c:547-550 | `((1 or x) and false) and y` is false, but 1 is delivered: even the truth value is wrong. |
| CodeRoute.UnconditionalRight | misc/luabash/lua/lcode.c:539-591 | With no and behind a constant false and no or behind a constant true the value is always right. |
| CodeRoute.WayRight | misc/luabash/lua/lcode.c:539-591 | Whatever a jump brings along, a condition goes on exactly if the value is the one it asks for. |
| CodeGen.FuncState.SubExpr | misc/luabash/lua/lparser.c:828-853 | The half-compiled expression: every run takes the way of the expression, ending in a jump of its true or false list, in a jump pending to its end, or where its descriptor says the value is. |
| CodeGen.FuncState.GoIf | misc/luabash/lua/lcode.c:539-591 | The run goes on exactly if the value is true (false), by falling through or by a jump pending to here, and leaves by the returned list otherwise, each jump with the value it carries. Jumps that waited before the expression go on waiting, lead into its code, or join the list of an always-jump. |
| CodeGen.FuncState.CodeNot | misc/luabash/lua/lcode.c:594-626 | The negated expression: lists exchanged, values removed, comparison inverted or OP_NOT emitted. |
| CodeGen.FuncState.Exp2Reg | misc/luabash/lua/lcode.c:390-411 | After both lists are patched every way through the code brings what is delivered into the register. |
| CodeGen.FuncState.Concat | misc/luabash/lua/lcode.c:185-196 | The two lists become one, in order, and only links of the first list change. |
| CodeGen.FuncState.PatchListAux | misc/luabash/lua/lcode.c:150-160 | Each jump of the list goes to the value target with its TESTSET resolved, or to the default target. |
| CodeSem.JoinedYields | misc/luabash/lua/lcode.c:745-760 | The code of two operands one behind the other takes the way of and (or): leaving the first early brings what its jump brings, going on brings what the second makes of it. |
| CodeFinal.FinalDelivers | misc/luabash/lua/lcode.c:390-411 | From the run with open lists to the run of the patched code: value jumps skip the boolean loads, the others reach the right one. |
| CodeVm.ContinueExec | misc/luabash/lua/lcode.c:150-196 | A run through code whose pending jumps have been patched, or have joined the list of a later jump, is the old run continued at the place they waited for. |
| CodeWord.WordRead | misc/luabash/lua/lopcodes.h:37-130 | An instruction whose fields fit is read back from its word of 32 bits; for LOADK and JMP, if the constant and the distance are within the 18 bits of Bx. |
| CodeWord.ConstantTooFar | misc/luabash/lua/lopcodes.h:119-130 | Why luaK_exp2RK tests MAXINDEXRK: as an operand, a constant from 256 to 511 is read as the one 256 below. |
| CodeWord.WordRuns | misc/luabash/lua/lopcodes.h:150-209 | The machine of the theorems does what lopcodes.h says of each opcode in terms of the fields of the word. |
| LuaTable.Table.Run | misc/luabash/lua/ltable.c:469-529 | Any sequence of sets and gets gives the results of a finite map; it can fail only if at some point at least 2^26 keys have values. |
| LuaTable.Table.Put | misc/luabash/lua/ltable.c:494-505 | Setting a key changes that key only, through any rehash; nil and NaN are refused, and overflow means 2^26 live keys. |
| LuaTable.Table.Get | misc/luabash/lua/ltable.c:469-491 | Finds the slot of the key, or nothing if no part holds it. |
| LuaTable.Table.NewKey | misc/luabash/lua/ltable.c:399-429 | Inserts by Brent's variation or rehashes; the well-formedness of all chains is kept, the map gains only the empty key, and after a rehash there is always room. |
| LuaTable.Table.Rehash | misc/luabash/lua/ltable.c:333-349 | The map stays the same, the array size is the best power of two, and there is room for every key and the new one. |
| TableCount.ComputeSizes | misc/luabash/lua/ltable.c:189-208 | The largest power of two with more than half of its slots in use, and how many keys go there. |
| LuaTable.Table.Next | misc/luabash/lua/ltable.c:162-179 | The next entry with a value behind the given key, or the end, or an invalid key. |
| LuaTable.Table.Traverse | misc/luabash/lua/ltable.c:162-179 | Repeated luaH_next visits every key with a value exactly once. |
| LuaTable.Table.GetN | misc/luabash/lua/ltable.c:532-576 | The result is a border. |
| TableChains.NoLoop | misc/luabash/lua/ltable.c:391-429 | No node is twice on a chain. |
| PatternSem.SearchCorrect | misc/luabash/lua/lstrlib.c:364-439 | The backtracking search finds the match whose choices come first in the priority order (longest first, shortest first, one before none), and none only if no choice of counts matches. |
| PatternMatch.MatchState.Match | misc/luabash/lua/lstrlib.c:364-439 | match on the pattern text does that search, leaves the captures of the match, and on NULL restores all captures. |
| PatternMatch.MatchState.MaxExpand | misc/luabash/lua/lstrlib.c:300-312 | Tries the counts from the longest run downwards. |
| PatternMatch.MatchState.Find | misc/luabash/lua/lstrlib.c:494-534 | A well-formed pattern matches at the first start position at which any match exists, with the best match there. |
| PatternText.TextRead | misc/luabash/lua/lstrlib.c:364-439 | Items are read back from their text, which is written with characters of its own: classes, sets with ranges and escapes, repetitions, captures, back references, %b, %f and the final $. |
| PatternText.MatchRepeated | misc/luabash/lua/lstrlib.c:413-439 | match on the text of a class, one of the characters `*`, `+`, `-`, `?`, and any rest: `*` takes the greatest number of repetitions behind which the rest matches, `+` the greatest from 1, `-` the least, `?` one before none; NULL means that no number would do. |
| PatternText.TakesFirst | misc/luabash/lua/lstrlib.c:300-328 | The same of the search, behind any captures. |
| PatternText.LetterLaw | misc/luabash/lua/lstrlib.c:225-241 | `%a` accepts exactly the letters, `%A` exactly the others, and so for each of the nine ctype tests and `%z`; any other character behind the escape stands for itself. |
| PatternText.SetLaw | misc/luabash/lua/lstrlib.c:244-264 | A set accepts what one of its elements accepts, and with `^` exactly the rest. |
| PatternText.BalanceLaw | misc/luabash/lua/lstrlib.c:280-297 | `%bxy` goes from an x to the first place up to which x and y occur equally often. |
| Intern.StringTable.Run | misc/luabash/lua/lstring.c:75-93 | Over every run of interning, marking, resizing and sweeping, the table holds each content once and in its bucket, and a string that was returned is still there until a new sweep begins. |
| Intern.StringTable.NewLstr | misc/luabash/lua/lstring.c:75-93 | Returns a live string with the content; one that exists already is found, also if it is waiting to be swept, and then brought back. |
| Intern.StringTable.Perform | misc/luabash/lua/lgc.c:572-580 | One operation keeps the table's invariant and does what its relation says. |
| Intern.StringTable.Resize | misc/luabash/lua/lstring.c:22-47 | Every string moves to its new bucket; while strings are being swept the table stays as it is. |
| Intern.StringTable.SweepStep | misc/luabash/lua/lgc.c:572-580 | Of the chain that is swept, exactly the dead strings that are not fixed are gone; the others have the new white and their contents; other chains stay. |
| Intern.DeadGoes | misc/luabash/lua/lgc.c:572-580 | Over every run: a string that is not fixed, unmarked when a sweep begins and not returned by luaS_newlstr since, is gone whenever no sweep is under way. |
| UpvalThread.Thread.FindUpval | misc/luabash/lua/lfunc.c:53-79 | The one upvalue of the slot, brought back if dead or new; the list stays strictly descending, and every other upvalue keeps its slot, its value and its mark. |
| UpvalThread.Thread.Close | misc/luabash/lua/lfunc.c:96-112 | Closes exactly the upvalues at or above the level and frees the dead ones among them; the others keep slot and mark, and what each visible upvalue shows is unchanged. |
| UpvalThread.Thread.ReallocStack | misc/luabash/lua/ldo.c:126-149 | Moving the stack keeps the value of every slot that both sizes have, and changes no value seen through an upvalue. |
| Undump.RoundTrip | misc/luabash/lua/lundump.c:191-205 | Dumping and undumping gives back the tree, with missing sources inherited; it is the same tree if and only if every prototype has a source name; stripped, exactly the debug information is gone. |
| Dump.DumpState.DumpChunk | misc/luabash/lua/ldump.c:153-164 | If the writer accepts every block, the output is the header and the encoded tree. |
| Undump.LoadState.LoadFunction | misc/luabash/lua/lundump.c:160-177 | Reads an encoded tree back from the front of any input and leaves the rest; whatever it reads, all functions of the tree have passed the code checker. |
| Undump.LoadState.UndumpChunk | misc/luabash/lua/lundump.c:179-205 | A chunk is loaded only if it starts with the header of this machine and the code checker accepts every function in it, however the rest came about. |
| DumpFormat.SampleBytes | misc/luabash/lua/ldump.c:80-141 | The format byte by byte: a function with one of everything, its counts, tags and low bytes first. |
| DumpFormat.LoadedSame | misc/luabash/lua/lundump.c:160-177 | The loaded tree equals the dumped one exactly if every prototype in it is named. |
| DumpFormat.LoadedStripped | misc/luabash/lua/ldump.c:111-141 | Without debug information the loaded tree is the dumped one minus lines, names and sources. |
| ExprParser.LexState.Expression | misc/luabash/lua/lparser.c:828-858 | A tree printed with the fewest parentheses and any others is read back as the same tree, exactly if it is within the nesting limit. |
| ExprPriority.ReadTwo | misc/luabash/lua/lparser.c:810-821 | `x o1 y o2 z` for all operators: y goes to o2 if that stands higher among or, and, comparisons, .., + -, * / %, ^, or if both are .. or both are ^, and to o1 otherwise. |
| ExprPriority.ReadGroups | misc/luabash/lua/lparser.c:670-677 | With parentheses the operators do not matter. |
| ExprPriority.ReadUnary | misc/luabash/lua/lparser.c:823-838 | A unary operator takes its operand from every binary operator but ^. |
| ExprPriority.ReadUnaryRight | misc/luabash/lua/lparser.c:828-838 | Behind any binary operator a unary one starts the right operand. |
| ExprMinimal.LeftNeeded | misc/luabash/lua/lparser.c:810-821 | Parentheses around a left operand of the outermost operator that does not fit are needed: without them the text is that of another tree. |
| ExprMinimal.RightNeeded | misc/luabash/lua/lparser.c:810-821 | The same for a right operand. |
| ExprMinimal.UnaryNeeded | misc/luabash/lua/lparser.c:823 | The same for the operand of a unary operator. |
| SemaphoreProtocol.NoLostWakeup | source/utility/Threads.cc:42-57 | In every interleaving of Up and Down, with spurious wake-ups: the value is never negative, one thread at most is inside, and if a thread waits with no signal owed and nobody woken the value is 0. |
| SemaphoreProtocol.ValueOfCalls | source/utility/Threads.cc:42-57 | In every run that ends with no thread inside a call, the value is the first one plus the calls of Up minus the calls of Down; before, only calls still under way make a difference. |
| SemaphoreProtocol.UpReturns | source/utility/Threads.cc:42-48 | Up with the mutex free raises the value by one, wakes one waiting thread, and returns. |
| SemaphoreProtocol.DownReturns | source/utility/Threads.cc:50-57 | At a positive value Down with the mutex free takes one and returns, just called or just woken; the others stay where they are. |
| SemaphoreProtocol.DownWaits | source/utility/Threads.cc:50-57 | At value 0 it waits and lets the mutex go. |
| SemaphoreProtocol.UpReleases | source/utility/Threads.cc:42-57 | A whole Up lets a waiting Down return, whatever the value was. |
| SemaphoreProtocol.NoDeadlock | source/utility/Threads.cc:50-57 | While a thread waits although the value is positive, some thread can take a step. |
| SemaphoreProtocol.StepKeeps | source/utility/Threads.cc:42-57 | Every atomic step keeps the invariant behind NoLostWakeup and NoDeadlock. |
| Sort.AuxSort | misc/luabash/lua/ltablib.c:184-245 | For every strict weak order the part ends sorted, a permutation, with nothing outside touched, and the recursion is at most logarithmically deep. |
| Sort.Partition | misc/luabash/lua/ltablib.c:207-230 | The two scans stay inside the part and split it around the pivot. |
| Quote.RoundTrip | misc/luabash/lua/llex.c:276-329 | Reading a quoted string gives the string back, exactly unless its newlines reach MAX_INT lines. |
| Quote.AddQuoted | misc/luabash/lua/lstrlib.c:695-722 | The quoted form, whatever was in the buffer before. |
| Quote.LexState.Escape | misc/luabash/lua/llex.c:288-320 | Every escape, not only those that addquoted writes: the seven letters give their control characters, a line break or a pair of them gives one newline and counts one line, digits go to Decimal, and any other character stands for itself. |
| Quote.LexState.Decimal | misc/luabash/lua/llex.c:307-316 | The number of up to three digits, refused above 255. |
| Md5Stream.SumPieces | misc/isomd5sum/md5.c:91-178 | However the message is cut into pieces, the digest is that of the padded message folded block by block, as sixteen bytes (sections 3.1 to 3.5 of RFC 1321), on machines of either byte order. |
| Md5Stream.Context.Update | misc/isomd5sum/md5.c:91-133 | The context stands for the message so far: chaining value, 64-bit length and the buffered remainder. |
| Md5Stream.Context.Final | misc/isomd5sum/md5.c:139-178 | The sixteen bytes of the digest, low byte of each word first on every machine, with one block of padding or two. |
| Md5.InitialBytes | misc/isomd5sum/md5.c:69-85 | The first chaining value is the sixteen bytes of section 3.3 of RFC 1321. |
| Md5.BlockBytes | misc/isomd5sum/md5.c:51-63 | Each of the sixteen words of a block is four bytes of it, low byte first. |
| Md5.PaddingLaw | misc/isomd5sum/md5.c:139-172 | The padding of sections 3.1 and 3.2 of RFC 1321, byte by byte: a one bit, fewer than a block of zero bits, and the number of bits of the message, low byte first, up to a whole block. |
| Dependency.PkgGraph.GetPriority | source/dependency.cc:45-67 | Ends on every graph; without a cycle the priority is the length of the longest chain of dependencies. |
| Dependency.HeightsExist | source/dependency.cc:45-67 | On a graph without cycles such lengths exist. |
| Dependency.Layout | source/dependency.cc:264-314 | No two overlapping arrows share a column; the number of columns is the greatest number of arrows crossing one row, and no layout has fewer. |
| Dependency.Optimal | source/dependency.cc:296-314 | Every layout in which overlapping arrows differ has at least as many columns as the greedy one. |
| Dependency.EveryArrow | source/dependency.cc:264-294 | With the rows sorted by priority, without cycles, every package comes behind all it depends on, and the arrow of each of these reaches its row. |

## Findings

Where the code does not do what one would expect of it, the model follows the code:

- `Quote.RoundTrip`: a quoted string with so many newlines that the line counter would reach `MAX_INT` is
  an error of the lexer (llex.c:127-135); the contract gives the exact condition.
- `Undump.RoundTrip`: a nested prototype without a source of its own comes back with its parent's
  (lundump.c:163-164), so the tree is the same exactly if all prototypes are named.
- A table weak in both keys and values keeps the key of an entry whose value is nil (lgc.c:158-196 returns
  before the loop that removes entries). Such a key may be freed while it stands there, so `Points` does not
  count keys of empty entries as references.
- `luaC_fullgc` while marking gives the marks up and sweeps with the old white, so that sweep frees nothing; what
  is dead goes in the cycle that the same call then runs from the start.
- `CodeRoute.DeliveredRight`: the always-jump arms of luaK_goiftrue and luaK_goiffalse (lcode.c:547-550, 575-578) call
  luaK_jump, which takes over the jumps that wait for the next instruction (lcode.c:59-66). A jump that carries a
  value then lands in a list that stands for a literal, and that value is delivered in place of the literal.
- `GcFirm.StrongHalfLost`, `GcFirm.FinalizedValueLost`: cleartable (lgc.c:365-371) drops a whole entry of a weak table
  for either half, so an object held only by the strong half goes with the other half, and a userdata finalized
  before is dropped as a value even of a table that is weak in its keys alone (lgc.c:343-344). What is never lost
  is stated by `Firm`.
- `CodeGen.FuncState.ExpThen`: an always-jump at the start of an expression catches jumps that waited from before, too;
  those that carry a value then put it into the register of this expression.
- `Md5.PaddingLaw`: the comment on MD5_Final calls the length "MSB-first" (md5.c:137); the code, like section 3.2 of
  RFC 1321, writes its low word and low byte first.
- `LuaTable.Table.Run`: below 2^26 keys with values the map theorem holds without any condition.

## Left out

- Collector: byte counts and thresholds (luaC_step, GCdebt), shrinking of the string table and the buffer
  (checkSizes; resizing the string table is an operation of its own), luaC_freeall, and bodies of finalizers.
- Collector: colours are a datatype beside the heap instead of bits in the objects; the bits for weak tables
  and finalized userdata are sets. "__mode" and "__gc" of a metatable are fields of the table.
- GcFinal.NeverForgotten: of a call of GCTM the model keeps that the userdata is pushed on the stack of the running
  thread, where it stays; the metamethod beside it and the call itself are left out.
- Collector: C local variables are a set of objects in hand; the collector runs when that set is empty.
- GcCollector.Collector.FullCollection: a string that a weak table refers to stays if the table is reached; that every
  such string is referred to still after clearing is not said. Fixed strings stay, as in the source.
- CodeGen.FuncState.ExpThen: constant folding, unary minus, string constants (which lcode.c treats like numbers) and
  the merging of adjacent LOADNIL instructions in luaK_nil. No condition on the expression alone is given that is
  both necessary and sufficient for the right value: which ways can be taken depends on the registers.
- CodeGen.FuncState.ConditionThen: lparser.c's cond, which turns a constant nil into false before luaK_goiftrue.
- CodeGen.FuncState.ExpThen: two free registers are demanded where the source raises "function or expression
  needs too many registers"; jump offsets and the constant table are unbounded where the source raises "control
  structure too long" and "constant table overflow"; comparisons are arbitrary functions of their operands.
- Tables: a node vector is a sequence of nodes; hash functions are arbitrary. After an overflow error nothing is
  said about the table. luaH_resizearray only grows.
- PatternText.TextRead: says nothing of texts that no legible items have, such as a set with a range
  up to `%`.
- Pattern matcher: the ctype tests are a parameter. On malformed patterns the matcher may report an error, but
  which one is not said. str_gsub and gmatch are left out.
- Strings: the hash is an arbitrary function; memory errors are left out.
- Upvalues: the list of all objects belongs to the collector's model.
- Chunks: numbers are opaque bytes; luaG_checkcode is an arbitrary predicate on prototypes; luac listings.
- ExprParser.LexState.Expression: simple expressions are opaque atoms, so what follows must not continue one: an
  open parenthesis behind the expression would be a call. The code generator is replaced by trees.
- Lexer: numerals, long strings, comments and the limit of the token buffer.
- Semaphore: creation of threads, and fairness of the mutex.
- Sort: comparison functions that are not strict weak orders, which the source answers with an error or garbage.
- ExprMinimal.LeftNeeded: says nothing about parentheses deeper inside, where the operators around the outermost one
  could take over an operand.
- MD5: MD5_Transform is an arbitrary function of chaining value and block.
- Dependency graph: reading the cache files, the warnings and the drawing itself; priorities on a cycle.
- lvm.c beyond the instructions that boolean expressions use, the C API, the base libraries, the luabash bindings.

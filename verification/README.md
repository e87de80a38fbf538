# Models of the embedded Lua, MD5 and the build scheduler

The project models the parts of the repository whose correctness is hardest to see: the Lua 5.1
that is built into `luabash` (its garbage collector, the code generator for expressions, tables,
the pattern matcher, and some smaller parts), the MD5 that is built into it as well, and the
parallel scheduler of `scripts/Build-Target`.

Code that changes state step by step is modelled by classes and methods with the same fields and
loops (`GcCollector.GlobalState`, `LuaFuncState.FuncState`, `TableObject.Table`,
`MatchState.MatchState`, `TableSort`, `LexState`, `Zio`, `DumpState`, `Registry`, `Context`,
`Scheduler`). Each method is proved against a function of the old state, or against a property
of the new one, and what these functions promise is proved in lemmas beside them.

- **Garbage collector** (`Gc*.dfy`). The state has the heap, the colours, the gray lists, the
  phase of `singlestep`, the string table and the ring of open upvalues. A run mixes what the
  program does (allocation, stores behind the barriers, captured slots, closed upvalues, a resized
  string table) with single steps and full collections in any order. `Inv` holds in every
  reachable state, and `GcKept.Preserves` says what a collection may take away.
- **Code generator** (`Lua*.dfy`). Expressions with constants, locals, arithmetic, comparisons,
  `not`, unary minus, `and` and `or` are compiled by functions that follow `lcode.c`, jump lists
  included, and run by a model of the machine. `LuaExit.ExitOf` says by which jump a run leaves
  the expression, and which value that jump carries, without looking at the code. The machine
  delivers exactly that for every expression, so the compiled code is right if and only if the
  exit has the value of the expression. It does not always have it: Lua 5.1.2 miscompiles some
  expressions with literals under `and` and `or`, and unary minus of a boolean literal.
  `LuaLiterals` has the inputs and the exact conditions.
- **Tables** (`Table*.dfy`). Array part and node part, with chained scatter in the node array and
  `lastfree`, growth, the border, and traversal.
- **Pattern matcher** (`Match*.dfy`). The backtracking matcher, against a declarative meaning of
  patterns with captures, back references, balanced matches and frontiers.
- **Smaller parts.** The quicksort of `table.sort` (`TableSort.dfy`), the operator parser
  (`ParserTree.dfy`), dump and undump of functions over a block stream (`Chunk*.dfy`), references
  (`References.dfy`), MD5 as it is fed (`Md5.dfy`), and the scheduler (`BuildTarget.dfy`).
  `Wrappers`, `Powers` and `Words` hold what these share.

`dafny verify dfyconfig.toml` checks the whole project.

Where the code falls short of what it is for, the model follows the code, and a lemma gives the
exact condition under which it is right: the two compiler errors above (`LuaStray`,
`LuaLiterals`), the fast path of `string.find` (`MatchFind.FastPathIsRight`), a missing source name
in a dumped chunk (`ChunkRoundTrip.RoundTrip`), and the carry in `MD5Update` (`Md5.CountIsRight`,
`Md5.PaddedRight`).

## Model

| member | source | states |
|---|---|---|
| GcProgram.RunsFromTheStart | misc/luabash/lua/lgc.c:556-659 | In the state after any run from a fresh state the invariant holds, all that the program holds is allocated and survives the next `singlestep`, and both that step and a full collection keep every strongly reachable object and the contents of all that is left; only weak tables lose entries, and only those with a non-string object that is not strongly reachable. A full collection leaves no other object that is not a string. |
| GcProgram.NoRunFreesWhatIsReachable | misc/luabash/lua/lgc.c:556-710 | Every run of program and collector steps keeps the invariant, and whatever the program holds at its end is live: in the heap, and not of a colour that the sweep will free. |
| GcKept.SingleStepPreserves | misc/luabash/lua/lgc.c:556-607 | One step of the collector, the atomic one with its clearing of weak tables included, removes no strongly reachable object and changes nothing but entries of weak tables whose key or value the program does not strongly hold. |
| GcKept.FullGcPreserves | misc/luabash/lua/lgc.c:636-659 | The same for a whole `luaC_fullgc`, in whatever phase it starts. |
| GcKept.FullGcExact | misc/luabash/lua/lgc.c:636-659 | In terms of the state in which `luaC_fullgc` is called, in any phase: of all objects but strings it leaves exactly the strongly reachable ones; a string that is left is strongly reachable, fixed, or in a strongly reachable weak table. |
| GcKept.FullGcLeavesReachable | misc/luabash/lua/lgc.c:636-659 | Without weak tables every object that a full collection leaves is fixed, or reachable from the roots in the final state itself. |
| GcFull.FullGcComplete | misc/luabash/lua/lgc.c:636-659 | A full collection leaves only what was strongly reachable when its mark phase began, fixed objects, and strings in weak tables that were strongly reachable then: a weak reference keeps nothing else. |
| GcFull.AbortedMarkFreesNothing | misc/luabash/lua/lgc.c:636-648 | The sweep that a full collection makes after it has given up a mark phase frees nothing at all. |
| GcFull.RunUntilSteps | misc/luabash/lua/lgc.c:648-657 | The loops of `luaC_fullgc` end: each step makes a measure smaller until the wanted phase is reached. |
| GcBarrier.BarrierAsserts | misc/luabash/lua/lgc.c:662-683 | What the two barriers assert on entry (nothing dead, neither pausing nor finalizing, no thread and no open upvalue) holds wherever a live black object is given a live white one. |
| GcUpval.FindUpvalShared | misc/luabash/lua/lfunc.c:53-79 | `luaF_findupval` gives a live open upvalue for the slot, found or new, and it is the only one for that slot, so two captures of one slot share one cell; this holds in the middle of a collection. |
| GcCloseFrom.CloseFromKeeps | misc/luabash/lua/lfunc.c:96-112 | `luaF_close` keeps the invariant, and leaves no upvalue of the thread open at or above the level. |
| GcCloseFrom.ClosingChangesNoValue | misc/luabash/lua/lfunc.c:96-112 | No live object sees any difference: it holds the same values, references and numbers alike, as before its upvalues were closed. |
| GcAlloc.NewStringCanonical | misc/luabash/lua/lstring.c:50-93 | `luaS_newlstr` gives a live string with the wanted text, and no other string in the heap has it, even if the one found was about to be swept; a new object is made exactly when there was none. |
| GcAlloc.ResizeKeeps | misc/luabash/lua/lstring.c:22-47 | Rehashing the string table keeps the invariant, so that every string is still in the bucket of its hash. |
| GcCollector.GlobalState.Step | misc/luabash/lua/lgc.c:556-607 | The in-place `singlestep`, with its loops over gray list, buckets and sweep position, makes of the state what the function `SingleStep` makes of it, for which the results above are proved. |
| GcCollector.GlobalState.FullCollection | misc/luabash/lua/lgc.c:636-659 | The in-place `luaC_fullgc` makes the state `FullGc` of the old one. |
| GcCollector.GlobalState.Barrier | misc/luabash/lua/lgc.c:662-672 | The forward barrier changes marks and gray list only, as `BarrierForward` does. |
| GcCollector.GlobalState.TableBarrier | misc/luabash/lua/lgc.c:675-683 | The backward barrier changes the mark of the table and the list for the atomic step only. |
| GcCollector.GlobalState.NewString | misc/luabash/lua/lstring.c:75-93 | The in-place search in the bucket, with the change of white for a dead string, and the insertion of a new one, are `GcAlloc.NewString`. |
| GcCollector.GlobalState.ResizeStringTable | misc/luabash/lua/lstring.c:22-47 | Moving string by string to the front of the new buckets gives the table of `GcAlloc.ResizeStrings`, in the same order. |
| GcCollector.GlobalState.FindUpval | misc/luabash/lua/lfunc.c:53-79 | The walk along the sorted list of open upvalues, and the insertion into it and into the ring, are `GcUpval.FindUpval`. |
| GcCollector.GlobalState.CloseUpvals | misc/luabash/lua/lfunc.c:96-112 | The loop of `luaF_close`, which frees dead upvalues and closes the others one by one, is `GcCloseFrom.CloseFrom`. |
| LuaCompile.CompileExact | misc/luabash/lua/lcode.c:390-790 | For every expression, entered at its start or by a jump that waits for it, with any registers, the emitted code falls through, leaves by a jump of the `true` or the `false` list, or fails, just as `LuaExit.ExitOf` says, with the value it says, and with all registers below unchanged. |
| LuaTheorem.ExpressionsAreCompiledCorrectly | misc/luabash/lua/lcode.c:390-694 | In the code of any expression, put into the next register and followed by any instruction, the machine stops at that instruction with exactly the value of the exit in that register and all lower registers unchanged; hence it delivers the value of the expression if and only if the exit has that value. |
| LuaTheorem.AssignmentsAreCompiledCorrectly | misc/luabash/lua/lcode.c:472-477 | The same for an assignment to a local: it gets the value, even if the expression uses it, and no other local changes. |
| LuaTheorem.YieldsOnce | misc/luabash/lua/lvm.c:375-583 | The machine is deterministic: from one entry the code leaves one value only, so that the equivalence above can be used in both directions. |
| LuaStray.TruthIsKept | misc/luabash/lua/lcode.c:539-591 | Where no operand loses its value (`NoneLost`: the operands of arithmetic, comparisons and minus that a run comes to are not left by a stray jump with a wrong value, and minus can name its operand), the exit of any expression takes the branch of its value, and carries the value too unless it is a stray jump: one with a value, merged into the list of the unconditional jump that stands for a literal. |
| LuaStray.WrongOnlyWhenStray | misc/luabash/lua/lcode.c:59-66 | Under the same condition the value is right if and only if the run does not leave by a stray jump that carries another value than the literal it stands for (`ValueKept`). |
| LuaStray.WrongOnMachineOnlyWhenStray | misc/luabash/lua/lcode.c:59-66 | The same on the machine: the emitted code delivers the value of the expression if and only if `ValueKept`. |
| LuaStray.OperandsRightOnlyWhenNoneLost | misc/luabash/lua/lcode.c:661-694 | The condition is exact: all operands that a run comes to have their values if and only if none of them is left by such a jump and minus can name its operands. |
| LuaStray.ConditionsAreCompiledCorrectly | misc/luabash/lua/lcode.c:539-591 | As a condition the expression always takes the right branch where no operand loses its value, whatever its own jumps carry: `luaK_goiftrue` and `luaK_goiffalse` go on or leave by the truth of the value, and fail when it does. |
| LuaClean.CleanIsRight | misc/luabash/lua/lcode.c:539-591 | Where no jump with a value waits when a literal jumps, and minus meets no boolean literal, the expression is right for all registers. |
| LuaClean.PlainIsClean | misc/luabash/lua/lcode.c:539-591 | That is so for every expression where no left operand of `and` or `or`, and no operand of minus, may come out as a literal `true` or `false`, which can be seen from the expression alone. |
| LuaLiterals.LiteralsGoWrong | misc/luabash/lua/lcode.c:59-66 | `((1 or false) and true) or false` is `true`, but the code leaves 1, wherever it is compiled and whatever the registers hold. |
| LuaLiterals.NotRepairs | misc/luabash/lua/lcode.c:594-626 | The machine leaves the right value for `not` of that expression, for all registers, though it is not clean, since `removevalues` takes the value off the merged jump. |
| LuaLiterals.TruthGoesWrong | misc/luabash/lua/lcode.c:567-591 | `((x and false) or true) or y` is `true`, but the machine leaves `x` when `x` is false or nil: it is right if and only if `x` is true, so that even the truth of a delivered value can be wrong. |
| LuaLiterals.BranchGoesWrong | misc/luabash/lua/lcode.c:681-694 | The comparison of that expression with `true` comes out wrong on the machine, again exactly when `x` is false or nil, and with it any branch taken on it. |
| LuaLiterals.StartGoesWrong | misc/luabash/lua/lcode.c:539-564 | For `false and b`, entered by a waiting jump with a value, the machine leaves that value: it is right if and only if the jump carries nothing or `false`. |
| LuaLiterals.MinusGoesWrong | misc/luabash/lua/lcode.c:697-715 | Minus of a boolean literal that fits a constant operand works on a register past those of the function, and the machine leaves minus of what that register holds; it is right exactly when that is minus of the literal, and always when there are too many constants. |
| LuaArith.FreedInOrder | misc/luabash/lua/lcode.c:661-678 | `codearith` frees its two operands in the order in which `freereg` asserts that they lie on the stack, and gives back all registers of the operands. |
| LuaLists.CompileGoes | misc/luabash/lua/lcode.c:100-191 | For every expression, literals and all, the jump lists hold distinct jumps, share none, and have only jumps that still wait; the open jumps afterwards are exactly those of the expressions around and the ones on the lists, so none is lost. |
| LuaFuncState.FuncState.Concat | misc/luabash/lua/lcode.c:185-196 | Two lists that are threaded through the jump fields of the code become one, the first before the second, and no other instruction changes. |
| LuaFuncState.FuncState.PatchListAux | misc/luabash/lua/lcode.c:150-160 | Walking along a threaded list while its links are overwritten sends every jump of it, and no other, to the target for jumps with or without a value. |
| LuaFuncState.FuncState.CompileToNext | misc/luabash/lua/lcode.c:414-419 | The in-place compiler, whose lists are links in the code array, emits what the functions emit; jumps that waited for other expressions still wait, and no others; when there are none, the code is the same to the last field. |
| LuaFuncState.CompileFunction | misc/luabash/lua/lcode.c:390-419 | Compiling from nothing leaves no open jump and no link in the code, which yields the exit of the expression for all registers, and so its value exactly where the exit is right, for clean expressions everywhere. |
| TableNodes.TakenKeeps | misc/luabash/lua/ltable.c:399-429 | A new key in its free main position keeps the chained scatter: each key in the chain of its main position, no chain with a cycle, no key twice. |
| TableNodes.ChainedKeeps | misc/luabash/lua/ltable.c:413-428 | So does a key that goes to a free node because its main position is taken by rights. |
| TableNodes.MovedKeeps | misc/luabash/lua/ltable.c:404-412 | So does moving a colliding node away from a main position that is not its own; every other key keeps its value. |
| TableSizes.ComputedIsBest | misc/luabash/lua/ltable.c:189-208 | What `computesizes` finds is the largest power of two (up to 2^26) such that more than half of the indices up to it are in use, the new key counted, and the number in use. |
| TableObject.ComputeSizes | misc/luabash/lua/ltable.c:189-208 | The loop over the slices, with its early exit, finds that size. |
| TableObject.Table.Get | misc/luabash/lua/ltable.c:469-491 | Reading gives the value of the key in the map that the table stands for, be it in the array or in a chain. |
| TableObject.Table.Put | misc/luabash/lua/ltable.c:494-505 | Storing updates that map at one key, whatever collision, growth or shrinking it takes; nil and NaN are refused and change nothing; the only other error needs 2^26 entries. |
| TableObject.Table.NewKey | misc/luabash/lua/ltable.c:399-429 | Inserting a key gives it a slot and changes no value; after a rehash there is room, so that the code does not rehash twice. |
| TableObject.Table.Rehash | misc/luabash/lua/ltable.c:333-350 | The table is resized to the best array size for its keys with the new one, keeps all values, and has a place for the new key. |
| TableObject.Table.Resize | misc/luabash/lua/ltable.c:297-324 | Whether the array grows or shrinks, no value is lost and none added, and reinserting needs no rehash on the way; it fails only for a node part beyond 2^26. |
| TableObject.Table.GetN | misc/luabash/lua/ltable.c:532-579 | `luaH_getn` finds a border: 0 with no value at 1, or an index with a value, and none after it. |
| TableObject.Table.Next | misc/luabash/lua/ltable.c:137-179 | `next` fails exactly for a key without a slot, and otherwise gives the first entry with a value after the position of the key, or the end. |
| TableRuns.Execute | misc/luabash/lua/ltable.c:297-579 | A table answers any sequence of reads, stores, length queries and resizings as a map does, and nothing fails for lack of room while old entries and operations are 2^26 at most. |
| TableRuns.Traverse | misc/luabash/lua/ltable.c:137-179 | A whole traversal, while the caller assigns to or clears existing fields, meets no key twice, only keys of the table, and every key whose field is never cleared. |
| MatchMeaning.MatchesExactly | misc/luabash/lua/lstrlib.c:364-439 | On a well-formed pattern the matcher raises no error, succeeds if and only if there is a match in the declarative sense, and its end and captures are those of the best match: repetitions longest first, or shortest for `-`, in order from the left. |
| MatchMeaning.RunDecides | misc/luabash/lua/lstrlib.c:280-439 | The same inside a pattern, with captures open and closed already. |
| MatchMeaning.BestUnique | misc/luabash/lua/lstrlib.c:300-325 | There is one best match at most, end and captures alike. |
| MatchState.MatchState.Match | misc/luabash/lua/lstrlib.c:364-439 | The in-place matcher, which changes the capture array and takes changes back when it backtracks, returns what the function `Run` returns, with the captures left in the array on success. |
| MatchFind.MemFind | misc/luabash/lua/lstrlib.c:443-462 | The plain search, which jumps with `memchr` and compares the rest, finds the first occurrence or says that there is none. |
| MatchFind.FindAux | misc/luabash/lua/lstrlib.c:494-534 | `find` and `match` return the leftmost place from the start position with a match and, for a well-formed pattern, the best match there; a plain search, the first occurrence; an anchor tries one place only. |
| MatchFind.FoundIsBest | misc/luabash/lua/lstrlib.c:514-529 | For a well-formed pattern the first success of the loop over places is the leftmost match in the declarative sense; the only error left is a capture that is never closed. |
| MatchFind.FastPathIsRight | misc/luabash/lua/lstrlib.c:500-505 | Taking a pattern without specials for plain text agrees with matching it if and only if it has no `)` and no NUL, which the list of specials forgets. |
| TableSort.AuxSort | misc/luabash/lua/ltablib.c:184-245 | For an order that is strict weak among the elements, the range comes out sorted and a permutation, nothing outside it moves, no index leaves it, and the recursion is logarithmic in its size. |
| TableSort.Sort | misc/luabash/lua/ltablib.c:247-257 | The whole array comes out a sorted permutation, with calls nested to log2(n + 1) at most, if the order is strict weak among the elements of the array, as `<` is among numbers that are not NaN; it may do anything on others. |
| ParserTree.ParsesExactly | misc/luabash/lua/lparser.c:810-853 | The parser accepts exactly the token sequences of trees that obey priorities and associativity, and builds exactly that tree. |
| ParserTree.OneTree | misc/luabash/lua/lparser.c:810-822 | The priority table leaves no ambiguity: no two such trees have the same tokens. |
| ParserTree.PrintAndParse | misc/luabash/lua/lparser.c:810-853 | An expression that is printed with parentheses only where priorities ask for them is read back as the same expression. |
| ParserTree.FewestParentheses | misc/luabash/lua/lparser.c:810-822 | No other way to write the expression so that it is read back takes fewer tokens. |
| ParserTree.LexState.Subexpr | misc/luabash/lua/lparser.c:828-853 | The loop of `subexpr`, which consumes tokens in place, returns the tree and leaves the rest of the tokens as the parsing function does. |
| ChunkRoundTrip.UndumpDump | misc/luabash/lua/lundump.c:160-177 | Loading a dumped function gives the function with its nested ones, less what was stripped, and with the source name of the parent where it was omitted. |
| ChunkRoundTrip.RoundTrip | misc/luabash/lua/ldump.c:129-141 | Dump and load give the same function back if and only if no source name is missing where the loader would fill one in. |
| ChunkStream.LoadBlocks | misc/luabash/lua/lundump.c:191-205 | The in-place loader gives that result however the dumped bytes are cut into non-empty blocks. |
| ChunkStream.Zio.Read | misc/luabash/lua/lzio.c:58-72 | Reading across block borders takes the next bytes in order, or all that are left, and says how many are missing. |
| ChunkWriter.DumpState.Dump | misc/luabash/lua/ldump.c:153-164 | Whatever the writer answers, a prefix of the chunk has been written, and the whole chunk when the status is 0. |
| References.Registry.Ref | misc/luabash/lua/lauxlib.c:481-501 | A reference is positive and was not in use, and the value is kept under it; nil gets a reference of its own; below 2^26 entries it does not fail. |
| References.Registry.Unref | misc/luabash/lua/lauxlib.c:504-512 | Any reference is linked in at the head of the free list; releasing one in use leaves the others as they are; a negative one is ignored. |
| References.ReleasedRight | misc/luabash/lua/lauxlib.c:504-512 | Of the references that have been given out, exactly those in use may be released: after a second release the free list runs in a circle, and no set of references in use fits the table. |
| Md5.CountIsRight | misc/luabash/md5/md5.c:180-183 | The two-word bit count grows by eight times the bytes if and only if `size_t` has 32 bits, or the update has fewer than 2^29 bytes, or the low word does carry. |
| Md5.PaddedRight | misc/luabash/md5/md5.c:206-226 | With carries too many in the count, what is hashed is the padded message of RFC 1321 if and only if their number is a multiple of 2^32. |
| Md5.LargeUpdateGoesWrong | misc/luabash/md5/md5.c:180-183 | One update with 2^29 bytes and a wide `size_t` is hashed with a length that is wrong. |
| Md5.Context.Update | misc/luabash/md5/md5.c:172-202 | Whatever the buffer holds, state, buffer and low count afterwards are those of the longer message, and the high count has one carry too many exactly where `Excess` says so. |
| Md5.Context.Final | misc/luabash/md5/md5.c:205-231 | The digest is the one of sections 3.1 to 3.5 of RFC 1321 for all the bytes fed, but for the carries in the length. |
| Md5.DigestParts | misc/luabash/md5/md5.c:172-231 | How a message is cut into updates does not matter to its digest, save for updates of 2^29 bytes or more with a wide `size_t`. |
| BuildTarget.Scheduler.PkgLoopParallel | scripts/Build-Target:256-349 | For any order in which processes end, and any statuses, the loop ends with every target done, or after a failure with some target failed, and its log of starts and ends is a legal run. |
| BuildTarget.JobsBounded | scripts/Build-Target:289-298 | At no moment of a legal run do more targets run than there are job slots. |
| BuildTarget.StartedOnce | scripts/Build-Target:219-232 | No target is started twice. |
| BuildTarget.NeedsFirst | scripts/Build-Target:200-209 | A target is started after all that it needs in this stage is done, unless it was forced to break a cycle. |

## Left out

- Garbage collector: finalizers (`GCTM`, `luaC_separateudata`), the pacing of `luaC_step` (steps
  come at any moment instead), the sizes of stacks and string table as a trigger, and the order in
  which entries of one table are marked.
- Tables of the collector have one list of entries, with array and node part not told apart. A
  dead key is nil, and traversing a table does not drop the keys of empty entries, so that they
  are held until the program drops them.
- Global, upvalue, table and call expressions, concatenation, length, varargs and statements are
  not compiled; nor is the literal `nil`, whose `luaK_nil` rewrites an earlier instruction.
- The machine has unbounded registers and jump offsets, and metamethods are parameters; `NO_REG`
  is -1.
- LuaTheorem.ExpressionsAreCompiledCorrectly: where a minus meets a boolean literal, it is for
  expressions that need no more than the 250 registers that `luaK_checkstack` allows, beyond which
  the source gives an error.
- Line numbers and `lasttarget` of the code generator.
- Tables: memory errors, and the state after a "table overflow" error; the hash of a non-integer
  number, a string or an object is any function of the key.
- Matcher: `gmatch`, `gsub` and `format`; character classes are those of the C locale; for a
  malformed pattern the class agrees with the function about the error, and the meaning says
  nothing.
- TableSort.AuxSort: does not model an order function that is not a strict weak order among the
  elements, for which the manual promises nothing, and the code may raise "invalid order
  function", take in what stands next to the array, or not end.
- ParserTree.LexState.Subexpr: has no limit on nesting (`LUAI_MAXCCALLS`); operands are single
  tokens.
- ChunkRoundTrip.UndumpDump: the check of loaded code is a parameter, sizes are those that fit an
  `int`, and memory errors are left out.
- References.Registry.Unref: says what becomes of the table for a number that was never given
  out, but not what later references are then.
- Md5.Context.Update: is for fewer than 2^31 bytes at once, the range of its `int` index; the
  transformation of one block is a parameter.
- BuildTarget.Scheduler.PkgLoopParallel: processes and signals are a nondeterministic environment;
  removing a name from a list of names is by whole words, where the script cuts a substring
  between blanks.

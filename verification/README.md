# BinRec, verified

A Dafny model of the algorithms inside BinRec, which lifts recorded x86 traces to LLVM IR, with
proofs that they do what the lifter relies on. `dafny verify dfyconfig.toml` checks everything.
The model covers:

* **Registers become locals** (`Registers`, `Ir`, `MustDefs`, `DefSweep`, `MustSound`, `MustExact`,
  `Liveness`, `LiveWalks`, `LivenessLoop`, `GlobalRun`, `Convention`, `Rewrite`, `Simulation`,
  `Preservation`, `LocalRegs`, `Pass`, `CallLimits`). The interprocedural analysis of which emulated
  registers every function must or may store, takes and gives back, with its nested loops; and the
  rewriting of global registers into locals, parameters and results. The main results:
  must-definitions are sound on every walk, and exact where there are neither loops nor recursion,
  may-definitions are exact, the loops end at the least solution in whatever order blocks are taken,
  that solution has exactly the registers some route through the module needs, and the rewritten
  program ends like the old one on every run, with every local that is not a parameter starting at any
  value, unless a call is erased or crosses between the two kinds of code.
* **Control flow** (`Untangle`, `UntangleRun`, `Overlaps`, `OverlapMerge`, `OverlapFix`, `PcJumps`,
  `PcJumpsRun`). An interpreter loop cloned once per virtual program counter, chains of overlapping
  blocks split and joined, and dispatcher round trips turned into switches: each refines the program
  it came from, and each says exactly when an error block is reached.
* **Tracing** (`TraceInfo`, `TraceMerge`, `LogSpec`, `FunctionLog`, `LogProps`, `LogHistory`). The
  event handlers of the tracing plugin over a call stack, relations and per-state snapshots; deep copies of the
  shared record; merging of any number of traces. The results are about every run of events.
* **Smaller cores** (`TailCalls`, `Unflatten`, `UnflattenCut`, `Text`, `SigSplit`, `SigDb`, and
  `Options` for missing values). The walk that finds
  which function a block reached through a tail call belongs to, the descent from a byte offset to
  a member path, the splitter of C signatures, and the signature database from the debugger's
  output to the lifter's map.

A function is a list of blocks, a block a list of loads, stores, calls and other steps, a register
file a function from the twelve registers to integers. Runs are functions of a fuel. What loops in
the source loops here, in methods proved against specification functions; the plugin, the trace
record, the untangler and the tail-call walk are classes whose fields their methods update. Ghost
parameters and results only name what a proof needs. Sets that the source visits in an order of
addresses or hashes are visited in any order.

## What the proofs found

* A call's result can be stored to a local that does not exist: arguments get a missing local, results
  do not (global_env_to_alloca.cpp:502-524). `LocalRegs.ResultWithoutLocal` shows a module of three
  functions for which it depends on the order of the calls; `LocalRegs.EveryOrderFinds` says exactly for
  which modules no order misses a local, and `Pass.GlobalEnvToAlloca` fails exactly when its order does.
* A function outside the lifted code that calls a recovered one loses the call, with nothing in its
  place (global_env_to_alloca.cpp:490-494, 529-532), and one that a recovered function calls sees the
  globals, not its caller's locals. `CallLimits` shows both. `Simulation.CallsOk` is the guard: runs are
  preserved when no such call is below a function, where a call from locals to globals counts only if
  the callee takes a register in or gives one back. The guard is not necessary: an erased call may have
  had no effect.
* In the two error modes the error block returns, so the loop over the blocks can give it a switch of
  its own, for the block its first predecessor belongs to (pc_jumps.cpp:157-212). A run that enters it
  then silently goes on at one of that block's successors, or stays there for ever.
  `PcJumpsRun.ErrorReturns` says exactly when, `PcJumpsRun.ErrorBlockResumes` and
  `PcJumpsRun.ErrorBlockLoops` show two runs.
* A register stored before a loop that does not store it is not must-defined behind the loop, since the
  must-definitions start from the blocks' own and grow: `MustExact.MustDefinedExactly` says which are
  found, and `MustExact.LoopForgets` is an instance.
* An offset into the padding behind an array can be accepted as an element past its end;
  `Unflatten.AcceptedInBoundsIff` says exactly when an accepted path is in bounds, and
  `Unflatten.PaddingAccepted` is an instance.
* A size of 2^64 or more in the signature database ends the reading or fails it;
  `SigDb.ComeBackIff` says that nothing else does, and `SigDb.FirstBad` which of the two it is.
* The splitter never looks at the first character, so a signature without a return type is not split
  as printed: `SigSplit.RoundTrip` holds exactly when there is a return type.

## Model

| member | source | states |
|---|---|---|
| `MustDefs.GetMustDefs` | binrec_lift/src/lifting/global_env_to_alloca.cpp:76-112 | the nested loops end, and yield the registers that the least table closed under the predecessors' meets gives every return block |
| `MustDefs.MustDefinedMonotone` | binrec_lift/src/lifting/global_env_to_alloca.cpp:76-112 | more definitions in the blocks never lose a must-definition, which is why the sweep over recursive functions only grows |
| `DefSweep.AbsorbCallees` | binrec_lift/src/lifting/global_env_to_alloca.cpp:165-173 | every block gains exactly the must-definitions of the functions it calls, the function all their may-definitions, and nothing else changes |
| `DefSweep.ComponentStores` | binrec_lift/src/lifting/global_env_to_alloca.cpp:154-194 | a set that holds all a component's own stores and those below the functions it calls outside holds everything a path of calls from it can store |
| `DefSweep.Visit` | binrec_lift/src/lifting/global_env_to_alloca.cpp:159-182 | one function's turn keeps every definition sound, only adds must-definitions, and changes nothing once all is settled |
| `DefSweep.SweepScc` | binrec_lift/src/lifting/global_env_to_alloca.cpp:151-194 | a component whose callees are settled is settled by its loop: may-definitions exact, must-definitions at a fixpoint, all other functions untouched |
| `DefSweep.ComponentSettled` | binrec_lift/src/lifting/global_env_to_alloca.cpp:185-193 | sharing the collected set over a component makes it exactly what each member's reachable functions store |
| `DefSweep.Sweep` | binrec_lift/src/lifting/global_env_to_alloca.cpp:151-194 | one bottom-up sweep leaves every function below the root with may-definitions equal to the stores reachable from it, and a second sweep changes nothing |
| `MustSound.MustDefStored` | binrec_lift/src/lifting/global_env_to_alloca.cpp:76-112 | a must-defined register is stored on every walk from the entry to a return, through loops and mutually recursive calls |
| `MustExact.MustDefinedExactly` | binrec_lift/src/lifting/global_env_to_alloca.cpp:76-112 | in one function, a register is must-defined exactly if it is defined on every walk into a return from a block without predecessors, and on all walks that are long enough, so not if a loop can be gone round without defining it |
| `MustExact.LoopForgets` | binrec_lift/src/lifting/global_env_to_alloca.cpp:79-99 | a function that stores a register and then enters a loop does not count as defining it |
| `MustExact.MustDefIffStored` | binrec_lift/src/lifting/global_env_to_alloca.cpp:151-194 | where there are neither loops nor recursion, exactly if every walk through the function and its callees stores it |
| `LivenessLoop.Transfer` | binrec_lift/src/lifting/global_env_to_alloca.cpp:218-260 | the backward pass over a block computes what is live at its start, and raises the callees' outputs to what every call in it needs, no further than any solution, and by no register the callee cannot define |
| `LivenessLoop.Step` | binrec_lift/src/lifting/global_env_to_alloca.cpp:214-267 | taking any block from the work list keeps the tables below every solution, and the blocks it does not affect stay solved |
| `LivenessLoop.SolveFunction` | binrec_lift/src/lifting/global_env_to_alloca.cpp:207-267 | the work list empties, whatever order blocks are taken in, and all blocks are solved unless an output grew |
| `LivenessLoop.Round` | binrec_lift/src/lifting/global_env_to_alloca.cpp:197-275 | a round over the functions that reports no change has solved the equations of all of them |
| `LivenessLoop.Rounds` | binrec_lift/src/lifting/global_env_to_alloca.cpp:196-280 | the rounds end, by the bits not yet set, in a solution below every solution |
| `LivenessLoop.GetInputOutputRegs` | binrec_lift/src/lifting/global_env_to_alloca.cpp:114-290 | the outer loop ends with settled definitions and the least solution of the liveness, input and output equations of the functions listed, which has exactly the registers needed on some route, and outputs only what the function or one below it may store or must define; and with the registers each function gets locals for |
| `LivenessLoop.LeastIsExact` | binrec_lift/src/lifting/global_env_to_alloca.cpp:196-281 | the least solution solves the equations with equality |
| `LiveWalks.LiveExactly` | binrec_lift/src/lifting/global_env_to_alloca.cpp:196-281 | without the equations: a register is live at a block, or an input, exactly if a route from there, along branches, into callees and back behind call sites, leads to a load of it with no store of it and no call that must define it on the way; an output exactly if such a route starts behind a call of the function, which may or must define it |
| `LiveWalks.InputsByWalks` | binrec_lift/src/lifting/global_env_to_alloca.cpp:207-267 | one function at a time: exactly if a walk from the entry meets a load of it, a call that takes it or a return that gives it back before any definition |
| `LiveWalks.OutsStored` | binrec_lift/src/lifting/global_env_to_alloca.cpp:243-258 | no function gives back a register that neither it nor one below it may store, unless it must define it |
| `Convention.NameOrder` | binrec_lift/src/lifting/global_env_to_alloca.cpp:302-327 | comparing weights and then names puts the registers in one fixed order |
| `Convention.SortedLists` | binrec_lift/src/lifting/global_env_to_alloca.cpp:345-358 | a function's parameters list its inputs, each once, strictly in that order |
| `Convention.SortedUnique` | binrec_lift/src/lifting/global_env_to_alloca.cpp:320-358 | there is only one such list, so callers and callees agree on it however it was sorted |
| `Convention.FirstThree` | binrec_lift/src/lifting/global_env_to_alloca.cpp:302-327 | stack pointer, accumulator and EDX come first, and the others by their names |
| `Convention.AllInOrder` | binrec_lift/src/lifting/global_env_to_alloca.cpp:302-327 | the order of all twelve, written out |
| `GlobalRun.RunKeeps` | binrec_lift/src/lifting/global_env_to_alloca.cpp:126-138 | a run leaves alone every register outside a set that covers the stores below the function run |
| `Simulation.EntryAgrees` | binrec_lift/src/lifting/global_env_to_alloca.cpp:377-389 | with its inputs passed as arguments a function starts agreeing with the globals on all it may read, whatever its other locals hold |
| `Simulation.ReturnMatches` | binrec_lift/src/lifting/global_env_to_alloca.cpp:392-398 | a function that agrees on its outputs hands them back in order |
| `Simulation.SimulateCall` | binrec_lift/src/lifting/global_env_to_alloca.cpp:480-527 | a rewritten call ends like the old one and leaves locals and globals agreeing on every register live after it |
| `Simulation.Simulate` | binrec_lift/src/lifting/global_env_to_alloca.cpp:360-438 | from any point where locals agree with the old globals on the live registers, the rewritten run ends like the old one, through loops and recursive calls |
| `Preservation.SolutionFits` | binrec_lift/src/lifting/global_env_to_alloca.cpp:196-281 | any solution of the equations gives live sets that fit at every program point of functions whose calls neither are erased nor cross from locals to globals |
| `Preservation.GlobalsKept` | binrec_lift/src/lifting/global_env_to_alloca.cpp:404-418 | recovered functions that call only each other never change a global |
| `Preservation.Preserved` | binrec_lift/src/lifting/global_env_to_alloca.cpp:360-527 | for any solution, a function below the root gives its old outputs and memory on every run, and ends, gets stuck or runs on exactly when it did, unless a call below it is erased or crosses from locals to globals registers that matter |
| `CallLimits.ErasedCall` | binrec_lift/src/lifting/global_env_to_alloca.cpp:490-494 | a function outside the lifted code whose call of a recovered one is erased no longer has its effect on memory |
| `CallLimits.StaleGlobal` | binrec_lift/src/lifting/global_env_to_alloca.cpp:404-418 | a function outside the lifted code that reads a register its recovered caller stored sees the value from before |
| `Pass.UpdateSignature` | binrec_lift/src/lifting/global_env_to_alloca.cpp:360-438 | the new function takes the sorted inputs, gives the sorted outputs, and accesses locals where the old one accessed globals, at the same places |
| `Pass.RewriteSite` | binrec_lift/src/lifting/global_env_to_alloca.cpp:497-524 | one call passes its callee's inputs and stores its callee's outputs, and nothing else in the module changes |
| `Pass.RewriteSites` | binrec_lift/src/lifting/global_env_to_alloca.cpp:480-527 | the loop over the calls fails exactly when, in this order, a result's local is missing; otherwise all are rewritten and every argument and result has a local |
| `Pass.EraseCalls` | binrec_lift/src/lifting/global_env_to_alloca.cpp:529-532 | the calls left over, in functions without locals, have nothing in their place, and the module is the rewritten one |
| `Pass.AllHave` | binrec_lift/src/lifting/global_env_to_alloca.cpp:366-398 | every local that a rewritten function accesses exists |
| `Pass.LocalsExactly` | binrec_lift/src/lifting/global_env_to_alloca.cpp:441-524 | and no other: a recovered function ends with locals for its inputs, outputs and what its instructions access or pass on, a wrapper with all, any other function with none |
| `Pass.GlobalEnvToAlloca` | binrec_lift/src/lifting/global_env_to_alloca.cpp:441-542 | analysis and rewriting together: the pass fails exactly when a result's local is missing in the order taken; otherwise exactly the locals needed exist, inputs and outputs are exactly what is needed, and every run is preserved of every function below the root whose calls, at any depth, allow it |
| `LocalRegs.FoundExactly` | binrec_lift/src/lifting/global_env_to_alloca.cpp:502-524 | in a given order every result's local is found exactly when its caller uses the register or has taken it as an argument by then |
| `LocalRegs.EveryOrderFinds` | binrec_lift/src/lifting/global_env_to_alloca.cpp:480-527 | no order of a module's callees and their calls misses a local exactly when each call's results are used by its caller, which a wrapper always does, or taken by its callee |
| `LocalRegs.ResultWithoutLocal` | binrec_lift/src/lifting/global_env_to_alloca.cpp:283-287 | a module for whose least solution one order of its two calls misses a local and the other does not |
| `Untangle.ReadTraceFiles` | binrec_lift/src/untangle_interpreter.cpp:61-104 | succeeds exactly on non-empty files with one common start, with the first counter, the pairs of counters that follow each other in some file, and the last counters; otherwise names a file that is to blame |
| `Untangle.Untangler.GetOrCreatePair` | binrec_lift/src/untangle_interpreter.cpp:124-160 | a counter seen before keeps its clone, a new one gets a clone whose switch has no case and leads to the error block |
| `Untangle.Untangler.AddEdge` | binrec_lift/src/untangle_interpreter.cpp:200-208 | a further edge adds one case to its source's switch, and the clones stay connected by exactly the edges done |
| `Untangle.Untangler.AddExit` | binrec_lift/src/untangle_interpreter.cpp:212-216 | a further exit makes its clone go on in the original loop, and no other |
| `Untangle.Untangler.RunOnLoop` | binrec_lift/src/untangle_interpreter.cpp:162-219 | one clone per counter that occurs, one case per edge and no two for one value, and the original loop resumed at exactly the exits |
| `UntangleRun.StepCorresponds` | binrec_lift/src/untangle_interpreter.cpp:134-153 | one step of the clones does what one step of the loop does, and leads to the error block exactly at a latch that is no exit, on an edge no trace has |
| `UntangleRun.Refines` | binrec_lift/src/untangle_interpreter.cpp:162-219 | until the error block every run of the clones is at the loop's block in the loop's state, and at the header of the clone for v only when the counter is v |
| `UntangleRun.PlaceAt` | binrec_lift/src/untangle_interpreter.cpp:189-216 | where a run is tells which counters it saw: recorded steps in a clone, and in the resumed loop a first unrecorded step that left an exit |
| `UntangleRun.ErrorExactly` | binrec_lift/src/untangle_interpreter.cpp:146-153 | the error block is reached exactly when the first unrecorded step starts at a counter no trace ended with |
| `UntangleRun.TraceIsPath` | binrec_lift/src/untangle_interpreter.cpp:73-101 | every recorded trace is a path through the clones from the entry's clone to one that resumes the loop, and no switch on it has two cases for a value |
| `UntangleRun.TraceNeverErrs` | binrec_lift/src/untangle_interpreter.cpp:200-216 | a run whose counters follow a recorded trace does not reach the error block |
| `Overlaps.FillBuckets` | binrec_lift/src/lifting/fix_overlaps.cpp:25-35 | every bucket holds exactly the blocks that end at its address, each once |
| `Overlaps.SortByAddress` | binrec_lift/src/lifting/fix_overlaps.cpp:59-62 | a permutation of the bucket in ascending order of start addresses |
| `Overlaps.FindMergePairs` | binrec_lift/src/lifting/fix_overlaps.cpp:37-70 | the pairs are the neighbours in one sorted chain for each address at which several blocks end |
| `OverlapMerge.MergeBlocksSameEndPoint` | binrec_lift/src/lifting/fix_overlaps.cpp:81-155 | the earlier block is cut behind the start of the later's first instruction and a cc_op store, ends with the later's PC, a jump to it and its address as lastpc; the later takes its successors and is otherwise as before |
| `OverlapMerge.CutRuns` | binrec_lift/src/lifting/fix_overlaps.cpp:87-125 | the cut block followed by the later one has the effect of the uncut block and emulates the same guest instructions in the same order |
| `OverlapMerge.MergeChain` | binrec_lift/src/lifting/fix_overlaps.cpp:64-67 | every merge of a chain finds its split point although the blocks before it were changed, whatever pairs come later |
| `OverlapMerge.MergeChains` | binrec_lift/src/lifting/fix_overlaps.cpp:44-68 | merging disjoint chains one after the other merges each as if it were alone and leaves all other blocks as they were |
| `OverlapFix.FixOverlaps` | binrec_lift/src/lifting/fix_overlaps.cpp:73-155 | the whole phase merges every chain of blocks with a common end; started at any block the new program emulates the same guest instructions and returns in the same state; every block ends where the next longest block with its end begins and jumps there, and the shortest is unchanged but for its successors |
| `OverlapFix.ChainsDisjoint` | binrec_lift/src/lifting/fix_overlaps.cpp:50-57 | no block is in two chains, so the error for a block merged twice is never raised |
| `OverlapFix.ChainRuns` | binrec_lift/src/lifting/fix_overlaps.cpp:73-80 | started at any block of a chain, the merged chain returns in the old block's state after the old block's instructions |
| `OverlapFix.SameRuns` | binrec_lift/src/lifting/fix_overlaps.cpp:81-155 | the same for every block of the fixed program, in a chain or not, for any fuel above the number of blocks |
| `OverlapFix.ChainSuccessors` | binrec_lift/src/lifting/fix_overlaps.cpp:135-150 | the last block of a chain has the successors of all of them, every other only the next |
| `OverlapMerge.CutLastPc` | binrec_lift/src/lifting/fix_overlaps.cpp:132-133 | the cut block's lastpc is the start of the later block, because its PC store stays |
| `OverlapFix.EndsMove` | binrec_lift/src/lifting/fix_overlaps.cpp:132-150 | of blocks with distinct starts, each that has another inside it with the same end gets the lastpc, jump and successor of the longest such, whatever chains were built |
| `OverlapFix.EmulatedOnce` | binrec_lift/src/lifting/fix_overlaps.cpp:73-80 | no guest instruction is emulated by two blocks of a merged chain |
| `OverlapMerge.FindInstStart` | binrec_lift/src/pc_utils.cpp:47-52 | the first operation that begins the instruction, if there is one |
| `PcJumps.SwitchFor` | binrec_lift/src/lifting/pc_jumps.cpp:157-212 | a block that returns to the dispatcher gets one case per successor of its master, unless the master was seen to return or has a successor in another function; a master already rewritten still counts |
| `PcJumps.RewriteBlocks` | binrec_lift/src/lifting/pc_jumps.cpp:157-217 | the loop over the blocks gives exactly the returns of blocks never seen to return, whose successors are all in the function, a switch to exactly these |
| `PcJumps.InsertPrevPc` | binrec_lift/src/lifting/pc_jumps.cpp:21-33 | exactly the recovered blocks record their address |
| `PcJumps.RunPass` | binrec_lift/src/lifting/pc_jumps.cpp:144-229 | block by block: returns seen to return stay, other returns with successors become switches to exactly these with the error block or jump table as default, and nothing else changes; in the error modes the error block gets the cases of the last switch if that is in a part of a block; which blocks record prevPC; in EXTENDED mode the jump table, and failure exactly when it would be empty |
| `PcJumpsRun.CasesHave` | binrec_lift/src/lifting/pc_jumps.cpp:201-206 | a switch has a case for an address exactly if a listed successor starts there |
| `PcJumpsRun.TableHas` | binrec_lift/src/lifting/pc_jumps.cpp:94-124 | the jump table has a case for an address exactly if a recovered block starts there that is not the entry and whose name is no longer than BB_ and eight digits |
| `PcJumpsRun.CasesDistinct` | binrec_lift/src/lifting/pc_jumps.cpp:198-206 | with distinct successors no switch has two cases for a value |
| `PcJumpsRun.GoesOnDispatches` | binrec_lift/src/lifting/pc_jumps.cpp:161-196 | a return is rewritten exactly if its recovered block was never seen to return and has successors, all in this function, which is also when the old program goes on through the dispatcher |
| `PcJumpsRun.StepRefines` | binrec_lift/src/lifting/pc_jumps.cpp:157-226 | a block and its switch do what the block and a dispatcher lookup did, unless PC names no successor and, in EXTENDED mode, no possible target |
| `PcJumpsRun.Refines` | binrec_lift/src/lifting/pc_jumps.cpp:157-226 | every run of the switch form that has not been at the error block at any step so far is at the block and in the state of the dispatcher loop |
| `PcJumpsRun.ErrorExactly` | binrec_lift/src/lifting/pc_jumps.cpp:219-226 | from a block the error block is entered exactly when PC names neither a listed successor nor, in EXTENDED mode, a possible jump target |
| `PcJumpsRun.ErrorReturns` | binrec_lift/src/lifting/pc_jumps.cpp:43-59 | in the error modes every run at the error block puts -1 in R_EAX, and returns exactly if the error block was not given a switch |
| `PcJumpsRun.ErrorResumes` | binrec_lift/src/lifting/pc_jumps.cpp:157-212 | if it was, a run whose PC names a successor of the last switched block's master goes on there |
| `PcJumpsRun.ErrorStays` | binrec_lift/src/lifting/pc_jumps.cpp:157-212 | and a run whose PC names none stays at the error block at all later steps |
| `PcJumpsRun.ErrorLeaves` | binrec_lift/src/lifting/pc_jumps.cpp:60-88 | in the other modes every run at the error block leaves for the original code at PC, or stops, without a change |
| `PcJumpsRun.PrevPcNamesBlock` | binrec_lift/src/lifting/pc_jumps.cpp:21-54 | in ERROR1 mode, when the error block is entered prevPC names the recovered block whose part led there |
| `PcJumpsRun.PrevPcUnused` | binrec_lift/src/lifting/pc_jumps.cpp:47-54 | in the other modes nothing is ever recorded in prevPC |
| `PcJumpsRun.ErrorBlockKept` | binrec_lift/src/lifting/pc_jumps.cpp:157-168 | the error block has the terminator it was made with exactly unless it returns and the last switched block is only a part of its recovered block |
| `PcJumpsRun.ErrorBlockResumes` | binrec_lift/src/lifting/pc_jumps.cpp:157-212 | a run of a function of six blocks in ERROR mode that enters the error block and goes on at another block's successor |
| `PcJumpsRun.ErrorBlockLoops` | binrec_lift/src/lifting/pc_jumps.cpp:157-212 | a run of it that never leaves the error block |
| `TraceInfo.Info.Add` | binrec_traceinfo/src/trace_info.cpp:184-238 | adding a record that agrees on stack differences: maximum of sizes, union of relations, accesses appended, entries taken only when there were none |
| `TraceInfo.Info.GetCopy` | binrec_traceinfo/src/trace_info.cpp:117-165 | a fresh record with the same value, sharing nothing that can change |
| `TraceInfo.Info.RestoreFromCopy` | binrec_traceinfo/src/trace_info.cpp:167-182 | whatever it held, the record ends with exactly the copy's value |
| `TraceInfo.MergeIntoEmpty` | binrec_traceinfo/src/trace_info.cpp:167-238 | adding to a cleared record loses and adds nothing |
| `TraceMerge.MergeAll` | binrec_tracemerge/src/main.cpp:11-22 | the fold over all inputs into one record |
| `TraceMerge.MergedRelations` | binrec_traceinfo/src/trace_info.cpp:208-230 | of any list of traces the four relations are the unions |
| `TraceMerge.MergedMaps` | binrec_traceinfo/src/trace_info.cpp:195-237 | blocks per entry, sized functions and stack differences are the unions |
| `TraceMerge.MergedSizes` | binrec_traceinfo/src/trace_info.cpp:186-193 | a frame size is the largest given, and one of those given |
| `TraceMerge.MergedEntries` | binrec_traceinfo/src/trace_info.cpp:213-218 | the entries are those of the first trace that has any |
| `TraceMerge.MergedAccesses` | binrec_traceinfo/src/trace_info.cpp:204-207 | the accesses are those of all traces, in order |
| `TraceMerge.Reordered` | binrec_tracemerge/src/main.cpp:13-22 | reordering the inputs changes only the order of accesses and which trace's entries are taken |
| `FunctionLog.Plugin.OnModuleExecute` | binrec_plugins/FunctionLog.cpp:80-104 | opens a pending entry, notes the block for the innermost open function and for the pending caller |
| `FunctionLog.Plugin.OnFunctionCall` | binrec_plugins/FunctionLog.cpp:106-129 | a call from or to the module opens the callee, any other call nothing |
| `FunctionLog.Plugin.PopReturned` | binrec_plugins/FunctionLog.cpp:144-175 | pops the function returned from, or it and one above it, or nothing; accepts also what is found on the last element |
| `FunctionLog.Plugin.OnFunctionReturn` | binrec_plugins/FunctionLog.cpp:131-199 | an accepted return records its caller and last block for the function returned from and leaves the caller pending, a rejected one changes nothing |
| `FunctionLog.Plugin.OnStateFork` | binrec_plugins/FunctionLog.cpp:201-221 | every new state without a snapshot gets a deep copy of everything |
| `FunctionLog.Plugin.SaveTraceInfo` | binrec_plugins/FunctionLog.cpp:55-70 | writes the shared record to the file of a state, or to the one without a number, over what it held |
| `FunctionLog.Plugin.OnStateSwitch` | binrec_plugins/FunctionLog.cpp:223-259 | writes the old state's file, restores the new state's snapshot in place, then erases it and the old state's |
| `LogProps.NestedRun` | binrec_plugins/FunctionLog.cpp:80-199 | every well-nested sequence, also with jumps out of functions that are taken for calls and never return themselves, leaves the stack as it was and records exactly each block under its innermost open function |
| `LogHistory.History` | binrec_plugins/FunctionLog.cpp:80-199 | after any run without switches: a function has a caller and a returning block recorded exactly if some return of it was believed with that caller, and with that last block executed before; a block is recorded for exactly the functions it ran in |
| `LogHistory.EntriesChange` | binrec_plugins/FunctionLog.cpp:82-88 | entries change exactly at a believed return from the current one and at the first block after it, which is the next entry |
| `LogHistory.ClosedUpTo` | binrec_plugins/FunctionLog.cpp:177-192 | no entry is open exactly from such a return, or the start, until a block not at address 0 |
| `LogProps.FollowUps` | binrec_plugins/FunctionLog.cpp:92-199 | on every run without switches a pair is a follow-up exactly if the block is the first noted after an accepted return with that non-zero caller, before any other |
| `LogProps.SnapshotsUpTo` | binrec_plugins/FunctionLog.cpp:201-259 | over any interleaving the four maps keep the same keys, and a state's snapshot is the log before the earliest fork that listed it since it was last erased |
| `LogProps.SwitchRestores` | binrec_plugins/FunctionLog.cpp:223-259 | a switch brings back trace, stack, last block and pending caller of that fork |
| `LogProps.FilesUpTo` | binrec_plugins/FunctionLog.cpp:223-228 | on every run a state's file holds the trace from just before the last switch away from it |
| `TailCalls.Walk.TailCallHelper` | binrec_lift/src/lifting/recover_functions.cpp:290-348 | the recursion ends on cyclic graphs; what it newly visits is reached from the address and closed under the step rule |
| `TailCalls.WalkFrom` | binrec_lift/src/lifting/recover_functions.cpp:388-403 | a walk sets the parent of exactly the known addresses its entry reaches |
| `TailCalls.GoesOnAt` | binrec_lift/src/lifting/recover_functions.cpp:311-347 | a walk goes on, from a known block that is no return block of its function, to every other successor that is no entry, and behind a call of one that is |
| `TailCalls.CameFrom` | binrec_lift/src/lifting/recover_functions.cpp:311-347 | and nowhere else |
| `TailCalls.ClosedHasReached` | binrec_lift/src/lifting/recover_functions.cpp:320-347 | a set closed under the step rule holds all that is reached from it |
| `TailCalls.SetUp` | binrec_lift/src/lifting/recover_functions.cpp:369-385 | every recorded block gets a parent, one of the functions that recorded it or itself |
| `TailCalls.RecordParents` | binrec_lift/src/lifting/recover_functions.cpp:388-403 | after the walks a block's parent is the last walk that reached it, else as recorded; external symbols are not walked from |
| `TailCalls.FindFixes` | binrec_lift/src/lifting/recover_functions.cpp:405-446 | lists exactly the blocks that are not with their own function, and the missing parent is never missing |
| `TailCalls.ApplyFixes` | binrec_lift/src/lifting/recover_functions.cpp:448-464 | moves exactly these, in any order |
| `TailCalls.HandleInfoForTailCalls` | binrec_lift/src/lifting/recover_functions.cpp:351-464 | every recorded block ends in exactly one function, that of the last walk to reach it or else one that recorded it, and no other block in any |
| `Unflatten.IndexOfMember` | binrec_lift/src/merging/unflatten_env.cpp:14-21 | any byte of a member leads to that member's index |
| `Unflatten.EnterIsConsistent` | binrec_lift/src/merging/unflatten_env.cpp:92-116 | the path's offset and the rest make up the offset asked for, and the descent stops at the wanted type or a scalar |
| `Unflatten.AcceptedIffExact` | binrec_lift/src/merging/unflatten_env.cpp:119 | an access is accepted exactly when the path denotes its offset |
| `Unflatten.EnterLands` | binrec_lift/src/merging/unflatten_env.cpp:96-116 | from an offset that is not padding nothing traps, all indices are in bounds, and the rest is not padding |
| `Unflatten.EnterFinds` | binrec_lift/src/merging/unflatten_env.cpp:85-116 | any byte of any member of the wanted type, however deep, leads to that member |
| `Unflatten.NeverTraps` | binrec_lift/src/merging/unflatten_env.cpp:14-33 | in a layout in which nothing is empty the descent ends somewhere, whatever the offset |
| `Unflatten.EnterStepsDown` | binrec_lift/src/merging/unflatten_env.cpp:85-93 | the first step is taken even if the whole state has the wanted type |
| `Unflatten.AcceptedInBoundsIff` | binrec_lift/src/merging/unflatten_env.cpp:96-119 | an accepted path is in bounds exactly when the offset is not padding |
| `Unflatten.PaddingAccepted` | binrec_lift/src/merging/unflatten_env.cpp:19-20 | a padding byte that is accepted as an element past the end of an array |
| `UnflattenCut.FindMember` | binrec_lift/src/merging/unflatten_env.cpp:85-116 | the loop, in 64-bit offsets and 32-bit indices, ends in the outcome of the descent |
| `UnflattenCut.EnterUncut` | binrec_lift/src/merging/unflatten_env.cpp:85-116 | below 2^31 it is the descent without any cut, to which the results above apply |
| `UnflattenCut.ElementWraps` | binrec_lift/src/merging/unflatten_env.cpp:19-20 | an element's index has 32 bits and a sign, and is the quotient but for multiples of 2^32 |
| `UnflattenCut.AcceptedIffDenoted` | binrec_lift/src/merging/unflatten_env.cpp:92-119 | for every 64-bit offset an access is accepted exactly when the path, read as the address computation reads it, denotes the offset modulo 2^64 |
| `SigSplit.FindArgList` | binrec/_gdb_sigs.py:79-91 | counting back from the end finds where the last group of parentheses begins |
| `SigSplit.SplitArgs` | binrec/_gdb_sigs.py:103-125 | the stripped pieces between the commas outside parentheses, with no white space at their ends, without an empty last one, and none for a lone void |
| `SigSplit.SplitFunctionSignature` | binrec/_gdb_sigs.py:64-127 | both together, nothing with white space at its ends; exactly a text of less than two characters is an error |
| `SigSplit.CleanPieces` | binrec/_gdb_sigs.py:106-117 | a balanced text without outer commas, nested however deep, is never split |
| `SigSplit.ScanStops` | binrec/_gdb_sigs.py:79-91 | the backward count stops at the first position from the end where it is balanced, and at 1 when that is the start |
| `Text.StripTakes` | binrec/_gdb_sigs.py:94-120 | stripping takes nothing but white space, from both ends, and all of it |
| `Text.StripPadded` | binrec/_gdb_sigs.py:94-120 | white space around a text without any at its ends is stripped, whatever there is of it |
| `SigSplit.PaddedComesBack` | binrec/_gdb_sigs.py:64-127 | any text with a return type and arguments, and any white space before the list and around every argument, is split into them |
| `SigSplit.RoundTrip` | binrec/_gdb_sigs.py:64-127 | a printed signature is split into what it was printed from exactly when it has a return type; a lone void means no arguments |
| `SigDb.PrintDatabase` | binrec/_gdb_sigs.py:348-365 | one line per function that is not variadic, with its float flag, its result size widened to a word, and its argument sizes |
| `SigDb.EntryIsRight` | binrec/_gdb_sigs.py:348-365 | the flag says whether float or double is a word of the result type, a result smaller than four bytes counts as four, arguments have their own sizes |
| `SigDb.LinesComeBack` | binrec/_gdb_sigs.py:393-399 | splitting complete lines gives the lines, and an empty one at the end |
| `SigDb.FilteredAre` | binrec/_gdb_sigs.py:393-399 | the filter keeps exactly the printed records, whatever lines are between them |
| `SigDb.ReadLibcArgSizes` | binrec_lift/src/lifting/inline_lib_call_args.cpp:72-93 | the reader's loops compute the map, or the error when a size cannot be read |
| `Text.ValueOfDigits` | binrec/_gdb_sigs.py:365 | the decimal digits of a number give the number |
| `SigDb.NumberComesBack` | binrec_lift/src/lifting/inline_lib_call_args.cpp:80-85 | a printed number is read back exactly when it fits size_t |
| `SigDb.SignedNumber` | binrec_lift/src/lifting/inline_lib_call_args.cpp:80-85 | with a sign, a size wraps around below 0 and a flag is still the number 0 or 1 |
| `SigDb.RecordsComeBack` | binrec_lift/src/lifting/inline_lib_call_args.cpp:72-93 | printed records are all read back, the first winning for a repeated name |
| `SigDb.ComeBackIff` | binrec_lift/src/lifting/inline_lib_call_args.cpp:72-93 | with distinct names, exactly when all sizes fit size_t |
| `SigDb.FirstBad` | binrec_lift/src/lifting/inline_lib_call_args.cpp:72-93 | at the first record that does not fit, reading ends with the map so far if it is the result's size, and fails if it is an argument's |
| `SigDb.FirstWinsAt` | binrec_lift/src/lifting/inline_lib_call_args.cpp:89 | a name keeps the entry of its first record |
| `SigDb.OutputComesBack` | binrec/_gdb_sigs.py:365-399 | the debugger's mixed output, filtered, written and read, gives the printed records |
| `SigDb.LifterKnows` | binrec/_gdb_sigs.py:348-365 | the map has exactly the functions without "...", each with flag and sizes as its types and their sizes say |
| `SigDb.DatabaseRoundTrip` | binrec/_gdb_sigs.py:348-399 | from the debugger's types and sizes to the lifter's map, end to end |

## Left out

- Preservation.Preserved: claims nothing of a function with an erased call, or a call from locals to globals that passes registers, below it; `CallLimits` shows why.
- Pass.GlobalEnvToAlloca: calls of functions without a body and indirect calls are opaque steps that leave the registers alone; a `Func_wrapper` is one block without accesses of its own, copying all registers in at its entry and out at its return; `retregs` metadata, inlining and the creation of the LLVM functions are not modelled.
- DefSweep.Sweep: takes the components of the call graph, callees first, as an input with the guarantees of LLVM's `scc_iterator`; orders of functions and blocks are inputs too.
- OverlapMerge.MergeBlocksSameEndPoint: a recovered block is one list of operations, so a split in a successor block does not occur; blocks whose later one is not an instruction suffix of the earlier are a violated precondition, as in the source.
- OverlapMerge.FindInstStart: does not go on into successor blocks, because a recovered block is one list of operations.
- Phase two of `fix_overlaps.cpp` (overlaps at exceptions, 157-225), which depends on helper calls that cannot be seen.
- PcJumps.RunPass: takes `find_master_block`'s answers for the old blocks as an input; what the original code does after BASIC and EXTENDED have jumped to it is not modelled.
- Untangle.ReadTraceFiles: trace files are sequences of numbers; `findVpcGlobal`, the PHI check and the selection of the loop are not modelled. What crosses the loop's exits is in memory.
- FunctionLog.Plugin.OnFunctionReturn: a return with an empty call stack is excluded, since the source reads the top of an empty stack; module loading is not modelled, and which modules a call is between is a parameter of its event.
- FunctionLog.Plugin.SaveTraceInfo: a file is the trace itself, not its JSON text; the file written when the plugin is destroyed is not modelled.
- TraceInfo.Info.Add: traces that disagree on a stack difference are excluded, since the source asserts that they do not.
- TailCalls.HandleInfoForTailCalls: functions are named by their block addresses, which are not 0; the only call of this code is commented out in the source (recover_functions.cpp:481).
- UnflattenCut.FindMember: an assertion that fails and a division by zero are one outcome; a struct has fewer than 2^32 fields.
- SigSplit.SplitFunctionSignature: the regular expressions around it, the man pages and `_clean_type_name` are not modelled.
- Lines of the debugger's output that run into a printed record without a newline.
- `custom_loop_unroll.cpp`: the repair of phis (197-201) takes the value at the start of the last copy, not its latch value, so unrolling does not preserve meaning as written.
- `call_stack.cpp`: the path that drops a parent (91-94) leaves the index of active frames as it was, so the index and the chain of frames do not agree as written.
- `global_address_map.cpp`: the result of `lower_bound` is read without a check for the end (23-24), so a lookup above the last section's start has no defined outcome.
- Python drivers, the web application, readers of ELF, PE and JSON, linking, trampolines, floating-point helpers and the heuristics for the main function: plumbing or foreign machine state.

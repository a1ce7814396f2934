# toywasm, verified in part

toywasm runs WebAssembly in place: it keeps a byte pc into the module, one flat
stack of cells, a stack of labels, a stack of frames, and side tables and caches
that tell where a branch goes. This project models the parts where such a flat
structure has to agree with something simpler, and proves that it does.

Configuration: small cells (a value takes one cell of 32 bits or more), locals
kept apart from operands, separate execute callbacks, jump tables, the
single-entry jump cache and the 4-entry block-exit cache, exceptions (parameters
of at most 4 cells), tail calls and SIMD value types on, multi-memory and dynamic
linking off, a 64-bit host, 64 KiB pages. Memory types in the binary format are
those of the threads and custom-page-sizes proposals: a memory may be shared, and
pages may be of one byte.

## How it is laid out

Control (WebAssembly Core 2.0, sections 4.4.8 to 4.4.10).

- `Leb`, `Code`, `Jumps`: integers, the encoding of structured code with byte
  positions, and the three answers to "where does this block end".
- `Machine`: the interpreter as functions on a flat state. `Stuck` is a failed
  assertion of the C code.
- `Types`: value types and block types with their widths and encodings, which the
  cell sizes and arities of the interpreter are measured by.
- `Structured`: the semantics it is compared with. Every label owns its operands,
  every call its activation. It goes `Wrong` where validated code never goes, in
  particular when a block ends with a number of operands that is not its arity.
- `Relation` to `Simulation`: how a flat state represents a structured one, and
  the simulation, one instruction after the other, with exception unwinding.
- `Runs`, `EndToEnd`, `Nesting`, `TailCalls`, `Framing`: whole runs of the main
  loop under any schedule of interrupts and restarts; nesting of host calls; tail
  calls.
- `Interrupts`, `Limits`: where an interrupt leaves the loop and that it does;
  what the limits on frames and cells stop, and that they are kept.
- `Exec`: the execution context as an object that its methods update, each
  method proved against the function of `Machine` or `Runs` of the same name.
  Its `Execute` is the end-to-end statement, and `Example` a program that meets
  its premises.

The rest.

- `Suspend`, `Progress`, `Fairness`, `Callers`, `Starvation`: stop-the-world
  suspension as the steps of any number of threads, with the set of waiters made
  explicit; safety, absence of deadlock, and liveness of fair runs; what a caller
  of suspend_threads can count on, and what it cannot.
- `Buffers`, `Memory`, `Tables`: overlap-safe moves, lazily allocated memory,
  tables.
- `Cells`: the index tables of locals and the walks that they stand for.
- `Heap`, `HeapThreads`, `List`: hierarchical limits alone and under any
  interleaving, and the pointer-to-pointer tail queue.
- `Utf8`, `Writer`, `Reader`, `RoundTrip`, `Modules`, `Grammar`, `Locals`: the
  binary format, both ways, and a grammar that says of every byte string whether
  it is a module, and which.

Parameters of the model: what non-control instructions and host functions do
(any function of their operands and of the rest of the world), the schedule of
interrupts, what the allocator answers, the room in the file that is written,
and the stale cells that a new exnref contains.

## Where the code does not do what one would expect

- lib/suspend.c:27 asserts that some runner is not parked. A thread breaks this
  if it leaves the cluster while others are being resumed and all of them are
  parked: the state is RESUMING and nrunners is nparked plus one, which the caller
  of cluster_remove_thread can tell under the lock. `Suspend.FailsExactly` says
  that the runs in which an assertion fails are exactly those in which this
  happens and any other section of code follows; `Suspend.LeavingBreaksAssertion`
  is such a run, with two threads.
- A thread that calls suspend_threads may never come back, under a fair scheduler
  and although every stop ends: having waited for one stop to be over, it can be
  overtaken by a thread that asks for the next one (lib/suspend.c:75-83 does not
  queue the callers). `Starvation.CallerStarves` is such a run, with three threads;
  `Callers.ServedOrOvertaken` says that there is no other way not to come back.
- A shared memory of one-byte pages with maximum 2^32 - 1 can be read, is written
  without a maximum, and is then refused: `RoundTrip.SharedMaxRefused`, and
  `RoundTrip.MemRestored` for exactly when memory types are restored.
- Local declarations that contain a chunk of no locals are accepted, but what is
  written for them is not: `Locals.NotAlwaysRestored`, `Locals.LocalsRestored`.
- An import with an empty name can be read, but not written to a file, since an
  `fwrite` of no bytes reports that it has written no item:
  `RoundTrip.EmptyNameNotWritten`, `RoundTrip.ModuleWritten`.
- A module with two memories can be written, but not loaded, since multi-memory
  is off: `RoundTrip.ModuleRestored`.
- An empty access at address 2^32 exactly traps even if the memory has 65536
  pages; the code says so itself (lib/exec_insn_subr.c:51-58). No instruction
  gets there, only a caller of memory_instance_getptr2 that passes an offset:
  `Memory.EmptyAtTheEnd`.

## Model

| member | source | states |
|---|---|---|
| Leb.ReadLeb | lib/leb128.c:25-134 | For every width up to 64, signed or not, the loop accepts exactly the strings of the recursive grammar uN/sN that fit the buffer, with their value and length; the unchecked mode does the same on every input that the grammar accepts. |
| Leb.PrefixUnique | lib/leb128.c:25-134 | At most one encoding starts at a place, so the length that is read is determined. |
| Leb.Range | lib/leb128.c:25-134 | Values of uN lie in [0, 2^N), values of sN in [-2^(N-1), 2^(N-1)). |
| Code.HeaderAt | lib/insn_impl_control.h:19-60 | Reading an encoded block header gives back its opcode, its block type and the position of its body. |
| Code.LeafAt | lib/insn.c:1434-1465 | The instruction reader finds the end of every other encoded instruction, which is no opener and no delimiter of blocks. |
| Code.PlainEndIs | lib/insn_impl_base.h:343-346 | Instructions without control effect have a grammar of their own, by the form of their immediates: a constant of 32 bits takes 4 bytes, one of 64 bits 8, integers, indexes and memory arguments are LEBs. The reader finds exactly the end of each. |
| Code.OpcodesKnown | lib/insn_list_base.h:1-220 | The reader knows an opcode if and only if the grammar has an instruction with it, and of those with prefix 0xfc just 0 to 17. |
| Code.ClausesKnown | lib/insn_impl_eh.h:23-110 | It knows just the four kinds of catch clauses. |
| Types.CellsHoldValues | lib/cell.c:9-48 | The cell size is defined for exactly the bytes of value types, and cells of that number are exactly as wide as the values. |
| Types.EncodedArity | lib/exec.c:739-760 | However a block type (none, a value type, an index) is encoded, the arity read in place is the cells of the parameters and results of the type that was encoded. |
| Types.ArityIs | lib/exec.c:739-760 | For every number of a block type the arity is the cells of the parameters and results that it declares. |
| Code.SkipClausesAt | lib/insn_impl_eh.h:23-110 | The catch clauses of an encoded try_table are read back, one after the other, up to the first byte of its body. |
| Code.TableWalk | lib/insn_impl_control.h:334-373 | Skipping entries of a br_table by their encoded lengths finds the entry with the selected index, the last one being the default. |
| Jumps.SkipExpr | lib/exec.c:1403-1439 | The scanning loop ends and computes the scan function, stay-in-block flag included. |
| Jumps.SkipBlock | lib/exec.c:1403-1439 | From any opener of well-nested code the scan stops just after the matching end, or just after the matching else when that is asked for and exists. |
| Jumps.ParseFindsEnd | lib/expr_parser.c:22-45 | The stepwise parser reports the end of an expression at the end that closes it, for every well-nested expression. |
| Jumps.TableSorted | lib/validation.c:190-228 | The jump table that validation builds for well-nested code is sorted by pc and stays within the function. |
| Jumps.TableHas | lib/validation.c:258-275 | It has the slots of every block: the target just after its end, and for an if the slot for else after it, 0 if there is none. |
| Jumps.BinaryLookup | lib/exec.c:331-363 | The binary search finds the slot of a pc in a sorted table. |
| Jumps.NoneAfter | lib/exec.c:870-880 | No block opens one byte after an opener, so pc + goto_else is a key. |
| Exits.KeyInjective | lib/exec.c:794-822 | Within one module the key blockpc + goto_else determines the function, the block and the flag. |
| Exits.JumpLookupIs | lib/exec.c:366-383 | The single-entry cache and the table search give the same slot, and the cache stays sound. |
| Exits.BlockExitIs | lib/exec.c:828-924 | With a jump table or with a scan, block_exit gives the target pc and the stay flag that the block structure dictates, and the arities of the values that its block type declares. |
| Exits.CachedExitIs | lib/exec.c:931-967 | cached_block_exit gives what block_exit gives, and leaves the caches sound. |
| Returns.SetFrameCaches | lib/exec.c:74-142 | A change of the current frame keeps the caches sound: live entries belong to the current module. |
| Branches.CtxBranch | lib/exec.c:970-1002 | A branch index selects the label whose height is its segment start plus its parameters; what is kept below, the arity and the remaining labels are those of the structured branch. |
| Branches.CtxToCaller | lib/exec.c:1005-1035 | A structured branch leaves the function exactly when its index is the number of labels. |
| Returns.BranchSim | lib/exec.c:1005-1035 | do_branch follows the structured branch, into a loop, out of a block, or out of the function. |
| Returns.LeaveFrame | lib/exec.c:295-328 | frame_exit leaves the activations below represented: stacks, labels, locals, caller pc and caches. |
| Returns.ReturnSim | lib/exec.c:1005-1035 | Returning hands exactly the top results to the caller, wasm function or host function. |
| Calls.EnterSim | lib/exec.c:161-292 | Entering a wasm function moves its arguments to its locals, zeroes the others and starts its body; it traps on the same limits. |
| Calls.HostSim | lib/exec.c:425-460 | A host function that returns, fails, calls back or hands over does the same to both machines. |
| Calls.NestedSim | lib/host_instance.c:251-294 | A call scheduled by a host function saves the bottom, makes the current frame count the new one, and pends the callee with its arguments. |
| Calls.ResumeSim | lib/exec.c:1201-1219 | When the nested call has returned, the host function waiting for it is called again with the results, its own bottom and its own arguments on the stack. |
| Steps.PlainSim | lib/insn.c:1132-1166 | An instruction without control effect changes the operands, locals and world of the running activation and nothing else. |
| Steps.BrSim | lib/insn_impl_control.h:249-280 | br is the structured branch. |
| Steps.BrIfSim | lib/insn_impl_control.h:282-332 | br_if pops the condition and branches exactly if it is not zero. |
| Steps.BrTableSim | lib/insn_impl_control.h:334-373 | br_table branches to the entry that the operand selects, or to the default. |
| Steps.ReturnStepSim | lib/insn_impl_control.h:431-448 | return is a branch by the number of labels of the frame. |
| Steps.CallStepSim | lib/insn_impl_control.h:450-478 | call pends the callee with the top operands as its arguments. |
| Steps.TailCallSim | lib/exec.c:476-492 | return_call leaves the frame, drops the other operands and pends the callee. |
| Blocks.EnterBlock | lib/insn_impl_control.h:62-103 | block, loop and try_table push their label and run their body; the operands below their parameters stay where they are. |
| Blocks.IfSim | lib/insn_impl_control.h:105-156 | if runs its then-body, its else-body, or, without one, goes on after the block. |
| Blocks.ElseSim | lib/insn_impl_control.h:158-186 | else at the end of a then-body, executed as br 0, is the end of the block. |
| Blocks.EndSim | lib/insn_impl_control.h:188-247 | end pops the label and goes on after the block. |
| Blocks.FuncEndSim | lib/insn_impl_control.h:188-247 | The end of a function body returns. |
| Exceptions.FindClauseIs | lib/exec.c:556-597 | The clause loop picks the first clause, in order, that catches the tag. |
| Exceptions.FrameFind | lib/exec.c:513-607 | Over the labels of one frame find_catch agrees with the structured search of one activation, innermost block first; without a handler it goes on to the frame below. |
| Unwinding.RaiseFind | lib/exec.c:513-607 | Across frames find_catch reports the frame, label and clause of the innermost structured handler, and none when the search meets a host function or the bottom. |
| Unwinding.UnwindSim | lib/exec.c:652-660 | Leaving frames down to the catching one represents the activation of the handler. |
| Unwinding.ExceptionSim | lib/exec.c:610-732 | do_exception ends in the state that represents the handler: its prefix of the operands, then the parameters, then the exnref for the ref forms; uncaught exceptions trap. |
| Simulation.ThrowSim | lib/insn_impl_eh.h:163-208 | throw packs its parameters and the tag into an exnref and raises it. |
| Simulation.ThrowRefSim | lib/insn_impl_eh.h:210-229 | throw_ref raises the exception it is given, and traps on null. |
| Simulation.RunSim | lib/insn_impl_control.h:19-478 | Every instruction of every well-nested program keeps the representation relation. |
| Simulation.StepSim | lib/exec.c:1241-1361 | The simulation: from related states one structured step (instruction, call, return to a host function) and the flat step give related states, the same results, or the same trap. |
| Relation.StackIsCells | lib/exec.c:970-1002 | In a related state the flat operand stack is the concatenation of all segments of all activations, and there are as many frames as wasm activations. |
| Runs.PassIsMicros | lib/exec.c:1241-1361 | One pass of the main loop, whatever disturbs it, is a number of uninterrupted steps, at least one if nothing does. |
| Runs.RestartTransparent | lib/instance.c:743-775 | For every schedule of interrupts, host retries and instruction restarts, entering again until it stops reaches a state, or the end, of the uninterrupted run, and every undisturbed pass makes progress. |
| Runs.SchedulesAgree | lib/instance.c:743-775 | Two schedules under which a run ends give the same end: the same stack, world, frames and outcome. |
| Runs.ScheduleEnds | lib/instance.c:743-775 | A run of n steps ends under every schedule with n undisturbed passes, with the same end. |
| EndToEnd.StructuredRuns | lib/exec.c:1241-1361 | Every structured run of n steps, still going or ended, is matched by a flat run. |
| EndToEnd.MachineEnds | lib/exec.c:1241-1361 | If the flat machine ends, so does the structured run, with the same results or trap, or else the structured run is stuck. |
| EndToEnd.InterpreterCorrect | lib/exec_insn_subr.c:725-755 | From a call to its end under any schedule of interrupts and restarts: the results or the trap are those of the structured semantics. |
| EndToEnd.InterpreterComplete | lib/exec_insn_subr.c:725-755 | If the structured call ends, then so does every schedule with enough undisturbed passes, in the same way. |
| Nesting.ActsNested | lib/host_instance.c:251-294 | Saved bottoms are nondecreasing and at most the current one, which is at most the frame count; label, local and height marks of frames are monotone and within their stacks. |
| Nesting.PendingNested | lib/exec.c:1241-1361 | So are they between an instruction and the jump, throw or tail call that it has scheduled, in validated code. |
| Nesting.RunsNest | lib/host_instance.c:251-294 | In every state of every run of validated code, after any number of uninterrupted steps, saved bottoms and frame marks are nested in this way. |
| Nesting.InterruptedNests | lib/instance.c:743-775 | And in every state in which a run is left by interrupts, host functions and instruction restarts, under any schedule. |
| TailCalls.ChainKeeps | lib/exec.c:476-492 | While an activation has not returned, through any number of calls and tail calls, the frames below it and its record of the caller (pc, marks, height) are those it was entered with. |
| TailCalls.TailCallReplaces | lib/exec.c:476-492 | A tail call of a wasm function keeps the number of frames, the frames below and the record of the caller. |
| TailCalls.RestartedTailCallIsCall | lib/exec.c:425-460 | A tail call whose host function asks to be restarted has left its frame exactly once and pends a plain call. |
| Framing.StepFramed | lib/exec.c:463-492 | A step does the same above any base, as long as there is room above it. |
| Framing.RunOver | lib/exec.c:463-492 | A callee that returns on its own returns the same results above any base, to that base. |
| Framing.TailCallIsCallThenReturn | lib/exec.c:476-492 | return_call f and call f followed by return deliver the same results to the same caller with the same world. |
| Framing.TailCallTraps | lib/exec.c:476-492 | If the callee traps, other than for room or for an uncaught exception, both trap in the same way. |
| Framing.TailCallThrows | lib/exec.c:476-492 | If the callee throws what it does not catch, both raise the same exception below it: the tail call in the caller, the call in the function itself first, which makes no difference if that does not catch it. |
| Interrupts.InterruptReturns | lib/exec.c:1322-1346 | A pass that meets an interrupt before an instruction returns a restartable error, in the state after the micro steps of the pending event alone: no instruction has been executed. |
| Interrupts.RestartReturns | lib/exec.c:1288-1315 | An instruction that asks to be restarted ends the pass, and is what is pending then. |
| Interrupts.RetryReturns | lib/exec.c:1251-1287 | A host function that is to be called again ends the pass: its call is still pending, and the frame of a tail call has been left once. |
| Interrupts.CalmExecutes | lib/exec.c:1241-1361 | An undisturbed pass is the micro steps of the pending event and one instruction. |
| Interrupts.ReturnsThere | lib/exec.c:1322-1346 | A call of the loop that is still running at an interrupt returns at that pass, in that state. |
| Interrupts.InterruptsReturn | lib/exec.c:1241-1361 | With an interrupt at every pass the loop returns after as many passes as host functions are waiting, and two. |
| Interrupts.DriveEnters | lib/instance.c:743-775 | Entering the loop again with the rest of the schedule, after each return, is the run that RestartTransparent is about. |
| Limits.EntryIs | lib/exec.c:161-292 | A call traps for frames exactly if as many are there as allowed, else for cells exactly if the height without the arguments and what the function declares pass the limit; otherwise the arguments have left the stack and are the first locals, all other locals are zero, and the caller is under the new frame. |
| Limits.HostRoom | lib/exec.c:425-460 | A host function is stopped for cells exactly if its results, or the arguments of its call, do not fit. |
| Limits.RunWithin | lib/exec.c:63-73 | In every run whose instructions keep to the declared heights, frames and cells stay within the limits, so that the assertion at the start of stack_prealloc never fails. |
| Limits.CachesForgotten | lib/exec.c:74-95 | Frames of one module share the caches, and a change of module empties them. |
| Limits.ExitRemembered | lib/exec.c:931-967 | An exit that was looked up once is found in the cache, whatever the rest of the state. |
| Limits.SlotRemembered | lib/exec.c:366-383 | So is a slot of the jump table. |
| Limits.ElseOfIf | lib/exec.c:828-924 | Only the branch of an if can go to an else, with a jump table or with a scan. |
| Limits.TagReadBack | lib/insn.c:609-627 | The tag that is packed into an exnref is the one that is read back. |
| Limits.ThrownIs | lib/insn_impl_eh.h:163-208 | throw leaves an exnref whose first cells are the parameters and whose tag is the one thrown, and what was below the parameters. |
| Exec.ExecContext.constructor | lib/exec_insn_subr.c:725-755 | A fresh context has its arguments on the stack and the call pending. |
| Exec.ExecContext.SetCurrentFrame | lib/exec.c:74-142 | The new state is that of the specification: the caches are emptied when the module changes and only then. |
| Exec.ExecContext.FrameEnter | lib/exec.c:161-292 | The frame, the locals and the stack after entering a function are the specified ones. |
| Exec.ExecContext.FrameExit | lib/exec.c:295-328 | The state after leaving a frame is the specified one. |
| Exec.ExecContext.RewindStack | lib/exec.c:763-792 | Keeps what is below the height and the top cells, nothing else. |
| Exec.ExecContext.LookupJump | lib/exec.c:366-383 | Returns the specified slot and leaves the specified single-entry cache. |
| Exec.ExecContext.BlockExit | lib/exec.c:828-924 | Table and scan branches leave the specified pc and caches and return the specified exit. |
| Exec.ExecContext.CachedBlockExit | lib/exec.c:931-967 | Looks in the cache, fills it on a miss, and returns the specified exit. |
| Exec.ExecContext.BranchToLabel | lib/exec.c:970-1002 | Leaves the specified labels and pc, and returns height and arity. |
| Exec.ExecContext.DoBranch | lib/exec.c:1005-1035 | The state after a branch is the specified one, also out of the function. |
| Exec.ExecContext.DoWasmCall | lib/exec.c:404-422 | Enters the function, or reports the specified trap. |
| Exec.ExecContext.ScheduleCallFromHostfunc | lib/host_instance.c:251-294 | Pushes the restart record and sets bottom and event as specified. |
| Exec.ExecContext.DoHostCall | lib/exec.c:425-460 | All four things a host function may do leave the specified state and status. |
| Exec.ExecContext.DoReturnCall | lib/exec.c:476-492 | Leaves the frame, keeps the arguments and calls; the specified state, status and event. |
| Exec.ExecContext.ReturnToHostfunc | lib/exec.c:1201-1219 | Pops the restart record as specified. |
| Exec.ExecContext.ScanClauses | lib/exec.c:556-597 | The loop over the clauses returns the first match. |
| Exec.ExecContext.OwnerOf | lib/exec.c:525-538 | The inner loop finds the frame that owns a label, or stops at the bottom. |
| Exec.ExecContext.FindCatch | lib/exec.c:513-607 | The loop over labels and frames returns the specified handler. |
| Exec.ExecContext.RewindFrames | lib/exec.c:652-660 | Leaves frames one by one until the given one is on top. |
| Exec.ExecContext.DoException | lib/exec.c:610-732 | Status and state of exception handling are the specified ones. |
| Exec.ExecContext.ExecBrTable | lib/insn_impl_control.h:334-373 | The loop over the table schedules the branch of the selected entry. |
| Exec.ExecContext.PushException | lib/insn.c:609-627 | Pushes the cells of an exnref over its parameters. |
| Exec.ExecContext.ExecBlock | lib/insn_impl_control.h:19-103 | Pushes the label and moves to the body, as specified. |
| Exec.ExecContext.ExecIf | lib/insn_impl_control.h:105-156 | Pops the condition, pushes the label, and schedules the jump to else. |
| Exec.ExecContext.ExecEnd | lib/insn_impl_control.h:188-247 | Pops a label, or schedules the return from the function. |
| Exec.ExecContext.ExecU32 | lib/insn_impl_control.h:249-332 | br, br_if, call, return_call and throw leave the specified pc, stack and event. |
| Exec.ExecContext.FetchExecNextInsn | lib/insn.c:1132-1166 | Fetching and executing any instruction gives the specified outcome. |
| Exec.ExecContext.HandlePending | lib/exec.c:1250-1311 | The switch on the pending event gives the specified outcome. |
| Exec.ExecContext.OnePass | lib/exec.c:1241-1361 | One pass of the loop gives the specified outcome: it goes on, finishes, traps, or returns a restartable error. |
| Exec.ExecContext.ExecExprContinue | lib/exec.c:1241-1361 | The loop runs passes until one returns; its outcome and the number of passes are those of entering the loop once, so that it has returned by the first interrupt it meets. |
| Exec.ExecContext.HandleRestart | lib/instance.c:743-775 | Entering again after every restartable error gives the specified outcome, never a restartable one. |
| Exec.NeverStuck | lib/exec.c:1241-1361 | If no structured run of the call goes wrong, no assertion of the interpreter fails under any schedule. |
| Exec.Execute | lib/exec_insn_subr.c:725-755 | The context, run to its end under any schedule, holds the results and the world of the structured run, or reports its trap. |
| Example.Good | lib/exec_insn_subr.c:725-755 | The premises on programs can be met: bytes, code and jump table of a function that branches out of a block. |
| Example.RunFrom | lib/insn_impl_control.h:249-280 | Its structured run, step by step: it enters the block, leaves it by br 0, returns, and never gets stuck. |
| Example.RunExample | lib/exec_insn_subr.c:725-755 | So the interpreter, under any schedule that lets it end, ends the call with success and no results. |
| Suspend.StepKeepsInv | lib/suspend.c:12-124 | Every action of every thread, in any order, keeps the invariant on mutex, counters, phase and waiters. |
| Suspend.StopTheWorld | lib/suspend.c:69-124 | In every reachable state: at most one thread is between the return of suspend_threads and resume_threads, all others are then in parked; nrunners and nparked are exact; no sleeper's condition is already true. |
| Suspend.TestStillHolds | lib/suspend.c:52-66 | A thread that has seen STOPPING without the lock still finds it when it has the lock. |
| Suspend.AssertsExact | lib/suspend.c:12-35 | At one section of code the assertions hold exactly unless a thread leaves parked while every runner is parked. |
| Suspend.StepKeepsRunner | lib/cluster.c:49-60 | Some runner stays unparked by every action but one: cluster_remove_thread in RESUMING, called by the last runner that is not parked. |
| Suspend.FailsExactly | lib/suspend.c:12-124 | For every run: no assertion fails if and only if nobody leaves under that guard, or no section of code follows. |
| Suspend.LastOutFails | lib/cluster.c:49-60 | After a leave under that guard any of the other threads can take the lock, and then fails its assertion. |
| Suspend.NoAssertFails | lib/suspend.c:12-124 | If nobody leaves under that guard, no assertion fails, and none fails in whatever comes next. |
| Suspend.LeavingBreaksAssertion | lib/cluster.c:49-60 | A run of two threads in which one leaves in RESUMING and the assertion in parked fails. |
| Suspend.NothingRuledOut | lib/suspend.c:12-124 | In every state of the invariant each thread may take any step that the code, the mutex and the condition variable allow: test, call, lock, run, wake for no reason, add threads, leave. |
| Progress.SomeoneUnparked | lib/suspend.c:84-95 | While STOPPING is incomplete there is a runner that is neither parked nor the suspender. |
| Progress.MeasureShrinks | lib/suspend.c:84-95 | While nobody joins, runners minus parked minus one never grows in STOPPING, and goes down by one whenever a thread parks. |
| Progress.StopCompletes | lib/suspend.c:69-106 | From every reachable state in STOPPING the other threads can all park, by their own steps alone. |
| Progress.CanStop | lib/suspend.c:69-106 | And then suspend_threads can return. |
| Progress.CanGoOn | lib/suspend.c:109-124 | From every state of the invariant the cluster can get back to normal running. |
| Progress.NoDeadlock | lib/suspend.c:69-124 | No reachable state is a deadlock or has lost a wakeup for good: every run can be continued, without help from joiners, leavers or spurious wakeups, to a state without a stop. |
| Fairness.EverybodyParks | lib/suspend.c:69-106 | In every infinite run without joins in which whoever is not asleep acts again, a stop that has been asked for becomes complete. |
| Fairness.SuspendReturns | lib/suspend.c:69-106 | And then suspend_threads returns, with everybody else blocked in parked. |
| Callers.ComesBackAlone | lib/suspend.c:69-106 | In every run, from any state: between a call of suspend_threads and running again there is a state in which that very thread is between suspend_threads and resume_threads. |
| Callers.CallerHadTheWorld | lib/suspend.c:69-106 | In every run of the protocol, and then all others are blocked in parked. |
| Callers.BackToNormal | lib/suspend.c:37-49 | In every fair run without joins a resumption completes: everybody leaves parked. |
| Callers.SomebodyAlone | lib/suspend.c:69-106 | In every fair run without joins, while somebody is in suspend_threads, somebody gets the world for itself. |
| Callers.CallerServed | lib/suspend.c:69-106 | In every fair run without joins each caller gets the world for itself, once there are no new calls. |
| Callers.ServedOrOvertaken | lib/suspend.c:69-106 | In every fair run without joins each caller gets the world for itself, or others call suspend_threads without end. |
| Starvation.CallerStarves | lib/suspend.c:75-83 | The latter happens: a fair infinite run without joins of three threads in which one is in suspend_threads for ever. |
| Buffers.Move | lib/cell.c:310-325 | A move is a copy of what the source held before, also when source and destination overlap. |
| Buffers.RewindInPlace | lib/exec.c:763-792 | Done on the cells themselves, rewinding gives what the specification says and touches nothing above the stack. |
| Buffers.LandInPlace | lib/exec.c:663-732 | Done on the cells themselves, landing an exception whose cells lie where they overlap the destination gives prefix, parameters and exnref. |
| Memory.EmptyAtTheEnd | lib/exec_insn_subr.c:51-69 | Of all accesses that stay within the memory exactly one traps: the empty one at 2^32. |
| Memory.MemInst.constructor | lib/instance.c:161-227 | A new memory is all zero, with nothing allocated. |
| Memory.MemInst.Extend | lib/exec_insn_subr.c:74-108 | Reallocation moves the buffer and does not change the memory. |
| Memory.MemInst.Getptr | lib/exec_insn_subr.c:44-138 | Traps exactly on accesses outside; else the pointer is into the live buffer, long enough, and the flag says if the buffer moved; the memory is unchanged. |
| Memory.MemInst.Grow | lib/exec_insn_subr.c:423-530 | Fails exactly past the limits (or if the allocator does) and then changes nothing; else old bytes are kept and new ones are zero. |
| Memory.MemInst.Load | lib/exec_insn_subr.c:141-145 | Reads the bytes of the flat memory. |
| Memory.MemInst.Store | lib/exec_insn_subr.c:141-145 | Writes those bytes of the flat memory and no others. |
| Memory.MemInst.Fill | lib/insn_impl_fc.h:102-126 | memory.fill on the flat memory. |
| Memory.MemInst.Init | lib/exec_insn_subr.c:193-222 | memory.init on the flat memory; a dropped segment is empty. |
| Memory.GetBoth | lib/insn_impl_fc.h:61-91 | The retry loop of memory.copy makes at most two passes, and both pointers are then into live buffers. |
| Memory.Copy | lib/insn_impl_fc.h:61-100 | memory.copy equals a copy through a snapshot, also within one memory and when getting the destination moved the source. |
| Memory.Perform | lib/exec_insn_subr.c:44-138 | Each operation gives the result and the memory that the flat, zero-filled memory gives, or reports an allocation failure and changes nothing. |
| Memory.Run | lib/insn_impl_fc.h:61-126 | So does every sequence of loads, stores, growths, inits, fills and copies. |
| Tables.TableInst.Access | lib/exec_insn_subr.c:225-240 | Traps exactly when the range leaves the table. |
| Tables.TableInst.Fill | lib/insn_impl_fc.h:262-292 | table.fill on a sequence of references, or a trap that changes nothing. |
| Tables.TableInst.Init | lib/exec_insn_subr.c:243-291 | table.init: both bounds checked first, then the elements are those of the segment. |
| Tables.TableInst.Grow | lib/exec_insn_subr.c:345-386 | Old elements kept, new ones the given reference; -1 exactly on failure, which changes nothing. |
| Tables.MovedElements | lib/insn_impl_fc.h:174-215 | Moving the cells of whole elements moves the elements. |
| Tables.Copy | lib/insn_impl_fc.h:174-215 | table.copy equals a copy through a snapshot, also within one table. |
| Cells.SizeIsSum | lib/cell.c:104-107 | The size of a list of types is the sum of the cell sizes of its types. |
| Cells.WalkTypes | lib/cell.c:74-101 | Without a table, the walk gives the sum of the cell sizes before the index, and the size at it. |
| Cells.WalkChunks | lib/cell.c:110-142 | The walk over run-length chunks gives the same as the expanded list of types. |
| Cells.PopulateResulttype | lib/module.c:161-186 | The 16-bit table is built exactly if the total fits 65535 (and memory suffices), and holds the prefix sums. |
| Cells.PopulateLocaltype | lib/module.c:982-1019 | The same over chunks, with a cursor. |
| Cells.CountLocals | lib/module.c:1046-1081 | The number of locals is the length of the expanded declaration. |
| Cells.FrameLocals.CellidxFast | lib/cell.c:184-202 | With both tables, lookup gives the offset and size of the local in the whole frame, parameters first. |
| Cells.FrameLocals.CellidxSlow | lib/cell.c:164-180 | So does the slow path, whichever tables are missing. |
| Cells.FrameLocals.Get | lib/insn.c:188-196 | local_get reads the cells of that local. |
| Cells.FrameLocals.Set | lib/insn.c:199-207 | local_set writes that local and changes no other. |
| Cells.Disjoint | lib/cell.c:51-63 | Cell intervals of different locals do not meet. |
| Cells.CoversOnce | lib/cell.c:51-63 | No cell belongs to two locals. |
| Cells.Covers | lib/cell.c:51-63 | Every cell of the frame belongs to a local. |
| Cells.ValsToCells | lib/cell.c:246-257 | Values are laid out one after the other, and nothing around them changes. |
| Cells.ValsFromCells | lib/cell.c:260-271 | The cells are cut at the offsets of the types. |
| Cells.UnpackPack | lib/cell.c:246-271 | Reading back what was laid out gives the values. |
| Cells.PackUnpack | lib/cell.c:246-271 | Laying out what was read gives the cells. |
| Heap.MemContext.Reserve | lib/mem.c:87-104 | Succeeds exactly if the context and every ancestor have room; then all of them count the bytes, else none has changed. |
| Heap.MemContext.Unreserve | lib/mem.c:76-84 | Takes the bytes off the context and every ancestor: the inverse of a reservation. |
| Heap.MemContext.Alloc | lib/mem.c:147-159 | A failed allocation gives back what it reserved; limits keep. |
| HeapThreads.StepKeeps | lib/mem.c:39-72 | Every atomic step of every thread keeps the accounts. |
| HeapThreads.AccountsAreExact | lib/mem.c:39-240 | In every state of every interleaving a context counts the live bytes of its subtree plus what is under way there, at most its limit; when all threads are idle it counts the live bytes exactly. |
| HeapThreads.NothingRuledOut | lib/mem.c:48-72 | Idle threads may ask for any bytes anywhere, others can go on, and exchanges may fail for no reason. |
| HeapThreads.ReserveAlone | lib/mem.c:48-104 | A reservation that no other thread disturbs ends as mem_reserve does alone: refused only if some context up to the root has no room, and then nothing has changed; otherwise all of them count the bytes. |
| HeapThreads.EnoughToTake | lib/mem.c:39-45 | A counter is never less than what is taken off it, so the assertion there holds. |
| List.Head.constructor | lib/list.c:97-102 | A new list is empty. |
| List.Head.InsertTail | lib/list.c:63-73 | Appends the element. |
| List.Head.InsertHead | lib/list.c:76-94 | Prepends the element. |
| List.Head.Remove | lib/list.c:44-60 | Takes out that element, wherever it is, and keeps the order of the others. |
| List.Head.Last | lib/list.h:75-77 | The last element, found by its next-pointer, or null. |
| List.Head.Prev | lib/list.h:80-83 | The element before, or null for the first. |
| List.Head.SpliceTail | lib/list.h:128-135 | Appends the other list in constant time. |
| List.Head.SpliceHead | lib/list.h:137-150 | Prepends the other list in constant time. |
| List.Head.Check | lib/list.c:16-41 | The consistency walk ends, and its assertions hold of every valid list. |
| Utf8.CheckUtf8 | lib/module.c:467-533 | Accepts exactly the concatenations of UTF-8 encodings of Unicode scalar values: no overlong form, no surrogate, nothing above 0x10ffff. |
| Utf8.SyntaxIs | lib/module.c:467-533 | The bytes of one code point are accepted exactly if they are UTF8-1, UTF8-2, UTF8-3 or UTF8-4 of section 4 of RFC 3629. |
| Utf8.DecodedIsEncoded | lib/module.c:467-533 | One decoded code point is a scalar value, and its encoding is the bytes that were read. |
| Utf8.EncodedIsDecoded | lib/module.c:467-533 | Every encoded scalar value is decoded, whatever follows it. |
| Writer.ByteWriter.constructor | lib/module_writer.c:37-70 | A new writer has written nothing. |
| Writer.ByteWriter.Write | lib/module_writer.c:20-62 | One chunk: counted with overflow detection, and appended to the file with its errors. |
| Writer.ByteWriter.WriteLebU32 | lib/module_writer.c:73-83 | Writes the chunks of the integer. |
| Writer.ByteWriter.WriteFunctype | lib/module_writer.c:126-131 | Writes the chunks of the function type. |
| Writer.ByteWriter.WriteName | lib/module_writer.c:134-138 | Writes length and bytes. |
| Writer.ByteWriter.WriteLimits | lib/module_writer.c:141-155 | Writes the limits, with a maximum exactly if there is one. |
| Writer.ByteWriter.WriteMemtype | lib/module_writer.c:165-176 | Writes the flags of the memory and its limits. |
| Writer.ByteWriter.WriteGlobaltype | lib/module_writer.c:188-201 | Writes type and mutability. |
| Writer.ByteWriter.WriteImport | lib/module_writer.c:226-231 | Writes both names and the description. |
| Writer.ByteWriter.WriteImportSection | lib/module_writer.c:451-461 | Writes nothing for no imports, else the count and each of them. |
| Writer.ByteWriter.WriteSection | lib/module_writer.c:601-616 | Counts the content, then writes id, size and content. |
| Writer.ByteWriter.ModuleWrite1 | lib/module_writer.c:638-648 | Writes header and sections in order. |
| Writer.CounterExact | lib/module_writer.c:26-42 | The counting pass gives the number of bytes, and an error exactly if it does not fit 32 bits. |
| Writer.FileExact | lib/module_writer.c:45-70 | The writing pass succeeds exactly if no chunk is empty and all bytes fit, and then the file has exactly these bytes more. |
| Reader.ReadU32 | lib/leb128.c:25-134 | The cursor version of reading an integer agrees with the decoder on the remaining bytes. |
| Reader.ReadVec | lib/decode.c:92-148 | All or nothing: on success the elements are appended and the cursor is after them; on failure array and cursor are as before, and exactly the elements before the first one that could not be read, or for which memory ran out, are cleared, once and in order. |
| Reader.ReadName | lib/module.c:537-565 | Accepts a length and that many bytes of UTF-8. |
| Reader.ReadLimits | lib/module.c:314-417 | All flag, page-size and range checks: the decoder's answer, cursor unmoved on failure. |
| Reader.ReadMemtype | lib/module.c:421-431 | The decoder's answer for memory types. |
| Reader.ReadTabletype | lib/module.c:583-604 | The decoder's answer for table types. |
| Reader.ReadGlobaltype | lib/module.c:434-464 | The decoder's answer for global types. |
| Reader.ReadImportdesc | lib/module.c:658-722 | The decoder's answer for import descriptions, type indexes checked. |
| Reader.ReadImport | lib/module.c:802-826 | The decoder's answer for imports. |
| Reader.ReadFunctype | lib/module.c:239-275 | The decoder's answer for function types; on failure exactly the parameters, if they had been read, are cleared. |
| Reader.SectionLoad | lib/module.c:37-67 | Id, size and bytes of the next section, if they are all there. |
| Reader.ReadAll | lib/module.c:1834-1858 | A section is read only if nothing of it is left over. |
| Reader.ModuleLoad | lib/module.c:2221-2370 | The section loop gives the decoder's module: sections in order, each at most once, custom sections anywhere; at most one memory, imported or not. |
| Modules.LoadedExactly | lib/module.c:2221-2370 | For every byte string and every module: the string is loaded as the module if and only if it is the preamble and whole sections, in order and each at most once but for custom ones, of known ids, the custom ones with a name in UTF-8, and the content of each section is all of its bytes. |
| Modules.CustomInserted | lib/module.c:2127-2138 | A custom section with a UTF-8 name and any bytes, before, between or after any sections, changes nothing; one without is refused. |
| Modules.OutOfOrder | lib/module.c:2272-2284 | A section that is repeated or out of order is refused. |
| Modules.UnknownSection | lib/module.c:2221-2370 | So is one of an unknown id, and a custom one whose name cannot be read. |
| Modules.NotSections | lib/module.c:37-67 | So are bytes that are not whole sections. |
| Grammar.LimitsExact | lib/module.c:314-417 | On all inputs: limits are read exactly from flags, a minimum, a maximum if flag 1 says so, and a page size if flag 8 of a memory does; shared is flag 2 of a memory and needs a maximum; nothing above 4 GiB. |
| Grammar.TableExact | lib/module.c:583-604 | On all inputs: a table type is a reference type and limits without other flags. |
| Grammar.GlobalExact | lib/module.c:434-464 | On all inputs: a global type is a value type and 0 or 1. |
| Grammar.DescExact | lib/module.c:658-722 | On all inputs: the four kinds of import descriptions. |
| Grammar.ImportExact | lib/module.c:802-826 | On all inputs: two names in UTF-8 and a description. |
| Grammar.SignatureExact | lib/module.c:239-275 | On all inputs: a function type is 0x60 and two vectors of value types. |
| Grammar.VecExact | lib/decode.c:92-148 | On all inputs: a vector is its count and that many elements, whatever their form. |
| Grammar.TypeBytes | lib/module.c:189-232 | The bytes that are accepted for value types and reference types are those of the standard. |
| Grammar.AcceptedExactly | lib/module.c:2221-2370 | For every byte string and every module: the string is loaded as the module if and only if the grammar of the binary format says so and there is at most one memory. |
| RoundTrip.U32Restored | lib/module_writer.c:73-83 | Every u32 that is written is read back, whatever follows it. |
| RoundTrip.NameRestored | lib/module_writer.c:134-138 | A name is read back exactly if it is UTF-8. |
| RoundTrip.SignatureRestored | lib/module_writer.c:126-131 | Every function type is read back. |
| RoundTrip.LimitsReread | lib/module_writer.c:141-155 | What read_limits makes of any written limits, case by case. |
| RoundTrip.MemRestored | lib/module_writer.c:165-176 | A memory type is restored if and only if its limits are in range, its page size is one that is accepted, and it is not shared with maximum 2^32 - 1. |
| RoundTrip.SharedMaxRefused | lib/module.c:314-417 | Bytes of such a shared memory, which are accepted, while what is written for it is not. |
| RoundTrip.TableRestored | lib/module_writer.c:158-162 | A table type is restored if and only if its limits are in order. |
| RoundTrip.GlobalRestored | lib/module_writer.c:188-201 | Every global type is restored. |
| RoundTrip.DescRestored | lib/module_writer.c:204-223 | An import description is restored if and only if its type index or type can be. |
| RoundTrip.ImportRestored | lib/module_writer.c:226-231 | An import is restored if and only if both names are UTF-8 and its description is restored. |
| RoundTrip.SectionWritten | lib/module_writer.c:601-616 | A section is written exactly if its size can be told, no chunk is empty and it fits; the size in its header is then the number of bytes of its content. |
| RoundTrip.ModuleRestored | lib/module.c:2221-2370 | Reading the bytes of a module gives the module if and only if its imports, tables and memories can be restored and it has at most one memory. |
| RoundTrip.ModuleWritten | lib/module_writer.c:638-648 | Writing succeeds exactly if no import has an empty name and the bytes fit the counter and the file, which then holds exactly them. |
| RoundTrip.EmptyNameNotWritten | lib/module_writer.c:45-62 | A module that is restored from its bytes and cannot be written to any file. |
| RoundTrip.WriteAndRead | lib/module_writer.c:651-672 | Writer and reader run one after the other: written under exactly the condition of ModuleWritten, and then the same module is read exactly under that of ModuleRestored. |
| Locals.ReadEntries | lib/module.c:1046-1081 | The loop over the declarations gives the decoder's entries: chunks of no locals are dropped, the array keeps its length, the total is checked against 32 bits. |
| Locals.ReadLocals | lib/module.c:1023-1098 | With the count before it, the decoder's answer for local declarations. |
| Locals.WriteLocals | lib/module_writer.c:387-396 | Writes all entries of the array. |
| Locals.LocalsRestored | lib/module_writer.c:387-396 | Declarations that were read are restored if none of them was empty; otherwise what is written is refused. |
| Locals.LocalsExact | lib/module.c:1023-1098 | On all inputs: local declarations are a vector of counts and value types of at most 2^32 - 1 locals in all, and what is stored is the chunks that declare some. |
| Locals.StoredMeans | lib/module.c:1046-1081 | What is stored declares the same locals, one by one, in an array of the declared length. |
| Locals.NotAlwaysRestored | lib/module.c:1069-1075 | There are such declarations. |

## Left out

- Exec.Execute: assumes that no structured run of the call is stuck, which is what validation gives; validation (lib/validation.c) is not modelled beyond the jump tables it builds, and so are type annotations, pops of plain instructions and the maximum stack size of functions.
- EndToEnd.InterpreterCorrect: allows the structured run to be stuck, for the same reason.
- Nesting.RunsNest: assumes, like Exec.Execute, that no structured run is stuck.
- Framing.TailCallIsCallThenReturn: compares structured runs (the flat ones follow by EndToEnd.StructuredRuns); a callee that runs out of room may do so in a call and not in a tail call, which leaves more.
- Exec.ExecContext.RewindStack: the operand stack of the context is a sequence; the moves on the cells themselves are `Buffers.RewindInPlace` and `Buffers.LandInPlace`, and the capacity of vectors is one limit on cells.
- Exec.ExecContext.DoHostCall: a host function is any function of its arguments, of how it is entered and of the rest of the world; it does not itself change the labels, frames or locals of its callers.
- Progress.NoDeadlock: says that a way on exists; that it is taken is `Fairness.SuspendReturns`, for stops, under the fairness stated there.
- Suspend.StepKeepsInv: the code between locks is one action each, and `nrunners` is changed under the lock by a thread that is counted.
- Memory.Copy: may report failure of the allocator where a trap is due as well.
- Reader.ModuleLoad: sections for types, imports, tables and memories, and custom ones, of which the name is read and the rest skipped; the ids of the other sections are refused.
- Interrupts.InterruptReturns: how often the loop asks for interrupts (check_interval) is part of the schedule, and check_interrupt gives no other error than the restartable one.
- Callers.CallerServed: goes one way; that callers are overtaken cannot be told from the calls alone, but from who gets the mutex.
- Limits.RunWithin: that instructions keep to the declared heights is what validation computes, and a premise here.
- Reader.ReadVec: the element reader is given by its decoder and by the indexes at which memory runs out; the section loop is not connected to the methods ReadFunctype and ReadImport, which are proved against the same decoders.
- Writer.ByteWriter.ModuleWrite1: writes the same four sections; the others (functions, globals, exports, start, elements, data count, code, data, tags, custom) are left out, of the code section only the local declarations are modelled.
- HeapThreads.AccountsAreExact: a context's limit does not change during a run, and the statistics of peak use are not modelled.
- Shared memories: growth under stop-the-world, atomic instructions, waiting and notifying, and creation of shared memories.
- call_indirect and return_call_indirect: a type check in front of call and return_call.
- Integer and floating-point instructions: any function of their operands. Instructions with the prefixes 0xfd and 0xfe (SIMD, atomics) are not among those of the model.
- Constant expressions, which run without a function frame, and the start function.
- Pages of other sizes than 64 KiB in memory accesses (limits with such pages are read and written).
- Tables whose size in cells does not fit 32 bits: the index would wrap.
- Tag imports and element segments in the binary format.
- Names, exports and imports resolution, WASI, dynamic linking, the command line, statistics, tracing.

# A verified model of the compiler's middle

This project models the parts of the compiler between the front end and the
emitters whose specifications are exact, and proves that they meet them:

- **Register allocation** (`Mir`, `Liveness`, `Intervals`, `StableSort`,
  `LinearScan`, `Simulation`, `Allocator`): backward liveness to a fixpoint, hole-free
  intervals and call crossings, linear scan with eviction, downward spill slots.
  The end-to-end theorem is that building, pinning and scanning, one after the
  other, leave a located program that simulates the program on virtual registers
  on every run, although calls clobber registers.
- **Dominance and SSA** (`Cfg`, `DepthFirst`, `DomTheory`, `Dominators`,
  `Verifier`, `Execution`, `TypedEdges`): the iterative search, the
  Cooper-Harvey-Kennedy fixpoint, the verifier's structural checks, and the
  theorem that a function they accept never goes wrong on any run, exactly when
  its edges are annotated truly.
- **Pinned operations** (`Pinned`, `PinnedCompose`, `PinnedModule`): the order snapshot
  and the check after each pass, function by function and for a module, what
  acceptance means on runs, and when it composes.
- **IR transformations** (`Compaction`, `Unreachable`, `Renumbering`, `Renumber`,
  `Binary128`, `Legalise`, `LegaliseKeeps`, `LegalisePass`, `LegaliseModule`): removal of
  unreachable blocks, canonical renumbering, binary128 legalisation. Each is a
  method on arrays or lists proved equal to a function, and the function is proved to keep every run.
- **Textual IR** (`IrNames`, `IrTokens`, `IrMarks`, `IrPrint`, `IrRecords`,
  `IrValueNames`, `IrParse`, `IrTrip*`, `IrRoundTrip`, `IrModuleText`, `IrLex`,
  `IrSpell`, `IrText`, `IrWords`, `IrTextLaw`, `IrScans`, `IrLostFlag`): the printer down
  to its characters, the lexer and the parser of whole modules, every record of the
  grammar included, and the round trip through the printed text.
- **Hash indexes** (`Probing`, `Symbols`, `Spans`): the symbol table with its
  definition sites, and the two tables of source locations.
- **Fix-its** (`Fixits`, `Splice`, `FixedFile`, `Outputs`): conflicts, selection, sorting, the in-place splice, and which output each edit goes into.
- **Encoders** (`Leb128`, `LineMachine`, `DebugFiles`, `LineRows`, `LineProgram`,
  `Utf8`, `Escapes`, `Literals`): the DWARF line program and its file table, and string literals.

A method with the source's loops and state stands for each imperative
operation; a function specifies it, and the laws are lemmas about the function.
`CGF_ICE` is an explicit failure result where the model reaches it. Limits that
come from 32-bit counters are preconditions (`ID_LIMIT`, `INDEX_LIMIT`,
`LOC_LIMIT`, `FrameFits`). I/O, prompts and inode identity are parameters.

## What the code does not do

Each of these is proved, with the exact condition under which the promised law
holds and, where it fails, a concrete input.

- A forward value reference in the text is patched when its function closes, and
  the patch restores the annotation word but not `argflags`
  (src/ir/parse.c:2201-2206), so an `anon`, `sext`, `zext` or `onstack` argument
  that names a value defined later in layout order loses its mark
  (`IrLostFlag.FlagDoesNotSurvive`). And a symbol is printed after its sigil as it
  is (src/ir/print.c:213-221), though an `asm` label may hold characters that the
  lexer does not take in a name (src/parse/decl.c:302-328;
  `IrTextLaw.NameDoesNotSurvive`). The printer's comment promises the round trip for
  every module (src/ir/print.c:5-10); it holds exactly when every name can be lexed and no
  flagged argument comes before its value (`IrTextLaw.PrintParseExactly`).
- A direct external call is marked `external` when its symbol is recorded as a
  function (src/ir/print.c:502-512), but a global of the same name is recorded
  instead of it (src/ir/ir.c:515-536). Such a call is printed without the mark and read as
  internal, exactly then (`IrTripMemory.ExternalReadExactly`).
- The pinned-order check looks the snapshotted operations up by identity and
  does not ask that they are still pinned, so accepting each of two passes does
  not by itself accept their composition (`PinnedCompose.ComposesExactlyWhenStillPinned`,
  with a verified example in `PinnedCompose.LostPinIsAccepted`); when nothing loses
  its pin, any sequence of passes composes (`PinnedCompose.AcceptanceChains`).
- A function whose row in the snapshot lists nothing is passed over
  (src/ir/verify.c:1166-1167), so a pass may give it a pinned operation unnoticed, although
  the law is that no pass may introduce one (src/ir/ir.h:1137-1143). Counts are kept exactly when
  no function gains its first one (`PinnedModule.CountsKeptExactly`, `PinnedModule.GainedPinAccepted`).
  Nor do passes that remove functions compose when one comes back (`PinnedModule.DeletingChainsExactly`,
  `PinnedModule.ReturnNotKept`).
- The verifier compares the annotation of an edge argument with the parameter's
  type, never with the type of the value the argument names (src/ir/verify.c:98-141,
  src/ir/verify.c:899-920). So a run can pass a value of another type, exactly when
  some edge is annotated untruly (`TypedEdges.NeverStuckExactly`,
  `TypedEdges.MislabelledPasses`).
- `same_edit_file` is not an equivalence when an unexamined file shares its path
  with examined ones (`Fixits.SameFileTransitiveExactly`). Overlapping edits can
  then be selected for one output, exactly when a file that is written is bridged
  or aliased (`Fixits.SeparatedExactly`, `Fixits.CohesiveExactly`,
  `Fixits.BridgedFilesOverlap`); and an edit can be written nowhere or twice, which
  `Outputs.WrittenOnceExactly` characterises by paths and identities alone
  (`Outputs.EditLost`, `Outputs.EditWrittenTwice`).
- The splice buffer is sized from the final length alone (src/diag.c:899). It is
  large enough exactly when no leftmost group of edits shrinks the text by two or
  more (`Splice.FinalSizeFitsExactly`, `Splice.FinalSizeTooSmall`); otherwise the
  model of the writer reports an overrun where the source writes past the buffer
  (`FixedFile.WriteFixedFile`).
- The binary128 conversion helpers are chosen as if every float other than
  32-bit ones were 64-bit and every integer other than 64-bit ones were 32-bit
  (src/lower/f128.c:74-107). The helper's declared types are the instruction's
  exactly when no 80-bit float and no integer narrower than 32 bits takes part (`Binary128.SignatureFitsExactly`).
- A path under the compilation directory with a doubled slash after it is
  entered in the line table as an absolute path (src/cg/debug.c:139-154;
  `DebugFiles.EntryLeadsToFile`, `DebugFiles.DoubledSlashMisread`).
- Numeric escapes in UTF-16 literals are not checked against the last plane or
  the surrogates; a payload reads back exactly when its elements are scalar values
  (`Utf8.U16ReadsBackExactly`, `Literals.U16PayloadDecodesExactly`,
  `Literals.LoneSurrogateEscape`).

## Model

| member | source | states |
|---|---|---|
| Mir.LiveEquation | src/cg/shared.c:57-104 | Liveness before an instruction, defined by paths to a use with no definition in between, satisfies the transfer equation the fixpoint iterates, mid-block exits included. |
| Liveness.CgLiveness | src/cg/shared.c:47-107 | Terminates at the least fixpoint: v is in a block's live-in row exactly when some path from its start reaches a use of v before any definition, live-out likewise; fails exactly on views with an out-of-range register or target. |
| Liveness.FixpointExact | src/cg/shared.c:53-106 | Any rows that are sound, ascending and in equilibrium are the path-liveness rows: the least fixpoint, not just a fixpoint. |
| Intervals.IntervalExtend | src/cg/shared.c:109-123 | Widens one interval to include a point, touching nothing else and keeping what it covered. |
| Intervals.CgIntervalsBuild | src/cg/shared.c:188-231 | Every interval covers each point where its register is live or defined, starts and ends at such points, and has `live_across_call` set exactly when it is live after some call other than as that call's result; entry 0 stays cleared. |
| Intervals.MarkCallCrossings | src/cg/shared.c:125-186 | The backward walk marks exactly the registers live after a call they are not the result of. |
| Intervals.IntervalCovers | src/cg/shared.c:188-231 | A built table covers every point where a register is live before or after an instruction or defined there. |
| StableSort.MergedStable | src/util/sort.c:11-32 | Merging two sorted runs never carries an element of the right run past one of the left that compares equal to it. |
| StableSort.CgfSortStable | src/util/sort.c:34-56 | The bottom-up merge sort permutes its range into sorted order, keeps elements that compare equal in the order they had, and leaves the rest of the array alone. |
| LinearScan.CgSpillSlots.Assign | src/cg/shared.c:233-244 | The slot lies below everything assigned before, is aligned to its alignment, and the frame depth and counters move accordingly. |
| LinearScan.ExpireOld | src/cg/shared.c:286-291 | Removes from the active array exactly the intervals that ended before the new start. |
| LinearScan.FirstFree | src/cg/shared.c:316-327 | The first register of the pool that is usable and not in use, if any; the one-byte encoding of register 255 wraps. |
| LinearScan.FarthestEvictable | src/cg/shared.c:329-344 | The evictable interval of the class that ends last. |
| LinearScan.EvictOrSpill | src/cg/shared.c:345-371 | The newcomer is spilled exactly when no evictable interval outlives it, unless it is unspillable: then whatever is evictable goes, and it fails exactly when nothing is. |
| LinearScan.PressureEvicts | src/cg/shared.c:328-368 | When fewer immovable intervals are under way than the newcomer has usable registers, and all of those are in use, something is evictable. |
| LinearScan.StuckMeansPressure | src/cg/shared.c:357-371 | An unspillable interval is stuck only if at least as many intervals that it cannot evict are under way at its start as there are registers it may have. |
| LinearScan.CgLinearScan | src/cg/shared.c:266-379 | Gives an allocation: overlapping intervals in distinct registers, each live interval in exactly one register or slot, no unspillable interval spilled, slots disjoint and aligned. With sizes, pools and pins in range it fails exactly when the table it leaves has an unspillable interval stuck, every register it may have being held by one under way that it cannot evict; never under low pressure. |
| Simulation.StepSimulates | src/cg/shared.c:47-379 | One step of the located program, calls clobbering registers, keeps every live register's value in its register or slot. |
| Simulation.AllocationSimulates | src/cg/shared.c:47-379 | On every run of every length, each live virtual register's location holds its value and both programs take the same path. |
| Allocator.BuiltIsUnplaced | src/cg/shared.c:188-231 | What building leaves, pinned in any way, is what the scan asks for. |
| Allocator.Allocate | src/cg/x86_64/regalloc.c:1727-1742 | Build, pin and scan: on success every run of the located program simulates the register program, with the policy's and the machine's contracts as the only hypotheses. |
| DepthFirst.DepthFirstSearch | src/ir/dom.c:62-101 | The iterative search lists each reachable block once, in an order that gives every reachable block but the entry a smaller-numbered predecessor. |
| DomTheory.VisitKeepsPass | src/ir/dom.c:108-150 | Recomputing one block inside a pass keeps: every chain contains all true dominators, tree parents are smaller-numbered, and each block's parent lies on the chain of its tree parent. |
| DomTheory.ChainIsDominators | src/ir/dom.c:103-155 | In equilibrium the chain of tentative immediate dominators is exactly the set of dominators. |
| Dominators.Intersect | src/ir/dom.c:134-144 | Climbing by number reaches the lowest block common to both chains; each climb strictly lowers a number. |
| Dominators.Pass | src/ir/dom.c:106-151 | One pass over the blocks in reverse postorder keeps the invariant, and changes nothing exactly when every block is the meet of its processed predecessors; a changing pass after the first lowers the sum of numbers. |
| Dominators.IrDomTree.Build | src/ir/dom.c:32-155 | Builds the dominator tree of any graph, cyclic and irreducible included. |
| Dominators.IrDomTree.IrDominates | src/ir/dom.c:169-188 | True exactly when every path from the entry to b passes through a; an unreachable block is dominated by itself alone. |
| Dominators.IrDomTree.IrIdom | src/ir/dom.c:157-167 | The closest strict dominator, none for the entry and for unreachable blocks. |
| Verifier.CheckUse | src/ir/verify.c:98-141 | Accepts a use exactly when its id is in range and its definition comes before it or dominates it. |
| Verifier.VerifyFunc | src/ir/verify.c:743-932 | Accepts exactly the functions that pass checks 1, 2, 3, 5 and 6, with the per-instruction typing checks as a parameter; it never stops at the first failure. |
| Execution.AcceptedUseAssigned | src/ir/verify.c:98-141 | On any path to it, an accepted use has been assigned. |
| Execution.AcceptedNeverStuck | src/ir/verify.c:743-932 | On every run of an accepted function with a coherent definition table, no unassigned value is read, no edge has a wrong target or argument count and no block is run off; nor is a value of a wrong type passed if every edge is annotated truly. |
| Execution.EdgeTypesExactly | src/ir/verify.c:887-921 | An accepted edge passes values of its target's types exactly when each value argument is annotated with its definition's type. |
| TypedEdges.NeverStuckExactly | src/ir/verify.c:743-932 | No run of an accepted function goes wrong, whatever instructions compute and branches choose, exactly when every edge is annotated truly. |
| TypedEdges.MislabelledAccepted | src/ir/verify.c:887-921 | A concrete function with an untrue annotation is accepted. |
| TypedEdges.MislabelledPasses | src/ir/verify.c:887-921 | A run of it passes an i32 as an f64. |
| Compaction.CompactedReachable | src/ir/ir.c:822-936 | In the compacted function every block is reachable, every reachable block is there under its new index, and the entry is first. |
| Compaction.CompactionKeepsRuns | src/ir/ir.c:822-936 | Every run from the entry is kept up to renaming of blocks. |
| Compaction.CompactionKeepsTable | src/ir/ir.c:906-919 | The value table still agrees with the instructions; entries of removed blocks are cleared. |
| Compaction.CompactionIdempotent | src/ir/ir.c:822-936 | Compacting twice is compacting once. |
| Unreachable.MarkReachable | src/ir/ir.c:842-858 | The worklist marks exactly the reachable blocks. |
| Unreachable.IrFuncBlockReachable | src/ir/ir.c:948-982 | Answers whether some path leads from the entry to the block. |
| Unreachable.IrFuncRemoveUnreachable | src/ir/ir.c:822-936 | Slides the kept blocks down in place, never overwriting an unmoved one or reading an unset remap entry; the result is the compacted function. |
| Renumbering.NumberedInOrder | src/ir/ir.c:995-1082 | After renumbering, the definitions in document order are 1, 2, 3 and so on. |
| Renumbering.RenumberedTableAgrees | src/ir/ir.c:1020-1066 | The rebuilt table agrees with the instructions by construction, whatever the old one said. |
| Renumbering.RenumberingIdempotent | src/ir/ir.c:995-1082 | Renumbering a renumbered function changes nothing. |
| Renumbering.RenumberingKeepsRuns | src/ir/ir.c:986-1082 | Every run is kept up to the bijection on values. |
| Renumber.IrFuncRenumber | src/ir/ir.c:995-1082 | The three in-place passes produce the renumbered function; addresses of local slots follow, or are cleared if nothing defines them. |
| Pinned.IrSnapshotVolatileOrder | src/ir/verify.c:1003-1080 | Lists the pinned operations in layout order with exactly the pairs of which one must execute before the other. |
| Pinned.SnapshotOrderPreserved | src/ir/verify.c:1082-1113 | Accepts exactly when every recorded operation is found and every recorded pair is still ordered. |
| Pinned.PinnedOrderMatches | src/ir/verify.c:1168-1175 | For one function: accepts exactly when the count of pinned operations and the recorded order are kept. |
| Pinned.AcceptedRunsInOrder | src/ir/verify.c:1082-1191 | After acceptance, on every run of the new function, an operation is executed only after its recorded predecessors. |
| Pinned.UnchangedAccepted | src/ir/verify.c:1155-1191 | A function that has not changed is accepted. |
| PinnedCompose.AcceptanceComposes | src/ir/verify.c:1155-1191 | Two accepted passes compose if the first snapshot's operations are still pinned after the first pass. |
| PinnedCompose.ComposesExactlyWhenStillPinned | src/ir/verify.c:1082-1191 | Acceptance composes with every further pass exactly when those operations are still pinned. |
| PinnedCompose.AcceptanceChains | src/opt/pass.c:178-243 | Over any sequence of passes, each accepted and losing no pin, every later function keeps the first snapshot. |
| PinnedCompose.LostPinIsAccepted | src/ir/verify.c:1155-1191 | A concrete pair of passes: three verified functions, each pass accepted, the composition not. |
| PinnedModule.IrSnapshotModule | src/ir/verify.c:1003-1062 | One row for each function, under its name, with its snapshot. |
| PinnedModule.PinnedModuleMatches | src/ir/verify.c:1155-1191 | Accepts exactly when each row that lists something finds its function by name and is kept by it, a missing one being allowed by the policy alone, and nothing is pinned in a function without a row; otherwise it blames a function that breaks this. |
| PinnedModule.UnchangedModuleAccepted | src/ir/verify.c:1155-1191 | A module that has not changed is accepted under either policy. |
| PinnedModule.CountsKeptExactly | src/ir/ir.h:1137-1143 | An accepted module has as many pinned operations in each function as before exactly when no function gained its first one. |
| PinnedModule.ModuleComposesExactly | src/ir/verify.c:1155-1191 | Every module the next check accepts keeps the first snapshot exactly when the first pass took no pin and added no function. |
| PinnedModule.ModuleChainsExactly | src/opt/pass.c:178-243 | Over any sequence of accepted passes that lose no pin, a later module keeps the first snapshot exactly when everything pinned is in a function that was there at the start. |
| PinnedModule.DeletingChainsExactly | src/opt/pass.c:178-243 | Where passes may remove functions, none losing a pin or giving a function its first, it does so exactly when no function with pinned operations was removed and came back. |
| PinnedModule.ModuleAcceptanceChains | src/opt/pass.c:178-243 | When no pass removes a function, loses a pin or gives a function its first, every later module keeps the first snapshot and all it lists. |
| PinnedModule.ReturnNotKept | src/ir/verify.c:1169-1171 | A concrete function removed by one pass and brought back by the next, both accepted, the two together not. |
| PinnedModule.GainedPinAccepted | src/ir/verify.c:1166-1167 | A concrete pass that introduces a volatile store is accepted, and with the pass before it does not keep the first snapshot. |
| Probing.FindStable | src/ir/ir.c:266-305 | An index a linear search has found keeps its meaning when entries are added. |
| Probing.Probe | src/ir/ir.c:278-286 | Probing ends, at the slot of the first entry with the key or at an empty slot, and then the key is absent. |
| Probing.EmptySlotExists | src/ir/ir.c:274-286 | Fewer entries than slots leave one empty, so probing terminates. |
| Probing.InsertNext | src/ir/ir.c:235-249 | Indexes one more entry; a key seen before keeps its first index. |
| Probing.Rebuild | src/ir/ir.c:251-266 | A fresh power-of-two table at least twice as large as needed that indexes every entry. |
| Probing.IndicesStable | src/ir/build.c:86-121 | Over any run of insertions, indices given out are stable, every key has one, and no key has two. |
| Symbols.IrModule.IrSym | src/ir/ir.c:268-305 | Returns what a first-match linear search would, or the next index for a new name, and keeps the index and the definition sites valid. |
| Symbols.IrModule.IrGlobalNew | src/ir/ir.c:515-536 | Adds a global; its symbol's site is the first global of that name, overriding a function. |
| Symbols.IrModule.IrFuncNew | src/ir/ir.c:559-610 | Adds a function; its symbol's site is set unless something already defines it. |
| Symbols.IrModule.IrModuleRefreshFuncSymbolDefs | src/ir/ir.c:333-355 | After functions were dropped, brings every definition site back in step with a scan. |
| Symbols.IrModule.IrSymBinding | src/ir/ir.c:1150-1166 | The recorded sites give the binding a scan of the definitions gives. |
| Symbols.IrModule.ScannedBinding | src/ir/ir.c:1135-1149 | The linear-scan fallback gives the same binding. |
| Spans.IrLocs.IrInternSpan | src/ir/build.c:86-121 | Ids from one, zero for a span without a file; the id a linear search would give, stable for good. |
| Spans.DebugSpans.DiagAddDebugSpan | src/diag.c:198-225 | The same for the debug table, which stays below seven tenths full across growth. |
| Spans.DebugSpans.GrowSlots | src/diag.c:183-196 | Doubling rehashes every location. |
| Binary128.PlanDecides | src/lower/f128.c:149-225 | For each of the fourteen predicates and each outcome, NaN included, the planned calls and tests decide the IEEE relation; only runtime comparators are called. |
| Binary128.OneCallNotEnough | src/lower/f128.c:197-220 | The two predicates planned with two calls are exactly those no single call and test can decide. |
| Binary128.SignatureFitsExactly | src/lower/f128.c:40-107 | The helper chosen is declared with the instruction's types exactly when no 80-bit float or narrow integer takes part. |
| Binary128.ExtendedFloatMisfit | src/lower/f128.c:80-85 | A concrete extension picks a helper with another operand type. |
| Legalise.NothingLeft | src/lower/f128.c:390-439 | No binary128 comparison and no operation with a helper is left. |
| Legalise.LegalUnchanged | src/lower/f128.c:390-439 | Code with nothing to legalise is left alone. |
| Legalise.IdsFresh | src/lower/f128.c:234-368 | Inserted instructions define exactly the ids after those in use, each once; the old ones keep identity, id and edges, in order. |
| LegaliseKeeps.InstAgrees | src/lower/f128.c:335-368 | The instructions put in an instruction's place leave every old value, the rest of the world and the last result as the instruction would, for all operands. |
| LegaliseKeeps.LegalisedRunsAlike | src/lower/f128.c:390-439 | Every run of the legalised function goes through the same blocks with the same old values and effects. |
| LegalisePass.Walk.RewriteCompare | src/lower/f128.c:258-368 | Splices the calls and tests in ahead of the cursor and turns the comparison into the last of them. |
| LegalisePass.Walk.LegaliseBlock | src/lower/f128.c:404-430 | The walk with its moving cursor legalises the whole block, and fails exactly on an unknown predicate. |
| LegalisePass.LowerLegalizeF128 | src/lower/f128.c:401-430 | Legalises every block of a function in order, leaving nothing for the runtime to do; fails exactly on an unknown predicate. |
| LegaliseModule.LegalisedSingleDefs | src/lower/f128.c:234-368 | After splicing every value still has one definition and an entry, as renumbering asks. |
| LegaliseModule.LowerLegalizeModule | src/lower/f128.c:390-439 | Legalises the functions one after the other with one symbol table, renumbering those in which something was spliced and their local slots; does nothing where the machine has binary128, and fails exactly on an unknown predicate. |
| LegaliseModule.FinishedFunc | src/lower/f128.c:431-437 | Each function ends with nothing for the runtime, one definition for each value, and its values numbered in document order if they were so before or anything was spliced. |
| LegaliseModule.ModuleFinished | src/lower/f128.c:397-438 | So for every function of the module, whatever symbols the functions before it added. |
| IrNames.OpNameBack | src/ir/print.c:42-55 | Every opcode spelling is found again under its own number. |
| IrNames.TypeNameBack | src/ir/print.c:32-35 | Every type spelling is found again under its own number. |
| IrValueNames.VnBuild | src/ir/print.c:134-158 | The numbering table gives each value its place in document order, and marks the rest unnumbered. |
| IrValueNames.PrintVal | src/ir/print.c:205-211 | A value is printed by its number, an undefined one as a bad name. |
| IrTripOperands.AtomBack | src/ir/parse.c:692-789 | A printed operand parses to itself, or waits under its printed name if its value is not yet defined. |
| IrTripOperands.CallArgBack | src/ir/parse.c:830-937 | A printed call argument comes back with its packed annotation and its flags; of a value not yet defined only the annotation. |
| IrTripLists.ArgsBack | src/ir/parse.c:944-971 | The count taken ahead of a printed list is its length, and the list parses back. |
| IrTripLists.EdgeBack | src/ir/parse.c:1012-1045 | A printed edge parses back to its target, whether the block is earlier or later, its arguments and its case value. |
| IrTripLists.CasesBack | src/ir/parse.c:1764-1807 | The cases of a printed switch parse back, however many. |
| IrTripInsts.BinaryBack | src/ir/parse.c:1313-1356 | Printed arithmetic parses back with its flag. |
| IrTripInsts.CompareBack | src/ir/parse.c:1357-1398 | Printed comparisons parse back, the written operand type agreeing with the operands. |
| IrTripInsts.CastBack | src/ir/parse.c:1454-1486 | Printed conversions parse back, the operand being read before the result is defined. |
| IrTripInsts.SelectBack | src/ir/parse.c:1556-1574 | Printed selects parse back. |
| IrTripInsts.VectorBack | src/ir/parse.c:1399-1453 | Printed negations and vector operations parse back with the result type the parser derives. |
| IrTripMemory.MemoryBack | src/ir/parse.c:1487-1555 | Printed memory operations parse back with alignment, flags and effective type. |
| IrTripMemory.AtomicBack | src/ir/parse.c:1683-1730 | Printed atomics parse back with their operation and flags. |
| IrTripMemory.CallBack | src/ir/parse.c:1575-1667 | Printed calls parse back: internal, external (marked when the name also has a body) and indirect (marked when the pointer is a symbol). |
| IrTripMemory.ExternalReadExactly | src/ir/print.c:502-512 | A printed direct external call is read as external exactly when no global hides a function of that name. |
| IrTripBlocks.TerminatorBack | src/ir/parse.c:1731-1810 | Printed terminators parse back. |
| IrTripBlocks.InstBack | src/ir/parse.c:1267-1815 | Any printed instruction other than `asm` parses to what it was, save the flags of forward call arguments. |
| IrRoundTrip.PrescanBlocks | src/ir/parse.c:1823-1863 | The scan for labels finds exactly the printed block headers, in order, and nothing inside an instruction. |
| IrTripFunc.BlocksBack | src/ir/parse.c:1865-1903 | Printed blocks parse back one after another, each label found under its own number. |
| IrTripMarks.FuncMarksBack | src/ir/parse.c:2032-2130 | The marks after a printed parameter list are read back, whichever of the fifteen are there, down to priorities, sections and the ABI of the result. |
| IrTripMarks.ParamMarkBack | src/ir/parse.c:1963-2020 | A parameter's printed annotation is read back. |
| IrTripMarks.SymMarksBack | src/ir/parse.c:477-522 | A symbol's printed marks are read back. |
| IrTripMarks.AliasBack | src/ir/parse.c:2228-2263 | A printed alias is read back with its linkage and marks. |
| IrTripMarks.GlobalBack | src/ir/parse.c:2265-2404 | A printed global is read back with its marks, every byte of its image, and its relocations, which add no symbol. |
| IrRoundTrip.FuncBack | src/ir/parse.c:1905-2223 | Parsing a printed function gives its header with every mark, its values, types and blocks, forward references resolved, only the flags of forward call arguments lost. |
| IrRoundTrip.FuncRoundTripExactly | src/ir/ir.c:1226-1327 | The parsed function is the printed one in every compared field exactly when no flagged call argument names a later value. |
| IrRoundTrip.RenumberedCanonical | src/ir/ir.c:995-1082 | A renumbered function is numbered as the parser numbers, so it may be printed. |
| IrModuleText.FuncScanned | src/ir/parse.c:2410-2436 | The scan for functions finds each printed header once and nothing inside a body. |
| IrModuleText.ModuleBack | src/ir/parse.c:2438-2517 | Parsing a printed module gives its identification strings, symbols with marks, aliases and globals as they were, in order, and every function as it was but for flags lost. |
| IrModuleText.ModuleRoundTripExactly | src/ir/parse.c:2438-2517 | It gives the whole module as it was exactly when no function loses a flag. |
| IrModuleText.TextRoundTripExactly | src/ir/print.c:761-849 | The same on text, whatever whitespace keeps the words apart. |
| IrSpell.LinesLexBack | src/ir/print.c:170-314 | Lines spaced and spelled as the printer does, with its addends, hexadecimal widths and line breaks, lex back to their tokens. |
| IrSpell.BareEdgeText | src/ir/print.c:324-338 | After the parentheses of an edge without arguments a comma and a space come, wherever it stands in a line. |
| IrText.BareEdgeInCondbr | src/ir/print.c:621-630 | So between the two edges of a conditional branch. |
| IrText.BareEdgeInBranch | src/ir/print.c:615-620 | And before the mark of a branch. |
| IrTextLaw.PrintedIsText | src/ir/print.c:761-857 | The printed text of a module, character by character, is one of those texts when its names can be lexed. |
| IrWords.ParsedNamesLex | src/ir/parse.c:165-437 | Whatever text is parsed, every symbol, alias target and label of the module it gives can be lexed again. |
| IrTextLaw.PrintParseExactly | src/ir/print.c:5-10 | Parsing the printed text gives the module as it was exactly when its names can be lexed and no function loses a flag. |
| IrTextLaw.PrintTells | src/ir/print.c:5-10 | Two such modules print alike only if they are alike but for lost flags. |
| IrTextLaw.NameDoesNotSurvive | src/ir/print.c:213-221 | A concrete symbol with a dash in its assembler spelling does not come back. |
| IrLostFlag.FlagDoesNotSurvive | src/ir/parse.c:2201-2206 | A concrete module fit to print does not come back as it was. |
| IrLex.TextLexesBack | src/ir/parse.c:165-437 | Text in the printer's spelling lexes back to its tokens: identifiers, signed and wrapped integers, hexadecimal halves, quoted bytes. |
| IrLex.QuotedBack | src/ir/print.c:170-198 | Any byte string, NUL included, survives quoting and lexing. |
| IrScans.LexText | src/ir/parse.c:165-437 | The lexer's loop. |
| IrScans.PrescanBlocks | src/ir/parse.c:1823-1863 | The loop of the label scan. |
| IrScans.CountItems | src/ir/parse.c:944-971 | The loop that counts list items by depth. |
| IrScans.PrescanFunctions | src/ir/parse.c:2410-2436 | The loop of the function scan. |
| Fixits.NoConflictMeansSeparated | src/diag.c:808-823 | Edits of one file are free of conflict exactly when one ends strictly before the other starts. |
| Fixits.SameFileTransitiveExactly | src/diag.c:751-762 | Being the same file is an equivalence exactly when no unexamined file bridges or aliases examined ones. |
| Fixits.MarkConflicts | src/diag.c:991-1006 | Marks exactly the edits in some conflicting pair, and counts those edits. |
| Fixits.SelectEdits | src/diag.c:1007-1038 | Selects exactly the edits without conflict that are machine-applicable, or that the answers up to the decisive one, and then the decisive one, accept. |
| Fixits.TransitiveIsCohesive | src/diag.c:751-762 | Where being the same file is an equivalence, the files merged into an output are always one file to each other. |
| Fixits.SelectedSeparated | src/diag.c:808-823 | Selected edits of one output file are pairwise strictly apart when the files merged into it are one file to each other. |
| Fixits.CohesiveExactly | src/diag.c:751-762 | Which is so exactly when no unexamined file bridges or aliases it. |
| Fixits.SeparatedExactly | src/diag.c:1039-1062 | For every edit list, selections without conflict are strictly apart in every output exactly when each file that is written is of that kind. |
| Fixits.BridgedFilesOverlap | src/diag.c:751-762 | A concrete selection that overlaps because the relation is not an equivalence. |
| Splice.SortReverse | src/diag.c:845-861 | The insertion sort permutes its array into descending starts. |
| Splice.SplicesSubstitute | src/diag.c:900-914 | Splicing from the right, one edit after another, is one simultaneous substitution on the original text. |
| Splice.SpliceInPlace | src/diag.c:904-913 | The overlapping move and the copy perform one splice in the buffer. |
| Splice.SpliceAll | src/diag.c:899-914 | The loop leaves the substituted text in the buffer, or runs past its end, the latter exactly when some intermediate text does not fit. |
| Splice.DescendingUnique | src/diag.c:845-861 | The sorted list, hence the result, does not depend on the order of collection. |
| Splice.FinalSizeFitsExactly | src/diag.c:899 | A buffer of the final length plus one suffices exactly when no leftmost group of edits shrinks the text by two or more. |
| Splice.FinalSizeTooSmall | src/diag.c:899 | A concrete deletion for which it does not. |
| FixedFile.WriteFixedFile | src/diag.c:863-914 | Collects, compares the originals, sorts and splices in a buffer of the source's size: the text written is the substitution of all selected edits of that file, unless a leftmost group shrinks the text by two or more and the splice overruns. |
| FixedFile.SubstitutionUnique | src/diag.c:863-914 | That text is the same whatever the order of the edit list. |
| FixedFile.MarkAndSelect | src/diag.c:991-1038 | After marking and selection nothing selected is in a conflict. |
| Outputs.DroppedExactly | src/diag.c:1039-1062 | No output takes the edits of a file exactly when no unexamined file leads its path and no examined file that is written takes them. |
| Outputs.WrittenOnceExactly | src/diag.c:1039-1062 | Every selected edit goes into exactly one output exactly when no file is dropped so, and none has two such takers. |
| Outputs.TransitiveWrittenOnce | src/diag.c:1039-1062 | When being the same file is an equivalence each edit goes into exactly one output. |
| Outputs.EditLost | src/diag.c:1039-1062 | A concrete table for which the edits of a file are written nowhere. |
| Outputs.EditWrittenTwice | src/diag.c:1039-1062 | A concrete table for which the edits of a file are written into two outputs. |
| Outputs.OnceWithoutTransitivity | src/diag.c:1039-1062 | A concrete table that is no equivalence and yet writes every edit once. |
| Leb128.CgDwarfUleb | src/cg/debug.c:27-40 | Writes the unsigned encoding of any 64-bit number within ten bytes. |
| Leb128.CgDwarfSleb | src/cg/debug.c:42-58 | Writes the signed encoding of any 64-bit number within ten bytes. |
| Leb128.UlebReadsBack | src/cg/debug.c:27-40 | The unsigned encoding reads back, whatever follows. |
| Leb128.SlebReadsBack | src/cg/debug.c:42-58 | The signed encoding reads back, whatever follows. |
| Leb128.UlebShortest | src/cg/debug.c:27-40 | No encoding of the number is shorter. |
| Leb128.SlebShortest | src/cg/debug.c:42-58 | No encoding of the number is shorter. |
| LineMachine.CgDwarfSpecial | src/cg/debug.c:60-72 | Finds the special opcode for the two deltas exactly when there is one. |
| DebugFiles.Tables.AddFile | src/cg/debug.c:128-158 | Numbers a path as a first-match search would, entering it with its directory if it is new. |
| DebugFiles.Tables.AddDir | src/cg/debug.c:113-126 | Numbers a directory; the compilation directory is zero. |
| DebugFiles.EntryLeadsToFile | src/cg/debug.c:128-158 | A table entry leads to the file its path leads to exactly when no doubled slash follows the compilation directory. |
| DebugFiles.DoubledSlashMisread | src/cg/debug.c:139-154 | A concrete path that is entered as another file. |
| LineRows.OnePrologueEnd | src/cg/debug.c:254-286 | At most one row ends the prologue, and one does exactly when some labelled row has a line. |
| LineProgram.CollectFiles | src/cg/debug.c:195-212 | The input is file one, and every path a row will name is in the header. |
| LineProgram.EmitRow | src/cg/debug.c:262-285 | The bytes for one row, decoded, bring file and line up to date and copy the row. |
| LineProgram.EmitDebugLine | src/cg/debug.c:214-291 | Run on the state machine of the standard, the program gives exactly the function row, each labelled row and the end row of every function with their files and lines, and enters no file after the header. |
| LineProgram.CgEmitDebugLine | src/cg/debug.c:336-358 | The same from an empty table: collect, then emit. |
| Utf8.DecodeRawUtf8 | src/lex/strlit.c:68-114 | Accepts exactly the well-formed sequences of section 4 of RFC 3629, giving a scalar value that is written as the bytes consumed. |
| Utf8.Utf8ReadsBack | src/lex/strlit.c:262-279 | Reading undoes writing for every scalar value, wherever the bytes stand. |
| Utf8.WrittenIsWellFormed | src/lex/strlit.c:262-279 | What is written is well-formed exactly for scalar values. |
| Utf8.U16ReadsBackExactly | src/lex/strlit.c:281-295 | The UTF-16 units read back to the value, whatever follows, exactly for scalar values. |
| Escapes.DecodeChar | src/lex/strlit.c:119-259 | One element: an escape, a universal character name or a character, failing as the source does. |
| Escapes.HexExactlyWhenItFits | src/lex/strlit.c:196-222 | A hexadecimal escape is its number exactly when that fits 32 bits, and saturated otherwise. |
| Literals.LexStringLit | src/lex/strlit.c:411-523 | The payload is the encoding of the elements of all tokens, each decoded on its own, with one terminator; the byte count is the element count times the width. |
| Literals.BytesAreElements | src/lex/strlit.c:452-523 | The payload is as many bytes as its elements take, surrogate pairs and multi-byte names included. |
| Literals.JoinedExactly | src/lex/strlit.c:427-444 | Tokens agree on an encoding exactly when no two prefixes differ. |
| Literals.WideElementAt | src/lex/strlit.c:297-303 | Element k of a literal of 32-bit elements is element k of the source. |
| Literals.U16PayloadDecodesExactly | src/lex/strlit.c:281-295 | A UTF-16 payload decodes to the source's elements exactly when all of them are scalar values. |
| Literals.LoneSurrogateEscape | src/lex/strlit.c:196-222 | A concrete token is accepted although its payload is a lone surrogate. |
| Literals.WideTextKept | src/lex/strlit.c:119-135 | A wide literal of plain text keeps the text. |
| Literals.NarrowTextKept | src/lex/strlit.c:119-135 | A narrow literal of plain text is its bytes. |

## Left out

- `asm` instructions: their text form is not a full round trip in the source either (src/ir/parse.c:1126-1137).
- The parser works on token lists passed along; its cursor, the growth of its arrays and the aliasing of operand slots with the fixup list are not captured. A pending operand stands for a fixup, so only the order in which errors are reported differs.
- The parser returns the blocks of a function in the order of their headers, which is the order the label scan numbers them in; the block table indexed by label is not modelled.
- IrTextLaw.PrintParseExactly: asks for a module the printer is meant for: functions numbered in order, symbols, functions and labels unique, no label spelled like an opcode or a type, no direct external call to a function's name that a global hides, and numbers within the fields that hold them. A symbol's thread-local model is none or initial-exec, the only two it can have (src/ir/ir.h:787).
- A parameter's annotation word is kept as the fields the text shows.
- LegaliseModule.LowerLegalizeModule: functions are values here; runs through splicing and through renumbering are covered by `LegaliseKeeps.LegalisedRunsAlike` and `Renumbering.RenumberingKeepsRuns`, each with its own notion of a run.
- Bitset rows are sets of register numbers; packing into 64-bit words is not modelled.
- `FrameFits` bounds spill offsets instead of modelling their wrap-around, and rounding to an alignment is a division rather than a mask.
- Terminators are taken to define nothing, which the source ensures where instructions are built.
- Verifier.VerifyFunc: checks 4 and 7 to 9, the typing and flag rules of each opcode, enter as a parameter, being a case table without interplay.
- PinnedModule.PinnedModuleMatches: the exact and the deleting policy; those for inlining and cloning, and the groups the inliner records, are not part of this model.
- The log of removed blocks that `remove_unreachable` can retain.
- The u32 counters of tables, and the fixed capacity of the debug file and directory tables, are preconditions or left unbounded.
- Hash functions are parameters: everything proved holds for any function of the key; masking with a power of two is the remainder.
- Fix-it offsets are given; their computation from lines and columns, and writing the temporary file, are not modelled.
- The rest of the repository: the driver, diagnostics, the preprocessor, semantic analysis, the optimizer, ABI lowering and the emitters.

# Verified core of the TIR compiler infrastructure

This project models the parts of TIR whose correctness rests on invariants
that no single function shows, and proves those invariants in Dafny 4.11:

* **The IR store and its parallel epochs** (`core/src/store.rs`, `core/src/pass.rs`).
  Ids are minted chunk by chunk, by one owner or in the reserved lanes of an
  epoch (`Minting`), whose merge leaves a committed base for the next one
  (`LaneMerge`); over whole histories every row is minted once (`MintRuns`), a
  chunk is filled on exactly when it may be (`MintFills`) and ids keep ascending
  under an exact condition (`EpochOrder`). A commit merges the batches row by row (`SpaceMerge`),
  replays use replacements over the rows others wrote (`Replacements`,
  `EpochMerge`, `ReplacementTheorems`) and moves the counts (`EpochCommit`,
  `EpochTheorems`). Use lists and op lists are lazy indexes that must agree
  with a full scan (`UseIndex`, `HeldLists`, `Holders`), order in a block is
  kept by gap-numbered positions (`HeldOrder`, `Holders`), whole histories of
  edits show what plain tables and sequences do (`UseRuns`, `HolderRuns`), a batch
  that never names what it retired gives the merge what it asks (`RetiredRuns`), and
  the tasks of an epoch are run by a pool of workers (`WorkerPool`).
* **Unordered regions** (`core/src/region.rs`, `interp.rs`, `state_verification.rs`,
  `clone.rs`). The flat read scan against the recursive definition
  (`SiblingReads`), Kahn's ordering and its cycle report (`TopologicalOrder`),
  demand-driven execution (`Demand`), the verifier's path masks against what a
  loop iteration runs (`ThetaPaths`), mutual exclusion of state consumers in
  whole executions (`Exclusion`, `Execution`, `CfgPaths`, `CfgRuns`), and deep
  copies (`Clone`, `CloneTheorems`, `CloneRegions`, `CloneDistinct`,
  `CloneOrder`, `CloneSorted`, `CloneAlike`, `CloneVerified`, `Cloner`).
* **The C preprocessor** (`fcc/src/preprocessor.rs`). Hideset macro expansion
  in the manner of section 6.10.3.4 of ISO/IEC 9899:2018 (`LexOrder`,
  `MacroModel`, `MacroExpander`, `MacroTheorems`), what an invocation is replaced
  by (`MacroCalls`), conditional inclusion (`Conditionals`), and the `#if`
  evaluator (`IfExpressions`) against the grammar of section 6.5 of that standard
  (`IfGrammar`) and 64-bit arithmetic (`Bits64`, `IfMeaning`).
* **Encoding layout and BTOR2 linking** (`tmdl/src/encoding.rs`,
  `tir/src/model_check.rs`). The tiling of an instruction word
  (`EncodingLayout`), and the linking of a checker onto an implementation,
  against the format's own grammar (`Btor2`, `Stitch`, `StitchNames`,
  `StitchReads`, `StitchForm`, `StitchMeaning`, `StitchRuns`).

Code that changes things step by step is modelled by classes and methods with
loops, each proved against a specification function or predicate; the theorems
are lemmas about those specifications. `Options`, `Seqs`, `Arithmetic` and `ForeignSets` hold
what several modules share.

Check everything with `dafny verify dfyconfig.toml`.

## Model

| member | source | states |
|---|---|---|
| Minting.Db.MintRow | core/src/store.rs:490-508 | a mint takes the open chunk or a fresh one, and leaves the space the specification `Mint` gives, or the unchanged one when the id space is exhausted |
| Minting.Db.TakeFreshChunk | core/src/store.rs:579-591 | a fresh chunk is the next index without a lane and the next index of the lane with one |
| Minting.Db.MintUnder | core/src/store.rs:645-650 | minting moves into an op's partition only when that is not the module's, is another one and no lane is set; it returns what to go back to |
| Minting.Db.MintInto | core/src/store.rs:641-643 | and goes back to it |
| Minting.MintAddsItsRow | core/src/store.rs:549-591 | a mint adds exactly one row, the one its id names, which was not there before |
| Minting.MintKeepsLane | core/src/store.rs:549-591 | every mint of a task keeps its new chunks in its lane and grows no committed chunk but the one it has to itself |
| Minting.TaskRunStaysInLane | core/src/store.rs:1943-1961 | the same over every run of a task's mints from the forked base |
| Minting.LanesNeverCollide | core/src/store.rs:2209-2215 | over a committed base, two tasks of an epoch never mint the same row nor a base row, exclusive ones included, and a chunk both have is a committed one |
| LaneMerge.MergeLanes | core/src/store.rs:2090-2102 | merging what the tasks of an epoch minted, with the open chunks exclusive tasks hand on, gives a committed space again that holds every chunk of the base and of each task as its one grower left it |
| LaneMerge.EachRowOnce | core/src/store.rs:2209-2215 | after the merge a row is the base's or was minted by exactly one task |
| MintRuns.RunHistory | core/src/store.rs:1943-1961 | so every history of mints and epochs, of any length, keeps the invariant each epoch starts from, and its log is exactly the rows of the store, each once |
| MintRuns.EveryRowMintedOnce | core/src/store.rs:11-12 | in every history each mint made one row, every row of the store is one mint's and no id was minted twice |
| LaneMerge.SharedChunksCommitted | core/src/store.rs:2209-2215 | batches of such an epoch meet what the row-wise merge expects: a chunk two of them touched is committed |
| Minting.MintAscends | core/src/store.rs:549-577 | one more mint without lanes keeps the id order of the whole history |
| Minting.IdsAscend | core/src/store.rs:11-16 | in every run without lanes a later row has the larger id whenever both share a partition or either is in the module's |
| MintFills.NextFills | core/src/store.rs:549-577 | in every run without lanes a partition's next row goes on filling the chunk of its last one exactly when that has room and nothing was minted since that the row must lie above; otherwise it starts a chunk above all others |
| MintFills.TaskFills | core/src/store.rs:549-591 | a task fills the chunk of its last row up before it takes the next of its lane |
| MintFills.FirstFills | core/src/store.rs:1943-1961 | its first row goes on in the base's open chunk exactly when it has the partition to itself and that chunk was to be filled on |
| EpochOrder.OrderGoesOnExactly | core/src/store.rs:549-577 | from any store, whatever is minted next lies above all it must lie above exactly when no open chunk that would be filled further lies below a row of its partition or the module's |
| EpochOrder.TaskAscends | core/src/store.rs:579-591 | over a base in order the rows of one task ascend and lie above those of the base they must lie above |
| EpochOrder.MergeKeepsOrder | core/src/store.rs:2090-2102 | over a base in order, ids minted after the merge ascend exactly when every task that minted into a partition with a usable open chunk had it to itself, or some task minted into the module |
| EpochOrder.SharedPartitionBreaksOrder | core/src/store.rs:11-16 | otherwise they need not, although the store's description promises it: after an epoch of two tasks sharing a partition, the next mint goes on filling the old chunk below the rows of both |
| WorkerPool.StepInv | core/src/pass.rs:1034-1051 | every action of any worker keeps the pool's invariant: each index is waiting, held by exactly one worker, or stored |
| WorkerPool.AnyInterleavingIsSequential | core/src/pass.rs:1034-1061 | for every interleaving of any number of workers, once all have left every target was started exactly once and the slots are the sequential loop's |
| WorkerPool.StepProgresses | core/src/pass.rs:1034-1051 | every action of a worker that has not left reduces the work left, so no schedule runs forever |
| WorkerPool.Epoch.RunAll | core/src/pass.rs:1031-1061 | the pool run to the end, workers picked in any way, fills every slot with its task's result |
| WorkerPool.RunSequentially | core/src/pass.rs:1058-1063 | with no other workers the loop fills every slot with its task's result |
| WorkerPool.ExclusiveTasks | core/src/pass.rs:1015-1026 | a task is exclusive exactly when its partition is not the module's and no other target shares it |
| SpaceMerge.FoldIsMerge | core/src/store.rs:2220-2236 | merging the versions of one row fails exactly when two batches edit it, and else gives its one editor's version, or the base's marked as retargeted or untouched |
| SpaceMerge.MergeRows | core/src/store.rs:2220-2236 | the row loop absorbs one batch's chunk into every row, or stops at a row an earlier batch edits |
| SpaceMerge.MergeChunk | core/src/store.rs:2213-2243 | a chunk with several writers merges exactly when no row of it has two editors, with foreign sets joined |
| SpaceMerge.MergeSpace | core/src/store.rs:2185-2248 | a space merges exactly when no row is edited by two batches; every touched chunk is taken whole from its only writer or row by row |
| EpochMerge.ReplaceValue | core/src/store.rs:2288-2297 | an operand takes one step per other batch, in batch order, each to where that batch's map leads |
| EpochMerge.RetargetRows | core/src/store.rs:2275-2300 | every written row has its operands so replaced, and no other row changes |
| EpochMerge.CommitOps | core/src/store.rs:1970-1993 | the op space fails to commit exactly when two batches have each written a row that is not the base's with its operands run through that batch's own replacement log; else it is merged and retargeted |
| EpochMerge.OpsClashIs | core/src/store.rs:2220-2236 | the merge's clash of two edits, found through its maps, is that of two such rows of one op, told from the logs and cells alone |
| EpochMerge.ReplacedIsReplayed | core/src/store.rs:2250-2273 | where a batch's map agrees with its replacements in order, a row counts as unedited if and only if it is the base's with each operand run through those replacements |
| EpochCommit.Db.Merge | core/src/store.rs:1967-2107 | a commit succeeds exactly when no two batches wrote one row of the four spaces, ops that are the base's but for a batch's own replacements aside; otherwise nothing changes; on success every space is merged, edit and mint counts move by the sum of what each batch counted (mod 2^32), and the tick follows the latest batch |
| EpochCommit.DisjointIs | core/src/store.rs:1967-2107 | that no row has two editors is told from stamps, cells and replacement logs, without the merge |
| EpochCommit.CountParts | core/src/store.rs:2066-2078 | a partition's count moves by the batch's own count since before the commit, however many batches bump it |
| EpochCommit.SumOrderFree | core/src/store.rs:2066-2089 | the sum of the moves does not depend on the order of the batches |
| EpochTheorems.MergeIsThreeWay | core/src/store.rs:2203-2247 | without replacements every row after the merge is its one writer's version, fresh rows included, or else the base's |
| EpochTheorems.NoReplacements | core/src/store.rs:1970-1993 | when no batch replaced a use, no write counts as unedited and the op merge is that three-way merge |
| EpochTheorems.OrderFree | core/src/store.rs:2185-2248 | reordering the batches changes no row of a merged space |
| EpochTheorems.DisjointOrderFree | core/src/store.rs:1967-2107 | whether a commit succeeds does not depend on the order of the batches, replacements included |
| EpochTheorems.CommitOrderFree | core/src/store.rs:1967-2107 | without replacements a reordered commit gives all four spaces the same rows |
| EpochTheorems.TotalOrderFree | core/src/store.rs:2063-2089 | every count a commit moves comes out the same in any order |
| ReplacementTheorems.CleanCommitOrderFree | core/src/store.rs:1967-2107 | with replacements, a reordered commit of a clean epoch gives every live op row the same cells |
| Replacements.RetargetMap | core/src/store.rs:2109-2120 | the loop computes the redirected map of the replacement log |
| Replacements.MapIsReplay | core/src/store.rs:2109-2120 | the map applied once equals the ordered replay, at every point of the log, exactly when no entry retires again a value that stands elsewhere by then |
| Replacements.MapIsReplayOfWhole | core/src/store.rs:2109-2120 | over a whole log, as a commit uses it, the map applied once is the ordered replay exactly when the first and the last retirement of every value lead to the same place |
| Replacements.RetiredTwiceDiffers | core/src/store.rs:1484-1493 | a value retired twice makes the two differ |
| Replacements.DisciplinedReplays | core/src/store.rs:2109-2120 | when no value is retired twice and none replaces another once retired, the map applied once is the ordered replay |
| Replacements.MapIsFinal | core/src/store.rs:2109-2120 | under the discipline the map leads from every retired value to a replacement that stays |
| ReplacementTheorems.ReplaceIsFinal | core/src/store.rs:2288-2297 | replaying the other batches' maps over a row its writer left clean finishes every value, whatever the order |
| ReplacementTheorems.MergedOp | core/src/store.rs:2250-2300 | after a commit of a clean epoch every live op row, only retargeted, edited or new, is its editor's version or the base's with every operand final |
| ReplacementTheorems.NoReplacementLost | core/src/store.rs:2250-2300 | if no value is retired twice, none is another batch's replacement and no batch's live ops name what it retired, then after the commit no live op names a retired value |
| RetiredRuns.RunBatch | core/src/store.rs:1484-1493 | a batch's edits, of which none names a value already retired or replaces one by itself, end with no live slot holding a retired value |
| RetiredRuns.ObeyingBatch | core/src/store.rs:2109-2120 | so such a batch meets what the merge asks of it, whatever table it started from |
| UseIndex.RefreshKnows | libs/relational/src/grouping.rs:70-138 | a refresh reads every logged owner, whether it rebuilds, folds the tail or only extends it |
| UseIndex.RefreshBounds | libs/relational/src/grouping.rs:70-91 | a refresh keeps the tail within 64 entries or an eighth of the base, and makes a new base of an index that has one only for that |
| UseIndex.ReadIsScan | libs/relational/src/grouping.rs:156-168 | a refreshed grouping answers exactly its partition's slots holding the value |
| UseIndex.WriteKeeps | core/src/store.rs:691-700 | a write at the current tick, logged unless this tick already did, keeps the grouping right but for what is logged |
| UseIndex.Db.PutOp | core/src/store.rs:691-741 | a row write keeps every partition's index and the noted foreign partitions, and changes that row alone |
| UseIndex.Db.AddOperation | core/src/store.rs:1341-1358 | a new op with its operands keeps the index |
| UseIndex.Db.SetOperand | core/src/store.rs:1380-1390 | a dead op is refused; else one slot changes and the index stays right |
| UseIndex.Db.SpliceOperands | core/src/store.rs:1392-1411 | the same for a splice |
| UseIndex.Db.KillOp | core/src/store.rs:1859-1867 | an erased op's slots leave the index |
| UseIndex.Db.RefreshUses | core/src/store.rs:1101-1107 | a stale partition is refreshed and the tick moves on, the others stay right |
| UseIndex.Db.Uses | core/src/store.rs:1146-1157 | the uses of a value, each once, are exactly the live operand slots holding it, whatever partitions the ops are in |
| UseIndex.Db.IsUsed | core/src/store.rs:1159-1163 | true exactly when some live slot holds the value |
| UseIndex.Db.ReplaceValueUses | core/src/store.rs:1484-1493 | every live slot that held the old value holds the new one and no other slot changes |
| UseRuns.Run | core/src/store.rs:1341-1411 | every run of edits and lookups from an empty database, as long as callers keep their side, ends in one that is right, shows the plain table the edits make and has logged its replacements since the last commit |
| UseRuns.UsesAfter | core/src/store.rs:1146-1157 | so after any run the uses of a value are the plain table's slots holding it, each once |
| HeldLists.Refresh | libs/relational/src/grouping.rs:248-352 | taking logged ops out of their lists and putting each where it sits now gives lists that are right for every op of the partition |
| HeldLists.ListedOnce | core/src/store.rs:1169-1204 | a holder's list is determined by the rows |
| Holders.Db.PutOp | core/src/store.rs:1570-1594 | a row write is logged and its holder told of its partition, keeping every list right but for what is logged |
| Holders.Db.Held | core/src/store.rs:1169-1204 | the list is exactly the live ops whose holder it is in position order, alone, mixed or sorted again |
| Holders.Db.HeldIn | core/src/store.rs:1187-1203 | lists of several partitions need sorting only when two of them have ops |
| Holders.Db.SetHeld | core/src/store.rs:1620-1635 | the listed ops are held a stride apart and the counter follows |
| HeldOrder.SetIsExact | core/src/store.rs:1620-1635 | setting gives exactly the list if and only if everything the holder held is in it |
| HeldOrder.SetKeepsStrangers | core/src/store.rs:1620-1635 | an op left out of the list stays in the holder |
| HeldOrder.SetSpaces | core/src/store.rs:1620-1635 | a renumbered holder of at most 2^24 - 4 ops has positive, distinct positions below a counter under the limit, and other holders keep theirs |
| Holders.Db.NextPosition | core/src/store.rs:1596-1618 | a position past all others without overflow; renumbering and retrying ends and keeps the list |
| Holders.Db.AppendHeld | core/src/store.rs:1637-1640 | the list becomes itself without the op, then the op |
| Holders.Db.InsertHeld | core/src/store.rs:1642-1656 | the op lands at the index, renumbering first when there is no gap |
| Holders.Db.ReplaceHeld | core/src/store.rs:1658-1667 | refused unless held here; else the new op stands where the old one stood |
| Holders.Db.RemoveHeld | core/src/store.rs:1669-1675 | refused unless held here; else the list loses exactly the op |
| HeldOrder.OtherList | core/src/store.rs:1570-1584 | another holder's list loses at most the op that moved |
| HolderRuns.Run | core/src/store.rs:1570-1675 | every run of edits and lookups from an empty database ends in one whose lists are the plain sequences the edits make |
| HolderRuns.HeldAfter | core/src/store.rs:1169-1204 | so after any run a holder's list is exactly its sequence |
| TopologicalOrder.Order | core/src/region.rs:262-294 | Kahn's loop keeps pending counts and always takes the least ready op |
| TopologicalOrder.CycleMember | core/src/region.rs:385-410 | walking blocked producers ends, finds a next one each time, and names the least op of a real cycle |
| TopologicalOrder.TopologicalOrder | core/src/region.rs:239-306 | succeeds exactly when the reads are acyclic, with the lexicographically least permutation in which producers precede readers; else names an op on a cycle |
| SiblingReads.Subtree | core/src/store.rs:1258-1272 | the breadth-first worklist ends and finds exactly the ops in the region at any depth |
| SiblingReads.SiblingRead | core/src/store.rs:1295-1314 | climbing ends at the op beside the producer, or finds there is none |
| SiblingReads.CollectRegionReads | core/src/region.rs:366-383 | collects exactly what the region and everything in it names and defines |
| SiblingReads.ValuesRead | core/src/region.rs:308-322 | the values read are the operands and what the regions read and do not define |
| SiblingReads.ScanIsRead | core/src/store.rs:1316-1337 | every pair of the flat scan is a pair of the recursive definition |
| SiblingReads.ReadIsScan | core/src/store.rs:1316-1337 | and every pair of the recursive definition is in the scan |
| SiblingReads.ReadsBeside | core/src/store.rs:1316-1337 | the scan of a region returns exactly the pairs of its ops where the second defines a value the first reads |
| Demand.DemandValue | core/src/interp.rs:359-380 | demanding a value starts exactly what it needs and was not started, each op once, and after everything it reads when the region has no cycle |
| Demand.ExecNodesRegion | core/src/interp.rs:344-358 | an unordered region runs the least set of ops its results need, in such an order |
| ThetaPaths.MarkPath | core/src/state_verification.rs:36-50 | the worklist ends and marks exactly the least set of ops that one side of the loop needs, leaving the other side's bit alone |
| ThetaPaths.VerifyPaths | core/src/state_verification.rs:26-53 | an op has bit 1 exactly when the test and the results fed back need it, bit 2 exactly when the test and the results handed out do, each by index, and no other bit |
| ThetaPaths.ExecIteration | core/src/interp.rs:547-592 | an iteration that goes on runs the least set of ops that the test and the results fed back need, one that leaves what the test and the results handed out need, each op once, and after everything it reads when the body has no cycle; those are the ops whose mask has the bit of the path taken |
| Exclusion.ActsInside | core/src/state_verification.rs:138-162 | a consumer acting inside a region's execution has that region among its ancestors, on a path that is taken |
| Exclusion.ExclusiveExactly | core/src/state_verification.rs:128-182 | different consumers are taken to be exclusive by paths or arms if and only if they sit, at some depth, below one owner, either in one region with paths and no path bit in common or in two arms of a gate |
| Exclusion.ExclusiveNeverBoth | core/src/state_verification.rs:128-182 | consumers taken to be exclusive by paths or arms have a common owner with no iteration in which both act |
| Execution.ExecTheta | core/src/interp.rs:547-592 | a loop runs one iteration more than it was told to go on; every one but the last runs exactly what the test and the results fed back need, the last what the test and the results handed out need, each op once and after what it reads; it fails only when no steps are left |
| Execution.ExecGamma | core/src/interp.rs:594-617 | a gate runs exactly one arm, the chosen one or the last when the choice is past it, and in it exactly the ops its results need; it fails only when no steps are left |
| Execution.ExclusiveInExecution | core/src/state_verification.rs:128-182 | in every such execution of an op and all inside it, whatever the predicates come to, exclusive consumers have a common owner such that wherever it runs no iteration has both act |
| CfgPaths.PathBeforeDefinition | core/src/state_verification.rs:223-270 | the search answers exactly when the steps of everything reached are understood, and when it is, whether control can get from one op to the other before a new definition |
| CfgPaths.StepsAre | core/src/state_verification.rs:238-268 | an op's steps are known exactly when it sits in a block and each block it may branch to belongs to the region and, unless it defines the state, has a first op; they are the op behind it and those first ops |
| CfgPaths.ExclusiveInCfg | core/src/state_verification.rs:191-221 | uses are found exclusive if and only if neither defines the state, the steps of everything either reaches are understood, and neither reaches the other before a new definition |
| CfgRuns.ExecRegion | core/src/interp.rs:318-343 | executing an ordered region gives a run: each op of a block in turn until one branches or leaves; it ends by leaving, by falling through a block or at the step limit |
| CfgRuns.UnreachedNeverFollows | core/src/state_verification.rs:211-270 | when the search denies a path, then in every run of the region, whatever its branches do, the state is defined anew between the two ops |
| CfgRuns.ExclusiveUses | core/src/state_verification.rs:191-221 | uses are found exclusive under exactly that condition, and then follow each other in no execution within one lifetime of the state |
| Cloner.Context.CloneOpInto | core/src/clone.rs:145-191 | copying an op, regions first, gives the specified copy and mapping |
| Cloner.Context.CloneNodesRegionInto | core/src/clone.rs:121-143 | copying a region, ports first and bound ones kept, gives the specified copy and mapping |
| CloneTheorems.RegionRenames | core/src/clone.rs:121-195 | a nested copy is the source under the final renaming |
| CloneRegions.CopyIsRenaming | core/src/clone.rs:41-51 | the whole copy is the source with every reference renamed once: bound ones to their binding, the source's own to new values, others kept |
| CloneDistinct.CopyIsInjective | core/src/clone.rs:121-195 | and different definitions that are not bound get different new values |
| CloneRegions.CopyCapturesNothing | core/src/clone.rs:121-195 | no operand or region result of the copy names a value the source defines |
| CloneRegions.CopyEvaluates | core/src/clone.rs:30-51 | the copy evaluates to the source's results, whatever the ops compute, when bound and outside values agree |
| CloneAlike.RegionAlike | core/src/region.rs:239-245 | however the ops of a verified region are sorted, at every depth, it evaluates to the same results |
| CloneOrder.OrderedIsGood | core/src/clone.rs:132-136 | ops that name only siblings before them make a well-scoped region |
| CloneOrder.TopologicalIsOrdered | core/src/region.rs:239-245 | a topological order of the sibling reads is such an order |
| CloneSorted.SortedIsGood | core/src/clone.rs:132-136 | a verified region whose ops name only siblings before them, at every depth, is well scoped |
| CloneSorted.SortRegion | core/src/region.rs:239-306 | ordering every region of a tree gives the same tree but for the order of ops, each region sorted when its reads are acyclic and left as it was when not |
| CloneVerified.CopyRegion | core/src/clone.rs:41-51 | the copy of every verified region without cyclic reads is a renaming of it, keeps definitions apart, captures nothing and evaluates to what the region does in any sorted order of its ops |
| MacroModel.ReplaceDescends | fcc/src/preprocessor.rs:1014-1064 | replacing a token and what follows by tokens of lower rank lowers the queue's height |
| MacroModel.PaintedRanksBelow | fcc/src/preprocessor.rs:1052-1062 | tokens painted with the macro's name and hideset rank below the invocation |
| MacroModel.ArgumentsDescend | fcc/src/preprocessor.rs:861-899 | every argument's own expansion starts lower than the invocation's queue |
| MacroModel.ObjectStep | fcc/src/preprocessor.rs:1027-1035 | an object-like expansion lowers the queue |
| MacroModel.FunctionStep | fcc/src/preprocessor.rs:1036-1062 | a function-like expansion, pre-expanded and pasted arguments included, lowers the queue |
| MacroExpander.QueuedExpansion.TakeInvocation | fcc/src/preprocessor.rs:1066-1118 | a failed invocation leaves the queue exactly as it was; a found one takes exactly its tokens |
| MacroExpander.QueuedExpansion.NextExpanded | fcc/src/preprocessor.rs:1014-1064 | ends for every table and queue and yields the next token of the queue's expansion |
| MacroExpander.ExpandTokens | fcc/src/preprocessor.rs:986-999 | draining a queue ends and yields the expansion of its tokens |
| MacroExpander.SubstituteArguments | fcc/src/preprocessor.rs:861-899 | the body with each parameter's raw argument beside `##` and its expansion elsewhere, as MacroCalls states |
| MacroExpander.PasteTokens | fcc/src/preprocessor.rs:918-984 | the two-queue loop computes the specified pasting |
| MacroTheorems.InvocationExact | fcc/src/preprocessor.rs:1066-1118 | an invocation is found exactly when the queue spells one: blanks, an opening parenthesis, balanced arguments between commas, the closing one, and the right count |
| MacroCalls.FunctionCall | fcc/src/preprocessor.rs:861-899 | an invocation is replaced by its body, painted and pasted, in which a token naming the k-th parameter, the first of that name, gives the k-th argument without blanks at its ends: as it is, or a placemarker for none, when the nearest token that is no blank on either side is `##`, and all of its expansion otherwise; every other token gives itself |
| MacroCalls.CallInlines | fcc/src/preprocessor.rs:861-899 | so without `##`, in the body and in what the arguments expand to, an invocation is replaced by its body with each parameter replaced by its argument's full expansion |
| MacroCalls.ObjectCall | fcc/src/preprocessor.rs:1027-1035 | an object-like name is replaced by its body, hidden from itself and from what hid the name |
| MacroCalls.OthersStay | fcc/src/preprocessor.rs:1014-1064 | any other token, and a function-like name without its arguments, stays |
| MacroTheorems.ObjectExpansionInlines | fcc/src/preprocessor.rs:1014-1064 | with object-like macros only, expansion is recursive inlining of names not hidden |
| MacroTheorems.ObjectExpansionDistributes | fcc/src/preprocessor.rs:986-999 | and it distributes over concatenation |
| MacroTheorems.ExpandedIsNormal | fcc/src/preprocessor.rs:1014-1064 | and its result has no name left that could expand |
| MacroTheorems.ObjectExpansionIdempotent | fcc/src/preprocessor.rs:986-999 | so expanding again changes nothing |
| MacroTheorems.ExpandsToItself | fcc/src/preprocessor.rs:1014-1064 | whatever the macros, a queue expands to itself exactly when no token of it starts an expansion: no expandable object-like name, and no function-like one with its arguments behind it |
| MacroTheorems.ExpansionIdempotent | fcc/src/preprocessor.rs:986-999 | so expanding again changes nothing exactly when the first expansion leaves no such token |
| MacroTheorems.ExpansionNotIdempotent | fcc/src/preprocessor.rs:1036-1062 | and it can leave one: a function-like name exposed by an expansion may meet its arguments only the second time |
| MacroTheorems.PasteGlues | fcc/src/preprocessor.rs:918-984 | a paste puts one token with the joined spelling and both hidesets in place of the tokens on both sides of it, over any blanks, or leaves the three when that is no token, drops a placemarker, and leaves the rest alone |
| MacroTheorems.PasteFirst | fcc/src/preprocessor.rs:918-984 | pastes are done from the left, each result the left side of the next |
| MacroTheorems.PasteAtEdge | fcc/src/preprocessor.rs:929-948 | a `##` with nothing on one side stays a token |
| Conditionals.TokenStream.AdvanceCond | fcc/src/preprocessor.rs:662-678 | a guard is tested only when no branch was taken and the group is not skipped |
| Conditionals.TokenStream.Process | fcc/src/preprocessor.rs:471-566 | one line moves the flat machine as specified |
| Conditionals.IfTests | fcc/src/preprocessor.rs:651-660 | `#if` opens a group that is active when its expression is not 0, its name is defined, or is not, and one skipped for good inside a group that is not active |
| Conditionals.ElifTests | fcc/src/preprocessor.rs:662-678 | `#elif` ends an active group and tests its condition only in an inactive one |
| Conditionals.ElseTurns | fcc/src/preprocessor.rs:662-678 | `#else` takes an inactive group on and ends an active one |
| Conditionals.PlainLines | fcc/src/preprocessor.rs:471-566 | where nothing is skipped a line is passed on, or defines or undefines its name alone; elsewhere it does nothing |
| Conditionals.FlatRefinesNested | fcc/src/preprocessor.rs:471-566 | on every well-nested group the flat machine emits, defines and evaluates exactly what the tree evaluation taking the first true branch does, and restores the stack |
| Conditionals.BranchesRefine | fcc/src/preprocessor.rs:651-678 | after a taken branch no later condition is evaluated and nothing of it is emitted |
| Conditionals.ParseGroup | fcc/src/preprocessor.rs:471-566 | every balanced line sequence is a well-nested group |
| Conditionals.Preprocess | fcc/src/preprocessor.rs:314-328 | so for every balanced sequence the machine's output is the tree's |
| IfExpressions.IfExpr.EvalBinary | fcc/src/preprocessor.rs:187-198 | the climbing loop gives what every solution of the evaluator's equations does for its precedence, which IfGrammar reads against the grammar's tiers |
| IfExpressions.IfExpr.EvalTernary | fcc/src/preprocessor.rs:172-185 | the conditional gives what those equations do, or panics where its parts do |
| IfExpressions.IfExpr.EvalUnary | fcc/src/preprocessor.rs:200-239 | prefix operators and `defined`, with or without parentheses |
| IfGrammar.TierReaches | fcc/src/preprocessor.rs:187-198 | tokens derived from a tier of the grammar, from logical or up to `* / %`, are read up to their end as the value of the tree they derive, wherever no tighter operator follows |
| IfGrammar.ConditionalReaches | fcc/src/preprocessor.rs:172-239 | the same for a whole conditional expression |
| IfGrammar.EvaluateDerived | fcc/src/preprocessor.rs:155-282 | on the tokens of any expression of the grammar the evaluator returns the value of the derived tree and consumes every token |
| IfGrammar.PrintedDerives | fcc/src/preprocessor.rs:155-308 | every tree has a spelling in the grammar, with parentheses only where a looser construct stands in a tighter tier |
| IfGrammar.MissingOperand | fcc/src/preprocessor.rs:241-276 | a missing operand is 0, and one token is skipped for it |
| IfGrammar.MissingParenthesis | fcc/src/preprocessor.rs:264-271 | a closing parenthesis may be missing |
| IfGrammar.MissingColon | fcc/src/preprocessor.rs:172-185 | and so may a colon |
| IfGrammar.MissingName | fcc/src/preprocessor.rs:218-236 | `defined` without a name is 0 and takes no more than its parentheses |
| IfGrammar.PrintedEvaluates | fcc/src/preprocessor.rs:155-308 | every solution of the evaluator's equations reads a tree so printed back to its value and stops right behind it |
| IfGrammar.EvaluatePrinted | fcc/src/preprocessor.rs:155-282 | the evaluator on the printed tokens returns the tree's value and consumes exactly those tokens |
| IfMeaning.ApplyComputes | fcc/src/preprocessor.rs:284-310 | what each binary operator computes: truth values, bits one by one, shifts by powers of two, exact sums and products that fit or panic, quotient and remainder rounded toward zero, and 0 for a division by zero |
| IfMeaning.ValueComesTo | fcc/src/preprocessor.rs:155-310 | a tree's value is composed of what its operators compute |
| IfMeaning.EvaluateChecked | fcc/src/preprocessor.rs:155-282 | with checked 64-bit arithmetic the result on any expression is the value of its tree, composed of what each operator computes, and fits 64 bits, or the evaluator panics where an operation overflows or shifts too far |
| EncodingLayout.DrawnInvolutive | tmdl/src/encoding.rs:98-121 | drawing bits unit by unit is its own inverse |
| EncodingLayout.FieldCovers | tmdl/src/encoding.rs:98-121 | a field that fits takes exactly the word bits drawn inside it |
| EncodingLayout.FitsExactly | tmdl/src/encoding.rs:98-121 | a field fits exactly when the word bits drawn in it are one run |
| EncodingLayout.DrawnHighBitFirst | tmdl/src/encoding.rs:98-121 | inside a unit the earlier drawn bit is the higher word bit |
| EncodingLayout.LayoutTiles | tmdl/src/encoding.rs:98-121 | the ranges of fields that fit cover every bit of the word exactly once |
| EncodingLayout.EncodingArms | tmdl/src/encoding.rs:91-134 | ranges exactly when the total is whole units and each field fits; they are ascending, disjoint and cover every bit once |
| EncodingLayout.CheckEncodingUnits | tmdl/src/encoding.rs:138-162 | no complaint exactly when there are ranges |
| EncodingLayout.OneUnitAlwaysFits | tmdl/src/encoding.rs:126-134 | a word laid out as one unit always fits |
| Stitch.Rewrite | tir/src/model_check.rs:121-148 | the checker's lines are kept with ids shifted and references redirected, wired inputs dropped, properties held aside |
| Stitch.EmitProperty | tir/src/model_check.rs:155-184 | the properties are numbered on from the last id, gated when there is a reset |
| StitchNames.ResetIs | tir/src/model_check.rs:66-85 | the properties are gated by an input of the implementation named `reset`, and are not gated exactly when there is none |
| StitchNames.DriversAre | tir/src/model_check.rs:78-82 | the driver of a name is the node of an output line of the implementation with that name |
| StitchNames.InputsAre | tir/src/model_check.rs:92-98 | the inputs of the checker are its input lines by number, with their names |
| StitchNames.LastIdIs | tir/src/model_check.rs:115-123 | the added lines are numbered on from the offset or from a line of the checker |
| StitchNames.PlainLines | tir/src/model_check.rs:162-167 | without a reset each property is a `bad` line of its node and name |
| StitchNames.GatedLines | tir/src/model_check.rs:168-184 | with one each is a `bad` line of its gate and name, behind the constraint |
| Stitch.StitchFiles | tir/src/model_check.rs:66-153 | the miter is the implementation verbatim, the linked checker and the properties; a missing input, output, number or property is reported as such |
| StitchReads.RewritesRight | tir/src/model_check.rs:47-58 | a line is rewritten right, under every link, exactly when the linker's table of reference positions and the format agree on its numbers |
| StitchReads.MisreadLines | tir/src/model_check.rs:47-58 | lines where they do not: the value `write` writes and an array's sorts are not moved, a `consth` literal and a numeric symbol are |
| StitchReads.GeneratedIsUnderstood | tir/src/model_check.rs:47-58 | the operations a generated checker uses are all read right |
| StitchForm.MiterIsWellFormed | tir/src/model_check.rs:66-184 | the miter has unique ids, and every token the format calls a reference names a node before it |
| StitchMeaning.CheckerMeansTheSame | tir/src/model_check.rs:112-148 | every checker node evaluates in the miter as in the checker alone given the implementation's outputs, and the implementation's nodes keep their values |
| StitchMeaning.BadsCorrespond | tir/src/model_check.rs:129-134 | the properties held aside are the checker's property lines, each once and in their order, with its node linked and its name kept |
| StitchMeaning.LinkingKeepsMeaning | tir/src/model_check.rs:47-58 | linking keeps what a line means, under every link and whatever its operation computes, exactly when the line is so understood |
| StitchMeaning.StartedFromOne | tir/src/model_check.rs:172-177 | in every run the added state is low at step 0 and high ever after |
| StitchMeaning.GatedFires | tir/src/model_check.rs:172-184 | the constraint holds in a step exactly when reset is high there if and only if it is step 0, and a gate is high exactly after step 0 when its property's node is |
| StitchRuns.MiterChecks | tir/src/model_check.rs:66-184 | in every run of the lines the linker returns for an implementation with a reset, the i-th gated property fires in a step exactly when it is not the first and the i-th property of the checker fires in the checker alone given the implementation's outputs |
| StitchRuns.MiterChecksPlain | tir/src/model_check.rs:155-169 | without a reset it fires exactly when it does in the checker alone |
| StitchRuns.LinkFiles | tir/src/model_check.rs:66-153 | what the linker returns for understood files is such a miter, and well formed |

## Left out

- Registry, interning, interface dispatch and the context's handles: thin wrappers over the store.
- `core/src/typecheck.rs`, e-graph and solver internals: their meaning lives in other crates.
- Chunk compaction, memory statistics, versions and settled passes.
- After a merge the partitions' groupings are reset and their chunk lists extended; the index modules speak of one database between merges.
- Block lists of a region and the lists of region results, which work as the op lists and use lists do.
- The use index and the op lists are modelled as two databases over the cells each reads; a write both see is a write of each.
- UseIndex.Db.Uses: groupings keep their entries as sets, so the order in which uses are returned is not modelled.
- `append_block`'s counter, which never renumbers, and holders beyond 2^24 - 4 ops.
- Ticks and stamps are unbounded; the code's are 32 bits wide and never wrap in practice.
- Minting.LanesNeverCollide: one id space at a time, since the four do not interact, and a task mints into one partition, since partition scopes do nothing in a lane. That the base is committed is LaneMerge's result.
- SpaceMerge.MergeSpace: at most 65534 batches, beyond which 16-bit batch numbers collide with the marker for retargeted rows; that only a committed chunk has two writers is asked for here and is the result of LaneMerge.SharedChunksCommitted.
- EpochCommit.Db.Merge: the records of replaced ops and the settled passes an exclusive task hands on are not modelled; the open chunk it hands on is LaneMerge's.
- ReplacementTheorems.MergedOp: says nothing of the stamps of rows or of dead rows.
- TopologicalOrder.TopologicalOrder: the ops of a region are a set and ids are numbers; the random choice of `shuffled_topological_order` is left out.
- ThetaPaths.ExecIteration: what the ops compute is a function of the ops run so far; leaf ops, memory, poison and calls are left out.
- Exclusion.ExclusiveNeverBoth: executions are trees of op runs in which a gate runs at most one arm and a loop iteration only ops with the bit of its path, as the Execution module produces them; masks have a bit for each path and no other, as ThetaPaths.VerifyPaths sets them; read forks of memory state, which need no exclusion, are left out.
- Execution.ExclusiveInExecution: loops and gates over unordered regions; other ops are leaves. The step limit is always set, and a run that exceeds it has no result.
- UseIndex.Db.PutOp: a value an op names belongs to a chunk that exists, as every minted value does.
- Holders.Db.SetHeld: the list names live ops, none twice, as `set_region_ops` and `set_block_ops` ask of their callers.
- CloneRegions.CopyEvaluates: unordered regions all the way down; ordered regions and an op reading its own result from its body are left out.
- CloneVerified.CopyRegion: promises nothing of a region with cyclic reads beyond copying it in the order its ops have.
- CfgRuns.ExecRegion: an op is one event, whatever it executes inside; the flow it hands back is any function of how much has happened, within the successors it declares.
- Lexing, `#include`, files, spans, diagnostics and scratch interning; macro tables are fixed while a queue is drained.
- IfGrammar.EvaluateDerived: arithmetic is a parameter that may panic, instantiated in IfMeaning by checked 64-bit arithmetic, which is what the build used for tests has. On tokens the grammar does not derive, the equations of IfExpressions hold and IfGrammar's lemmas on missing parts say what stands in for them.
- EncodingLayout.EncodingArms: fields of width at least 1 whose sum fits 16 bits.
- Stitch.StitchFiles: lines are token lists; splitting text into lines and tokens, and running `btormc`, are left out. Names are words, so an input or output named by a number is not wired.
- Ids of lines are unbounded; the code's are 32 bits wide.
- StitchForm.MiterIsWellFormed: for checkers whose lines the linker understands, which StitchReads shows is exactly where it rewrites right, whose input names are unique, and which speak of one step: no `state`, `init`, `next`, `constraint`, `fair` or `justice` line, as generated checkers have none.
- Btor2: references are unsigned, so a negated one is not a number.
- StitchMeaning.CheckerMeansTheSame: the same checkers; the implementation's values in each step are given, since its lines are emitted verbatim, and computed from its lines in StitchRuns; a node's meaning is any function of its literals and of the nodes it names.
- Code generation, parsing and checking of C, lowering of TMDL, BTOR2 emission, scripts, benches and command-line tools.

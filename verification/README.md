# A verified model of the KVMem slot pool

KVMem keeps a bounded window of a long token history on the GPU. The history is cut into blocks of a
fixed number of rows; a block may own one of `n_slots` GPU slots, and row r of a block in slot s lies in
cell s * block + (r mod block) of an ordinary llama.cpp cache. Blocks move out of the window (packed
into a host store) and back in, slots are renumbered, rows are rolled back and computed again, a second
draft cache follows along, and speculative decoding and a request cache are built on top. This project
models that machinery and proves what must stay true of it over every run.

K/V bytes, tokens and keys are opaque values: nothing about them is assumed, so a row in the wrong cell,
a stale copy or a lost row cannot go unnoticed.

## How it is built

The operations that change the pool in place are methods of classes with the same fields. Each is proved
equal to a function on the pool's value, and the theorems are about runs of those functions.

| modules | what they hold |
|---|---|
| `Arith` | cutting rows into blocks |
| `SlotTable`, `SlotPool`, `Runs` | free stack, block placement, all pool operations as functions, runs of them, the slot partition |
| `Epoch`, `Views`, `Turns` | the attention epoch as optimistic validation; valid views; exactly which steps keep the epoch; pinned windows; skipping the replay |
| `Admission`, `Selecting`, `Room` | `can_append`, `selection_fits`, plans within the pool; exactly when there is room |
| `Relayout`, `Coherence`, `CoherentRuns`, `Serving`, `Retrieval` | re-layout; no stale cell and no lost row, over every serving run; what a retrieval leaves on the GPU |
| `Positions`, `Removal` | row positions over every serving run; rows removed, replayed and left behind |
| `BlockTable`, `PoolSteps`, `LayoutSteps`, `PoolObject` | class `KvPool`: the block table, stack, cells and bytes updated in place |
| `Pressure`, `PoolPlan` | the pressure selector, and when making room is safe; sizing the pool |
| `PressureRuns`, `SplitTail` | runs from an empty cache that end badly, step by step |
| `Follower`, `Lockstep` | the draft cache that owns no slots |
| `SpecDecode` | the speculative loop against the plain loop |
| `DecodeMean`, `MeanAccumulator` | mean-K over accepted rows; class `Accumulator` |
| `Harvest`, `SyncHarvest` | the harvest worker as a state machine over every interleaving; class `Pipe` without the worker |
| `Slab` | class `WriteBack`: the pinned-slab write-back |
| `Transaction` | class `Server`: a request commits or rolls back |
| `Hadamard`, `HadamardLoops` | the K rotation over exact reals, and its loops |

Four ideas carry most of the proofs.

- The partition counts: for each slot number, entries on the stack plus owning blocks is exactly one.
- A valid view compares the number of live cells with the number of resident rows, and every resident row
  is live in its own cell. Both together leave no cell over, so the view is exact.
- The coherence invariant: a live cell holds the bytes last computed for its row, a block is live as a
  whole or not at all, and a computed row is live or packed.
- Admission promises that the stack covers the blocks still to be placed up to the bound. Placing a block
  uses up what it covers, and truncating gives back as much as it uncovers.

## Where the code does less than it promises

Each of these has its exact condition, or a concrete input, among the members below.

- Cache size not a multiple of the block (no budget given, context not a multiple): `can_append` counts
  slots, but the last rows of the top slot have no cell (`PoolPlan.WholeSlots`,
  `Admission.PartialSlotLosesRows`).
- No budget given and a context smaller than a block: the budget is raised to a block and exceeds the
  cells (`PoolPlan.BudgetFits`).
- Host checkpoints: a retried draft that ends in end-of-generation is restored again and again
  (`SpecDecode.RestoreRepeats`, `SpecDecode.HostRestoreHangs`).
- A mean-K layer that returns to the GPU inside a block loses the host's sum
  (`DecodeMean.GpuAfterHostLoses`).
- The direct fallback of the asynchronous harvest overwrites the row positions that the worker may still
  be using (`Harvest.LoudPackingMixes`; a run: `Harvest.SecondCopyFails`).
- A rollback that fails drops the rollback record but leaves rows, live row count and cached prompt as
  they were, so the live rows need not start the cached prompt any more (`Transaction.Server.FailToUndo`
  has the exact condition, `Transaction.LostRow` an input).
- A pressure plan whose budget does not reach the tail moves a live, partly computed tail out and packs
  rows that were never computed (`Pressure.RoomLosesNothing` and `Pressure.SelectorMakesRoom` have the
  exact condition, `PressureRuns.TailDropped` an input).
- Appending behind a partial tail that is not live splits the block between cache and store, and the next
  retrieval makes its first rows live with leftover bytes, in the target and in the draft
  (`Serving.AppendNeedsLiveTail` has the exact condition, `SplitTail.SplitTailGoesStale` and
  `SplitTail.DraftGoesStale` the input). `can_append` guards against it, the plain prepare step does not.
- A retrieval that finds the slots in order restores only the blocks that come in with its own plan; a
  block given a slot earlier and never filled stays cold (`Retrieval.RetrievedIsWhole` has the exact
  condition, `PressureRuns.RetrievedCold` an input).
- The draft counts a block as restored when one row of it is packed; that matters only for a split block
  (`Lockstep.RestoredIffWhole`, `Lockstep.ColdIsWhole`).
- `slot_for_orig_pos` predicts the wrong slot when a block before the asked one still needs a slot
  (`Follower.PredictionIsExact`).
- Removing everything by model position drops the block table but neither the packed rows, nor the recorded
  positions, nor the kept window. A block that is computed anew afterwards counts as packed already, and
  comes back with its removed bytes (`Removal.RemovedAllIff` and `Removal.RemovedVersusCleared` have the exact
  conditions, `Removal.RemovedComesBack` an input). Clearing the cache forgets them.
- Two draft rows that are both expected in the slot on top of the stack share a cell when their offsets
  agree (`Follower.DraftCollision` has the exact condition).

## Model

| member | source | states |
|---|---|---|
| `Runs.StepValid` | src/adapter/llama-memory-kvmem.cpp:804-1408 | every operation (batch, truncation, replay, plan, re-layout, restore, selection, removal, commit, flags) keeps the pool valid: the free stack and the owned slots together hold each slot number exactly once, only GPU blocks own slots, the table covers the stored rows |
| `Runs.ReachablePartition` | src/adapter/llama-memory-kvmem.cpp:712-733 | after any run from a valid pool: a slot is free if and only if no block owns it, two blocks never own one slot, owned slots are in range, and free slots plus residents make `n_slots` |
| `Runs.ReplaceFacts` | kvmem/src/host/kvmem_runtime.cpp:209-233 | spilling before admitting keeps the partition; a resident block in the new set keeps its very slot; a block neither in the set nor coming in ends without one |
| `Runs.PackedPartition` | src/adapter/llama-memory-kvmem.cpp:1214-1237 | giving the i-th resident slot i, with the stack refilled downwards from `n_slots`-1, keeps the partition |
| `Runs.CellsDistinct` | src/adapter/llama-kvmem-batch.cpp:39-51 | two stored rows of resident blocks that map to one cell are the same row |
| `Runs.FillSlotsInjective` | src/adapter/llama-kvmem-batch.cpp:5-57 | the row-to-cell map fails exactly for an empty batch or one with a row that has no block, slot or cell; otherwise every cell is in range and distinct rows get distinct cells |
| `SlotTable.OwnedOnce` | src/adapter/llama-memory-kvmem.cpp:712-726 | under the partition an owned slot is in range, is not on the stack, and has one owner |
| `SlotTable.PartitionCount` | src/adapter/llama-memory-kvmem.cpp:640-646 | free slots and resident blocks add up to the slot count |
| `SlotTable.AssignPartition` | src/adapter/llama-memory-kvmem.cpp:1337-1352 | placing blocks from the stack keeps the partition, also when the stack runs dry midway |
| `SlotTable.AssignPlacesAll` | src/adapter/llama-memory-kvmem.cpp:1337-1352 | with at least as many free slots as wanted blocks without one, all wanted blocks are placed and exactly that many slots are used |
| `SlotTable.AssignLeaves` | src/adapter/llama-memory-kvmem.cpp:1337-1352 | what placement leaves lacking is exactly what the stack could not cover |
| `SlotTable.PoppedPartition` | kvmem/src/host/kvmem_runtime.cpp:78-94 | popping blocks from the back and freeing their slots keeps the partition |
| `SlotTable.MarkedPartition` | kvmem/src/host/kvmem_runtime.cpp:209-218 | moving unselected blocks out and freeing their slots keeps the partition |
| `Epoch.StepUnchanged` | src/adapter/llama-memory-kvmem.cpp:804-805 | no step lowers the epoch, and a step that does not raise it leaves every row that was held in the same cell with the same liveness, position and bytes |
| `Epoch.EpochProves` | src/adapter/llama-memory-kvmem.cpp:681-706 | over every run, equal epochs at its two ends prove that every row held at the start is still held in the same cell with the same content |
| `Epoch.IdlePlan` | src/adapter/llama-memory-kvmem.cpp:804-850 | a plan that leaves the epoch alone had nothing going out and nothing coming in |
| `Turns.IdleIff` | src/adapter/llama-memory-kvmem.cpp:804-850 | a plan keeps the epoch if and only if every GPU block is selected and every selected block is in the working set, and then it changes nothing at all |
| `Turns.SelectTwice` | src/adapter/llama-memory-kvmem.cpp:3174-3294 | selecting the same blocks again, for the epoch the first selection left, changes nothing, whatever could be placed |
| `Turns.QuietIff` | src/adapter/llama-memory-kvmem.cpp:681-706 | exactly which steps keep the epoch: batches of new rows whose due plan, if any, is idle, truncations that cut nothing, leaving a replay, stale selections and those that neither place nor move a block, packing, marks and flags |
| `Turns.RunQuietIff` | src/adapter/llama-memory-kvmem.cpp:681-706 | a run keeps the epoch if and only if each of its steps is one of these |
| `Turns.SkipIffQuiet` | src/adapter/llama-memory-kvmem.cpp:3116-3126 | after any run from a probe with a valid view, `commit_unchanged` accepts the residents if and only if each step was quiet and the view is valid now |
| `Turns.ResidentsStay` | src/adapter/llama-memory-kvmem.cpp:1303-1336 | from a pin, or from keeping the selected blocks, each resident keeps its slot through every run of batches, cell removals, replays, packing and marks |
| `Turns.SelectedStay` | src/adapter/llama-memory-kvmem.cpp:3174-3204 | so does every block that a current selection leaves resident |
| `Turns.TurnFreesResidents` | src/adapter/llama-memory-kvmem.cpp:668-679 | once a turn begins, a plan that is due for the next batch takes every block outside its pick off the GPU |
| `Turns.CommittedIff` | src/adapter/llama-memory-kvmem.cpp:3128-3132 | after the residents are committed a plan changes nothing if and only if it selects residents only, and every GPU block |
| `Turns.PackedWhole` | src/adapter/llama-memory-kvmem.cpp:2442-2480 | packing leaves each full resident block packed as a whole with the bytes last computed for its rows and no other block changed; in a pinned window or a replay it does nothing |
| `Views.ValidViewIsExact` | src/adapter/llama-memory-kvmem.cpp:3012-3030 | under a valid view every stored row of a resident block is live in its own cell at its recorded position, and conversely every live cell is the own cell of such a row: the used-cell count leaves no room for a stray |
| `Views.ViewValidIff` | src/adapter/llama-memory-kvmem.cpp:2994-3030 | a view is valid if and only if every stored row of a resident block is live in its own cell at its recorded position, every live cell is the own cell of such a row, and, for a canonical view, the k-th resident has slot k |
| `Views.PlainHistory` | src/adapter/llama-memory-kvmem.cpp:3012-3030 | a valid canonical view with all blocks resident means that cell r holds row r for every stored row and every other cell is empty |
| `Views.CommitUnchangedIff` | src/adapter/llama-memory-kvmem.cpp:3116-3126 | over any run, `commit_unchanged` succeeds if and only if both views are exact and in order, the epoch has not moved, and the selection is current and names exactly the residents |
| `Positions.RollbackKeepsView` | src/adapter/llama-memory-kvmem.cpp:681-694 | removing rows from t and truncating to t keeps a valid view valid, and every row below t keeps its recorded position |
| `Positions.ActCharted` | src/adapter/llama-memory-kvmem.cpp:1365-1408 | each act of a serving run keeps the position on record for each computed row the one it was last decoded at, and each live cell at that position |
| `Positions.ViewsOfServing` | src/adapter/llama-memory-kvmem.cpp:2994-3030 | over every serving run from an empty pool of whole slots that holds, and outside a replay a view is valid if and only if each resident is live at its head and, for a canonical view, in the slot of its rank |
| `Views.ReplayCanBeSkipped` | src/adapter/llama-memory-kvmem.cpp:3116-3126 | when `commit_unchanged` succeeds after any run, the selected blocks are exactly the residents, rows stored at the time of the probe are attended now exactly where they were then with the same bytes, and every row of a selected block is attended |
| `Admission.CanAppendAdmits` | src/adapter/llama-memory-kvmem.cpp:3032-3054 | the guard of `can_append`, in a kept or pinned window, implies that the stack covers every block still to be placed up to end + generation rows |
| `Admission.PrepareAdmits` | src/adapter/llama-memory-kvmem.cpp:1276-1363 | from a state with that promise, making room for a batch within the bound succeeds and leaves the promise in force |
| `Admission.RunAdmits` | src/adapter/llama-memory-kvmem.cpp:1276-1363 | the promise survives every run of batches, replays and truncations back to the starting row or later |
| `Admission.AdmissionIsSound` | src/adapter/llama-memory-kvmem.cpp:3032-3054 | after `can_append` says yes, over every such run with any batch splits, each further batch up to end + generation rows finds its slots |
| `Admission.WholeSlotsGiveCells` | src/adapter/llama-memory-kvmem.cpp:490-505 | when the cache is a whole number of slots, every row that found a slot also has a cell |
| `Admission.PartialSlotLosesRows` | src/adapter/llama-memory-kvmem.cpp:490-505 | when it is not, `can_append` can say yes to rows that get a slot but no cell: stated for every cache whose size is below slots times block size |
| `Room.PrepareIff` | src/adapter/llama-memory-kvmem.cpp:1276-1363 | preparing rows succeeds if and only if there is nothing to do, or the plan that is due keeps every block to be written, or, without one, the stack covers the blocks that have no slot |
| `Room.PinnedPrepareIff` | src/adapter/llama-memory-kvmem.cpp:1276-1363 | in a pinned or kept window it succeeds if and only if the stack covers them |
| `Room.RolledBackAndAgain` | src/adapter/llama-memory-kvmem.cpp:1337-1352 | rows rolled back and appended again in a pinned window get the very slots they had, and the stack is as before |
| `Room.CanAppendIff` | src/adapter/llama-memory-kvmem.cpp:3032-3054 | `can_append` says yes if and only if the cells are exact, a partial tail is resident, all history (if it must stay) is resident in order within budget, cache and watermark, and preparing all the rows at once would find slots in a pinned window |
| `Room.RefusalIs` | src/adapter/llama-memory-kvmem.cpp:3032-3054 | and otherwise `can_append` gives the first reason that applies, each in terms of the cells, slots and rows: boundary, exactness or order, tail, history, budget, cache or watermark, slots |
| `Selecting.PlanIsExact` | src/adapter/llama-memory-kvmem.cpp:804-850 | a plan for at most `n_slots` known blocks leaves exactly the selected blocks resident: slots freed by the spill always cover what comes in |
| `Selecting.StepSetPlaced` | kvmem/src/host/kvmem_runtime.cpp:291-325 | every step whose plans fit the pool keeps all working-set blocks placed |
| `Selecting.SelectIsExact` | src/adapter/llama-memory-kvmem.cpp:3174-3294 | after `apply_selection` the residents are the selection, in ascending order, and the rows are unchanged |
| `Selecting.FittingSelectionAdmits` | src/adapter/llama-memory-kvmem.cpp:3099-3114 | a selection that `selection_fits` accepts holds every mandatory block, and after `apply_selection` the slot tests of `can_append` for the same end and generation rows cannot fail |
| `Room.SelectionFitsIff` | src/adapter/llama-memory-kvmem.cpp:3099-3114 | a selection fits if and only if it is current, within the pool, holds every mandatory block, and after applying it the blocks still to be placed do not outnumber the free slots |
| `Room.MandatoryIff` | src/adapter/llama-memory-kvmem.cpp:3056-3075 | a block is mandatory if and only if it holds a stored row that is forced or lies in a mandatory range |
| `Relayout.LaidOutInOrder` | src/adapter/llama-memory-kvmem.cpp:951-984 | after a re-layout, made or skipped because the slots were in order already, the i-th resident in row order has slot i |
| `Relayout.LayoutKeepsContents` | src/adapter/llama-memory-kvmem.cpp:1033-1132 | under any slot permutation a live resident row keeps its bytes, and a cold resident block with all rows packed gets its packed bytes, in the new cell, live at the recorded position, as far as the cells lie inside the cache |
| `Relayout.LayoutKeepsAll` | src/adapter/llama-memory-kvmem.cpp:1033-1132 | in a cache of whole slots they all lie inside |
| `Relayout.LayoutLeavesNoCopy` | src/adapter/llama-memory-kvmem.cpp:1214-1259 | after a re-layout a row of a resident block is live in its own cell and nowhere else |
| `Coherence.HarvestCoherent` | src/adapter/llama-memory-kvmem.cpp:2342-2440 | packing a block that is cold or fully computed keeps the invariant (live cells hold the last computed bytes, every computed row is live or packed), and packs all its rows if it is live |
| `Coherence.HarvestAllSaves` | src/adapter/llama-memory-kvmem.cpp:2442-2480 | packing a set of blocks packs every live one among them in full |
| `CoherentRuns.PlanCoherent` | src/adapter/llama-memory-kvmem.cpp:804-850 | a plan that moves out only blocks that are cold or fully computed loses no row and leaves no stale cell |
| `CoherentRuns.StoreCoherent` | src/adapter/llama-memory-kvmem.cpp:1365-1408 | a batch that continues the rows at a live tail extends the coherent rows by exactly the batch |
| `CoherentRuns.RollbackCoherent` | src/adapter/llama-memory-kvmem.cpp:681-694 | removing rows from t and truncating to t leaves the first t rows coherent, cells and packed rows both |
| `CoherentRuns.ReplayCoherent` | src/adapter/llama-memory-kvmem.cpp:696-706 | removing rows from t and entering replay leaves the first t rows coherent: packed rows from t on are forgotten |
| `CoherentRuns.LayoutCoherent` | src/adapter/llama-memory-kvmem.cpp:951-1274 | re-layout keeps every live cell truthful and every row recoverable |
| `CoherentRuns.SelectCoherent` | src/adapter/llama-memory-kvmem.cpp:3174-3294 | so does a whole retrieval: plan, pin, re-layout and restoring of cold blocks |
| `Retrieval.RetrievedIsWhole` | src/adapter/llama-memory-kvmem.cpp:3182-3289 | exactly when a resident of the plan is live after the retrieval: the residents were re-packed, it was live before, or it came in with this plan. A block given a slot earlier but never filled stays cold if slots are in order |
| `Retrieval.RetrievedBytes` | src/adapter/llama-memory-kvmem.cpp:3182-3289 | every row of a live selected block is in its own cell with the bytes last computed for it |
| `Serving.ActSafe` | tools/kvmem-multimodal-server.h:221-472 | each act of a caller (extend, roll back, start, refill or end a replay, retrieve, pack, clear) keeps the pool coherent with the bytes computed so far |
| `Serving.ServeSafe` | tools/kvmem-multimodal-server.h:221-472 | so does every sequence of acts |
| `Serving.NothingStaleNothingLost` | tools/kvmem-multimodal-server.h:221-472 | over every serving run from an empty pool of whole slots, with arbitrary pressure picks that do not drop a live, partly computed tail, each live cell holds the bytes last computed for its row, and every computed row is live in its cell or packed with those bytes |
| `Serving.AdmittedTailIsLive` | src/adapter/llama-memory-kvmem.cpp:3038-3038 | a continuation that `can_append` admits starts at a live tail block |
| `Serving.AppendNeedsLiveTail` | src/adapter/llama-memory-kvmem.cpp:1365-1408 | after storing rows behind a partial tail, the rows of the tail block can be found again if and only if the tail was live |
| `SplitTail.SplitTailGoesStale` | src/adapter/llama-memory-kvmem.cpp:2755-2820 | a run: five rows in blocks of two, retrieval of the middle block, a sixth row, retrieval of both resident blocks; after the sixth row the pool is coherent with no history, and after the retrieval row 4 is live with the bytes computed for row 2 |
| `Removal.ReplayRefills` | src/adapter/llama-memory-kvmem.cpp:696-706 | a replay computes removed rows again without changing row count, placement or stack, whatever a pressure selector would pick, and leaves the rows up to there coherent with the new bytes |
| `Removal.RemovedAllIff` | src/adapter/llama-memory-kvmem.cpp:1461-1477 | removing everything by model position leaves a coherent empty cache if and only if every live cell was removed and no row was packed |
| `Removal.RemovedVersusCleared` | src/adapter/llama-memory-kvmem.cpp:1453-1477 | clearing leaves a pool as constructed; removing everything leaves the same if and only if, besides, nothing was packed, no position recorded and the window not kept |
| `Removal.RemovedComesBack` | src/adapter/llama-memory-kvmem.cpp:1461-1477 | a run: a row is decoded, packed and removed with everything else, row 0 is decoded anew, moved out and brought back, and its cell is live with the bytes of the removed row |
| `Pressure.PickTrimmed` | kvmem/src/host/kvmem_store.cpp:413-469 | the ungrouped pressure pick is ascending, has exactly the budgeted size, and consists of the first blocks, the newest mandatory blocks as long as the budget lasts, and, only if all of those fit, the newest blocks |
| `Pressure.PickPressure` | kvmem/src/host/kvmem_store.cpp:409-469 | with no budget, or enough of it, everything is picked; otherwise as above |
| `Pressure.PickIsUnique` | kvmem/src/host/kvmem_store.cpp:413-469 | these conditions leave exactly one pick |
| `Pressure.PartsKeep` | kvmem/src/host/kvmem_store.cpp:413-469 | the first blocks are always kept, and all mandatory blocks are if and only if they fit beside them |
| `Pressure.TailKept` | kvmem/src/host/kvmem_store.cpp:413-469 | the blocks being appended to all survive the pick if and only if they fit the budget beside the sink blocks; the first of them, which may hold rows already, survives if and only if they fit or it is a sink block |
| `Pressure.DroppedTailPacksUncomputed` | src/adapter/llama-memory-kvmem.cpp:1303-1361 | when a plan drops a live, partly computed tail, the batch fails and the store is left with packed rows that were never computed |
| `Pressure.RoomLosesNothing` | src/adapter/llama-memory-kvmem.cpp:1276-1363 | making room, whether it succeeds or fails, keeps the pool coherent if and only if no plan runs that drops a live, partly computed tail |
| `Pressure.SelectorMakesRoom` | kvmem/src/host/kvmem_store.cpp:413-469 | with the real selector that is: no plan runs, or the tail is cold or complete, or the blocks being appended to fit the budget beside the sink blocks, or the tail is a sink block |
| `Pressure.ChosenServes` | src/adapter/llama-memory-kvmem.cpp:1276-1363 | so serving runs with the real selector under that guard keep nothing stale and lose nothing; nothing is assumed about a pick |
| `PressureRuns.TailDropped` | src/adapter/llama-memory-kvmem.cpp:1303-1361 | a run: three rows, then three more, blocks of two rows, a budget of two blocks and one sink block; the pick is the selector's, and the pool is coherent before and not after |
| `PressureRuns.RetrievedCold` | src/adapter/llama-memory-kvmem.cpp:3182-3289 | a run: two rows, retrieval of the first, a new turn, one more row under pressure, retrieval of both resident blocks; the first of them ends in the working set with a slot and an empty first cell |
| `PressureRuns.NewestPicked` | kvmem/src/host/kvmem_store.cpp:413-469 | the picks of that run are the selector's for a budget of two blocks |
| `PoolPlan.PoolWithinCap` | src/adapter/llama-memory-kvmem.cpp:362-425 | over all settings the cell count stays within a non-zero cap of blocks |
| `PoolPlan.SlotsAreLeast` | src/adapter/llama-memory-kvmem.cpp:490-505 | m slots cover the cells if and only if m is at least `n_slots` |
| `PoolPlan.BudgetFits` | src/adapter/llama-memory-kvmem.cpp:362-425 | the budget fits the cells if and only if a budget was given, the context holds a block, or a block is one token |
| `PoolPlan.BudgetBlocksFit` | src/adapter/llama-memory-kvmem.cpp:362-425 | the budget in blocks never exceeds the slot count, over all settings |
| `PoolPlan.WholeSlots` | src/adapter/llama-memory-kvmem.cpp:362-425 | the cells are a whole number of slots if and only if a budget was given, the context is a multiple of the block, or the cap cut it |
| `PoolPlan.AlignIs` | src/adapter/llama-memory-kvmem.cpp:253-261 | alignment gives the largest multiple of the block not above the count, and one block below that |
| `PoolPlan.AskedIsGiven` | src/adapter/llama-memory-kvmem.cpp:362-425 | while the cap allows it, block size, budget and reserve are what was asked for (whole blocks, at least one), and the cells are their sum, or the context if that is less and no budget was given |
| `PoolPlan.CapIsFilled` | src/adapter/llama-memory-kvmem.cpp:362-425 | if the cap does not allow it the cells fill the cap, and the budget is kept if it leaves a block below the cap |
| `Follower.PredictionIsExact` | src/adapter/llama-memory-kvmem.cpp:735-771 | for a row to come, in a pinned or kept window, `slot_for_orig_pos` names the slot and offset that the next append gives the row if and only if no block between the tail and the row still needs a slot |
| `Follower.StoredRowDraft` | src/adapter/llama-memory-kvmem.cpp:744-755 | a stored row has a draft cell if and only if the target has a cell for it, and it is the same cell |
| `Follower.DraftCollision` | src/adapter/llama-memory-kvmem.cpp:735-771 | two different rows, stored or to come, are sent to one draft cell if and only if both are to come, predicted by the stack, and have the same offset |
| `Follower.FillDraftDistinct` | src/adapter/llama-memory-kvmem-mtp.cpp:150-201 | a draft batch of stored rows and rows to come goes to distinct cells inside the cache as long as the rows expected on top of the stack are of one block |
| `Follower.TailCondition` | src/adapter/llama-memory-kvmem-mtp.cpp:163-201 | for rows in the tail block or the one after it, that condition is: the tail is full, is the block addressed, or is resident |
| `Follower.DraftFollowsTarget` | src/adapter/llama-memory-kvmem-mtp.cpp:150-201 | a whole draft batch of such rows is written to the very cells the target then uses for them |
| `Lockstep.MovedCoherent` | src/adapter/llama-memory-kvmem-mtp.cpp:409-497 | the draft side of a re-layout moves live blocks that both caches hold and clears the rest; the draft stays coherent if what does not move is packed |
| `Lockstep.LockstepAfterRetrieval` | src/adapter/llama-memory-kvmem-mtp.cpp:537-614 | when a retrieval finishes, draft and target agree on every slot and the free stack, and each row of a resident block is in its draft cell with the bytes the draft last computed |
| `Lockstep.RestoredIffWhole` | src/adapter/llama-memory-kvmem-mtp.cpp:499-535 | a cold block that counts as found with one packed row goes live either way; a packed row of it ends with the bytes last computed for it if and only if all its rows are packed or its cell held those bytes already |
| `Lockstep.ColdIsWhole` | src/adapter/llama-memory-kvmem-mtp.cpp:578-619 | in a coherent draft this does not matter: a cold resident block is packed as a whole |
| `SplitTail.DraftGoesStale` | src/adapter/llama-memory-kvmem-mtp.cpp:578-619 | the draft through the run above: when the second retrieval is followed, the split block counts as found, and its first row goes live with the draft bytes computed for row 2 |
| `SpecDecode.PlainLoop` | tools/llama-kvmem-cli.cpp:565-589 | the plain loop emits the deterministic token chain cut at end-of-generation or `n_predict`, and stores prompt and output |
| `SpecDecode.SampleAndAccept` | tools/kvmem-spec.cpp:367-367 | sampling a batch row by row yields the longest agreeing part of the draft and one more token, all of it tokens of the plain chain, and the sampler accepts exactly what was sampled |
| `SpecDecode.Sampler.Next` | tools/kvmem-spec.cpp:367-367 | a sampled token depends on the attention rows, the recurrent rows and what the sampler has accepted, and is accepted |
| `SpecDecode.VerifiedIsUnique` | tools/kvmem-spec.cpp:367-367 | that contract has one result per draft |
| `SpecDecode.Trim` | tools/kvmem-spec.cpp:370-377 | the ids kept are the longest start within the room and up to the first end-of-generation token |
| `SpecDecode.TrimIsUnique` | tools/kvmem-spec.cpp:370-377 | and that too is one result |
| `SpecDecode.VerifyPass` | tools/kvmem-spec.cpp:326-377 | one verify decode stores the draft rows and yields ids that are plain tokens, never longer than draft plus one; the sampler has then accepted all that was sampled, kept or not |
| `SpecDecode.AcceptPass` | tools/kvmem-spec.cpp:421-476 | accepting folds or removes so that attention rows and recurrent rows are both the prompt with the emitted tokens, for replay, snapshot and dense rollback |
| `SpecDecode.EmitMore` | tools/kvmem-spec.cpp:448-463 | an accepted pass extends the emitted tokens by plain tokens |
| `SpecDecode.EmittedIsPlain` | tools/kvmem-spec.cpp:281-463 | emitted tokens are the start of the plain output, and all of it at the budget or the end |
| `SpecDecode.Emit` | tools/kvmem-spec.cpp:448-463 | the emitting loop stops at end-of-generation, which it does not emit, and keeps the row count in step |
| `SpecDecode.Iterate` | tools/kvmem-spec.cpp:281-477 | each iteration keeps the loop-head invariant, in which the sampler has accepted exactly the emitted tokens whenever the loop goes on: a restore brings back the sampler saved before sampling; it is cancelled if and only if in replay mode the poll between verify and accept says stop, and otherwise ends the loop, is a restore, or emits a token |
| `SpecDecode.Round` | tools/kvmem-spec.cpp:281-477 | one turn of the loop ends only at a poll that says so or at a failed verify decode or a draft too long to record; otherwise it counts one verified pass and keeps the loop-head invariant |
| `SpecDecode.NextDraft` | tools/kvmem-spec.cpp:286-334 | the draft of a restore is kept; a new one is asked for with the largest length that leaves room in the context and the prediction; it is recordable if and only if not in replay mode or within the capacity |
| `SpecDecode.Generate` | tools/kvmem-spec.cpp:229-477 | for any drafter: what is emitted is the start of the plain output, and a run neither aborted nor failed emits all of it; every pass counted was decoded without failure, and it fails only at a failed verify decode or a draft too long to record; it is aborted exactly at the first poll that says so, with one poll before each pass and one after it in replay mode; the stored rows are the prompt and the emitted tokens; verify passes are bounded by tokens and restores; no batch passes the last predicted row, and no recorded batch the capacity; without host checkpoints there is no restore, so the loop ends |
| `SpecDecode.RestoreRepeats` | tools/kvmem-spec.cpp:378-407 | after a host-checkpoint restore the retried draft is restored again if and only if it ends in end-of-generation or was cut by the budget |
| `SpecDecode.RestoreForever` | tools/kvmem-spec.cpp:378-407 | for drafts within the limit, a chain of restores goes on for ever if the retried draft ends in end-of-generation, and stops after one if not |
| `SpecDecode.HostRestoreHangs` | tools/kvmem-spec.cpp:378-407 | such an input exists: for every n a concrete draft is restored more than n times |
| `SpecDecode.Target.ReplayCommit` | tools/kvmem-spec.cpp:10-24 | committing a replay transaction keeps exactly the first rows of the recorded batch |
| `SpecDecode.Target.RemoveFrom` | src/adapter/llama-memory-kvmem.cpp:936-949 | removal cuts attention rows always and recurrent rows only where the rollback mode can |
| `DecodeMean.AddLayerExact` | src/adapter/llama-memory-kvmem.cpp:2609-2661 | adding rows to a layer adds exactly their K if and only if the add succeeds and the layer does not go back to the GPU over a host sum |
| `DecodeMean.StepCounts` | src/adapter/llama-memory-kvmem.cpp:2564-2753 | capture, commit, discard and flush keep: what was written plus what is summed is exactly the accepted rows |
| `DecodeMean.AcceptedExactlyOnce` | src/adapter/llama-memory-kvmem.cpp:2564-2753 | over every regular run that ends in a flush, the writes of a layer concatenate to the accepted rows, each write lies in one block, and carries the sum of just its rows |
| `DecodeMean.PassAcceptsOnce` | src/adapter/llama-memory-kvmem.cpp:2564-2607 | a captured batch followed by a commit of k rows accepts its first k rows once, also when a one-row batch was committed on capture |
| `DecodeMean.RunNotFull` | src/adapter/llama-memory-kvmem.cpp:2663-2691 | over every run, whatever happens to the layers, a full block is never left open |
| `DecodeMean.FullBlocksWritten` | src/adapter/llama-memory-kvmem.cpp:2663-2691 | over any regular run, an accepted row that ends its block has been written |
| `DecodeMean.CommitOneRun` | src/adapter/llama-memory-kvmem.cpp:2663-2691 | committing rows that continue one block writes nothing before the block is full, and all of its rows then |
| `DecodeMean.GpuAfterHostLoses` | src/adapter/llama-memory-kvmem.cpp:2632-2647 | a layer that returns to the GPU inside a block after a host fallback writes the later row only, with the count of both |
| `MeanAccumulator.Accumulator.FlushNow` | src/adapter/llama-memory-kvmem.cpp:2693-2753 | flushing in place equals the flush of the value, layer by layer |
| `MeanAccumulator.Accumulator.AddRangeOf` | src/adapter/llama-memory-kvmem.cpp:2609-2661 | adding a range in place flushes another block first, then adds to every layer |
| `MeanAccumulator.Accumulator.TakeRun` | src/adapter/llama-memory-kvmem.cpp:2663-2691 | the inner loop finds the longest run of pending rows in one block |
| `MeanAccumulator.Accumulator.AddAndFlush` | src/adapter/llama-memory-kvmem.cpp:2663-2691 | one turn of the commit loop: the run is added and a full block flushed |
| `MeanAccumulator.Accumulator.CommitRows` | src/adapter/llama-memory-kvmem.cpp:2663-2691 | the commit loop equals the commit of the value |
| `MeanAccumulator.Accumulator.DiscardPending` | src/adapter/llama-memory-kvmem.cpp:2490-2493 | discarding drops the pending rows and nothing else |
| `MeanAccumulator.Accumulator.IngestBatch` | src/adapter/llama-memory-kvmem.cpp:2564-2607 | ingesting replaces the pending rows, and commits a batch of one row at once |
| `Harvest.InvStep` | src/adapter/llama-memory-kvmem.cpp:1642-1696 | every enabled step of producer, worker, flush or stop keeps the protocol invariant: at most the two slots are in flight, in the order the worker will take them, and the slot being filled is idle |
| `Harvest.OrderStep` | src/adapter/llama-memory-kvmem.cpp:1677-1775 | every step keeps packed batches, then loaded, then queued, equal to the submitted batches in order |
| `Harvest.EveryBatchOnce` | src/adapter/llama-memory-kvmem.cpp:1642-1775 | over every interleaving from the start: packed batches are a start of the submitted ones, all of them once flushed or the worker has exited, and a slot being filled is never in flight |
| `Harvest.WorkerMoves` | src/adapter/llama-memory-kvmem.cpp:1677-1696 | while anything is queued or in flight the worker has a step, and it lowers a measure |
| `Harvest.WorkerDrains` | src/adapter/llama-memory-kvmem.cpp:1653-1665 | so from every state of every run the worker alone reaches a flushed state with every batch packed |
| `Harvest.QuietRunsPlaceRight` | src/adapter/llama-memory-kvmem.cpp:2008-2080 | over every run from the start whose direct packings begin only when the worker has nothing left to pack, each batch is packed under its own row positions |
| `Harvest.LoudPackingMixes` | src/adapter/llama-memory-kvmem.cpp:2008-2080 | from any state where a direct packing starts while the worker still has another batch to pack, a run exists that packs a batch under the positions of another |
| `Harvest.SecondCopyFails` | src/adapter/llama-memory-kvmem.cpp:2008-2080 | such a run: the copy of a second batch fails after the worker took the first, and the second is packed under the positions of the first |
| `SyncHarvest.Pipe.CommitSlot` | src/adapter/llama-memory-kvmem.cpp:1698-1754 | a slot in flight is packed under its own positions; an idle slot is left alone |
| `SyncHarvest.Pipe.HarvestBatch` | src/adapter/llama-memory-kvmem.cpp:2008-2080 | without the worker, harvesting a batch packs everything before it, in order |
| `SyncHarvest.Pipe.FlushAll` | src/adapter/llama-memory-kvmem.cpp:1756-1775 | after a flush everything harvested is packed, in order |
| `Slab.WriteBack.StageOut` | src/adapter/llama-memory-kvmem.cpp:2366-2403 | a copy is taken into the slab only if it fits, behind the copies already there |
| `Slab.WriteBack.Submit` | src/adapter/llama-memory-kvmem.cpp:2297-2325 | a submitted slab leaves each job its own bytes in the pinned buffer; a failed one leaves the buffers as they were |
| `Slab.WriteBack.WriteBatch` | src/adapter/llama-memory-kvmem.cpp:2247-2295 | pending jobs are each written with their own bytes, from the buffer or again from the GPU when the copy was lost |
| `Slab.WriteBack.SubmitBehind` | src/adapter/llama-memory-kvmem.cpp:2297-2325 | a slab is submitted before the previous one is written, to the other buffer |
| `Slab.WriteBack.FlushSlab` | src/adapter/llama-memory-kvmem.cpp:2297-2325 | a slab flush, submitted or failed, neither drops nor repeats a job |
| `Slab.WriteBack.Commit` | src/adapter/llama-memory-kvmem.cpp:2327-2340 | afterwards nothing is pending and everything taken on is written |
| `Slab.WriteBack.Harvest` | src/adapter/llama-memory-kvmem.cpp:2342-2440 | one copy adds exactly one job, through the slab, through the slab after a flush, or directly; a copy the slab takes waits behind the others and nothing is written for it, and one that is not on the GPU is written at once |
| `Slab.Drive` | src/adapter/llama-memory-kvmem.cpp:2247-2440 | over every sequence of copies and flushes that ends in a commit, each (block, layer, K or V) asked for is written as often as it was asked for, with its own bytes |
| `Hadamard.PlusSymmetric` | src/adapter/llama-kvmem-quant.h:54-63 | the sign matrix is symmetric |
| `Hadamard.SquareIsScaledIdentity` | src/adapter/llama-kvmem-quant.h:54-63 | rows of the sign matrix are orthogonal with square n: S times S is n times the identity, for every power of two |
| `Hadamard.TimesTwice` | src/adapter/llama-kvmem-quant.h:67-95 | multiplying a vector by the sign matrix twice scales it by n |
| `Hadamard.RotateTwice` | src/adapter/llama-kvmem-quant.h:67-95 | with entries c and -c where c squared times n is 1, rotating a chunk twice gives it back |
| `Hadamard.RotateAllTwice` | src/adapter/llama-kvmem-quant.h:67-95 | rotating all chunks of all rows twice gives back every row |
| `HadamardLoops.BuildMatrix` | src/adapter/llama-kvmem-quant.h:42-65 | the doubling loop fills the array with c times the sign matrix |
| `HadamardLoops.RotateRows` | src/adapter/llama-kvmem-quant.h:67-95 | the nested loops rotate each chunk of each head of each row in place, and nothing at all when the chunk does not divide the head |
| `HadamardLoops.ChunkSize` | src/adapter/llama-kvmem-quant.h:30-36 | the size loop ends; the result is a power of two of at least 64 whose double does not divide the head, which divides a multiple of 64 and is 64 otherwise |
| `HadamardLoops.ChunkSizeIsLargest` | src/adapter/llama-kvmem-quant.h:30-36 | no larger power of two divides the head size |
| `Transaction.Server.constructor` | tools/llama-kvmem-server.cpp:371-405 | a fresh server holds no rows and no cached prompt |
| `Transaction.Server.ClearAll` | tools/llama-kvmem-server.cpp:371-405 | clearing forgets rows, prompt and checkpoints but not the rollback record |
| `Transaction.Server.Remember` | tools/kvmem-multimodal-server.h:67-80 | the checkpoints below the new row and the new one all stay if they are four at most, and else all but the first of the kind there is too much of; the new one and the newest of the others are always among them |
| `Transaction.Server.Victim` | tools/kvmem-multimodal-server.h:72-78 | with five checkpoints the one dropped is the first of the kind there is too much of (media when more than two are), never the newest |
| `Transaction.VictimIsOld` | tools/kvmem-multimodal-server.h:72-78 | so of five checkpoints the two newest always stay |
| `Transaction.Server.Restore` | tools/kvmem-multimodal-server.h:82-113 | a restore cuts rows, positions and live row to the checkpoint, or fails at one of three points with just the effects before it |
| `Transaction.Server.FinishRequest` | tools/kvmem-multimodal-server.h:115-137 | an uncommitted request with a record goes back to its base row and rollback prompt and remembers the base as a checkpoint; otherwise nothing changes; either way no record is left |
| `Transaction.Server.DecodeSpan` | tools/kvmem-multimodal-server.h:139-219 | a span reaches its end or the first batch that breaks, and the live row is exactly there; its rows are rows of the prompt; outside a replay the last image decoded has its checkpoint; without images, and in a replay, checkpoints are unchanged |
| `Transaction.SpanStops` | tools/kvmem-multimodal-server.h:139-219 | a span that ends early ends at a batch that breaks, and one of single rows at the first row that breaks |
| `Transaction.Server.FindBase` | tools/kvmem-multimodal-server.h:239-258 | the base is the highest checkpoint not above the reusable rows |
| `Transaction.Server.HighestUsable` | tools/kvmem-multimodal-server.h:239-258 | a request reuses a checkpoint if and only if there is one at or below the live row that lies on a common start of prompt and cached prompt with a prompt token left, and it reuses the highest |
| `Transaction.Server.OpenRequest` | tools/kvmem-multimodal-server.h:239-270 | a request is opened exactly when it reuses a checkpoint or a first one can be taken; the base is at least as high as every old checkpoint whose rows are live and start both prompts, with a token left, and if there is one it is such a checkpoint, with rows and cached prompt kept; without one everything is forgotten and the base is row 0; the record holds the base and the cached prompt cut to it |
| `Transaction.Server.Prefill` | tools/kvmem-multimodal-server.h:221-472 | prefill succeeds exactly when the request opens, its base is restored and no span, replay or checkpoint breaks, and then the stored rows are the evaluated prompt, whose end can be gone back to, and so can the query (or the base, if that is higher) unless images follow it; otherwise it leaves exactly what the point of failure leaves |
| `Transaction.Server.Generate` | tools/llama-kvmem-server.cpp:2396-2508 | generation stores rows of prompt followed by output; one that fails raises the live row for what it decoded |
| `Transaction.Server.Commit` | tools/kvmem-multimodal-server.h:474-486 | a commit makes the active prompt with the generated tokens the cached prompt, with the live row at its stored rows; if its checkpoint fails the record stays open |
| `Transaction.Server.Undo` | tools/kvmem-multimodal-server.h:115-137 | a request that ended anywhere is rolled back to its base row, its rows up to there, and the cached prompt cut to them |
| `Transaction.Server.FailToUndo` | tools/kvmem-multimodal-server.h:115-137 | if undoing fails, the live rows still start the cached prompt if and only if, by where the request ended, the rows it computed are rows of the prompt cached before, and, if the target was cut to the base or the query, none lie above |
| `Transaction.Server.Handle` | tools/kvmem-multimodal-server.h:115-137 | a request is committed exactly when it opens and nothing on its way fails; else, if undoing works, live row, rows and cached prompt are those of the base row, cut from what was there before, which is at least as high as every old checkpoint the request could use; no record is left; if undoing fails, the condition above, stated on the request and the state before it, holds exactly when the live rows start the cached prompt |
| `Transaction.SmoothFinishes` | tools/kvmem-multimodal-server.h:221-472 | a request for which nothing goes wrong is committed, from whatever base row |
| `Transaction.Server.Serve` | tools/kvmem-multimodal-server.h:115-137 | a failed request that continues the live rows leaves them all |
| `Transaction.ServeAll` | tools/kvmem-multimodal-server.h:115-137 | over any sequence of requests whose rollbacks work, the rows between requests are the first rows of the cached prompt and of what was last committed, and all of it as long as the failing requests continue it; requests for which nothing goes wrong are committed |
| `Transaction.FailedRollback` | tools/kvmem-multimodal-server.h:115-137 | a first request that computes a row, fails and is not rolled back leaves a live row that starts no cached prompt |
| `Transaction.LostRow` | tools/kvmem-multimodal-server.h:115-137 | such a request: one token, nothing generated |
| `BlockTable.TailGrows` | kvmem/src/host/kvmem_store.cpp:178-193 | extending the partial tail in place keeps the table a cut of the rows into blocks |
| `BlockTable.BlockAdded` | kvmem/src/host/kvmem_store.cpp:194-204 | a block added behind full blocks starts at the row count |
| `BlockTable.BlockPopped` | kvmem/src/host/kvmem_store.cpp:206-217 | without its last block the table ends where that block began |
| `BlockTable.TailShrinks` | kvmem/src/host/kvmem_store.cpp:218-226 | a shortened tail keeps the table whole |
| `PoolObject.KvPool.constructor` | src/adapter/llama-memory-kvmem.cpp:490-505 | a new pool has no rows, every slot free, and empty cells |
| `PoolObject.KvPool.ResetSlots` | src/adapter/llama-memory-kvmem.cpp:640-646 | the stack is refilled from the highest slot down to 0 |
| `PoolObject.KvPool.AllocSlot` | src/adapter/llama-memory-kvmem.cpp:712-719 | the top of the stack comes off; an empty stack gives -1 and stays |
| `PoolObject.KvPool.FreeSlot` | src/adapter/llama-memory-kvmem.cpp:721-726 | a slot goes back on top; a negative one is ignored |
| `PoolObject.KvPool.RegisterAppend` | kvmem/src/host/kvmem_store.cpp:178-204 | the tail is filled in place and new blocks without slots follow, as the append of the value |
| `PoolObject.KvPool.TruncateTo` | kvmem/src/host/kvmem_runtime.cpp:78-94 | blocks are popped, the tail shortened, and the slots of dropped blocks returned in popping order |
| `PoolObject.KvPool.BlockIdContaining` | kvmem/src/host/kvmem_store.cpp:157-176 | a stored row is found in the block that holds it, a row not stored in none |
| `PoolObject.KvPool.CellFor` | src/adapter/llama-kvmem-batch.cpp:23-51 | a cell is given if and only if the row is stored, its block resident and the cell in the cache, and it is slot times block size plus offset |
| `PoolObject.KvPool.FillSlotInfo` | src/adapter/llama-kvmem-batch.cpp:5-57 | all cells of a batch, or nothing as soon as one row has none |
| `PoolObject.KvPool.ResidentTokens` | src/adapter/llama-memory-kvmem.cpp:773-781 | the rows of blocks with a slot |
| `PoolObject.KvPool.HarvestBlock` | src/adapter/llama-memory-kvmem.cpp:2342-2440 | a live block is packed from its cells as stored; a cold one keeps what was packed |
| `PoolObject.KvPool.SpillOutgoing` | kvmem/src/host/kvmem_runtime.cpp:209-218 | unselected GPU blocks leave with their slots set aside, and selected ones are marked |
| `PoolObject.KvPool.SeqRm` | src/adapter/llama-memory-kvmem.cpp:831-841 | cells live for rows in the range become empty, all others stay |
| `PoolObject.KvPool.RemoveRowsOf` | src/adapter/llama-memory-kvmem.cpp:804-830 | cells live for rows of the outgoing blocks become empty |
| `PoolObject.KvPool.StageIn` | kvmem/src/host/kvmem_runtime.cpp:291-325 | a block keeps the slot it has, else takes the top of the stack, else gets none |
| `PoolObject.KvPool.AdmitIncoming` | kvmem/src/host/kvmem_runtime.cpp:220-233 | incoming blocks are admitted in block order |
| `PoolObject.KvPool.ApplyPlanToKv` | src/adapter/llama-memory-kvmem.cpp:804-850 | harvest, spill, clearing, freeing and admission in this order are the plan of the value |
| `PoolObject.KvPool.PlaceIncoming` | src/adapter/llama-memory-kvmem.cpp:1337-1352 | blocks with rows from the first new row on get slots in order until slots run out |
| `PoolObject.KvPool.PrepareWorkingSet` | src/adapter/llama-memory-kvmem.cpp:1276-1363 | room is made or the appended rows are taken back, as the value says, with the same answer |
| `PoolObject.KvPool.NoteRewrites` | src/adapter/llama-memory-kvmem.cpp:1365-1375 | a batch that rewrites a stored row moves the epoch once |
| `PoolObject.KvPool.RecordRows` | src/adapter/llama-memory-kvmem.cpp:1376-1400 | positions are recorded up to the first row that is not stored |
| `PoolObject.KvPool.WriteRows` | src/adapter/llama-kvmem-batch.cpp:23-57 | each row of a batch is written to its cell, the last one winning |
| `PoolObject.KvPool.DecodeBatch` | src/adapter/llama-memory-kvmem.cpp:1365-1442 | epoch, room, positions and cells of one batch are the batch step of the value |
| `PoolObject.KvPool.GpuKvComplete` | src/adapter/llama-memory-kvmem.cpp:2994-3010 | true exactly if the block is resident on the GPU with every row live in its own cell at its position |
| `PoolObject.KvPool.GetAttentionView` | src/adapter/llama-memory-kvmem.cpp:3012-3030 | epoch, rows, resident ids, and validity exactly as the view of the value |
| `PoolObject.KvPool.CanAppendRows` | src/adapter/llama-memory-kvmem.cpp:3032-3054 | the first refusal that applies, or none |
| `PoolObject.KvPool.KeepsMandatory` | src/adapter/llama-memory-kvmem.cpp:3056-3075 | true exactly if the selection holds every block that meets a mandatory range, and the forced one |
| `PoolObject.KvPool.SelectionFitsRows` | src/adapter/llama-memory-kvmem.cpp:3099-3114 | epoch, rows, mandatory blocks and slot count all agree |
| `PoolObject.KvPool.SlotForOrigPos` | src/adapter/llama-memory-kvmem.cpp:735-771 | the slot of a stored row, or the expected one of a row to come |
| `PoolObject.KvPool.AlreadyResident` | src/adapter/llama-memory-kvmem.cpp:852-866 | whether the first cell is live for the first row of the block |
| `PoolObject.KvPool.Gather` | src/adapter/llama-memory-kvmem.cpp:1033-1096 | live residents are copied aside in order, cold ones noted |
| `PoolObject.KvPool.Scatter` | src/adapter/llama-memory-kvmem.cpp:1097-1112 | gathered rows land in the slots of their ranks, whatever slots they came from |
| `PoolObject.KvPool.LayoutGpuSlots` | src/adapter/llama-memory-kvmem.cpp:951-1274 | gather, scatter, slot reassignment and refilling of cells, done in place, are the re-layout of the value |
| `PoolObject.KvPool.WriteBlockToGpu` | src/adapter/llama-memory-kvmem.cpp:2755-2820 | a resident block the store knows gets its cells live, and its bytes if all its rows are packed |
| `PoolObject.KvPool.ApplySelectionToKv` | src/adapter/llama-memory-kvmem.cpp:3174-3294 | a selection for the present epoch and rows is planned, pinned, laid out and restored; a stale one changes nothing |
| `PoolObject.KvPool.TruncateCached` | src/adapter/llama-memory-kvmem.cpp:681-694 | positions, packed rows and table are cut to the first rows |

## Left out

- Retrieval scoring, `pick_topk_blocks`, the media-group constraint of the selector: selections are arbitrary ascending block lists, pressure plans arbitrary sets, except where `Pressure` models the ungrouped pick.
- The CPU and NVMe tiers, prefetch and the block arena: a block off the GPU is just off the GPU, and its packed rows are in the store. Store write errors are not modelled.
- One opaque value stands for all K and V layers of a row; a block is packed for all layers or none, and `v_trans` is false.
- CUDA streams, events and kernels: copies succeed, except in `Slab`, where submitting, waiting and enqueueing may fail, and `Harvest`, where staging may fail. Late failures of a staging submit (recording or waiting for the snapshot, the copy itself, recording its end) drop the row positions and are not modelled.
- The host fallback of the re-layout and of the draft's re-layout (scratch allocation or device copy failed).
- Integer widths and wrap-around of 32-bit counts, and float rounding: counts are unbounded, mean-K sums are lists of the rows summed, the rotation is over exact reals with an exact scale.
- M-RoPE spatial coordinates and the token kept with a row position; a row never recorded has the default position where the code throws.
- The split into micro-batches: a batch is one micro-batch, so a batch that rewrites stored rows moves the epoch once, not once per micro-batch.
- The batch checks on sequence ids, and the unique-sequence requirement of the cache.
- The mean-K flush inside a plan that moves out the block being summed, the saved tail mean, and that `truncate_cached` does not touch the accumulator: `DecodeMean` is proved for runs whose batches start right after the last committed row.
- DecodeMean.AcceptedExactlyOnce: for runs in which a layer does not return to the GPU inside a block and each add succeeds, because otherwise rows are lost (`DecodeMean.AddLayerExact` gives the condition for one add).
- Serving.NothingStaleNothingLost: for callers that decode rows in order, append behind a live tail, and whose pressure plans keep a live, partly computed tail; `Pressure.RoomLosesNothing` and `Serving.AppendNeedsLiveTail` show that nothing weaker will do, and `Pressure.ChosenServes` derives the last from the settings. A cache of whole slots.
- PoolObject.KvPool.Gather: a cache of whole slots. In a shorter one the copies of the top slot run past the buffers, and what that does is not modelled.
- PoolObject.KvPool.Scatter: a cache of whole slots, for the same reason.
- PoolObject.KvPool.LayoutGpuSlots: a cache of whole slots, for the same reason.
- PoolObject.KvPool.WriteBlockToGpu: a cache of whole slots, for the same reason.
- PoolObject.KvPool.ApplySelectionToKv: a cache of whole slots, for the same reason.
- Harvest.EveryBatchOnce: one worker per run; starting it again after a stop is left out.
- SpecDecode.Generate: a verify pass that fails is taken to store nothing. The drafter is an arbitrary function; a drafter that asks for more than the limit is allowed and only loses the bound on batch rows. The draft cache's own rows and the checkpoint bytes are opaque.
- SpecDecode.HostRestoreHangs: termination is not claimed for host checkpoints. The abort callback is a finite schedule of answers after which it says stop, so `SpecDecode.Generate` always returns; the bound on verify passes and the lemmas on restores say when it returns of its own accord.
- Transaction.Server.Handle: about attention rows, from a state between requests. Whether a stored recurrent checkpoint still fits an edited history, how a request goes on after a rollback that failed, and media encoding are left out; a checkpoint that fails stands for every other error thrown at that point of prefill.
- Slab.Drive: jobs read their bytes when they are copied or written, and those bytes are taken to be stable until then; that stage-in and stage-out share the slab's fill count is left out.
- Lockstep.LockstepAfterRetrieval: the draft starts paired with the target (same placement, stack and rows) and coherent.
- The draft part of `attention_view`, and the draft's capture and V harvest of single rows.
- The matrix cache and the per-head-size switches of the rotation; a head size of zero, for which the size loop does not end.
- HTTP, JSON, streaming, chat templates, sampling validation, vision encoding, scripts and the dashboard; the legacy prefill path.

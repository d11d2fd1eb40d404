# Voxel world: verified model

A Dafny model of the stateful core of a voxel game written in Rust, with proofs. It covers

* the ray traversal that picks a block (`Raycast`),
* the sparse voxel tree of a chunk, its brick distances and its packed GPU form (`BrickDistances`, `Svt`, `GpuPacking`),
* the lava and water automata, their grids, and lava's effect on the world (`Ledger`, `Distances`, `Fluid`,
  `FluidTick`, `FluidLaws`, `Lava`, `LavaLaws`, `LavaGrids`, `Water`, `WaterLaws`, `WaterLoss`, `WaterGrids`, `Worlds`,
  `FluidWorlds`, `LavaCallLaws`),
* the asynchronous chunk loader, over all interleavings of main thread and workers (`ChunkLoaders`, `ChunkLoaderThreads`),
* chunk metadata streamed to the GPU, over all runs (`Streaming`, `Metadata`, `MetadataRuns`, `MetadataOrder`,
  `MetadataUpload`, `ChunkSummaries`),
* a chunk's derived state and lazily rebuilt cache (`Chunks`, `ChunkCaches`),
* falling blocks and the queue of physics checks with its flood fills (`FallingBlocks`, `FallingBlockSystems`,
  `TreeLogic`, `BlockMoves`, `BatchRuns`, `BlockUpdates`).

Objects that the program updates in place are classes; each method is proved equal to an operation on values, and the
properties are lemmas about those operations and about runs of them. The laws of the fluids are relations that fix every
outcome without computing it; the operations are proved to meet them. `dafny verify dfyconfig.toml` checks everything.

## Conventions

* Positions and counters are unbounded integers; where a width matters it is written out (`u32` data offsets, entity
  identifiers, bytes). Floats are reals.
* Hash map and hash set iteration is an arbitrary order: loops pick any element, and results hold for every order.
  The order in which a tick processes its cells is a parameter of the tick as a function.
* Machine words whose bits matter are sequences of booleans, lowest bit first.
* World queries of a simulation are functions given to it; the ray traversal takes model intersection the same way.
* `ghost` results of methods (an order, a log, a trace of steps) exist for the statements only.

## Where the code and its comments differ

The model follows the code. Each difference has a lemma with a concrete instance or an exact condition.

* `src/svt.rs:190` and `src/svt.rs:201-203` promise minimum distances "until convergence"; the cap of four sweeps leaves
  255 for a brick whose only solid brick is nine negative steps away (`BrickDistances.FarCornerIsMissed`, `BrickDistances.ExactIff`).
* `src/lava.rs:133-139`: a cell over the void with mass up to `MIN_FLOW` computes a drain that is not applied
  (`Lava.VoidDrainIff`).
* `src/water.rs:657-664`: a flow nudged to exactly `MIN_FLOW` is debited and not credited (`WaterLoss.NudgeLosesWater`,
  `WaterLoss.CellKeepsWaterIff`, `WaterLoss.TickLosesNothingIff`).
* `src/chunk_loader.rs:429-430`: the result of a cancelled request is delivered while its epoch lasts
  (`ChunkLoaders.CancelledIsDelivered`, `ChunkLoaders.IgnoredIffHeldAtReset`).
* `src/world_streaming.rs:1524-1527`: "brick data before the chunk bit" holds per call, not per write
  (`MetadataRuns.UpdateMirrors`,
  `MetadataOrder.NeighbourIsShownEarly`, `MetadataOrder.ResetIsShownEarly`, `MetadataOrder.RefreshShownIff`).
* `src/chunk.rs:930-931`: mutation epoch and save flag do not advance in lockstep (`Chunks.GeneratedIsNotSaved`,
  `Chunks.LockstepIff`), and
  `src/chunk.rs:1395-1398` edits metadata without raising the epoch (`Chunks.RecomputeKeepsContentIff`).
* `src/falling_block.rs:40-45`: the velocity cap alone does not keep a step within one cell
  (`FallingBlocks.LongStepTunnels`, `FallingBlocks.WithinOneCellIff`).
* `src/falling_block.rs:293-300`: the identifier counter does not wrap to 1 but sticks at its largest value
  (`FallingBlockSystems.CounterSticks`, `FallingBlockSystems.SpawnAddsIff`).

## Model

| member | source | states |
|---|---|---|
| `Raycast.Raycast` | src/raycast.rs:35-176 | A hit is the first voxel that ends the ray: no voxel crossed before it ends it, and the points before it are covered without a gap by voxels that do not. Normal and distance are those of the face of entry; for a model block they are what its model, asked with its rotation at the point where the ray enters the voxel, answers. None means the whole ray up to the maximum distance is so covered; a zero direction gives None. |
| `Raycast.CheckVoxel` | src/raycast.rs:122-154 | Looking at one voxel finds a hit exactly when that voxel ends the ray, and the hit is then the first one; a model block ends the ray exactly when its model is hit from the point of entry. |
| `Raycast.NextVoxel` | src/raycast.rs:156-172 | One step goes through the face the ray leaves by, keeps every traversal invariant, and leaves fewer voxel boundaries before the end of the ray. |
| `Raycast.HitIsNearest` | src/raycast.rs:35-176 | Any other voxel that ends the ray and whose interior the ray crosses is entered no earlier than the reported one. |
| `Raycast.SlabEntryIsFirst` | src/raycast.rs:117-172 | No point of the ray inside a voxel comes before the entry parameter used for the local hit point. |
| `Raycast.SlabEntryTouches` | src/raycast.rs:117-172 | The entry parameter is itself a point of the voxel. |
| `Raycast.ClampIsIdentity` | src/raycast.rs:131-134 | The clamp of the local hit point to the unit cube never changes it. |
| `Raycast.ModelHitIff` | src/raycast.rs:127-145 | The computed answer for a model block is the answer of its model at the one point that, added to the least corner of the voxel on each axis, is the point of the ray at its entry. |
| `BrickDistances.CalculateBrickDistances` | src/svt.rs:191-268 | The result is, for every brick, the least Manhattan distance over the solid bricks that need at most as many negative steps as sweeps were made, or 255; the early exit fires if and only if one sweep fewer gives the same, and then every distance is the true nearest one. |
| `BrickDistances.SweepBrick` | src/svt.rs:208-258 | One brick of an in-place sweep reaches the p + 1 sweep value while its lower neighbours have it already and its upper ones still hold the p sweep value. |
| `BrickDistances.Sweep` | src/svt.rs:203-264 | One raster sweep takes an exact p sweep array to an exact p + 1 sweep array, and reports a change exactly when there was one. |
| `BrickDistances.Relaxed` | src/svt.rs:214-258 | A brick set to the least neighbour value plus one has the characterised distance. |
| `BrickDistances.ReachedIsUnique` | src/svt.rs:190-203 | The characterisation of a distance after p sweeps leaves no choice. |
| `BrickDistances.ConvergedIsNearest` | src/svt.rs:262-267 | A sweep without a change means every distance is the true nearest one. |
| `BrickDistances.RepeatedIsNearest` | src/svt.rs:262-267 | An array that is right for p and for p + 1 sweeps holds the true nearest distances. |
| `BrickDistances.ExactIff` | src/svt.rs:190-203 | A distance after p sweeps is the true nearest one if and only if some nearest solid brick needs at most p negative steps. |
| `BrickDistances.FarCornerIsMissed` | src/svt.rs:190-203 | The comment promises the minimum distance, but with only the far corner brick solid four sweeps leave 255 at the origin brick. |
| `Svt.FromBytes` | src/svt.rs:66-127 | The tree built from raw bytes encodes them: mask, brick data in rank order and distances. |
| `Svt.FromBlockData` | src/svt.rs:129-188 | The tree built from blocks encodes their bytes, so by uniqueness it is the tree of the raw bytes. |
| `Svt.BuildTree` | src/svt.rs:76-126 | The loops over bricks collect exactly the bricks that hold a non-air byte, in mask order. |
| `Svt.ExtractBrick` | src/svt.rs:85-113 | One brick is copied voxel by voxel in its local layout, and found solid exactly when some byte is not air. |
| `Svt.TreeReadsBytes` | src/svt.rs:313-327 | Reading the tree at any coordinate gives the decoded byte of the flat chunk. |
| `Svt.TreeRefinesChunk` | src/svt.rs:313-327 | For every block array and coordinate the tree returns the original block. |
| `Svt.TreeIsUnique` | src/svt.rs:66-188 | A chunk has one tree, so both constructors build the same. |
| `Svt.RankIsOnto` | src/svt.rs:295-309 | Popcount ranks number the set bits without gaps: every data slot belongs to one set bit. |
| `Svt.EncodesIsValid` | src/svt.rs:295-327 | A tree that encodes a chunk never indexes out of its brick data. |
| `Svt.NoBrickIsAir` | src/svt.rs:273-276 | An empty mask means every voxel is air. |
| `Svt.EmptyEncodesAir` | src/svt.rs:71-74 | The early return for an all-air chunk is the tree the loops would build. |
| `BlockTypes.ByteRoundTrip` | src/chunk.rs:842-898 | Storing a block type as a byte and decoding it gives the same type. |
| `GpuPacking.PackForGpu` | src/svt.rs:382-417 | Headers and data of any list of positions, absent chunks and repetitions included, are laid out slot by slot. |
| `GpuPacking.PackedDecodes` | src/svt.rs:382-417 | Reading any voxel of any slot through mask, offset and rank gives the block of the unpacked tree, or air for an absent chunk, while the data before it is under 2^32 bytes; the distances are stored unchanged. |
| `GpuPacking.OffsetRoundTrip` | src/svt.rs:401-404 | The 32-bit data offset reads back if and only if it is under 2^32. |
| `GpuPacking.MaskRoundTrip` | src/svt.rs:393-395 | The eight little-endian mask bytes read back as the mask. |
| `GpuPacking.PackSlot` | src/svt.rs:389-414 | Writing one header leaves all other headers as they are. |
| `Ledger.Balance` | src/lava.rs:470-519 | For any log of transfers, the total of all positions changes by what is credited minus what is debited minus what is lost, counted position by position. |
| `Ledger.NetTotal` | src/lava.rs:470-519 | The pending deltas of a log add up to minus what the log loses. |
| `Fluid.EffectiveIsAbove` | src/fluid.rs:76-94 | The effective mass a neighbour is seen with is never below its mass plus pending delta. |
| `Fluid.AverageBelow` | src/lava.rs:348-360 | The average over a cell and its lower neighbours is never above the cell. |
| `Fluid.DistributeYBuckets` | src/fluid.rs:178-198 | The buckets hold exactly the in-range active positions, each once, in the bucket of its clamped height. |
| `Fluid.ProcessingOrder` | src/fluid.rs:178-198 | Flattened, the buckets are every in-range position once, lower layers first. |
| `FluidLaws.CachedIsSeen` | src/fluid.rs:76-164 | Each of the six cached neighbours is walled, void or open as the world says, and shows what is stored there, or a full block of world fluid, with all that has flowed to and from it so far, never below zero. |
| `FluidTick.BottomUp` | src/fluid.rs:178-198 | Cells are processed from the bottom up, by their heights, and none that is left out for the budget is below one that is taken. |
| `FluidTick.NeighborsAre` | src/lava.rs:290-296 | The positions woken around a cell are its six neighbours. |
| `Distances.FartherIsMore` | src/block_update.rs:68-71 | The squared distance grows with the gap to the player on each axis. |
| `Distances.ZeroIsHere` | src/block_update.rs:68-71 | It is never negative, and zero exactly at the player. |
| `Distances.AxesAreAlike` | src/block_update.rs:68-71 | Permuting the axes changes nothing. |
| `Distances.RightAngles` | src/block_update.rs:68-71 | Along one axis it is the square of the gap, and at right angles distances add up. |
| `FluidTick.TakeInOrder` | src/lava.rs:441-452 | The processing order is distinct in-range positions, lowest first, complete up to the update budget. |
| `Lava.FlowIsSafe` | src/lava.rs:314-374 | A cell sends at most what it has, only into open neighbours, never lifting one above itself sideways or above full mass below; sideways only over a floor and only when nothing goes down. |
| `Lava.VoidDrainIff` | src/lava.rs:133-139 | The documented full drain into the void happens exactly above MIN_FLOW. |
| `LavaLaws.FlowIsFlow` | src/lava.rs:314-374 | The exact flow, by mass and neighbours: everything into the void; else a quarter of the lesser of mass and room below when that exceeds four times MIN_FLOW; over a floor, each open side below the shared level gets a quarter of its gap when that exceeds MIN_FLOW and something remains; else nothing. |
| `LavaLaws.FlowIsUnique` | src/lava.rs:314-374 | That law leaves no choice: two flows that meet it are the same. |
| `LavaLaws.FlowIsRecorded` | src/lava.rs:477-523 | A flow is recorded as one transfer for each direction that moves something, to that neighbour, or to nobody out of bounds; without a direction above MIN_FLOW nothing is. |
| `LavaLaws.LogLaw` | src/lava.rs:452-531 | For every order: each cell in its turn sees its neighbours as they are by then, flows by the law, and adds its recorded transfers to the log. |
| `LavaLaws.TickLaw` | src/lava.rs:377-402 | Every position after a tick: sources keep their mass; what was there with all that flowed stays if it is above MIN_MASS and is gone otherwise; the counters are exact. |
| `LavaLaws.LavaFalls` | src/lava.rs:328-336 | A tick that processes a cell above four times MIN_FLOW over an open position without lava leaves lava there, whatever else flows. |
| `Lava.TickLogIsSafe` | src/lava.rs:452-538 | For every processing order, at every moment of a tick and every position, mass plus pending delta is never negative, and never above MAX_MASS if it started bounded. |
| `Lava.MassAccounting` | src/lava.rs:377-540 | For every processing order: non-source mass after is mass before plus outflow of sources minus inflow into sources minus what is lost out of bounds minus dust, and each dust position loses between zero and MIN_MASS. |
| `Lava.TickKeepsBound` | src/lava.rs:377-540 | After a tick every cell is in (MIN_MASS, MAX_MASS] if it was before. |
| `Lava.BoundKeptIff` | src/lava.rs:234-302 | Any operation keeps that bound if and only if its amount respects it, which a caller can check beforehand; ticks always do. |
| `Lava.BoundOverRun` | src/lava.rs:234-540 | The bound holds over every run of operations and ticks whose amounts respect it. |
| `Lava.NonNegativeOverRun` | src/lava.rs:234-540 | No run makes a mass negative, whatever the amounts, so the accounting applies to every reachable state. |
| `LavaGrids.LavaGrid.SetLava` | src/lava.rs:234-246 | The cell is there exactly if the mass is above MIN_MASS or it is a source, and is then that cell; the position is active exactly if it holds a cell, and no other position changes. |
| `LavaGrids.LavaGrid.AddLava` | src/lava.rs:248-256 | The mass grows by exactly a positive amount, in an existing or new cell; nothing happens for other amounts, and no other position changes. |
| `LavaGrids.LavaGrid.RemoveLava` | src/lava.rs:258-275 | Returns what was really taken: nothing from a source, at most the mass. The cell has exactly so much less, or is gone with at most MIN_MASS left; no other position changes. |
| `LavaGrids.LavaGrid.RemoveSource` | src/lava.rs:282-288 | The cell stays with its mass and stops being a source. |
| `LavaGrids.LavaGrid.PlaceSource` | src/lava.rs:277-280 | A full source cell, active, with its neighbourhood marked unless the position was marked already. |
| `LavaGrids.LavaGrid.ActivateNeighbors` | src/lava.rs:290-296 | Marks the position and its six neighbours unless it was marked already. |
| `LavaGrids.LavaGrid.OnBlockPlaced` | src/lava.rs:298-302 | The cell is gone, and its neighbourhood marked unless the position was marked already. |
| `LavaGrids.LavaGrid.CalculateFlowCached` | src/lava.rs:314-374 | The step-by-step flow computation gives the one flow that the law of a lava cell allows. |
| `LavaGrids.LavaGrid.ApplyPendingChanges` | src/lava.rs:377-402 | Draining the deltas in any order: every position holds what was there with its delta if that is above MIN_MASS, and nothing otherwise; sources and positions without a delta are untouched. |
| `LavaGrids.LavaGrid.ProcessAll` | src/lava.rs:452-531 | After the loop the pending deltas, counters, woken and changed positions and contacts are those of the tick log. |
| `LavaGrids.LavaGrid.Tick` | src/lava.rs:409-576 | A tick is the turns of its order, cell by cell by the law of flow, and then every position settles by the law of a tick; it reports exactly the positions its log mentions, what is active afterwards follows from what each cell did, and contacts are the processed lava cells touching water. |
| `Water.FlowIsSafe` | src/water.rs:586-682 | A cell sends no negative amount and at most its mass. |
| `Water.FlowIsDirected` | src/water.rs:586-682 | Water goes down only into room, fully into the void, sideways only to lower open neighbours, and up only under pressure into room. |
| `WaterLaws.FlowIsFlow` | src/water.rs:586-682 | The exact flow, by mass, type and neighbours: everything into the void; else what fits below, damped unless it is dry there; each lower side its share of the gap at the rate of the type, or MIN_FLOW if the share is smaller and more than twice that is left; up four fifths of what is under pressure and of the room above. |
| `WaterLaws.FlowIsUnique` | src/water.rs:586-682 | That law leaves no choice: two flows that meet it are the same. |
| `WaterLaws.FlowIsRecorded` | src/water.rs:833-903 | A flow is recorded as one transfer for each direction that moves something, to that neighbour when it is above MIN_FLOW and not into the void, else to nobody; the amounts add up to the outflow. |
| `WaterLaws.TurnsLaw` | src/water.rs:812-951 | For every order: each cell in its turn sees its neighbours as they are by then, flows by the law, ages or evaporates by exactly EVAPORATION_RATE or is gone, and stamps its type on what it sends. |
| `WaterLaws.TickLaw` | src/water.rs:686-718 | A tick is those turns, and then every position: sources stay; what is there with all that flowed stays if above MIN_MASS and is gone otherwise, with the type of the inflow exactly where there was no cell or where it is more than half. |
| `WaterLaws.InflowIsACell` | src/water.rs:703-715 | A position without a cell has one after the tick exactly when its net inflow is above MIN_MASS, of that mass. |
| `WaterLaws.WaterFalls` | src/water.rs:608-627 | A tick that processes water over an open position without water leaves water there, whatever else flows. |
| `WaterLoss.NudgeLosesWater` | src/water.rs:657-664 | Two cells and a world without a void below: the tick of one cell debits a flow of MIN_FLOW that is never credited. |
| `WaterLoss.CellKeepsWaterIff` | src/water.rs:586-683 | A cell with its neighbours loses no water if and only if there is no void below and no side takes the guard that yields exactly MIN_FLOW while some flow is above it. |
| `WaterLoss.TickLosesNothingIff` | src/water.rs:833-903 | A tick debits nothing that it does not credit if and only if no cell meets that condition when its turn comes. |
| `Water.StateIsSafe` | src/water.rs:812-964 | At every moment of a tick cells are thinner by at most EVAPORATION_RATE, or gone with little more than that, sources untouched, and mass at the start plus pending delta is never negative, also for cells evaporated while their debit is outstanding. |
| `Water.TickAccounts` | src/water.rs:686-718 | The exact accounting for every processing order: non-source water after is water before plus outflow of sources, less inflow into sources, less what is not credited, less a loss that at each position is between zero and twice MIN_MASS plus EVAPORATION_RATE. |
| `Water.TickCreatesNoWater` | src/water.rs:686-718 | For every processing order: non-source water after a tick is at most water before plus outflow of sources. |
| `Water.AboveMinKeptIff` | src/water.rs:456-543 | Survivors stay above MIN_MASS under every operation and tick, if and only if it is not an addition that leaves a trace. |
| `Water.NonNegativeOverRun` | src/water.rs:456-964 | No run makes a mass negative. |
| `WaterGrids.WaterGrid.SetWater` | src/water.rs:456-474 | The cell is there exactly if the mass is above MIN_MASS or it is a source, and is then that cell; the position is active exactly if it holds a cell, and no other position changes. |
| `WaterGrids.WaterGrid.AddWater` | src/water.rs:478-490 | The mass grows by exactly a positive amount; the type is the added water's exactly if nothing was there; no other position changes. |
| `WaterGrids.WaterGrid.RemoveWater` | src/water.rs:493-510 | Returns what was really taken: nothing from a source, at most the mass. The cell has exactly so much less, or is gone with at most MIN_MASS left; no other position changes. |
| `WaterGrids.WaterGrid.RemoveSource` | src/water.rs:520-526 | The cell stays with its mass and type and stops being a source. |
| `WaterGrids.WaterGrid.OnBlockPlaced` | src/water.rs:539-543 | The cell is gone, and its neighbourhood marked unless the position was marked already. |
| `WaterGrids.WaterGrid.CalculateFlowCached` | src/water.rs:586-682 | The step-by-step flow computation gives the one flow that the law of a water cell allows. |
| `WaterGrids.WaterGrid.ApplyPendingChanges` | src/water.rs:686-718 | Draining the deltas and types in any order: every position holds what was there with its delta if that is above MIN_MASS, and nothing otherwise, with the type inherited as the law says; sources and positions without a delta are untouched. |
| `WaterGrids.WaterGrid.ProcessAll` | src/water.rs:800-951 | After the loop cells, deltas, types, woken and changed positions are those of the tick as a function of the order. |
| `WaterGrids.WaterGrid.Tick` | src/water.rs:737-1022 | A tick is the turns of its order, cell by cell by the laws of flow and evaporation, and then every position settles by the law; what is active, woken and reported afterwards follows, position by position, from what each cell was and did. |
| `WaterGrids.MayProcessIff` | src/water.rs:764-787 | A tick may process exactly the positions that are active, or woken with water, within the radius around the player. |
| `WaterGrids.StartIff` | src/water.rs:770-776 | Far active cells are dropped before a tick only when there are more than the threshold. |
| `WaterGrids.ActivityLaw` | src/water.rs:856-951 | After a tick: stalled and evaporated cells are inactive, cells that took part in a flow are active while they last, and neighbours are woken of exactly the cells that flowed and are not gone. |
| `FluidWorlds.FormCobblestone` | src/fluid_interactions.rs:22-34 | Both fluids give way to cobblestone at the position, and in both grids its neighbourhood is marked unless it was marked already. |
| `FluidWorlds.SyncDirty` | src/lava.rs:637-649 | Exactly the dirty positions with a lava block and no cell become full active cells. |
| `FluidWorlds.ReactionAgrees` | src/lava.rs:700-730 | After the reactions, at every changed position in range that shows air, lava or water, the block is lava if and only if the grid has lava there; cobblestone positions hold no lava. |
| `FluidWorlds.React` | src/lava.rs:700-730 | The contacts, and then exactly the changed positions where lava runs into water, become cobblestone and lose both fluids with their neighbourhoods woken; every changed position shows what it is to show. |
| `FluidWorlds.TickAccounts` | src/lava.rs:452-540 | For the tick of every call the mass accounting of non-source lava holds, and the mass bound is kept. |
| `FluidWorlds.ProcessSimulation` | src/lava.rs:627-733 | One call, from any state: the tick runs on the synchronised cells in a proper processing order of the cells in range; contacts and overrun positions, and no others, turn to cobblestone without fluid in either grid; every changed position shows what it is to show, other loaded blocks are untouched, and world and grid agree at every changed position. |
| `LavaCallLaws.PlacedLavaIsACell` | src/lava.rs:637-649 | A marked lava block without a cell starts the tick as a full cell; every other position starts as it is. |
| `LavaCallLaws.MayProcessIff` | src/lava.rs:428-452 | The tick may process exactly what is active, and marked lava, within the radius around the player. |
| `LavaCallLaws.WorldIsSeen` | src/lava.rs:657-690 | To the tick a position is open exactly if it is loaded, in range, and air, a fluid or a block that is not solid; below the world is void; a lava block without a cell counts as full. |
| `LavaCallLaws.ContactIff` | src/lava.rs:455-467 | Contacts are exactly the processed positions with lava that have water there or at one of the six neighbours, as a block or as a cell. |
| `LavaCallLaws.LavaBesideWaterHardens` | src/lava.rs:700-704 | Processed lava beside water is cobblestone after the call, with neither fluid left there. |
| `LavaCallLaws.LavaPours` | src/lava.rs:706-730 | Lava processed above air leaves a lava block and lava there after the call; above water it leaves cobblestone and no lava. |
| `Worlds.World.SetBlock` | src/world/storage.rs:439-452 | Sets one block, creating an air chunk when it is missing. |
| `ChunkLoaders.StepRefines` | src/chunk_loader.rs:222-425 | Every step of main thread or worker, whatever the interleaving, is one event of the request history. |
| `ChunkLoaders.StepIsPossible` | src/chunk_loader.rs:321-425 | Only current requests are delivered, only stale ones discarded, and nothing in flight is accepted again. |
| `ChunkLoaders.ExactlyOnce` | src/chunk_loader.rs:222-425 | An accepted request is delivered, discarded or held, in one place and once. |
| `ChunkLoaders.EveryRunConserves` | src/chunk_loader.rs:222-425 | Exactly once, over all interleavings, cancellations included. |
| `ChunkLoaders.InFlightIsOutstanding` | src/chunk_loader.rs:321-425 | Without cancellation the in-flight set is exactly the positions of current requests held by the channels or a worker, each once, and the bounded channel never refuses. |
| `ChunkLoaders.QuiescentIsComplete` | src/chunk_loader.rs:321-425 | When all work is done nothing is in flight and every request of the epoch was delivered once. |
| `ChunkLoaders.NoStaleDelivery` | src/chunk_loader.rs:414-425 | Nothing requested before a reset is delivered after it, in any continuation. |
| `ChunkLoaders.IgnoredIffHeldAtReset` | src/chunk_loader.rs:427-433 | A request, cancelled or not, is ignored if and only if it is still held at the next reset. |
| `ChunkLoaders.CancelledIsDelivered` | src/chunk_loader.rs:427-433 | The comment says a cancelled result is ignored, but a run delivers it, and another holds one position twice. |
| `ChunkLoaderThreads.ChunkLoader.RequestChunk` | src/chunk_loader.rs:321-351 | One protocol step; true exactly when the request was accepted. |
| `ChunkLoaderThreads.ChunkLoader.RequestChunks` | src/chunk_loader.rs:356-375 | Each distinct position of the first 256 is asked for once, with workers interleaved anywhere; queued and failed add up to them, and each is in flight or refused for room. |
| `ChunkLoaderThreads.ChunkLoader.ReceiveChunks` | src/chunk_loader.rs:380-401 | A run of protocol steps; returns exactly what it delivered and counts exactly what it dropped as stale. |
| `ChunkLoaderThreads.ChunkLoader.ResetEpochAndClear` | src/chunk_loader.rs:417-425 | A run of protocol steps that leaves a new epoch, no tracked position and both channels empty. |
| `ChunkLoaderThreads.ChunkLoader.CancelChunk` | src/chunk_loader.rs:431-433 | Forgets the position, nothing else. |
| `ChunkLoaderThreads.ChunkLoader.Workers` | src/chunk_loader.rs:222-307 | Whatever the workers do meanwhile leaves the main thread's fields and the deliveries alone. |
| `Streaming.SlotsAreChunks` | src/world_streaming.rs:252-286 | Slot indices and chunk positions inside the texture correspond one to one, both ways, for every origin. |
| `Streaming.PackDistances` | src/world_streaming.rs:288-298 | Up to 64 distances fill sixteen words four to a word, the rest zero. |
| `Streaming.PackRoundTrip` | src/world_streaming.rs:288-298 | Every distance can be read back from the packed words. |
| `Streaming.PlayerStaysInTexture` | src/world_streaming.rs:301-350 | After the shift check the player's chunk has a slot, at most a quarter of the texture from the centre. |
| `Streaming.ShiftSettles` | src/world_streaming.rs:301-350 | A shift never asks for another one. |
| `Streaming.ShiftIff` | src/world_streaming.rs:301-343 | A shift is asked for exactly when on some axis the player's chunk is more than four off the centre, or more than two off and moving on that way. |
| `Streaming.NextShiftIff` | src/world_streaming.rs:301-350 | After a shift to a chunk, the same is told by the way from that chunk alone. |
| `Streaming.ShiftKeepsCamera` | src/world_streaming.rs:367-391 | The camera adjustment keeps its world position. |
| `Metadata.PutAt` | src/world_streaming.rs:1495-1512 | Writing one slot's bit, mask and distance words changes that slot and no other. |
| `Metadata.SyncSlotAt` | src/world_streaming.rs:1548-1568 | Copying a slot copies its data alone, but the bits of all 32 slots of its word. |
| `MetadataOrder.SyncSlotShownIff` | src/world_streaming.rs:1546-1568 | Copying one slot shows no slot before its data if and only if every other non-empty slot of its bit word has its data already. |
| `MetadataOrder.BitsFirstShownIff` | src/world_streaming.rs:1528-1536 | Copying all bits first, as on a reset, shows no slot early if and only if every non-empty slot has its data already. |
| `MetadataOrder.CopiesShownIff` | src/world_streaming.rs:1546-1568 | Between any two copies of a refresh no slot is shown early if and only if none is at first and each copy meets that condition. |
| `MetadataOrder.ResetShownIff` | src/world_streaming.rs:1528-1568 | A whole reset shows no slot early at any moment if and only if every non-empty slot had its data before. |
| `MetadataOrder.RefreshShownIff` | src/world_streaming.rs:1425-1578 | The stated order holds at every moment of a refresh without a reset if and only if no shown slot changes and no later slot of a word already written becomes non-empty with new data: a condition on the state before the call. |
| `MetadataOrder.NeighbourIsShownEarly` | src/world_streaming.rs:1524-1527 | The stated order fails from a state that one refresh reaches: copying slot 1 shows slot 2 as non-empty with the data of a missing chunk. |
| `MetadataOrder.ResetIsShownEarly` | src/world_streaming.rs:1528-1536 | The stated order fails on a reset: the bits show a chunk before any of its data is written. |
| `Metadata.WorkOrCovered` | src/world_streaming.rs:192-224 | A slot queued or ahead of the sweep is worked on now or still covered. |
| `Metadata.BacklogShrinks` | src/world_streaming.rs:192-224 | A call works off exactly its budget of the backlog and leaves the state dirty if and only if something is left. |
| `Metadata.MetadataState.ResetForOrigin` | src/world_streaming.rs:136-146 | Everything blank, a full refresh due. |
| `Metadata.MetadataState.QueueChunk` | src/world_streaming.rs:148-155 | Queues the chunk's slot once; another origin resets first. |
| `Metadata.MetadataState.QueueAll` | src/world_streaming.rs:157-165 | Queues every position in order. |
| `Metadata.MetadataState.RequestRefresh` | src/world_streaming.rs:168-176 | Restarts the sweep; another origin resets. |
| `Metadata.MetadataState.TakeWork` | src/world_streaming.rs:192-215 | Queued slots first, then the sweep with what is left of the budget. |
| `Metadata.MetadataState.MarkResultsApplied` | src/world_streaming.rs:217-224 | Clean exactly when queue and sweep are done. |
| `MetadataRuns.UpdatesAreRight` | src/world_streaming.rs:1220-1267 | The immediate updates of an upload set every loaded slot of the list right and touch no other. |
| `MetadataRuns.LoadsAreRight` | src/world_streaming.rs:747-799 | The updates of loaded chunks set their slots right, even when a position is loaded twice. |
| `MetadataRuns.DirectMirrors` | src/world_streaming.rs:1240-1267 | An immediate update keeps the agreement of the two copies. |
| `MetadataRuns.LoadKeepsGood` | src/world_streaming.rs:693-1113 | Loading and unloading in one frame keep freshness and mirror. |
| `MetadataRuns.UploadKeepsGood` | src/world_streaming.rs:1143-1294 | An upload of any part of the dirty queue keeps freshness and mirror. |
| `MetadataRuns.ShiftKeepsGood` | src/world_streaming.rs:367-550 | After an origin shift every slot is covered by the refresh. |
| `MetadataRuns.UpdateKeepsGood` | src/world_streaming.rs:1425-1578 | A refresh call keeps freshness and mirror. |
| `MetadataRuns.UpdateMirrors` | src/world_streaming.rs:1425-1578 | At the end of every refresh call the chunk-bit words agree everywhere and every slot flagged non-empty has equal mask and distances. |
| `MetadataRuns.FreshOverRun` | src/world_streaming.rs:108-237 | Over any run of edits, loads, unloads, uploads, shifts and refreshes, a slot that differs from its chunk's summary is queued, ahead of the sweep, or its chunk is dirty. |
| `MetadataRuns.QuietIsRight` | src/world_streaming.rs:1425-1578 | When nothing is dirty the GPU shows every slot as the world has it. |
| `ChunkSummaries.EmptyIsAir` | src/world_streaming.rs:1476-1489 | The slot of a chunk is flagged empty if and only if all its blocks are air. |
| `ChunkSummaries.SlotTellsBricks` | src/world_streaming.rs:1476-1489 | The mask words of a slot say which bricks of the chunk hold a block, and its packed distances read back as the swept distances. |
| `ChunkSummaries.QuietShowsBlocks` | src/world_streaming.rs:1449-1578 | From blocks to the GPU: with nothing left to upload or refresh, a loaded chunk is shown as empty if and only if it is air, else with the mask and distances of its blocks. |
| `MetadataRuns.UpdatesEnd` | src/world_streaming.rs:1425-1578 | With budgets of at least one slot, as many refresh calls as there are slots left make the state clean. |
| `MetadataUpload.StreamingApp.WriteSlot` | src/world_streaming.rs:1240-1267 | The word-by-word writes to both copies are one immediate update. |
| `MetadataUpload.StreamingApp.UpdateChunkLoading` | src/world_streaming.rs:693-1113 | Inserting, showing, removing and queueing one frame's chunks is the operation of the run model. |
| `MetadataUpload.StreamingApp.UploadWorldToGpu` | src/world_streaming.rs:1143-1294 | Requeueing and uploading part of the queue is the operation of the run model; the part is the whole queue or as many chunks as the limit allows, each once. |
| `MetadataUpload.StreamingApp.ShiftOrigin` | src/world_streaming.rs:367-550 | The shift is the operation of the run model. |
| `MetadataUpload.StreamingApp.UpdateMetadataBuffers` | src/world_streaming.rs:1425-1578 | The refresh with its early return, reset copy and slot copies is the operation of the run model. |
| `Chunks.IndexIsBijection` | src/chunk.rs:1127-1142 | Coordinates and flat indices correspond one to one. |
| `Chunks.CountAfterSet` | src/chunk.rs:1180-1187 | Replacing a block changes the number of light sources by what went and what came, so the guarded decrement never clips. |
| `Chunks.DerivedOverRun` | src/chunk.rs:1170-1485 | Over every run of setters but the unchecked one: the light count is the number of emissive blocks, metadata matches its block, clean flags are the full scan. |
| `Chunks.AnswersAreScans` | src/chunk.rs:1741-1758 | The empty and solid answers are always those of a full scan. |
| `Chunks.SetDataKeepsDerivedIff` | src/chunk.rs:1337-1343 | The unchecked setter keeps that state if and only if the block is a model. |
| `Chunks.NetworkIsDerivedIff` | src/chunk.rs:1072-1125 | A chunk from network data starts in that state if and only if its count is the number of light-giving positions and each metadata entry fits the block at its index. |
| `Chunks.NewIsDerived` | src/chunk.rs:1006-1068 | New and filled chunks start in that state. |
| `Chunks.OpRaisesEpoch` | src/chunk.rs:1030-1033 | Every operation but frame recomputation raises the epoch and marks the chunk when blocks or metadata change. |
| `Chunks.EpochTellsContent` | src/chunk.rs:1030-1040 | Without frame recomputation, equal epochs in a chunk's life mean identical blocks and metadata. |
| `Chunks.RecomputeKeepsContentIff` | src/chunk.rs:1347-1399 | Frame recomputation keeps the epoch, so it is harmless to epoch readers if and only if every frame's rotation was up to date. |
| `Chunks.GeneratedIsNotSaved` | src/chunk.rs:1189-1199 | A generated block raises the epoch without the save flag, against the documented lockstep. |
| `Chunks.LockstepIff` | src/chunk.rs:930-931 | Epoch and save flag advance together if and only if the operation does not generate a different block with nothing left to save. |
| `ChunkCaches.ModelDecodes` | src/chunk.rs:1630-1639 | Identifier, waterlogging, turn and edge mask read back from a model's two bytes. |
| `ChunkCaches.PaintDecodes` | src/chunk.rs:1644-1647 | Texture, tint and blend mode read back from a paint's two bytes. |
| `ChunkCaches.TintDecodes` | src/chunk.rs:1640-1643 | A tint reads back from its second byte, modulo the 32 of the palette; the first is zero. |
| `ChunkCaches.WaterDecodes` | src/chunk.rs:1648-1651 | The type of a water block reads back from its second byte; the first is zero. |
| `ChunkCaches.Chunk.SetBlockInternal` | src/chunk.rs:1170-1216 | The block is stored at its index and no other changes; the metadata is as before, without the entry there exactly when it does not fit a new block; epoch and flags rise exactly for a new block, and the cache stays coherent. |
| `ChunkCaches.Chunk.SetBlockWithMetadata` | src/chunk.rs:1237-1255 | Block and entry are stored at their index and nothing else changes in either; every set, of a new entry alone too, is a mutation, and the cache stays coherent. |
| `ChunkCaches.Chunk.SetModelBlock` | src/chunk.rs:1259-1280 | The index holds a model block and the entry with its identifier, rotation and waterlogging, and no custom data; nothing else changes. |
| `ChunkCaches.Chunk.SetTintedGlassBlock` | src/chunk.rs:1403-1411 | The index holds tinted glass and its tint, modulo 32; nothing else changes. |
| `ChunkCaches.Chunk.SetCrystalBlock` | src/chunk.rs:1416-1424 | The index holds a crystal and its tint, modulo 32; nothing else changes. |
| `ChunkCaches.Chunk.SetPaintedBlock` | src/chunk.rs:1442-1458 | The index holds a painted block with texture, tint modulo 32 and blend mode of at most four; nothing else changes. |
| `ChunkCaches.Chunk.SetWaterBlock` | src/chunk.rs:1483-1485 | The index holds water and its type; nothing else changes. |
| `ChunkCaches.Chunk.SetCustomData` | src/chunk.rs:1322-1331 | A model entry at the index gets the custom data and no other entry changes; without one nothing changes at all. |
| `ChunkCaches.Chunk.SetModel` | src/chunk.rs:1337-1343 | The unchecked write: the entry is stored at the index and no other changes; the cache is flagged. |
| `ChunkCaches.Chunk.RecomputeFrameEdgeMasks` | src/chunk.rs:1347-1399 | Every frame entry gets the rotation of its custom data and every other entry is as before; the cache is flagged if any changed, and the epoch stays. |
| `Chunks.RotationTellsEdges` | src/chunk.rs:1362-1380 | Facing and the four edge bits read back from the packed rotation, each bit set exactly when the frame is at that edge of its cluster. |
| `Chunks.FitsIff` | src/chunk.rs:365-374 | An entry fits exactly its kind of block, a tint both tinted glass and crystal. |
| `ChunkCaches.Chunk.RefreshFlags` | src/chunk.rs:1763-1769 | Both flags by full scans, once. |
| `ChunkCaches.Chunk.PackEntries` | src/chunk.rs:1626-1654 | Writing the entries in any order over zeros gives the fresh pack, and records every index written. |
| `ChunkCaches.Chunk.ZeroWritten` | src/chunk.rs:1616-1624 | Zeroing the recorded indices alone leaves every byte zero. |
| `ChunkCaches.Chunk.EnsureGpuMetadata` | src/chunk.rs:1610-1657 | Afterwards the bytes are a fresh pack; nothing else of the chunk changes, and a buffer is never given up. |
| `ChunkCaches.Chunk.ModelMetadataBytes` | src/chunk.rs:1693-1701 | Whenever the flag is down the bytes are a fresh pack of the sparse metadata. |
| `ChunkCaches.Chunk.FromNetworkData` | src/chunk.rs:1072-1125 | The chunk as received, its cache flagged; it can be packed if and only if every metadata index is inside the chunk. |
| `FallingBlocks.PhysicsSubsteps` | src/falling_block.rs:58-66 | Substeps are positive, at most the longest step, add up to the clamped time, and there is one for any positive time. |
| `FallingBlocks.UpdateBlock` | src/falling_block.rs:101-144 | The source's step: where the block stops, else gravity on its velocity up to the cap and the way at that velocity, exactly. |
| `FallingBlocks.FromRest` | src/falling_block.rs:101-116 | After k equal steps from rest within the first second, velocity is exactly that of gravity, and the way down is exactly 10 t (t + dt) for t = k dt. |
| `FallingBlocks.AtTheCap` | src/falling_block.rs:101-116 | After that the velocity is exactly the cap, and every step adds the same way. |
| `FallingBlocks.ProbesDescend` | src/falling_block.rs:118-127 | With a step in (0, MAX_PHYSICS_DT] the cell probed is the one before or the one below it, in the spawn column. |
| `FallingBlocks.FallStopsRight` | src/falling_block.rs:101-144 | From any moment of a fall from rest, the stop is on top of the highest solid cell below, or below the world with nothing solid on the way. |
| `FallingBlocks.NoTunnelling` | src/falling_block.rs:31-45 | A spawned block lands directly on the highest solid cell below its spawn cell, for any such steps. |
| `FallingBlocks.FallEnds` | src/falling_block.rs:101-144 | With steps bounded below every fall ends, in a number of steps the height bounds. |
| `FallingBlocks.WithinOneCellIff` | src/falling_block.rs:40-45 | At every velocity a step stays within a cell, if and only if it is no longer than MAX_PHYSICS_DT. |
| `FallingBlocks.LongStepTunnels` | src/falling_block.rs:40-45 | Against the comment, one long step passes a floor despite the velocity cap. |
| `FallingBlockSystems.StepPartitions` | src/falling_block.rs:316-341 | A step divides the blocks into flying and stopping ones; none is lost or doubled. |
| `FallingBlockSystems.LandingsAreStops` | src/falling_block.rs:316-341 | A landing is reported exactly for each block that stops inside the world. |
| `FallingBlockSystems.SpawnAddsIff` | src/falling_block.rs:208-246 | Below capacity a spawn adds its block and keeps all others if and only if its identifier is not live, that is below the largest one or with none of that live. |
| `FallingBlockSystems.CounterAdvances` | src/falling_block.rs:296-300 | The counter never goes back and passes every identifier but the largest. |
| `FallingBlockSystems.CounterSticks` | src/falling_block.rs:296-300 | The documented wrap does not happen: at u32::MAX the counter stays, and a second spawn replaces the first block. |
| `FallingBlockSystems.FallingBlockSystem.Spawn` | src/falling_block.rs:208-246 | None at capacity, else the counter's value; live identifiers stay unique. |
| `FallingBlockSystems.FallingBlockSystem.SpawnWithId` | src/falling_block.rs:259-292 | The block is live under its identifier unless at capacity; identifiers stay unique. |
| `FallingBlockSystems.FallingBlockSystem.RemoveById` | src/falling_block.rs:306-310 | Removes that identifier alone; true exactly when it was live. |
| `FallingBlockSystems.FallingBlockSystem.Update` | src/falling_block.rs:316-341 | Flying blocks move in order, stopped ones go, and exactly the stops inside the world are reported. |
| `TreeLogic.Flood` | src/world/tree_logic.rs:29-70 | The breadth-first search finds exactly the component of the start, each block once and truthfully, and whether a log touches it. |
| `TreeLogic.FindConnectedTree` | src/world/tree_logic.rs:77-154 | The whole tree of a log; nothing for anything else. |
| `TreeLogic.FindLeafCluster` | src/world/tree_logic.rs:11-73 | The whole leaf cluster and whether a log touches it; anything but a leaf counts as connected. |
| `TreeLogic.TreeHasGroundSupport` | src/world/tree_logic.rs:158-173 | True if and only if some log stands on a supporting block that is no tree part. |
| `TreeLogic.SameTree` | src/block_update.rs:374-395 | Two blocks of one cluster have the same cluster, so skipping the second search of a frame skips nothing new. |
| `BlockUpdates.BlockUpdateQueue.Enqueue` | src/block_update.rs:137-149 | Queued once per position and kind, with the squared distance to the player. |
| `BlockUpdates.BlockUpdateQueue.PopNearest` | src/block_update.rs:188-202 | Takes out an update that none is nearer than: of two queued for one position of the player, the other is not nearer on all axes. |
| `BlockUpdates.BlockUpdateQueue.TakeBatch` | src/block_update.rs:188-202 | The nearest updates, nearest first, up to the limit; all others stay. Of two queued for one position of the player, the later, or the one left, is not nearer on all axes. |
| `BlockUpdates.BatchIsNearest` | src/block_update.rs:94-101 | The order of the stored numbers is an order of distances: of two updates queued for one position of the player, the one that comes later is not nearer on all axes. |
| `BlockUpdates.BlockUpdateQueue.Drop` | src/block_update.rs:327-352 | A block leaves the world if and only if there was room for it to fall; then exactly the gravity check above it, and a leaf check if a leaf is there, are queued. |
| `BlockUpdates.BlockUpdateQueue.DropAll` | src/block_update.rs:398-423 | The blocks fall in order; at capacity the rest stays where it is; exactly the checks that the falls ask for are queued. |
| `BlockUpdates.BlockUpdateQueue.ProcessGravity` | src/block_update.rs:311-356 | Sand, gravel and snow in range leave their cell as air and are in the air at rest in its middle, unless 256 blocks are; anything else stays, and nothing else changes. |
| `BlockUpdates.BlockUpdateQueue.ProcessTreeSupport` | src/block_update.rs:358-429 | A tree not yet searched this frame falls, as far as there is room, if and only if it stands on nothing. |
| `BlockUpdates.BlockUpdateQueue.ProcessOrphanedLeaves` | src/block_update.rs:431-496 | A cluster not yet searched this frame falls, as far as there is room, if and only if no log touches it. |
| `BlockUpdates.BlockUpdateQueue.ProcessModelGroundSupport` | src/block_update.rs:498-541 | A model that needs ground becomes air exactly when below it is nothing loaded, air, a fluid, or a model that carries none; nothing else changes. |
| `BlockUpdates.BlockUpdateQueue.Dispatch` | src/block_update.rs:253-300 | The check of one update has the outcome of its kind, on the blocks and on the clusters already searched, and queues exactly what its falls ask for. |
| `BlockUpdates.BlockUpdateQueue.ProcessUpdates` | src/block_update.rs:228-309 | The batch is the nearest part of the queue, nearest first, by positions and not only by stored numbers. Its updates are checked one after the other, each with the outcome of its kind, exactly while the work done is below the limit. The queue then holds the rest, the unchecked updates and exactly what the falls ask for, so every key pending before was checked or is still pending, and above every fallen block a gravity check is pending, with a leaf check if a leaf is still there. New entries carry the distance to the player. |
| `BlockUpdates.CascadesAreChecks` | src/block_update.rs:341-352 | Whatever is above a block that fell has its check queued, as the blocks are at the end of the frame. |
| `BlockUpdates.FrameConserves` | src/block_update.rs:228-496 | One frame conserves every type of block in world and air together, at capacity too, but for broken models; events match cleared cells and new entities one to one, while identifiers last. |
| `BlockMoves.BlocksAreConserved` | src/block_update.rs:311-496 | The same for any list of events. |
| `BlockMoves.EventsMatchClearings` | src/block_update.rs:332-339 | Event positions are distinct, are exactly the cleared ones, and name the block that was there. |
| `BlockMoves.SpawnsMatchEntities` | src/block_update.rs:332-339 | Spawn events and new falling blocks match one to one, in order. |
| `BlockMoves.SpawnKeepsTotalIff` | src/falling_block.rs:208-246 | A spawn keeps the total number of blocks if and only if its identifier is not live. |

## Left out

* Rounding, infinities and NaN of floats; overflow of `i32` positions, of the `u32` epoch and of the `u64` mutation epoch.
* The square root that normalises a ray direction: any non-zero direction is covered instead.
* Wall-clock throttling, profiling, logging, visual smoothing of water, network sync messages, minimap invalidation.
* GPU images and uploads of voxel data: uploads and buffer mappings succeed, and GPU metadata buffers are values.
* Other numbers of bricks per axis: the sweeps are proved for the source's four.
* The effect of water on world blocks and its adjacency reaction with lava (`src/water.rs:1300-1412`).
* An upper bound on water mass: the nudge breaks it, and additions are not limited.
* Reading terrain fluid into the grids and restoring saved sources.
* Worker panics, shutdown of the loader, disk reads and terrain generation inside a worker.
* The custom-data cache of a chunk: the code does not keep it coherent as a general invariant.
* `World::clear`, overflow blocks of terrain generation, and the height cache.
* The chunk's own dirty flag beside the dirty queue: the two are one set in the metadata runs, and which entries of it
  an upload drains is left open.
* The reupload queue: any positions may be queued again.
* Fence connections and particles when a model breaks; what the model registry says is a parameter.
* The binary heap: pending updates are a list from which a nearest one is taken, ties in any order.
* Player movement, camera control, rendering, user interface, world generation, editors, storage formats and networking.

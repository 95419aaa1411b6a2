# A verified model of an archetype storage engine

This project models the storage engine of the Rust ECS library `xynok_ecs` and proves what its
design promises. Entities are rows packed into fixed-capacity chunks, one archetype per component
set. Structural changes move rows by swap-removal and column migration, repair the handle-to-row
map and keep a queue of chunks with room; enable bits and change ticks live in regions of their own
beside the values. On top of that sit queries cut into batches, a conflict test that decides which
systems may share a step, change detection by wrapping ticks, and per-thread command buffers.

Run `dafny verify dfyconfig.toml`.

How the files fit together, from the bytes up:

- `Layouts`, `Regions`: alignment, header and column arithmetic, the search for the greatest row
  count, and why the regions of a chunk are aligned, inside it and apart.
- `Bytes`, `Cells`, `Entities`: single bits, little-endian numbers, packed handles; a byte-level
  write seen as an update of one typed cell.
- `Bundles`, `Rows`, `Migrations`: values on their way into a chunk, rows, and what column-by-column
  work does to rows.
- `Chunks`, `Storages`, `Archetypes`: the chunk as a class over its byte buffer, the archetype as a
  class over its chunks, and the value (`Storage`) both are proved against.
- `Allocators`, `Directories`, `Registries`, `Accounts`, `Holdings`, `Worlds`: versioned slots, the
  bijection between live handles and rows, the registries and edge caches, where every value is, and the world
  with its public operations, proved against a map from handle to cells.
- `Runs`: any program of operations, deferred ones, writes through queries and sync points included,
  up to the drop of the world.
- `Ticks`, `Schedules`, `Changes`: wrapping ticks, query windows, the schedule, and what its `Added`
  and `Changed` filters find in the rows a program leaves.
- `BitSets`, `Scopes`, `Interleavings`, `Groups`, `ParallelSystems`, `Batches`: word-packed id sets,
  the conflict test, jobs that share memory byte by byte, systems as programs over rows, and the two
  ways of batching a query.
- `Commands`, `QueryCaches`: deferred commands and the cached archetype lists.

Reading the contracts: `Entities()` is what a world means, a map from handle to component cells
(value, enable bit, added and changed tick). `StoredAll` is the multiset of values it stores, and
the `drops` a method returns are the values it dropped in place or was left with, so conservation is
an equation between multisets. An operation answers `Done`, `Failed` with the error, or `Panicked`,
which ends the run; contracts say when a panic is possible. A `Snapshot` is everything a caller can
tell about a world and the commands that wait for it; the operations of the command buffer and whole
runs are stated between snapshots. A bundle type stands for `T: TArchetype`:
a sequence of components with the enable state each is spawned with. A component's descriptor stands
for its type id.

Where code and documentation differ, the code is modelled: `create_query` moves the world's tick,
and the row estimate saturates, so for chunk sizes whose bit count leaves `usize` it can undershoot
(`SaturatedEstimateUndershoots`). The documentation promises that a system sees every change exactly
once; a system that ran in the step a change is stamped with never sees it, which hits changes by
others when a row moves after the step (`MovedRowIsLost`) and when a command queued in the step is
carried out behind it (`QueuedChangeIsLost`). `SelectedRowsAreReported` and `RowReportedExactlyOnce`
say when the promise is kept.

## Model

| member | source | states |
|---|---|---|
| Layouts.AlignUpLeast | src/utils.rs:39-44 | the rounded offset is a multiple of the alignment, less than one alignment above, and the least such multiple |
| Layouts.AlignUpMonotone | src/utils.rs:39-44 | rounding up keeps the order of offsets |
| Layouts.PlaceState | src/chunk/header.rs:18-64 | the enable, added and changed offsets of one component and the first free byte behind them, for every mix of state flags |
| Layouts.NewHeader | src/chunk/header.rs:18-64 | the offset of every state region, the entity region and the header size, component by component; the loop is proved against an independent recursive definition |
| Layouts.TryLayout | src/chunk/layout.rs:189-256 | succeeds exactly when the rows really fit the chunk and the chunk can be allocated, despite its early exits and overflow checks; then it is the layout with those columns, else the error names the reason |
| Layouts.FitsMonotone | src/chunk/layout.rs:88-128 | if more rows fit, fewer rows fit: what justifies the binary search |
| Layouts.EstimateMaxEntities | src/chunk/layout.rs:135-161 | the saturating estimate, accumulated component by component |
| Layouts.EstimateIsUpperBound | src/chunk/layout.rs:135-161 | no row count above the estimate fits, while the chunk size in bits stays inside `usize` |
| Layouts.ColumnsCostAtMost | src/chunk/layout.rs:189-256 | a layout wastes nothing but padding: its end against the bits of its rows, 64 bytes a component and one alignment a column |
| Layouts.BuildComponentBitSet | src/chunk/layout.rs:168-187 | the registry ids of exactly the listed components; refused exactly when one is listed twice or not registered |
| Layouts.ComputeLayout | src/chunk/layout.rs:88-128 | the binary search: a result is the greatest accepted row count within the estimate; `ArchetypeIsTooLarge` exactly when not even one row fits |
| Layouts.SettlesIffPlaceable | src/chunk/layout.rs:88-128 | the search has a result exactly for components of which one row fits the chunk and the chunk can be allocated, whatever the chunk size |
| Layouts.SettledFits | src/chunk/layout.rs:88-128 | whatever the search settles on fits the chunk, also for an archetype without columns, which is never measured |
| Layouts.SettledIsGreatest | src/chunk/layout.rs:88-161 | the result is the greatest row count that fits if and only if one row more than the estimate does not fit, which holds whenever the bit count stays inside `usize` |
| Layouts.TooLargeMeansNoRow | src/chunk/layout.rs:88-128 | the search fails exactly when one row does not fit, saturated estimates included |
| Layouts.SaturatedEstimateUndershoots | src/chunk/layout.rs:135-161 | the concrete chunk size for which the saturated estimate is below a row count that fits, so the guard above is needed |
| Layouts.UsedBytes | src/chunk/layout.rs:62-79 | the bytes the columns of a one-row probe really reach |
| Layouts.NewFitted | src/chunk/layout.rs:62-79 | succeeds exactly when the probe does, so the second pass never fails; the result is the one-row layout at the fitted size |
| Layouts.FittedSizeLeast | src/chunk/layout.rs:62-79 | the fitted size is the least multiple of the alignment that holds one row, and shrinking the chunk moves no offset |
| Layouts.FittedAllocatable | src/chunk/layout.rs:62-79 | the fitted chunk can be allocated whenever the probe was accepted |
| Layouts.OffsetsStayInUsize | src/chunk/header.rs:18-64 | the unchecked header arithmetic stays inside `usize` for every row count the search tries, and rounding a cursor up does for every chunk that ends an alignment below the end of `usize` (up to 2^50 components) |
| Layouts.HugeChunkOverflows | src/chunk/layout.rs:189-201 | the concrete components and chunk size for which rounding the cursor up leaves `usize` |
| Regions.RegionsApart | src/chunk/layout.rs:189-256 | any two different regions of a computed layout (enable, added, changed, handles, columns) are disjoint |
| Regions.FittingLayoutOk | src/chunk/layout.rs:189-256 | a layout whose rows fit has every region inside the chunk, apart from each other and well formed |
| Regions.FitsIffInside | src/chunk/layout.rs:189-256 | rows fit if and only if every region lies inside the chunk, up to its last byte |
| Regions.LayoutAligned | src/chunk/layout.rs:189-256 | in a chunk allocated at the layout's alignment every region starts on the alignment of its elements |
| Entities.PackEntity | src/entity.rs:50-63 | refused exactly outside the index or version range; otherwise both halves read back and the handle is never `NULL` |
| Entities.HandleByParts | src/entity.rs:50-73 | packing is injective: index and version determine the handle |
| Entities.PackedBits | src/entity.rs:50-73 | the masks and shifts on the 64-bit word are the sum of the two halves, and give both back |
| Bytes.WithBitTests | src/chunk/mod.rs:21-43 | writing one bit of a byte sets that bit and leaves the other seven |
| Bytes.DecodeEncode | src/chunk/mod.rs:45-53 | numbers written to bytes read back |
| Cells.SlotsApart | src/chunk/mod.rs:21-126 | two different value, tick or handle slots of a chunk share no byte |
| Cells.SlotAndBitApart | src/chunk/mod.rs:21-43 | no slot shares a byte with the enable bits |
| Cells.BitBytesApart | src/chunk/mod.rs:21-43 | two enable bits share a byte exactly when they belong to one column and to the same group of eight rows |
| Cells.GridAfterSlotWrite | src/chunk/mod.rs:45-53 | a byte-level write of a value or a tick changes exactly that field of that typed cell, and no handle |
| Cells.GridAfterTickWrite | src/chunk/mod.rs:45-53 | a byte-level tick write is the typed tick update of one cell |
| Cells.GridAfterBitWrite | src/chunk/mod.rs:29-43 | a byte-level bit write is the typed enable update of one cell; the neighbours in the byte keep theirs |
| Cells.GridAfterHandleWrite | src/chunk/mod.rs:369-383 | a byte-level handle write changes that handle and no cell |
| Bundles.OverlayConserves | src/chunk/mod.rs:399-461 | what an entity held plus the bundle written is what it holds afterwards plus what was dropped in place |
| Bundles.OverwrittenCount | src/chunk/mod.rs:399-417 | each overwritten value is dropped exactly once |
| Bundles.EditConserves | src/query/mut_ref.rs:58-95 | a write through a query exchanges the value it points at for the one handed over |
| Rows.StoredSwapRemove | src/chunk/mod.rs:320-364 | swap-removal takes exactly the values of the removed row away |
| Rows.AppendedRows | src/chunk/mod.rs:438-461 | columns written one by one at the end of a chunk add one row whose cells are the fresh cells of the bundle |
| Rows.AdmittedRows | src/chunk/mod.rs:262-319 | columns moved over and then written add one row: the source's components overlaid with the bundle |
| Rows.ShedRows | src/chunk/mod.rs:262-319 | columns moved into a smaller archetype add one row restricted to its components |
| Rows.ReplacedRows | src/chunk/mod.rs:399-417 | columns overwritten in place change exactly that row |
| Rows.EditedRows | src/query/mut_ref.rs:58-95 | writing one cell of the grid changes one component of one row |
| Rows.GapClosedRows | src/chunk/mod.rs:320-364 | backfilling the hole column by column is a swap-removal of the row |
| Rows.ColumnDropsAreRows | src/chunk/mod.rs:471-488 | dropping column by column drops exactly the values of all rows |
| Migrations.NewPlan | src/chunk/migration.rs:76-102 | one move or abandonment per source column, as the destination has the column or not |
| Migrations.PlanMovesAndAbandons | src/chunk/migration.rs:76-102 | exactly the columns the destination lacks are abandoned; a plan has only moves if and only if the destination is a superset |
| Chunks.Chunk.constructor | src/chunk/mod.rs:137-153 | a fresh chunk is empty, as long as the layout says, and its typed view is well formed |
| Chunks.Chunk.MoveStateWithin | src/chunk/mod.rs:66-85 | enable bit and both ticks of one row and column move to another row; every other cell stays |
| Chunks.Chunk.BackfillLastRow | src/chunk/mod.rs:93-101 | the last row's cell of one column moves into the hole, and nothing else |
| Chunks.Chunk.CopyStateAcross | src/chunk/mod.rs:110-126 | enable bit and ticks move between chunks, cell by cell |
| Chunks.Chunk.WriteAt | src/chunk/mod.rs:438-461 | a first write seeds value, enable bit and both ticks of one cell |
| Chunks.Chunk.ReplaceAt | src/chunk/mod.rs:399-417 | an overwrite drops the old value, moves the changed tick only, and keeps enable bit and added tick |
| Chunks.Chunk.WriteOrReplaceAt | src/chunk/mod.rs:420-434 | overwrites when the component was there before, else writes afresh |
| Chunks.Chunk.TakeAt | src/chunk/mod.rs:462-469 | reads a value out |
| Chunks.Chunk.SwapRemoveAt | src/chunk/mod.rs:320-364 | drops each value of the row once, fills the hole with the last row in every column and in the handles, and reports who moved; out of range changes nothing |
| Chunks.Chunk.TakeFrom | src/chunk/mod.rs:262-319 | takes over the handle and every column both chunks have, closes the hole in the source, and reports who moved |
| Chunks.Chunk.Dispose | src/chunk/mod.rs:471-488 | drops every value of every row once |
| Chunks.Chunk.AppendBundle | src/chunk/mod.rs:438-461 | the chunk's rows grow by exactly the entity with the fresh cells of the bundle |
| Chunks.Chunk.RemoveRow | src/chunk/mod.rs:320-364 | the chunk's rows are the swap-removal; the drops are the values of the removed row |
| Chunks.Chunk.AdmitRow | src/chunk/mod.rs:262-319 | one row of the source, overlaid with the bundle, is appended here and swap-removed there |
| Chunks.Chunk.AdmitShed | src/chunk/mod.rs:262-319 | one row of the source, restricted to this layout, is appended here and swap-removed there |
| Chunks.Chunk.OverwriteRow | src/chunk/mod.rs:399-417 | exactly one row changes, to its overlay with the bundle |
| Chunks.Chunk.TakeRow | src/chunk/mod.rs:462-469 | the values of a bundle type read out of one row |
| Chunks.Chunk.EditAt | src/query/mut_ref.rs:58-95 | an assignment drops the old value and moves the changed tick, unless it goes past change detection; marking moves the tick alone, the enable flag the bit alone; every other cell stays |
| Chunks.Chunk.EditRow | src/query/detail.rs:131-137 | exactly one component of one live row changes |
| Storages.PushedOk | src/archetype/mod.rs:73-101 | pushing keeps the invariant that the queue holds exactly the non-full chunks, each once; a new chunk appears only when all are full; only the new position gains a row |
| Storages.PushedQueue | src/archetype/mod.rs:270-290 | the chunk at the head of the queue takes the row and rejoins at the back while it has room |
| Storages.RemovedOk | src/archetype/mod.rs:103-117 | removing keeps the queue invariant; every other row stays, the last of the chunk at the hole; the chunk joins the queue at the back unless it is there |
| Storages.ReplacedOk | src/archetype/mod.rs:176-191 | replacing keeps the queue invariant and every other row |
| Storages.SingletonCapacity | src/archetype/mod.rs:64-67 | a storage with one one-row chunk has at most one row, and room exactly while it has none |
| Archetypes.Archetype.TakeAFreeChunkIdx | src/archetype/mod.rs:270-282 | the head of the queue, or a new chunk when the queue is empty; the chunk has room |
| Archetypes.Archetype.CacheFreeChunk | src/archetype/mod.rs:283-290 | queues a chunk once, at the back |
| Archetypes.Archetype.Push | src/archetype/mod.rs:73-101 | appends the row to the target chunk and says where; a bundle the layout cannot host is refused before anything is written |
| Archetypes.Archetype.RemoveAt | src/archetype/mod.rs:103-117 | swap-removes the row, dropping its values; refused exactly when there is no such chunk or row, and then nothing changes |
| Archetypes.Archetype.TakeAndWriteFrom | src/archetype/mod.rs:121-173 | the row leaves the source and arrives here overlaid with the bundle; refused before anything moves when a column is missing |
| Archetypes.Archetype.ReplaceAt | src/archetype/mod.rs:176-191 | overwrites one row in place, or refuses without touching it |
| Archetypes.Archetype.EditAt | src/query/detail.rs:121-137 | a write through a query item changes one component of one row and no queue |
| Archetypes.Archetype.TakeAndRemoveFrom | src/archetype/mod.rs:192-246 | the removed values are read out, the rest of the row moves over; refused before anything moves when a component is missing |
| Archetypes.Archetype.Dispose | src/archetype/mod.rs:260-266 | drops every stored value once |
| Archetypes.Archetype.ViewOk | src/archetype/mod.rs:270-290 | a valid archetype is one whose queue holds exactly its non-full chunks and none of whose chunks is over-full |
| Archetypes.Archetype.RowsCarryTheLayout | src/archetype/mod.rs:73-101 | every row has a cell for each column of the layout and no other |
| Accounts.SpawnAccount | src/archetype/mod.rs:73-101 | a pushed row adds its values to the world and no others |
| Accounts.DespawnAccount | src/archetype/mod.rs:103-117 | a removed row takes exactly its values away |
| Accounts.MoveAccount | src/archetype/mod.rs:121-246 | a row that moves and changes exchanges its old values for its new ones |
| Accounts.OverlaidAccount | src/chunk/mod.rs:399-461 | old values plus given values are new values plus dropped ones |
| Accounts.ShedAccount | src/world/mod.rs:539-596 | what the row held is what it keeps plus what is handed back |
| Holdings.StoredIsHeld | src/world/mod.rs:311-326 | what chunks store is what the entities of the map hold, value by value |
| Worlds.World.StoredIsTheMap | src/world/mod.rs:104-110 | the same for every world |
| Allocators.EntityAllocator.NewEntity | src/world/entity_allocator.rs:139-159 | a handle never issued before: the oldest free slot at its next version, or a new slot at version 1; fails exactly when nothing is free and the indices ran out |
| Allocators.EntityAllocator.UpdateEntityIndices | src/world/entity_allocator.rs:77-86 | only the moved entity's row position changes |
| Allocators.EntityAllocator.UpdateEntitySpec | src/world/entity_allocator.rs:89-93 | the slot of a live or reserved handle becomes live at the given place with the handle's version |
| Allocators.EntityAllocator.EraseEntity | src/world/entity_allocator.rs:97-110 | the slot dies and queues up for its next version, or retires when it has none |
| Allocators.EntityAllocator.PreAllocate | src/world/entity_allocator.rs:117-136 | succeeds exactly when that many handles are left; hands out only fresh ones, all different and reserved; when the indices run out it leaves all there were in the queue |
| Allocators.OneMoreSetAside | src/world/entity_allocator.rs:117-159 | handles set aside before are not disturbed by the next one |
| Allocators.TakingPasses | src/world/entity_allocator.rs:139-159 | taking a handle disturbs no reservation, brings nobody back and costs one place |
| Allocators.BirthPasses | src/world/entity_allocator.rs:89-93 | a life begins only under a handle that never lived, and never in a retired slot |
| Allocators.MovesPass | src/world/entity_allocator.rs:77-93 | moving rows around begins and ends no life |
| Allocators.DeathPasses | src/world/entity_allocator.rs:97-110 | the end of a life makes room for one handle, unless it was the last of its slot |
| Allocators.LastLifeRetires | src/world/entity_allocator.rs:97-110 | the end of a life at the last version retires the slot |
| Allocators.RetiredForGood | src/world/entity_allocator.rs:77-159 | whatever is taken, born, moved or ended afterwards: a retired slot stays retired, nobody lives or waits in it, and no new handle names it |
| Directories.Bijection | src/world/mod.rs:311-326 | live handles and rows determine each other |
| Directories.ContentsAre | src/world/mod.rs:311-326 | the map read off the storage has exactly the existing handles, each with the cells of its row |
| Directories.SpawnRefines | src/world/mod.rs:736-753 | a pushed row and its slot add exactly one entity to the map |
| Directories.DespawnRefines | src/world/mod.rs:343-362 | a swap-removal with the repair of the swapped row's slot removes exactly one entity from the map |
| Directories.OverwriteRefines | src/world/mod.rs:483-489 | overwriting a row changes exactly its entity |
| Directories.MoveRefines | src/world/mod.rs:422-443 | moving a row between archetypes with both slot repairs changes exactly its entity's cells |
| Registries.NormalizeSet | src/utils.rs:21-25 | an ascending list with exactly the given ids |
| Registries.AscendingUnique | src/utils.rs:21-25 | a normalised id list is determined by its elements |
| Registries.IdsDetermineSet | src/world/mod.rs:946-987 | equal id lists stand for equal component sets, and the other way round |
| Registries.LookupIsExact | src/world/mod.rs:968-986 | the table finds the archetype of a component set exactly when there is one |
| Registries.ComponentsGrown | src/world/mod.rs:959-966 | registering more components disturbs no table |
| Registries.ArchetypeRegistered | src/world/mod.rs:1067-1074 | a new archetype keeps one archetype per component set, with its registry index as id |
| Registries.UnionIds | src/world/mod.rs:908-924 | the ids of the union of two archetypes' components |
| Registries.DifferenceIds | src/world/mod.rs:889-905 | the ids of the components of one archetype that another lacks |
| Registries.AppendComponents | src/world/arch_spec.rs:226-250 | every component once, in whatever order the map yields them |
| Registries.BuildLayout | src/world/mod.rs:1029-1061 | a usable layout with exactly the components, or none exactly when they cannot be hosted |
| Registries.EdgesSurviveGrowth | src/world/arch_spec.rs:56-67 | cached edges stay right as the registry grows |
| Registries.EdgesAgree | src/world/mod.rs:1076-1149 | a cached add edge has only moves and leads back to its source only when it adds nothing; a cached remove edge abandons exactly the removed columns and never leads back |
| Worlds.World.constructor | src/world/mod.rs:74-100 | a new world has no entity, tick 1 and query baseline 0 |
| Worlds.World.ComponentIds | src/world/mod.rs:959-966 | ids of the components, new ones registered, the world's contents untouched |
| Worlds.World.RegisterSpec | src/world/mod.rs:1067-1074 | the archetype is appended empty under its index; every invariant and the map stay |
| Worlds.World.CheckNoDuplicate | src/world/mod.rs:1206-1217 | accepts exactly the bundle types that name no component twice |
| Worlds.World.CreateArchetype | src/world/mod.rs:1029-1061 | a new archetype of the kind, or a panic exactly when its layout cannot be built |
| Worlds.World.CreateArchetypeId | src/world/mod.rs:946-987 | the one archetype of the bundle's component set, whatever bundle type led to it before; a panic exactly when a component is named twice, or the set has no archetype yet and no layout can be built; nothing but registration happens |
| Worlds.World.GetOrCreateArchetypeId | src/world/mod.rs:936-943 | resolves a bundle type; a panic exactly when a component is named twice, or its set has no archetype yet and no layout can be built |
| Worlds.World.UnionArchetype | src/world/mod.rs:1008-1027 | the archetype of a union of component sets, in whatever column order it is built; a panic only when the union has no archetype yet and some order has no layout |
| Worlds.World.DifferenceArchetype | src/world/mod.rs:988-1007 | the archetype of a difference of component sets; a panic only when it has no archetype yet and some order has no layout |
| Worlds.World.GetOrCreateAddEdge | src/world/mod.rs:1083-1113 | the cached or new edge to the union; a panic only where an archetype is still missing and has no layout |
| Worlds.World.GetOrCreateRemoveEdge | src/world/mod.rs:1119-1149 | the cached or new edge to the difference; a panic only where an archetype is still missing and has no layout |
| Worlds.World.AddEdgeLeads | src/world/mod.rs:1083-1113 | a cached add edge leads to the union with the plan made from the two layouts |
| Worlds.World.RemoveEdgeLeads | src/world/mod.rs:1119-1149 | a cached remove edge leads to the difference with the plan made from the two layouts |
| Worlds.World.PrepareAdd | src/world/mod.rs:396-414 | `ComponentAlreadyExists` exactly when any component is shared, a lock, or an edge that may be taken and leads elsewhere; the map is untouched; a panic only where an archetype is still missing and has no layout |
| Worlds.World.PrepareRemove | src/world/mod.rs:551-569 | `ComponentNotFound` exactly when any component is missing, a lock, or an edge that may be taken and leads elsewhere; the map is untouched; a panic only where an archetype is still missing and has no layout |
| Worlds.World.DoesExist | src/world/mod.rs:311-326 | true exactly for the entities of the map |
| Worlds.World.TryPreAllocateEntities | src/world/mod.rs:880-883 | sets fresh handles aside without changing the map |
| Worlds.World.CreateComponentsFor | src/world/mod.rs:736-753 | the reserved handle gets the fresh cells of the bundle; refused exactly when the singleton is taken; a panic exactly when a component is named twice, or the set has no archetype yet and no layout; values are conserved |
| Worlds.World.TryCreate | src/world/mod.rs:303-308 | one more entity under a handle never issued before, with exactly the bundle's cells; the exact error otherwise, with the map unchanged; a panic exactly when a handle is left and the set has no archetype yet and no layout, or names a component twice |
| Worlds.World.TryCreateSingleton | src/world/mod.rs:259-285 | like a spawn, with the exact error for a non-singleton, a taken singleton and exhausted indices; failure spends no handle; the panic is exact too |
| Worlds.World.GetOrCreateSingletonId | src/world/mod.rs:226-240 | fails exactly when the component set has an archetype of the other kind; panics exactly when it has none and no one-row layout can be built, or names a component twice |
| Worlds.World.TryRegisterArchetype | src/world/mod.rs:165-198 | the exact answer: invalid size, singleton, different configuration, or done; a panic exactly for a valid size when the set has no archetype yet and no layout of that size, or names a component twice |
| Worlds.World.TryDestroy | src/world/mod.rs:343-362 | exactly the entity leaves the map and its values are dropped; a stale handle changes nothing |
| Worlds.World.TryAddComponent | src/world/mod.rs:383-443 | refused exactly when the entity does not exist, has any of the components, or is locked at either end, each with its error and the map unchanged; an add that succeeds drops nothing and changes no cell the entity had; a panic only where an archetype is still missing and has no layout |
| Worlds.World.TryMergeComponent | src/world/mod.rs:464-518 | as an overlay, in place when nothing is new (no lock forbids that), else by moving; each error exactly in its case; a panic only where an archetype is still missing and has no layout |
| Worlds.World.TryRemoveComponent | src/world/mod.rs:539-596 | refused exactly when the entity does not exist, misses any of the components, or is locked at either end, each with its error and the map unchanged; otherwise the named components leave, their values are handed back, and every other cell stays; a panic only where an archetype is still missing and has no layout |
| Worlds.Objections | src/world/mod.rs:383-596 | what stands against an add or a removal, by name: any shared component, any missing one, a lock at either end |
| Worlds.World.WriteThrough | src/query/mut_ref.rs:58-95 | a write through a query reaches exactly the component of an entity that has it, changes nothing else in the world, and conserves values |
| Worlds.World.Dispose | src/world/mod.rs:104-110 | drops exactly the values the world stores |
| Worlds.World.StoragesFit | src/world/mod.rs:736-753 | in every reachable world each archetype's queue holds exactly its non-full chunks, rows carry the layout's components, and a singleton has at most one one-row chunk |
| Worlds.World.SingletonHoldsOne | src/world/mod.rs:736-753 | at most one entity has exactly the components of a singleton archetype, by whatever route it came |
| Worlds.World.AdvanceTick | src/world/mod.rs:696-700 | the tick stands for a time one later, through wraparound |
| Worlds.World.CaptureCurrentTick | src/world/mod.rs:683-688 | hands back the tick of the round it closes |
| Worlds.World.CreateQuerySince | src/world/mod.rs:633-645 | the window from the given baseline to the new tick |
| Worlds.World.CreateQuery | src/world/mod.rs:609-620 | the window from the time of the previous call to the new tick |
| Worlds.ContainsAny | src/world/arch_spec.rs:136-146 | true exactly when the component sets meet |
| Worlds.ContainsAll | src/world/arch_spec.rs:147-157 | true exactly when the other component set is inside |
| Worlds.HomeOf | src/world/mod.rs:311-326 | a live entity sits in the archetype of exactly its components |
| Worlds.RegisteredLocks | src/world/mod.rs:28-31 | archetypes that come into being along the way are neither locked nor singletons |
| Runs.ExistsIffMadeAndNotKilled | src/world/mod.rs:311-326 | on every program from the start a handle exists exactly when the program created it, at once or at a sync point since, and has not destroyed it, at once or at a sync point since |
| Runs.HandlesAreNew | src/world/entity_allocator.rs:97-159 | no two operations of a run return the same handle: spawns at once, singletons and deferred spawns alike |
| Runs.NothingComesBack | src/world/entity_allocator.rs:97-159 | along every run a dead handle stays dead and a retired slot retired, with nobody living or waiting in it |
| Runs.ValuesAreConserved | src/world/mod.rs:303-596 | along every run the values given are those stored, still recorded, dropped in place or handed back, each as often |
| Runs.StoredIsHeldAlong | src/world/mod.rs:303-596 | along every run the values stored are those the entities of the map hold, each as often as entities hold it |
| Runs.QueuesAreWaiting | src/cmd_buffer/cmd.rs:63-214 | what is queued at any point is exactly what the program recorded since its last sync point |
| Runs.QueuesInOrder | src/world/worker_spec.rs:55-65 | on every program each thread's queue is what it recorded since the last sync point, first in first out, and a sync point takes the threads in the order they first came up |
| Runs.SpecsOnlyGrow | src/world/mod.rs:1063-1074 | along every run archetypes stay as they were registered |
| Runs.LockedIffRegistered | src/world/mod.rs:165-240 | on every program a component set is a singleton exactly when an operation made it one, and locked exactly when an operation registered it locked or as a singleton |
| Runs.ConfigurationStays | src/world/mod.rs:165-198 | a later registration of a component set is accepted exactly when chunk size and lock agree with the first |
| Runs.RegisteredNeverStops | src/world/mod.rs:165-198 | once a program has registered an archetype, no later spawn into it can stop the run, however large the bundle |
| Runs.AllLives | src/world/worker_spec.rs:55-65 | commands that were not refused leave who was there or was created, but for who was destroyed |
| Runs.Step | src/world/mod.rs:303-596 | one operation of a program means what its definition says: the exact answer, the new state, what it drops; it ends the run only where an archetype is still missing and its layout may fail to be built, or a recorded command is not clean |
| Runs.Run | src/world/mod.rs:303-596 | over any program of spawns, commands, writes through queries, registrations, groups, ticks and sync points every operation means what it should in the state its predecessors left; a program stops only at an operation that may stop it |
| Runs.RunAndDrop | src/world/mod.rs:104-110 | over every program on a new world that ends in dropping it, each value given was dropped in place, handed back, or is in a command that was never flushed; none is after a final sync point |
| Runs.RunEvents | src/world/mod.rs:609-700 | a world driven through any mix of clock events hands out the stamps, captured ticks and windows the history assigns |
| Ticks.NewerIffLater | src/utils.rs:46-62 | through wraparound a stamp is newer exactly when it was made after the last run, while both gaps are below 2^32 |
| Ticks.FreshStampsSeenIff | src/utils.rs:46-62 | everything written since the last run is seen, if and only if fewer than 2^32 ticks passed since |
| Ticks.OldStampsUnseenIff | src/utils.rs:46-62 | nothing older is seen again, if and only if the oldest stamp around is younger than 2^32 ticks |
| Ticks.LappedRunsMisreport | src/utils.rs:46-62 | a run that comes 2^32 ticks late misses a fresh stamp and sees an old one |
| Ticks.ReportedByTheNextQuery | src/world/mod.rs:609-645 | among the `create_query` calls after a write exactly the first reports it, whatever other events moved the clock |
| Ticks.ReportedSinceCapture | src/world/mod.rs:633-688 | a query since a captured tick reports exactly the writes made after the capture |
| Schedules.ReportedExactlyOnce | src/schedule/scheduler.rs:155-201 | a stamp made in a step is newer at a later run of a system exactly when the system ran neither in that step nor in between: once, at the first later run; stamps of its own step, its own or a group mate's, never |
| Schedules.OneRunReports | src/schedule/scheduler.rs:155-201 | after the run that finds a stamp newer no later run does again |
| Schedules.LastTimeBefore | src/schedule/scheduler.rs:184-192 | the last run lies before a time exactly when the system ran in no step from that time on |
| Schedules.NewerIffNotRunSince | src/schedule/scheduler.rs:155-201 | a stamp made at any time, inside a step or not, is newer exactly when the system ran in no step that started at that time or later |
| Schedules.HandedWindow | src/schedule/scheduler.rs:181-192 | the window a run hands out is the one from the system's previous run to the time of the step, and commands wait exactly in a group of several with an executor |
| Changes.TicksOfHistory | src/chunk/mod.rs:399-461 | whatever moves a row makes, the ticks of a component are those of its last write and of its arrival; bit flips and writes past change detection move neither |
| Changes.CellOfHistory | src/chunk/mod.rs:399-461 | wherever a row moved, a component has the value it was last given, and its enable bit is what `set_enabled` last made it since it arrived, or else the default it arrived with |
| Changes.HeldOfHistory | src/world/mod.rs:303-596 | an entity has a component if and only if some event gave it and none took it since |
| Changes.SyncedEvents | src/world/worker_spec.rs:55-65 | a sync point is its commands one after another, stamped with the tick of the step before it |
| Changes.EntitiesOfRun | src/world/mod.rs:303-596 | along every program the map of entities is what its history of commands and query writes leaves, each at the time it took effect |
| Changes.CellsOfProgram | src/world/mod.rs:303-596 | on every program: which components an entity has, their values and their enable bits, told by what the program did |
| Changes.RowReportedExactlyOnce | src/query/filter.rs:84-98 | at a run `Changed` accepts a row exactly when the system ran in no step since the component was last written, and `Added` exactly when it ran in none since the component arrived |
| Changes.ProgramReportsExactlyOnce | src/query/filter.rs:84-98 | the same for the cells every program on a new world leaves and every schedule over it |
| Changes.GroupMatesKeepApart | src/query/access_scope.rs:60-137 | in an accepted group no system writes what another one names, in an archetype both select |
| Changes.SelectedRowsAreReported | src/schedule/scheduler.rs:195-201 | a write by a member of an accepted group to a row the system's own query selects is reported at a later run exactly when the system is not the writer and did not run in between |
| Changes.MovedRowIsLost | src/schedule/scheduler.rs:195-201 | the lost report: an accepted group whose writer changes a row its reader excludes; once the row has moved the reader selects it, and `Changed` never accepts it |
| Changes.QueuedChangeIsLost | src/schedule/scheduler.rs:130-133 | a component a sync point adds carries the tick of the step before, so no system of that step ever finds it changed or added |
| Schedules.Scheduler.RunSystemAt | src/schedule/scheduler.rs:181-192 | the queries of a prepared system answer; it gets the window from its previous run, sees the parallel flag as it is, and remembers this run; nothing else of the world changes |
| Schedules.Scheduler.RunInOrder | src/schedule/scheduler.rs:202-214 | without an executor, or alone, each system is prepared and run in turn |
| Schedules.Scheduler.RunPrepared | src/schedule/scheduler.rs:221-237 | the jobs of a prepared group run in whatever order, each once, with the parallel flag up during each and down afterwards |
| Schedules.Scheduler.RunJobs | src/schedule/scheduler.rs:195-238 | every system of a group is prepared, and runs once with the group's tick, its commands waiting exactly if it runs beside others; only an unpreparable query ends the run |
| Schedules.Scheduler.RunStep | src/schedule/scheduler.rs:155-175 | one tick per step, preparation, and for every system a window that starts at its own previous run and commands that wait exactly in a fanned-out group; entities, values and queues stay |
| Schedules.Scheduler.RunSteps | src/schedule/scheduler.rs:112-130 | the steps run in order, each at its own tick, with the right window for every system |
| Schedules.Scheduler.Run | src/schedule/scheduler.rs:112-135 | the steps of a session, then the automatic sync point, which carries out everything recorded; a session nobody added to does neither |
| Schedules.Scheduler.AddSystem | src/schedule/scheduler.rs:77-88 | one more step, refused exactly when a new system type has parameters that alias each other |
| Schedules.Scheduler.AddSystemParallel | src/schedule/scheduler.rs:90-109 | a group joins the schedule exactly when no new type has aliasing parameters and every two systems are compatible in what their types declare |
| Schedules.RegisteredDeclares | src/schedule/system_spec.rs:28-38 | a system type declares what it declared when it was first registered, before the group or inside it |
| BitSets.ComponentBitSet.IsEmpty | src/collection/component_bit_set.rs:26-29 | true exactly for the empty set |
| BitSets.ComponentBitSet.Insert | src/collection/component_bit_set.rs:32-40 | adds exactly the id, whatever word it falls into |
| BitSets.ComponentBitSet.Remove | src/collection/component_bit_set.rs:43-50 | removes exactly the id |
| BitSets.ComponentBitSet.Contains | src/collection/component_bit_set.rs:53-57 | membership |
| BitSets.ComponentBitSet.IsDisjoint | src/collection/component_bit_set.rs:62-65 | disjointness, although the walk stops at the shorter buffer |
| BitSets.ComponentBitSet.ContainsAll | src/collection/component_bit_set.rs:75-86 | inclusion, although words past the end count as zero |
| BitSets.ComponentBitSet.UnionWith | src/collection/component_bit_set.rs:105-115 | union, whichever buffer is longer |
| BitSets.ComponentBitSetIter.Next | src/collection/component_bit_set.rs:129-143 | yields the least id still to come and drops it: every id once, ascending |
| BitSets.LowestBit | src/collection/component_bit_set.rs:129-143 | `current & (current - 1)` clears exactly the bit `trailing_zeros` names |
| BitSets.WordTests | src/collection/component_bit_set.rs:62-86 | `a & b == 0` and `a & !b == 0` on words are disjointness and inclusion of their bits |
| Scopes.ConflictIsExact | src/query/access_scope.rs:60-90 | some component set is matched by both scopes with colliding accesses if and only if the test reports a conflict and neither scope excludes what it requires |
| Scopes.UnsatisfiableScopesMayConflict | src/query/access_scope.rs:60-90 | a scope that excludes what it requires matches nothing, yet the test may report a conflict |
| Scopes.UnionMatches | src/query/access_scope.rs:25-35 | folding elements of one query selects the archetypes all of them select |
| Scopes.CompatibleNeverCollide | src/query/access_scope.rs:122-137 | compatible systems never meet on an archetype with one writing what the other touches |
| Scopes.ConflictsSymmetric | src/query/access_scope.rs:60-90 | the test does not depend on who asks |
| Scopes.AccessScope.Extend | src/query/access_scope.rs:25-35 | refused exactly when the two collide; otherwise the union, with the other scope untouched |
| Scopes.AccessScope.BelongTo | src/query/access_scope.rs:47-52 | true exactly for the archetypes the scope selects |
| Scopes.AccessScope.ConflictsWith | src/query/access_scope.rs:60-90 | the conflict test on the sets the words stand for |
| Scopes.AccessScopes.Push | src/query/access_scope.rs:112-120 | registered exactly when it conflicts with no parameter before it |
| Scopes.AccessScopes.CanParallelWith | src/query/access_scope.rs:124-137 | true exactly when no two parameters conflict |
| Scopes.SystemSpecs.Register | src/schedule/system_spec.rs:27-38 | records a system once, refused exactly when two of its parameters conflict |
| Scopes.SystemSpecs.CheckGroupCanParallel | src/schedule/system_spec.rs:44-69 | accepts exactly the groups of registered, pairwise compatible systems; an error names an offending system or pair |
| Interleavings.AnyTwoSchedulesAgree | src/schedule/scheduler.rs:195-238 | independent jobs end in the same memory, having read the same, under any two schedules that finish them |
| Interleavings.EveryJobAsAlone | src/schedule/scheduler.rs:195-238 | at every point of an interleaving each job is where it would be had it run alone |
| Interleavings.HaltsAlone | src/schedule/scheduler.rs:195-238 | a job that an interleaving finishes also finishes alone, in the steps it took there |
| Interleavings.EqualsInTurn | src/schedule/scheduler.rs:195-238 | any interleaving that finishes independent jobs ends as running them in turn, in any order |
| Interleavings.EqualsAnySerialOrder | src/schedule/scheduler.rs:195-238 | the end is that of running the jobs one after another in any order, for any step counts at which each has finished |
| Groups.SharedByte | src/chunk/layout.rs:189-256 | two uses of one byte are the same slot, or enable bits of rows in the same group of eight |
| Groups.CompatibleAreApart | src/query/access_scope.rs:60-137 | no byte one of two compatible systems may write is a byte the other may touch |
| Groups.ConflictIffContended | src/query/access_scope.rs:60-90 | for satisfiable scopes: the test reports a conflict if and only if on some archetype both select one may write a byte the other may touch |
| Groups.CollideIffContended | src/query/access_scope.rs:70-75 | exclusions aside, two elements of a query collide if and only if one may write a byte the other may touch |
| Groups.CompatibleIffApart | src/query/access_scope.rs:124-137 | systems of satisfiable scopes are compatible if and only if on no archetype one may write a byte the other may touch |
| Groups.CoherentIffApart | src/query/access_scope.rs:112-120 | parameters of one system may be alive together if and only if no two of them meet on such a byte |
| Groups.ReadersNeverConflict | src/query/access_scope.rs:70-75 | systems that only read are always compatible |
| Groups.UnionReaches | src/query/access_scope.rs:25-35 | folding elements of one query lets it touch and write what the elements do, and no more |
| Groups.GroupIsSerialisable | src/schedule/scheduler.rs:195-238 | byte-level jobs that stay inside the footprints of pairwise compatible scopes end, under any interleaving that finishes them, as run in turn in any order |
| ParallelSystems.ProgramStaysWithin | src/query/detail.rs:98-137 | row reads, value writes, tick stamps and enable-bit writes through the columns a query names stay inside the footprint of its scope, byte for byte |
| ParallelSystems.WritersKeepToQueries | src/query/detail.rs:98-137 | writing a value, a changed tick or an enable bit of a column the query writes keeps a system to its queries |
| ParallelSystems.SlotWriterIsTyped | src/chunk/mod.rs:45-53 | bytes written one by one through a query are the typed write of that value or tick |
| ParallelSystems.BitWriterIsFlip | src/chunk/mod.rs:29-43 | setting an enable bit through a query is the read and the later write of its byte |
| ParallelSystems.DeclaredReaches | src/query/variant.rs:46-107 | a query may write a column exactly when its type names the component for writing, and touch it when it names it at all |
| ParallelSystems.ArchOfIsOk | src/chunk/layout.rs:168-187 | an archetype of a world carries exactly the component ids its queries are matched against |
| ParallelSystems.AcceptedGroupIsSerialisable | src/schedule/scheduler.rs:195-238 | for every group the scheduler accepts, on the archetypes of any world, any interleaving that finishes its systems' reads, value writes, tick stamps and bit writes ends as running them in turn, in any order |
| ParallelSystems.AcceptedIffApart | src/schedule/scheduler.rs:90-109 | a group of satisfiable scopes is accepted if and only if no two parameters of a new system, and no two systems, can meet on a byte that one writes and the other touches |
| Groups.BatchesAreSerialisable | src/query/query_iter.rs:394-401 | any interleaving that finishes the work on distinct batches of one query ends as working batch by batch |
| Groups.FlipsAlone | src/query/detail.rs:131-137 | the read-then-write walk alone leaves the bits set one after another |
| Groups.SetEnabledStaysInBatch | src/query/detail.rs:131-137 | setting the bit of one of its rows keeps a walk inside its batch |
| Groups.SetEnabledWritesTheBit | src/chunk/mod.rs:29-43 | the read and the later write of `set_enabled` are the write of that row's bit in its chunk, and touch no other chunk |
| Groups.BitAfterSetting | src/query/detail.rs:131-137 | after `set_enabled` the bit of that row and column reads the value, and every other bit of the storage what it read before |
| Groups.WalkSetsBits | src/query/detail.rs:131-137 | a walk leaves every row with the last value it set there |
| Groups.NoLostEnableBits | src/query/detail.rs:131-137 | with bit writes as separate byte reads and writes, any interleaving of walks over distinct batches leaves the memory of one sequential walk |
| Groups.EveryRowKeepsItsBit | src/query/detail.rs:131-137 | under any interleaving of walks over the batches the bit of a row ends as the walk over its own batch last set it, or as it was |
| Groups.EveryRowHasItsBatch | src/query/query_iter.rs:394-401 | every row of the matched archetypes lies in some batch |
| Batches.CutCovers | src/query/query_iter.rs:437-493 | a cut takes the rows in order, at most the room, and leaves fewer than 8 rows of room unless nothing is left |
| Batches.BatchesCover | src/query/query_iter.rs:394-494 | the batches cover exactly the rows in order, each once, with 1 to `batch_amount` rows, and more than `batch_amount - 8` in all but the last |
| Batches.WalkVisitsEveryRow | src/query/query_iter.rs:37-68 | the walk passes every row of every chunk, and no other, each once, by archetype, chunk and row |
| Batches.WalkCounts | src/query/query_iter.rs:37-68 | the walk is as long as all chunks together |
| Batches.BatchesHoldEveryRow | src/query/query_iter.rs:394-493 | the batches hold every row there is exactly once, in walking order |
| Batches.PiecesOnGrid | src/query/query_iter.rs:454-466 | every piece starts on a multiple of 8 |
| Batches.WalkAscends | src/query/query_iter.rs:37-68 | a walk passes the rows of a chunk in ascending order and never returns to it |
| Batches.BatchesShareNoByte | src/query/query_iter.rs:394-401 | rows of different batches share neither a row nor an enable byte |
| Batches.ChunkCursor.NextChunk | src/query/query_iter.rs:37-68 | the next non-empty chunk in walking order |
| Batches.QueryIter.Next | src/query/query_iter.rs:180-205 | the first row still to come that passes the filters; what lies before it is skipped for good |
| Batches.Visit | src/query/query_iter.rs:180-205 | taking rows until there is none gives exactly the rows that pass the filters, in walking order, each once; without filters all there are |
| Batches.QueryBatches.Next | src/query/query_iter.rs:437-493 | the cut of what is left, with the leftover carried over |
| Batches.Drain | src/query/query_iter.rs:437-493 | successive calls give all batches |
| Batches.ParWalker.NextNonEmpty | src/query/query_iter.rs:544-561 | the first row of the next non-empty chunk |
| Batches.ParWalker.ChunkStarts | src/query/query_iter.rs:564-567 | the start of every non-empty chunk, in order |
| Batches.ParWalker.CutBatch | src/query/query_iter.rs:619-650 | the same cut, and where the next batch starts |
| Batches.ParWalker.BatchStarts | src/query/query_iter.rs:571-578 | one start per batch, and walking from it gives that batch |
| Batches.BatchBothWays | src/query/query_iter.rs:541-650 | both ways of batching give the same list of batches, for all chunk lengths and batch amounts, and its batches hold every row there is exactly once, in walking order |
| Commands.Cmd.TryCreate | src/cmd_buffer/cmd.rs:63-100 | outside a group a spawn with its exact answer; inside one a handle never returned before, recorded behind the thread's commands, exactly when the worker holds one back or enough can be set aside; the world untouched |
| Commands.Cmd.TryAdd | src/cmd_buffer/cmd.rs:111-128 | at once with the exact answer, or recorded with everything else untouched |
| Commands.Cmd.TryRemove | src/cmd_buffer/cmd.rs:139-157 | at once with the exact answer and the values handed back, or recorded with everything else untouched |
| Commands.Cmd.TryMerge | src/cmd_buffer/cmd.rs:168-185 | at once with the exact answer, or recorded with everything else untouched |
| Commands.Cmd.TryDestroy | src/cmd_buffer/cmd.rs:196-214 | at once with the exact answer, or recorded with everything else untouched |
| Commands.Cmd.HoldHandles | src/cmd_buffer/cmd.rs:77-89 | succeeds exactly when the worker holds a handle back or a whole batch is left; otherwise it keeps what was left |
| Commands.Cmd.PendingDoNotExist | src/cmd_buffer/cmd.rs:77-99 | a handle that waits for its command does not exist |
| Commands.Cmd.RunCommand | src/cmd_buffer/cmd.rs:91-97 | a clean command succeeds; one that succeeds was not refused, acts on the map as defined, conserves values and begins no life but its own |
| Commands.WhyRefused | src/world/mod.rs:303-596 | the error of every command exactly in its case, with a lock counting at either end of a move |
| Commands.KnownNeverEnds | src/world/mod.rs:936-987 | between archetypes that exist no command can end the run |
| Commands.Cmd.WriteThrough | src/query/mut_ref.rs:58-95 | a write through a query is never deferred, and disturbs no command and no handle that waits |
| Commands.Cmd.FlushCmd | src/world/worker_spec.rs:55-65 | the map becomes the fold of all recorded commands, worker by worker in registration order and first in first out; a run of clean commands never panics; nothing stays recorded |
| Commands.Cmd.WarmUp | src/cmd_buffer/cmd.rs:245-253 | the thread has a worker, registered behind the others if it is new |
| Commands.RecordedFront | src/world/worker_spec.rs:55-65 | the front command of the first worker with any is the next one to run |
| Commands.FlushGoesOn | src/world/worker_spec.rs:55-65 | one more command carried out extends the fold, the balance of values and the lives begun |
| Commands.NothingDone | src/world/worker_spec.rs:55-65 | a flush with nothing recorded is clean and changes nothing |
| QueryCaches.CountsUntilMaximum | src/apis/safe_counter.rs:22-25 | the counter counts its calls until the maximum, where it stays |
| QueryCaches.MatchIndicesAreExact | src/utils.rs:29-38 | the list holds exactly the indices of the archetypes the scope selects, ascending |
| QueryCaches.BuildArchetypeWhichContains | src/utils.rs:29-38 | builds that list |
| QueryCaches.VersionsAgreeIff | src/apis/safe_counter.rs:22-25 | two archetype counts show one version exactly when they are equal or both at the counter's end |
| QueryCaches.StaleIff | src/world/mod.rs:771-834 | a list is still exact if and only if no archetype added since it was built is selected |
| QueryCaches.QueriesSurvive | src/world/mod.rs:1067-1074 | a new archetype leaves every list exact for the moment it was built |
| Registries.DeclaredMatches | src/query/access_scope.rs:47-52 | a scope selects exactly the archetypes with everything declared as read or written and nothing excluded |
| Worlds.World.PrepareQuery | src/world/mod.rs:771-810 | afterwards the list is current, and exact for the archetypes there are while the counter can tell; no other query changes |
| Worlds.World.PrepareQueries | src/schedule/scheduler.rs:167-175 | afterwards every query of every system is current |
| Worlds.World.AccessQueries | src/system/params/query.rs:14-27 | the queries of a prepared system answer without changing anything |
| Worlds.World.AccessQuery | src/world/mod.rs:818-834 | answers only when the version is current; while the counter can tell the answer is exact, and a registered query is refused exactly when archetypes were added since; at its end an answer is exact if and only if none added since is selected |
| QueryCaches.SaturatedCounterServesStaleList | src/world/mod.rs:818-834 | once the counter stands still a stale list passes for current |

## Left out

- Layouts.AlignUp: `align_up` is modelled by division and multiplication instead of the mask `!(align - 1)`; on powers of two they agree. Header and column offsets are unbounded integers; the checks against `usize` in `try_layout` are modelled, and `OffsetsStayInUsize` shows where the unchecked arithmetic needs none. What the wrapped cursor of `HugeChunkOverflows` does next is not modelled; such a chunk cannot be allocated in any case.
- Component descriptors with equal type ids but different sizes do not exist in the model; drop functions and names of components are not modelled.
- Worlds.World.TryCreate: the handle taken before a failed spawn is neither live nor free afterwards, as in the code: it costs a place, and no equation between live, free and retired slots is stated.
- Worlds.World.TryDestroy: nothing is stated for a world after a panic, neither here nor in any other operation; a panic ends the run.
- Worlds.World.UnionArchetype: the order of columns is any order of the union, which includes the two-map order of the code.
- Commands.Cmd.FlushCmd: a recorded command that fails ends the run; the slot that the recorded create and destroy erase before they panic is not modelled. Values inside commands that are never flushed are counted as waiting; how the closure type drops them is not part of this model.
- Worker specs and the parallel flag are fields of the command buffer class instead of the world. Archetype names are not modelled.
- Schedules.Scheduler.Run: the documentation promises a sync point after every step, the code makes one per session, and so does the model. What systems do is not part of `Run`, but of `ParallelSystems` and `Commands`.
- Changes.RowReportedExactlyOnce: a query built before a tick passes and used after it does not occur; a write is stamped with the tick of the moment it is made.
- ParallelSystems.AcceptedGroupIsSerialisable: commands that systems record, and their reads of registries, are outside the programs. The executor is assumed to run each job exactly once.
- Runs.Run: direct calls on the world from inside a parallel group are not operations of a program. Which rows a system writes is the program's choice, one row at a time; that members of a group may do so in any order is `AcceptedGroupIsSerialisable`. Query windows have runs of their own (`RunEvents`).
- Batches.QueryIter.Next: filters are an arbitrary predicate on rows; fetching references is not modelled.
- Queries that are built from tuples and singletons appear only as their scopes; `Singleton` parameters are not modelled.
- Thread pool, spin lock, heap pointers, lifetimes, allocator calls, panics while unwinding, error texts, the `testing` introspection and the macros for tuples.

# Chunk storage and chunk streaming of a voxel engine

This project models, in Dafny, the two components that store and stream the
voxel world of a Rust Minecraft-like engine.

**The world storage** is `ChunkManager`, in `src/chunk_manager.rs`. It does the following:
- converts global block coordinates to chunk and in-chunk coordinates and back;
- keeps the map from horizontal chunk coordinates to columns of sixteen chunks;
- reads and writes blocks through that map;
- records edits to chunks already on the GPU in a change-list, which is a set;
- computes, for each block, six active-face bits and an ambient-occlusion value.

**The streaming scheduler** is the chunk-loading system, in `src/ecs/systems/chunk_loading.rs`. It does the following:
- orders upload requests by priority alone;
- places trees at strict local maxima of a grid of noise samples;
- runs three ring-by-ring breadth-first searches for work: unloaded columns, unfoliated columns and ungenerated chunks;
- runs the per-frame steps of its `run` system: eviction into a pool of reusable columns, servicing column requests from that pool, draining the upload queue within a per-frame budget, meshing newly found chunks, and turning the change-list into per-chunk groups of blocks to recompute.

Chunks and columns are values (`Chunks.Chunk`, `Chunks.Column`). The column map is a `map<(int, int), Column>`. The two stateful objects are classes:
- `ChunkManagement.ChunkManager` holds the map and the change-list.
- `ChunkLoading.ChunkLoader` holds the column pool, the upload queue, the upload requests sent by tasks but not yet received, and the expansion flag.

Worker threads, channels and locks become sequential state changes.

In three places the code differs from a simple description, and the model follows the code:
- The searches return only the *qualifying* cells of the first ring that has any, not that whole ring.
- The unloaded-column search looks at rings 0, 1 and 2 together before its first test. The two other searches look at the centre alone first, then at rings 0 and 1 together.
- The unfoliated-column search counts a column with no entry in the map as foliated.

The search contracts name the ring of each result exactly: by Manhattan distance from the centre, clipped to the square or cube the search is bounded by.

Module layout:
- `wrappers.dfy`: `Option` and `Outcome` (`Panic` stands for a failed `unwrap`).
- `chunks.dfy`: what the storage observes of a chunk and a column. This covers the block grid, the active-face bits, the occlusion values, the `is_generated` and `is_uploaded_to_gpu` flags, the heightmap and the foliage flag.
- `chunk_manager.dfy`: `ChunkManagement`.
- `priorities.dfy`: `PrioritizedItem` ordering.
- `flood_fill_columns.dfy`, `flood_fill_chunks.dfy`: the three searches.
- `tree_placement.dfy`: `compute_tree_placement_in_chunk`.
- `chunk_loading.dfy`: the `run` steps.

## Model

| member | source | states |
|---|---|---|
| Chunks.BlockIndex | src/chunk_manager.rs:261-262 | the flat index `256*y + 16*z + x` of an in-chunk block lies in `[0, 4096)` |
| Chunks.BlockIndexInjective | src/chunk_manager.rs:261-262 | distinct in-chunk positions get distinct array slots |
| Chunks.LocalOf | src/chunk_manager.rs:261-262 | every slot is the index of an in-chunk position (inverse of the index) |
| ChunkManagement.ChunkAxis | src/chunk_manager.rs:82-84 | the source's chunk formula for negative and non-negative `v` yields the `c` with `16c <= v < 16c + 16` |
| ChunkManagement.GetChunkCoords | src/chunk_manager.rs:81-91 | each axis splits as `16 * chunk + local` with local in `[0, 16)` |
| ChunkManagement.ChunkCoordsAreFloorDivision | src/chunk_manager.rs:81-91 | the chunk coordinate is `floor(v / 16)` and the local one the Euclidean remainder, negatives included |
| ChunkManagement.GlobalRoundTrip | src/chunk_manager.rs:81-102 | `get_global_coords(get_chunk_coords(x, y, z)) == (x, y, z)` for every integer position |
| ChunkManagement.LocalRoundTrip | src/chunk_manager.rs:81-102 | chunk/local to global and back is the identity when the local part is in range |
| ChunkManagement.MinusOneIsLastOfPreviousChunk | src/chunk_manager.rs:82-88 | block -1 is in chunk -1 at local 15 on every axis |
| ChunkManagement.GetColumn | src/chunk_manager.rs:30-35 | some iff the key is in the map, and then the stored column |
| ChunkManagement.GetChunk | src/chunk_manager.rs:38-47 | none iff `y < 0`, `y >= 16` or no column at (x, z); otherwise chunk `y` of that column |
| ChunkManagement.GetBlockLooksUpFloorChunk | src/chunk_manager.rs:104-110 | `get_block` is some iff the floor-division chunk is in height and loaded, and then reads the Euclidean-remainder slot of that chunk |
| ChunkManagement.IsSolidBlockAt | src/chunk_manager.rs:144-148 | true iff a loaded block is there and it is not air |
| ChunkManagement.RightFaceAcrossChunkBorder | src/chunk_manager.rs:335-339 | the right face of a block on a chunk's last x layer is active iff the next chunk is not loaded or holds a transparent block at the matching first-layer position |
| ChunkManagement.WithChunkFrame | src/chunk_manager.rs:117-119 | replacing one chunk leaves every other chunk coordinate's lookup unchanged |
| ChunkManagement.WithBlockFrame | src/chunk_manager.rs:113-129 | storing a block changes the block read at that position to it and no other block |
| ChunkManagement.ChunkManager.constructor | src/chunk_manager.rs:22-27 | an empty map and an empty change-list |
| ChunkManagement.ChunkManager.AddChunkColumn | src/chunk_manager.rs:50-57 | insert-if-absent: an existing entry is kept, no other key changes, the change-list is untouched |
| ChunkManagement.ChunkManager.RemoveChunkColumn | src/chunk_manager.rs:60-62 | returns the stored column or none; the key is gone and every other entry is kept |
| ChunkManagement.ChunkManager.SetBlockInternal | src/chunk_manager.rs:113-129 | false and no change iff the chunk is not loaded; otherwise the block is stored, and `(priority, block, x, y, z)` is added to the change-list set iff the chunk is uploaded |
| ChunkManagement.ChunkManager.PutBlock | src/chunk_manager.rs:133-138 | `SetBlockInternal` with priority 1 |
| ChunkManagement.ChunkManager.SetBlock | src/chunk_manager.rs:140-142 | `SetBlockInternal` with priority 0 |
| ChunkManagement.WriteFaces | src/chunk_manager.rs:264-269 | bits `6*idx .. 6*idx+5` become the six faces in order; every other bit is kept |
| ChunkManagement.RefreshBlock | src/chunk_manager.rs:244-285 | for an air block nothing changes; otherwise only that block's slot (faces and occlusion) is replaced; blocks and flags are kept |
| ChunkManagement.RefreshBlocksSlots | src/chunk_manager.rs:244-286 | after the loop, every listed non-air block's slot holds its freshly computed value and every other slot is unchanged |
| ChunkManagement.RefreshBlocksIdempotent | src/chunk_manager.rs:244-286 | recomputing the same blocks a second time changes nothing |
| ChunkManagement.NeighbourhoodSlot | src/chunk_manager.rs:167-177 | slot `3*(dx+1) + (dz+1)` of the snapshot holds the column at offset (dx, dz) |
| ChunkManagement.ChunkManager.CollectNeighbourhood | src/chunk_manager.rs:167-177 | the loop fills the nine slots with the neighbouring columns, centre left empty |
| ChunkManagement.BlockAtAgrees | src/chunk_manager.rs:180-213 | `block_at` over the snapshot reads the same block as `get_block` over the map, with air where nothing is loaded or outside the world's height |
| ChunkManagement.ComputeActiveFacesAgrees | src/chunk_manager.rs:216-239 | the faces computed through the snapshot equal `get_active_faces_of_block` through the map |
| ChunkManagement.AoOpacityAgrees | src/chunk_manager.rs:272-283 | the 27 occlusion inputs gathered through the snapshot equal those `update_block` reads through the map |
| ChunkManagement.SnapshotSlotAgrees | src/chunk_manager.rs:244-285 | the slot `update_blocks` writes for a block equals the slot `update_block` writes for it |
| ChunkManagement.ChunkManager.UpdateBlocks | src/chunk_manager.rs:150-287 | no change when the column is absent or the chunk is empty; otherwise exactly the listed non-air blocks of that chunk get their faces and occlusion recomputed from the map; the change-list is untouched |
| ChunkManagement.ChunkManager.RefreshThroughSnapshot | src/chunk_manager.rs:241-286 | the loop over the listed blocks computes the chunk `RefreshBlocks` specifies |
| ChunkManagement.ChunkManager.UpdateBlock | src/chunk_manager.rs:289-332 | panics with no change iff the chunk is not loaded; otherwise recomputes that one block's slot, skipping air |
| ChunkManagement.ChunkManager.RecomputeBlock | src/chunk_manager.rs:304-331 | the non-air branch writes the block's faces and occlusion read from the map into its slot |
| Priorities.Cmp | src/ecs/systems/chunk_loading.rs:40-44 | `Equal` exactly when `eq` holds, so `cmp` and `eq` agree |
| Priorities.PartialCmp | src/ecs/systems/chunk_loading.rs:34-38 | always defined |
| Priorities.CmpAntisymmetric | src/ecs/systems/chunk_loading.rs:40-44 | swapping the operands reverses the ordering |
| Priorities.CmpTransitive | src/ecs/systems/chunk_loading.rs:40-44 | "not greater" is transitive: a total preorder |
| Priorities.PayloadIgnored | src/ecs/systems/chunk_loading.rs:28-44 | equality and ordering do not depend on the payload |
| Priorities.MaxIndex | src/ecs/systems/chunk_loading.rs:489-490 | the heap pop's choice: an index of greatest priority |
| TreePlacement.Index | src/ecs/systems/chunk_loading.rs:77-80 | `18*i + j` lies in the 324-cell grid |
| TreePlacement.IndexCovers | src/ecs/systems/chunk_loading.rs:77-80 | every grid slot is the index of exactly one cell |
| TreePlacement.WrittenGrid | src/ecs/systems/chunk_loading.rs:82-90 | the grid the fill loops leave: cell (r, c) is the sample at (r-1, c-1), except column 17, which keeps its initial zero |
| TreePlacement.FillSamples | src/ecs/systems/chunk_loading.rs:82-90 | the fill loops, as written, produce `WrittenGrid` |
| TreePlacement.FillSamplesFull | src/ecs/systems/chunk_loading.rs:82-90 | with the column range `-1..=16` the fill loops produce the fully sampled grid |
| TreePlacement.IsMax | src/ecs/systems/chunk_loading.rs:95-110 | true iff the centre is strictly greater than all eight neighbours (a tie disqualifies) |
| TreePlacement.RowTreesFacts | src/ecs/systems/chunk_loading.rs:93-115 | one grid row's maxima are exactly the trees of that block row, by increasing x |
| TreePlacement.TreesUpToFacts | src/ecs/systems/chunk_loading.rs:92-116 | the maxima of the first rows are exactly their trees, in row-major scan order |
| TreePlacement.ScanRow | src/ecs/systems/chunk_loading.rs:93-115 | the inner loop lists the trees of one block row |
| TreePlacement.FindMaxima | src/ecs/systems/chunk_loading.rs:92-118 | exactly the cells with `i, j` in `1..17` that are strict local maxima, as (x, z), each once, in scan order |
| TreePlacement.ComputeTreePlacement | src/ecs/systems/chunk_loading.rs:74-119 | as written: exactly the strict local maxima of the grid with column 17 at zero, inside the column, in scan order |
| TreePlacement.ComputeTreePlacementIntended | src/ecs/systems/chunk_loading.rs:74-119 | corrected: exactly the strict local maxima of the fully sampled grid, inside the column, in scan order |
| TreePlacement.PlacementAgreesAwayFromLastColumn | src/ecs/systems/chunk_loading.rs:84-118 | the unfilled column only affects blocks with x = 15 |
| TreePlacement.LastColumnMissesTree | src/ecs/systems/chunk_loading.rs:84-90 | a noise field whose single peak is at block (15, 0) gets a tree there from the full grid but not from the grid as written |
| ColumnFloodFill.MatrixIndexInjective | src/ecs/systems/chunk_loading.rs:168-174 | every column of the square has its own bit inside the visited vector, so the bit vector is a set |
| ColumnFloodFill.VisitNeighbours | src/ecs/systems/chunk_loading.rs:190-202 | each in-square neighbour of the cell ends up visited; newly visited cells are appended to the ring once each |
| ColumnFloodFill.ExpandRing | src/ecs/systems/chunk_loading.rs:189-203 | one round takes the visited cells from the first k rounds to the first k+1 and appends exactly round k+1, each cell once |
| ColumnFloodFill.RoundsExhausted | src/ecs/systems/chunk_loading.rs:187-233 | a round that reaches no cell means the whole square has been reached |
| ColumnFloodFill.UnloadedOf | src/ecs/systems/chunk_loading.rs:213-223 | the ring's cells that have no column in the map, without duplicates |
| ColumnFloodFill.FloodFillUnloadedColumns | src/ecs/systems/chunk_loading.rs:160-234 | distinct, in-square, unloaded results. Empty iff every column of the square is loaded. Otherwise exactly the unloaded columns of the nearest level (rounds 0-2 together, then one round at a time), with every nearer column loaded |
| ColumnFloodFill.UnfoliatedOf | src/ecs/systems/chunk_loading.rs:288-299 | the ring's cells whose column is loaded and not foliated; absent columns count as foliated |
| ColumnFloodFill.FloodFillUnfoliatedColumns | src/ecs/systems/chunk_loading.rs:236-310 | `[center]` when the centre column is loaded and unfoliated. Otherwise distinct, in-square, unfoliated results: empty iff none qualifies, else exactly the unfoliated columns of the nearest level, with no nearer column qualifying |
| ChunkFloodFill.CubeIndexInjective | src/ecs/systems/chunk_loading.rs:321-330 | every chunk of the cube has its own bit inside the visited vector |
| ChunkFloodFill.VisitNeighbours | src/ecs/systems/chunk_loading.rs:363-375 | each in-cube neighbour of the chunk (six directions) ends up visited, new ones appended once |
| ChunkFloodFill.ExpandRing | src/ecs/systems/chunk_loading.rs:362-376 | one round appends exactly the chunks of round k+1, each once |
| ChunkFloodFill.UngeneratedOf | src/ecs/systems/chunk_loading.rs:378-389 | the ring's in-height, loaded, ungenerated chunks |
| ChunkFloodFill.ScanRing | src/ecs/systems/chunk_loading.rs:378-389 | panics iff some in-height chunk of the ring has no column (the `unwrap`); otherwise the ungenerated chunks |
| ChunkFloodFill.FloodFillChunks | src/ecs/systems/chunk_loading.rs:312-400 | `[center]` when the centre chunk is loaded and not generated or not uploaded. Results are distinct and in the cube. Empty iff every chunk of the cube is settled. Otherwise exactly the ungenerated chunks of the nearest level, or a panic at the first level with a missing column |
| ChunkLoading.MarkUploadedEffect | src/ecs/systems/chunk_loading.rs:489-498 | draining loads and unloads no chunk; a loaded chunk is marked uploaded iff it was or some popped request names it, and nothing else about it changes |
| ChunkLoading.PopKeepsOrder | src/ecs/systems/chunk_loading.rs:489-490 | popping a greatest request keeps the popped sequence non-increasing and above everything left |
| ChunkLoading.Evicted | src/ecs/systems/chunk_loading.rs:424-450 | a column stays iff it is within `renderDistance + 2` on x and z |
| ChunkLoading.EvictedChunk | src/ecs/systems/chunk_loading.rs:424-450 | after eviction a chunk is loaded iff it was and its column is in range; it is unloaded from the GPU iff it is out of range on any axis; otherwise it is unchanged |
| ChunkLoading.NoFarChunkStaysUploaded | src/ecs/systems/chunk_loading.rs:427-437 | no out-of-range chunk of a kept column remains marked as uploaded |
| ChunkLoading.EvictedByPasses | src/ecs/systems/chunk_loading.rs:424-449 | the source's two passes (unload every column, then remove the listed ones) compute eviction |
| ChunkLoading.RemoveEach | src/ecs/systems/chunk_loading.rs:445-449 | a key stays iff it was present and is not listed; kept entries are unchanged; what is handed back came from the map |
| ChunkLoading.RemoveEachDistinct | src/ecs/systems/chunk_loading.rs:425-449 | distinct listed loaded columns are all handed back, in list order |
| ChunkLoading.UnloadColumn | src/ecs/systems/chunk_loading.rs:428-437 | the loop over a column's chunks unloads exactly the out-of-range ones |
| ChunkLoading.UnloadAll | src/ecs/systems/chunk_loading.rs:427-444 | every column gets its far chunks unloaded, and the out-of-range columns are listed, each once |
| ChunkLoading.Served | src/ecs/systems/chunk_loading.rs:455-480 | at most all requests are serviced, and at least the first; it stops early only right after the time cap is reached |
| ChunkLoading.ResetColumn | src/ecs/systems/chunk_loading.rs:459-469 | resetting every chunk, zeroing the heightmap and clearing foliage yields a column equal to a new one |
| ChunkLoading.AllBlocksCoverChunk | src/ecs/systems/chunk_loading.rs:781 | the full-chunk recompute visits every block of the chunk |
| ChunkLoading.MeshedChunk | src/ecs/systems/chunk_loading.rs:772-791 | meshing leaves the chunk generated with its blocks kept. It is uploaded iff it was or it is empty. A non-empty chunk's non-air blocks get the faces and occlusion read from the map. No other chunk changes |
| ChunkLoading.MeshedAllKeepsBlocks | src/ecs/systems/chunk_loading.rs:767-791 | meshing never changes whether a chunk is loaded or what blocks it holds |
| ChunkLoading.MeshRequestsExactly | src/ecs/systems/chunk_loading.rs:767-791 | a priority-0 upload is requested for exactly the listed chunks that are loaded and not empty |
| ChunkLoading.Touch | src/ecs/systems/chunk_loading.rs:805-809 | each neighbour entry carries the change's priority and an in-chunk position |
| ChunkLoading.GroupedCoversNeighbours | src/ecs/systems/chunk_loading.rs:804-814 | every block within one step of an edit, diagonals included, is listed in the chunk that owns it, with the edit's priority |
| ChunkLoading.GroupedEntriesAreNeighbours | src/ecs/systems/chunk_loading.rs:804-814 | every listed entry is a block within one step of some edit, carrying its priority |
| ChunkLoading.MaxPriority | src/ecs/systems/chunk_loading.rs:821 | the maximum priority of the list, 0 when it is empty |
| ChunkLoading.InteractiveEditsSkipGeneration | src/ecs/systems/chunk_loading.rs:821-826 | a group goes to the player-interaction pool iff some entry has priority 1 or more |
| ChunkLoading.Positions | src/ecs/systems/chunk_loading.rs:829 | the positions of the dirty list, entry by entry |
| ChunkLoading.AddNeighbourhood | src/ecs/systems/chunk_loading.rs:805-813 | adding one change's 27 entries keeps the grouping exact for the changes seen so far |
| ChunkLoading.GroupChanges | src/ecs/systems/chunk_loading.rs:804-814 | per chunk, exactly the entries the changes contribute; no chunk without one |
| ChunkLoading.GroupPositionsInChunk | src/ecs/systems/chunk_loading.rs:808-809 | every grouped position lies inside a chunk, so a group's task may recompute it |
| ChunkLoading.ChunkLoader.constructor | src/ecs/systems/chunk_loading.rs:127-149 | the pool holds `(2 * (renderDistance + 2) + 1)^2` new columns, the queues are empty and expansion is allowed |
| ChunkLoading.ChunkLoader.PopUpload | src/ecs/systems/chunk_loading.rs:490 | none iff the queue is empty; otherwise removes one request of greatest priority |
| ChunkLoading.ChunkLoader.UploadNext | src/ecs/systems/chunk_loading.rs:489-498 | one iteration keeps the pops in order and marks the popped chunk uploaded |
| ChunkLoading.ChunkLoader.UploadChunks | src/ecs/systems/chunk_loading.rs:484-499 | received requests join the queue. Then `min(budget, queued)` requests are popped, non-increasing, and none left outranks them. The queue loses exactly those. The map marks exactly the popped, loaded chunks as uploaded |
| ChunkLoading.ChunkLoader.EvictDistant | src/ecs/systems/chunk_loading.rs:424-451 | no effect unless expansion is allowed. Otherwise the map becomes `Evicted`, and the removed columns (distinct, exactly the out-of-range ones) are appended to the pool with their far chunks unloaded |
| ChunkLoading.ChunkLoader.RemoveColumns | src/ecs/systems/chunk_loading.rs:445-449 | the remove loop: the map and the pool become those `RemoveEach` gives |
| ChunkLoading.ChunkLoader.ServiceColumnRequests | src/ecs/systems/chunk_loading.rs:453-481 | `Served` columns are handed out, each equal to a new column, taken from the end of the pool while it lasts |
| ChunkLoading.ChunkLoader.MeshChunk | src/ecs/systems/chunk_loading.rs:771-791 | the map becomes `Meshed` and the upload request sent is `MeshRequest` |
| ChunkLoading.ChunkLoader.MeshChunks | src/ecs/systems/chunk_loading.rs:767-794 | the tasks' combined effect on the map, and their upload requests in task order |
| ChunkLoading.ChunkLoader.DrainChangelist | src/ecs/systems/chunk_loading.rs:802-816 | the groups are exactly those of the old change-list, which is then empty; the map is unchanged |
| ChunkLoading.ChunkLoader.RemeshGroup | src/ecs/systems/chunk_loading.rs:818-844 | the pool is the one for the group's highest priority. The listed blocks are recomputed. An upload at that priority is requested iff the chunk is uploaded |

## Left out

- Threads, rayon pools and scopes, crossbeam channels and `RwLock`s. Every step is a sequential state change. A channel is a sequence the sender appends to and the receiver empties. Data races and interleavings between the coordinator and workers are not modelled.
- `Arc` sharing. Columns are values, so the model does not capture that an evicted column in the pool is the same object a worker may still hold.
- The `Chunk`/`ChunkColumn` type (`crate::chunk`) is not part of this model. Only what the storage observes of it is kept. Transparency is air or leaves. Transparency for occlusion is air alone. `unload_from_gpu` is modelled as clearing the uploaded flag, and `reset` as giving a new chunk.
- GPU calls (`upload_to_gpu`, `unload_from_gpu`, `render_loaded_chunks`, src/chunk_manager.rs:364-403). They are OpenGL side effects, and "uploaded" is modelled as a flag.
- `compute_ao_of_block` (`crate::ambient_occlusion`) is not part of this model. It is an uninterpreted function from the 27 opacity bits to a value.
- Noise and floating point. Tree placement uses an abstract integer sample function, whose order is all the scan uses. Terrain generation (src/ecs/systems/chunk_loading.rs:512-653) and the tree and leaf writes (669-749) are not modelled. They are float thresholds on a foreign noise function followed by `set_block` calls, which are modelled on their own.
- The composition of `run` as one method. Each step is a separate method of `ChunkLoader`, and the requesting side of the column handoff is the `requests` count.
- `crate::constants` is not part of this model. `RENDER_DISTANCE` and `CHUNK_UPLOADS_PER_FRAME` are parameters.
- 32-bit integer wrap-around and `as usize` casts. Integers are unbounded; the source's coordinates stay far from `i32` limits.
- `PrioritizedItem`'s `Deref` (src/ecs/systems/chunk_loading.rs:46-52). It only exposes the payload.
- ChunkLoading.ChunkLoader.ServiceColumnRequests: the wall-clock cap is the input `capReached`, where entry `i` says whether the cap is reached after the `i`-th request.
- ChunkManagement.ChunkManager.UpdateBlocks: requires `0 <= cy < 16`, because `ChunkColumn::get_chunk` is only defined there and it is not part of this model.
- ColumnFloodFill.FloodFillUnloadedColumns: `assert!(distance >= 2)` is a precondition rather than a modelled panic. The contract states the set of results and their distinctness, not their order within the ring.
- ColumnFloodFill.FloodFillUnfoliatedColumns: `assert!(distance >= 0)` is a precondition. The order of results within the ring is not stated.
- ChunkFloodFill.FloodFillChunks: `assert!(distance >= 0)` is a precondition. The order of results within the ring is not stated.
- ChunkLoading.UnloadAll: it takes the map's keys in an arbitrary order, as `HashMap` iteration does, so the order of `toRemove` is not stated.
- ChunkLoading.GroupChanges: it states which entries each chunk's list holds, not how often. The source lists a position once per edit that reaches it.
- ChunkLoading.ChunkLoader.MeshChunks: the tasks run one after another, in list order, instead of in parallel.

## Findings

| source | as written | input that shows it | evidently intended | confidence | as-written member | corrected member |
|---|---|---|---|---|---|---|
| src/ecs/systems/chunk_loading.rs:84-90 | the column loop runs `-1..16`, so sample column 17 is never filled and stays 0.0 while the rows run `-1..=16` | noise -2 everywhere except -1 at row 0, column 15: block (15, 0) is the only peak but is compared with the 0 left in column 17 and gets no tree | the column loop `-1..=16`, sampling the whole 18 x 18 grid | not executed | TreePlacement.LastColumnMissesTree | TreePlacement.ComputeTreePlacementIntended |

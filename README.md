# Terrain generator core, modelled in Dafny

This project models the sequential logic of the browser terrain generator
mcavazotti/terrain-generator. The three.js rendering shell is left out.
The model has three groups.

- **Surface extraction** (`src/terrain-gen`).
  - `generateChunk` sizes a density grid from the chunk size and the resolution, fills it with NaN and then with the terrain fill, and hands it to marching cubes.
  - `MarchingCubes.generateSurface` classifies each cube by which of its eight corners lie below the threshold. For each edge id of the cube's triangle-table row, it computes a key for the edge and the interpolated crossing point. The key is the edge's doubled midpoint, except for edge 4, whose key as written is a corner's doubled coordinate (see Findings).
  - A key-to-index map deduplicates crossings that share a key while the position and index buffers grow. The extraction functions take the key scheme as a parameter: `AsWritten` is the program's, and `Corrected` has edge 4 fixed. The class methods use `AsWritten`.
  - The fill functions `simplePlane` and `trigSurface` write every cell in place.
- **Tile scheduling** (`src/tile-manager`, `src/core/worker.ts`).
  - The `TileManager` keeps the pending LOD of each tile key and the load of each worker. It sends a request only for a new key or a strictly higher LOD, to the least-loaded worker, and charges that worker 1, 3 or 9 for LOD 0, 1 or 2.
  - Each tile worker keeps a keyed queue in insertion order. It builds the queued tile of least distance-plus-LOD cost first, and evicts queued tiles whose ideal LOD fell below their queued LOD.
  - The older worker drains its queue in insertion order.
  - Messages between them are appended to inboxes and outboxes.
- **The runner's tile grid** (`src/core/runner.ts`).
  - A 51 × 51 array of optional tiles, indexed [z, x], is kept centred on the camera.
  - Each frame, `manageTiles` fills an empty centre slot and shifts the array by one column or row when the camera leaves the centre tile, disposing the tiles pushed out. It then requests every slot that is empty or below its ideal LOD.
  - `workerOnMessage` installs a delivered tile in the slot its position names, if that slot is in range and the tile upgrades it.

Numbers are reals. `Doubles.Num` adds NaN, and JavaScript's comparisons with NaN are false. The triangle table, the terrain fill and `Math.sin` are parameters. A tile is `{lod, position}`. A message payload is the request it answers.

Observations the model states, about behaviour the authors may not have meant. None is claimed as a bug below.

- The worker's `run` posts status `idle: false` when it goes idle (`TileWorker.TileWorker.Run`).
- A remove reply releases the cost of the pending LOD. After an upgrade, that is more than the worker that sent the reply was charged, so its load can go negative (`TileManagement.RemoveAfterUpgradeOverReleases`).
- The runner's empty-slot LOD measures from index `numTiles`, not from the centre. Only the far corner gets LOD 1 (`TileGrid.EmptySlotLod`).
- The documented bound of 2^24 cells does not keep edge keys apart. A grid of 2 × 2 × 65538 points has 262152 cells, and edge 11 of its cube (0,0,0) and edge 8 of its cube (0,0,65536) both get key 131073 (`EdgeKeys.KeysCollideWithinCellBound`).
- The runner builds tiles 56 wide while the workers rank and evict with `CONFIG.tileDim`, which is 100 wide.
- The `getIdealLOD` of helpers.ts never returns 2, so every queued LOD-2 request is evicted on the next position update (`TileWorker.FullDetailAlwaysEvicted`).
- Nothing in the program calls `TileManager.updatePosition` (src/tile-manager/tile-manager.ts:74 is its only occurrence, and the runner never calls it). So each worker's reference position stays at the origin, where its constructor puts it. The worker ranks tiles by their distance from the origin, `cleanQueue` never runs, and the eviction above does not happen in the running program.
- A shift fills the centre slot from a neighbouring slot, which may be empty. If the camera then crosses a cell edge, `manageTiles` places the centre tile at the new reference, reads offset (0, 0) and does not shift, so the other tiles stay on the old reference (`TileGrid.EmptyCentreMisaligns`).
- In `workerOnMessage`, a delivery with a fractional row index reads `undefined[x]` and throws (`RowMissing`). One with a fractional column index sets a stray property on the row (`OffGrid`).

## Model

| member | source | states |
|---|---|---|
| EdgeKeys.KeyInjective | src/terrain-gen/marching-cubes.ts:122-128 | The key x·65536² + y·65536 + z is equal for two coordinates exactly when the coordinates are equal, if y and z lie in [0, 65536) |
| EdgeKeys.EdgeCoordIsDoubledMidpoint | src/terrain-gen/marching-cubes.ts:35-84 | The corrected key coordinate of each of the 12 edges of a cube is the sum of the edge's two end corners, i.e. its doubled midpoint |
| EdgeKeys.EdgeIsUnitStep | src/terrain-gen/marching-cubes.ts:17-24 | Each edge id joins two corners of the cube one unit apart along exactly one axis |
| EdgeKeys.SharedEdgesAsWritten | src/terrain-gen/marching-cubes.ts:36-55 | As written, edge 1 of a cube and edge 3 of its +x neighbour share a key, and so do edge 2 and edge 0 of the +y neighbour. Edge 4 and edge 0 of the +z neighbour are the same grid edge but get different keys, because edge 4's key is not its doubled midpoint |
| EdgeKeys.EdgeKeyIdentifiesEdge | src/terrain-gen/marching-cubes.ts:35-84 | With the corrected edge-4 key, two (cube, edge id) pairs in key range get the same key exactly when they name the same grid edge |
| EdgeKeys.EdgeKeyAsWrittenIdentifies | src/terrain-gen/marching-cubes.ts:35-84 | With the program's keys, two (cube, edge id) pairs in key range get the same key exactly when they name the same grid edge and both or neither is an edge 4 |
| EdgeKeys.KeysCollideWithinCellBound | src/terrain-gen/terrain-generator.ts:7-8 | Two cubes of a 2 × 2 × 65538-point grid, under the documented 2^24-cell limit, have two different edges with the same key, under either key scheme |
| MarchingCubes.ConfigurationBits | src/terrain-gen/marching-cubes.ts:109-120 | Bit i of the configuration is set exactly when corner value v_i is below the threshold. It is 0 exactly when no corner is below, and 255 exactly when all are |
| MarchingCubes.InterpolateIsFraction | src/terrain-gen/marching-cubes.ts:130-134 | The result is finite exactly when both ends are finite and different. Both branches then give (t − a)/(b − a) |
| MarchingCubes.InterpolateInUnit | src/terrain-gen/marching-cubes.ts:130-134 | For t between distinct ends, the fraction lies in [0, 1] |
| MarchingCubes.EdgeRun | src/terrain-gen/marching-cubes.ts:28-29 | The edge ids visited are the table row's entries before its first -1, in order |
| MarchingCubes.EdgePointOnEdge | src/terrain-gen/marching-cubes.ts:32-83 | Each case places the crossing on its edge, at the interpolated fraction between the edge's end corners, scaled by the resolution |
| MarchingCubes.CubeCrossingIs | src/terrain-gen/marching-cubes.ts:26-29 | Entry i of a cube's crossings is the crossing of the i-th edge id of the table row of the cube's configuration |
| MarchingCubes.CubeOnCubeEdges | src/terrain-gen/marching-cubes.ts:28-84 | Every crossing of a cube lies on an edge of that cube and carries that edge's key under the scheme |
| MarchingCubes.GridOnCubeEdges | src/terrain-gen/marching-cubes.ts:14-16 | Every crossing of the (dimY−1)·(dimZ−1)·(dimX−1) cubes lies on a grid edge and carries its key under the scheme |
| MarchingCubes.ExtractIndicesInRange | src/terrain-gen/marching-cubes.ts:86-93 | The index buffer has one entry per crossing, and every entry is below the number of vertices |
| MarchingCubes.ExtractSharesExactlyGridEdges | src/terrain-gen/marching-cubes.ts:86-93 | With the corrected edge-4 key, two index-buffer entries name the same vertex exactly when their crossings lie on the same grid edge |
| MarchingCubes.ExtractSharesAsWritten | src/terrain-gen/marching-cubes.ts:86-93 | With the program's keys, two index-buffer entries name the same vertex exactly when their crossings lie on the same grid edge and both or neither is an edge 4. So an edge-4 crossing is never merged with the neighbouring cubes' crossings of its grid edge |
| MarchingCubes.ExtractVertexIsFirstCrossing | src/terrain-gen/marching-cubes.ts:90-92 | Each vertex sits where the first crossing of its edge was interpolated |
| MarchingCubes.MarchingCubes.constructor | src/terrain-gen/marching-cubes.ts:7 | The key-to-index map starts empty |
| MarchingCubes.MarchingCubes.GenerateSurface | src/terrain-gen/marching-cubes.ts:10-107 | The mesh is the extraction of the grid's contents with the program's keys, whatever the map held before, and the map ends as the deduplication table of all crossings |
| MarchingCubes.MarchingCubes.MarchLayer | src/terrain-gen/marching-cubes.ts:15-97 | One pass of the z loop adds the crossings of layer y to the buffers and the map, in order |
| MarchingCubes.MarchingCubes.MarchRow | src/terrain-gen/marching-cubes.ts:16-96 | One pass of the x loop adds the crossings of row z to the buffers and the map, in order |
| MarchingCubes.MarchingCubes.MarchCube | src/terrain-gen/marching-cubes.ts:17-94 | The eight corner reads and the table loop add the crossings of one cube |
| MarchingCubes.MarchingCubes.MarchEdges | src/terrain-gen/marching-cubes.ts:28-94 | The table loop adds the crossings of the row's edge ids before -1, keyed as the program keys them, edge 4 included |
| MarchingCubes.MarchingCubes.AddVertex | src/terrain-gen/marching-cubes.ts:86-93 | A known key pushes its stored index. A new key maps to the vertex count, pushes it and appends one position |
| VertexWeld.Step | src/terrain-gen/marching-cubes.ts:86-93 | Each crossing adds exactly one index and at most one position |
| VertexWeld.WeldFrom | src/terrain-gen/marching-cubes.ts:86-93 | n crossings add n indices and at most n positions |
| VertexWeld.WeldFromAppend | src/terrain-gen/marching-cubes.ts:14-16 | Deduplicating a + b is deduplicating a and then b, so the nested loops compose |
| VertexWeld.WeldKeys | src/terrain-gen/marching-cubes.ts:86-93 | The map's keys are exactly the keys of the crossings seen |
| VertexWeld.WeldBijection | src/terrain-gen/marching-cubes.ts:86-93 | The map size equals the number of positions. The map is injective, and its values are exactly 0 .. positions − 1, in first-seen order |
| VertexWeld.WeldIndices | src/terrain-gen/marching-cubes.ts:86-93 | Each pushed index is the map's value for its crossing's key |
| VertexWeld.WeldSharing | src/terrain-gen/marching-cubes.ts:86-93 | Two crossings get the same index exactly when their keys are equal |
| VertexWeld.WeldPrefix | src/terrain-gen/marching-cubes.ts:86-93 | The buffers only grow: earlier positions and indices are never rewritten |
| VertexWeld.WeldFirstPosition | src/terrain-gen/marching-cubes.ts:90-92 | The vertex of a key is the position of that key's first crossing |
| TerrainGenerator.GridDimCovers | src/terrain-gen/terrain-generator.ts:12-14 | Each dimension is the least integer at or above (size + 1)·resolution |
| TerrainGenerator.DefaultGridDim | src/terrain-gen/terrain-generator.ts:10-14 | The default chunk size 25 at resolution 1 gives 26 points per axis |
| TerrainGenerator.TerrainGrid | src/terrain-gen/terrain-generator.ts:15-25 | The filled grid has dimY layers of dimZ rows of dimX cells, each holding the fill's value |
| TerrainGenerator.AllocateGrid | src/terrain-gen/terrain-generator.ts:15-20 | The new grid has dimY × dimZ × dimX cells, all NaN |
| TerrainGenerator.FillTerrain | src/terrain-gen/terrain-generator.ts:25 | The fill writes its value into every cell |
| TerrainGenerator.GenerateChunk | src/terrain-gen/terrain-generator.ts:10-29 | It fails exactly when `Array(dimX)` is reached with a negative dimX. Otherwise it returns the extraction with the program's keys, at threshold 0, of the grid filled by the terrain function |
| FillFunctions.PlaneValueIsSign | src/terrain-gen/fill-functions.ts:8 | A cell is -1 exactly when y/layers ≤ height, and 1 otherwise |
| FillFunctions.PlaneMonotone | src/terrain-gen/fill-functions.ts:8 | Once a layer is 1, every higher layer is 1 |
| FillFunctions.SimplePlane | src/terrain-gen/fill-functions.ts:4-12 | Every cell of the existing shape is written, with a value that depends on y only |
| FillFunctions.TrigColumnShift | src/terrain-gen/fill-functions.ts:18-22 | Within a column, two cells differ by (y2 − y1)/resolution: the surface term does not depend on y |
| FillFunctions.TrigColumnIncreasing | src/terrain-gen/fill-functions.ts:18-22 | For a positive resolution and a non-zero frequency, each column is strictly increasing in y |
| FillFunctions.TrigSurface | src/terrain-gen/fill-functions.ts:14-26 | Every cell is written with y/resolution minus the sine surface at (x, z) |
| LodPolicy.HelperLodOf | src/tile-manager/helpers.ts:8-10 | The helpers.ts rule never gives LOD 2 |
| LodPolicy.HelperIsManagerCapped | src/tile-manager/helpers.ts:7-10 | The helpers.ts rule is the tile-manager rule capped at 1. The two differ exactly when the distance is at most 1.5 |
| LodPolicy.NormalizedManhattanValue | src/tile-manager/helpers.ts:4-7 | For a non-zero tile size, the distance is the sum of the per-axis differences on x and z, each divided by the tile size |
| LodPolicy.ZeroTileSizeIsCoarsest | src/tile-manager/helpers.ts:4-10 | A zero tile size makes the distance NaN, and both rules then give LOD 0 |
| LodPolicy.IdealLodSymmetric | src/tile-manager/helpers.ts:7 | Both rules are symmetric in the reference and tile positions |
| LodPolicy.IdealLodIgnoresHeight | src/tile-manager/helpers.ts:7 | The y components do not affect the distance |
| LodPolicy.LodNonIncreasing | src/tile-manager/tile-manager.ts:98-101 | Both rules give a LOD that does not increase as the distance grows |
| LodPolicy.LoadCost | src/tile-manager/tile-manager.ts:62 | The charge is 3^lod: 1, 3 or 9 |
| LodPolicy.GenerationResolution | src/tile-manager/worker.ts:43 | 1/(1 << (2 − lod)) is 1, 0.5 and 0.25 for LOD 2, 1 and 0 |
| LodPolicy.ResolutionDoublesPerLod | src/tile-manager/worker.ts:43 | Each LOD step doubles the resolution |
| StableMin.FirstMinIndex | src/tile-manager/tile-manager.ts:59 | The stable sort's first element is the first index of a minimal key |
| OrderedMaps.GetFinds | src/tile-manager/worker.ts:13 | A lookup finds a key exactly when it is present, with its stored value |
| OrderedMaps.SetGet | src/tile-manager/worker.ts:77 | After `set`, the key maps to the new value and every other key is unchanged |
| OrderedMaps.SetKeys | src/tile-manager/worker.ts:77 | `set` keeps an existing key in its place and appends a new key at the end |
| OrderedMaps.DeleteGet | src/tile-manager/worker.ts:54 | After `delete`, the key is absent and every other key is unchanged |
| OrderedMaps.DeleteDistinct | src/tile-manager/worker.ts:32 | `delete` removes exactly the entry of that key and keeps keys distinct |
| OrderedMaps.DeleteLength | src/tile-manager/worker.ts:32 | Deleting a present key shortens the map by one |
| OrderedMaps.FilterMembers | src/tile-manager/worker.ts:30-32 | The entries kept are exactly those that pass the test |
| OrderedMaps.FilterAppend | src/tile-manager/worker.ts:30-32 | Filtering keeps the map's order: the kept entries of a + b are those of a followed by those of b |
| TileManagement.LeastLoaded | src/tile-manager/tile-manager.ts:59 | The chosen worker has minimal load, and ties go to the lowest index |
| TileManagement.RequestStepSpec | src/tile-manager/tile-manager.ts:49-72 | A request dispatches exactly when its key is new or its LOD is strictly higher, and otherwise changes nothing. On dispatch, the pending LOD is set, and the least-loaded worker alone is charged 3^lod and receives one data message |
| TileManagement.RequestIdempotent | src/tile-manager/tile-manager.ts:56-58 | Repeating a request right away sends nothing and changes nothing |
| TileManagement.DataReplyReleasesCharge | src/tile-manager/tile-manager.ts:31-36 | A data reply to a dispatched request restores every worker's load, drops the pending key and emits the tile |
| TileManagement.RemoveAfterUpgradeOverReleases | src/tile-manager/tile-manager.ts:38-42 | A remove reply after an upgrade releases the upgraded cost from the worker that held the coarse request, driving its load to -6 |
| TileManagement.TileManager.constructor | src/tile-manager/tile-manager.ts:16-22 | numWorkers workers (3 by default), each idle with load 0, and nothing pending |
| TileManagement.TileManager.RequestTile | src/tile-manager/tile-manager.ts:49-72 | The new state and dispatch are those of the request step |
| TileManagement.TileManager.OnWorkerMessage | src/tile-manager/tile-manager.ts:23-45 | The new state is the message step for status, data and remove replies |
| TileManagement.TileManager.UpdatePosition | src/tile-manager/tile-manager.ts:74-82 | Every worker receives one position message, and nothing else changes |
| TileWorker.PriorityOrder | src/tile-manager/worker.ts:20-22 | A tile that is no farther on x and z and has no higher LOD has no greater cost |
| TileWorker.NextTile | src/tile-manager/worker.ts:16-26 | Nothing exactly for an empty queue. Otherwise a queued request of least cost, the earliest queued among equals |
| TileWorker.CleanSplitsQueue | src/tile-manager/worker.ts:28-40 | The queue keeps exactly the entries whose ideal LOD is not below their queued LOD. One remove message goes out per evicted entry |
| TileWorker.FullDetailAlwaysEvicted | src/tile-manager/worker.ts:31 | After cleaning, no queued request has LOD 2 |
| TileWorker.GeneratedChunkWithinCellBound | src/tile-manager/worker.ts:42-44 | A runner tile at any LOD stays under the 2^24-cell limit of `generateChunk` |
| TileWorker.TileWorker.constructor | src/tile-manager/worker.ts:12-14 | Not running, empty queue, reference at the origin |
| TileWorker.TileWorker.CleanQueue | src/tile-manager/worker.ts:28-40 | The queue becomes the kept entries, and the remove messages are appended in queue order |
| TileWorker.TileWorker.Run | src/tile-manager/worker.ts:48-71 | With a next tile: running, that key deleted, one data message. Otherwise: not running, and a status message only if it was running |
| TileWorker.TileWorker.Tick | src/tile-manager/worker.ts:53-61 | When the timer fires, an empty queue makes the worker idle and posts status `false`. Otherwise the worker deletes the least-cost tile's key from the queue, posts that tile and sets the timer again. The reference does not change |
| TileWorker.TileWorker.OnMessage | src/tile-manager/worker.ts:73-88 | A request is stored under its key, or started at once (timer set) when idle, and leaves the reference position as it was. A position is recorded before the queue is cleaned; the running flag and the timer are kept |
| LegacyWorker.LegacyWorker.constructor | src/core/worker.ts:8-9 | Not running, empty queue |
| LegacyWorker.LegacyWorker.Generate | src/core/worker.ts:11-20 | One message per queued request, in insertion order. The queue ends empty and the flag false |
| LegacyWorker.LegacyWorker.OnMessage | src/core/worker.ts:22-29 | A request arriving while idle is generated and posted at once |
| TileGrid.CameraReferencePos | src/core/runner.ts:35-37 | On x and z, the camera lies in the half-open tile that starts at the reference, and the reference has y = 0 |
| TileGrid.ReferenceIsCellCorner | src/core/runner.ts:35-37 | The reference is the lattice corner of the tile-sized cell holding the camera |
| TileGrid.RelativePosTracksReference | src/core/runner.ts:330-341 | For a lattice tile, each component of the corrected relative position is -1, 0 or 1 as the camera's reference lies before, at or past the tile |
| TileGrid.FarEdgeMissedAsWritten | src/core/runner.ts:336 | As written, a camera exactly on the tile's far edge gets offset 0 although its reference has moved one tile |
| TileGrid.ShiftKeepsAlignment | src/core/runner.ts:241-279 | A one-slot shift of an aligned grid is aligned with the reference moved one tile the other way |
| TileGrid.ShiftAlongXRealigns | src/core/runner.ts:241-259 | The x shift for offset r re-aligns the grid with a reference moved r tiles |
| TileGrid.ShiftAlongZRealigns | src/core/runner.ts:261-279 | The z shift for offset r re-aligns the grid with a reference moved r tiles |
| TileGrid.ShiftRealigns | src/core/runner.ts:237-279 | After the shifts for the centre tile's corrected offset, the grid is aligned with the camera's new reference |
| TileGrid.EmptySlotLod | src/core/runner.ts:317-321 | An empty slot gets LOD 2 exactly at the centre, and LOD 1 exactly when x + z ≥ 2·numTiles − 3 |
| TileGrid.TileLodNonIncreasing | src/core/runner.ts:322-327 | For occupied slots, a tile nearer the camera never gets a lower LOD |
| TileGrid.RowRequestsMembers | src/core/runner.ts:282-292 | A row's requests are exactly those for its slots that are empty or below their ideal LOD |
| TileGrid.GridRequestsMembers | src/core/runner.ts:281-292 | A request is made exactly for a slot that is empty or below its ideal LOD, at ref + tileDim·(index − 25) with that LOD |
| TileGrid.DeliveryFindsRequestedSlot | src/core/runner.ts:354-357 | A requested tile delivered under the same reference goes back to the slot it was requested for, if that slot still wants it |
| TileGrid.InstallKeepsAlignment | src/core/runner.ts:380-386 | Installing a delivered tile at the runner's height (-256) keeps the grid aligned with the reference |
| TileGrid.DeliveryIdempotent | src/core/runner.ts:357 | A tile delivered twice is installed once |
| TileGrid.CentreKeepsAlignment | src/core/runner.ts:223-236 | The centre tile is placed at the reference, so the grid stays aligned |
| TileGrid.ShiftXDisposesDropped | src/core/runner.ts:244 | The x shift disposes exactly the tiles of the column it pushes out |
| TileGrid.ShiftZDisposesDropped | src/core/runner.ts:264 | The z shift disposes exactly the tiles of the row it pushes out |
| TileGrid.FrameKeepsAlignment | src/core/runner.ts:209-214 | If the camera moves at most one tile per axis in a frame, and the centre slot is occupied or the reference does not change, the grid after `manageTiles` with the corrected `tileRelativePos` (see Findings) is aligned with the new reference |
| TileGrid.EmptyCentreMisaligns | src/core/runner.ts:222-279 | With an empty centre slot, a camera move of one tile along z leaves a grid that was aligned misaligned with the new reference, because the offset is (0, 0) |
| Runner.Runner.constructor | src/core/runner.ts:58-80 | All slots are empty, the camera is over the middle of the origin cell, and the grid is aligned |
| Runner.Runner.DisposeTile | src/core/runner.ts:308-314 | An empty slot is left alone. An occupied one is emptied, and its tile is logged as disposed |
| Runner.Runner.ShiftColumn | src/core/runner.ts:243-247 | In every row, slot x takes slot s, and slot s is emptied when asked. The dropped column's tiles are disposed in row order |
| Runner.Runner.ShiftRow | src/core/runner.ts:263-267 | In every column, slot z takes slot s, and slot s is emptied when asked. The dropped row's tiles are disposed in column order |
| Runner.Runner.ShiftColumnsUp | src/core/runner.ts:241-249 | The slots become the x shift by +1, and the last column's tiles are disposed |
| Runner.Runner.ShiftColumnsDown | src/core/runner.ts:251-259 | The slots become the x shift by -1, and column 0's tiles are disposed |
| Runner.Runner.ShiftRowsUp | src/core/runner.ts:261-269 | The slots become the z shift by +1, and the last row's tiles are disposed |
| Runner.Runner.ShiftRowsDown | src/core/runner.ts:271-279 | The slots become the z shift by -1, and row 0's tiles are disposed |
| Runner.Runner.RequestRow | src/core/runner.ts:282-292 | The requests of one row are appended in x order |
| Runner.Runner.RequestTiles | src/core/runner.ts:281-304 | The requests of the whole grid are appended in z, x order |
| Runner.Runner.PlaceCentre | src/core/runner.ts:223-236 | An empty centre slot gets an LOD-2 tile at the reference |
| Runner.Runner.ShiftBy | src/core/runner.ts:237-279 | The slots shift along x and then z by the offset, disposing what is pushed out |
| Runner.Runner.UpdateSlots | src/core/runner.ts:222-279 | The centre step and the shifts, with the disposals in order |
| Runner.Runner.ManageTiles | src/core/runner.ts:222-306 | The new slots, the disposals and the requests are those of `manageTiles` |
| Runner.Runner.Frame | src/core/runner.ts:205-220 | After a camera move of at most one tile per axis, with an occupied centre slot or an unchanged reference, `manageTiles` with the corrected `tileRelativePos` (see Findings) leaves the grid aligned with the camera; the disposed log gains exactly the tiles the shifts push out, and the request log the grid's requests |
| Runner.Runner.WorkerOnMessage | src/core/runner.ts:346-389 | A delivery is installed exactly when its slot is in range, integral and upgraded. Installing disposes the old tile, and the grid stays aligned |

## Left out

- Rendering: three.js meshes, materials, scene, cameras, controls, GUI and keyboard handling, `BufferGeometry` construction and normal computation, and the shaders. A tile is its LOD and position, and a mesh is its position and index buffers.
- Web Worker transport, rxjs and `setTimeout`: messages are appended to inboxes and outboxes. A timer is a flag with a `Tick` step. The async completion of `generate` runs before the next message, so `run` is atomic. Concurrency between workers is not modelled.
- The runner's `requestTile` calls are logged in `requested`. They are not fed to the `TileManager` model.
- Floating point: numbers are reals. Division by zero gives NaN, not ±Infinity; every comparison the code makes treats both the same way. `Math.round(Math.pow(3, lod))` is exactly 1, 3 or 9.
- The triangle table (`third_party/MarchingCubes`), the `terrain` fill and `Math.sin` are not part of this model. They are parameters: a table of 256 rows of edge ids 0..11 or -1, a fill function, and a real function.
- `generateChunk`'s extra octave and noise-type argument in the runner and the legacy worker is not modelled, because `generateChunk` drops it itself: its fourth parameter is commented out (src/terrain-gen/terrain-generator.ts:10).
- The `TileManager` cache stubs: `fetchFromCache` always misses and `insertInCache` does nothing, so requests never short-circuit.
- `console.log` calls.
- MarchingCubes.MarchingCubes.GenerateSurface: the triple loop is split into one method per loop level and one per table row. The order of pushes is the source's. The keys are the source's, so the corrected extraction is a function only, `Extract(Corrected, …)`.
- TerrainGenerator.GenerateChunk: takes the documented 2^24-cell limit as a precondition, as its doc comment asks of callers.
- Runner.Runner.Frame: the camera's movement in `loop` (a quaternion-rotated, time-scaled step) is a parameter, the new position. Alignment is proved only for a move of at most one tile per axis per frame, with an occupied centre slot or an unchanged reference, and it rests on the corrected `tileRelativePos` (see Findings): with the strict far-edge test as written, a camera that stops exactly on the centre tile's far edge leaves the grid misaligned (TileGrid.FarEdgeMissedAsWritten). Larger jumps leave the grid misaligned, and the source does not handle them either.
- TileGrid.FrameKeepsAlignment: the same restrictions as `Frame`, including the corrected `tileRelativePos` (see Findings).
- Runner.Runner.ManageTiles: uses the corrected `tileRelativePos` (see Findings). `TileGrid.TileRelativePosAsWritten` keeps the source's version.
- Runner.Runner.UpdateSlots: reads the centre tile's offset with the corrected `tileRelativePos`, not the strict far-edge test of runner.ts lines 336 and 338. With the camera exactly on the centre tile's far edge, the model shifts where the program does not.
- Runner.Runner.WorkerOnMessage: the stray property that an `OffGrid` delivery sets on a row, and the exception that a `RowMissing` delivery raises, are reported as results rather than modelled. Alignment is kept only for tiles at the runner's height, -256.
- Runner.Runner.constructor: the array of arrays is a two-dimensional array.
- LegacyWorker.LegacyWorker.Generate: the geometry and the noise parameters are not modelled. A posted message is the request.
- TileWorker.TileWorker.Run: the geometry payload is not modelled.

## Findings

| source | as written | input that shows it | evidently intended | confidence | as-written member | corrected member |
|---|---|---|---|---|---|---|
| src/terrain-gen/marching-cubes.ts:53 | Edge 4's key coordinate is [2x, 2y, 2z+2], not the edge's doubled midpoint | Cube (0,0,0) edge 4 and cube (0,0,1) edge 0 are the same grid edge but get keys from [0,0,2] and [1,0,2], so the crossing is not shared | [2x+1, 2y, 2z+2], so that equal keys mean the same grid edge | high, not executed | MarchingCubes.ExtractSharesAsWritten | MarchingCubes.ExtractSharesExactlyGridEdges |
| src/core/runner.ts:336 | The x offset is 1 only when camera.x > tile.x + tileDim, and likewise for z at line 338 | Camera (56, 0, 28) with the centre tile at (0, -256, 0): the camera is past the tile, but the offset is (0, 0), although the reference has moved to x = 56, so the grid does not shift | ≥, matching the half-open "in the tile" test on line 332 | medium, not executed | TileGrid.FarEdgeMissedAsWritten | TileGrid.ShiftRealigns |

/**
 * `generateChunk` (src/terrain-gen/terrain-generator.ts): sizes a grid from
 * the chunk size and the resolution, allocates it full of NaN, lets the
 * `terrain` fill write it, and extracts the surface at threshold 0.
 *
 * The `terrain` fill is not part of this model: it is the parameter
 * `terrain`, the density it writes at each cell of chunk `id`.
 */
module TerrainGenerator {
  import opened Wrappers
  import opened Doubles
  import opened Interfaces
  import opened EdgeKeys
  import opened VertexWeld
  import opened MarchingCubes

  /** What the `terrain` fill writes at cell (x, y, z) of chunk `id` at `resolution`. */
  type TerrainFill = (Vec3, real, int, int, int) -> Num

  /** `new Array(n)` with a negative length throws a RangeError. */
  datatype ChunkError = RangeError

  /** Lattice points along an axis: `Math.ceil((chunkSize + 1) * resolution)`. */
  function GridDim(chunkSide: real, resolution: real): int {
    Ceil((chunkSide + 1.0) * resolution)
  }

  /** The default chunk size 25 at resolution 1 gives 26 points per axis. */
  lemma DefaultGridDim()
    ensures GridDim(25.0, 1.0) == 26
  {
    var n := GridDim(25.0, 1.0);
    assert n - 1 < 26 && 26 <= n;
  }

  /** The lattice covers the chunk: there are at least (chunkSide + 1) * resolution points, and fewer than one more. */
  lemma GridDimCovers(chunkSide: real, resolution: real)
    ensures var n := GridDim(chunkSide, resolution);
      (chunkSide + 1.0) * resolution <= n as real < (chunkSide + 1.0) * resolution + 1.0
  {
  }

  /** The grid `terrain` leaves behind: `dimY` layers of `dimZ` rows of `dimX` cells. */
  function TerrainGrid(id: Vec3, resolution: real, dimX: nat, dimY: nat, dimZ: nat, terrain: TerrainFill): (g: Grid)
    ensures |g| == dimY && (dimY > 0 ==> Rows(g) == dimZ) && (dimY > 0 && dimZ > 0 ==> Columns(g) == dimX)
    ensures forall y, z, x :: 0 <= y < dimY && 0 <= z < dimZ && 0 <= x < dimX ==> Cell(g, y, z, x) == terrain(id, resolution, x, y, z)
  {
    var g := seq(dimY, y => TerrainLayer(id, resolution, dimX, dimZ, y, terrain));
    assert forall y, z, x :: 0 <= y < dimY && 0 <= z < dimZ && 0 <= x < dimX ==> g[y][z][x] == terrain(id, resolution, x, y, z);
    g
  }

  /** Layer y of the terrain grid. */
  function TerrainLayer(id: Vec3, resolution: real, dimX: nat, dimZ: nat, y: int, terrain: TerrainFill): (layer: seq<seq<Num>>)
    ensures |layer| == dimZ && forall z :: 0 <= z < dimZ ==> layer[z] == TerrainRow(id, resolution, dimX, y, z, terrain)
  {
    seq(dimZ, z => TerrainRow(id, resolution, dimX, y, z, terrain))
  }

  /** Row z of layer y of the terrain grid. */
  function TerrainRow(id: Vec3, resolution: real, dimX: nat, y: int, z: int, terrain: TerrainFill): (row: seq<Num>)
    ensures |row| == dimX && forall x :: 0 <= x < dimX ==> row[x] == terrain(id, resolution, x, y, z)
  {
    seq(dimX, x => terrain(id, resolution, x, y, z))
  }

  /** The grid allocation: `dimY` layers of `dimZ` rows of `dimX` NaN cells. */
  method AllocateGrid(dimX: nat, dimY: nat, dimZ: nat) returns (grid: array3<Num>)
    ensures fresh(grid)
    ensures grid.Length0 == dimY && grid.Length1 == dimZ && grid.Length2 == dimX
    ensures forall y, z, x :: 0 <= y < dimY && 0 <= z < dimZ && 0 <= x < dimX ==> grid[y, z, x] == NaN
  {
    grid := new Num[dimY, dimZ, dimX]((y, z, x) => NaN);
  }

  /** The `terrain` fill, writing every cell of the grid in place. */
  method FillTerrain(grid: array3<Num>, id: Vec3, resolution: real, terrain: TerrainFill)
    modifies grid
    ensures forall y, z, x :: 0 <= y < grid.Length0 && 0 <= z < grid.Length1 && 0 <= x < grid.Length2 ==>
      grid[y, z, x] == terrain(id, resolution, x, y, z)
  {
    forall y, z, x | 0 <= y < grid.Length0 && 0 <= z < grid.Length1 && 0 <= x < grid.Length2 {
      grid[y, z, x] := terrain(id, resolution, x, y, z);
    }
  }

  /** After the fill, the grid's contents are the terrain grid of its shape. */
  lemma SnapshotOfFill(grid: array3<Num>, id: Vec3, resolution: real, terrain: TerrainFill)
    requires forall y, z, x :: 0 <= y < grid.Length0 && 0 <= z < grid.Length1 && 0 <= x < grid.Length2 ==>
      grid[y, z, x] == terrain(id, resolution, x, y, z)
    ensures Snapshot(grid) == TerrainGrid(id, resolution, grid.Length2, grid.Length0, grid.Length1, terrain)
  {
    var s, g := Snapshot(grid), TerrainGrid(id, resolution, grid.Length2, grid.Length0, grid.Length1, terrain);
    forall y | 0 <= y < grid.Length0
      ensures s[y] == g[y]
    {
      forall z | 0 <= z < grid.Length1
        ensures s[y][z] == g[y][z]
      {
        assert |s[y][z]| == |g[y][z]|;
      }
    }
  }

  /** The maximum of `n` and 0. */
  function Clamp(n: int): nat {
    if n < 0 then 0 else n
  }

  /**
   * `generateChunk`. A negative x dimension fails only where the source
   * reaches `Array(dimX)`, that is, when there is at least one layer and one
   * row; otherwise the mesh is the extraction of the terrain grid at
   * threshold 0. The documented limit on the cell count is the caller's
   * obligation.
   */
  method GenerateChunk(id: Vec3, chunkSize: Vec3, resolution: real, table: Table, terrain: TerrainFill)
    returns (r: Result<Mesh, ChunkError>)
    requires GridDim(chunkSize.x, resolution) * GridDim(chunkSize.y, resolution) * GridDim(chunkSize.z, resolution) < 0x100_0000
    ensures var dimX, dimY, dimZ := GridDim(chunkSize.x, resolution), GridDim(chunkSize.y, resolution), GridDim(chunkSize.z, resolution);
      && (r.Failure? <==> dimY > 0 && dimZ > 0 && dimX < 0)
      && (r.Success? ==> r.value == Extract(AsWritten, TerrainGrid(id, resolution, Clamp(dimX), Clamp(dimY), Clamp(dimZ), terrain), resolution, 0.0, table))
  {
    var dimX := GridDim(chunkSize.x, resolution);
    var dimY := GridDim(chunkSize.y, resolution);
    var dimZ := GridDim(chunkSize.z, resolution);
    if dimY > 0 && dimZ > 0 && dimX < 0 {
      return Failure(RangeError);
    }
    var mesh := FillAndExtract(id, Clamp(dimX), Clamp(dimY), Clamp(dimZ), resolution, table, terrain);
    return Success(mesh);
  }

  /**
   * The body of `generateChunk` past the dimensions: allocate the NaN grid,
   * fill it with the terrain and extract its surface at threshold 0.
   */
  method FillAndExtract(id: Vec3, dimX: nat, dimY: nat, dimZ: nat, resolution: real, table: Table, terrain: TerrainFill)
    returns (mesh: Mesh)
    ensures mesh == Extract(AsWritten, TerrainGrid(id, resolution, dimX, dimY, dimZ, terrain), resolution, 0.0, table)
  {
    var grid := AllocateGrid(dimX, dimY, dimZ);
    FillTerrain(grid, id, resolution, terrain);
    SnapshotOfFill(grid, id, resolution, terrain);
    var extractor := new MarchingCubes();
    mesh := extractor.GenerateSurface(grid, resolution, 0.0, table);
  }
}

/**
 * The shapes shared by the tile grid, the coordinator and the workers
 * (src/core/interfaces.ts, src/core/config.ts). three.js vectors become
 * `Vec3` records of reals.
 */
module Interfaces {
  datatype Vec3 = Vec3(x: real, y: real, z: real)

  /** Every level of detail the code produces: 0 (coarse), 1 or 2 (full detail). */
  type Lod = l: int | 0 <= l <= 2

  /**
   * A tile request. `relativePosition` is the slot [x, z] in the tile grid;
   * `dimension` is the tile size (spelt `dimention` in the source).
   */
  datatype TileRequest = TileRequest(position: Vec3, lod: Lod, relativePosition: (int, int), dimension: Vec3)

  /** A live tile of the grid, with its three.js mesh abstracted away. */
  datatype Tile = Tile(lod: Lod, position: Vec3)

  /** `CONFIG.tileDim`, the tile size the workers use for priorities and eviction. */
  const ConfigTileDim: Vec3 := Vec3(100.0, 512.0, 100.0)

  /** The tile size `Runner` requests tiles with (its own `tileDim`, not `CONFIG.tileDim`). */
  const RunnerTileDim: Vec3 := Vec3(56.0, 512.0, 56.0)
}

/**
 * Level-of-detail rules shared by the coordinator and the workers: the
 * ideal LOD of a tile from its distance to the reference position
 * (src/tile-manager/helpers.ts, and the exported variant of
 * src/tile-manager/tile-manager.ts), the load a request of each LOD
 * charges to a worker, and the resolution a tile of each LOD is built at.
 */
module LodPolicy {
  import opened Doubles
  import opened Interfaces

  /**
   * The Manhattan distance on x and z between two positions, each divided
   * component-wise by the tile size. A zero tile size makes it non-finite.
   */
  function NormalizedManhattan(reference: Vec3, tile: Vec3, tileDim: Vec3): Num {
    Add(Abs(Sub(Div(Fin(reference.x), Fin(tileDim.x)), Div(Fin(tile.x), Fin(tileDim.x)))),
        Abs(Sub(Div(Fin(reference.z), Fin(tileDim.z)), Div(Fin(tile.z), Fin(tileDim.z)))))
  }

  /** The LOD rule of helpers.ts, whose "within 1.5 gives 2" branch is commented out. */
  function HelperLodOf(distance: Num): (l: Lod)
    ensures l <= 1
  {
    if AtMost(distance, 3.0) then 1 else 0
  }

  /** The LOD rule of the `getIdealLOD` exported by tile-manager.ts. */
  function ManagerLodOf(distance: Num): Lod {
    if AtMost(distance, 1.5) then 2 else if AtMost(distance, 3.0) then 1 else 0
  }

  /** `getIdealLOD` of helpers.ts, the one the tile workers import. */
  function HelperIdealLod(reference: Vec3, tile: Vec3, tileDim: Vec3): Lod {
    HelperLodOf(NormalizedManhattan(reference, tile, tileDim))
  }

  /** `getIdealLOD` exported by tile-manager.ts. */
  function ManagerIdealLod(reference: Vec3, tile: Vec3, tileDim: Vec3): Lod {
    ManagerLodOf(NormalizedManhattan(reference, tile, tileDim))
  }

  /** For a non-zero tile size the distance is finite: each axis difference divided by the tile size, in absolute value. */
  lemma NormalizedManhattanValue(reference: Vec3, tile: Vec3, tileDim: Vec3)
    requires tileDim.x != 0.0 && tileDim.z != 0.0
    ensures NormalizedManhattan(reference, tile, tileDim)
      == Fin(Magnitude((reference.x - tile.x) / tileDim.x) + Magnitude((reference.z - tile.z) / tileDim.z))
  {
    DivDifference(reference.x, tile.x, tileDim.x);
    DivDifference(reference.z, tile.z, tileDim.z);
  }

  function Magnitude(r: real): real {
    if r < 0.0 then -r else r
  }

  lemma DivDifference(a: real, b: real, d: real)
    requires d != 0.0
    ensures a / d - b / d == (a - b) / d
  {
    QuotientUnique(a - b, d, a / d - b / d);
  }

  /** A zero tile width or depth makes every tile the coarsest. */
  lemma ZeroTileSizeIsCoarsest(reference: Vec3, tile: Vec3, tileDim: Vec3)
    requires tileDim.x == 0.0 || tileDim.z == 0.0
    ensures HelperIdealLod(reference, tile, tileDim) == 0 && ManagerIdealLod(reference, tile, tileDim) == 0
  {
  }

  /** The distance, and so both LOD rules, are symmetric in the two positions. */
  lemma IdealLodSymmetric(reference: Vec3, tile: Vec3, tileDim: Vec3)
    ensures NormalizedManhattan(reference, tile, tileDim) == NormalizedManhattan(tile, reference, tileDim)
    ensures HelperIdealLod(reference, tile, tileDim) == HelperIdealLod(tile, reference, tileDim)
    ensures ManagerIdealLod(reference, tile, tileDim) == ManagerIdealLod(tile, reference, tileDim)
  {
    AbsSubSymmetric(Div(Fin(reference.x), Fin(tileDim.x)), Div(Fin(tile.x), Fin(tileDim.x)));
    AbsSubSymmetric(Div(Fin(reference.z), Fin(tileDim.z)), Div(Fin(tile.z), Fin(tileDim.z)));
  }

  lemma AbsSubSymmetric(a: Num, b: Num)
    ensures Abs(Sub(a, b)) == Abs(Sub(b, a))
  {
  }

  /** The y components of the positions and of the tile size play no part. */
  lemma IdealLodIgnoresHeight(reference: Vec3, tile: Vec3, tileDim: Vec3, y1: real, y2: real, y3: real)
    ensures NormalizedManhattan(reference.(y := y1), tile.(y := y2), tileDim.(y := y3)) == NormalizedManhattan(reference, tile, tileDim)
  {
  }

  /** Both rules are non-increasing in the distance, and a non-finite distance counts as the farthest. */
  lemma LodNonIncreasing(near: Num, far: Num)
    requires far.Fin? ==> near.Fin? && near.r <= far.r
    ensures ManagerLodOf(near) >= ManagerLodOf(far)
    ensures HelperLodOf(near) >= HelperLodOf(far)
  {
  }

  /** The helpers.ts rule is the exported rule capped at 1: they differ only within distance 1.5. */
  lemma HelperIsManagerCapped(distance: Num)
    ensures HelperLodOf(distance) == if ManagerLodOf(distance) < 1 then ManagerLodOf(distance) else 1
    ensures HelperLodOf(distance) != ManagerLodOf(distance) <==> AtMost(distance, 1.5)
  {
  }

  /** `3^n`. */
  function Pow3(n: nat): nat {
    if n == 0 then 1 else 3 * Pow3(n - 1)
  }

  /** `2^n`, the value of `1 << n` for small `n`. */
  function Pow2(n: nat): nat {
    if n == 0 then 1 else 2 * Pow2(n - 1)
  }

  /** The load a request of LOD `lod` charges to a worker, `Math.round(Math.pow(3, lod))`. */
  function LoadCost(lod: Lod): (c: nat)
    ensures c == Pow3(lod)
  {
    match lod
    case 0 => 1
    case 1 => 3
    case _ => 9
  }

  /** The generation resolution `1 / (1 << (2 - lod))` of a tile of LOD `lod`. */
  function GenerationResolution(lod: Lod): (r: real)
    ensures lod == 2 ==> r == 1.0
    ensures lod == 1 ==> r == 0.5
    ensures lod == 0 ==> r == 0.25
  {
    1.0 / Pow2(2 - lod) as real
  }

  /** Each LOD step doubles the resolution. */
  lemma ResolutionDoublesPerLod(lod: Lod)
    requires lod < 2
    ensures GenerationResolution(lod + 1) == 2.0 * GenerationResolution(lod)
  {
  }
}

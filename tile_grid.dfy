/**
 * The pure rules of the runner's tile grid (src/core/runner.ts): which
 * lattice cell the camera is in, where the centre tile lies relative to it,
 * how the grid of slots shifts when the camera leaves the centre tile, the
 * ideal LOD of a slot, which slots are requested, and where a delivered
 * tile is installed. A grid is `NumTiles` rows (z) of `NumTiles` slots (x).
 */
module TileGrid {
  import opened Wrappers
  import opened Interfaces
  import opened LodPolicy
  import opened Doubles

  /** `numTiles`. */
  const NumTiles: int := 51
  /** `Math.floor(numTiles / 2)`, the index of the centre slot. */
  const Mid: int := 25

  type Slots = seq<seq<Option<Tile>>>

  predicate Square(g: Slots) {
    |g| == NumTiles && forall z :: 0 <= z < |g| ==> |g[z]| == NumTiles
  }

  predicate InGrid(x: int, z: int) {
    0 <= x < NumTiles && 0 <= z < NumTiles
  }

  /** `cameraReferencePos`: the corner of the tile-sized lattice cell the camera is in. */
  function CameraReferencePos(camera: Vec3): (ref: Vec3)
    ensures ref.x <= camera.x < ref.x + RunnerTileDim.x
    ensures ref.z <= camera.z < ref.z + RunnerTileDim.z
    ensures ref.y == 0.0
  {
    Vec3((camera.x / RunnerTileDim.x).Floor as real * RunnerTileDim.x, 0.0, (camera.z / RunnerTileDim.z).Floor as real * RunnerTileDim.z)
  }

  /** A lattice point: a whole number of tile sizes. */
  function Lattice(k: int): real {
    k as real * 56.0
  }

  /** The reference position is the one lattice corner whose cell holds the camera. */
  lemma ReferenceIsCellCorner(camera: Vec3, kx: int, kz: int)
    requires Lattice(kx) <= camera.x < Lattice(kx) + 56.0
    requires Lattice(kz) <= camera.z < Lattice(kz) + 56.0
    ensures CameraReferencePos(camera) == Vec3(Lattice(kx), 0.0, Lattice(kz))
  {
    var fx, fz := (camera.x / 56.0).Floor, (camera.z / 56.0).Floor;
    LatticeCell(camera.x, fx, kx);
    LatticeCell(camera.z, fz, kz);
  }

  lemma LatticeCell(c: real, f: int, k: int)
    requires f == (c / 56.0).Floor
    requires Lattice(k) <= c < Lattice(k) + 56.0
    ensures f == k
  {
    assert k as real <= c / 56.0 < k as real + 1.0;
  }

  /** The corner of the lattice cell holding `c`, as a whole number of tile sizes. */
  lemma ReferenceOnLattice(c: real)
    ensures (c / 56.0).Floor as real * 56.0 == Lattice((c / 56.0).Floor)
  {
  }

  /**
   * `tileRelativePos` as written: (0, 0) when the camera is in the tile,
   * otherwise per axis -1 before the tile and 1 strictly past its far edge.
   */
  function TileRelativePosAsWritten(camera: Vec3, tile: Vec3): (int, int) {
    if tile.x <= camera.x < tile.x + RunnerTileDim.x && tile.z <= camera.z < tile.z + RunnerTileDim.z then (0, 0)
    else
      (if camera.x > tile.x + RunnerTileDim.x then 1 else if camera.x < tile.x then -1 else 0,
       if camera.z > tile.z + RunnerTileDim.z then 1 else if camera.z < tile.z then -1 else 0)
  }

  /** `tileRelativePos` with the far edge counted as past the tile, as the "in the tile" test implies. */
  function TileRelativePos(camera: Vec3, tile: Vec3): (int, int) {
    if tile.x <= camera.x < tile.x + RunnerTileDim.x && tile.z <= camera.z < tile.z + RunnerTileDim.z then (0, 0)
    else
      (if camera.x >= tile.x + RunnerTileDim.x then 1 else if camera.x < tile.x then -1 else 0,
       if camera.z >= tile.z + RunnerTileDim.z then 1 else if camera.z < tile.z then -1 else 0)
  }

  /**
   * For a tile on the lattice, the corrected relative position is the
   * direction from the tile to the camera's reference position, per axis.
   */
  lemma RelativePosTracksReference(camera: Vec3, kx: int, kz: int, y: real)
    ensures var r := TileRelativePos(camera, Vec3(Lattice(kx), y, Lattice(kz)));
      var ref := CameraReferencePos(camera);
      && (r.0 == -1 <==> ref.x < Lattice(kx)) && (r.0 == 1 <==> ref.x > Lattice(kx))
      && (r.1 == -1 <==> ref.z < Lattice(kz)) && (r.1 == 1 <==> ref.z > Lattice(kz))
  {
    var fx, fz := (camera.x / 56.0).Floor, (camera.z / 56.0).Floor;
    AxisTracksReference(camera.x, fx, kx);
    AxisTracksReference(camera.z, fz, kz);
  }

  lemma AxisTracksReference(c: real, f: int, k: int)
    requires f == (c / 56.0).Floor
    ensures c < Lattice(k) <==> f < k
    ensures c >= Lattice(k) + 56.0 <==> f > k
  {
    assert f as real <= c / 56.0 < f as real + 1.0;
    assert c == (c / 56.0) * 56.0;
  }

  /**
   * As written, a camera exactly on the far x edge of the centre tile is
   * outside it, yet gets x offset 0: its reference cell has advanced while
   * the grid is not shifted. The corrected rule gives 1.
   */
  lemma FarEdgeMissedAsWritten()
    ensures var camera, tile := Vec3(56.0, 0.0, 28.0), Vec3(0.0, -256.0, 0.0);
      && TileRelativePosAsWritten(camera, tile) == (0, 0)
      && CameraReferencePos(camera).x == 56.0 != tile.x
      && TileRelativePos(camera, tile) == (1, 0)
  {
    var camera := Vec3(56.0, 0.0, 28.0);
    ReferenceIsCellCorner(camera, 1, 0);
  }

  /** The position of the tile for slot (x, z) around reference `ref`, as requests compute it. */
  function SlotPosition(ref: Vec3, x: int, z: int): Vec3 {
    Vec3(ref.x + RunnerTileDim.x * (x - Mid) as real, -RunnerTileDim.y / 2.0, ref.z + RunnerTileDim.z * (z - Mid) as real)
  }

  /** Every tile in the grid lies at the position of its slot around `ref`. */
  predicate Aligned(g: Slots, ref: Vec3)
    requires Square(g)
  {
    forall z, x :: 0 <= z < NumTiles && 0 <= x < NumTiles && g[z][x].Some? ==> g[z][x].value.position == SlotPosition(ref, x, z)
  }

  /** The grid with its content moved `d` slots along x (slot x takes old slot x - d); vacated slots are empty. */
  function ShiftX(g: Slots, d: int): (g': Slots)
    requires Square(g)
    ensures Square(g')
  {
    seq(NumTiles, z requires 0 <= z < NumTiles =>
      seq(NumTiles, x requires 0 <= x < NumTiles => if 0 <= x - d < NumTiles then g[z][x - d] else None))
  }

  /** The grid with its content moved `d` slots along z (row z takes old row z - d); vacated slots are empty. */
  function ShiftZ(g: Slots, d: int): (g': Slots)
    requires Square(g)
    ensures Square(g')
  {
    seq(NumTiles, z requires 0 <= z < NumTiles =>
      seq(NumTiles, x requires 0 <= x < NumTiles => if 0 <= z - d < NumTiles then g[z - d][x] else None))
  }

  /** Moving the content one slot keeps it aligned with the reference moved one tile the other way. */
  lemma ShiftKeepsAlignment(g: Slots, ref: Vec3, d: int)
    requires Square(g) && Aligned(g, ref) && (d == 1 || d == -1)
    ensures Aligned(ShiftX(g, d), ref.(x := ref.x - RunnerTileDim.x * d as real))
    ensures Aligned(ShiftZ(g, d), ref.(z := ref.z - RunnerTileDim.z * d as real))
  {
    var gx: Slots, gz: Slots := ShiftX(g, d), ShiftZ(g, d);
    forall z: int, x: int | InGrid(x, z) && gx[z][x].Some?
      ensures gx[z][x].value.position == SlotPosition(ref.(x := ref.x - RunnerTileDim.x * d as real), x, z)
    {
      assert gx[z][x] == g[z][x - d];
    }
    forall z: int, x: int | InGrid(x, z) && gz[z][x].Some?
      ensures gz[z][x].value.position == SlotPosition(ref.(z := ref.z - RunnerTileDim.z * d as real), x, z)
    {
      assert gz[z][x] == g[z - d][x];
    }
  }

  /** The x shift `manageTiles` applies for x offset `r`. */
  function ShiftAlongX(g: Slots, r: int): (g': Slots)
    requires Square(g)
    ensures Square(g')
  {
    if r == -1 then ShiftX(g, 1) else if r == 1 then ShiftX(g, -1) else g
  }

  /** The z shift `manageTiles` applies for z offset `r`. */
  function ShiftAlongZ(g: Slots, r: int): (g': Slots)
    requires Square(g)
    ensures Square(g')
  {
    if r == -1 then ShiftZ(g, 1) else if r == 1 then ShiftZ(g, -1) else g
  }

  /** The shifts `manageTiles` applies for relative position `r`: first along x, then along z. */
  function ShiftFor(g: Slots, r: (int, int)): (g': Slots)
    requires Square(g)
    ensures Square(g')
  {
    ShiftAlongZ(ShiftAlongX(g, r.0), r.1)
  }

  /** The x shift for offset `r` re-aligns the grid with a reference moved by `r` tiles along x. */
  lemma ShiftAlongXRealigns(g: Slots, ref: Vec3, r: int, x: real)
    requires Square(g) && Aligned(g, ref)
    requires x == ref.x + RunnerTileDim.x * (if r == -1 || r == 1 then r else 0) as real
    ensures Aligned(ShiftAlongX(g, r), ref.(x := x))
  {
    if r == -1 || r == 1 {
      ShiftKeepsAlignment(g, ref, -r);
    }
  }

  /** The z shift for offset `r` re-aligns the grid with a reference moved by `r` tiles along z. */
  lemma ShiftAlongZRealigns(g: Slots, ref: Vec3, r: int, z: real)
    requires Square(g) && Aligned(g, ref)
    requires z == ref.z + RunnerTileDim.z * (if r == -1 || r == 1 then r else 0) as real
    ensures Aligned(ShiftAlongZ(g, r), ref.(z := z))
  {
    if r == -1 || r == 1 {
      ShiftKeepsAlignment(g, ref, -r);
    }
  }

  /** Along one axis: a cell index within one of `k`, seen through the offset rule, moves the lattice corner by the offset. */
  lemma OffsetIsStep(f: int, k: int, r: int)
    requires k - 1 <= f <= k + 1
    requires (r == -1 <==> f < k) && (r == 1 <==> f > k)
    ensures Lattice(f) == Lattice(k) + 56.0 * (if r == -1 || r == 1 then r else 0) as real
  {
  }

  /**
   * When the camera's reference moves by at most one tile per axis, the
   * shifts chosen from the corrected relative position of the centre tile
   * re-align the whole grid with the new reference.
   */
  lemma ShiftRealigns(g: Slots, kx: int, kz: int, camera: Vec3)
    requires Square(g) && Aligned(g, Vec3(Lattice(kx), 0.0, Lattice(kz))) && g[Mid][Mid].Some?
    requires Lattice(kx - 1) <= CameraReferencePos(camera).x <= Lattice(kx + 1)
    requires Lattice(kz - 1) <= CameraReferencePos(camera).z <= Lattice(kz + 1)
    ensures Aligned(ShiftFor(g, TileRelativePos(camera, g[Mid][Mid].value.position)), CameraReferencePos(camera))
  {
    var ref0 := Vec3(Lattice(kx), 0.0, Lattice(kz));
    assert g[Mid][Mid].value.position == Vec3(Lattice(kx), -256.0, Lattice(kz));
    var r := TileRelativePos(camera, Vec3(Lattice(kx), -256.0, Lattice(kz)));
    RelativePosTracksReference(camera, kx, kz, -256.0);
    var fx, fz := (camera.x / 56.0).Floor, (camera.z / 56.0).Floor;
    var ref := CameraReferencePos(camera);
    ReferenceOnLattice(camera.x);
    ReferenceOnLattice(camera.z);
    LatticeOrder(fx, kx);
    LatticeOrder(fz, kz);
    OffsetIsStep(fx, kx, r.0);
    OffsetIsStep(fz, kz, r.1);
    ShiftAlongXRealigns(g, ref0, r.0, ref.x);
    ShiftAlongZRealigns(ShiftAlongX(g, r.0), ref0.(x := ref.x), r.1, ref.z);
    assert ref0.(x := ref.x).(z := ref.z) == ref;
  }

  lemma LatticeOrder(f: int, k: int)
    ensures Lattice(f) < Lattice(k) <==> f < k
    ensures Lattice(k - 1) <= Lattice(f) <= Lattice(k + 1) <==> k - 1 <= f <= k + 1
  {
  }

  function IntAbs(n: int): nat {
    if n < 0 then -n else n
  }

  /** The Manhattan distance on x and z from the centre of `tile` to the camera. */
  function CenterDistance(tile: Tile, camera: Vec3): real {
    Magnitude(tile.position.x + RunnerTileDim.x / 2.0 - camera.x) + Magnitude(tile.position.z + RunnerTileDim.z / 2.0 - camera.z)
  }

  /** The runner's `getIdealLOD` for slot (x, z) holding `slot`. */
  function SlotIdealLod(slot: Option<Tile>, x: int, z: int, camera: Vec3): Lod {
    match slot
    case None =>
      if x == Mid && z == Mid then 2
      else if IntAbs(NumTiles - x) + IntAbs(NumTiles - z) > 3 then 0
      else 1
    case Some(tile) =>
      var meanHorizontalDim := (RunnerTileDim.x + RunnerTileDim.z) / 2.0;
      if CenterDistance(tile, camera) < 1.5 * meanHorizontalDim then 2
      else if CenterDistance(tile, camera) < 4.0 * meanHorizontalDim then 1
      else 0
  }

  /**
   * An empty slot is wanted at LOD 2 only at the centre, and at LOD 1 only
   * in the three slots of the far corner, because its distance is measured
   * from (numTiles, numTiles) rather than from the centre slot.
   */
  lemma EmptySlotLod(x: int, z: int, camera: Vec3)
    requires InGrid(x, z)
    ensures SlotIdealLod(None, x, z, camera) == 2 <==> x == Mid && z == Mid
    ensures SlotIdealLod(None, x, z, camera) == 1 <==> x + z >= 2 * NumTiles - 3
  {
  }

  /** For a present tile the ideal LOD does not rise as its centre gets farther from the camera. */
  lemma TileLodNonIncreasing(near: Tile, far: Tile, x1: int, z1: int, x2: int, z2: int, camera: Vec3)
    requires CenterDistance(near, camera) <= CenterDistance(far, camera)
    ensures SlotIdealLod(Some(near), x1, z1, camera) >= SlotIdealLod(Some(far), x2, z2, camera)
  {
  }

  /** Whether a slot holding `slot` wants a tile of LOD `lod`: it is empty or coarser. */
  predicate Upgrades(slot: Option<Tile>, lod: Lod) {
    slot.None? || slot.value.lod < lod
  }

  /** The request the loop of `manageTiles` makes for slot (x, z). */
  function RequestFor(g: Slots, camera: Vec3, x: int, z: int): TileRequest
    requires Square(g) && InGrid(x, z)
  {
    TileRequest(SlotPosition(CameraReferencePos(camera), x, z), SlotIdealLod(g[z][x], x, z, camera), (x, z), RunnerTileDim)
  }

  /** The requests for the first `n` slots of row `z`, in order. */
  function RowRequests(g: Slots, camera: Vec3, z: int, n: int): seq<TileRequest>
    requires Square(g) && 0 <= z < NumTiles && 0 <= n <= NumTiles
    decreases n
  {
    if n == 0 then []
    else
      var x := n - 1;
      RowRequests(g, camera, z, x) + (if Upgrades(g[z][x], SlotIdealLod(g[z][x], x, z, camera)) then [RequestFor(g, camera, x, z)] else [])
  }

  /** The requests for the first `m` rows, in order. */
  function GridRequests(g: Slots, camera: Vec3, m: int): seq<TileRequest>
    requires Square(g) && 0 <= m <= NumTiles
    decreases m
  {
    if m == 0 then [] else GridRequests(g, camera, m - 1) + RowRequests(g, camera, m - 1, NumTiles)
  }

  /** Whether `r` is the request for a slot among the first `n` of row `z` that wants a tile. */
  predicate RequestedInRow(g: Slots, camera: Vec3, z: int, n: int, r: TileRequest)
    requires Square(g) && 0 <= z < NumTiles && 0 <= n <= NumTiles
  {
    var (x, z') := r.relativePosition;
    && z' == z && 0 <= x < n
    && Upgrades(g[z][x], SlotIdealLod(g[z][x], x, z, camera))
    && r == RequestFor(g, camera, x, z)
  }

  lemma {:induction false} RowRequestsMembers(g: Slots, camera: Vec3, z: int, n: int)
    requires Square(g) && 0 <= z < NumTiles && 0 <= n <= NumTiles
    ensures forall r :: r in RowRequests(g, camera, z, n) <==> RequestedInRow(g, camera, z, n, r)
    decreases n
  {
    if n > 0 {
      RowRequestsMembers(g, camera, z, n - 1);
    }
  }

  /**
   * The request loop asks for exactly the slots that are empty or below
   * their ideal LOD, at the slot's position around the camera's
   * reference and at the ideal LOD.
   */
  lemma {:induction false} GridRequestsMembers(g: Slots, camera: Vec3, m: int)
    requires Square(g) && 0 <= m <= NumTiles
    ensures forall r :: r in GridRequests(g, camera, m) <==>
      0 <= r.relativePosition.1 < m && RequestedInRow(g, camera, r.relativePosition.1, NumTiles, r)
    decreases m
  {
    if m > 0 {
      var earlier, row := GridRequests(g, camera, m - 1), RowRequests(g, camera, m - 1, NumTiles);
      GridRequestsMembers(g, camera, m - 1);
      RowRequestsMembers(g, camera, m - 1, NumTiles);
      assert GridRequests(g, camera, m) == earlier + row;
      forall r: TileRequest ensures r in earlier + row <==> 0 <= r.relativePosition.1 < m && RequestedInRow(g, camera, r.relativePosition.1, NumTiles, r) {
        assert r in earlier + row <==> r in earlier || r in row;
      }
    }
  }

  /** The outcome of a delivered tile in `workerOnMessage`. */
  datatype Delivery =
    | Installed(x: int, z: int)
    | Declined
    /** The row index is fractional: reading `tiles[z][x]` throws a TypeError. */
    | RowMissing
    /** The column index is fractional: the tile lands on a property of the row array, not in a slot. */
    | OffGrid

  /** Where `workerOnMessage` puts a tile delivered for `request`. */
  function DeliveryFor(g: Slots, camera: Vec3, request: TileRequest): Delivery
    requires Square(g)
  {
    var ref := CameraReferencePos(camera);
    var x := (request.position.x - ref.x) / RunnerTileDim.x + Mid as real;
    var z := (request.position.z - ref.z) / RunnerTileDim.z + Mid as real;
    if !(0.0 <= x < NumTiles as real && 0.0 <= z < NumTiles as real) then Declined
    else if z.Floor as real != z then RowMissing
    else if x.Floor as real != x then OffGrid
    else if Upgrades(g[z.Floor][x.Floor], request.lod) then Installed(x.Floor, z.Floor)
    else Declined
  }

  /** Slot (x, z) set to `tile`. */
  function Install(g: Slots, x: int, z: int, tile: Tile): (g': Slots)
    requires Square(g) && InGrid(x, z)
    ensures Square(g')
  {
    g[z := g[z][x := Some(tile)]]
  }

  lemma SlotOfPosition(ref: real, k: int)
    ensures (ref + 56.0 * (k - Mid) as real - ref) / 56.0 + Mid as real == k as real
  {
    QuotientUnique(56.0 * (k - Mid) as real, 56.0, (k - Mid) as real);
  }

  /**
   * A tile requested for slot (x, z) and delivered while the camera is in
   * the same reference cell goes back to slot (x, z), if that slot still
   * wants it.
   */
  lemma DeliveryFindsRequestedSlot(g: Slots, camera: Vec3, x: int, z: int, g': Slots, camera': Vec3)
    requires Square(g) && Square(g') && InGrid(x, z)
    requires CameraReferencePos(camera') == CameraReferencePos(camera)
    ensures var request := RequestFor(g, camera, x, z);
      DeliveryFor(g', camera', request) == if Upgrades(g'[z][x], request.lod) then Installed(x, z) else Declined
  {
    var ref := CameraReferencePos(camera);
    SlotOfPosition(ref.x, x);
    SlotOfPosition(ref.z, z);
  }

  /** An installed tile sits at its slot's position, so installing keeps the grid aligned. */
  lemma InstallKeepsAlignment(g: Slots, camera: Vec3, request: TileRequest)
    requires Square(g) && Aligned(g, CameraReferencePos(camera))
    requires DeliveryFor(g, camera, request).Installed? && request.position.y == -RunnerTileDim.y / 2.0
    ensures var d := DeliveryFor(g, camera, request);
      Aligned(Install(g, d.x, d.z, Tile(request.lod, request.position)), CameraReferencePos(camera))
  {
    var ref := CameraReferencePos(camera);
    var d := DeliveryFor(g, camera, request);
    IndexGivesPosition(request.position.x, ref.x, d.x);
    IndexGivesPosition(request.position.z, ref.z, d.z);
  }

  lemma IndexGivesPosition(p: real, ref: real, k: int)
    requires (p - ref) / 56.0 + Mid as real == k as real
    ensures p == ref + 56.0 * (k - Mid) as real
  {
    assert (p - ref) / 56.0 == (k - Mid) as real;
  }

  /** A tile delivered twice is installed once: the second delivery is declined. */
  lemma DeliveryIdempotent(g: Slots, camera: Vec3, request: TileRequest)
    requires Square(g) && DeliveryFor(g, camera, request).Installed?
    ensures var d := DeliveryFor(g, camera, request);
      DeliveryFor(Install(g, d.x, d.z, Tile(request.lod, request.position)), camera, request) == Declined
  {
  }

  /** The grid after the first step of `manageTiles`: an empty centre slot gets an LOD-2 tile at the camera's reference. */
  function WithCentre(g: Slots, camera: Vec3): (g': Slots)
    requires Square(g)
    ensures Square(g') && g'[Mid][Mid].Some?
  {
    if g[Mid][Mid].Some? then g
    else g[Mid := g[Mid][Mid := Some(Tile(2, SlotPosition(CameraReferencePos(camera), Mid, Mid)))]]
  }

  /** The offsets `manageTiles` shifts by: the relative position of the centre tile. */
  function CentreOffset(g: Slots, camera: Vec3): (int, int)
    requires Square(g)
  {
    TileRelativePos(camera, WithCentre(g, camera)[Mid][Mid].value.position)
  }

  /** The grid `manageTiles` leaves: centre filled, then shifted along x and z. */
  function ManagedGrid(g: Slots, camera: Vec3): (g': Slots)
    requires Square(g)
    ensures Square(g')
  {
    ShiftFor(WithCentre(g, camera), CentreOffset(g, camera))
  }

  /** The tiles in the first `n` slots of column `x`, in row order. */
  function ColumnTiles(g: Slots, x: int, n: int): seq<Tile>
    requires Square(g) && 0 <= x < NumTiles && 0 <= n <= NumTiles
    decreases n
  {
    if n == 0 then [] else ColumnTiles(g, x, n - 1) + (if g[n - 1][x].Some? then [g[n - 1][x].value] else [])
  }

  /** The tiles in the first `n` slots of row `z`, in column order. */
  function RowTiles(g: Slots, z: int, n: int): seq<Tile>
    requires Square(g) && 0 <= z < NumTiles && 0 <= n <= NumTiles
    decreases n
  {
    if n == 0 then [] else RowTiles(g, z, n - 1) + (if g[z][n - 1].Some? then [g[z][n - 1].value] else [])
  }

  lemma {:induction false} ColumnTilesMembers(g: Slots, x: int, n: int)
    requires Square(g) && 0 <= x < NumTiles && 0 <= n <= NumTiles
    ensures forall t :: t in ColumnTiles(g, x, n) <==> exists z :: 0 <= z < n && g[z][x] == Some(t)
    decreases n
  {
    if n > 0 {
      ColumnTilesMembers(g, x, n - 1);
    }
  }

  lemma {:induction false} RowTilesMembers(g: Slots, z: int, n: int)
    requires Square(g) && 0 <= z < NumTiles && 0 <= n <= NumTiles
    ensures forall t :: t in RowTiles(g, z, n) <==> exists x :: 0 <= x < n && g[z][x] == Some(t)
    decreases n
  {
    if n > 0 {
      RowTilesMembers(g, z, n - 1);
    }
  }

  /** The tiles the x shift for offset `r` disposes: the column it pushes out. */
  function ColumnDisposals(g: Slots, r: int): seq<Tile>
    requires Square(g)
  {
    if r == -1 then ColumnTiles(g, NumTiles - 1, NumTiles) else if r == 1 then ColumnTiles(g, 0, NumTiles) else []
  }

  /** The tiles the z shift for offset `r` disposes: the row it pushes out. */
  function RowDisposals(g: Slots, r: int): seq<Tile>
    requires Square(g)
  {
    if r == -1 then RowTiles(g, NumTiles - 1, NumTiles) else if r == 1 then RowTiles(g, 0, NumTiles) else []
  }

  /** The tiles `manageTiles` disposes, in order. */
  function ManagedDisposals(g: Slots, camera: Vec3): seq<Tile>
    requires Square(g)
  {
    var g1 := WithCentre(g, camera);
    var r := CentreOffset(g, camera);
    ColumnDisposals(g1, r.0) + RowDisposals(ShiftAlongX(g1, r.0), r.1)
  }

  /** The column an x shift for offset `r` pushes out of the grid. */
  function DroppedColumn(r: int): int {
    if r == -1 then NumTiles - 1 else 0
  }

  /** The row a z shift for offset `r` pushes out of the grid. */
  function DroppedRow(r: int): int {
    if r == -1 then NumTiles - 1 else 0
  }

  /**
   * No tile leaks from an x shift: every tile of the column the shift
   * pushes out is disposed, and no other tile is.
   */
  lemma ShiftXDisposesDropped(g: Slots, r: int)
    requires Square(g) && (r == -1 || r == 1)
    ensures forall t :: t in ColumnDisposals(g, r) <==> exists z :: 0 <= z < NumTiles && g[z][DroppedColumn(r)] == Some(t)
  {
    ColumnTilesMembers(g, DroppedColumn(r), NumTiles);
  }

  /** No tile leaks from a z shift: exactly the tiles of the row it pushes out are disposed. */
  lemma ShiftZDisposesDropped(g: Slots, r: int)
    requires Square(g) && (r == -1 || r == 1)
    ensures forall t :: t in RowDisposals(g, r) <==> exists x :: 0 <= x < NumTiles && g[DroppedRow(r)][x] == Some(t)
  {
    RowTilesMembers(g, DroppedRow(r), NumTiles);
  }

  /** Filling an empty centre at the camera's reference keeps a grid aligned with that reference. */
  lemma CentreKeepsAlignment(g: Slots, camera: Vec3)
    requires Square(g) && Aligned(g, CameraReferencePos(camera))
    ensures Aligned(WithCentre(g, camera), CameraReferencePos(camera))
  {
  }

  /** Whether the camera's reference moved by at most one tile along x and along z. */
  predicate WithinOneTile(before: Vec3, after: Vec3) {
    var a, b := CameraReferencePos(before), CameraReferencePos(after);
    a.x - RunnerTileDim.x <= b.x <= a.x + RunnerTileDim.x && a.z - RunnerTileDim.z <= b.z <= a.z + RunnerTileDim.z
  }

  /**
   * One frame keeps the grid aligned with the camera: a grid aligned with
   * the reference of the camera's last position is aligned with the new
   * reference after `manageTiles`, provided the camera crossed at most one
   * tile edge per axis and the centre is occupied or the reference has not
   * moved.
   */
  lemma FrameKeepsAlignment(g: Slots, before: Vec3, after: Vec3)
    requires Square(g) && Aligned(g, CameraReferencePos(before)) && WithinOneTile(before, after)
    requires g[Mid][Mid].Some? || CameraReferencePos(after) == CameraReferencePos(before)
    ensures Aligned(ManagedGrid(g, after), CameraReferencePos(after))
  {
    var kx, kz := (before.x / 56.0).Floor, (before.z / 56.0).Floor;
    ReferenceOnLattice(before.x);
    ReferenceOnLattice(before.z);
    var g1 := WithCentre(g, after);
    if g[Mid][Mid].None? {
      CentreKeepsAlignment(g, after);
    }
    assert Aligned(g1, Vec3(Lattice(kx), 0.0, Lattice(kz)));
    ShiftRealigns(g1, kx, kz, after);
  }

  /** A grid whose only tile is `tile`, in slot (x, z). */
  function LoneTile(tile: Tile, x: int, z: int): (g: Slots)
    ensures Square(g)
  {
    seq(NumTiles, r requires 0 <= r < NumTiles => seq(NumTiles, c requires 0 <= c < NumTiles => if c == x && r == z then Some(tile) else None))
  }

  /**
   * A shift refills the centre slot from a neighbouring slot, which may be
   * empty. When the camera then crosses a cell edge, the centre tile is
   * placed at the new reference, its offset is (0, 0) and nothing shifts, so
   * the other tiles keep the old reference. Here the camera moves one tile
   * along z, from (28, 5, 28) to (28, 5, 84), over an aligned grid whose
   * only tile is in slot (24, 25).
   */
  lemma EmptyCentreMisaligns()
    ensures var before, after := Vec3(28.0, 5.0, 28.0), Vec3(28.0, 5.0, 84.0);
      var g := LoneTile(Tile(1, SlotPosition(CameraReferencePos(before), 24, Mid)), 24, Mid);
      && Aligned(g, CameraReferencePos(before)) && WithinOneTile(before, after) && g[Mid][Mid].None?
      && CentreOffset(g, after) == (0, 0)
      && !Aligned(ManagedGrid(g, after), CameraReferencePos(after))
  {
    var before, after := Vec3(28.0, 5.0, 28.0), Vec3(28.0, 5.0, 84.0);
    ReferenceIsCellCorner(before, 0, 0);
    ReferenceIsCellCorner(after, 0, 1);
    var tile := Tile(1, SlotPosition(CameraReferencePos(before), 24, Mid));
    var g := LoneTile(tile, 24, Mid);
    RelativePosTracksReference(after, 0, 1, -RunnerTileDim.y / 2.0);
    assert CentreOffset(g, after) == (0, 0);
    assert ManagedGrid(g, after)[Mid][24] == Some(tile);
  }
}

/**
 * The runner's tile grid (src/core/runner.ts): a 51 x 51 array of slots,
 * indexed [z, x], kept centred on the camera. Each frame `manageTiles`
 * fills an empty centre slot, shifts the slots when the camera has left
 * the centre tile, disposing the tiles pushed out, and requests every slot
 * that is empty or below its ideal LOD; `workerOnMessage` installs a
 * delivered tile in its slot. Requests to the tile manager are logged in
 * `requested`, disposed tiles in `disposed`.
 */
module Runner {
  import opened Interfaces
  import opened Wrappers
  import opened TileGrid

  /** Whether array `a` holds grid `g`, slot for slot. */
  ghost predicate Holds(a: array2<Option<Tile>>, g: Slots)
    reads a
  {
    && a.Length0 == NumTiles && a.Length1 == NumTiles && Square(g)
    && forall z, x :: 0 <= z < NumTiles && 0 <= x < NumTiles ==> a[z, x] == g[z][x]
  }

  /** Two grids with the same slots are the same grid. */
  lemma SameSlots(g: Slots, h: Slots)
    requires Square(g) && Square(h)
    requires forall z, x :: 0 <= z < NumTiles && 0 <= x < NumTiles ==> g[z][x] == h[z][x]
    ensures g == h
  {
    forall z | 0 <= z < NumTiles
      ensures g[z] == h[z]
    {
      assert forall x :: 0 <= x < NumTiles ==> g[z][x] == h[z][x];
    }
  }

  /** `h` is `g` with column `x` replaced by column `s` and, when `clear`, column `s` emptied. */
  ghost predicate ColumnCopied(g: Slots, h: Slots, x: int, s: int, clear: bool)
    requires Square(g) && Square(h) && 0 <= x < NumTiles && 0 <= s < NumTiles
  {
    forall r, c {:trigger h[r][c]} :: 0 <= r < NumTiles && 0 <= c < NumTiles ==>
      h[r][c] == if c == x then g[r][s] else if clear && c == s then None else g[r][c]
  }

  /** `h` is `g` with row `z` replaced by row `s` and, when `clear`, row `s` emptied. */
  ghost predicate RowCopied(g: Slots, h: Slots, z: int, s: int, clear: bool)
    requires Square(g) && Square(h) && 0 <= z < NumTiles && 0 <= s < NumTiles
  {
    forall r, c {:trigger h[r][c]} :: 0 <= r < NumTiles && 0 <= c < NumTiles ==>
      h[r][c] == if r == z then g[s][c] else if clear && r == s then None else g[r][c]
  }

  /** Part way through the x shift for offset -1: the columns above `x` hold their left neighbours in `g`. */
  ghost predicate ColumnsMovedUp(g: Slots, h: Slots, x: int)
    requires Square(g) && Square(h) && 0 <= x < NumTiles
  {
    forall r, c {:trigger h[r][c]} :: 0 <= r < NumTiles && 0 <= c < NumTiles ==>
      h[r][c] == if c > x then g[r][c - 1] else if c == x == 0 then None else g[r][c]
  }

  /** Part way through the x shift for offset 1: the columns below `x` hold their right neighbours in `g`. */
  ghost predicate ColumnsMovedDown(g: Slots, h: Slots, x: int)
    requires Square(g) && Square(h) && 0 <= x < NumTiles
  {
    forall r, c {:trigger h[r][c]} :: 0 <= r < NumTiles && 0 <= c < NumTiles ==>
      h[r][c] == if c < x then g[r][c + 1] else if c == x == NumTiles - 1 then None else g[r][c]
  }

  /** Part way through the z shift for offset -1: the rows above `z` hold the rows before them in `g`. */
  ghost predicate RowsMovedUp(g: Slots, h: Slots, z: int)
    requires Square(g) && Square(h) && 0 <= z < NumTiles
  {
    forall r, c {:trigger h[r][c]} :: 0 <= r < NumTiles && 0 <= c < NumTiles ==>
      h[r][c] == if r > z then g[r - 1][c] else if r == z == 0 then None else g[r][c]
  }

  /** Part way through the z shift for offset 1: the rows below `z` hold the rows after them in `g`. */
  ghost predicate RowsMovedDown(g: Slots, h: Slots, z: int)
    requires Square(g) && Square(h) && 0 <= z < NumTiles
  {
    forall r, c {:trigger h[r][c]} :: 0 <= r < NumTiles && 0 <= c < NumTiles ==>
      h[r][c] == if r < z then g[r + 1][c] else if r == z == NumTiles - 1 then None else g[r][c]
  }

  lemma ColumnsUpStep(g: Slots, h: Slots, h': Slots, x: int)
    requires Square(g) && Square(h) && Square(h') && 0 < x < NumTiles
    requires ColumnsMovedUp(g, h, x) && ColumnCopied(h, h', x, x - 1, x == 1)
    ensures ColumnsMovedUp(g, h', x - 1)
  {
  }

  lemma ColumnsDownStep(g: Slots, h: Slots, h': Slots, x: int)
    requires Square(g) && Square(h) && Square(h') && 0 <= x < NumTiles - 1
    requires ColumnsMovedDown(g, h, x) && ColumnCopied(h, h', x, x + 1, x == NumTiles - 2)
    ensures ColumnsMovedDown(g, h', x + 1)
  {
  }

  lemma RowsUpStep(g: Slots, h: Slots, h': Slots, z: int)
    requires Square(g) && Square(h) && Square(h') && 0 < z < NumTiles
    requires RowsMovedUp(g, h, z) && RowCopied(h, h', z, z - 1, z == 1)
    ensures RowsMovedUp(g, h', z - 1)
  {
  }

  lemma RowsDownStep(g: Slots, h: Slots, h': Slots, z: int)
    requires Square(g) && Square(h) && Square(h') && 0 <= z < NumTiles - 1
    requires RowsMovedDown(g, h, z) && RowCopied(h, h', z, z + 1, z == NumTiles - 2)
    ensures RowsMovedDown(g, h', z + 1)
  {
  }

  /** The slots before the game starts: all empty. */
  function EmptyGrid(): (g: Slots)
    ensures Square(g)
  {
    seq(NumTiles, z requires 0 <= z < NumTiles => seq(NumTiles, x requires 0 <= x < NumTiles => None))
  }

  /** A log that grew from `start` by `rows`, then by `row`, grew from `start` by `rows + row`. */
  lemma AppendedInTurn<T>(start: seq<T>, before: seq<T>, after: seq<T>, rows: seq<T>, row: seq<T>)
    requires before == start + rows && after == before + row
    ensures after == start + (rows + row)
  {
    assert start + rows + row == start + (rows + row);
  }

  /** The offset read off the centre tile after the centre step is the offset `manageTiles` shifts by. */
  lemma CentreStep(g0: Slots, g1: Slots, camera: Vec3, r: (int, int))
    requires Square(g0) && g1 == WithCentre(g0, camera)
    requires r == TileRelativePos(camera, g1[Mid][Mid].value.position)
    ensures r == CentreOffset(g0, camera)
  {
  }

  /** The centre step followed by the shifts for the centre tile's offset is what `manageTiles` does to the grid. */
  lemma ManagedSteps(g0: Slots, g1: Slots, g2: Slots, d0: seq<Tile>, d2: seq<Tile>, camera: Vec3, r: (int, int))
    requires Square(g0) && g1 == WithCentre(g0, camera)
    requires r == TileRelativePos(camera, g1[Mid][Mid].value.position)
    requires g2 == ShiftFor(g1, r)
    requires d2 == d0 + ColumnDisposals(g1, r.0) + RowDisposals(ShiftAlongX(g1, r.0), r.1)
    ensures g2 == ManagedGrid(g0, camera) && d2 == d0 + ManagedDisposals(g0, camera)
  {
    CentreStep(g0, g1, camera, r);
    var columns, rows := ColumnDisposals(g1, r.0), RowDisposals(ShiftAlongX(g1, r.0), r.1);
    assert ManagedDisposals(g0, camera) == columns + rows;
    AppendedInTurn(d0, d0 + columns, d2, columns, rows);
  }

  class Runner {
    /** `tiles`, indexed [z, x]. */
    var tiles: array2<Option<Tile>>
    /** The slots as a value. */
    ghost var slots: Slots
    /** The camera's position. */
    var camera: Vec3
    /** The requests sent to the tile manager, in order. */
    var requested: seq<TileRequest>
    /** The tiles whose meshes were removed from the scene and disposed, in order. */
    var disposed: seq<Tile>

    /** The array holds the slots. */
    ghost predicate Valid()
      reads this`tiles, this`slots, tiles
    {
      Holds(tiles, slots)
    }

    /** The grid is aligned with the camera's reference position. */
    ghost predicate Tracking()
      reads this`tiles, this`slots, this`camera, tiles
    {
      Valid() && Aligned(slots, CameraReferencePos(camera))
    }

    /** The slots start empty, with the camera over the middle of the cell at the origin. */
    constructor()
      ensures Valid() && fresh(tiles) && slots == EmptyGrid() && Tracking()
      ensures camera == Vec3(RunnerTileDim.x / 2.0, 5.0, RunnerTileDim.z / 2.0)
      ensures requested == [] && disposed == []
    {
      tiles := new Option<Tile>[NumTiles, NumTiles]((z, x) => None);
      slots := EmptyGrid();
      camera := Vec3(RunnerTileDim.x / 2.0, 5.0, RunnerTileDim.z / 2.0);
      requested := [];
      disposed := [];
    }

    /** Sets slot (x, z), in the array and in its value view. */
    method Put(x: int, z: int, slot: Option<Tile>)
      requires Valid() && InGrid(x, z)
      modifies tiles, this`slots
      ensures Valid() && slots == old(slots)[z := old(slots)[z][x := slot]]
    {
      tiles[z, x] := slot;
      slots := slots[z := slots[z][x := slot]];
    }

    /** `disposeTile`: an occupied slot's tile is disposed and the slot emptied; an empty slot is left alone. */
    method DisposeTile(x: int, z: int)
      requires Valid() && InGrid(x, z)
      modifies tiles, this`slots, this`disposed
      ensures Valid() && slots == old(slots)[z := old(slots)[z][x := None]]
      ensures disposed == old(disposed) + if old(slots)[z][x].Some? then [old(slots)[z][x].value] else []
    {
      if tiles[z, x].None? {
        assert slots[z][x := None] == slots[z];
        return;
      }
      disposed := disposed + [tiles[z, x].value];
      Put(x, z, None);
    }

    /**
     * The inner loop of an x shift: in every row, slot `x` takes slot `s`,
     * after the old tile of slot `x` is disposed when `drop`, and slot `s`
     * is emptied when `clear`.
     */
    method ShiftColumn(x: int, s: int, drop: bool, clear: bool)
      requires Valid() && 0 <= x < NumTiles && 0 <= s < NumTiles && x != s
      modifies tiles, this`slots, this`disposed
      ensures Valid()
      ensures ColumnCopied(old(slots), slots, x, s, clear)
      ensures drop ==> disposed == old(disposed) + ColumnTiles(old(slots), x, NumTiles)
      ensures !drop ==> disposed == old(disposed)
    {
      ghost var g := slots;
      ghost var before := disposed;
      for z := 0 to NumTiles
        invariant Valid()
        invariant forall r, c {:trigger slots[r][c]} :: 0 <= r < NumTiles && 0 <= c < NumTiles ==>
          slots[r][c] == if r < z && c == x then g[r][s] else if r < z && clear && c == s then None else g[r][c]
        invariant drop ==> disposed == before + ColumnTiles(g, x, z)
        invariant !drop ==> disposed == before
      {
        if drop {
          DisposeTile(x, z);
        }
        Put(x, z, tiles[z, s]);
        if clear {
          Put(s, z, None);
        }
      }
    }

    /** The inner loop of a z shift: in every column, slot `z` takes slot `s`, as `ShiftColumn` for rows. */
    method ShiftRow(z: int, s: int, drop: bool, clear: bool)
      requires Valid() && 0 <= z < NumTiles && 0 <= s < NumTiles && z != s
      modifies tiles, this`slots, this`disposed
      ensures Valid()
      ensures RowCopied(old(slots), slots, z, s, clear)
      ensures drop ==> disposed == old(disposed) + RowTiles(old(slots), z, NumTiles)
      ensures !drop ==> disposed == old(disposed)
    {
      ghost var g := slots;
      ghost var before := disposed;
      for x := 0 to NumTiles
        invariant Valid()
        invariant forall r, c {:trigger slots[r][c]} :: 0 <= r < NumTiles && 0 <= c < NumTiles ==>
          slots[r][c] == if c < x && r == z then g[s][c] else if c < x && clear && r == s then None else g[r][c]
        invariant drop ==> disposed == before + RowTiles(g, z, x)
        invariant !drop ==> disposed == before
      {
        if drop {
          DisposeTile(x, z);
        }
        Put(x, z, tiles[s, x]);
        if clear {
          Put(x, s, None);
        }
      }
    }

    /** Offset -1 along x: every slot takes its neighbour at x - 1, the last column is disposed, column 0 emptied. */
    method ShiftColumnsUp()
      requires Valid()
      modifies tiles, this`slots, this`disposed
      ensures Valid() && slots == ShiftAlongX(old(slots), -1)
      ensures disposed == old(disposed) + ColumnDisposals(old(slots), -1)
    {
      ghost var g := slots;
      ghost var before := disposed;
      var x := NumTiles - 1;
      while x > 0
        invariant 0 <= x < NumTiles && Valid()
        invariant ColumnsMovedUp(g, slots, x)
        invariant x < NumTiles - 1 ==> disposed == before + ColumnTiles(g, NumTiles - 1, NumTiles)
        invariant x == NumTiles - 1 ==> disposed == before
        decreases x
      {
        if x == NumTiles - 1 {
          SameSlots(slots, g);
        }
        ghost var h := slots;
        ShiftColumn(x, x - 1, x == NumTiles - 1, x == 1);
        ColumnsUpStep(g, h, slots, x);
        x := x - 1;
      }
      SameSlots(slots, ShiftX(g, 1));
    }

    /** Offset 1 along x: every slot takes its neighbour at x + 1, column 0 is disposed, the last column emptied. */
    method ShiftColumnsDown()
      requires Valid()
      modifies tiles, this`slots, this`disposed
      ensures Valid() && slots == ShiftAlongX(old(slots), 1)
      ensures disposed == old(disposed) + ColumnDisposals(old(slots), 1)
    {
      ghost var g := slots;
      ghost var before := disposed;
      for x := 0 to NumTiles - 1
        invariant Valid()
        invariant ColumnsMovedDown(g, slots, x)
        invariant x > 0 ==> disposed == before + ColumnTiles(g, 0, NumTiles)
        invariant x == 0 ==> disposed == before
      {
        if x == 0 {
          SameSlots(slots, g);
        }
        ghost var h := slots;
        ShiftColumn(x, x + 1, x == 0, x == NumTiles - 2);
        ColumnsDownStep(g, h, slots, x);
      }
      SameSlots(slots, ShiftX(g, -1));
    }

    /** Offset -1 along z: every row takes the row at z - 1, the last row is disposed, row 0 emptied. */
    method ShiftRowsUp()
      requires Valid()
      modifies tiles, this`slots, this`disposed
      ensures Valid() && slots == ShiftAlongZ(old(slots), -1)
      ensures disposed == old(disposed) + RowDisposals(old(slots), -1)
    {
      ghost var g := slots;
      ghost var before := disposed;
      var z := NumTiles - 1;
      while z > 0
        invariant 0 <= z < NumTiles && Valid()
        invariant RowsMovedUp(g, slots, z)
        invariant z < NumTiles - 1 ==> disposed == before + RowTiles(g, NumTiles - 1, NumTiles)
        invariant z == NumTiles - 1 ==> disposed == before
        decreases z
      {
        if z == NumTiles - 1 {
          SameSlots(slots, g);
        }
        ghost var h := slots;
        ShiftRow(z, z - 1, z == NumTiles - 1, z == 1);
        RowsUpStep(g, h, slots, z);
        z := z - 1;
      }
      SameSlots(slots, ShiftZ(g, 1));
    }

    /** Offset 1 along z: every row takes the row at z + 1, row 0 is disposed, the last row emptied. */
    method ShiftRowsDown()
      requires Valid()
      modifies tiles, this`slots, this`disposed
      ensures Valid() && slots == ShiftAlongZ(old(slots), 1)
      ensures disposed == old(disposed) + RowDisposals(old(slots), 1)
    {
      ghost var g := slots;
      ghost var before := disposed;
      for z := 0 to NumTiles - 1
        invariant Valid()
        invariant RowsMovedDown(g, slots, z)
        invariant z > 0 ==> disposed == before + RowTiles(g, 0, NumTiles)
        invariant z == 0 ==> disposed == before
      {
        if z == 0 {
          SameSlots(slots, g);
        }
        ghost var h := slots;
        ShiftRow(z, z + 1, z == 0, z == NumTiles - 2);
        RowsDownStep(g, h, slots, z);
      }
      SameSlots(slots, ShiftZ(g, -1));
    }

    /** One row of the request loop of `manageTiles`: each slot of row `z` that is empty or below its ideal LOD is requested. */
    method RequestRow(z: int)
      requires Valid() && 0 <= z < NumTiles
      modifies this`requested
      ensures Valid() && requested == old(requested) + RowRequests(slots, camera, z, NumTiles)
    {
      ghost var g := slots;
      var a, cam := tiles, camera;
      var ref := CameraReferencePos(cam);
      assert Holds(a, g);
      for x := 0 to NumTiles
        invariant requested == old(requested) + RowRequests(g, cam, z, x)
      {
        var slot := a[z, x];
        assert slot == g[z][x];
        var lod := SlotIdealLod(slot, x, z, cam);
        if slot.None? || slot.value.lod < lod {
          requested := requested + [TileRequest(SlotPosition(ref, x, z), lod, (x, z), RunnerTileDim)];
        }
      }
    }

    /** The request loop of `manageTiles`, row by row. */
    method RequestTiles()
      requires Valid()
      modifies this`requested
      ensures Valid() && requested == old(requested) + GridRequests(slots, camera, NumTiles)
    {
      ghost var g := slots;
      var cam := camera;
      for z := 0 to NumTiles
        invariant Valid() && slots == g && camera == cam
        invariant requested == old(requested) + GridRequests(g, cam, z)
      {
        ghost var before := requested;
        RequestRow(z);
        AppendedInTurn(old(requested), before, requested, GridRequests(g, cam, z), RowRequests(g, cam, z, NumTiles));
      }
    }

    /** The first step of `manageTiles`: an empty centre slot gets an LOD-2 tile at the camera's reference. */
    method PlaceCentre()
      requires Valid()
      modifies tiles, this`slots
      ensures Valid() && slots == WithCentre(old(slots), camera)
    {
      if tiles[Mid, Mid].None? {
        var ref := CameraReferencePos(camera);
        Put(Mid, Mid, Some(Tile(2, Vec3(ref.x, -RunnerTileDim.y / 2.0, ref.z))));
      }
    }

    /** The shifts of `manageTiles` for the centre tile's offset `r`: along x first, then along z. */
    method ShiftBy(r: (int, int))
      requires Valid()
      modifies tiles, this`slots, this`disposed
      ensures Valid() && slots == ShiftFor(old(slots), r)
      ensures disposed == old(disposed) + ColumnDisposals(old(slots), r.0) + RowDisposals(ShiftAlongX(old(slots), r.0), r.1)
    {
      if r.0 == -1 {
        ShiftColumnsUp();
      }
      if r.0 == 1 {
        ShiftColumnsDown();
      }
      ghost var shifted := slots;
      ghost var dropped := disposed;
      assert shifted == ShiftAlongX(old(slots), r.0);
      assert dropped == old(disposed) + ColumnDisposals(old(slots), r.0);
      if r.1 == -1 {
        ShiftRowsUp();
      }
      if r.1 == 1 {
        ShiftRowsDown();
      }
      assert slots == ShiftAlongZ(shifted, r.1);
      assert disposed == dropped + RowDisposals(shifted, r.1);
    }

    /** The slot updates of `manageTiles`: the centre step, then the shifts for the centre tile's offset. */
    method UpdateSlots()
      requires Valid()
      modifies tiles, this`slots, this`disposed
      ensures Valid()
      ensures slots == ManagedGrid(old(slots), camera)
      ensures disposed == old(disposed) + ManagedDisposals(old(slots), camera)
    {
      ghost var g0, d0 := slots, disposed;
      PlaceCentre();
      ghost var g1 := slots;
      var relativePos := TileRelativePos(camera, tiles[Mid, Mid].value.position);
      ShiftBy(relativePos);
      ManagedSteps(g0, g1, slots, d0, disposed, camera, relativePos);
    }

    /**
     * `manageTiles`: an empty centre slot gets an LOD-2 tile at the
     * camera's reference; the slots shift by the centre tile's relative
     * position, first along x, then along z; then every slot that wants a
     * tile is requested.
     */
    method ManageTiles()
      requires Valid()
      modifies tiles, this`slots, this`disposed, this`requested
      ensures Valid()
      ensures slots == ManagedGrid(old(slots), camera)
      ensures disposed == old(disposed) + ManagedDisposals(old(slots), camera)
      ensures requested == old(requested) + GridRequests(slots, camera, NumTiles)
    {
      UpdateSlots();
      RequestTiles();
    }

    /**
     * One frame of the render loop: the camera moves to `position`, then
     * `manageTiles` runs. If the camera crossed at most one tile edge per
     * axis, the grid stays aligned with it.
     */
    method Frame(position: Vec3)
      requires Tracking() && WithinOneTile(camera, position)
      requires slots[Mid][Mid].Some? || CameraReferencePos(position) == CameraReferencePos(camera)
      modifies this, tiles
      ensures Tracking() && camera == position && tiles == old(tiles)
      ensures slots == ManagedGrid(old(slots), position)
      ensures disposed == old(disposed) + ManagedDisposals(old(slots), position)
      ensures requested == old(requested) + GridRequests(slots, position, NumTiles)
    {
      camera := position;
      ManageTiles();
      FrameKeepsAlignment(old(slots), old(camera), position);
    }

    /**
     * The acceptance logic of `workerOnMessage`: a delivered tile goes to
     * the slot its position names around the camera's current reference,
     * replacing (and disposing) a coarser tile, when that slot is in range
     * and wants it.
     */
    method WorkerOnMessage(request: TileRequest) returns (d: Delivery)
      requires Valid()
      modifies tiles, this`slots, this`disposed
      ensures Valid() && d == DeliveryFor(old(slots), camera, request)
      ensures d.Installed? ==> slots == Install(old(slots), d.x, d.z, Tile(request.lod, request.position))
      ensures d.Installed? ==>
        disposed == old(disposed) + if old(slots)[d.z][d.x].Some? then [old(slots)[d.z][d.x].value] else []
      ensures !d.Installed? ==> slots == old(slots) && disposed == old(disposed)
      ensures old(Tracking()) && request.position.y == -RunnerTileDim.y / 2.0 ==> Tracking()
    {
      var ref := CameraReferencePos(camera);
      var x := (request.position.x - ref.x) / RunnerTileDim.x + Mid as real;
      var z := (request.position.z - ref.z) / RunnerTileDim.z + Mid as real;
      if !(0.0 <= x < NumTiles as real && 0.0 <= z < NumTiles as real) {
        return Declined;
      }
      if z.Floor as real != z {
        return RowMissing;
      }
      if x.Floor as real != x {
        return OffGrid;
      }
      var column, row := x.Floor, z.Floor;
      if !(tiles[row, column].None? || tiles[row, column].value.lod < request.lod) {
        return Declined;
      }
      DisposeTile(column, row);
      ghost var cleared := slots;
      Put(column, row, Some(Tile(request.lod, request.position)));
      d := Installed(column, row);
      assert cleared[row][column := Some(Tile(request.lod, request.position))] == old(slots)[row][column := Some(Tile(request.lod, request.position))];
      if old(Tracking()) && request.position.y == -RunnerTileDim.y / 2.0 {
        InstallKeepsAlignment(old(slots), camera, request);
      }
    }
  }
}

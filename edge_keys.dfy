/**
 * Edge keys of the marching-cubes extractor (src/terrain-gen/marching-cubes.ts).
 * A crossing on a grid edge is identified by the doubled midpoint of the
 * edge, a point of the half-voxel lattice, packed into one integer in base
 * 2^16 (`convertCoordToKey`; the source's `BigInt(2 << 15)`). The source's
 * switch departs from this for edge 4 alone (`EdgeCoordAsWritten`).
 */
module EdgeKeys {
  /** A point of the grid or of the half-voxel lattice. */
  datatype Coord = Coord(x: int, y: int, z: int)

  /** The base of the key encoding, `2 << 15`. */
  const KeyBase: int := 65536

  function ConvertCoordToKey(c: Coord): int {
    c.x * KeyBase * KeyBase + c.y * KeyBase + c.z
  }

  /** The key is injective as long as the y and z components fit one digit. */
  lemma KeyInjective(a: Coord, b: Coord)
    requires 0 <= a.y < KeyBase && 0 <= a.z < KeyBase
    requires 0 <= b.y < KeyBase && 0 <= b.z < KeyBase
    ensures ConvertCoordToKey(a) == ConvertCoordToKey(b) <==> a == b
  {
    if ConvertCoordToKey(a) == ConvertCoordToKey(b) {
      var high := (a.x - b.x) * KeyBase + (a.y - b.y);
      assert high * KeyBase == b.z - a.z;
      assert high == 0;
      assert (a.x - b.x) * KeyBase == b.y - a.y;
    }
  }

  /**
   * Grid point of corner `c` (0..7) of the cube whose lowest corner is
   * (x, y, z): bit 0 of `c` steps in x, bit 1 in y, bit 2 in z. This is the
   * order of the source's v0..v7.
   */
  function Corner(x: int, y: int, z: int, c: int): Coord
    requires 0 <= c < 8
  {
    match c
    case 0 => Coord(x, y, z)
    case 1 => Coord(x + 1, y, z)
    case 2 => Coord(x, y + 1, z)
    case 3 => Coord(x + 1, y + 1, z)
    case 4 => Coord(x, y, z + 1)
    case 5 => Coord(x + 1, y, z + 1)
    case 6 => Coord(x, y + 1, z + 1)
    case _ => Coord(x + 1, y + 1, z + 1)
  }

  /** The two corners that edge `e` of a cube joins, as the source interpolates them. */
  function EdgeEnds(e: int): (int, int)
    requires 0 <= e < 12
  {
    match e
    case 0 => (0, 1)
    case 1 => (1, 3)
    case 2 => (2, 3)
    case 3 => (0, 2)
    case 4 => (4, 5)
    case 5 => (5, 7)
    case 6 => (6, 7)
    case 7 => (4, 6)
    case 8 => (0, 4)
    case 9 => (1, 5)
    case 10 => (3, 7)
    case _ => (2, 6)
  }

  /** A grid edge, given by its two end points. */
  datatype GridEdge = GridEdge(lo: Coord, hi: Coord)

  /** The grid edge that edge `e` of cube (x, y, z) lies on. */
  function EdgeOf(x: int, y: int, z: int, e: int): GridEdge
    requires 0 <= e < 12
  {
    GridEdge(Corner(x, y, z, EdgeEnds(e).0), Corner(x, y, z, EdgeEnds(e).1))
  }

  function Sum(a: Coord, b: Coord): Coord {
    Coord(a.x + b.x, a.y + b.y, a.z + b.z)
  }

  /**
   * The key coordinate of edge `e` of cube (x, y, z), with edge 4 corrected
   * to [2x+1, 2y, 2z+2]: every key coordinate is the sum of the edge's two
   * end points, that is, its doubled midpoint.
   */
  function EdgeCoord(x: int, y: int, z: int, e: int): Coord
    requires 0 <= e < 12
  {
    match e
    case 0 => Coord(2 * x + 1, 2 * y, 2 * z)
    case 1 => Coord(2 * x + 2, 2 * y + 1, 2 * z)
    case 2 => Coord(2 * x + 1, 2 * y + 2, 2 * z)
    case 3 => Coord(2 * x, 2 * y + 1, 2 * z)
    case 4 => Coord(2 * x + 1, 2 * y, 2 * z + 2)
    case 5 => Coord(2 * x + 2, 2 * y + 1, 2 * z + 2)
    case 6 => Coord(2 * x + 1, 2 * y + 2, 2 * z + 2)
    case 7 => Coord(2 * x, 2 * y + 1, 2 * z + 2)
    case 8 => Coord(2 * x, 2 * y, 2 * z + 1)
    case 9 => Coord(2 * x + 2, 2 * y, 2 * z + 1)
    case 10 => Coord(2 * x + 2, 2 * y + 2, 2 * z + 1)
    case _ => Coord(2 * x, 2 * y + 2, 2 * z + 1)
  }

  /** Every corrected key coordinate is the doubled midpoint of the grid edge it names. */
  lemma EdgeCoordIsDoubledMidpoint(x: int, y: int, z: int, e: int)
    requires 0 <= e < 12
    ensures EdgeCoord(x, y, z, e) == Sum(EdgeOf(x, y, z, e).lo, EdgeOf(x, y, z, e).hi)
  {
  }

  /** The key coordinates exactly as the source's switch writes them. */
  function EdgeCoordAsWritten(x: int, y: int, z: int, e: int): Coord
    requires 0 <= e < 12
  {
    if e == 4 then Coord(2 * x, 2 * y, 2 * z + 2) else EdgeCoord(x, y, z, e)
  }

  /** Which key coordinates an extraction uses: the source's switch, or the one with edge 4 corrected. */
  datatype KeyScheme = AsWritten | Corrected

  /** The key of edge `e` of cube (x, y, z) under `scheme`. */
  function EdgeKey(scheme: KeyScheme, x: int, y: int, z: int, e: int): int
    requires 0 <= e < 12
  {
    ConvertCoordToKey(if scheme.Corrected? then EdgeCoord(x, y, z, e) else EdgeCoordAsWritten(x, y, z, e))
  }

  /**
   * As written, edges 1/3 and 2/0 of neighbouring cubes share their key,
   * but edge 4 of cube (x, y, z) and edge 0 of cube (x, y, z + 1) lie on the
   * same grid edge and get different keys, so that crossing is emitted twice.
   */
  lemma SharedEdgesAsWritten(x: int, y: int, z: int)
    ensures EdgeOf(x, y, z, 1) == EdgeOf(x + 1, y, z, 3)
    ensures ConvertCoordToKey(EdgeCoordAsWritten(x, y, z, 1)) == ConvertCoordToKey(EdgeCoordAsWritten(x + 1, y, z, 3))
    ensures EdgeOf(x, y, z, 2) == EdgeOf(x, y + 1, z, 0)
    ensures ConvertCoordToKey(EdgeCoordAsWritten(x, y, z, 2)) == ConvertCoordToKey(EdgeCoordAsWritten(x, y + 1, z, 0))
    ensures EdgeOf(x, y, z, 4) == EdgeOf(x, y, z + 1, 0)
    ensures ConvertCoordToKey(EdgeCoordAsWritten(x, y, z, 4)) != ConvertCoordToKey(EdgeCoordAsWritten(x, y, z + 1, 0))
    ensures EdgeCoordAsWritten(x, y, z, 4) != Sum(EdgeOf(x, y, z, 4).lo, EdgeOf(x, y, z, 4).hi)
  {
  }

  /** Whether `g` goes one unit up along exactly one axis. */
  predicate UnitStep(g: GridEdge) {
    && 0 <= g.hi.x - g.lo.x <= 1 && 0 <= g.hi.y - g.lo.y <= 1 && 0 <= g.hi.z - g.lo.z <= 1
    && (g.hi.x - g.lo.x) + (g.hi.y - g.lo.y) + (g.hi.z - g.lo.z) == 1
  }

  /** Every cube edge is a unit step along one axis, within its cube. */
  lemma EdgeIsUnitStep(x: int, y: int, z: int, e: int)
    requires 0 <= e < 12
    ensures UnitStep(EdgeOf(x, y, z, e))
    ensures var g := EdgeOf(x, y, z, e);
      && x <= g.lo.x && g.hi.x <= x + 1 && y <= g.lo.y && g.hi.y <= y + 1 && z <= g.lo.z && g.hi.z <= z + 1
  {
  }

  /** A unit-step edge is determined by its doubled midpoint: the parity of each component gives its axis. */
  lemma MidpointDeterminesEdge(a: GridEdge, b: GridEdge)
    requires UnitStep(a) && UnitStep(b) && Sum(a.lo, a.hi) == Sum(b.lo, b.hi)
    ensures a == b
  {
  }

  /** Whether a cube's edges have key coordinates with y and z below the key base. */
  predicate CubeInKeyRange(x: int, y: int, z: int) {
    0 <= y && 2 * y + 2 < KeyBase && 0 <= z && 2 * z + 2 < KeyBase
  }

  /**
   * With edge 4 corrected, two cube edges get the same key exactly when they
   * lie on the same grid edge: shared crossings are merged and no others.
   */
  lemma EdgeKeyIdentifiesEdge(x1: int, y1: int, z1: int, e1: int, x2: int, y2: int, z2: int, e2: int)
    requires 0 <= e1 < 12 && 0 <= e2 < 12
    requires CubeInKeyRange(x1, y1, z1) && CubeInKeyRange(x2, y2, z2)
    ensures ConvertCoordToKey(EdgeCoord(x1, y1, z1, e1)) == ConvertCoordToKey(EdgeCoord(x2, y2, z2, e2))
        <==> EdgeOf(x1, y1, z1, e1) == EdgeOf(x2, y2, z2, e2)
  {
    var k1, k2 := EdgeCoord(x1, y1, z1, e1), EdgeCoord(x2, y2, z2, e2);
    var g1, g2 := EdgeOf(x1, y1, z1, e1), EdgeOf(x2, y2, z2, e2);
    EdgeCoordIsDoubledMidpoint(x1, y1, z1, e1);
    EdgeCoordIsDoubledMidpoint(x2, y2, z2, e2);
    EdgeIsUnitStep(x1, y1, z1, e1);
    EdgeIsUnitStep(x2, y2, z2, e2);
    KeyInjective(k1, k2);
    if k1 == k2 {
      MidpointDeterminesEdge(g1, g2);
    }
  }

  /**
   * The source's keys: two cube edges share a key exactly when they lie on
   * the same grid edge and either both or neither is an edge 4. An edge 4
   * therefore shares its vertex only with the same edge of the same cube.
   */
  lemma EdgeKeyAsWrittenIdentifies(x1: int, y1: int, z1: int, e1: int, x2: int, y2: int, z2: int, e2: int)
    requires 0 <= e1 < 12 && 0 <= e2 < 12
    requires CubeInKeyRange(x1, y1, z1) && CubeInKeyRange(x2, y2, z2)
    ensures EdgeKey(AsWritten, x1, y1, z1, e1) == EdgeKey(AsWritten, x2, y2, z2, e2)
        <==> EdgeOf(x1, y1, z1, e1) == EdgeOf(x2, y2, z2, e2) && (e1 == 4 <==> e2 == 4)
  {
    if e1 != 4 && e2 != 4 {
      EdgeKeyIdentifiesEdge(x1, y1, z1, e1, x2, y2, z2, e2);
    } else if e1 == 4 && e2 == 4 {
      KeyInjective(Coord(2 * x1, 2 * y1, 2 * z1 + 2), Coord(2 * x2, 2 * y2, 2 * z2 + 2));
      assert EdgeOf(x1, y1, z1, 4).lo == Coord(x1, y1, z1 + 1);
      assert EdgeOf(x2, y2, z2, 4).lo == Coord(x2, y2, z2 + 1);
    } else if e1 == 4 {
      CornerKeyMissesEdges(x1, y1, z1, x2, y2, z2, e2);
    } else {
      CornerKeyMissesEdges(x2, y2, z2, x1, y1, z1, e1);
    }
  }

  /**
   * The source's edge 4 coordinate is even on every axis, while a doubled
   * midpoint is odd on one, so no other edge shares an edge 4 key.
   */
  lemma CornerKeyMissesEdges(x1: int, y1: int, z1: int, x2: int, y2: int, z2: int, e2: int)
    requires 0 <= e2 < 12 && e2 != 4
    requires CubeInKeyRange(x1, y1, z1) && CubeInKeyRange(x2, y2, z2)
    ensures EdgeKey(AsWritten, x1, y1, z1, 4) != EdgeKey(AsWritten, x2, y2, z2, e2)
  {
    var k1, k2 := Coord(2 * x1, 2 * y1, 2 * z1 + 2), EdgeCoord(x2, y2, z2, e2);
    var g2 := EdgeOf(x2, y2, z2, e2);
    EdgeCoordIsDoubledMidpoint(x2, y2, z2, e2);
    EdgeIsUnitStep(x2, y2, z2, e2);
    KeyInjective(k1, k2);
    MidpointIsOddSomewhere(g2);
  }

  /** The doubled midpoint of a unit-step edge is odd along the edge's axis. */
  lemma MidpointIsOddSomewhere(g: GridEdge)
    requires UnitStep(g)
    ensures var m := Sum(g.lo, g.hi); m.x % 2 == 1 || m.y % 2 == 1 || m.z % 2 == 1
  {
  }

  /** Whether cube (x, y, z) is one the extractor visits in a grid of dimX x dimY x dimZ points. */
  predicate CubeOfGrid(x: int, y: int, z: int, dimX: int, dimY: int, dimZ: int) {
    0 <= x && x + 1 < dimX && 0 <= y && y + 1 < dimY && 0 <= z && z + 1 < dimZ
  }

  /**
   * A bound on the cell count alone does not keep keys apart: a grid of
   * 2 x 2 x 65538 points has fewer than 2^24 cells, yet edge 11 of cube
   * (0, 0, 0) and edge 8 of cube (0, 0, 65536), both cubes of that grid, are
   * different grid edges with the same key, under either scheme.
   */
  lemma KeysCollideWithinCellBound()
    ensures 2 * 2 * 65538 < 0x100_0000
    ensures CubeOfGrid(0, 0, 0, 2, 2, 65538) && CubeOfGrid(0, 0, 65536, 2, 2, 65538)
    ensures EdgeOf(0, 0, 0, 11) != EdgeOf(0, 0, 65536, 8)
    ensures EdgeKey(AsWritten, 0, 0, 0, 11) == EdgeKey(AsWritten, 0, 0, 65536, 8) == 131073
    ensures EdgeKey(Corrected, 0, 0, 0, 11) == EdgeKey(Corrected, 0, 0, 65536, 8) == 131073
  {
  }
}

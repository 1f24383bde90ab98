/**
 * The marching-cubes extractor (src/terrain-gen/marching-cubes.ts).
 *
 * A grid holds one density per lattice point, indexed [y][z][x]. Every cube
 * of eight neighbouring points is classified by which corners lie below the
 * threshold; the triangle table lists, for that classification, the cube
 * edges the surface crosses, ended by -1. Each crossing gets a vertex, placed
 * on its edge at the linear interpolation fraction and shared through the
 * vertex table (module VertexWeld) with every other crossing of the same
 * edge key. The extraction functions take the key scheme as a parameter:
 * the class runs the source's keys (`AsWritten`), under which an edge 4
 * crossing is not shared with the neighbouring cubes; `Corrected` is the
 * extraction the key scheme was evidently meant to give.
 *
 * The triangle table is third-party data: here it is a parameter `table`
 * of which `ValidTable` says only what the extractor relies on.
 */
module MarchingCubes {
  import opened Doubles
  import opened EdgeKeys
  import opened VertexWeld

  /** A density grid, indexed [y][z][x]. */
  type Grid = seq<seq<seq<Num>>>

  /** `grid[0].length`, or 0 for an empty grid. */
  function Rows(g: Grid): nat {
    if |g| > 0 then |g[0]| else 0
  }

  /** `grid[0][0].length`, or 0 when there is no first row. */
  function Columns(g: Grid): nat {
    if |g| > 0 && |g[0]| > 0 then |g[0][0]| else 0
  }

  /** The density at lattice point (x, y, z); NaN off the grid, where the source would read `undefined`. */
  function Cell(g: Grid, y: int, z: int, x: int): Num {
    if 0 <= y < |g| && 0 <= z < |g[y]| && 0 <= x < |g[y][z]| then g[y][z][x] else NaN
  }

  /** The number of cubes along an axis of `n` lattice points: the loop bound `n - 1`, never negative. */
  function Cubes(n: nat): nat {
    if n == 0 then 0 else n - 1
  }

  /** The densities a three-dimensional array holds. */
  ghost function Snapshot(a: array3<Num>): (g: Grid)
    reads a
    ensures Holds(a, g)
  {
    seq(a.Length0, y requires 0 <= y < a.Length0 reads a =>
      seq(a.Length1, z requires 0 <= z < a.Length1 reads a =>
        seq(a.Length2, x requires 0 <= x < a.Length2 reads a => a[y, z, x])))
  }

  /** What the extractor relies on in the triangle table: 256 rows of edge ids 0..11 or the end mark -1. */
  predicate ValidTable(table: seq<seq<int>>) {
    |table| == 256 && forall r, i :: 0 <= r < 256 && 0 <= i < |table[r]| ==> -1 <= table[r][i] < 12
  }

  /** A triangle table. */
  type Table = t: seq<seq<int>> | ValidTable(t) witness seq(256, r => [])

  /** The bit a corner contributes to the configuration: 1 when its value is below the threshold. */
  function Mark(v: Num, threshold: real): bv8 {
    if Below(v, threshold) then 1 else 0
  }

  /**
   * `getVerticesConfiguration`: bit i is set exactly when corner value v_i is
   * below the threshold (a NaN corner is never below).
   */
  function Configuration(threshold: real, v0: Num, v1: Num, v2: Num, v3: Num, v4: Num, v5: Num, v6: Num, v7: Num): bv8
  {
    (Mark(v7, threshold) << 7) | (Mark(v6, threshold) << 6) | (Mark(v5, threshold) << 5) | (Mark(v4, threshold) << 4)
      | (Mark(v3, threshold) << 3) | (Mark(v2, threshold) << 2) | (Mark(v1, threshold) << 1) | Mark(v0, threshold)
  }

  /** Bit i of the configuration is set exactly when corner value v_i is below the threshold. */
  lemma ConfigurationBits(threshold: real, v0: Num, v1: Num, v2: Num, v3: Num, v4: Num, v5: Num, v6: Num, v7: Num)
    ensures var c := Configuration(threshold, v0, v1, v2, v3, v4, v5, v6, v7);
      && ((c & 1 != 0) <==> Below(v0, threshold))
      && ((c & 2 != 0) <==> Below(v1, threshold))
      && ((c & 4 != 0) <==> Below(v2, threshold))
      && ((c & 8 != 0) <==> Below(v3, threshold))
      && ((c & 16 != 0) <==> Below(v4, threshold))
      && ((c & 32 != 0) <==> Below(v5, threshold))
      && ((c & 64 != 0) <==> Below(v6, threshold))
      && ((c & 128 != 0) <==> Below(v7, threshold))
    ensures var c := Configuration(threshold, v0, v1, v2, v3, v4, v5, v6, v7);
      (c == 0) <==> (!Below(v0, threshold) && !Below(v1, threshold) && !Below(v2, threshold) && !Below(v3, threshold)
                    && !Below(v4, threshold) && !Below(v5, threshold) && !Below(v6, threshold) && !Below(v7, threshold))
    ensures var c := Configuration(threshold, v0, v1, v2, v3, v4, v5, v6, v7);
      (c == 255) <==> (Below(v0, threshold) && Below(v1, threshold) && Below(v2, threshold) && Below(v3, threshold)
                      && Below(v4, threshold) && Below(v5, threshold) && Below(v6, threshold) && Below(v7, threshold))
  {
  }

  /** `interpolate`: the fraction of the way from `a` to `b` at which the value `t` lies. */
  function Interpolate(a: Num, b: Num, t: real): Num {
    if a.NaN? || b.NaN? then NaN
    else
      var lo := if a.r <= b.r then a.r else b.r;
      var hi := if a.r <= b.r then b.r else a.r;
      if a.r < b.r then Div(Fin(t - lo), Fin(hi - lo))
      else Sub(Fin(1.0), Div(Fin(t - lo), Fin(hi - lo)))
  }

  /**
   * Both branches of `interpolate` compute (t - a) / (b - a); equal or NaN
   * ends give a non-finite result.
   */
  lemma InterpolateIsFraction(a: Num, b: Num, t: real)
    ensures Interpolate(a, b, t).Fin? <==> a.Fin? && b.Fin? && a.r != b.r
    ensures Interpolate(a, b, t).Fin? ==> Interpolate(a, b, t).r == (t - a.r) / (b.r - a.r)
  {
    if a.Fin? && b.Fin? && b.r < a.r {
      var d := a.r - b.r;
      var q := (t - b.r) / d;
      assert q * d == t - b.r;
      assert (1.0 - q) * (b.r - a.r) == t - a.r;
      QuotientUnique(t - a.r, b.r - a.r, 1.0 - q);
    }
  }

  /** A value between the ends of an edge lies at a fraction between 0 and 1. */
  lemma InterpolateInUnit(a: Num, b: Num, t: real)
    requires a.Fin? && b.Fin? && a.r != b.r
    requires (a.r <= t <= b.r) || (b.r <= t <= a.r)
    ensures Interpolate(a, b, t).Fin? && 0.0 <= Interpolate(a, b, t).r <= 1.0
  {
    InterpolateIsFraction(a, b, t);
    var f := Interpolate(a, b, t).r;
    if a.r < b.r {
      assert f * (b.r - a.r) == t - a.r;
    } else {
      assert f * (a.r - b.r) == a.r - t;
    }
  }

  /** The edge ids of a table row before its first -1. */
  function EdgeRun(row: seq<int>): (run: seq<int>)
    ensures |run| <= |row|
    ensures forall i :: 0 <= i < |run| ==> run[i] == row[i] && run[i] != -1
    ensures |run| < |row| ==> row[|run|] == -1
  {
    if row == [] || row[0] == -1 then [] else [row[0]] + EdgeRun(row[1..])
  }

  /** The densities at the eight corners of a cube, in the source's order v0..v7. */
  datatype Corners = Corners(v0: Num, v1: Num, v2: Num, v3: Num, v4: Num, v5: Num, v6: Num, v7: Num)

  /** The corners of cube (x, y, z) as the extractor reads them from the grid. */
  function CornersOf(g: Grid, x: int, y: int, z: int): Corners {
    Corners(Cell(g, y, z, x), Cell(g, y, z, x + 1), Cell(g, y + 1, z, x), Cell(g, y + 1, z, x + 1),
            Cell(g, y, z + 1, x), Cell(g, y, z + 1, x + 1), Cell(g, y + 1, z + 1, x), Cell(g, y + 1, z + 1, x + 1))
  }

  /** Corner value `c` (0..7) among v0..v7. */
  function CornerValue(c: int, vs: Corners): Num
    requires 0 <= c < 8
  {
    match c
    case 0 => vs.v0
    case 1 => vs.v1
    case 2 => vs.v2
    case 3 => vs.v3
    case 4 => vs.v4
    case 5 => vs.v5
    case 6 => vs.v6
    case _ => vs.v7
  }

  /** The configuration of a cube with corner densities `vs`. */
  function ConfigurationOf(threshold: real, vs: Corners): bv8 {
    Configuration(threshold, vs.v0, vs.v1, vs.v2, vs.v3, vs.v4, vs.v5, vs.v6, vs.v7)
  }

  /**
   * The vertex position the source's switch computes for edge `e` of cube
   * (x, y, z), in grid coordinates divided by the resolution: every case
   * interpolates between the values of the edge's two corners (EdgeEnds) and
   * offsets the cube's scaled position by that fraction along the edge's
   * axis and by one step along the axes the edge is shifted on.
   */
  function EdgePoint(x: int, y: int, z: int, e: int, resolution: real, threshold: real, vs: Corners): Point
    requires 0 <= e < 12
  {
    var res := Fin(resolution);
    var sx := Div(Fin(x as real), res);
    var sy := Div(Fin(y as real), res);
    var sz := Div(Fin(z as real), res);
    var step := Div(Fin(1.0), res);
    var along := Div(Interpolate(CornerValue(EdgeEnds(e).0, vs), CornerValue(EdgeEnds(e).1, vs), threshold), res);
    match e
    case 0 => Point(Add(sx, along), sy, sz)
    case 1 => Point(Add(sx, step), Add(sy, along), sz)
    case 2 => Point(Add(sx, along), Add(sy, step), sz)
    case 3 => Point(sx, Add(sy, along), sz)
    case 4 => Point(Add(sx, along), sy, Add(sz, step))
    case 5 => Point(Add(sx, step), Add(sy, along), Add(sz, step))
    case 6 => Point(Add(sx, along), Add(sy, step), Add(sz, step))
    case 7 => Point(sx, Add(sy, along), Add(sz, step))
    case 8 => Point(sx, sy, Add(sz, along))
    case 9 => Point(Add(sx, step), sy, Add(sz, along))
    case 10 => Point(Add(sx, step), Add(sy, step), Add(sz, along))
    case _ => Point(sx, Add(sy, step), Add(sz, along))
  }

  /**
   * One coordinate of the point at fraction `f` from lattice coordinate `a`
   * to `b` (equal, or one apart), divided by the resolution.
   */
  function Along(a: int, b: int, f: Num, resolution: real): Num
    requires resolution != 0.0
  {
    if a == b then Fin(a as real / resolution)
    else if f.Fin? then Fin((a as real + f.r * (b - a) as real) / resolution)
    else NaN
  }

  /**
   * Geometric reading of the switch: the vertex of edge `e` lies on the
   * segment between the edge's two corners, at the interpolation fraction of
   * their values, in grid coordinates divided by the resolution.
   */
  lemma EdgePointOnEdge(x: int, y: int, z: int, e: int, resolution: real, threshold: real, vs: Corners)
    requires 0 <= e < 12 && resolution != 0.0
    ensures var (ca, cb) := EdgeEnds(e);
      var a := Corner(x, y, z, ca);
      var b := Corner(x, y, z, cb);
      var f := Interpolate(CornerValue(ca, vs), CornerValue(cb, vs), threshold);
      EdgePoint(x, y, z, e, resolution, threshold, vs)
        == Point(Along(a.x, b.x, f, resolution), Along(a.y, b.y, f, resolution), Along(a.z, b.z, f, resolution))
  {
    var (ca, cb) := EdgeEnds(e);
    var f := Interpolate(CornerValue(ca, vs), CornerValue(cb, vs), threshold);
    var a := Corner(x, y, z, ca);
    var b := Corner(x, y, z, cb);
    StepOrStay(x, a.x, b.x, f, resolution);
    StepOrStay(y, a.y, b.y, f, resolution);
    StepOrStay(z, a.z, b.z, f, resolution);
  }

  /**
   * The three shapes a coordinate takes in the switch: the cube's own
   * coordinate, one step further, or the interpolated point between the two.
   */
  lemma StepOrStay(s: int, a: int, b: int, f: Num, resolution: real)
    requires resolution != 0.0
    ensures a == s && b == s ==> Div(Fin(s as real), Fin(resolution)) == Along(a, b, f, resolution)
    ensures a == s + 1 && b == s + 1 ==> Add(Div(Fin(s as real), Fin(resolution)), Div(Fin(1.0), Fin(resolution))) == Along(a, b, f, resolution)
    ensures a == s && b == s + 1 ==> Add(Div(Fin(s as real), Fin(resolution)), Div(f, Fin(resolution))) == Along(a, b, f, resolution)
  {
    DivSum(s as real, 1.0, resolution);
    if f.Fin? {
      DivSum(s as real, f.r, resolution);
    }
  }

  lemma DivSum(u: real, w: real, d: real)
    requires d != 0.0
    ensures u / d + w / d == (u + w) / d
  {
    var p, q := u / d, w / d;
    assert p * d == u && q * d == w;
    assert (p + q) * d == u + w;
    QuotientUnique(u + w, d, p + q);
  }

  /** The crossing the extractor emits for edge `e` of cube (x, y, z) with corner densities `vs`, keyed under `scheme`. */
  function CrossingAt(scheme: KeyScheme, x: int, y: int, z: int, e: int, resolution: real, threshold: real, vs: Corners): Crossing
    requires 0 <= e < 12
  {
    Crossing(EdgeKey(scheme, x, y, z, e), Coord(x, y, z), e, EdgePoint(x, y, z, e, resolution, threshold, vs))
  }

  /** Every entry of `run` is an edge id 0..11. */
  predicate EdgeIds(run: seq<int>) {
    forall i :: 0 <= i < |run| ==> 0 <= run[i] < 12
  }

  /** The crossings of the edge ids `run` of cube (x, y, z), in order. */
  function RunCrossings(scheme: KeyScheme, x: int, y: int, z: int, run: seq<int>, resolution: real, threshold: real, vs: Corners): seq<Crossing>
    requires EdgeIds(run)
  {
    seq(|run|, i requires 0 <= i < |run| => CrossingAt(scheme, x, y, z, run[i], resolution, threshold, vs))
  }

  /** The table row of cube (x, y, z). */
  function CubeRow(g: Grid, x: int, y: int, z: int, threshold: real, table: Table): seq<int> {
    table[ConfigurationOf(threshold, CornersOf(g, x, y, z)) as int]
  }

  /** The edge ids of a valid table row before its first -1 are edge ids 0..11. */
  lemma RunOfTableRow(table: Table, r: int)
    requires 0 <= r < 256
    ensures EdgeIds(EdgeRun(table[r]))
  {
  }

  /** The crossings of cube (x, y, z), one per table entry before the first -1. */
  function CubeCrossings(scheme: KeyScheme, g: Grid, x: int, y: int, z: int, resolution: real, threshold: real, table: Table): seq<Crossing>
  {
    var vs := CornersOf(g, x, y, z);
    var r := ConfigurationOf(threshold, vs) as int;
    RunOfTableRow(table, r);
    RunCrossings(scheme, x, y, z, EdgeRun(table[r]), resolution, threshold, vs)
  }

  /** Entry i of a cube's crossings is the crossing of the i-th edge id of its table row. */
  lemma CubeCrossingIs(scheme: KeyScheme, g: Grid, x: int, y: int, z: int, resolution: real, threshold: real, table: Table, i: nat)
    requires i < |CubeCrossings(scheme, g, x, y, z, resolution, threshold, table)|
    ensures var row := CubeRow(g, x, y, z, threshold, table);
      i < |row| && 0 <= row[i] < 12
      && CubeCrossings(scheme, g, x, y, z, resolution, threshold, table)[i] == CrossingAt(scheme, x, y, z, row[i], resolution, threshold, CornersOf(g, x, y, z))
  {
  }

  /**
   * A crossing as the extractor emits it: on edge 0..11 of a cube of the
   * grid, keyed by that edge's key.
   */
  predicate OnCubeEdge(scheme: KeyScheme, c: Crossing, g: Grid) {
    && 0 <= c.edgeId < 12
    && 0 <= c.cube.x && c.cube.x + 1 < Columns(g)
    && 0 <= c.cube.y && c.cube.y + 1 < |g|
    && 0 <= c.cube.z && c.cube.z + 1 < Rows(g)
    && c.key == EdgeKey(scheme, c.cube.x, c.cube.y, c.cube.z, c.edgeId)
  }

  /** Every crossing of `cs` lies on an edge of a cube of `g` and carries that edge's key. */
  predicate AllOnCubeEdges(scheme: KeyScheme, cs: seq<Crossing>, g: Grid) {
    forall i :: 0 <= i < |cs| ==> OnCubeEdge(scheme, cs[i], g)
  }

  /** The crossings of the first `n` cubes of row z of layer y, in loop order. */
  function RowCrossings(scheme: KeyScheme, g: Grid, y: nat, z: nat, n: nat, resolution: real, threshold: real, table: Table): (cs: seq<Crossing>)
    decreases n
  {
    if n == 0 then []
    else RowCrossings(scheme, g, y, z, n - 1, resolution, threshold, table) + CubeCrossings(scheme, g, n - 1, y, z, resolution, threshold, table)
  }

  /** The crossings of the first `n` rows of layer y. */
  function LayerCrossings(scheme: KeyScheme, g: Grid, y: nat, n: nat, resolution: real, threshold: real, table: Table): (cs: seq<Crossing>)
    decreases n
  {
    if n == 0 then []
    else LayerCrossings(scheme, g, y, n - 1, resolution, threshold, table) + RowCrossings(scheme, g, y, n - 1, Cubes(Columns(g)), resolution, threshold, table)
  }

  /** The crossings of the first `n` layers. */
  function GridCrossings(scheme: KeyScheme, g: Grid, n: nat, resolution: real, threshold: real, table: Table): (cs: seq<Crossing>)
    decreases n
  {
    if n == 0 then []
    else GridCrossings(scheme, g, n - 1, resolution, threshold, table) + LayerCrossings(scheme, g, n - 1, Cubes(Rows(g)), resolution, threshold, table)
  }

  /** Every crossing of a cube lies on one of that cube's edges and carries that edge's key. */
  lemma CubeOnCubeEdges(scheme: KeyScheme, g: Grid, x: nat, y: nat, z: nat, resolution: real, threshold: real, table: Table)
    requires y + 1 < |g| && z + 1 < Rows(g) && x + 1 < Columns(g)
    ensures AllOnCubeEdges(scheme, CubeCrossings(scheme, g, x, y, z, resolution, threshold, table), g)
  {
    var cs := CubeCrossings(scheme, g, x, y, z, resolution, threshold, table);
    forall i | 0 <= i < |cs| ensures OnCubeEdge(scheme, cs[i], g) {
      CubeCrossingIs(scheme, g, x, y, z, resolution, threshold, table, i);
    }
  }

  lemma {:induction false} RowOnCubeEdges(scheme: KeyScheme, g: Grid, y: nat, z: nat, n: nat, resolution: real, threshold: real, table: Table)
    requires y + 1 < |g| && z + 1 < Rows(g) && n <= Cubes(Columns(g))
    ensures AllOnCubeEdges(scheme, RowCrossings(scheme, g, y, z, n, resolution, threshold, table), g)
    decreases n
  {
    if n > 0 {
      var a := RowCrossings(scheme, g, y, z, n - 1, resolution, threshold, table);
      var b := CubeCrossings(scheme, g, n - 1, y, z, resolution, threshold, table);
      RowOnCubeEdges(scheme, g, y, z, n - 1, resolution, threshold, table);
      CubeOnCubeEdges(scheme, g, n - 1, y, z, resolution, threshold, table);
      AppendOnCubeEdges(scheme, a, b, g);
    }
  }

  lemma {:induction false} LayerOnCubeEdges(scheme: KeyScheme, g: Grid, y: nat, n: nat, resolution: real, threshold: real, table: Table)
    requires y + 1 < |g| && n <= Cubes(Rows(g))
    ensures AllOnCubeEdges(scheme, LayerCrossings(scheme, g, y, n, resolution, threshold, table), g)
    decreases n
  {
    if n > 0 {
      var a := LayerCrossings(scheme, g, y, n - 1, resolution, threshold, table);
      var b := RowCrossings(scheme, g, y, n - 1, Cubes(Columns(g)), resolution, threshold, table);
      LayerOnCubeEdges(scheme, g, y, n - 1, resolution, threshold, table);
      RowOnCubeEdges(scheme, g, y, n - 1, Cubes(Columns(g)), resolution, threshold, table);
      AppendOnCubeEdges(scheme, a, b, g);
    }
  }

  lemma {:induction false} GridOnCubeEdges(scheme: KeyScheme, g: Grid, n: nat, resolution: real, threshold: real, table: Table)
    requires n <= Cubes(|g|)
    ensures AllOnCubeEdges(scheme, GridCrossings(scheme, g, n, resolution, threshold, table), g)
    decreases n
  {
    if n > 0 {
      var a := GridCrossings(scheme, g, n - 1, resolution, threshold, table);
      var b := LayerCrossings(scheme, g, n - 1, Cubes(Rows(g)), resolution, threshold, table);
      GridOnCubeEdges(scheme, g, n - 1, resolution, threshold, table);
      LayerOnCubeEdges(scheme, g, n - 1, Cubes(Rows(g)), resolution, threshold, table);
      AppendOnCubeEdges(scheme, a, b, g);
    }
  }

  lemma AppendOnCubeEdges(scheme: KeyScheme, a: seq<Crossing>, b: seq<Crossing>, g: Grid)
    requires AllOnCubeEdges(scheme, a, g) && AllOnCubeEdges(scheme, b, g)
    ensures AllOnCubeEdges(scheme, a + b, g)
  {
    forall i | 0 <= i < |a + b| ensures OnCubeEdge(scheme, (a + b)[i], g) {
      if i >= |a| {
        assert (a + b)[i] == b[i - |a|];
      }
    }
  }

  /** One more cube of a row: what the x loop adds after `x` cubes. */
  lemma RowStep(scheme: KeyScheme, w: Welded, g: Grid, y: nat, z: nat, x: nat, resolution: real, threshold: real, table: Table)
    ensures WeldFrom(WeldFrom(w, RowCrossings(scheme, g, y, z, x, resolution, threshold, table)), CubeCrossings(scheme, g, x, y, z, resolution, threshold, table))
         == WeldFrom(w, RowCrossings(scheme, g, y, z, x + 1, resolution, threshold, table))
  {
    WeldFromAppend(w, RowCrossings(scheme, g, y, z, x, resolution, threshold, table), CubeCrossings(scheme, g, x, y, z, resolution, threshold, table));
  }

  /** One more row of a layer: what the z loop adds after `z` rows. */
  lemma LayerStep(scheme: KeyScheme, w: Welded, g: Grid, y: nat, z: nat, resolution: real, threshold: real, table: Table)
    ensures WeldFrom(WeldFrom(w, LayerCrossings(scheme, g, y, z, resolution, threshold, table)), RowCrossings(scheme, g, y, z, Cubes(Columns(g)), resolution, threshold, table))
         == WeldFrom(w, LayerCrossings(scheme, g, y, z + 1, resolution, threshold, table))
  {
    WeldFromAppend(w, LayerCrossings(scheme, g, y, z, resolution, threshold, table), RowCrossings(scheme, g, y, z, Cubes(Columns(g)), resolution, threshold, table));
  }

  /** One more layer: what the y loop adds after `y` layers. */
  lemma GridStep(scheme: KeyScheme, w: Welded, g: Grid, y: nat, resolution: real, threshold: real, table: Table)
    ensures WeldFrom(WeldFrom(w, GridCrossings(scheme, g, y, resolution, threshold, table)), LayerCrossings(scheme, g, y, Cubes(Rows(g)), resolution, threshold, table))
         == WeldFrom(w, GridCrossings(scheme, g, y + 1, resolution, threshold, table))
  {
    WeldFromAppend(w, GridCrossings(scheme, g, y, resolution, threshold, table), LayerCrossings(scheme, g, y, Cubes(Rows(g)), resolution, threshold, table));
  }

  /** Every crossing of the grid, in the extractor's y, z, x, table-entry order. */
  function AllCrossings(scheme: KeyScheme, g: Grid, resolution: real, threshold: real, table: Table): seq<Crossing>
  {
    GridCrossings(scheme, g, Cubes(|g|), resolution, threshold, table)
  }

  /** The geometry's vertex positions and index buffer. */
  datatype Mesh = Mesh(positions: seq<Point>, indices: seq<nat>)

  /** The mesh `generateSurface` builds from a grid, with edge keys under `scheme`. */
  function Extract(scheme: KeyScheme, g: Grid, resolution: real, threshold: real, table: Table): Mesh
  {
    var w := Weld(AllCrossings(scheme, g, resolution, threshold, table));
    Mesh(w.positions, w.indices)
  }

  /** The index buffer has one entry per crossing and every entry names an existing vertex. */
  lemma ExtractIndicesInRange(scheme: KeyScheme, g: Grid, resolution: real, threshold: real, table: Table)
    ensures var m := Extract(scheme, g, resolution, threshold, table);
      && |m.indices| == |AllCrossings(scheme, g, resolution, threshold, table)|
      && |m.positions| <= |m.indices|
      && forall j :: 0 <= j < |m.indices| ==> m.indices[j] < |m.positions|
  {
    var cs := AllCrossings(scheme, g, resolution, threshold, table);
    WeldIndices(cs);
    WeldBijection(cs);
  }

  /**
   * With the corrected edge-4 key the mesh is watertight along shared edges:
   * two index entries name the same vertex exactly when their crossings lie
   * on the same grid edge. Keys stay injective while the grid has at most
   * 32768 layers and rows.
   */
  lemma ExtractSharesExactlyGridEdges(g: Grid, resolution: real, threshold: real, table: Table, j1: int, j2: int)
    requires |g| <= 32768 && Rows(g) <= 32768
    requires 0 <= j1 < |AllCrossings(Corrected, g, resolution, threshold, table)| && 0 <= j2 < |AllCrossings(Corrected, g, resolution, threshold, table)|
    ensures AllOnCubeEdges(Corrected, AllCrossings(Corrected, g, resolution, threshold, table), g)
    ensures var cs := AllCrossings(Corrected, g, resolution, threshold, table);
      var m := Extract(Corrected, g, resolution, threshold, table);
      (m.indices[j1] == m.indices[j2]) <==>
      (EdgeOf(cs[j1].cube.x, cs[j1].cube.y, cs[j1].cube.z, cs[j1].edgeId) == EdgeOf(cs[j2].cube.x, cs[j2].cube.y, cs[j2].cube.z, cs[j2].edgeId))
  {
    var cs := AllCrossings(Corrected, g, resolution, threshold, table);
    var c1, c2 := cs[j1], cs[j2];
    WeldSharing(cs, j1, j2);
    GridOnCubeEdges(Corrected, g, Cubes(|g|), resolution, threshold, table);
    assert OnCubeEdge(Corrected, c1, g) && OnCubeEdge(Corrected, c2, g);
    EdgeKeyIdentifiesEdge(c1.cube.x, c1.cube.y, c1.cube.z, c1.edgeId, c2.cube.x, c2.cube.y, c2.cube.z, c2.edgeId);
  }

  /**
   * The mesh the source builds: two index entries name the same vertex
   * exactly when their crossings lie on the same grid edge and either both or
   * neither is an edge 4. A crossing on edge 4 of a cube gets a vertex of its
   * own, apart from the one its grid edge gets through the neighbouring cubes.
   */
  lemma ExtractSharesAsWritten(g: Grid, resolution: real, threshold: real, table: Table, j1: int, j2: int)
    requires |g| <= 32768 && Rows(g) <= 32768
    requires 0 <= j1 < |AllCrossings(AsWritten, g, resolution, threshold, table)| && 0 <= j2 < |AllCrossings(AsWritten, g, resolution, threshold, table)|
    ensures AllOnCubeEdges(AsWritten, AllCrossings(AsWritten, g, resolution, threshold, table), g)
    ensures var cs := AllCrossings(AsWritten, g, resolution, threshold, table);
      var m := Extract(AsWritten, g, resolution, threshold, table);
      (m.indices[j1] == m.indices[j2]) <==>
      (&& EdgeOf(cs[j1].cube.x, cs[j1].cube.y, cs[j1].cube.z, cs[j1].edgeId) == EdgeOf(cs[j2].cube.x, cs[j2].cube.y, cs[j2].cube.z, cs[j2].edgeId)
       && (cs[j1].edgeId == 4 <==> cs[j2].edgeId == 4))
  {
    var cs := AllCrossings(AsWritten, g, resolution, threshold, table);
    var c1, c2 := cs[j1], cs[j2];
    WeldSharing(cs, j1, j2);
    GridOnCubeEdges(AsWritten, g, Cubes(|g|), resolution, threshold, table);
    assert OnCubeEdge(AsWritten, c1, g) && OnCubeEdge(AsWritten, c2, g);
    EdgeKeyAsWrittenIdentifies(c1.cube.x, c1.cube.y, c1.cube.z, c1.edgeId, c2.cube.x, c2.cube.y, c2.cube.z, c2.edgeId);
  }

  /** Each vertex sits where the first crossing of its grid edge was interpolated. */
  lemma ExtractVertexIsFirstCrossing(scheme: KeyScheme, g: Grid, resolution: real, threshold: real, table: Table, j: int)
    requires 0 <= j < |AllCrossings(scheme, g, resolution, threshold, table)|
    requires forall i :: 0 <= i < j ==> AllCrossings(scheme, g, resolution, threshold, table)[i].key != AllCrossings(scheme, g, resolution, threshold, table)[j].key
    ensures var m := Extract(scheme, g, resolution, threshold, table);
      m.indices[j] < |m.positions| && m.positions[m.indices[j]] == AllCrossings(scheme, g, resolution, threshold, table)[j].pos
  {
    var cs := AllCrossings(scheme, g, resolution, threshold, table);
    WeldFirstPosition(cs, j);
  }

  lemma ConcatAssoc<T>(a: seq<T>, b: seq<T>, c: seq<T>)
    ensures a + (b + c) == (a + b) + c
  {
  }

  lemma TakeNext<T>(s: seq<T>, i: nat)
    requires i < |s|
    ensures s[..i + 1] == s[..i] + [s[i]]
  {
  }


  /** `g` holds the densities of the array `a`. */
  ghost predicate Holds(a: array3<Num>, g: Grid)
    reads a
  {
    && |g| == a.Length0
    && (a.Length0 > 0 ==> Rows(g) == a.Length1)
    && (a.Length0 > 0 && a.Length1 > 0 ==> Columns(g) == a.Length2)
    && forall y, z, x :: 0 <= y < a.Length0 && 0 <= z < a.Length1 && 0 <= x < a.Length2 ==> Cell(g, y, z, x) == a[y, z, x]
  }

  /** The extractor, with its key-to-vertex table kept between calls. */
  class MarchingCubes {
    var verticesMap: map<int, nat>

    constructor ()
      ensures verticesMap == map[]
    {
      verticesMap := map[];
    }

    /**
     * `generateSurface`: clears the vertex table, then visits every cube in
     * y, z, x order and every table entry of its configuration before the
     * first -1, keying each crossing as the source does. The result depends
     * only on the grid, the resolution, the threshold and the table, whatever
     * the vertex table held before.
     */
    method GenerateSurface(grid: array3<Num>, resolution: real, threshold: real, table: Table) returns (mesh: Mesh)
      modifies this
      ensures mesh == Extract(AsWritten, Snapshot(grid), resolution, threshold, table)
      ensures verticesMap == Weld(AllCrossings(AsWritten, Snapshot(grid), resolution, threshold, table)).vertexMap
    {
      ghost var g := Snapshot(grid);
      verticesMap := map[];
      var positions: seq<Point> := [];
      var indices: seq<nat> := [];
      var y := 0;
      while y < grid.Length0 - 1
        invariant 0 <= y <= Cubes(|g|)
        invariant Welded(verticesMap, positions, indices) == WeldFrom(Empty, GridCrossings(AsWritten, g, y, resolution, threshold, table))
      {
        positions, indices := MarchLayer(grid, y, resolution, threshold, table, g, positions, indices);
        GridStep(AsWritten, Empty, g, y, resolution, threshold, table);
        y := y + 1;
      }
      mesh := Mesh(positions, indices);
    }

    /** The body of the y loop: visits the rows of layer y in z order. */
    method MarchLayer(grid: array3<Num>, y: nat, resolution: real, threshold: real, table: Table,
                      ghost g: Grid, positions0: seq<Point>, indices0: seq<nat>)
      returns (positions: seq<Point>, indices: seq<nat>)
      requires Holds(grid, g) && y + 1 < |g|
      modifies this
      ensures Welded(verticesMap, positions, indices)
           == WeldFrom(Welded(old(verticesMap), positions0, indices0), LayerCrossings(AsWritten, g, y, Cubes(Rows(g)), resolution, threshold, table))
    {
      ghost var start := Welded(verticesMap, positions0, indices0);
      positions, indices := positions0, indices0;
      var z := 0;
      while z < grid.Length1 - 1
        invariant 0 <= z <= Cubes(Rows(g))
        invariant Welded(verticesMap, positions, indices) == WeldFrom(start, LayerCrossings(AsWritten, g, y, z, resolution, threshold, table))
      {
        positions, indices := MarchRow(grid, y, z, resolution, threshold, table, g, positions, indices);
        LayerStep(AsWritten, start, g, y, z, resolution, threshold, table);
        z := z + 1;
      }
    }

    /** The body of the z loop: visits the cubes of row z of layer y in x order. */
    method MarchRow(grid: array3<Num>, y: nat, z: nat, resolution: real, threshold: real, table: Table,
                    ghost g: Grid, positions0: seq<Point>, indices0: seq<nat>)
      returns (positions: seq<Point>, indices: seq<nat>)
      requires Holds(grid, g) && y + 1 < |g| && z + 1 < Rows(g)
      modifies this
      ensures Welded(verticesMap, positions, indices)
           == WeldFrom(Welded(old(verticesMap), positions0, indices0), RowCrossings(AsWritten, g, y, z, Cubes(Columns(g)), resolution, threshold, table))
    {
      ghost var start := Welded(verticesMap, positions0, indices0);
      positions, indices := positions0, indices0;
      var x := 0;
      while x < grid.Length2 - 1
        invariant 0 <= x <= Cubes(Columns(g))
        invariant Welded(verticesMap, positions, indices) == WeldFrom(start, RowCrossings(AsWritten, g, y, z, x, resolution, threshold, table))
      {
        positions, indices := MarchCube(grid, x, y, z, resolution, threshold, table, g, positions, indices);
        RowStep(AsWritten, start, g, y, z, x, resolution, threshold, table);
        x := x + 1;
      }
    }

    /**
     * The body of the x loop: reads the eight corners of cube (x, y, z),
     * classifies them and visits the cube's table row.
     */
    method MarchCube(grid: array3<Num>, x: nat, y: nat, z: nat, resolution: real, threshold: real, table: Table,
                     ghost g: Grid, positions0: seq<Point>, indices0: seq<nat>)
      returns (positions: seq<Point>, indices: seq<nat>)
      requires Holds(grid, g) && y + 1 < grid.Length0 && z + 1 < grid.Length1 && x + 1 < grid.Length2
      modifies this
      ensures Welded(verticesMap, positions, indices)
           == WeldFrom(Welded(old(verticesMap), positions0, indices0), CubeCrossings(AsWritten, g, x, y, z, resolution, threshold, table))
    {
      var v0 := grid[y, z, x];
      var v1 := grid[y, z, x + 1];
      var v2 := grid[y + 1, z, x];
      var v3 := grid[y + 1, z, x + 1];
      var v4 := grid[y, z + 1, x];
      var v5 := grid[y, z + 1, x + 1];
      var v6 := grid[y + 1, z + 1, x];
      var v7 := grid[y + 1, z + 1, x + 1];
      var corners := Corners(v0, v1, v2, v3, v4, v5, v6, v7);
      assert corners == CornersOf(g, x, y, z);
      var configuration := Configuration(threshold, v0, v1, v2, v3, v4, v5, v6, v7);
      RunOfTableRow(table, configuration as int);
      positions, indices := MarchEdges(x, y, z, resolution, threshold, table[configuration as int], corners, positions0, indices0);
    }

    /**
     * The table-row loop of a cube with corner densities `corners`: visits
     * the entries of `row` before the first -1.
     */
    method MarchEdges(x: nat, y: nat, z: nat, resolution: real, threshold: real, row: seq<int>, corners: Corners,
                      positions0: seq<Point>, indices0: seq<nat>)
      returns (positions: seq<Point>, indices: seq<nat>)
      requires EdgeIds(EdgeRun(row))
      modifies this
      ensures Welded(verticesMap, positions, indices)
           == WeldFrom(Welded(old(verticesMap), positions0, indices0), RunCrossings(AsWritten, x, y, z, EdgeRun(row), resolution, threshold, corners))
    {
      ghost var start := Welded(verticesMap, positions0, indices0);
      ghost var run := RunCrossings(AsWritten, x, y, z, EdgeRun(row), resolution, threshold, corners);
      positions, indices := positions0, indices0;
      var i := 0;
      while i < |row| && row[i] != -1
        invariant 0 <= i <= |run|
        invariant Welded(verticesMap, positions, indices) == WeldFrom(start, run[..i])
        decreases |row| - i
      {
        var edgeId := row[i];
        var k := ConvertCoordToKey(EdgeCoordAsWritten(x, y, z, edgeId));
        var position := EdgePoint(x, y, z, edgeId, resolution, threshold, corners);
        positions, indices := AddVertex(k, position, run[i], positions, indices);
        WeldFromSnoc(start, run, i);
        i := i + 1;
      }
      assert run[..i] == run;
    }

    /**
     * The deduplication step of the extractor, for one crossing with key `k` at
     * `position`: a known key repeats its vertex index, a new key gets the
     * next vertex index and its position.
     */
    method AddVertex(k: int, position: Point, ghost c: Crossing, positions0: seq<Point>, indices0: seq<nat>)
      returns (positions: seq<Point>, indices: seq<nat>)
      requires c.key == k && c.pos == position
      modifies this
      ensures Welded(verticesMap, positions, indices) == Step(Welded(old(verticesMap), positions0, indices0), c)
    {
      positions, indices := positions0, indices0;
      if k in verticesMap {
        indices := indices + [verticesMap[k]];
      } else {
        verticesMap := verticesMap[k := |positions|];
        indices := indices + [|positions|];
        positions := positions + [position];
      }
    }
  }
}

/**
 * The density fills of src/terrain-gen/fill-functions.ts. Both write every
 * cell of an existing grid in place, in y, z, x order.
 */
module FillFunctions {
  import opened Doubles

  /** The `simplePlane` density of a cell of layer y of a grid of `layers` layers: -1 up to `height` of the grid, 1 above. */
  function PlaneValue(y: int, layers: nat, height: real): Num
    requires layers > 0
  {
    if y as real / layers as real <= height then Fin(-1.0) else Fin(1.0)
  }

  /** Above the plane stays above: once a layer is 1, every higher layer is 1. */
  lemma PlaneMonotone(y1: int, y2: int, layers: nat, height: real)
    requires layers > 0 && y1 <= y2
    requires PlaneValue(y1, layers, height) == Fin(1.0)
    ensures PlaneValue(y2, layers, height) == Fin(1.0)
  {
    var l := layers as real;
    assert y1 as real / l <= y2 as real / l by {
      assert y1 as real <= y2 as real;
      DivMonotone(y1 as real, y2 as real, l);
    }
  }

  lemma DivMonotone(a: real, b: real, d: real)
    requires a <= b && d > 0.0
    ensures a / d <= b / d
  {
    assert (b - a) / d >= 0.0;
    assert b / d - a / d == (b - a) / d;
  }

  /** Every simplePlane value is -1 or 1. */
  lemma PlaneValueIsSign(y: int, layers: nat, height: real)
    requires layers > 0
    ensures PlaneValue(y, layers, height) == Fin(-1.0) || PlaneValue(y, layers, height) == Fin(1.0)
    ensures PlaneValue(y, layers, height) == Fin(-1.0) <==> y as real / layers as real <= height
  {
  }

  /**
   * `simplePlane`: every cell becomes the plane value of its layer,
   * whatever its column and row.
   */
  method SimplePlane(grid: array3<Num>, height: real)
    modifies grid
    ensures forall y, z, x :: 0 <= y < grid.Length0 && 0 <= z < grid.Length1 && 0 <= x < grid.Length2 ==>
      grid[y, z, x] == PlaneValue(y, grid.Length0, height)
  {
    var y := 0;
    while y < grid.Length0
      invariant 0 <= y <= grid.Length0
      invariant forall j, k, i :: 0 <= j < y && 0 <= k < grid.Length1 && 0 <= i < grid.Length2 ==>
        grid[j, k, i] == PlaneValue(j, grid.Length0, height)
    {
      var z := 0;
      while z < grid.Length1
        invariant 0 <= z <= grid.Length1
        invariant forall j, k, i :: 0 <= j < y && 0 <= k < grid.Length1 && 0 <= i < grid.Length2 ==>
          grid[j, k, i] == PlaneValue(j, grid.Length0, height)
        invariant forall k, i :: 0 <= k < z && 0 <= i < grid.Length2 ==> grid[y, k, i] == PlaneValue(y, grid.Length0, height)
      {
        var x := 0;
        while x < grid.Length2
          invariant 0 <= x <= grid.Length2
          invariant forall j, k, i :: 0 <= j < y && 0 <= k < grid.Length1 && 0 <= i < grid.Length2 ==>
            grid[j, k, i] == PlaneValue(j, grid.Length0, height)
          invariant forall k, i :: 0 <= k < z && 0 <= i < grid.Length2 ==> grid[y, k, i] == PlaneValue(y, grid.Length0, height)
          invariant forall i :: 0 <= i < x ==> grid[y, z, i] == PlaneValue(y, grid.Length0, height)
        {
          grid[y, z, x] := if y as real / grid.Length0 as real <= height then Fin(-1.0) else Fin(1.0);
          x := x + 1;
        }
        z := z + 1;
      }
      y := y + 1;
    }
  }

  /** `Math.sin` on a JavaScript number, given the sine of a real: NaN stays NaN. */
  function Sine(sin: real -> real, a: Num): Num {
    if a.Fin? then Fin(sin(a.r)) else NaN
  }

  /** The height `val` of the `trigSurface` surface over column (x, z). */
  function SurfaceHeight(x: int, z: int, px: real, pz: real, scale: real, frequency: real, height: real, resolution: real,
                         sin: real -> real): Num
  {
    var scaledX := Div(Fin(x as real), Fin(resolution));
    var scaledZ := Div(Fin(z as real), Fin(resolution));
    Add(Mul(Add(Sine(sin, Add(Fin(px), Div(scaledX, Fin(frequency)))), Sine(sin, Add(Fin(pz), Div(scaledZ, Fin(frequency))))), Fin(scale)), Fin(height))
  }

  /** The `trigSurface` density of cell (x, y, z): the scaled height of the cell minus the surface height of its column. */
  function TrigValue(x: int, y: int, z: int, px: real, pz: real, scale: real, frequency: real, height: real, resolution: real,
                     sin: real -> real): Num
  {
    Sub(Div(Fin(y as real), Fin(resolution)), SurfaceHeight(x, z, px, pz, scale, frequency, height, resolution, sin))
  }

  /**
   * With a positive resolution and a non-zero frequency every trigSurface
   * value is finite, and the density rises strictly up each column: the
   * surface is crossed once per column.
   */
  lemma TrigColumnIncreasing(x: int, y1: int, y2: int, z: int, px: real, pz: real, scale: real, frequency: real, height: real,
                             resolution: real, sin: real -> real)
    requires resolution > 0.0 && frequency != 0.0 && y1 < y2
    ensures TrigValue(x, y1, z, px, pz, scale, frequency, height, resolution, sin).Fin?
    ensures TrigValue(x, y2, z, px, pz, scale, frequency, height, resolution, sin).Fin?
    ensures TrigValue(x, y1, z, px, pz, scale, frequency, height, resolution, sin).r
          < TrigValue(x, y2, z, px, pz, scale, frequency, height, resolution, sin).r
  {
    var d := (y2 - y1) as real / resolution;
    assert d > 0.0;
    assert y2 as real / resolution - y1 as real / resolution == d;
  }

  /** The surface height of a column does not depend on the layer: cells of one column differ by their scaled heights. */
  lemma TrigColumnShift(x: int, y1: int, y2: int, z: int, px: real, pz: real, scale: real, frequency: real, height: real,
                        resolution: real, sin: real -> real)
    requires resolution != 0.0
    ensures var v1 := TrigValue(x, y1, z, px, pz, scale, frequency, height, resolution, sin);
      var v2 := TrigValue(x, y2, z, px, pz, scale, frequency, height, resolution, sin);
      v1.Fin? == v2.Fin? && (v1.Fin? ==> v2.r - v1.r == (y2 - y1) as real / resolution)
  {
    DivDiff(y2 as real, y1 as real, resolution);
  }

  lemma DivDiff(a: real, b: real, d: real)
    requires d != 0.0
    ensures a / d - b / d == (a - b) / d
  {
    var p, q := a / d, b / d;
    assert p * d == a && q * d == b;
    assert (p - q) * d == a - b;
    QuotientUnique(a - b, d, p - q);
  }

  /**
   * `trigSurface`: every cell becomes its scaled height minus the surface
   * height of its column; the chunk position supplies the phase on x and z.
   */
  method TrigSurface(grid: array3<Num>, position: (real, real, real), scale: real, frequency: real, height: real,
                     resolution: real, sin: real -> real)
    modifies grid
    ensures forall y, z, x :: 0 <= y < grid.Length0 && 0 <= z < grid.Length1 && 0 <= x < grid.Length2 ==>
      grid[y, z, x] == TrigValue(x, y, z, position.0, position.2, scale, frequency, height, resolution, sin)
  {
    var y := 0;
    while y < grid.Length0
      invariant 0 <= y <= grid.Length0
      invariant forall j, k, i :: 0 <= j < y && 0 <= k < grid.Length1 && 0 <= i < grid.Length2 ==>
        grid[j, k, i] == TrigValue(i, j, k, position.0, position.2, scale, frequency, height, resolution, sin)
    {
      var z := 0;
      while z < grid.Length1
        invariant 0 <= z <= grid.Length1
        invariant forall j, k, i :: 0 <= j < y && 0 <= k < grid.Length1 && 0 <= i < grid.Length2 ==>
          grid[j, k, i] == TrigValue(i, j, k, position.0, position.2, scale, frequency, height, resolution, sin)
        invariant forall k, i :: 0 <= k < z && 0 <= i < grid.Length2 ==>
          grid[y, k, i] == TrigValue(i, y, k, position.0, position.2, scale, frequency, height, resolution, sin)
      {
        var x := 0;
        while x < grid.Length2
          invariant 0 <= x <= grid.Length2
          invariant forall j, k, i :: 0 <= j < y && 0 <= k < grid.Length1 && 0 <= i < grid.Length2 ==>
            grid[j, k, i] == TrigValue(i, j, k, position.0, position.2, scale, frequency, height, resolution, sin)
          invariant forall k, i :: 0 <= k < z && 0 <= i < grid.Length2 ==>
            grid[y, k, i] == TrigValue(i, y, k, position.0, position.2, scale, frequency, height, resolution, sin)
          invariant forall i :: 0 <= i < x ==>
            grid[y, z, i] == TrigValue(i, y, z, position.0, position.2, scale, frequency, height, resolution, sin)
        {
          var scaledX := Div(Fin(x as real), Fin(resolution));
          var scaledY := Div(Fin(y as real), Fin(resolution));
          var scaledZ := Div(Fin(z as real), Fin(resolution));
          var val := Add(Mul(Add(Sine(sin, Add(Fin(position.0), Div(scaledX, Fin(frequency)))),
                                 Sine(sin, Add(Fin(position.2), Div(scaledZ, Fin(frequency))))), Fin(scale)), Fin(height));
          grid[y, z, x] := Sub(scaledY, val);
          x := x + 1;
        }
        z := z + 1;
      }
      y := y + 1;
    }
  }
}

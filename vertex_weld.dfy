/**
 * Shared-vertex deduplication of the marching-cubes extractor
 * (src/terrain-gen/marching-cubes.ts, `verticesMap`): each crossing is
 * looked up by its edge key; a known key repeats its vertex index, a new key
 * appends a vertex and records its index.
 */
module VertexWeld {
  import opened Doubles
  import opened EdgeKeys

  /** A vertex position; its components are JavaScript numbers. */
  datatype Point = Point(x: Num, y: Num, z: Num)

  /**
   * One entry of the triangle table, visited in cube `cube` on edge `edgeId`:
   * its edge key and the interpolated crossing position.
   */
  datatype Crossing = Crossing(key: int, cube: Coord, edgeId: int, pos: Point)

  /** The vertex table, the vertex positions and the index buffer. */
  datatype Welded = Welded(vertexMap: map<int, nat>, positions: seq<Point>, indices: seq<nat>)

  /**
   * Visiting one crossing: a known key repeats its vertex index, a new key
   * gets the next vertex index, and its position is appended.
   */
  function Step(w: Welded, c: Crossing): (w': Welded)
    ensures |w'.indices| == |w.indices| + 1 && |w'.positions| <= |w.positions| + 1
  {
    if c.key in w.vertexMap then w.(indices := w.indices + [w.vertexMap[c.key]])
    else Welded(w.vertexMap[c.key := |w.positions|], w.positions + [c.pos], w.indices + [|w.positions|])
  }

  /** What the table, positions and indices hold after visiting `cs` in order from `w`. */
  function WeldFrom(w: Welded, cs: seq<Crossing>): (w': Welded)
    ensures |w'.indices| == |w.indices| + |cs| && |w'.positions| <= |w.positions| + |cs|
    decreases |cs|
  {
    if cs == [] then w else Step(WeldFrom(w, cs[..|cs| - 1]), cs[|cs| - 1])
  }

  /** The empty table, no positions and no indices. */
  const Empty: Welded := Welded(map[], [], [])

  /** What the extractor's table, positions and indices hold after visiting `cs` in order from an empty table. */
  function Weld(cs: seq<Crossing>): Welded
  {
    WeldFrom(Empty, cs)
  }

  /** Visiting `a` and then `b` is visiting `a + b`. */
  lemma {:induction false} WeldFromAppend(w: Welded, a: seq<Crossing>, b: seq<Crossing>)
    ensures WeldFrom(WeldFrom(w, a), b) == WeldFrom(w, a + b)
    decreases |b|
  {
    if b == [] {
      assert a + b == a;
    } else {
      var n := |b| - 1;
      WeldFromAppend(w, a, b[..n]);
      assert (a + b)[..|a + b| - 1] == a + b[..n];
    }
  }

  /** Visiting the first i + 1 crossings of `cs` is visiting the first i and then crossing i. */
  lemma WeldFromSnoc(w: Welded, cs: seq<Crossing>, i: nat)
    requires i < |cs|
    ensures WeldFrom(w, cs[..i + 1]) == Step(WeldFrom(w, cs[..i]), cs[i])
  {
    assert cs[..i + 1][..i] == cs[..i];
  }

  /** Visiting one more crossing: a known key repeats its vertex, a new key appends one. */
  lemma WeldSnoc(cs: seq<Crossing>, c: Crossing)
    ensures Weld(cs + [c]) == Step(Weld(cs), c)
  {
    assert (cs + [c])[..|cs|] == cs;
  }

  /** The keys of the crossings in `cs`. */
  function KeysOf(cs: seq<Crossing>): set<int> {
    set j | 0 <= j < |cs| :: cs[j].key
  }

  lemma KeysOfSnoc(cs: seq<Crossing>)
    requires cs != []
    ensures KeysOf(cs) == KeysOf(cs[..|cs| - 1]) + {cs[|cs| - 1].key}
  {
    var n := |cs| - 1;
    var p := cs[..n];
    forall k | k in KeysOf(cs) ensures k in KeysOf(p) + {cs[n].key} {
      var j :| 0 <= j < |cs| && cs[j].key == k;
      if j < n { assert p[j] == cs[j]; }
    }
    forall k | k in KeysOf(p) ensures k in KeysOf(cs) {
      var j :| 0 <= j < |p| && p[j].key == k;
      assert cs[j] == p[j];
    }
  }

  /** The table holds exactly the keys seen so far. */
  lemma {:induction false} WeldKeys(cs: seq<Crossing>)
    ensures Weld(cs).vertexMap.Keys == KeysOf(cs)
  {
    if cs != [] {
      WeldKeys(cs[..|cs| - 1]);
      KeysOfSnoc(cs);
    }
  }

  /** The distinct keys of `cs`, in the order of their first crossing. */
  function FirstKeys(cs: seq<Crossing>): seq<int>
    decreases |cs|
  {
    if cs == [] then []
    else
      var f := FirstKeys(cs[..|cs| - 1]);
      if cs[|cs| - 1].key in f then f else f + [cs[|cs| - 1].key]
  }

  /**
   * The table is a bijection between the keys seen and the vertex indices
   * 0..|positions|-1: one entry per vertex, every value a vertex index,
   * distinct keys on distinct vertices, and vertex i belongs to the i-th
   * distinct key.
   */
  lemma {:induction false} WeldBijection(cs: seq<Crossing>)
    ensures var w := Weld(cs);
      && |w.vertexMap| == |w.positions| == |FirstKeys(cs)|
      && (forall k :: k in w.vertexMap ==> w.vertexMap[k] < |w.positions|)
      && (forall k1, k2 :: k1 in w.vertexMap && k2 in w.vertexMap && w.vertexMap[k1] == w.vertexMap[k2] ==> k1 == k2)
      && (forall i :: 0 <= i < |w.positions| ==> FirstKeys(cs)[i] in w.vertexMap && w.vertexMap[FirstKeys(cs)[i]] == i)
  {
    if cs != [] {
      var n := |cs| - 1;
      WeldBijection(cs[..n]);
      var w0 := Weld(cs[..n]);
      var f0 := FirstKeys(cs[..n]);
      var c := cs[n];
      assert c.key in w0.vertexMap <==> c.key in f0 by {
        if c.key in w0.vertexMap {
          var i := w0.vertexMap[c.key];
          assert f0[i] in w0.vertexMap && w0.vertexMap[f0[i]] == i;
          assert f0[i] == c.key;
        }
        if c.key in f0 {
          var i :| 0 <= i < |f0| && f0[i] == c.key;
          assert f0[i] in w0.vertexMap;
        }
      }
    }
  }

  /** Every index entry is the table's vertex for its crossing's key. */
  lemma {:induction false} WeldIndices(cs: seq<Crossing>)
    ensures forall j :: 0 <= j < |cs| ==> cs[j].key in Weld(cs).vertexMap && Weld(cs).indices[j] == Weld(cs).vertexMap[cs[j].key]
  {
    if cs != [] {
      var n := |cs| - 1;
      var p := cs[..n];
      WeldIndices(p);
      forall j | 0 <= j < |cs| ensures cs[j].key in Weld(cs).vertexMap && Weld(cs).indices[j] == Weld(cs).vertexMap[cs[j].key] {
        if j < n {
          assert p[j] == cs[j];
        }
      }
    }
  }

  /** Two index entries name the same vertex exactly when their crossings have the same key. */
  lemma WeldSharing(cs: seq<Crossing>, j1: int, j2: int)
    requires 0 <= j1 < |cs| && 0 <= j2 < |cs|
    ensures Weld(cs).indices[j1] == Weld(cs).indices[j2] <==> cs[j1].key == cs[j2].key
  {
    WeldIndices(cs);
    WeldBijection(cs);
  }

  /** Visiting more crossings only appends vertices and index entries. */
  lemma {:induction false} WeldPrefix(cs: seq<Crossing>, m: nat)
    requires m <= |cs|
    ensures Weld(cs[..m]).positions <= Weld(cs).positions
    ensures Weld(cs[..m]).indices <= Weld(cs).indices
    decreases |cs|
  {
    if m < |cs| {
      var n := |cs| - 1;
      assert cs[..n][..m] == cs[..m];
      WeldPrefix(cs[..n], m);
    } else {
      assert cs[..m] == cs;
    }
  }

  /** The vertex of a key is placed where the key's first crossing lies. */
  lemma {:induction false} WeldFirstPosition(cs: seq<Crossing>, j: int)
    requires 0 <= j < |cs|
    requires forall i :: 0 <= i < j ==> cs[i].key != cs[j].key
    ensures Weld(cs).indices[j] < |Weld(cs).positions|
    ensures Weld(cs).positions[Weld(cs).indices[j]] == cs[j].pos
  {
    var p := cs[..j + 1];
    assert p[..j] == cs[..j];
    WeldKeys(cs[..j]);
    forall i | 0 <= i < j ensures cs[..j][i].key != cs[j].key {
      assert cs[..j][i] == cs[i];
    }
    assert cs[j].key !in KeysOf(cs[..j]);
    WeldPrefix(cs, j + 1);
    assert Weld(p).indices[j] == |Weld(cs[..j]).positions|;
  }
}

/**
 * A JavaScript `Map` as the workers use it: entries kept in insertion
 * order, `set` on a present key overwrites the value in place, `set` on a
 * new key appends, `delete` removes the entry and keeps the rest in order.
 */
module OrderedMaps {
  import opened Wrappers

  datatype Entry<K, V> = Entry(key: K, value: V)

  function Keys<K, V>(m: seq<Entry<K, V>>): seq<K> {
    seq(|m|, i requires 0 <= i < |m| => m[i].key)
  }

  function Values<K, V>(m: seq<Entry<K, V>>): seq<V> {
    seq(|m|, i requires 0 <= i < |m| => m[i].value)
  }

  /** No key occurs twice: the shape every `Map` has. */
  predicate Distinct<K(==), V>(m: seq<Entry<K, V>>) {
    forall i, j :: 0 <= i < j < |m| ==> m[i].key != m[j].key
  }

  /** `map.get(k)`. */
  function Get<K(==), V>(m: seq<Entry<K, V>>, k: K): Option<V> {
    if m == [] then None
    else if m[0].key == k then Some(m[0].value)
    else Get(m[1..], k)
  }

  /** `map.set(k, v)`. */
  function Set<K(==), V>(m: seq<Entry<K, V>>, k: K, v: V): seq<Entry<K, V>> {
    if m == [] then [Entry(k, v)]
    else if m[0].key == k then [Entry(k, v)] + m[1..]
    else [m[0]] + Set(m[1..], k, v)
  }

  /** `map.delete(k)`. */
  function Delete<K(==), V>(m: seq<Entry<K, V>>, k: K): seq<Entry<K, V>> {
    if m == [] then []
    else if m[0].key == k then m[1..]
    else [m[0]] + Delete(m[1..], k)
  }

  /** The entries `keep` accepts, in their order. */
  function Filter<K, V>(m: seq<Entry<K, V>>, keep: Entry<K, V> -> bool): seq<Entry<K, V>>
    decreases |m|
  {
    if m == [] then []
    else Filter(m[..|m| - 1], keep) + (if keep(m[|m| - 1]) then [m[|m| - 1]] else [])
  }

  /** `get` finds exactly the keys present, with the value of their entry. */
  lemma {:induction false} GetFinds<K, V>(m: seq<Entry<K, V>>, k: K)
    requires Distinct(m)
    ensures Get(m, k).Some? <==> k in Keys(m)
    ensures forall i :: 0 <= i < |m| && m[i].key == k ==> Get(m, k) == Some(m[i].value)
    decreases |m|
  {
    if m != [] {
      GetFinds(m[1..], k);
      assert Keys(m) == [m[0].key] + Keys(m[1..]);
      forall i | 0 <= i < |m| && m[i].key == k
        ensures Get(m, k) == Some(m[i].value)
      {
        if i > 0 {
          assert m[1..][i - 1] == m[i];
        }
      }
    }
  }

  /** After `set(k, v)`, `get(k)` is `v` and every other key reads as before. */
  lemma {:induction false} SetGet<K, V>(m: seq<Entry<K, V>>, k: K, v: V, k2: K)
    ensures Get(Set(m, k, v), k2) == if k2 == k then Some(v) else Get(m, k2)
    decreases |m|
  {
    if m != [] && m[0].key != k {
      SetGet(m[1..], k, v, k2);
      assert Set(m, k, v)[1..] == Set(m[1..], k, v);
    }
  }

  /** `set` keeps the insertion order: an overwrite keeps its place, a new key goes last. */
  lemma {:induction false} SetKeys<K, V>(m: seq<Entry<K, V>>, k: K, v: V)
    ensures Keys(Set(m, k, v)) == if k in Keys(m) then Keys(m) else Keys(m) + [k]
    decreases |m|
  {
    if m != [] {
      assert Keys(m) == [m[0].key] + Keys(m[1..]);
      if m[0].key == k {
        assert Keys(Set(m, k, v)) == [k] + Keys(m[1..]);
      } else {
        SetKeys(m[1..], k, v);
        assert Keys(Set(m, k, v)) == [m[0].key] + Keys(Set(m[1..], k, v));
      }
    }
  }

  /** `set` keeps the keys distinct. */
  lemma SetDistinct<K, V>(m: seq<Entry<K, V>>, k: K, v: V)
    requires Distinct(m)
    ensures Distinct(Set(m, k, v))
  {
    var m' := Set(m, k, v);
    SetKeys(m, k, v);
    forall i, j | 0 <= i < j < |m'|
      ensures m'[i].key != m'[j].key
    {
      assert Keys(m')[i] == m'[i].key && Keys(m')[j] == m'[j].key;
      if j < |m| {
        assert Keys(m)[i] == m[i].key && Keys(m)[j] == m[j].key;
      } else {
        assert Keys(m)[i] == m[i].key;
      }
    }
  }

  /** Deleting a key that occurs once, after a prefix without it, leaves the entries around it in order. */
  lemma {:induction false} DeleteAfter<K, V>(a: seq<Entry<K, V>>, e: Entry<K, V>, b: seq<Entry<K, V>>)
    requires e.key !in Keys(a)
    ensures Delete(a + [e] + b, e.key) == a + b
    decreases |a|
  {
    if a == [] {
      assert (a + [e] + b)[1..] == b;
    } else {
      assert a[0].key == Keys(a)[0];
      assert Keys(a[1..]) == Keys(a)[1..];
      DeleteAfter(a[1..], e, b);
      assert (a + [e] + b)[1..] == a[1..] + [e] + b;
      assert a + b == [a[0]] + (a[1..] + b);
    }
  }

  /** After `delete(k)`, `get(k)` is absent and every other key reads as before. */
  lemma {:induction false} DeleteGet<K, V>(m: seq<Entry<K, V>>, k: K, k2: K)
    requires Distinct(m)
    ensures Get(Delete(m, k), k2) == if k2 == k then None else Get(m, k2)
    decreases |m|
  {
    if m != [] {
      if m[0].key == k {
        if k2 == k {
          GetFinds(m[1..], k);
          assert Keys(m[1..]) == Keys(m)[1..];
        }
      } else {
        DeleteGet(m[1..], k, k2);
      }
    }
  }

  /** `delete` keeps the keys distinct and the remaining entries in order. */
  lemma DeleteDistinct<K, V>(m: seq<Entry<K, V>>, k: K)
    requires Distinct(m)
    ensures Distinct(Delete(m, k))
    ensures forall e :: e in Delete(m, k) <==> e in m && e.key != k
  {
    if i :| 0 <= i < |m| && m[i].key == k {
      assert k !in Keys(m[..i]) by {
        forall j | 0 <= j < i ensures Keys(m[..i])[j] != k { }
      }
      assert m == m[..i] + [m[i]] + m[i + 1..];
      DeleteAfter(m[..i], m[i], m[i + 1..]);
    } else {
      DeleteAbsent(m, k);
    }
  }

  /** Deleting a present key removes exactly one entry. */
  lemma {:induction false} DeleteLength<K, V>(m: seq<Entry<K, V>>, k: K)
    requires Distinct(m)
    ensures k in Keys(m) ==> |Delete(m, k)| == |m| - 1
    decreases |m|
  {
    if m != [] && m[0].key != k {
      assert Keys(m[1..]) == Keys(m)[1..];
      DeleteLength(m[1..], k);
    }
  }

  lemma {:induction false} DeleteAbsent<K, V>(m: seq<Entry<K, V>>, k: K)
    requires forall i :: 0 <= i < |m| ==> m[i].key != k
    ensures Delete(m, k) == m
    decreases |m|
  {
    if m != [] {
      DeleteAbsent(m[1..], k);
    }
  }

  /** `Filter` keeps exactly the entries `keep` accepts. */
  lemma {:induction false} FilterMembers<K, V>(m: seq<Entry<K, V>>, keep: Entry<K, V> -> bool)
    ensures forall e :: e in Filter(m, keep) <==> e in m && keep(e)
    decreases |m|
  {
    if m != [] {
      var n := |m| - 1;
      FilterMembers(m[..n], keep);
      assert m == m[..n] + [m[n]];
    }
  }

  /**
   * Filtering keeps the map's order: the kept entries of `a + b` are those of
   * `a` followed by those of `b`.
   */
  lemma {:induction false} FilterAppend<K, V>(a: seq<Entry<K, V>>, b: seq<Entry<K, V>>, keep: Entry<K, V> -> bool)
    ensures Filter(a + b, keep) == Filter(a, keep) + Filter(b, keep)
    decreases |b|
  {
    if b != [] {
      var n := |b| - 1;
      FilterAppend(a, b[..n], keep);
      assert (a + b)[..|a + b| - 1] == a + b[..n];
      assert (a + b)[|a + b| - 1] == b[n];
    } else {
      assert a + b == a;
    }
  }
}

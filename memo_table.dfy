/**
 * The memoising vertex tables of `ambo` (`edgeMap`, keyed by undirected edge) and
 * `truncate` (`edgePairMap`, keyed by ordered vertex pair): a key seen before returns its
 * index; a new key appends its point to `newVerts` and records the new index.
 */
module Memo {
  import opened Vectors

  /** The table's state: the key map and the vertices created so far. */
  datatype Table<K> = Table(index: map<K, nat>, verts: seq<Vec3>)

  /** One lookup: `if (map[key] !== undefined) return map[key]; … newVerts.push(p); map[key] = idx`. */
  function Lookup<K>(t: Table<K>, key: K, p: Vec3): (r: (Table<K>, nat))
    ensures key in r.0.index && r.0.index[key] == r.1
    ensures key in t.index ==> r == (t, t.index[key])
    ensures key !in t.index ==> r.1 == |t.verts| && r.0 == Table(t.index[key := |t.verts|], t.verts + [p])
  {
    if key in t.index then (t, t.index[key])
    else (Table(t.index[key := |t.verts|], t.verts + [p]), |t.verts|)
  }

  /**
   * A consistent table: every key names a distinct created vertex, the one its point
   * function gives, and there is one key per vertex.
   */
  ghost predicate Valid<K>(t: Table<K>, point: K -> Vec3)
  {
    (forall k :: k in t.index ==> t.index[k] < |t.verts| && t.verts[t.index[k]] == point(k))
    && (forall k1, k2 :: k1 in t.index && k2 in t.index && k1 != k2 ==> t.index[k1] != t.index[k2])
    && |t.index.Keys| == |t.verts|
  }

  /** `u` keeps every key of `t` at its index and every vertex of `t` in place. */
  ghost predicate Extends<K>(t: Table<K>, u: Table<K>)
  {
    (forall k :: k in t.index ==> k in u.index && u.index[k] == t.index[k])
    && |t.verts| <= |u.verts| && u.verts[..|t.verts|] == t.verts
  }

  lemma ExtendsTransitive<K>(t: Table<K>, u: Table<K>, w: Table<K>)
    requires Extends(t, u) && Extends(u, w)
    ensures Extends(t, w)
  {
    assert w.verts[..|t.verts|] == w.verts[..|u.verts|][..|t.verts|];
  }

  lemma ExtendsReflexive<K>(t: Table<K>)
    ensures Extends(t, t)
  {
  }

  /** A new key gets the next index, and the table stays consistent. */
  lemma LookupNew<K>(t: Table<K>, key: K, point: K -> Vec3)
    requires Valid(t, point) && key !in t.index
    ensures var u := Table(t.index[key := |t.verts|], t.verts + [point(key)]);
      Valid(u, point) && Extends(t, u) && u.index.Keys == t.index.Keys + {key}
  {
    var u := Table(t.index[key := |t.verts|], t.verts + [point(key)]);
    NewKeys(t, key, u);
    NewPoints(t, key, point, u);
    NewDistinct(t, key, u);
    assert u.verts[..|t.verts|] == t.verts;
  }

  /** A new key adds one key and one vertex. */
  lemma NewKeys<K>(t: Table<K>, key: K, u: Table<K>)
    requires key !in t.index && |t.index.Keys| == |t.verts| && u.index == t.index[key := |t.verts|] && |u.verts| == |t.verts| + 1
    ensures u.index.Keys == t.index.Keys + {key} && |u.index.Keys| == |u.verts|
  {
    assert u.index.Keys == t.index.Keys + {key};
  }

  /** Old keys keep their vertices; the new key names the appended point. */
  lemma NewPoints<K>(t: Table<K>, key: K, point: K -> Vec3, u: Table<K>)
    requires forall k :: k in t.index ==> t.index[k] < |t.verts| && t.verts[t.index[k]] == point(k)
    requires u == Table(t.index[key := |t.verts|], t.verts + [point(key)])
    ensures forall k :: k in u.index ==> u.index[k] < |u.verts| && u.verts[u.index[k]] == point(k)
  {
    forall k | k in u.index
      ensures u.index[k] < |u.verts| && u.verts[u.index[k]] == point(k)
    {
      if k != key {
        assert u.index[k] == t.index[k];
      }
    }
  }

  /** The new index is past every old one, so indices stay distinct. */
  lemma NewDistinct<K>(t: Table<K>, key: K, u: Table<K>)
    requires forall k :: k in t.index ==> t.index[k] < |t.verts|
    requires forall k1, k2 :: k1 in t.index && k2 in t.index && k1 != k2 ==> t.index[k1] != t.index[k2]
    requires key !in t.index && u.index == t.index[key := |t.verts|]
    ensures forall k1, k2 :: k1 in u.index && k2 in u.index && k1 != k2 ==> u.index[k1] != u.index[k2]
  {
  }

  /** A lookup with the key's own point keeps the table consistent. */
  lemma LookupValid<K>(t: Table<K>, key: K, point: K -> Vec3)
    requires Valid(t, point)
    ensures Valid(Lookup(t, key, point(key)).0, point)
  {
    if key !in t.index {
      LookupNew(t, key, point);
    }
  }

  /**
   * A lookup with the key's own point keeps the table consistent, only extends it, adds
   * exactly the key, and returns the index of a vertex at that point.
   */
  lemma LookupProperties<K>(t: Table<K>, key: K, point: K -> Vec3)
    requires Valid(t, point)
    ensures var (u, idx) := Lookup(t, key, point(key));
      Valid(u, point) && Extends(t, u)
      && u.index.Keys == t.index.Keys + {key}
      && key in u.index && u.index[key] == idx && idx < |u.verts| && u.verts[idx] == point(key)
      && (key in t.index <==> u == t)
  {
    if key !in t.index {
      LookupNew(t, key, point);
    }
  }

  /** Looking up `keys` in turn, each with its own point: the table after, and the indices. */
  function LookupAll<K>(t: Table<K>, keys: seq<K>, point: K -> Vec3): (r: (Table<K>, seq<nat>))
    ensures |r.1| == |keys|
  {
    if |keys| == 0 then (t, [])
    else
      var prev := LookupAll(t, keys[..|keys| - 1], point);
      var step := Lookup(prev.0, keys[|keys| - 1], point(keys[|keys| - 1]));
      (step.0, prev.1 + [step.1])
  }

  /** One more key. */
  lemma LookupAllStep<K>(t: Table<K>, keys: seq<K>, key: K, point: K -> Vec3)
    ensures var prev := LookupAll(t, keys, point);
      var step := Lookup(prev.0, key, point(key));
      LookupAll(t, keys + [key], point) == (step.0, prev.1 + [step.1])
  {
    assert (keys + [key])[..|keys|] == keys;
  }

  /** The lookups only add to the table. */
  lemma {:induction false} LookupAllExtends<K>(t: Table<K>, keys: seq<K>, point: K -> Vec3)
    ensures Extends(t, LookupAll(t, keys, point).0)
  {
    if |keys| == 0 {
      ExtendsReflexive(t);
    } else {
      var prev := LookupAll(t, keys[..|keys| - 1], point);
      LookupAllExtends(t, keys[..|keys| - 1], point);
      var step := Lookup(prev.0, keys[|keys| - 1], point(keys[|keys| - 1]));
      assert Extends(prev.0, step.0);
      ExtendsTransitive(t, prev.0, step.0);
    }
  }

  /** The lookups keep a consistent table consistent. */
  lemma {:induction false} LookupAllValid<K>(t: Table<K>, keys: seq<K>, point: K -> Vec3)
    requires Valid(t, point)
    ensures Valid(LookupAll(t, keys, point).0, point)
  {
    if |keys| > 0 {
      var prev := LookupAll(t, keys[..|keys| - 1], point);
      LookupAllValid(t, keys[..|keys| - 1], point);
      LookupValid(prev.0, keys[|keys| - 1], point);
    }
  }

  /** The lookups add exactly the keys looked up. */
  lemma {:induction false} LookupAllKeys<K>(t: Table<K>, keys: seq<K>, point: K -> Vec3)
    ensures forall k :: k in LookupAll(t, keys, point).0.index <==> k in t.index || k in keys
  {
    if |keys| > 0 {
      var p := keys[..|keys| - 1];
      LookupAllKeys(t, p, point);
      assert keys == p + [keys[|keys| - 1]];
    }
  }

  /** Every index returned is the key's index in any table extending the final one. */
  lemma {:induction false} LookupAllIndices<K>(t: Table<K>, keys: seq<K>, point: K -> Vec3, u: Table<K>)
    requires Extends(LookupAll(t, keys, point).0, u)
    ensures forall i :: 0 <= i < |keys| ==> keys[i] in u.index && LookupAll(t, keys, point).1[i] == u.index[keys[i]]
  {
    if |keys| > 0 {
      var p := keys[..|keys| - 1];
      var prev := LookupAll(t, p, point);
      var step := Lookup(prev.0, keys[|keys| - 1], point(keys[|keys| - 1]));
      assert Extends(prev.0, step.0);
      ExtendsTransitive(prev.0, step.0, u);
      LookupAllIndices(t, p, point, u);
      forall i | 0 <= i < |keys|
        ensures keys[i] in u.index && LookupAll(t, keys, point).1[i] == u.index[keys[i]]
      {
        if i < |keys| - 1 {
          assert keys[i] == p[i];
          assert LookupAll(t, keys, point).1[i] == prev.1[i];
        }
      }
    }
  }

  /** When every key is already present the table does not change. */
  lemma {:induction false} LookupAllHits<K>(t: Table<K>, keys: seq<K>, point: K -> Vec3)
    requires forall i :: 0 <= i < |keys| ==> keys[i] in t.index
    ensures LookupAll(t, keys, point).0 == t
  {
    if |keys| > 0 {
      LookupAllHits(t, keys[..|keys| - 1], point);
    }
  }

  /** The vertex table as the object the closures share. */
  class VertexTable<K(==)> {
    var index: map<K, nat>
    var verts: seq<Vec3>

    function State(): Table<K>
      reads this
    {
      Table(index, verts)
    }

    /** `const map = {}; const newVerts = [];` */
    constructor ()
      ensures State() == Table(map[], [])
    {
      index := map[];
      verts := [];
    }

    /** `getEdgeVertex` / `getTruncVert` with the key and point already computed. */
    method Get(key: K, p: Vec3) returns (idx: nat)
      modifies this
      ensures (State(), idx) == Lookup(old(State()), key, p)
    {
      if key in index {
        idx := index[key];
      } else {
        idx := |verts|;
        verts := verts + [p];
        index := index[key := idx];
      }
    }
  }
}

/**
 * `truncate`.  Every old vertex is cut off: for each ordered pair `(vi, vj)` of adjacent
 * vertices the `edgePairMap` memo creates one vertex at fraction `t` of the way from `vi`
 * to `vj`; every old face becomes the polygon of the cut points along its edges, and every
 * old vertex with at least three neighbours becomes the face of its cut points.
 */
module ConwayTruncate {
  import opened Vectors
  import opened Wrappers
  import opened PairLoops
  import opened FirstOccurrence
  import opened ConwayPoly
  import opened Memo
  import opened ConwayAmbo

  /** The point `p` of `getTruncVert(vi, vj)`: `a + t (b − a)`. */
  function Along(a: Vec3, b: Vec3, t: real): Vec3
  {
    [a[0] + t * (b[0] - a[0]), a[1] + t * (b[1] - a[1]), a[2] + t * (b[2] - a[2])]
  }

  /** The point the ordered-pair key `k` stands for. */
  function CutAt(vertices: seq<Vec3>, t: real, k: Edge): Vec3
  {
    if k.0 < |vertices| && k.1 < |vertices| then Along(vertices[k.0], vertices[k.1], t) else Zero3
  }

  /** The points of all keys of the table. */
  function CutPoint(vertices: seq<Vec3>, t: real): Edge -> Vec3
  {
    (k: Edge) => CutAt(vertices, t, k)
  }

  // ==================== adjacency ====================

  /** `set.add(x)` on a set kept in insertion order. */
  function AddTo(s: seq<nat>, x: nat): seq<nat>
  {
    if x in s then s else s + [x]
  }

  /** After adding `x`, the set holds what it held and `x`. */
  lemma AddToMember(s: seq<nat>, x: nat, y: nat)
    ensures y in AddTo(s, x) <==> y in s || y == x
  {
  }

  /** Adding to a set keeps it a set. */
  lemma AddToNoRepeats(s: seq<nat>, x: nat)
    requires NoRepeats(s)
    ensures NoRepeats(AddTo(s, x))
  {
    if x !in s {
      forall p, q | 0 <= p < q < |s| + 1
        ensures (s + [x])[p] != (s + [x])[q]
      {
        if q == |s| {
          assert s[p] in s;
        }
      }
    }
  }

  /** The edge at position `k` of the face joins `a` and `b`, in either direction. */
  predicate Linked(face: Face, k: nat, a: nat, b: nat)
    requires k < |face|
  {
    (face[k] == a && face[Next(k, |face|)] == b) || (face[k] == b && face[Next(k, |face|)] == a)
  }

  /** Some edge at a position below `i` joins `a` and `b`. */
  ghost predicate LinkedIn(face: Face, i: nat, a: nat, b: nat)
    requires i <= |face|
  {
    exists k :: 0 <= k < i && Linked(face, k, a, b)
  }

  /** Some edge of faces `0 .. count − 1` joins `a` and `b`. */
  ghost predicate AdjacentIn(p: Poly, count: nat, a: nat, b: nat)
    requires count <= |p.faces|
  {
    exists f :: 0 <= f < count && LinkedIn(p.faces[f], |p.faces[f]|, a, b)
  }

  /** `a` and `b` are joined by an edge of `p`. */
  ghost predicate Adjacent(p: Poly, a: nat, b: nat)
  {
    AdjacentIn(p, |p.faces|, a, b)
  }

  /** One edge of the adjacency loop: `a` and `b` join each other's lists. */
  function Link(lists: seq<seq<nat>>, a: nat, b: nat): (r: seq<seq<nat>>)
    requires a < |lists| && b < |lists|
    ensures |r| == |lists|
  {
    var w := lists[a := AddTo(lists[a], b)];
    w[b := AddTo(w[b], a)]
  }

  /** The adjacency loop on one face. */
  function Adjacency(lists: seq<seq<nat>>, face: Face, i: nat): (r: seq<seq<nat>>)
    requires FaceInRange(face, |lists|) && i <= |face|
    ensures |r| == |lists|
  {
    if i == 0 then lists
    else Link(Adjacency(lists, face, i - 1), face[i - 1], face[Next(i - 1, |face|)])
  }

  /** The adjacency loop over faces `0 .. count − 1`: `vertEdges`. */
  function Adjacencies(lists: seq<seq<nat>>, p: Poly, count: nat): (r: seq<seq<nat>>)
    requires InRange(p) && count <= |p.faces| && |lists| == |p.vertices|
    ensures |r| == |lists|
  {
    if count == 0 then lists
    else
      var face := p.faces[count - 1];
      assert FaceInRange(face, |p.vertices|);
      Adjacency(Adjacencies(lists, p, count - 1), face, |face|)
  }

  /** The neighbour lists of every vertex hold only vertices. */
  predicate ListsInRange(lists: seq<seq<nat>>, n: nat)
  {
    forall v, i :: 0 <= v < |lists| && 0 <= i < |lists[v]| ==> lists[v][i] < n
  }

  /** Each list is a set: no neighbour twice. */
  predicate ListsNoRepeats(lists: seq<seq<nat>>)
  {
    forall v :: 0 <= v < |lists| ==> NoRepeats(lists[v])
  }

  /** One adjacency step adds `y` to `x`'s list and `x` to `y`'s, and nothing else. */
  lemma LinkMembers(lists: seq<seq<nat>>, x: nat, y: nat, a: nat, b: nat)
    requires x < |lists| && y < |lists| && a < |lists|
    ensures b in Link(lists, x, y)[a] <==> (b in lists[a] || (a == x && b == y) || (a == y && b == x))
  {
    var w := lists[x := AddTo(lists[x], y)];
    AddToMember(lists[x], y, b);
    AddToMember(w[y], x, b);
  }

  /** One adjacency step keeps a list free of repeats. */
  lemma LinkNoRepeats(lists: seq<seq<nat>>, x: nat, y: nat, a: nat)
    requires x < |lists| && y < |lists| && a < |lists| && NoRepeats(lists[a])
    ensures NoRepeats(Link(lists, x, y)[a])
  {
    var w := lists[x := AddTo(lists[x], y)];
    if a == x {
      AddToNoRepeats(lists[x], y);
    }
    assert NoRepeats(w[a]);
    if a == y {
      AddToNoRepeats(w[y], x);
    }
  }

  /** The face adds to `a`'s list exactly the vertices its edges join to `a`. */
  lemma {:induction false} AdjacencyMember(lists: seq<seq<nat>>, face: Face, i: nat, a: nat, b: nat)
    requires FaceInRange(face, |lists|) && i <= |face| && a < |lists|
    ensures b in Adjacency(lists, face, i)[a] <==> (b in lists[a] || LinkedIn(face, i, a, b))
  {
    if i > 0 {
      var prev := Adjacency(lists, face, i - 1);
      AdjacencyMember(lists, face, i - 1, a, b);
      assert Adjacency(lists, face, i) == Link(prev, face[i - 1], face[Next(i - 1, |face|)]);
      LinkMembers(prev, face[i - 1], face[Next(i - 1, |face|)], a, b);
      LinkedInStep(face, i, a, b);
    }
  }

  /** An edge below `i` is an edge below `i − 1` or edge `i − 1`. */
  lemma LinkedInStep(face: Face, i: nat, a: nat, b: nat)
    requires 0 < i <= |face|
    ensures LinkedIn(face, i, a, b) <==> (LinkedIn(face, i - 1, a, b) || Linked(face, i - 1, a, b))
  {
    if LinkedIn(face, i, a, b) && !LinkedIn(face, i - 1, a, b) {
      var k :| 0 <= k < i && Linked(face, k, a, b);
      assert k == i - 1;
    }
    if Linked(face, i - 1, a, b) {
      assert LinkedIn(face, i, a, b);
    }
  }

  /** The face adds no vertex twice to a list. */
  lemma {:induction false} AdjacencyNoRepeats(lists: seq<seq<nat>>, face: Face, i: nat, a: nat)
    requires FaceInRange(face, |lists|) && i <= |face| && a < |lists| && NoRepeats(lists[a])
    ensures NoRepeats(Adjacency(lists, face, i)[a])
  {
    if i > 0 {
      AdjacencyNoRepeats(lists, face, i - 1, a);
      LinkNoRepeats(Adjacency(lists, face, i - 1), face[i - 1], face[Next(i - 1, |face|)], a);
    }
  }

  /** `vertEdges[a]` holds each vertex joined to `a` by an edge of the faces walked. */
  lemma {:induction false} AdjacenciesMember(lists: seq<seq<nat>>, p: Poly, count: nat, a: nat, b: nat)
    requires InRange(p) && count <= |p.faces| && |lists| == |p.vertices| && a < |p.vertices|
    ensures b in Adjacencies(lists, p, count)[a] <==> (b in lists[a] || AdjacentIn(p, count, a, b))
  {
    if count > 0 {
      var face := p.faces[count - 1];
      assert FaceInRange(face, |p.vertices|);
      AdjacenciesMember(lists, p, count - 1, a, b);
      AdjacencyMember(Adjacencies(lists, p, count - 1), face, |face|, a, b);
      if AdjacentIn(p, count, a, b) && !AdjacentIn(p, count - 1, a, b) {
        var f :| 0 <= f < count && LinkedIn(p.faces[f], |p.faces[f]|, a, b);
        assert f == count - 1;
      }
    }
  }

  /** No list of `vertEdges` holds a vertex twice. */
  lemma {:induction false} AdjacenciesNoRepeats(lists: seq<seq<nat>>, p: Poly, count: nat, a: nat)
    requires InRange(p) && count <= |p.faces| && |lists| == |p.vertices| && a < |p.vertices| && NoRepeats(lists[a])
    ensures NoRepeats(Adjacencies(lists, p, count)[a])
  {
    if count > 0 {
      var face := p.faces[count - 1];
      assert FaceInRange(face, |p.vertices|);
      AdjacenciesNoRepeats(lists, p, count - 1, a);
      AdjacencyNoRepeats(Adjacencies(lists, p, count - 1), face, |face|, a);
    }
  }

  /** Adjacent vertices of an in-range polyhedron are vertices. */
  lemma AdjacentInRange(p: Poly, a: nat, b: nat)
    requires InRange(p) && Adjacent(p, a, b)
    ensures a < |p.vertices| && b < |p.vertices|
  {
    var f :| 0 <= f < |p.faces| && LinkedIn(p.faces[f], |p.faces[f]|, a, b);
    var k :| 0 <= k < |p.faces[f]| && Linked(p.faces[f], k, a, b);
    assert FaceInRange(p.faces[f], |p.vertices|);
  }

  /** The final `vertEdges`: neighbours exactly, once each, all of them vertices. */
  lemma NeighbourLists(p: Poly)
    requires InRange(p)
    ensures var lists := Neighbours(p);
      (forall a, b :: 0 <= a < |p.vertices| ==> (b in lists[a] <==> Adjacent(p, a, b)))
      && ListsNoRepeats(lists) && ListsInRange(lists, |p.vertices|)
  {
    var lists := Neighbours(p);
    forall a, b | 0 <= a < |p.vertices|
      ensures b in lists[a] <==> Adjacent(p, a, b)
    {
      AdjacenciesMember(EmptyLists(|p.vertices|), p, |p.faces|, a, b);
    }
    forall a | 0 <= a < |p.vertices|
      ensures NoRepeats(lists[a])
    {
      AdjacenciesNoRepeats(EmptyLists(|p.vertices|), p, |p.faces|, a);
    }
    forall v, i | 0 <= v < |lists| && 0 <= i < |lists[v]|
      ensures lists[v][i] < |p.vertices|
    {
      assert lists[v][i] in lists[v];
      AdjacentInRange(p, v, lists[v][i]);
    }
  }

  // ==================== the cut vertices ====================

  /** The keys `getTruncVert(vi, vj)` looks up for `vj` in `neighbours`, in order. */
  function NeighbourKeys(vi: nat, neighbours: seq<nat>): (r: seq<Edge>)
    ensures |r| == |neighbours| && forall i :: 0 <= i < |neighbours| ==> r[i] == (vi, neighbours[i])
  {
    seq(|neighbours|, i requires 0 <= i < |neighbours| => (vi, neighbours[i]))
  }

  /** The initialisation loop over vertices `0 .. count − 1`. */
  function InitTable(t: Table<Edge>, point: Edge -> Vec3, lists: seq<seq<nat>>, count: nat): Table<Edge>
    requires count <= |lists|
  {
    if count == 0 then t
    else LookupAll(InitTable(t, point, lists, count - 1),
                   NeighbourKeys(count - 1, lists[count - 1]), point).0
  }

  /** Initialisation keeps the table consistent. */
  lemma {:induction false} InitTableValid(t: Table<Edge>, point: Edge -> Vec3, lists: seq<seq<nat>>, count: nat)
    requires count <= |lists| && Valid(t, point)
    ensures Valid(InitTable(t, point, lists, count), point)
  {
    if count > 0 {
      InitTableValid(t, point, lists, count - 1);
      LookupAllValid(InitTable(t, point, lists, count - 1), NeighbourKeys(count - 1, lists[count - 1]), point);
    }
  }

  /** A neighbour key names its vertex and one of the vertex's listed neighbours. */
  lemma NeighbourKeysMembers(vi: nat, neighbours: seq<nat>, k: Edge)
    ensures k in NeighbourKeys(vi, neighbours) <==> (k.0 == vi && k.1 in neighbours)
  {
    if k.0 == vi && k.1 in neighbours {
      var i :| 0 <= i < |neighbours| && neighbours[i] == k.1;
      assert NeighbourKeys(vi, neighbours)[i] == k;
    }
  }

  /** Initialisation adds exactly the listed ordered pairs. */
  lemma {:induction false} InitTableKeys(t: Table<Edge>, point: Edge -> Vec3, lists: seq<seq<nat>>, count: nat)
    requires count <= |lists|
    ensures forall k :: k in InitTable(t, point, lists, count).index <==>
      (k in t.index || (k.0 < count && k.1 in lists[k.0]))
  {
    if count > 0 {
      var prev := InitTable(t, point, lists, count - 1);
      InitTableKeys(t, point, lists, count - 1);
      var keys := NeighbourKeys(count - 1, lists[count - 1]);
      LookupAllKeys(prev, keys, point);
      forall k: Edge
        ensures k in keys <==> (k.0 == count - 1 && k.1 in lists[count - 1])
      {
        NeighbourKeysMembers(count - 1, lists[count - 1], k);
      }
    }
  }

  // ==================== the face-derived faces ====================

  /** The keys the face loop looks up for edges `0 .. i − 1`: `(vi, vj)` then `(vj, vi)` for each. */
  function RingKeysUpTo(face: Face, i: nat): (r: seq<Edge>)
    requires i <= |face|
    ensures |r| == 2 * i
    ensures forall k :: 0 <= k < i ==>
      r[2 * k] == (face[k], face[Next(k, |face|)]) && r[2 * k + 1] == (face[Next(k, |face|)], face[k])
  {
    if i == 0 then []
    else RingKeysUpTo(face, i - 1) + [(face[i - 1], face[Next(i - 1, |face|)]), (face[Next(i - 1, |face|)], face[i - 1])]
  }

  /** The keys one face looks up. */
  function RingKeys(face: Face): (r: seq<Edge>)
    ensures |r| == 2 * |face|
    ensures forall k :: 0 <= k < |face| ==>
      r[2 * k] == (face[k], face[Next(k, |face|)]) && r[2 * k + 1] == (face[Next(k, |face|)], face[k])
  {
    RingKeysUpTo(face, |face|)
  }

  /** Ring position `i` lies on edge `k`, at its start when `i` is even and at its end when odd. */
  lemma RingKeyAt(face: Face, i: nat) returns (k: nat)
    requires i < 2 * |face|
    ensures k < |face| && (i == 2 * k || i == 2 * k + 1)
    ensures i == 2 * k ==> RingKeys(face)[i] == (face[k], face[Next(k, |face|)])
    ensures i == 2 * k + 1 ==> RingKeys(face)[i] == (face[Next(k, |face|)], face[k])
  {
    k := i / 2;
  }

  /** The rings of the first `count` faces, and the table after them. */
  function TruncRings(t: Table<Edge>, p: Poly, point: Edge -> Vec3, count: nat): (r: (Table<Edge>, seq<Face>))
    requires count <= |p.faces|
    ensures |r.1| == count
  {
    if count == 0 then (t, [])
    else
      var prev := TruncRings(t, p, point, count - 1);
      var ring := LookupAll(prev.0, RingKeys(p.faces[count - 1]), point);
      (ring.0, prev.1 + [ring.1])
  }

  /** A ring key joins adjacent vertices. */
  lemma RingKeysAdjacent(p: Poly, f: nat, i: nat)
    requires f < |p.faces| && i < 2 * |p.faces[f]|
    ensures Adjacent(p, RingKeys(p.faces[f])[i].0, RingKeys(p.faces[f])[i].1)
  {
    var face := p.faces[f];
    var k := RingKeyAt(face, i);
    var a, b := face[k], face[Next(k, |face|)];
    assert Linked(face, k, a, b) && Linked(face, k, b, a);
    if i == 2 * k {
      assert LinkedIn(face, |face|, a, b);
    } else {
      assert LinkedIn(face, |face|, b, a);
    }
  }

  /** Every key `face` looks up is in the table. */
  ghost predicate RingKeysIn(t: Table<Edge>, face: Face)
  {
    forall i :: 0 <= i < 2 * |face| ==> RingKeys(face)[i] in t.index
  }

  /** `ring` is the ring of `face` in the table: position `i` holds the index of ring key `i`. */
  ghost predicate RingIn(t: Table<Edge>, face: Face, ring: seq<nat>)
  {
    |ring| == 2 * |face|
    && forall i :: 0 <= i < 2 * |face| ==> RingKeys(face)[i] in t.index && ring[i] == t.index[RingKeys(face)[i]]
  }

  /** A face whose keys are all in the table creates nothing and gets its ring. */
  lemma RingHit(t: Table<Edge>, face: Face, point: Edge -> Vec3)
    requires RingKeysIn(t, face)
    ensures LookupAll(t, RingKeys(face), point).0 == t && RingIn(t, face, LookupAll(t, RingKeys(face), point).1)
  {
    LookupAllHits(t, RingKeys(face), point);
    ExtendsReflexive(t);
    LookupAllIndices(t, RingKeys(face), point, t);
  }

  /**
   * Once the table holds every key a face looks up, the face loop creates nothing, and each
   * old face gets its ring.
   */
  lemma {:induction false} TruncRingsHit(t: Table<Edge>, p: Poly, point: Edge -> Vec3, count: nat)
    requires count <= |p.faces|
    requires forall f :: 0 <= f < |p.faces| ==> RingKeysIn(t, p.faces[f])
    ensures var r := TruncRings(t, p, point, count);
      r.0 == t && forall f :: 0 <= f < count ==> RingIn(t, p.faces[f], r.1[f])
  {
    if count > 0 {
      var prev := TruncRings(t, p, point, count - 1);
      var last := LookupAll(prev.0, RingKeys(p.faces[count - 1]), point);
      assert prev.0 == t && forall f :: 0 <= f < count - 1 ==> RingIn(t, p.faces[f], prev.1[f]) by {
        TruncRingsHit(t, p, point, count - 1);
      }
      assert last.0 == t && RingIn(t, p.faces[count - 1], last.1) by {
        RingHit(t, p.faces[count - 1], point);
      }
      assert TruncRings(t, p, point, count) == (t, prev.1 + [last.1]);
      RingsAppend(t, p.faces[..count], prev.1, last.1);
    }
  }

  /** Rings of the first faces, then the ring of the next face. */
  lemma RingsAppend(t: Table<Edge>, faces: seq<Face>, prev: seq<seq<nat>>, last: seq<nat>)
    requires |faces| == |prev| + 1
    requires forall f :: 0 <= f < |prev| ==> RingIn(t, faces[f], prev[f])
    requires RingIn(t, faces[|prev|], last)
    ensures forall f :: 0 <= f < |faces| ==> RingIn(t, faces[f], (prev + [last])[f])
  {
    forall f | 0 <= f < |faces|
      ensures RingIn(t, faces[f], (prev + [last])[f])
    {
      if f < |prev| {
        assert (prev + [last])[f] == prev[f];
      }
    }
  }

  // ==================== the vertex-derived faces ====================

  /** The vertex loop over vertices `0 .. count − 1`, and the table after it. */
  function CutFaces(t: Table<Edge>, vertices: seq<Vec3>, point: Edge -> Vec3, lists: seq<seq<nat>>, count: nat,
                    sqrt: real -> real, atan2: (real, real) -> real): (r: (Table<Edge>, seq<Face>))
    requires count <= |vertices| && count <= |lists|
  {
    if count == 0 then (t, [])
    else
      var prev := CutFaces(t, vertices, point, lists, count - 1, sqrt, atan2);
      var cut := LookupAll(prev.0, NeighbourKeys(count - 1, lists[count - 1]), point);
      (cut.0, prev.1 + VertexFace(cut.0.verts, cut.1, vertices[count - 1], sqrt, atan2))
  }

  /** `if (truncVerts.length >= 3) newFaces.push(orderVerticesAroundPoint(...))`. */
  function VertexFace(points: seq<Vec3>, cuts: seq<nat>, center: Vec3, sqrt: real -> real, atan2: (real, real) -> real)
    : (r: seq<Face>)
    ensures |r| <= 1
    ensures |r| == 1 <==> |cuts| >= 3
    ensures |r| == 1 ==> multiset(r[0]) == multiset(cuts)
  {
    if |cuts| >= 3 then [OrderAround(points, cuts, center, sqrt, atan2)] else []
  }

  /** `face` consists of exactly the table's cut vertices `(v, w)` for the neighbours `w` of `v`. */
  ghost predicate CutsAt(t: Table<Edge>, lists: seq<seq<nat>>, face: Face, v: nat)
    requires v < |lists|
  {
    forall x :: x in face <==> exists w :: w in lists[v] && (v, w) in t.index && x == t.index[(v, w)]
  }

  /** No two keys of the table share an index. */
  ghost predicate Injective(t: Table<Edge>)
  {
    forall k1, k2 :: k1 in t.index && k2 in t.index && k1 != k2 ==> t.index[k1] != t.index[k2]
  }

  /** A vertex whose neighbour pairs are all in the table creates nothing. */
  lemma CutsHit(t: Table<Edge>, point: Edge -> Vec3, lists: seq<seq<nat>>, v: nat)
    requires v < |lists|
    requires forall w :: w in lists[v] ==> (v, w) in t.index
    ensures LookupAll(t, NeighbourKeys(v, lists[v]), point).0 == t
  {
    var keys := NeighbourKeys(v, lists[v]);
    forall i | 0 <= i < |keys|
      ensures keys[i] in t.index
    {
      assert lists[v][i] in lists[v];
    }
    LookupAllHits(t, keys, point);
  }

  /** The `truncVerts` of a vertex whose neighbour pairs are all in the table. */
  lemma CutsOfVertex(t: Table<Edge>, point: Edge -> Vec3, lists: seq<seq<nat>>, v: nat)
    requires v < |lists| && NoRepeats(lists[v]) && Injective(t)
    requires forall w :: w in lists[v] ==> (v, w) in t.index
    ensures var cut := LookupAll(t, NeighbourKeys(v, lists[v]), point);
      |cut.1| == |lists[v]| && NoRepeats(cut.1) && CutsAt(t, lists, cut.1, v)
  {
    var keys := NeighbourKeys(v, lists[v]);
    CutsHit(t, point, lists, v);
    ExtendsReflexive(t);
    LookupAllIndices(t, keys, point, t);
    var cut := LookupAll(t, keys, point);
    forall a, b | 0 <= a < b < |cut.1|
      ensures cut.1[a] != cut.1[b]
    {
      assert keys[a] != keys[b];
    }
    forall x
      ensures x in cut.1 <==> exists w :: w in lists[v] && (v, w) in t.index && x == t.index[(v, w)]
    {
      if x in cut.1 {
        var i :| 0 <= i < |cut.1| && cut.1[i] == x;
        assert lists[v][i] in lists[v];
      }
      if exists w :: w in lists[v] && (v, w) in t.index && x == t.index[(v, w)] {
        var w :| w in lists[v] && (v, w) in t.index && x == t.index[(v, w)];
        var i :| 0 <= i < |lists[v]| && lists[v][i] == w;
        assert cut.1[i] == x;
      }
    }
  }

  /** Reordering the cut vertices keeps them what they are. */
  lemma OrderedCuts(t: Table<Edge>, lists: seq<seq<nat>>, v: nat, face: Face, cuts: seq<nat>)
    requires v < |lists| && multiset(face) == multiset(cuts) && NoRepeats(cuts) && CutsAt(t, lists, cuts, v)
    ensures NoRepeats(face) && |face| == |cuts| && CutsAt(t, lists, face, v)
  {
    SameMultisetNoRepeats(face, cuts);
    assert |multiset(face)| == |multiset(cuts)|;
    forall x
      ensures x in face <==> x in cuts
    {
      assert x in face <==> x in multiset(face);
      assert x in cuts <==> x in multiset(cuts);
    }
  }

  /** A face of the vertex loop: the cut vertices of one vertex below `count`, at least three. */
  ghost predicate CutFaceOf(t: Table<Edge>, lists: seq<seq<nat>>, face: Face, count: nat)
    requires count <= |lists|
  {
    |face| >= 3 && NoRepeats(face) && exists v :: 0 <= v < count && |face| == |lists[v]| && CutsAt(t, lists, face, v)
  }

  /**
   * Once the table holds every neighbour pair, the vertex loop creates nothing, and each face
   * it adds belongs to one vertex with at least three neighbours and holds its cut vertices.
   */
  lemma {:induction false} CutFacesHit(t: Table<Edge>, vertices: seq<Vec3>, point: Edge -> Vec3, lists: seq<seq<nat>>,
                                       count: nat, sqrt: real -> real, atan2: (real, real) -> real)
    requires count <= |vertices| && count <= |lists|
    requires forall v, w :: 0 <= v < |lists| && w in lists[v] ==> (v, w) in t.index
    ensures CutFaces(t, vertices, point, lists, count, sqrt, atan2).0 == t
  {
    if count > 0 {
      CutFacesHit(t, vertices, point, lists, count - 1, sqrt, atan2);
      CutsHit(t, point, lists, count - 1);
    }
  }

  /** Each face the vertex loop adds belongs to one vertex with at least three neighbours. */
  lemma {:induction false} CutFacesProperties(t: Table<Edge>, vertices: seq<Vec3>, point: Edge -> Vec3, lists: seq<seq<nat>>,
                                              count: nat, sqrt: real -> real, atan2: (real, real) -> real)
    requires count <= |vertices| && count <= |lists|
    requires forall v, w :: 0 <= v < |lists| && w in lists[v] ==> (v, w) in t.index
    requires ListsNoRepeats(lists) && Injective(t)
    ensures var r := CutFaces(t, vertices, point, lists, count, sqrt, atan2).1;
      |r| <= count && forall g :: 0 <= g < |r| ==> CutFaceOf(t, lists, r[g], count)
  {
    if count > 0 {
      var prev := CutFaces(t, vertices, point, lists, count - 1, sqrt, atan2);
      CutFacesHit(t, vertices, point, lists, count - 1, sqrt, atan2);
      CutFacesProperties(t, vertices, point, lists, count - 1, sqrt, atan2);
      var v := count - 1;
      CutsHit(t, point, lists, v);
      CutsOfVertex(t, point, lists, v);
      var cut := LookupAll(t, NeighbourKeys(v, lists[v]), point);
      var extra := VertexFace(t.verts, cut.1, vertices[v], sqrt, atan2);
      forall g | 0 <= g < |extra|
        ensures CutFaceOf(t, lists, extra[g], count)
      {
        OrderedCuts(t, lists, v, extra[g], cut.1);
      }
      CutFacesJoin(t, lists, prev.1, extra, count);
    }
  }

  /** Faces of vertices below `count − 1`, and then of `count − 1`, are faces of vertices below `count`. */
  lemma CutFacesJoin(t: Table<Edge>, lists: seq<seq<nat>>, prev: seq<Face>, extra: seq<Face>, count: nat)
    requires 0 < count <= |lists|
    requires forall g :: 0 <= g < |prev| ==> CutFaceOf(t, lists, prev[g], count - 1)
    requires forall g :: 0 <= g < |extra| ==> CutFaceOf(t, lists, extra[g], count)
    ensures forall g :: 0 <= g < |prev + extra| ==> CutFaceOf(t, lists, (prev + extra)[g], count)
  {
    forall g | 0 <= g < |prev + extra|
      ensures CutFaceOf(t, lists, (prev + extra)[g], count)
    {
      if g < |prev| {
        assert (prev + extra)[g] == prev[g];
        assert CutFaceOf(t, lists, prev[g], count - 1);
        var u :| 0 <= u < count - 1 && |prev[g]| == |lists[u]| && CutsAt(t, lists, prev[g], u);
      } else {
        assert (prev + extra)[g] == extra[g - |prev|];
      }
    }
  }

  // ==================== truncate ====================

  /** `vertEdges` once every face has been walked. */
  function Neighbours(p: Poly): (r: seq<seq<nat>>)
    requires InRange(p)
    ensures |r| == |p.vertices|
  {
    Adjacencies(EmptyLists(|p.vertices|), p, |p.faces|)
  }

  /** The table after the initialisation loop. */
  function CutTable(p: Poly, t: real): Table<Edge>
    requires InRange(p)
  {
    InitTable(Table(map[], []), CutPoint(p.vertices, t), Neighbours(p), |p.vertices|)
  }

  /** The polyhedron `truncate(poly, amount)` returns. */
  function TruncateOf(p: Poly, amount: Option<real>, sqrt: real -> real, atan2: (real, real) -> real): Poly
    requires InRange(p)
  {
    var t := amount.GetOr(1.0 / 3.0);
    var init := CutTable(p, t);
    var rings := TruncRings(init, p, CutPoint(p.vertices, t), |p.faces|);
    var cuts := CutFaces(rings.0, p.vertices, CutPoint(p.vertices, t), Neighbours(p), |p.vertices|, sqrt, atan2);
    Poly(NormalizeAll(cuts.0.verts, sqrt), rings.1 + cuts.1, "t(" + p.name + ")")
  }

  /** The ordered pairs of adjacent vertices. */
  ghost function AdjacentPairs(p: Poly): set<Edge>
  {
    set a: nat, b: nat | a < |p.vertices| && b < |p.vertices| && Adjacent(p, a, b) :: (a, b)
  }

  /** Initialisation creates one vertex for each ordered pair of adjacent vertices, at its cut point. */
  lemma CutTableProperties(p: Poly, t: real)
    requires InRange(p)
    ensures Valid(CutTable(p, t), CutPoint(p.vertices, t))
    ensures CutTable(p, t).index.Keys == AdjacentPairs(p)
  {
    var lists := Neighbours(p);
    NeighbourLists(p);
    var t0: Table<Edge> := Table(map[], []);
    assert Valid(t0, CutPoint(p.vertices, t));
    InitTableValid(t0, CutPoint(p.vertices, t), lists, |p.vertices|);
    InitTableKeys(t0, CutPoint(p.vertices, t), lists, |p.vertices|);
    forall k | k in CutTable(p, t).index
      ensures k in AdjacentPairs(p)
    {
      assert Adjacent(p, k.0, k.1);
      AdjacentInRange(p, k.0, k.1);
    }
  }

  /** So every key the later loops look up is already in the table. */
  lemma CutTableHits(p: Poly, t: real)
    requires InRange(p)
    ensures forall v, w :: 0 <= v < |p.vertices| && w in Neighbours(p)[v] ==> (v, w) in CutTable(p, t).index
    ensures forall f :: 0 <= f < |p.faces| ==> RingKeysIn(CutTable(p, t), p.faces[f])
  {
    var lists := Neighbours(p);
    NeighbourLists(p);
    InitTableKeys(Table(map[], []), CutPoint(p.vertices, t), lists, |p.vertices|);
    forall f, i | 0 <= f < |p.faces| && 0 <= i < 2 * |p.faces[f]|
      ensures RingKeys(p.faces[f])[i] in CutTable(p, t).index
    {
      var key := RingKeys(p.faces[f])[i];
      RingKeysAdjacent(p, f, i);
      AdjacentInRange(p, key.0, key.1);
    }
  }

  /** The face loop creates no vertex; ring position `i` holds the vertex of ring key `i`. */
  lemma TruncateRings(p: Poly, t: real)
    requires InRange(p)
    ensures var init := CutTable(p, t);
      var rings := TruncRings(init, p, CutPoint(p.vertices, t), |p.faces|);
      rings.0 == init && forall f :: 0 <= f < |p.faces| ==> RingIn(init, p.faces[f], rings.1[f])
  {
    CutTableHits(p, t);
    TruncRingsHit(CutTable(p, t), p, CutPoint(p.vertices, t), |p.faces|);
  }

  /** The vertex loop creates no vertex; each face it adds is the cut face of one vertex. */
  lemma TruncateCuts(p: Poly, t: real, sqrt: real -> real, atan2: (real, real) -> real)
    requires InRange(p)
    ensures var init := CutTable(p, t);
      var cuts := CutFaces(init, p.vertices, CutPoint(p.vertices, t), Neighbours(p), |p.vertices|, sqrt, atan2);
      cuts.0 == init && |cuts.1| <= |p.vertices|
      && forall g :: 0 <= g < |cuts.1| ==> CutFaceOf(init, Neighbours(p), cuts.1[g], |p.vertices|)
  {
    var init := CutTable(p, t);
    CutTableProperties(p, t);
    CutTableHits(p, t);
    NeighbourLists(p);
    CutFacesHit(init, p.vertices, CutPoint(p.vertices, t), Neighbours(p), |p.vertices|, sqrt, atan2);
    CutFacesProperties(init, p.vertices, CutPoint(p.vertices, t), Neighbours(p), |p.vertices|, sqrt, atan2);
  }

  /** The default amount: an absent `amount` cuts at a third of each edge. */
  function Amount(amount: Option<real>): (t: real)
    ensures amount.Some? ==> t == amount.value
    ensures amount.None? ==> t == 1.0 / 3.0
  {
    amount.GetOr(1.0 / 3.0)
  }

  /** The face loop's rings are the first faces of the result; the vertex loop adds at most one per vertex. */
  lemma TruncateRingsFirst(p: Poly, amount: Option<real>, sqrt: real -> real, atan2: (real, real) -> real)
    requires InRange(p)
    ensures var t := Amount(amount);
      var init := CutTable(p, t);
      var r := TruncateOf(p, amount, sqrt, atan2);
      r.vertices == NormalizeAll(init.verts, sqrt)
      && |p.faces| <= |r.faces| <= |p.faces| + |p.vertices|
      && r.name == "t(" + p.name + ")"
      && RingsOf(p, init, r.faces)
  {
    var t := Amount(amount);
    var init := CutTable(p, t);
    var point := CutPoint(p.vertices, t);
    var rings := TruncRings(init, p, point, |p.faces|);
    var cuts := CutFaces(rings.0, p.vertices, point, Neighbours(p), |p.vertices|, sqrt, atan2);
    var r := TruncateOf(p, amount, sqrt, atan2);
    TruncateRings(p, t);
    TruncateCuts(p, t, sqrt, atan2);
    assert r.faces == rings.1 + cuts.1;
    forall f | 0 <= f < |p.faces|
      ensures r.faces[f] == rings.1[f]
    {
    }
  }

  /** The first faces of `faces` are the rings of `p`'s faces looked up in `t`. */
  ghost predicate RingsOf(p: Poly, t: Table<Edge>, faces: seq<Face>)
  {
    |p.faces| <= |faces| && forall f :: 0 <= f < |p.faces| ==> RingIn(t, p.faces[f], faces[f])
  }

  /** The ring positions' vertices, for any consistent table of cut points. */
  lemma RingVertices(p: Poly, t: real, init: Table<Edge>, vs: seq<Vec3>, faces: seq<Face>, sqrt: real -> real)
    requires InRange(p) && Valid(init, CutPoint(p.vertices, t)) && vs == NormalizeAll(init.verts, sqrt)
    requires RingsOf(p, init, faces)
    ensures forall f, k :: 0 <= f < |p.faces| && 0 <= k < |p.faces[f]| ==>
      var a, b := p.faces[f][k], p.faces[f][Next(k, |p.faces[f]|)];
      faces[f][2 * k] < |vs| && faces[f][2 * k + 1] < |vs|
      && vs[faces[f][2 * k]] == Normalize3(Along(p.vertices[a], p.vertices[b], t), sqrt)
      && vs[faces[f][2 * k + 1]] == Normalize3(Along(p.vertices[b], p.vertices[a], t), sqrt)
  {
    var point := CutPoint(p.vertices, t);
    forall f, k | 0 <= f < |p.faces| && 0 <= k < |p.faces[f]|
      ensures var a, b := p.faces[f][k], p.faces[f][Next(k, |p.faces[f]|)];
        faces[f][2 * k] < |vs| && faces[f][2 * k + 1] < |vs|
        && vs[faces[f][2 * k]] == Normalize3(Along(p.vertices[a], p.vertices[b], t), sqrt)
        && vs[faces[f][2 * k + 1]] == Normalize3(Along(p.vertices[b], p.vertices[a], t), sqrt)
    {
      var a, b := p.faces[f][k], p.faces[f][Next(k, |p.faces[f]|)];
      assert FaceInRange(p.faces[f], |p.vertices|);
      assert RingKeys(p.faces[f])[2 * k] == (a, b) && RingKeys(p.faces[f])[2 * k + 1] == (b, a);
      assert point((a, b)) == Along(p.vertices[a], p.vertices[b], t);
      assert point((b, a)) == Along(p.vertices[b], p.vertices[a], t);
    }
  }

  /**
   * `truncate` creates one vertex per ordered pair of adjacent vertices, keeps every old
   * face, adds at most one face per old vertex, and names the result `t(…)`.
   */
  lemma TruncateCounts(p: Poly, amount: Option<real>, sqrt: real -> real, atan2: (real, real) -> real)
    requires InRange(p)
    ensures var r := TruncateOf(p, amount, sqrt, atan2);
      |r.vertices| == |AdjacentPairs(p)|
      && |p.faces| <= |r.faces| <= |p.faces| + |p.vertices|
      && r.name == "t(" + p.name + ")"
  {
    var t := Amount(amount);
    var init := CutTable(p, t);
    CutTableProperties(p, t);
    TruncateRingsFirst(p, amount, sqrt, atan2);
    assert |init.index.Keys| == |init.verts|;
  }

  /**
   * Each old face doubles its length: position `2k` holds the cut near `face[k]` on edge `k`
   * and position `2k + 1` the cut near its other end, pushed out to the unit sphere.
   */
  lemma TruncateRingVertices(p: Poly, amount: Option<real>, sqrt: real -> real, atan2: (real, real) -> real)
    requires InRange(p)
    ensures var r := TruncateOf(p, amount, sqrt, atan2);
      var t := Amount(amount);
      (forall f :: 0 <= f < |p.faces| ==> |r.faces[f]| == 2 * |p.faces[f]|)
      && forall f, k :: 0 <= f < |p.faces| && 0 <= k < |p.faces[f]| ==>
           var a, b := p.faces[f][k], p.faces[f][Next(k, |p.faces[f]|)];
           r.faces[f][2 * k] < |r.vertices| && r.faces[f][2 * k + 1] < |r.vertices|
           && r.vertices[r.faces[f][2 * k]] == Normalize3(Along(p.vertices[a], p.vertices[b], t), sqrt)
           && r.vertices[r.faces[f][2 * k + 1]] == Normalize3(Along(p.vertices[b], p.vertices[a], t), sqrt)
  {
    var t := Amount(amount);
    var init := CutTable(p, t);
    var r := TruncateOf(p, amount, sqrt, atan2);
    CutTableProperties(p, t);
    TruncateRingsFirst(p, amount, sqrt, atan2);
    RingVertices(p, t, init, r.vertices, r.faces, sqrt);
  }


  /** Two ring positions share a vertex exactly when they look up the same ordered pair. */
  lemma TruncateRingSharing(p: Poly, amount: Option<real>, sqrt: real -> real, atan2: (real, real) -> real)
    requires InRange(p)
    ensures var r := TruncateOf(p, amount, sqrt, atan2);
      (forall f :: 0 <= f < |p.faces| ==> |r.faces[f]| == 2 * |p.faces[f]|)
      && forall f, i, g, j :: 0 <= f < |p.faces| && 0 <= i < 2 * |p.faces[f]| && 0 <= g < |p.faces| && 0 <= j < 2 * |p.faces[g]| ==>
           (r.faces[f][i] == r.faces[g][j] <==> RingKeys(p.faces[f])[i] == RingKeys(p.faces[g])[j])
  {
    CutTableProperties(p, Amount(amount));
    TruncateRingsFirst(p, amount, sqrt, atan2);
  }

  /** `x` is the vertex the face-derived faces of `r` put at a ring position cut near `v`. */
  ghost predicate CutNear(r: Poly, p: Poly, v: nat, x: nat)
  {
    exists f, i :: 0 <= f < |p.faces| && f < |r.faces| && 0 <= i < 2 * |p.faces[f]| && i < |r.faces[f]|
      && RingKeys(p.faces[f])[i].0 == v && x == r.faces[f][i]
  }

  /** `face` consists of exactly the vertices `r` cuts near `v`. */
  ghost predicate CutsAround(r: Poly, p: Poly, face: Face, v: nat)
  {
    forall x :: x in face <==> CutNear(r, p, v, x)
  }

  /** A cut vertex `(v, w)` of the table sits at a ring position cut near `v`. */
  lemma CutIsNear(t: Table<Edge>, p: Poly, r: Poly, v: nat, w: nat)
    requires InRange(p) && Adjacent(p, v, w) && (v, w) in t.index
    requires RingsOf(p, t, r.faces)
    ensures CutNear(r, p, v, t.index[(v, w)])
  {
    var f :| 0 <= f < |p.faces| && LinkedIn(p.faces[f], |p.faces[f]|, v, w);
    var face := p.faces[f];
    var k :| 0 <= k < |face| && Linked(face, k, v, w);
    var i := if face[k] == v && face[Next(k, |face|)] == w then 2 * k else 2 * k + 1;
    assert RingKeys(face)[i] == (v, w);
    assert RingIn(t, face, r.faces[f]);
  }

  /** A vertex at a ring position cut near `v` is a cut vertex `(v, w)` of a neighbour `w`. */
  lemma NearIsCut(t: Table<Edge>, p: Poly, r: Poly, v: nat, x: nat) returns (w: nat)
    requires InRange(p) && CutNear(r, p, v, x)
    requires RingsOf(p, t, r.faces)
    ensures Adjacent(p, v, w) && (v, w) in t.index && x == t.index[(v, w)]
  {
    var f, i :| 0 <= f < |p.faces| && f < |r.faces| && 0 <= i < 2 * |p.faces[f]| && i < |r.faces[f]|
                && RingKeys(p.faces[f])[i].0 == v && x == r.faces[f][i];
    var key := RingKeys(p.faces[f])[i];
    RingKeysAdjacent(p, f, i);
    assert RingIn(t, p.faces[f], r.faces[f]);
    w := key.1;
    assert key == (v, w);
  }

  /** The table's cut vertices of `v` are the ones the face-derived faces put near `v`. */
  lemma CutsAtIffNear(t: Table<Edge>, p: Poly, r: Poly, v: nat, x: nat)
    requires InRange(p) && v < |p.vertices|
    requires RingsOf(p, t, r.faces)
    ensures (exists w :: w in Neighbours(p)[v] && (v, w) in t.index && x == t.index[(v, w)]) <==> CutNear(r, p, v, x)
  {
    NeighbourLists(p);
    if exists w :: w in Neighbours(p)[v] && (v, w) in t.index && x == t.index[(v, w)] {
      var w :| w in Neighbours(p)[v] && (v, w) in t.index && x == t.index[(v, w)];
      CutIsNear(t, p, r, v, w);
    }
    if CutNear(r, p, v, x) {
      var w := NearIsCut(t, p, r, v, x);
      assert w in Neighbours(p)[v];
    }
  }

  /** One vertex-derived face of `truncate`. */
  lemma TruncateVertexFace(p: Poly, amount: Option<real>, sqrt: real -> real, atan2: (real, real) -> real, g: nat)
    requires InRange(p) && |p.faces| <= g < |TruncateOf(p, amount, sqrt, atan2).faces|
    ensures var r := TruncateOf(p, amount, sqrt, atan2);
      |r.faces[g]| >= 3 && NoRepeats(r.faces[g])
      && exists v :: 0 <= v < |p.vertices| && |r.faces[g]| == |Neighbours(p)[v]| && CutsAround(r, p, r.faces[g], v)
  {
    var t := Amount(amount);
    var init := CutTable(p, t);
    var point := CutPoint(p.vertices, t);
    var rings := TruncRings(init, p, point, |p.faces|);
    var cuts := CutFaces(rings.0, p.vertices, point, Neighbours(p), |p.vertices|, sqrt, atan2);
    var r := TruncateOf(p, amount, sqrt, atan2);
    TruncateRings(p, t);
    TruncateCuts(p, t, sqrt, atan2);
    assert r.faces == rings.1 + cuts.1;
    assert r.faces[g] == cuts.1[g - |p.faces|];
    assert CutFaceOf(init, Neighbours(p), cuts.1[g - |p.faces|], |p.vertices|);
    var v :| 0 <= v < |p.vertices| && |r.faces[g]| == |Neighbours(p)[v]| && CutsAt(init, Neighbours(p), r.faces[g], v);
    forall f | 0 <= f < |p.faces|
      ensures r.faces[f] == rings.1[f]
    {
    }
    forall x
      ensures x in r.faces[g] <==> CutNear(r, p, v, x)
    {
      CutsAtIffNear(init, p, r, v, x);
    }
    assert CutsAround(r, p, r.faces[g], v);
  }

  /**
   * Every vertex-derived face of `truncate` belongs to one old vertex: one entry per
   * neighbour of the vertex, at least three, none twice, and they are exactly the vertices
   * the face-derived faces cut near that vertex.
   */
  lemma TruncateVertexFaces(p: Poly, amount: Option<real>, sqrt: real -> real, atan2: (real, real) -> real)
    requires InRange(p)
    ensures var r := TruncateOf(p, amount, sqrt, atan2);
      forall g :: |p.faces| <= g < |r.faces| ==>
        |r.faces[g]| >= 3 && NoRepeats(r.faces[g])
        && exists v :: 0 <= v < |p.vertices| && |r.faces[g]| == |Neighbours(p)[v]| && CutsAround(r, p, r.faces[g], v)
  {
    var r := TruncateOf(p, amount, sqrt, atan2);
    forall g | |p.faces| <= g < |r.faces|
      ensures |r.faces[g]| >= 3 && NoRepeats(r.faces[g])
        && exists v :: 0 <= v < |p.vertices| && |r.faces[g]| == |Neighbours(p)[v]| && CutsAround(r, p, r.faces[g], v)
    {
      TruncateVertexFace(p, amount, sqrt, atan2, g);
    }
  }

  /** Face `g` of `r` consists of the vertices cut near some old vertex. */
  ghost predicate CutFaceAt(r: Poly, p: Poly, g: nat)
    requires g < |r.faces|
  {
    exists v :: 0 <= v < |p.vertices| && CutsAround(r, p, r.faces[g], v)
  }

  /** A ring of table indices holds only created vertices. */
  lemma RingInRange(init: Table<Edge>, point: Edge -> Vec3, face: Face, ring: seq<nat>)
    requires Valid(init, point) && RingIn(init, face, ring)
    ensures FaceInRange(ring, |init.verts|)
  {
    forall i | 0 <= i < |ring|
      ensures ring[i] < |init.verts|
    {
      assert ring[i] == init.index[RingKeys(face)[i]];
    }
  }

  /** A face of vertices cut near `v` holds only vertices of the rings. */
  lemma CutFaceInRange(p: Poly, init: Table<Edge>, point: Edge -> Vec3, r: Poly, g: nat)
    requires Valid(init, point) && |r.vertices| == |init.verts| && RingsOf(p, init, r.faces)
    requires g < |r.faces| && CutFaceAt(r, p, g)
    ensures FaceInRange(r.faces[g], |r.vertices|)
  {
    var v :| 0 <= v < |p.vertices| && CutsAround(r, p, r.faces[g], v);
    forall i | 0 <= i < |r.faces[g]|
      ensures r.faces[g][i] < |r.vertices|
    {
      assert r.faces[g][i] in r.faces[g];
      var f, j :| 0 <= f < |p.faces| && f < |r.faces| && 0 <= j < 2 * |p.faces[f]| && j < |r.faces[f]|
                  && RingKeys(p.faces[f])[j].0 == v && r.faces[g][i] == r.faces[f][j];
      assert RingIn(init, p.faces[f], r.faces[f]);
    }
  }

  /** Faces made of ring vertices and of vertices cut near old vertices stay in range. */
  lemma CutFacesInRange(p: Poly, init: Table<Edge>, point: Edge -> Vec3, r: Poly)
    requires Valid(init, point) && |r.vertices| == |init.verts| && RingsOf(p, init, r.faces)
    requires forall g :: |p.faces| <= g < |r.faces| ==> CutFaceAt(r, p, g)
    ensures InRange(r)
  {
    forall g | 0 <= g < |r.faces|
      ensures FaceInRange(r.faces[g], |r.vertices|)
    {
      if g < |p.faces| {
        RingInRange(init, point, p.faces[g], r.faces[g]);
      } else {
        CutFaceInRange(p, init, point, r, g);
      }
    }
  }

  /** `truncate` keeps every face in range, and polygons stay polygons. */
  lemma TruncateInRange(p: Poly, amount: Option<real>, sqrt: real -> real, atan2: (real, real) -> real)
    requires InRange(p)
    ensures InRange(TruncateOf(p, amount, sqrt, atan2))
    ensures (forall f :: 0 <= f < |p.faces| ==> |p.faces[f]| >= 2) ==>
      forall g :: 0 <= g < |TruncateOf(p, amount, sqrt, atan2).faces| ==> |TruncateOf(p, amount, sqrt, atan2).faces[g]| >= 3
  {
    var t := Amount(amount);
    var r := TruncateOf(p, amount, sqrt, atan2);
    CutTableProperties(p, t);
    TruncateRingsFirst(p, amount, sqrt, atan2);
    TruncateVertexFaces(p, amount, sqrt, atan2);
    forall g | |p.faces| <= g < |r.faces|
      ensures CutFaceAt(r, p, g)
    {
      var v :| 0 <= v < |p.vertices| && |r.faces[g]| == |Neighbours(p)[v]| && CutsAround(r, p, r.faces[g], v);
    }
    CutFacesInRange(p, CutTable(p, t), CutPoint(p.vertices, t), r);
  }

  // ==================== the loops ====================

  /** The adjacency loop on one face: `vertEdges[face[i]].add(face[j]); vertEdges[face[j]].add(face[i])`. */
  method AdjacencyOfFace(lists: seq<seq<nat>>, face: Face) returns (vertEdges: seq<seq<nat>>)
    requires FaceInRange(face, |lists|)
    ensures vertEdges == Adjacency(lists, face, |face|)
  {
    vertEdges := lists;
    var i := 0;
    while i < |face|
      invariant i <= |face| && |vertEdges| == |lists|
      invariant vertEdges == Adjacency(lists, face, i)
    {
      var a, b := face[i], face[Next(i, |face|)];
      ghost var prev := vertEdges;
      vertEdges := vertEdges[a := AddTo(vertEdges[a], b)];
      vertEdges := vertEdges[b := AddTo(vertEdges[b], a)];
      assert vertEdges == Link(prev, a, b);
      i := i + 1;
    }
  }

  /** `vertEdges`: which vertices share an edge with each vertex. */
  method AdjacencyLoop(p: Poly) returns (vertEdges: seq<seq<nat>>)
    requires InRange(p)
    ensures vertEdges == Neighbours(p)
  {
    vertEdges := EmptyLists(|p.vertices|);
    var fi := 0;
    while fi < |p.faces|
      invariant fi <= |p.faces| && |vertEdges| == |p.vertices|
      invariant vertEdges == Adjacencies(EmptyLists(|p.vertices|), p, fi)
    {
      assert FaceInRange(p.faces[fi], |p.vertices|);
      vertEdges := AdjacencyOfFace(vertEdges, p.faces[fi]);
      fi := fi + 1;
    }
  }

  /** `getTruncVert(vi, vj)` for each `vj` of `neighbours` in turn. */
  method CutLoop(table: VertexTable<Edge>, vertices: seq<Vec3>, t: real, vi: nat, neighbours: seq<nat>)
    returns (cuts: seq<nat>)
    requires vi < |vertices| && forall i :: 0 <= i < |neighbours| ==> neighbours[i] < |vertices|
    modifies table
    ensures (table.State(), cuts) == LookupAll(old(table.State()), NeighbourKeys(vi, neighbours), CutPoint(vertices, t))
  {
    ghost var start := table.State();
    ghost var keys := NeighbourKeys(vi, neighbours);
    cuts := [];
    var i := 0;
    while i < |neighbours|
      invariant i <= |neighbours|
      invariant (table.State(), cuts) == LookupAll(start, keys[..i], CutPoint(vertices, t))
    {
      var vj := neighbours[i];
      LookupAllStep(start, keys[..i], keys[i], CutPoint(vertices, t));
      assert keys[..i] + [keys[i]] == keys[..i + 1];
      var idx := table.Get((vi, vj), Along(vertices[vi], vertices[vj], t));
      cuts := cuts + [idx];
      i := i + 1;
    }
    assert keys[..|neighbours|] == keys;
  }

  /** "Initialize all truncation vertices": every vertex with each of its neighbours. */
  method InitLoop(table: VertexTable<Edge>, vertices: seq<Vec3>, t: real, vertEdges: seq<seq<nat>>)
    requires |vertEdges| == |vertices| && ListsInRange(vertEdges, |vertices|)
    modifies table
    ensures table.State() == InitTable(old(table.State()), CutPoint(vertices, t), vertEdges, |vertices|)
  {
    ghost var start := table.State();
    var vi := 0;
    while vi < |vertices|
      invariant vi <= |vertices|
      invariant table.State() == InitTable(start, CutPoint(vertices, t), vertEdges, vi)
    {
      var _ := CutLoop(table, vertices, t, vi, vertEdges[vi]);
      vi := vi + 1;
    }
  }

  /** The inner loop of the face loop: `getTruncVert(vi, vj)` then `getTruncVert(vj, vi)` per edge. */
  method TruncRingOfFace(table: VertexTable<Edge>, vertices: seq<Vec3>, t: real, face: Face) returns (ring: seq<nat>)
    requires FaceInRange(face, |vertices|)
    modifies table
    ensures (table.State(), ring) == LookupAll(old(table.State()), RingKeys(face), CutPoint(vertices, t))
  {
    ghost var start := table.State();
    ghost var point := CutPoint(vertices, t);
    ring := [];
    var i := 0;
    while i < |face|
      invariant i <= |face|
      invariant (table.State(), ring) == LookupAll(start, RingKeysUpTo(face, i), point)
    {
      RingKeysPrefix(start, face, i, point);
      ring := RingEdge(table, vertices, t, face[i], face[Next(i, |face|)], ring);
      i := i + 1;
    }
  }

  /** One pass of the inner loop: the cut vertex at each end of edge `(vi, vj)`. */
  method RingEdge(table: VertexTable<Edge>, vertices: seq<Vec3>, t: real, vi: nat, vj: nat, ring: seq<nat>)
    returns (next: seq<nat>)
    requires vi < |vertices| && vj < |vertices|
    modifies table
    ensures var point := CutPoint(vertices, t);
      var one := Lookup(old(table.State()), (vi, vj), point((vi, vj)));
      var two := Lookup(one.0, (vj, vi), point((vj, vi)));
      table.State() == two.0 && next == ring + [one.1] + [two.1]
  {
    var first := table.Get((vi, vj), Along(vertices[vi], vertices[vj], t));
    var second := table.Get((vj, vi), Along(vertices[vj], vertices[vi], t));
    next := ring + [first] + [second];
  }

  /** Looking up the ring keys of edges `0 .. i` is looking up those of edges `0 .. i − 1`, then the two of edge `i`. */
  lemma RingKeysPrefix(t: Table<Edge>, face: Face, i: nat, point: Edge -> Vec3)
    requires i < |face|
    ensures var a, b := face[i], face[Next(i, |face|)];
      var prev := LookupAll(t, RingKeysUpTo(face, i), point);
      var one := Lookup(prev.0, (a, b), point((a, b)));
      var two := Lookup(one.0, (b, a), point((b, a)));
      LookupAll(t, RingKeysUpTo(face, i + 1), point) == (two.0, prev.1 + [one.1] + [two.1])
  {
    var a, b := face[i], face[Next(i, |face|)];
    var keys := RingKeysUpTo(face, i);
    LookupAllStep(t, keys, (a, b), point);
    LookupAllStep(t, keys + [(a, b)], (b, a), point);
    assert keys + [(a, b)] + [(b, a)] == RingKeysUpTo(face, i + 1);
  }

  /** The face loop: every old face becomes the ring of its cut vertices. */
  method TruncRingFaces(table: VertexTable<Edge>, p: Poly, t: real) returns (rings: seq<Face>)
    requires InRange(p)
    modifies table
    ensures (table.State(), rings) == TruncRings(old(table.State()), p, CutPoint(p.vertices, t), |p.faces|)
  {
    ghost var start := table.State();
    rings := [];
    var fi := 0;
    while fi < |p.faces|
      invariant fi <= |p.faces|
      invariant (table.State(), rings) == TruncRings(start, p, CutPoint(p.vertices, t), fi)
    {
      assert FaceInRange(p.faces[fi], |p.vertices|);
      var ring := TruncRingOfFace(table, p.vertices, t, p.faces[fi]);
      rings := rings + [ring];
      fi := fi + 1;
    }
  }

  /** The vertex loop: one face for each vertex with at least three cut vertices. */
  method CutFacesLoop(table: VertexTable<Edge>, vertices: seq<Vec3>, t: real, vertEdges: seq<seq<nat>>,
                      sqrt: real -> real, atan2: (real, real) -> real) returns (faces: seq<Face>)
    requires |vertEdges| == |vertices| && ListsInRange(vertEdges, |vertices|)
    modifies table
    ensures (table.State(), faces)
      == CutFaces(old(table.State()), vertices, CutPoint(vertices, t), vertEdges, |vertices|, sqrt, atan2)
  {
    ghost var start := table.State();
    faces := [];
    var vi := 0;
    while vi < |vertices|
      invariant vi <= |vertices|
      invariant (table.State(), faces) == CutFaces(start, vertices, CutPoint(vertices, t), vertEdges, vi, sqrt, atan2)
    {
      faces := CutFace(table, vertices, t, vi, vertEdges[vi], sqrt, atan2, faces);
      vi := vi + 1;
    }
  }

  /** One pass of the vertex loop: the cut vertices of `vi`, and their face when there are three or more. */
  method CutFace(table: VertexTable<Edge>, vertices: seq<Vec3>, t: real, vi: nat, neighbours: seq<nat>,
                 sqrt: real -> real, atan2: (real, real) -> real, faces: seq<Face>) returns (next: seq<Face>)
    requires vi < |vertices| && forall i :: 0 <= i < |neighbours| ==> neighbours[i] < |vertices|
    modifies table
    ensures var cut := LookupAll(old(table.State()), NeighbourKeys(vi, neighbours), CutPoint(vertices, t));
      table.State() == cut.0 && next == faces + VertexFace(cut.0.verts, cut.1, vertices[vi], sqrt, atan2)
  {
    var truncVerts := CutLoop(table, vertices, t, vi, neighbours);
    next := faces;
    if |truncVerts| >= 3 {
      next := faces + [OrderAround(table.verts, truncVerts, vertices[vi], sqrt, atan2)];
    }
  }

  /** `truncate`: the adjacency loop, then three loops sharing the `edgePairMap` memo. */
  method Truncate(p: Poly, amount: Option<real>, sqrt: real -> real, atan2: (real, real) -> real) returns (r: Poly)
    requires InRange(p)
    ensures r == TruncateOf(p, amount, sqrt, atan2)
  {
    var t := if amount.Some? then amount.value else 1.0 / 3.0;
    var vertEdges := AdjacencyLoop(p);
    NeighbourLists(p);
    var table := new VertexTable<Edge>();
    InitLoop(table, p.vertices, t, vertEdges);
    var rings := TruncRingFaces(table, p, t);
    var cuts := CutFacesLoop(table, p.vertices, t, vertEdges, sqrt, atan2);
    r := Poly(NormalizeAll(table.verts, sqrt), rings + cuts, "t(" + p.name + ")");
  }
}

/**
 * `ambo` (rectification) and `expand`.  New vertices sit at edge midpoints, created on
 * demand by the `edgeMap` memo; every old face becomes the ring of its edge midpoints,
 * and every old vertex touched by at least three edges becomes the face of the midpoints
 * around it, ordered by angle.
 */
module ConwayAmbo {
  import opened RealMath
  import opened Vectors
  import opened PairLoops
  import opened FirstOccurrence
  import opened ConwayPoly
  import opened ConwayInfo
  import opened Memo

  /** The `mid` point of `getEdgeVertex`. */
  function Mid(a: Vec3, b: Vec3): Vec3
  {
    [(a[0] + b[0]) / 2.0, (a[1] + b[1]) / 2.0, (a[2] + b[2]) / 2.0]
  }

  lemma MidSymmetric(a: Vec3, b: Vec3)
    ensures Mid(a, b) == Mid(b, a)
  {
    var m, n := Mid(a, b), Mid(b, a);
    assert m[0] == n[0] && m[1] == n[1] && m[2] == n[2];
  }

  /** The point every key of the table stands for: the midpoint of its two vertices. */
  function MidPoint(vertices: seq<Vec3>): Edge -> Vec3
  {
    (k: Edge) => if k.0 < |vertices| && k.1 < |vertices| then Mid(vertices[k.0], vertices[k.1]) else Zero3
  }

  /** `getEdgeVertex(i, j)` on a table state. */
  function EdgeVertex(t: Table<Edge>, vertices: seq<Vec3>, i: nat, j: nat): (Table<Edge>, nat)
    requires i < |vertices| && j < |vertices|
  {
    Lookup(t, EdgeKey(i, j), Mid(vertices[i], vertices[j]))
  }

  /** The point pushed for `(i, j)` is the one the key stands for. */
  lemma EdgeVertexPoint(vertices: seq<Vec3>, i: nat, j: nat)
    requires i < |vertices| && j < |vertices|
    ensures Mid(vertices[i], vertices[j]) == MidPoint(vertices)(EdgeKey(i, j))
  {
    MidSymmetric(vertices[i], vertices[j]);
  }

  /** `getEdgeVertex(i, j)` and `getEdgeVertex(j, i)` do the same thing. */
  lemma EdgeVertexSymmetric(t: Table<Edge>, vertices: seq<Vec3>, i: nat, j: nat)
    requires i < |vertices| && j < |vertices|
    ensures EdgeVertex(t, vertices, i, j) == EdgeVertex(t, vertices, j, i)
  {
    MidSymmetric(vertices[i], vertices[j]);
  }

  // ==================== the face-derived faces ====================

  /** The first `i` midpoints of a face's ring, and the table after them. */
  function FaceRing(t: Table<Edge>, vertices: seq<Vec3>, face: Face, i: nat): (r: (Table<Edge>, seq<nat>))
    requires FaceInRange(face, |vertices|) && i <= |face|
    ensures |r.1| == i
  {
    if i == 0 then (t, [])
    else
      var prev := FaceRing(t, vertices, face, i - 1);
      var step := EdgeVertex(prev.0, vertices, face[i - 1], face[Next(i - 1, |face|)]);
      (step.0, prev.1 + [step.1])
  }

  /** The rings of the first `count` faces. */
  function FaceRings(t: Table<Edge>, p: Poly, count: nat): (r: (Table<Edge>, seq<Face>))
    requires InRange(p) && count <= |p.faces|
    ensures |r.1| == count
  {
    if count == 0 then (t, [])
    else
      var face := p.faces[count - 1];
      assert FaceInRange(face, |p.vertices|);
      var prev := FaceRings(t, p, count - 1);
      var last := FaceRing(prev.0, p.vertices, face, |face|);
      (last.0, prev.1 + [last.1])
  }

  /** The key of position `k` of a face. */
  function PosKey(face: Face, k: nat): Edge
    requires k < |face|
  {
    EdgeKey(face[k], face[Next(k, |face|)])
  }

  /** Walking a face only adds to the table. */
  lemma {:induction false} FaceRingExtends(t: Table<Edge>, vertices: seq<Vec3>, face: Face, i: nat)
    requires FaceInRange(face, |vertices|) && i <= |face|
    ensures Extends(t, FaceRing(t, vertices, face, i).0)
  {
    if i > 0 {
      var prev := FaceRing(t, vertices, face, i - 1);
      FaceRingExtends(t, vertices, face, i - 1);
      var a, b := face[i - 1], face[Next(i - 1, |face|)];
      var step := EdgeVertex(prev.0, vertices, a, b);
      assert FaceRing(t, vertices, face, i).0 == step.0;
      assert Extends(prev.0, step.0);
      ExtendsTransitive(t, prev.0, step.0);
    }
  }

  /** Walking a face keeps every key at the midpoint of its edge. */
  lemma {:induction false} FaceRingValid(t: Table<Edge>, vertices: seq<Vec3>, face: Face, i: nat)
    requires FaceInRange(face, |vertices|) && i <= |face|
    requires Valid(t, MidPoint(vertices))
    ensures Valid(FaceRing(t, vertices, face, i).0, MidPoint(vertices))
  {
    if i > 0 {
      var prev := FaceRing(t, vertices, face, i - 1);
      FaceRingValid(t, vertices, face, i - 1);
      var a, b := face[i - 1], face[Next(i - 1, |face|)];
      var u := Lookup(prev.0, EdgeKey(a, b), MidPoint(vertices)(EdgeKey(a, b))).0;
      assert FaceRing(t, vertices, face, i).0 == u by {
        EdgeVertexPoint(vertices, a, b);
      }
      assert Valid(u, MidPoint(vertices)) by {
        LookupValid(prev.0, EdgeKey(a, b), MidPoint(vertices));
      }
    }
  }

  /** Walking a face adds exactly the keys of its edges. */
  lemma {:induction false} FaceRingKeys(t: Table<Edge>, vertices: seq<Vec3>, face: Face, i: nat)
    requires FaceInRange(face, |vertices|) && i <= |face|
    ensures FaceRing(t, vertices, face, i).0.index.Keys == t.index.Keys + KeySet(FaceWalk(face)[..i], UKey)
  {
    if i > 0 {
      FaceRingKeys(t, vertices, face, i - 1);
      FaceRingKeysStep(t, vertices, face, i);
    } else {
      assert FaceWalk(face)[..0] == [];
    }
  }

  /** One step of the face walk adds the key of edge `i − 1`. */
  lemma FaceRingKeysStep(t: Table<Edge>, vertices: seq<Vec3>, face: Face, i: nat)
    requires FaceInRange(face, |vertices|) && 0 < i <= |face|
    ensures var w := FaceWalk(face);
      FaceRing(t, vertices, face, i).0.index.Keys == FaceRing(t, vertices, face, i - 1).0.index.Keys + {UKey(w[i - 1])}
      && KeySet(w[..i], UKey) == KeySet(w[..i - 1], UKey) + {UKey(w[i - 1])}
  {
    var w := FaceWalk(face);
    assert w[..i] == w[..i - 1] + [w[i - 1]];
    AppendStep(w[..i - 1], w[i - 1], UKey);
  }

  /** Each ring position holds the index of its edge in any table that extends the ring's. */
  lemma {:induction false} FaceRingIndices(t: Table<Edge>, vertices: seq<Vec3>, face: Face, i: nat, u: Table<Edge>)
    requires FaceInRange(face, |vertices|) && i <= |face|
    requires Extends(FaceRing(t, vertices, face, i).0, u)
    ensures forall k :: 0 <= k < i ==> PosKey(face, k) in u.index && FaceRing(t, vertices, face, i).1[k] == u.index[PosKey(face, k)]
  {
    if i > 0 {
      var prev := FaceRing(t, vertices, face, i - 1);
      var a, b := face[i - 1], face[Next(i - 1, |face|)];
      var step := EdgeVertex(prev.0, vertices, a, b);
      assert FaceRing(t, vertices, face, i) == (step.0, prev.1 + [step.1]);
      assert Extends(prev.0, step.0);
      ExtendsTransitive(prev.0, step.0, u);
      FaceRingIndices(t, vertices, face, i - 1, u);
    }
  }

  /** All face loops only add to the table. */
  lemma {:induction false} FaceRingsExtends(t: Table<Edge>, p: Poly, count: nat)
    requires InRange(p) && count <= |p.faces|
    ensures Extends(t, FaceRings(t, p, count).0)
  {
    if count == 0 {
      ExtendsReflexive(t);
    } else {
      var face := p.faces[count - 1];
      assert FaceInRange(face, |p.vertices|);
      var prev := FaceRings(t, p, count - 1);
      FaceRingsExtends(t, p, count - 1);
      FaceRingExtends(prev.0, p.vertices, face, |face|);
      ExtendsTransitive(t, prev.0, FaceRing(prev.0, p.vertices, face, |face|).0);
    }
  }

  /** All face loops keep every key at the midpoint of its edge. */
  lemma {:induction false} FaceRingsValid(t: Table<Edge>, p: Poly, count: nat)
    requires InRange(p) && count <= |p.faces|
    requires Valid(t, MidPoint(p.vertices))
    ensures Valid(FaceRings(t, p, count).0, MidPoint(p.vertices))
  {
    if count > 0 {
      var face := p.faces[count - 1];
      assert FaceInRange(face, |p.vertices|);
      FaceRingsValid(t, p, count - 1);
      FaceRingValid(FaceRings(t, p, count - 1).0, p.vertices, face, |face|);
    }
  }

  /** After the first face loop the table holds exactly the edge keys of the faces walked. */
  lemma {:induction false} FaceRingsKeys(t: Table<Edge>, p: Poly, count: nat)
    requires InRange(p) && count <= |p.faces|
    ensures FaceRings(t, p, count).0.index.Keys == t.index.Keys + EdgeKeys(p.faces[..count])
  {
    if count == 0 {
      assert p.faces[..0] == [];
    } else {
      FaceRingsKeys(t, p, count - 1);
      FaceRingsKeysStep(t, p, count);
    }
  }

  lemma FaceRingsKeysStep(t: Table<Edge>, p: Poly, count: nat)
    requires InRange(p) && 0 < count <= |p.faces|
    requires FaceRings(t, p, count - 1).0.index.Keys == t.index.Keys + EdgeKeys(p.faces[..count - 1])
    ensures FaceRings(t, p, count).0.index.Keys == t.index.Keys + EdgeKeys(p.faces[..count])
  {
    var face := p.faces[count - 1];
    assert FaceInRange(face, |p.vertices|);
    var prev := FaceRings(t, p, count - 1).0;
    FaceRingKeys(prev, p.vertices, face, |face|);
    assert FaceRings(t, p, count).0 == FaceRing(prev, p.vertices, face, |face|).0;
    WalkNextFace(p.faces, count - 1);
    assert FaceWalk(face)[..|face|] == FaceWalk(face);
    KeySetConcat(Walk(p.faces[..count - 1]), FaceWalk(face), UKey);
  }

  /** Every ring position holds its edge's index in any table that extends the first loop's. */
  lemma {:induction false} FaceRingsIndices(t: Table<Edge>, p: Poly, count: nat, u: Table<Edge>)
    requires InRange(p) && count <= |p.faces|
    requires Extends(FaceRings(t, p, count).0, u)
    ensures var rings := FaceRings(t, p, count).1;
      (forall f :: 0 <= f < count ==> |rings[f]| == |p.faces[f]|)
      && forall f, k :: 0 <= f < count && 0 <= k < |p.faces[f]| ==>
           PosKey(p.faces[f], k) in u.index && rings[f][k] == u.index[PosKey(p.faces[f], k)]
  {
    if count > 0 {
      var face := p.faces[count - 1];
      assert FaceInRange(face, |p.vertices|);
      var prev := FaceRings(t, p, count - 1);
      var last := FaceRing(prev.0, p.vertices, face, |face|);
      assert FaceRings(t, p, count) == (last.0, prev.1 + [last.1]);
      FaceRingExtends(prev.0, p.vertices, face, |face|);
      ExtendsTransitive(prev.0, last.0, u);
      FaceRingsIndices(t, p, count - 1, u);
      FaceRingIndices(prev.0, p.vertices, face, |face|, u);
      var all := prev.1 + [last.1];
      forall f | 0 <= f < count
        ensures |all[f]| == |p.faces[f]|
      {
        if f < count - 1 {
          assert all[f] == prev.1[f];
        }
      }
      forall f, k | 0 <= f < count && 0 <= k < |p.faces[f]|
        ensures PosKey(p.faces[f], k) in u.index && all[f][k] == u.index[PosKey(p.faces[f], k)]
      {
        if f < count - 1 {
          assert all[f] == prev.1[f];
        } else {
          assert all[f] == last.1 && p.faces[f] == face;
        }
      }
      assert FaceRings(t, p, count).1 == all;
    }
  }

  // ==================== the vertex-derived faces ====================

  /** `vertices.map(() => [])`. */
  function EmptyLists(n: nat): (r: seq<seq<nat>>)
    ensures |r| == n && forall v :: 0 <= v < n ==> r[v] == []
  {
    seq(n, v => [])
  }

  /** The second face loop on one face: each edge's index is pushed onto both its ends. */
  function Incidence(t: Table<Edge>, lists: seq<seq<nat>>, vertices: seq<Vec3>, face: Face, i: nat)
    : (r: (Table<Edge>, seq<seq<nat>>))
    requires FaceInRange(face, |vertices|) && i <= |face| && |lists| == |vertices|
    ensures |r.1| == |vertices|
  {
    if i == 0 then (t, lists)
    else
      var prev := Incidence(t, lists, vertices, face, i - 1);
      var a, b := face[i - 1], face[Next(i - 1, |face|)];
      var step := EdgeVertex(prev.0, vertices, a, b);
      var w := prev.1[a := prev.1[a] + [step.1]];
      (step.0, w[b := w[b] + [step.1]])
  }

  /** The second face loop over the first `count` faces. */
  function Incidences(t: Table<Edge>, lists: seq<seq<nat>>, p: Poly, count: nat): (r: (Table<Edge>, seq<seq<nat>>))
    requires InRange(p) && count <= |p.faces| && |lists| == |p.vertices|
    ensures |r.1| == |p.vertices|
  {
    if count == 0 then (t, lists)
    else
      var face := p.faces[count - 1];
      assert FaceInRange(face, |p.vertices|);
      var prev := Incidences(t, lists, p, count - 1);
      Incidence(prev.0, prev.1, p.vertices, face, |face|)
  }

  /** Vertex `v` is an end of the edge at position `k` of the face. */
  predicate AtEnd(face: Face, k: nat, v: nat)
    requires k < |face|
  {
    face[k] == v || face[Next(k, |face|)] == v
  }

  /** The index of some edge, at position `k < i` of the face, that ends at `v`. */
  ghost predicate IncidentIn(t: Table<Edge>, face: Face, i: nat, v: nat, x: nat)
    requires i <= |face|
  {
    exists k :: 0 <= k < i && AtEnd(face, k, v) && PosKey(face, k) in t.index && x == t.index[PosKey(face, k)]
  }

  /**
   * Once every edge of the face has its vertex, the second loop creates nothing on it, and
   * vertex `v`'s list gains exactly the indices of the face's edges that end at `v`.
   */
  lemma {:induction false} IncidenceProperties(t: Table<Edge>, lists: seq<seq<nat>>, vertices: seq<Vec3>, face: Face, i: nat)
    requires FaceInRange(face, |vertices|) && i <= |face| && |lists| == |vertices|
    requires forall k :: 0 <= k < |face| ==> PosKey(face, k) in t.index
    ensures Incidence(t, lists, vertices, face, i).0 == t
    ensures forall v, x :: 0 <= v < |vertices| ==>
      (x in Incidence(t, lists, vertices, face, i).1[v] <==> (x in lists[v] || IncidentIn(t, face, i, v, x)))
  {
    if i > 0 {
      var prev := Incidence(t, lists, vertices, face, i - 1);
      IncidenceProperties(t, lists, vertices, face, i - 1);
      var a, b := face[i - 1], face[Next(i - 1, |face|)];
      var step := EdgeVertex(prev.0, vertices, a, b);
      var ev := step.1;
      assert PosKey(face, i - 1) in t.index;
      assert step.0 == t && ev == t.index[PosKey(face, i - 1)];
      var w1 := prev.1[a := prev.1[a] + [ev]];
      var w2 := w1[b := w1[b] + [ev]];
      assert Incidence(t, lists, vertices, face, i) == (t, w2);
      forall v, x | 0 <= v < |vertices|
        ensures x in w2[v] <==> (x in lists[v] || IncidentIn(t, face, i, v, x))
      {
        assert x in w2[v] <==> (x in prev.1[v] || (AtEnd(face, i - 1, v) && x == ev));
        IncidentInStep(t, face, i, v, x);
      }
    }
  }

  /** An edge ending at `v` among positions `0 .. i − 1` is one among `0 .. i − 2` or the one at `i − 1`. */
  lemma IncidentInStep(t: Table<Edge>, face: Face, i: nat, v: nat, x: nat)
    requires 0 < i <= |face|
    ensures IncidentIn(t, face, i, v, x) <==>
      (IncidentIn(t, face, i - 1, v, x)
       || (AtEnd(face, i - 1, v) && PosKey(face, i - 1) in t.index && x == t.index[PosKey(face, i - 1)]))
  {
    if IncidentIn(t, face, i, v, x) && !IncidentIn(t, face, i - 1, v, x) {
      var k :| 0 <= k < i && AtEnd(face, k, v) && PosKey(face, k) in t.index && x == t.index[PosKey(face, k)];
      assert k == i - 1;
    }
  }

  /** The index of some edge of faces `0 .. count − 1` that ends at `v`. */
  ghost predicate IncidentInFaces(t: Table<Edge>, p: Poly, count: nat, v: nat, x: nat)
    requires count <= |p.faces|
  {
    exists f :: 0 <= f < count && IncidentIn(t, p.faces[f], |p.faces[f]|, v, x)
  }

  /** The second loop over all faces, once the first loop has created every edge's vertex. */
  lemma {:induction false} IncidencesProperties(t: Table<Edge>, lists: seq<seq<nat>>, p: Poly, count: nat)
    requires InRange(p) && count <= |p.faces| && |lists| == |p.vertices|
    requires forall f, k :: 0 <= f < |p.faces| && 0 <= k < |p.faces[f]| ==> PosKey(p.faces[f], k) in t.index
    ensures Incidences(t, lists, p, count).0 == t
    ensures forall v, x :: 0 <= v < |p.vertices| ==>
      (x in Incidences(t, lists, p, count).1[v] <==> (x in lists[v] || IncidentInFaces(t, p, count, v, x)))
  {
    if count > 0 {
      var face := p.faces[count - 1];
      assert FaceInRange(face, |p.vertices|);
      var prev := Incidences(t, lists, p, count - 1);
      IncidencesProperties(t, lists, p, count - 1);
      IncidenceProperties(prev.0, prev.1, p.vertices, face, |face|);
      var w2 := Incidence(prev.0, prev.1, p.vertices, face, |face|).1;
      forall v, x | 0 <= v < |p.vertices|
        ensures x in w2[v] <==> (x in lists[v] || IncidentInFaces(t, p, count, v, x))
      {
        IncidentInFacesStep(t, p, count, v, x);
      }
    }
  }

  /** An edge ending at `v` in faces `0 .. count − 1` is one in the earlier faces or one of the last face. */
  lemma IncidentInFacesStep(t: Table<Edge>, p: Poly, count: nat, v: nat, x: nat)
    requires 0 < count <= |p.faces|
    ensures IncidentInFaces(t, p, count, v, x) <==>
      (IncidentInFaces(t, p, count - 1, v, x) || IncidentIn(t, p.faces[count - 1], |p.faces[count - 1]|, v, x))
  {
    if IncidentInFaces(t, p, count, v, x) && !IncidentInFaces(t, p, count - 1, v, x) {
      var f :| 0 <= f < count && IncidentIn(t, p.faces[f], |p.faces[f]|, v, x);
      assert f == count - 1;
    }
  }

  /** The faces the third loop adds for vertices `0 .. count − 1`. */
  function VertexFaces(newVerts: seq<Vec3>, vertices: seq<Vec3>, lists: seq<seq<nat>>, count: nat,
                       sqrt: real -> real, atan2: (real, real) -> real): seq<Face>
    requires count <= |vertices| && |lists| == |vertices|
  {
    if count == 0 then []
    else
      var prev := VertexFaces(newVerts, vertices, lists, count - 1, sqrt, atan2);
      var edgeVerts := Distinct(lists[count - 1]);
      if |edgeVerts| >= 3 then prev + [OrderAround(newVerts, edgeVerts, vertices[count - 1], sqrt, atan2)]
      else prev
  }

  /** Each added face is the distinct list of some vertex, with at least three entries, reordered. */
  lemma {:induction false} VertexFacesProperties(newVerts: seq<Vec3>, vertices: seq<Vec3>, lists: seq<seq<nat>>, count: nat,
                                                 sqrt: real -> real, atan2: (real, real) -> real)
    requires count <= |vertices| && |lists| == |vertices|
    ensures var fs := VertexFaces(newVerts, vertices, lists, count, sqrt, atan2);
      |fs| <= count
      && forall g :: 0 <= g < |fs| ==>
           (exists v :: 0 <= v < count && |Distinct(lists[v])| >= 3 && multiset(fs[g]) == multiset(Distinct(lists[v])))
  {
    if count > 0 {
      VertexFacesProperties(newVerts, vertices, lists, count - 1, sqrt, atan2);
    }
  }

  /** `.map(normalize)`. */
  function NormalizeAll(vs: seq<Vec3>, sqrt: real -> real): (r: seq<Vec3>)
    ensures |r| == |vs| && forall i :: 0 <= i < |vs| ==> r[i] == Normalize3(vs[i], sqrt)
  {
    seq(|vs|, i requires 0 <= i < |vs| => Normalize3(vs[i], sqrt))
  }

  /** The polyhedron `ambo` returns. */
  function AmboOf(p: Poly, sqrt: real -> real, atan2: (real, real) -> real): Poly
    requires InRange(p)
  {
    var first := FaceRings(Table(map[], []), p, |p.faces|);
    var second := Incidences(first.0, EmptyLists(|p.vertices|), p, |p.faces|);
    Poly(NormalizeAll(second.0.verts, sqrt),
         first.1 + VertexFaces(second.0.verts, p.vertices, second.1, |p.vertices|, sqrt, atan2),
         "a(" + p.name + ")")
  }

  /** Each face `f` of `faces` holds, at position `k`, the table's index of the edge `k` of old face `f`. */
  ghost predicate EdgeRings(t: Table<Edge>, p: Poly, faces: seq<Face>)
  {
    |p.faces| <= |faces|
    && (forall f :: 0 <= f < |p.faces| ==> |faces[f]| == |p.faces[f]|)
    && forall f, k :: 0 <= f < |p.faces| && 0 <= k < |p.faces[f]| ==>
         PosKey(p.faces[f], k) in t.index && faces[f][k] == t.index[PosKey(p.faces[f], k)]
  }

  /** List `v` holds exactly the table's indices of the old edges ending at `v`. */
  ghost predicate ListsIncident(t: Table<Edge>, p: Poly, lists: seq<seq<nat>>)
  {
    |lists| == |p.vertices|
    && forall v, x :: 0 <= v < |p.vertices| ==> (x in lists[v] <==> IncidentInFaces(t, p, |p.faces|, v, x))
  }

  /** The table after the first face loop, and the incidence lists of the second. */
  lemma AmboTables(p: Poly)
    requires InRange(p)
    ensures var first := FaceRings(Table(map[], []), p, |p.faces|);
      var second := Incidences(first.0, EmptyLists(|p.vertices|), p, |p.faces|);
      Valid(first.0, MidPoint(p.vertices))
      && first.0.index.Keys == EdgeKeys(p.faces)
      && EdgeRings(first.0, p, first.1)
      && second.0 == first.0
      && ListsIncident(first.0, p, second.1)
  {
    var t := Table(map[], []);
    var n := |p.faces|;
    var first := FaceRings(t, p, n);
    assert Valid(t, MidPoint(p.vertices));
    FaceRingsValid(t, p, n);
    FaceRingsKeys(t, p, n);
    assert p.faces[..n] == p.faces;
    ExtendsReflexive(first.0);
    FaceRingsIndices(t, p, n, first.0);
    IncidencesProperties(first.0, EmptyLists(|p.vertices|), p, n);
  }

  /**
   * `ambo` creates one vertex per undirected edge, at its midpoint pushed out to the unit
   * sphere; each old face keeps its length and its position `k` becomes the vertex of its
   * edge `k`, so two positions share a vertex exactly when they lie on the same edge.
   */
  lemma AmboFaceFaces(p: Poly, sqrt: real -> real, atan2: (real, real) -> real)
    requires InRange(p)
    ensures var r := AmboOf(p, sqrt, atan2);
      |r.vertices| == InfoOf(p).E
      && |p.faces| <= |r.faces| <= |p.faces| + |p.vertices|
      && r.name == "a(" + p.name + ")"
      && (forall f :: 0 <= f < |p.faces| ==> |r.faces[f]| == |p.faces[f]|)
      && (forall f, k :: 0 <= f < |p.faces| && 0 <= k < |p.faces[f]| ==>
            r.faces[f][k] < |r.vertices|
            && r.vertices[r.faces[f][k]]
               == Normalize3(Mid(p.vertices[p.faces[f][k]], p.vertices[p.faces[f][Next(k, |p.faces[f]|)]]), sqrt))
      && forall f, k, g, l :: 0 <= f < |p.faces| && 0 <= k < |p.faces[f]| && 0 <= g < |p.faces| && 0 <= l < |p.faces[g]| ==>
           (r.faces[f][k] == r.faces[g][l] <==> PosKey(p.faces[f], k) == PosKey(p.faces[g], l))
  {
    AmboFaceShape(p, sqrt, atan2);
    AmboFacePoints(p, sqrt, atan2);
    AmboFaceSharing(p, sqrt, atan2);
  }

  lemma AmboFaceShape(p: Poly, sqrt: real -> real, atan2: (real, real) -> real)
    requires InRange(p)
    ensures var r := AmboOf(p, sqrt, atan2);
      |r.vertices| == InfoOf(p).E
      && |p.faces| <= |r.faces| <= |p.faces| + |p.vertices|
      && r.name == "a(" + p.name + ")"
      && forall f :: 0 <= f < |p.faces| ==> |r.faces[f]| == |p.faces[f]|
  {
    AmboTables(p);
    var first := FaceRings(Table(map[], []), p, |p.faces|);
    var r := AmboOf(p, sqrt, atan2);
    var lists := Incidences(first.0, EmptyLists(|p.vertices|), p, |p.faces|).1;
    VertexFacesProperties(first.0.verts, p.vertices, lists, |p.vertices|, sqrt, atan2);
    assert r.faces[..|p.faces|] == first.1;
    forall f | 0 <= f < |p.faces|
      ensures |r.faces[f]| == |p.faces[f]|
    {
      assert r.faces[f] == first.1[f];
    }
  }

  lemma AmboFacePoints(p: Poly, sqrt: real -> real, atan2: (real, real) -> real)
    requires InRange(p)
    ensures var r := AmboOf(p, sqrt, atan2);
      |p.faces| <= |r.faces|
      && (forall f :: 0 <= f < |p.faces| ==> |r.faces[f]| == |p.faces[f]|)
      && forall f, k :: 0 <= f < |p.faces| && 0 <= k < |p.faces[f]| ==>
           r.faces[f][k] < |r.vertices|
           && r.vertices[r.faces[f][k]]
              == Normalize3(Mid(p.vertices[p.faces[f][k]], p.vertices[p.faces[f][Next(k, |p.faces[f]|)]]), sqrt)
  {
    AmboRings(p, sqrt, atan2);
    var first := FaceRings(Table(map[], []), p, |p.faces|);
    var r := AmboOf(p, sqrt, atan2);
    forall f | 0 <= f < |p.faces|
      ensures r.faces[f] == first.1[f]
    {
    }
    forall f, k | 0 <= f < |p.faces| && 0 <= k < |p.faces[f]|
      ensures r.faces[f][k] < |r.vertices|
        && r.vertices[r.faces[f][k]]
           == Normalize3(Mid(p.vertices[p.faces[f][k]], p.vertices[p.faces[f][Next(k, |p.faces[f]|)]]), sqrt)
    {
      AmboPoint(first.0, p, first.1, sqrt, f, k);
    }
  }

  /** The first face loop's table and rings, as `ambo` uses them for its vertices and faces. */
  lemma AmboRings(p: Poly, sqrt: real -> real, atan2: (real, real) -> real)
    requires InRange(p)
    ensures var first := FaceRings(Table(map[], []), p, |p.faces|);
      var r := AmboOf(p, sqrt, atan2);
      Valid(first.0, MidPoint(p.vertices)) && EdgeRings(first.0, p, first.1)
      && r.faces[..|p.faces|] == first.1 && r.vertices == NormalizeAll(first.0.verts, sqrt)
  {
    AmboTables(p);
    var first := FaceRings(Table(map[], []), p, |p.faces|);
    var r := AmboOf(p, sqrt, atan2);
    assert r.faces[..|p.faces|] == first.1;
  }

  /** Position `k` of face `f` names the table's vertex at the midpoint of that edge. */
  lemma AmboPoint(t: Table<Edge>, p: Poly, faces: seq<Face>, sqrt: real -> real, f: nat, k: nat)
    requires InRange(p) && Valid(t, MidPoint(p.vertices)) && EdgeRings(t, p, faces)
    requires f < |p.faces| && k < |p.faces[f]|
    ensures k < |faces[f]| && faces[f][k] < |t.verts|
    ensures NormalizeAll(t.verts, sqrt)[faces[f][k]]
      == Normalize3(Mid(p.vertices[p.faces[f][k]], p.vertices[p.faces[f][Next(k, |p.faces[f]|)]]), sqrt)
  {
    var face := p.faces[f];
    assert FaceInRange(face, |p.vertices|);
    var key := PosKey(face, k);
    assert key in t.index && faces[f][k] == t.index[key];
    EdgeVertexPoint(p.vertices, face[k], face[Next(k, |face|)]);
  }

  lemma AmboFaceSharing(p: Poly, sqrt: real -> real, atan2: (real, real) -> real)
    requires InRange(p)
    ensures var r := AmboOf(p, sqrt, atan2);
      |p.faces| <= |r.faces|
      && (forall f :: 0 <= f < |p.faces| ==> |r.faces[f]| == |p.faces[f]|)
      && forall f, k, g, l :: 0 <= f < |p.faces| && 0 <= k < |p.faces[f]| && 0 <= g < |p.faces| && 0 <= l < |p.faces[g]| ==>
           (r.faces[f][k] == r.faces[g][l] <==> PosKey(p.faces[f], k) == PosKey(p.faces[g], l))
  {
    AmboTables(p);
    var first := FaceRings(Table(map[], []), p, |p.faces|);
    var r := AmboOf(p, sqrt, atan2);
    assert r.faces[..|p.faces|] == first.1;
    forall f, k, g, l | 0 <= f < |p.faces| && 0 <= k < |p.faces[f]| && 0 <= g < |p.faces| && 0 <= l < |p.faces[g]|
      ensures |r.faces[f]| == |p.faces[f]| && |r.faces[g]| == |p.faces[g]|
        && (r.faces[f][k] == r.faces[g][l] <==> PosKey(p.faces[f], k) == PosKey(p.faces[g], l))
    {
      assert r.faces[f] == first.1[f] && r.faces[g] == first.1[g];
    }
  }

  /** `x` is the vertex that the face-derived faces of `r` put on some old edge ending at `v`. */
  ghost predicate OnEdgeAt(r: Poly, p: Poly, v: nat, x: nat)
  {
    exists f, k :: 0 <= f < |p.faces| && f < |r.faces| && 0 <= k < |p.faces[f]| && k < |r.faces[f]|
      && AtEnd(p.faces[f], k, v) && x == r.faces[f][k]
  }

  /** `face` consists of exactly the vertices `r` puts on the old edges ending at `v`. */
  ghost predicate AroundVertex(r: Poly, p: Poly, face: Face, v: nat)
  {
    forall x :: x in face <==> OnEdgeAt(r, p, v, x)
  }

  /** `face` consists of exactly the indices the table gives the old edges ending at `v`. */
  ghost predicate ListedAt(t: Table<Edge>, p: Poly, face: Face, v: nat)
  {
    forall x :: x in face <==> IncidentInFaces(t, p, |p.faces|, v, x)
  }

  /** A face of the vertex loop, given the lists of the second face loop: it belongs to vertex `v`. */
  lemma VertexFaceFromLists(t: Table<Edge>, p: Poly, newVerts: seq<Vec3>, lists: seq<seq<nat>>,
                            sqrt: real -> real, atan2: (real, real) -> real, g: nat) returns (v: nat)
    requires ListsIncident(t, p, lists)
    requires g < |VertexFaces(newVerts, p.vertices, lists, |p.vertices|, sqrt, atan2)|
    ensures var face := VertexFaces(newVerts, p.vertices, lists, |p.vertices|, sqrt, atan2)[g];
      |face| >= 3 && NoRepeats(face) && v < |p.vertices| && ListedAt(t, p, face, v)
  {
    VertexFacesProperties(newVerts, p.vertices, lists, |p.vertices|, sqrt, atan2);
    var face := VertexFaces(newVerts, p.vertices, lists, |p.vertices|, sqrt, atan2)[g];
    v :| 0 <= v < |p.vertices| && |Distinct(lists[v])| >= 3 && multiset(face) == multiset(Distinct(lists[v]));
    DistinctProperties(lists[v]);
    SameMultisetNoRepeats(face, Distinct(lists[v]));
    assert |face| == |Distinct(lists[v])| by {
      assert |multiset(face)| == |multiset(Distinct(lists[v]))|;
    }
    forall x
      ensures x in face <==> IncidentInFaces(t, p, |p.faces|, v, x)
    {
      assert x in face <==> x in multiset(face);
      assert x in Distinct(lists[v]) <==> x in multiset(Distinct(lists[v]));
    }
  }

  /** The table's index of an edge at `v` is what the face-derived faces hold at that edge. */
  lemma IncidentIffOnEdge(t: Table<Edge>, p: Poly, r: Poly, v: nat, x: nat)
    requires EdgeRings(t, p, r.faces)
    ensures IncidentInFaces(t, p, |p.faces|, v, x) <==> OnEdgeAt(r, p, v, x)
  {
    if IncidentInFaces(t, p, |p.faces|, v, x) {
      var f :| 0 <= f < |p.faces| && IncidentIn(t, p.faces[f], |p.faces[f]|, v, x);
      var k :| 0 <= k < |p.faces[f]| && AtEnd(p.faces[f], k, v) && PosKey(p.faces[f], k) in t.index
               && x == t.index[PosKey(p.faces[f], k)];
      assert x == r.faces[f][k];
    }
    if OnEdgeAt(r, p, v, x) {
      var f, k :| 0 <= f < |p.faces| && f < |r.faces| && 0 <= k < |p.faces[f]| && k < |r.faces[f]|
                  && AtEnd(p.faces[f], k, v) && x == r.faces[f][k];
      assert IncidentIn(t, p.faces[f], |p.faces[f]|, v, x);
    }
  }

  /** The rings followed by the vertex loop's faces: vertex face `h` belongs to one old vertex. */
  lemma VertexFaceAround(t: Table<Edge>, p: Poly, r: Poly, rings: seq<Face>, newVerts: seq<Vec3>,
                         lists: seq<seq<nat>>, sqrt: real -> real, atan2: (real, real) -> real, h: nat)
    requires ListsIncident(t, p, lists) && |rings| == |p.faces| && EdgeRings(t, p, rings)
    requires r.faces == rings + VertexFaces(newVerts, p.vertices, lists, |p.vertices|, sqrt, atan2)
    requires h < |VertexFaces(newVerts, p.vertices, lists, |p.vertices|, sqrt, atan2)|
    ensures var face := r.faces[|p.faces| + h];
      |face| >= 3 && NoRepeats(face) && exists v :: 0 <= v < |p.vertices| && AroundVertex(r, p, face, v)
  {
    var vfs := VertexFaces(newVerts, p.vertices, lists, |p.vertices|, sqrt, atan2);
    var g := |p.faces| + h;
    assert r.faces[g] == vfs[h];
    var v := VertexFaceFromLists(t, p, newVerts, lists, sqrt, atan2, h);
    assert EdgeRings(t, p, r.faces) by {
      forall f | 0 <= f < |p.faces|
        ensures r.faces[f] == rings[f]
      {
      }
    }
    forall x
      ensures x in r.faces[g] <==> OnEdgeAt(r, p, v, x)
    {
      IncidentIffOnEdge(t, p, r, v, x);
    }
    assert AroundVertex(r, p, r.faces[g], v);
  }

  /** One vertex-derived face of `ambo`. */
  lemma AmboVertexFace(p: Poly, sqrt: real -> real, atan2: (real, real) -> real, g: nat)
    requires InRange(p) && |p.faces| <= g < |AmboOf(p, sqrt, atan2).faces|
    ensures var face := AmboOf(p, sqrt, atan2).faces[g];
      |face| >= 3 && NoRepeats(face)
      && exists v :: 0 <= v < |p.vertices| && AroundVertex(AmboOf(p, sqrt, atan2), p, face, v)
  {
    var n := |p.faces|;
    var first := FaceRings(Table(map[], []), p, n);
    var second := Incidences(first.0, EmptyLists(|p.vertices|), p, n);
    var r := AmboOf(p, sqrt, atan2);
    AmboLists(p, sqrt, atan2);
    VertexFaceAround(first.0, p, r, first.1, second.0.verts, second.1, sqrt, atan2, g - n);
  }

  /** The two loops' table, rings and incidence lists, as `ambo` uses them for its faces. */
  lemma AmboLists(p: Poly, sqrt: real -> real, atan2: (real, real) -> real)
    requires InRange(p)
    ensures var first := FaceRings(Table(map[], []), p, |p.faces|);
      var second := Incidences(first.0, EmptyLists(|p.vertices|), p, |p.faces|);
      ListsIncident(first.0, p, second.1) && |first.1| == |p.faces| && EdgeRings(first.0, p, first.1)
      && AmboOf(p, sqrt, atan2).faces
         == first.1 + VertexFaces(second.0.verts, p.vertices, second.1, |p.vertices|, sqrt, atan2)
  {
    AmboTables(p);
  }

  /**
   * Every vertex-derived face of `ambo` belongs to one old vertex: it has at least three
   * vertices, none twice, and they are exactly the vertices the face-derived faces put on
   * the old edges ending at that vertex.
   */
  lemma AmboVertexFaces(p: Poly, sqrt: real -> real, atan2: (real, real) -> real)
    requires InRange(p)
    ensures var r := AmboOf(p, sqrt, atan2);
      forall g :: |p.faces| <= g < |r.faces| ==>
        |r.faces[g]| >= 3 && NoRepeats(r.faces[g])
        && exists v :: 0 <= v < |p.vertices| && AroundVertex(r, p, r.faces[g], v)
  {
    var r := AmboOf(p, sqrt, atan2);
    forall g | |p.faces| <= g < |r.faces|
      ensures |r.faces[g]| >= 3 && NoRepeats(r.faces[g])
        && exists v :: 0 <= v < |p.vertices| && AroundVertex(r, p, r.faces[g], v)
    {
      AmboVertexFace(p, sqrt, atan2, g);
    }
  }

  /** `ambo` keeps every face in range, and polygons stay polygons. */
  lemma AmboInRange(p: Poly, sqrt: real -> real, atan2: (real, real) -> real)
    requires InRange(p)
    ensures InRange(AmboOf(p, sqrt, atan2))
    ensures (forall f :: 0 <= f < |p.faces| ==> |p.faces[f]| >= 3) ==>
      forall g :: 0 <= g < |AmboOf(p, sqrt, atan2).faces| ==> |AmboOf(p, sqrt, atan2).faces[g]| >= 3
  {
    var r := AmboOf(p, sqrt, atan2);
    AmboFaceFaces(p, sqrt, atan2);
    AmboVertexFaces(p, sqrt, atan2);
    forall g | 0 <= g < |r.faces|
      ensures FaceInRange(r.faces[g], |r.vertices|)
    {
      if g >= |p.faces| {
        var v :| 0 <= v < |p.vertices| && AroundVertex(r, p, r.faces[g], v);
        forall i | 0 <= i < |r.faces[g]|
          ensures r.faces[g][i] < |r.vertices|
        {
          assert r.faces[g][i] in r.faces[g];
        }
      }
    }
  }

  /** The inner loop of the first face loop: one face's ring of edge vertices. */
  method RingOfFace(table: VertexTable<Edge>, vertices: seq<Vec3>, face: Face) returns (ring: seq<nat>)
    requires FaceInRange(face, |vertices|)
    modifies table
    ensures (table.State(), ring) == FaceRing(old(table.State()), vertices, face, |face|)
  {
    ghost var start := table.State();
    ring := [];
    var i := 0;
    while i < |face|
      invariant i <= |face|
      invariant (table.State(), ring) == FaceRing(start, vertices, face, i)
    {
      var a, b := face[i], face[(i + 1) % |face|];
      var idx := table.Get(if a < b then (a, b) else (b, a), Mid(vertices[a], vertices[b]));
      ring := ring + [idx];
      i := i + 1;
    }
  }

  /** The first face loop: every face becomes the ring of its edge vertices. */
  method RingFaces(table: VertexTable<Edge>, p: Poly) returns (rings: seq<Face>)
    requires InRange(p)
    modifies table
    ensures (table.State(), rings) == FaceRings(old(table.State()), p, |p.faces|)
  {
    ghost var start := table.State();
    rings := [];
    var fi := 0;
    while fi < |p.faces|
      invariant fi <= |p.faces|
      invariant (table.State(), rings) == FaceRings(start, p, fi)
    {
      assert FaceInRange(p.faces[fi], |p.vertices|);
      var ring := RingOfFace(table, p.vertices, p.faces[fi]);
      rings := rings + [ring];
      fi := fi + 1;
    }
  }

  /** The inner loop of the second face loop: each edge's vertex is pushed onto both its ends. */
  method IncidenceOfFace(table: VertexTable<Edge>, lists: seq<seq<nat>>, vertices: seq<Vec3>, face: Face)
    returns (vertToEdges: seq<seq<nat>>)
    requires FaceInRange(face, |vertices|) && |lists| == |vertices|
    modifies table
    ensures (table.State(), vertToEdges) == Incidence(old(table.State()), lists, vertices, face, |face|)
  {
    ghost var start := table.State();
    vertToEdges := lists;
    var i := 0;
    while i < |face|
      invariant i <= |face| && |vertToEdges| == |vertices|
      invariant (table.State(), vertToEdges) == Incidence(start, lists, vertices, face, i)
    {
      var a, b := face[i], face[(i + 1) % |face|];
      var ev := table.Get(if a < b then (a, b) else (b, a), Mid(vertices[a], vertices[b]));
      vertToEdges := vertToEdges[a := vertToEdges[a] + [ev]];
      vertToEdges := vertToEdges[b := vertToEdges[b] + [ev]];
      i := i + 1;
    }
  }

  /** The second face loop: `vertToEdges`. */
  method Incident(table: VertexTable<Edge>, p: Poly) returns (vertToEdges: seq<seq<nat>>)
    requires InRange(p)
    modifies table
    ensures (table.State(), vertToEdges) == Incidences(old(table.State()), EmptyLists(|p.vertices|), p, |p.faces|)
  {
    ghost var start := table.State();
    vertToEdges := EmptyLists(|p.vertices|);
    var fi := 0;
    while fi < |p.faces|
      invariant fi <= |p.faces| && |vertToEdges| == |p.vertices|
      invariant (table.State(), vertToEdges) == Incidences(start, EmptyLists(|p.vertices|), p, fi)
    {
      assert FaceInRange(p.faces[fi], |p.vertices|);
      vertToEdges := IncidenceOfFace(table, vertToEdges, p.vertices, p.faces[fi]);
      fi := fi + 1;
    }
  }

  /** The vertex loop: one face for each vertex with at least three distinct edge vertices. */
  method VertexFacesLoop(newVerts: seq<Vec3>, vertices: seq<Vec3>, vertToEdges: seq<seq<nat>>,
                         sqrt: real -> real, atan2: (real, real) -> real) returns (faces: seq<Face>)
    requires |vertToEdges| == |vertices|
    ensures faces == VertexFaces(newVerts, vertices, vertToEdges, |vertices|, sqrt, atan2)
  {
    faces := [];
    var vi := 0;
    while vi < |vertices|
      invariant vi <= |vertices|
      invariant faces == VertexFaces(newVerts, vertices, vertToEdges, vi, sqrt, atan2)
    {
      var edgeVerts := Distinct(vertToEdges[vi]);
      VertexFacesStep(newVerts, vertices, vertToEdges, vi, sqrt, atan2);
      if |edgeVerts| >= 3 {
        faces := faces + [OrderAround(newVerts, edgeVerts, vertices[vi], sqrt, atan2)];
      }
      vi := vi + 1;
    }
  }

  lemma VertexFacesStep(newVerts: seq<Vec3>, vertices: seq<Vec3>, lists: seq<seq<nat>>, count: nat,
                        sqrt: real -> real, atan2: (real, real) -> real)
    requires count < |vertices| && |lists| == |vertices|
    ensures var prev, edgeVerts := VertexFaces(newVerts, vertices, lists, count, sqrt, atan2), Distinct(lists[count]);
      VertexFaces(newVerts, vertices, lists, count + 1, sqrt, atan2)
      == if |edgeVerts| >= 3 then prev + [OrderAround(newVerts, edgeVerts, vertices[count], sqrt, atan2)] else prev
  {
  }

  /** `ambo`: two face loops sharing the `edgeMap` memo, then one loop over the old vertices. */
  method Ambo(p: Poly, sqrt: real -> real, atan2: (real, real) -> real) returns (r: Poly)
    requires InRange(p)
    ensures r == AmboOf(p, sqrt, atan2)
  {
    var table := new VertexTable<Edge>();
    var rings := RingFaces(table, p);
    var vertToEdges := Incident(table, p);
    var vertexFaces := VertexFacesLoop(table.verts, p.vertices, vertToEdges, sqrt, atan2);
    r := Poly(NormalizeAll(table.verts, sqrt), rings + vertexFaces, "a(" + p.name + ")");
  }

  // ==================== expand ====================

  /** `expand`: `ambo(ambo(poly))`. */
  function ExpandOf(p: Poly, sqrt: real -> real, atan2: (real, real) -> real): Poly
    requires InRange(p)
  {
    AmboInRange(p, sqrt, atan2);
    AmboOf(AmboOf(p, sqrt, atan2), sqrt, atan2)
  }

  /**
   * `expand` keeps every face in range and polygons polygons; it has one vertex per edge
   * of the rectified solid, and its first faces are the rectified solid's faces, each
   * turned into the ring of its edge midpoints.
   */
  lemma ExpandProperties(p: Poly, sqrt: real -> real, atan2: (real, real) -> real)
    requires InRange(p)
    ensures InRange(ExpandOf(p, sqrt, atan2))
    ensures (forall f :: 0 <= f < |p.faces| ==> |p.faces[f]| >= 3) ==>
      forall g :: 0 <= g < |ExpandOf(p, sqrt, atan2).faces| ==> |ExpandOf(p, sqrt, atan2).faces[g]| >= 3
    ensures var a := AmboOf(p, sqrt, atan2);
      var e := ExpandOf(p, sqrt, atan2);
      |e.vertices| == InfoOf(a).E && e.name == "a(a(" + p.name + "))"
      && |a.faces| <= |e.faces|
      && forall f :: 0 <= f < |a.faces| ==> |e.faces[f]| == |a.faces[f]|
  {
    var a := AmboOf(p, sqrt, atan2);
    AmboInRange(p, sqrt, atan2);
    AmboInRange(a, sqrt, atan2);
    AmboFaceShape(p, sqrt, atan2);
    AmboFaceShape(a, sqrt, atan2);
  }

  /** `expand` as the two `ambo` calls. */
  method Expand(p: Poly, sqrt: real -> real, atan2: (real, real) -> real) returns (r: Poly)
    requires InRange(p)
    ensures r == ExpandOf(p, sqrt, atan2)
  {
    var once := Ambo(p, sqrt, atan2);
    AmboInRange(p, sqrt, atan2);
    r := Ambo(once, sqrt, atan2);
  }
}

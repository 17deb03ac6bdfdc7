/**
 * `dual`: every old face becomes a vertex at its centroid, pushed out to the unit sphere,
 * and every old vertex lying on at least three face corners becomes the face of those
 * faces' vertices, ordered by angle around it.
 */
module ConwayDual {
  import opened Vectors
  import opened ConwayPoly
  import opened ConwayAmbo
  import KeySort
  import opened PairLoops

  // ==================== vertToFaces ====================

  /** `n` copies of `x`. */
  function Copies(x: nat, n: nat): (r: seq<nat>)
    ensures |r| == n
  {
    seq(n, _ => x)
  }

  /** One more copy at the end. */
  lemma CopiesStep(x: nat, n: nat)
    ensures Copies(x, n + 1) == Copies(x, n) + [x]
  {
  }

  /**
   * The face indices listed for vertex `v` once every face of `faces` has pushed its index
   * onto each vertex it names: face `f` appears as often as `v` occurs in it, in face order.
   */
  function IncidentFaces(faces: seq<Face>, v: nat): seq<nat>
  {
    if |faces| == 0 then []
    else IncidentFaces(faces[..|faces| - 1], v) + Copies(|faces| - 1, multiset(faces[|faces| - 1])[v])
  }

  /** Face `f` is listed for `v` exactly as often as `v` occurs in it. */
  lemma {:induction false} IncidentFacesCount(faces: seq<Face>, v: nat, x: nat)
    ensures multiset(IncidentFaces(faces, v))[x] == if x < |faces| then multiset(faces[x])[v] else 0
  {
    if |faces| > 0 {
      var n := |faces| - 1;
      var prefix := faces[..n];
      IncidentFacesCount(prefix, v, x);
      var c := Copies(n, multiset(faces[n])[v]);
      assert multiset(IncidentFaces(faces, v)) == multiset(IncidentFaces(prefix, v)) + multiset(c);
      CopiesCount(n, multiset(faces[n])[v], x);
      if x < n {
        assert faces[x] == prefix[x];
      }
    }
  }

  /** How often a value occurs among copies. */
  lemma {:induction false} CopiesCount(y: nat, n: nat, x: nat)
    ensures multiset(Copies(y, n))[x] == if x == y then n else 0
  {
    if n > 0 {
      CopiesStep(y, n - 1);
      CopiesCount(y, n - 1, x);
      assert multiset(Copies(y, n)) == multiset(Copies(y, n - 1)) + multiset{y};
    }
  }

  /** Face `f` is listed for `v` exactly when `v` is one of its vertices. */
  lemma IncidentFacesMember(faces: seq<Face>, v: nat, x: nat)
    ensures x in IncidentFaces(faces, v) <==> x < |faces| && v in faces[x]
  {
    IncidentFacesCount(faces, v, x);
  }

  /** The vertex lists after the faces before `fi`, and `i` vertices of face `fi`. */
  ghost predicate ListsAt(lists: seq<seq<nat>>, faces: seq<Face>, fi: nat, i: nat)
    requires fi < |faces| && i <= |faces[fi]|
  {
    forall v :: 0 <= v < |lists| ==>
      lists[v] == IncidentFaces(faces[..fi], v) + Copies(fi, multiset(faces[fi][..i])[v])
  }

  /** A vertex on no face at all (or past the list) is listed for no face. */
  lemma ListsAtStart(lists: seq<seq<nat>>, faces: seq<Face>, fi: nat)
    requires fi < |faces|
    requires forall v :: 0 <= v < |lists| ==> lists[v] == IncidentFaces(faces[..fi], v)
    ensures ListsAt(lists, faces, fi, 0)
  {
    assert faces[fi][..0] == [];
  }

  /** Face `fi` done: the lists hold the faces up to and including it. */
  lemma ListsAtEnd(lists: seq<seq<nat>>, faces: seq<Face>, fi: nat)
    requires fi < |faces| && ListsAt(lists, faces, fi, |faces[fi]|)
    ensures forall v :: 0 <= v < |lists| ==> lists[v] == IncidentFaces(faces[..fi + 1], v)
  {
    assert faces[fi][..|faces[fi]|] == faces[fi];
    assert faces[..fi + 1][..fi] == faces[..fi];
  }

  /** `face.forEach(vi => vertToFaces[vi].push(fi))`, one vertex. */
  method PushIncidence(lists: seq<seq<nat>>, faces: seq<Face>, fi: nat, i: nat) returns (lists': seq<seq<nat>>)
    requires fi < |faces| && i < |faces[fi]| && faces[fi][i] < |lists|
    requires ListsAt(lists, faces, fi, i)
    ensures |lists'| == |lists| && ListsAt(lists', faces, fi, i + 1)
  {
    var face := faces[fi];
    var a := face[i];
    lists' := lists[a := lists[a] + [fi]];
    assert face[..i + 1] == face[..i] + [a];
    forall v | 0 <= v < |lists'|
      ensures lists'[v] == IncidentFaces(faces[..fi], v) + Copies(fi, multiset(face[..i + 1])[v])
    {
      if v == a {
        CopiesStep(fi, multiset(face[..i])[v]);
      }
    }
  }

  /** `vertToFaces`: every face pushes its index onto the list of each vertex it names. */
  method VertToFaces(n: nat, faces: seq<Face>) returns (lists: seq<seq<nat>>)
    requires forall f :: 0 <= f < |faces| ==> FaceInRange(faces[f], n)
    ensures |lists| == n && forall v :: 0 <= v < n ==> lists[v] == IncidentFaces(faces, v)
  {
    lists := EmptyLists(n);
    var fi := 0;
    while fi < |faces|
      invariant fi <= |faces| && |lists| == n
      invariant forall v :: 0 <= v < n ==> lists[v] == IncidentFaces(faces[..fi], v)
    {
      lists := AddFaceIncidences(n, faces, fi, lists);
      fi := fi + 1;
    }
    assert faces[..|faces|] == faces;
  }

  /** The inner loop: face `fi` is added to the list of each of its corners. */
  method AddFaceIncidences(n: nat, faces: seq<Face>, fi: nat, start: seq<seq<nat>>) returns (lists: seq<seq<nat>>)
    requires fi < |faces| && FaceInRange(faces[fi], n)
    requires |start| == n && forall v :: 0 <= v < n ==> start[v] == IncidentFaces(faces[..fi], v)
    ensures |lists| == n && forall v :: 0 <= v < n ==> lists[v] == IncidentFaces(faces[..fi + 1], v)
  {
    lists := start;
    ListsAtStart(lists, faces, fi);
    var i := 0;
    while i < |faces[fi]|
      invariant i <= |faces[fi]| && |lists| == n
      invariant ListsAt(lists, faces, fi, i)
    {
      assert faces[fi][i] < n;
      lists := PushIncidence(lists, faces, fi, i);
      i := i + 1;
    }
    ListsAtEnd(lists, faces, fi);
  }

  // ==================== the dual polyhedron ====================

  /** Vertex `v` lies on at least three face corners, so it becomes a face. */
  predicate Surrounded(p: Poly, v: nat)
  {
    |IncidentFaces(p.faces, v)| >= 3
  }

  /** `orderFacesAroundVertex`: the faces at vertex `v` ordered by the angle of their centroids. */
  function FacesAround(p: Poly, v: nat, sqrt: real -> real, atan2: (real, real) -> real): seq<nat>
    requires InRange(p) && v < |p.vertices|
  {
    OrderAround(Centroids(p.vertices, p.faces), IncidentFaces(p.faces, v), p.vertices[v], sqrt, atan2)
  }

  /** The faces the vertex loop adds for vertices `0 .. count − 1`. */
  function DualFaces(p: Poly, count: nat, sqrt: real -> real, atan2: (real, real) -> real): seq<Face>
    requires InRange(p)
  {
    FilterMap(count, (v: nat) => Surrounded(p, v),
              (v: nat) => if v < |p.vertices| then FacesAround(p, v, sqrt, atan2) else [])
  }

  /** One more vertex. */
  lemma DualFacesStep(p: Poly, count: nat, sqrt: real -> real, atan2: (real, real) -> real)
    requires InRange(p) && count < |p.vertices|
    ensures DualFaces(p, count + 1, sqrt, atan2)
      == DualFaces(p, count, sqrt, atan2) + if Surrounded(p, count) then [FacesAround(p, count, sqrt, atan2)] else []
  {
  }

  /** The new vertex of a face: its centroid normalised (the NaN of an empty face becomes zero). */
  function DualVertex(vertices: seq<Vec3>, face: Face, sqrt: real -> real): Vec3
    requires FaceInRange(face, |vertices|)
  {
    if |face| == 0 then Zero3 else Normalize3(Centroid(vertices, face), sqrt)
  }

  /** The polyhedron `dual` returns. */
  function DualOf(p: Poly, sqrt: real -> real, atan2: (real, real) -> real): Poly
    requires InRange(p)
  {
    Poly(seq(|p.faces|, f requires 0 <= f < |p.faces| => DualVertex(p.vertices, p.faces[f], sqrt)),
         DualFaces(p, |p.vertices|, sqrt, atan2),
         "d(" + p.name + ")")
  }

  /** The face is the ordered ring of faces around some surrounded vertex. */
  ghost predicate AroundSomeVertex(p: Poly, face: Face, sqrt: real -> real, atan2: (real, real) -> real)
    requires InRange(p)
  {
    exists v :: 0 <= v < |p.vertices| && Surrounded(p, v) && face == FacesAround(p, v, sqrt, atan2)
  }

  /**
   * `dual` makes one vertex per old face, at the face's normalised centroid; each new face
   * comes from an old vertex on at least three face corners and lists exactly the faces at
   * that vertex (each as often as the vertex occurs in it), sorted by angle around it; and
   * every such vertex gets its face.
   */
  lemma DualProperties(p: Poly, sqrt: real -> real, atan2: (real, real) -> real)
    requires InRange(p)
    ensures var r := DualOf(p, sqrt, atan2);
      |r.vertices| == |p.faces| && |r.faces| <= |p.vertices| && r.name == "d(" + p.name + ")"
      && forall f :: 0 <= f < |p.faces| && |p.faces[f]| > 0 ==>
           r.vertices[f] == Normalize3(Centroid(p.vertices, p.faces[f]), sqrt)
    ensures var r := DualOf(p, sqrt, atan2);
      forall v :: 0 <= v < |p.vertices| && Surrounded(p, v) ==>
        exists g :: 0 <= g < |r.faces| && r.faces[g] == FacesAround(p, v, sqrt, atan2)
    ensures var r := DualOf(p, sqrt, atan2);
      forall g :: 0 <= g < |r.faces| ==> AroundSomeVertex(p, r.faces[g], sqrt, atan2)
  {
    var r := DualOf(p, sqrt, atan2);
    forall v | 0 <= v < |p.vertices| && Surrounded(p, v)
      ensures exists g :: 0 <= g < |r.faces| && r.faces[g] == FacesAround(p, v, sqrt, atan2)
    {
      var g := DualFaceComplete(p, sqrt, atan2, v);
    }
    forall g | 0 <= g < |r.faces|
      ensures AroundSomeVertex(p, r.faces[g], sqrt, atan2)
    {
      var v := DualFaceSource(p, sqrt, atan2, g);
    }
  }

  /** Face `g` of the dual comes from a surrounded vertex. */
  lemma DualFaceSource(p: Poly, sqrt: real -> real, atan2: (real, real) -> real, g: nat) returns (v: nat)
    requires InRange(p) && g < |DualOf(p, sqrt, atan2).faces|
    ensures v < |p.vertices| && Surrounded(p, v) && DualOf(p, sqrt, atan2).faces[g] == FacesAround(p, v, sqrt, atan2)
  {
    v := FilterMapSource(|p.vertices|, (v: nat) => Surrounded(p, v),
                         (v: nat) => if v < |p.vertices| then FacesAround(p, v, sqrt, atan2) else [], g);
  }

  /** Every surrounded vertex has its face in the dual. */
  lemma DualFaceComplete(p: Poly, sqrt: real -> real, atan2: (real, real) -> real, v: nat) returns (g: nat)
    requires InRange(p) && v < |p.vertices| && Surrounded(p, v)
    ensures g < |DualOf(p, sqrt, atan2).faces| && DualOf(p, sqrt, atan2).faces[g] == FacesAround(p, v, sqrt, atan2)
  {
    g := FilterMapComplete(|p.vertices|, (v: nat) => Surrounded(p, v),
                           (v: nat) => if v < |p.vertices| then FacesAround(p, v, sqrt, atan2) else [], v);
  }

  /** The face of vertex `v` lists exactly the faces on `v`, each once per corner, in angular order. */
  lemma FacesAroundProperties(p: Poly, v: nat, sqrt: real -> real, atan2: (real, real) -> real, x: nat)
    requires InRange(p) && v < |p.vertices|
    ensures var face := FacesAround(p, v, sqrt, atan2);
      multiset(face)[x] == (if x < |p.faces| then multiset(p.faces[x])[v] else 0)
      && (x in face <==> x < |p.faces| && v in p.faces[x])
      && KeySort.SortedBy(face, AngleKey(Centroids(p.vertices, p.faces), p.vertices[v], sqrt, atan2))
  {
    IncidentFacesCount(p.faces, v, x);
  }

  /** When every vertex of a closed surface is surrounded, face `v` of the dual is the face of vertex `v`. */
  lemma DualOfClosed(p: Poly, sqrt: real -> real, atan2: (real, real) -> real)
    requires InRange(p) && forall v :: 0 <= v < |p.vertices| ==> Surrounded(p, v)
    ensures var r := DualOf(p, sqrt, atan2);
      |r.vertices| == |p.faces| && |r.faces| == |p.vertices|
      && forall v :: 0 <= v < |p.vertices| ==> r.faces[v] == FacesAround(p, v, sqrt, atan2)
  {
    FilterMapAll(|p.vertices|, (v: nat) => Surrounded(p, v),
                 (v: nat) => if v < |p.vertices| then FacesAround(p, v, sqrt, atan2) else []);
  }

  /** The dual indexes inside its own vertex list, and each of its faces has at least three corners. */
  lemma DualInRange(p: Poly, sqrt: real -> real, atan2: (real, real) -> real)
    requires InRange(p)
    ensures InRange(DualOf(p, sqrt, atan2))
    ensures forall g :: 0 <= g < |DualOf(p, sqrt, atan2).faces| ==> |DualOf(p, sqrt, atan2).faces[g]| >= 3
  {
    var r := DualOf(p, sqrt, atan2);
    forall g | 0 <= g < |r.faces|
      ensures FaceInRange(r.faces[g], |r.vertices|) && |r.faces[g]| >= 3
    {
      var v := DualFaceSource(p, sqrt, atan2, g);
      var list := IncidentFaces(p.faces, v);
      assert multiset(r.faces[g]) == multiset(list);
      PermutationSame(r.faces[g], list);
      forall i | 0 <= i < |r.faces[g]|
        ensures r.faces[g][i] < |r.vertices|
      {
        assert r.faces[g][i] in list;
        IncidentFacesMember(p.faces, v, r.faces[g][i]);
      }
    }
  }

  // ==================== the loops ====================

  /** `faces.map(face => centroid)` followed by `.map(normalize)`. */
  method DualVertices(p: Poly, sqrt: real -> real) returns (verts: seq<Vec3>)
    requires InRange(p)
    ensures |verts| == |p.faces| && forall f :: 0 <= f < |p.faces| ==> verts[f] == DualVertex(p.vertices, p.faces[f], sqrt)
  {
    verts := [];
    var fi := 0;
    while fi < |p.faces|
      invariant fi <= |p.faces| && |verts| == fi
      invariant forall f :: 0 <= f < fi ==> verts[f] == DualVertex(p.vertices, p.faces[f], sqrt)
    {
      assert FaceInRange(p.faces[fi], |p.vertices|);
      var c := Zero3;
      if |p.faces[fi]| > 0 {
        c := CentroidOf(p.vertices, p.faces[fi]);
        c := Normalize3(c, sqrt);
      }
      verts := verts + [c];
      fi := fi + 1;
    }
  }

  /** One pass of the vertex loop: vertex `vi` adds its ordered faces when it lies on three corners or more. */
  method AddDualFace(p: Poly, centroids: seq<Vec3>, surrounding: seq<nat>, vi: nat, faces: seq<Face>,
                     sqrt: real -> real, atan2: (real, real) -> real) returns (faces': seq<Face>)
    requires InRange(p) && vi < |p.vertices|
    requires centroids == Centroids(p.vertices, p.faces) && surrounding == IncidentFaces(p.faces, vi)
    requires faces == DualFaces(p, vi, sqrt, atan2)
    ensures faces' == DualFaces(p, vi + 1, sqrt, atan2)
  {
    DualFacesStep(p, vi, sqrt, atan2);
    faces' := faces;
    if |surrounding| >= 3 {
      faces' := faces + [OrderAround(centroids, surrounding, p.vertices[vi], sqrt, atan2)];
    }
  }

  /** The vertex loop: one face for each vertex on at least three face corners. */
  method DualFacesLoop(p: Poly, vertToFaces: seq<seq<nat>>, sqrt: real -> real, atan2: (real, real) -> real)
    returns (faces: seq<Face>)
    requires InRange(p)
    requires |vertToFaces| == |p.vertices| && forall v :: 0 <= v < |p.vertices| ==> vertToFaces[v] == IncidentFaces(p.faces, v)
    ensures faces == DualFaces(p, |p.vertices|, sqrt, atan2)
  {
    var centroids := Centroids(p.vertices, p.faces);
    faces := [];
    var vi := 0;
    while vi < |p.vertices|
      invariant vi <= |p.vertices|
      invariant faces == DualFaces(p, vi, sqrt, atan2)
    {
      faces := AddDualFace(p, centroids, vertToFaces[vi], vi, faces, sqrt, atan2);
      vi := vi + 1;
    }
  }

  /** `dual`: the centroid map, the `vertToFaces` loop and the vertex loop. */
  method Dual(p: Poly, sqrt: real -> real, atan2: (real, real) -> real) returns (r: Poly)
    requires InRange(p)
    ensures r == DualOf(p, sqrt, atan2)
  {
    var newVerts := DualVertices(p, sqrt);
    var vertToFaces := VertToFaces(|p.vertices|, p.faces);
    var newFaces := DualFacesLoop(p, vertToFaces, sqrt, atan2);
    r := Poly(newVerts, newFaces, "d(" + p.name + ")");
  }
}

/**
 * `snub`, in the source's simplified form: take `ambo(poly)`, keep its triangles, and
 * replace every other face by a fan of triangles around one new vertex at the face's
 * normalised centroid.
 */
module ConwaySnub {
  import opened Vectors
  import opened ConwayPoly
  import opened ConwayAmbo

  /** The new vertex of a face: its centroid normalised (the NaN of an empty face becomes zero). */
  function SnubCentre(verts: seq<Vec3>, face: Face, sqrt: real -> real): Vec3
    requires FaceInRange(face, |verts|)
  {
    if |face| == 0 then Zero3 else Normalize3(Centroid(verts, face), sqrt)
  }

  /** `[face[i], face[(i + 1) % face.length], ci]` for every position `i`. */
  function Fan(face: Face, ci: nat): (r: seq<Face>)
    ensures |r| == |face|
    ensures forall i :: 0 <= i < |face| ==> r[i] == [face[i], face[Next(i, |face|)], ci]
  {
    seq(|face|, i requires 0 <= i < |face| => [face[i], face[Next(i, |face|)], ci])
  }

  /** One face of the loop: a triangle is kept, any other face becomes a fan around a new vertex. */
  function SnubStep(verts: seq<Vec3>, face: Face, sqrt: real -> real): (seq<Vec3>, seq<Face>)
    requires FaceInRange(face, |verts|)
  {
    if |face| == 3 then (verts, [face])
    else (verts + [SnubCentre(verts, face, sqrt)], Fan(face, |verts|))
  }

  /** The vertices and faces after the first `count` faces, starting from `verts0`. */
  function SnubFaces(verts0: seq<Vec3>, faces: seq<Face>, count: nat, sqrt: real -> real): (r: (seq<Vec3>, seq<Face>))
    requires count <= |faces| && forall f :: 0 <= f < |faces| ==> FaceInRange(faces[f], |verts0|)
    ensures |verts0| <= |r.0|
  {
    if count == 0 then (verts0, [])
    else
      var prev := SnubFaces(verts0, faces, count - 1, sqrt);
      assert FaceInRange(faces[count - 1], |verts0|);
      var step := SnubStep(prev.0, faces[count - 1], sqrt);
      (step.0, prev.1 + step.1)
  }

  /** The number of faces that are not triangles. */
  function NonTriangles(faces: seq<Face>): nat
  {
    if |faces| == 0 then 0
    else NonTriangles(faces[..|faces| - 1]) + if |faces[|faces| - 1]| == 3 then 0 else 1
  }

  /** The faces' vertices indexed by `verts0`. */
  predicate FacesIn(faces: seq<Face>, n: nat)
  {
    forall f :: 0 <= f < |faces| ==> FaceInRange(faces[f], n)
  }

  /**
   * The loop only appends vertices, one per non-triangle, and every face it makes is a
   * triangle on vertices that exist.
   */
  lemma {:induction false} SnubFacesShape(verts0: seq<Vec3>, faces: seq<Face>, count: nat, sqrt: real -> real)
    requires count <= |faces| && FacesIn(faces, |verts0|)
    ensures var r := SnubFaces(verts0, faces, count, sqrt);
      |r.0| == |verts0| + NonTriangles(faces[..count]) && r.0[..|verts0|] == verts0
      && forall g :: 0 <= g < |r.1| ==> |r.1[g]| == 3 && FaceInRange(r.1[g], |r.0|)
  {
    if count > 0 {
      SnubFacesShape(verts0, faces, count - 1, sqrt);
      var prev := SnubFaces(verts0, faces, count - 1, sqrt);
      var face := faces[count - 1];
      assert FaceInRange(face, |verts0|);
      var step := SnubStep(prev.0, face, sqrt);
      assert faces[..count][..count - 1] == faces[..count - 1];
      assert step.0[..|verts0|] == verts0 by {
        assert step.0[..|prev.0|] == prev.0;
      }
      var r := SnubFaces(verts0, faces, count, sqrt);
      forall g | 0 <= g < |r.1|
        ensures |r.1[g]| == 3 && FaceInRange(r.1[g], |r.0|)
      {
        if g >= |prev.1| {
          assert r.1[g] == step.1[g - |prev.1|];
        } else {
          assert r.1[g] == prev.1[g];
        }
      }
    }
  }

  /** The vertices after `k` faces stay in place for the rest of the loop. */
  lemma {:induction false} SnubFacesGrow(verts0: seq<Vec3>, faces: seq<Face>, k: nat, count: nat, sqrt: real -> real)
    requires k <= count <= |faces| && FacesIn(faces, |verts0|)
    ensures var a := SnubFaces(verts0, faces, k, sqrt).0;
      var b := SnubFaces(verts0, faces, count, sqrt).0;
      |a| <= |b| && b[..|a|] == a
  {
    if k < count {
      SnubFacesGrow(verts0, faces, k, count - 1, sqrt);
      var a := SnubFaces(verts0, faces, k, sqrt).0;
      var prev := SnubFaces(verts0, faces, count - 1, sqrt).0;
      var b := SnubFaces(verts0, faces, count, sqrt).0;
      assert FaceInRange(faces[count - 1], |verts0|);
      assert b[..|prev|] == prev;
      assert b[..|a|] == prev[..|a|];
    }
  }

  /** The faces made before face `k` are kept as a prefix of the later faces. */
  lemma {:induction false} SnubFacesKeep(verts0: seq<Vec3>, faces: seq<Face>, k: nat, count: nat, sqrt: real -> real)
    requires k <= count <= |faces| && FacesIn(faces, |verts0|)
    ensures var a := SnubFaces(verts0, faces, k, sqrt).1;
      var b := SnubFaces(verts0, faces, count, sqrt).1;
      |a| <= |b| && b[..|a|] == a
  {
    if k < count {
      SnubFacesKeep(verts0, faces, k, count - 1, sqrt);
      var a := SnubFaces(verts0, faces, k, sqrt).1;
      var prev := SnubFaces(verts0, faces, count - 1, sqrt).1;
      var b := SnubFaces(verts0, faces, count, sqrt).1;
      assert FaceInRange(faces[count - 1], |verts0|);
      assert b[..|prev|] == prev;
      assert b[..|a|] == prev[..|a|];
    }
  }

  /** The centre of a face on the original vertices does not see the vertices appended after them. */
  lemma {:induction false} CentrePrefix(verts0: seq<Vec3>, verts: seq<Vec3>, face: Face, sqrt: real -> real)
    requires FaceInRange(face, |verts0|) && |verts0| <= |verts| && verts[..|verts0|] == verts0
    ensures SnubCentre(verts, face, sqrt) == SnubCentre(verts0, face, sqrt)
  {
    assert verts == verts0 + verts[|verts0|..];
    SumPointsPrefix(verts0, verts[|verts0|..], face);
  }

  /**
   * Every face before `count` is covered: a triangle is kept as it is, and any other face
   * has a vertex `c` added at its normalised centroid with the triangle `[face[i], face[i + 1], c]`
   * for every position `i`.
   */
  lemma {:induction false} SnubFacesCovered(verts0: seq<Vec3>, faces: seq<Face>, count: nat, sqrt: real -> real, f: nat)
    returns (c: nat)
    requires count <= |faces| && FacesIn(faces, |verts0|) && f < count
    ensures var r := SnubFaces(verts0, faces, count, sqrt);
      (|faces[f]| == 3 ==> faces[f] in r.1)
      && (|faces[f]| != 3 ==>
            |verts0| <= c < |r.0| && r.0[c] == SnubCentre(verts0, faces[f], sqrt)
            && forall i :: 0 <= i < |faces[f]| ==> [faces[f][i], faces[f][Next(i, |faces[f]|)], c] in r.1)
  {
    var prev := SnubFaces(verts0, faces, f, sqrt);
    var face := faces[f];
    assert FaceInRange(face, |verts0|);
    var at := SnubFaces(verts0, faces, f + 1, sqrt);
    var r := SnubFaces(verts0, faces, count, sqrt);
    SnubFacesGrow(verts0, faces, f + 1, count, sqrt);
    SnubFacesKeep(verts0, faces, f + 1, count, sqrt);
    SnubFacesShape(verts0, faces, f, sqrt);
    c := |prev.0|;
    assert at.1[..|prev.1|] == prev.1;
    if |face| == 3 {
      assert at.1[|prev.1|] == face;
      assert r.1[|prev.1|] == face;
    } else {
      CentrePrefix(verts0, prev.0, face, sqrt);
      assert at.0[c] == SnubCentre(verts0, face, sqrt);
      assert r.0[c] == at.0[c];
      forall i | 0 <= i < |face|
        ensures [face[i], face[Next(i, |face|)], c] in r.1
      {
        assert at.1[|prev.1| + i] == Fan(face, c)[i];
        assert r.1[|prev.1| + i] == at.1[|prev.1| + i];
      }
    }
  }

  /** The centre vertex `c` of face `f`, and a triangle of its fan. */
  ghost predicate FanTriangle(verts0: seq<Vec3>, r: (seq<Vec3>, seq<Face>), face: Face, i: nat, c: nat,
                              tri: Face, sqrt: real -> real)
    requires FaceInRange(face, |verts0|)
  {
    i < |face| && |verts0| <= c < |r.0| && r.0[c] == SnubCentre(verts0, face, sqrt)
    && tri == [face[i], face[Next(i, |face|)], c]
  }

  /** Every face made comes from one face before `count`: the triangle itself, or a triangle of its fan. */
  lemma {:induction false} SnubFacesSource(verts0: seq<Vec3>, faces: seq<Face>, count: nat, sqrt: real -> real, g: nat)
    returns (f: nat, i: nat, c: nat)
    requires count <= |faces| && FacesIn(faces, |verts0|) && g < |SnubFaces(verts0, faces, count, sqrt).1|
    ensures f < count && FaceInRange(faces[f], |verts0|)
    ensures var r := SnubFaces(verts0, faces, count, sqrt);
      (|faces[f]| == 3 && r.1[g] == faces[f])
      || (|faces[f]| != 3 && FanTriangle(verts0, r, faces[f], i, c, r.1[g], sqrt))
  {
    var prev := SnubFaces(verts0, faces, count - 1, sqrt);
    var face := faces[count - 1];
    assert FaceInRange(face, |verts0|);
    var r := SnubFaces(verts0, faces, count, sqrt);
    SnubFacesGrow(verts0, faces, count - 1, count, sqrt);
    if g < |prev.1| {
      f, i, c := SnubFacesSource(verts0, faces, count - 1, sqrt, g);
      assert r.1[g] == prev.1[g];
      if |faces[f]| != 3 {
        assert r.0[c] == prev.0[c];
        assert FanTriangle(verts0, r, faces[f], i, c, r.1[g], sqrt);
      }
    } else {
      f, i, c := count - 1, 0, 0;
      if |face| != 3 {
        i := g - |prev.1|;
        c := |prev.0|;
        SnubFacesShape(verts0, faces, count - 1, sqrt);
        CentrePrefix(verts0, prev.0, face, sqrt);
        assert r.1[g] == Fan(face, c)[i];
        assert FanTriangle(verts0, r, face, i, c, r.1[g], sqrt);
      }
    }
  }

  // ==================== the snub polyhedron ====================

  /** The polyhedron `snub` returns. */
  function SnubOf(p: Poly, sqrt: real -> real, atan2: (real, real) -> real): Poly
    requires InRange(p)
  {
    var a := AmboOf(p, sqrt, atan2);
    AmboInRange(p, sqrt, atan2);
    var r := SnubFaces(a.vertices, a.faces, |a.faces|, sqrt);
    Poly(r.0, r.1, "s(" + p.name + ")")
  }

  /**
   * `snub` keeps the vertices of `ambo(poly)` in place and adds one per face that is not a
   * triangle; every face it returns is a triangle on existing vertices.
   */
  lemma SnubShape(p: Poly, sqrt: real -> real, atan2: (real, real) -> real)
    requires InRange(p)
    ensures var a := AmboOf(p, sqrt, atan2);
      var s := SnubOf(p, sqrt, atan2);
      |s.vertices| == |a.vertices| + NonTriangles(a.faces) && s.vertices[..|a.vertices|] == a.vertices
      && AllFacesOfSize(s, 3) && InRange(s) && s.name == "s(" + p.name + ")"
  {
    var a := AmboOf(p, sqrt, atan2);
    AmboInRange(p, sqrt, atan2);
    SnubFacesShape(a.vertices, a.faces, |a.faces|, sqrt);
    assert a.faces[..|a.faces|] == a.faces;
  }

  /** Each face of `ambo(poly)` is kept when a triangle, and fanned around its new centre otherwise. */
  lemma SnubCovers(p: Poly, sqrt: real -> real, atan2: (real, real) -> real, f: nat) returns (c: nat)
    requires InRange(p) && f < |AmboOf(p, sqrt, atan2).faces|
    ensures var a := AmboOf(p, sqrt, atan2);
      var s := SnubOf(p, sqrt, atan2);
      FaceInRange(a.faces[f], |a.vertices|)
      && (|a.faces[f]| == 3 ==> a.faces[f] in s.faces)
      && (|a.faces[f]| != 3 ==>
            |a.vertices| <= c < |s.vertices| && s.vertices[c] == SnubCentre(a.vertices, a.faces[f], sqrt)
            && forall i :: 0 <= i < |a.faces[f]| ==> [a.faces[f][i], a.faces[f][Next(i, |a.faces[f]|)], c] in s.faces)
  {
    var a := AmboOf(p, sqrt, atan2);
    AmboInRange(p, sqrt, atan2);
    c := SnubFacesCovered(a.vertices, a.faces, |a.faces|, sqrt, f);
  }

  /** Each face of `snub` is a triangle of `ambo(poly)` or a triangle of the fan of one of its faces. */
  lemma SnubSource(p: Poly, sqrt: real -> real, atan2: (real, real) -> real, g: nat) returns (f: nat, i: nat, c: nat)
    requires InRange(p) && g < |SnubOf(p, sqrt, atan2).faces|
    ensures var a := AmboOf(p, sqrt, atan2);
      var s := SnubOf(p, sqrt, atan2);
      f < |a.faces| && FaceInRange(a.faces[f], |a.vertices|)
      && ((|a.faces[f]| == 3 && s.faces[g] == a.faces[f])
          || (|a.faces[f]| != 3 && i < |a.faces[f]| && |a.vertices| <= c < |s.vertices|
              && s.vertices[c] == SnubCentre(a.vertices, a.faces[f], sqrt)
              && s.faces[g] == [a.faces[f][i], a.faces[f][Next(i, |a.faces[f]|)], c]))
  {
    var a := AmboOf(p, sqrt, atan2);
    AmboInRange(p, sqrt, atan2);
    f, i, c := SnubFacesSource(a.vertices, a.faces, |a.faces|, sqrt, g);
  }

  // ==================== the loop ====================

  /** One pass of the face loop. */
  method SnubFace(verts0: seq<Vec3>, faces: seq<Face>, fi: nat, verts: seq<Vec3>, newFaces: seq<Face>, sqrt: real -> real)
    returns (verts': seq<Vec3>, newFaces': seq<Face>)
    requires fi < |faces| && FacesIn(faces, |verts0|)
    requires (verts, newFaces) == SnubFaces(verts0, faces, fi, sqrt)
    ensures (verts', newFaces') == SnubFaces(verts0, faces, fi + 1, sqrt)
  {
    var face := faces[fi];
    assert FaceInRange(face, |verts0|);
    if |face| == 3 {
      verts', newFaces' := verts, newFaces + [face];
    } else {
      var c := Zero3;
      if |face| > 0 {
        c := CentroidOf(verts, face);
        c := Normalize3(c, sqrt);
      }
      var ci := |verts|;
      verts' := verts + [c];
      newFaces' := newFaces;
      var i := 0;
      while i < |face|
        invariant i <= |face|
        invariant newFaces' == newFaces + Fan(face, ci)[..i]
      {
        var j := (i + 1) % |face|;
        assert Fan(face, ci)[..i + 1] == Fan(face, ci)[..i] + [[face[i], face[j], ci]];
        newFaces' := newFaces' + [[face[i], face[j], ci]];
        i := i + 1;
      }
      assert Fan(face, ci)[..|face|] == Fan(face, ci);
    }
  }

  /** `snub`: `ambo`, then one pass over its faces. */
  method Snub(p: Poly, sqrt: real -> real, atan2: (real, real) -> real) returns (r: Poly)
    requires InRange(p)
    ensures r == SnubOf(p, sqrt, atan2)
  {
    var expanded := Ambo(p, sqrt, atan2);
    AmboInRange(p, sqrt, atan2);
    var verts := expanded.vertices;
    var newFaces: seq<Face> := [];
    var fi := 0;
    while fi < |expanded.faces|
      invariant fi <= |expanded.faces|
      invariant (verts, newFaces) == SnubFaces(expanded.vertices, expanded.faces, fi, sqrt)
    {
      verts, newFaces := SnubFace(expanded.vertices, expanded.faces, fi, verts, newFaces, sqrt);
      fi := fi + 1;
    }
    r := Poly(verts, newFaces, "s(" + p.name + ")");
  }
}

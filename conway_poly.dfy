/**
 * The polyhedron format of the Conway operators: vertex coordinates, faces as lists of
 * vertex indices, and a name.  This module holds the seeds, the shared vector helpers of
 * the operators (centroid, the two normalisations, the angular ordering around a point),
 * face orientation and vertex interpolation.
 */
module ConwayPoly {
  import opened RealMath
  import opened Vectors
  import opened PairLoops
  import KeySort
  import NumberText

  type Face = seq<nat>

  /** `{ vertices, faces, name }`. */
  datatype Poly = Poly(vertices: seq<Vec3>, faces: seq<Face>, name: string)

  predicate FaceInRange(f: Face, n: nat)
  {
    forall i :: 0 <= i < |f| ==> f[i] < n
  }

  /** Every face indexes inside the vertex list. */
  predicate InRange(p: Poly)
  {
    forall f :: 0 <= f < |p.faces| ==> FaceInRange(p.faces[f], |p.vertices|)
  }

  /** `(i + 1) % face.length`: the next position around a face. */
  function Next(i: nat, len: nat): (j: nat)
    requires i < len
    ensures j < len
    ensures j == if i + 1 == len then 0 else i + 1
  {
    (i + 1) % len
  }

  /** The edge key `a < b ? "a-b" : "b-a"`, as the ordered pair it spells. */
  function EdgeKey(a: nat, b: nat): (k: Edge)
    ensures k.0 <= k.1
    ensures (k.0 == a && k.1 == b) || (k.0 == b && k.1 == a)
  {
    if a < b then (a, b) else (b, a)
  }

  /** The text of a key such as `"3-7"`. */
  function KeyText(a: nat, b: nat): string
  {
    NumberText.NatToString(a) + "-" + NumberText.NatToString(b)
  }

  /** The position of the first `'-'` in a string that has one. */
  function DashIndex(x: string): (i: nat)
    requires '-' in x
    ensures i < |x| && x[i] == '-'
  {
    if x[0] == '-' then 0 else 1 + DashIndex(x[1..])
  }

  /** In `digits + "-" + rest` the first dash comes right after the digits. */
  lemma {:induction false} DashAfterDigits(digits: string, rest: string)
    requires forall i :: 0 <= i < |digits| ==> NumberText.IsDigit(digits[i])
    ensures '-' in digits + "-" + rest
    ensures DashIndex(digits + "-" + rest) == |digits|
  {
    var x := digits + "-" + rest;
    assert x[|digits|] == '-';
    if |digits| > 0 {
      DashAfterDigits(digits[1..], rest);
      assert x[1..] == digits[1..] + "-" + rest;
    }
  }

  /** Different index pairs spell different keys, so keys can stand for the pairs. */
  lemma KeyTextInjective(a: nat, b: nat, c: nat, d: nat)
    requires KeyText(a, b) == KeyText(c, d)
    ensures a == c && b == d
  {
    var s, t := NumberText.NatToString(a), NumberText.NatToString(c);
    var x, y := KeyText(a, b), KeyText(c, d);
    DashAfterDigits(s, NumberText.NatToString(b));
    DashAfterDigits(t, NumberText.NatToString(d));
    assert s == x[..|s|] && t == y[..|t|];
    NumberText.NatToStringInjective(a, c);
    assert NumberText.NatToString(b) == x[|s| + 1..];
    assert NumberText.NatToString(d) == y[|t| + 1..];
    NumberText.NatToStringInjective(b, d);
  }

  /** Both orders of an edge have the same key, and only they do. */
  lemma EdgeKeySymmetric(a: nat, b: nat, c: nat, d: nat)
    ensures EdgeKey(a, b) == EdgeKey(b, a)
    ensures EdgeKey(a, b) == EdgeKey(c, d) <==> (a == c && b == d) || (a == d && b == c)
  {
  }

  /** `normalize3`: unit length, or `[0, 0, 1]` for the zero vector (where `normalize` gives zero). */
  function NormalizeUp(v: Vec3, sqrt: real -> real): (r: Vec3)
    ensures Len3(v, sqrt) <= 0.0 ==> r == [0.0, 0.0, 1.0]
    ensures Len3(v, sqrt) > 0.0 ==> r == Normalize3(v, sqrt)
  {
    var l := Len3(v, sqrt);
    if l > 0.0 then [v[0] / l, v[1] / l, v[2] / l] else [0.0, 0.0, 1.0]
  }

  /** The sum of the vertices a face lists. */
  function SumPoints(vertices: seq<Vec3>, face: Face): Vec3
    requires FaceInRange(face, |vertices|)
  {
    if |face| == 0 then Zero3
    else Add3(SumPoints(vertices, face[..|face| - 1]), vertices[face[|face| - 1]])
  }

  /** The average of a face's vertices, as `dual`, `snub` and `orderFacesAroundVertex` compute it. */
  function Centroid(vertices: seq<Vec3>, face: Face): Vec3
    requires FaceInRange(face, |vertices|) && |face| > 0
  {
    var c := SumPoints(vertices, face);
    var n := |face| as real;
    [c[0] / n, c[1] / n, c[2] / n]
  }

  /**
   * The centroids of all faces, the points `dual` creates and `orderFacesAroundVertex`
   * orders.  An empty face has no centroid (the source divides by a zero length and gets
   * NaN); it stands here as the zero vector, which is what `normalize` turns NaN into, and
   * it is never ordered, since no vertex lies on an empty face.
   */
  function Centroids(vertices: seq<Vec3>, faces: seq<Face>): (r: seq<Vec3>)
    requires forall f :: 0 <= f < |faces| ==> FaceInRange(faces[f], |vertices|)
    ensures |r| == |faces|
    ensures forall f :: 0 <= f < |faces| && |faces[f]| > 0 ==> r[f] == Centroid(vertices, faces[f])
  {
    seq(|faces|, f requires 0 <= f < |faces| => if |faces[f]| == 0 then Zero3 else Centroid(vertices, faces[f]))
  }

  /** The `forEach` that sums a face's vertices, then the division by its length. */
  method CentroidOf(vertices: seq<Vec3>, face: Face) returns (c: Vec3)
    requires FaceInRange(face, |vertices|) && |face| > 0
    ensures c == Centroid(vertices, face)
  {
    var sum := Zero3;
    var i := 0;
    while i < |face|
      invariant i <= |face|
      invariant sum == SumPoints(vertices, face[..i])
    {
      assert face[..i + 1][..i] == face[..i];
      sum := Add3(sum, vertices[face[i]]);
      i := i + 1;
    }
    assert face[..|face|] == face;
    var n := |face| as real;
    c := [sum[0] / n, sum[1] / n, sum[2] / n];
  }

  /** Extra vertices after the ones a face names do not change its sum. */
  lemma {:induction false} SumPointsPrefix(vertices: seq<Vec3>, more: seq<Vec3>, face: Face)
    requires FaceInRange(face, |vertices|)
    ensures SumPoints(vertices + more, face) == SumPoints(vertices, face)
  {
    if |face| > 0 {
      SumPointsPrefix(vertices, more, face[..|face| - 1]);
      assert (vertices + more)[face[|face| - 1]] == vertices[face[|face| - 1]];
    }
  }

  /**
   * The angle of `point` around `center` in the local frame both orderings build:
   * normal = normalize3(center), up = y unless the normal is nearly vertical, then
   * u = normalize3(normal × up), v = normalize3(u × normal), angle = atan2(d·v, d·u).
   */
  function AngleAround(center: Vec3, point: Vec3, sqrt: real -> real, atan2: (real, real) -> real): real
  {
    var normal := NormalizeUp(center, sqrt);
    var up: Vec3 := if Abs(normal[1]) < 0.9 then [0.0, 1.0, 0.0] else [1.0, 0.0, 0.0];
    var u := NormalizeUp(Cross3(normal, up), sqrt);
    var v := NormalizeUp(Cross3(u, normal), sqrt);
    var d := Sub3(point, center);
    atan2(Dot3(d, v), Dot3(d, u))
  }

  /** The sort key of an index: the angle of the point it names. */
  function AngleKey(points: seq<Vec3>, center: Vec3, sqrt: real -> real, atan2: (real, real) -> real): nat -> real
  {
    (i: nat) => if i < |points| then AngleAround(center, points[i], sqrt, atan2) else 0.0
  }

  /**
   * `orderVerticesAroundPoint` (and `orderFacesAroundVertex` over face centroids): the
   * indices sorted by angle, a permutation of the input.
   */
  function OrderAround(points: seq<Vec3>, indices: seq<nat>, center: Vec3, sqrt: real -> real,
                       atan2: (real, real) -> real): (r: seq<nat>)
    ensures multiset(r) == multiset(indices)
    ensures KeySort.SortedBy(r, AngleKey(points, center, sqrt, atan2))
  {
    var key := AngleKey(points, center, sqrt, atan2);
    KeySort.SortBySorted(indices, key);
    KeySort.SortBy(indices, key)
  }

  /** A reordered list has the same length and the same elements. */
  lemma PermutationSame(r: seq<nat>, s: seq<nat>)
    requires multiset(r) == multiset(s)
    ensures |r| == |s|
    ensures forall x :: x in r <==> x in s
  {
    assert |multiset(r)| == |r| && |multiset(s)| == |s|;
    forall x
      ensures x in r <==> x in s
    {
      assert x in r <==> x in multiset(r);
      assert x in s <==> x in multiset(s);
    }
  }

  /** `[...face].reverse()`. */
  function Reverse(s: Face): (r: Face)
    ensures |r| == |s|
    ensures forall i :: 0 <= i < |s| ==> r[i] == s[|s| - 1 - i]
  {
    if |s| == 0 then [] else [s[|s| - 1]] + Reverse(s[..|s| - 1])
  }

  /** Reversing twice gives the face back, and reversing keeps the vertex multiset. */
  lemma ReverseProperties(s: Face)
    ensures Reverse(Reverse(s)) == s
    ensures multiset(Reverse(s)) == multiset(s)
  {
    var r := Reverse(Reverse(s));
    forall i | 0 <= i < |s|
      ensures r[i] == s[i]
    {
    }
    ReverseMultiset(s);
  }

  lemma {:induction false} ReverseMultiset(s: Face)
    ensures multiset(Reverse(s)) == multiset(s)
  {
    if |s| > 0 {
      var p := s[..|s| - 1];
      ReverseMultiset(p);
      assert Reverse(s) == [s[|s| - 1]] + Reverse(p);
      assert s == p + [s[|s| - 1]];
    }
  }

  /** `dot3(cross3(v1 − v0, v2 − v0), center − v0)`, the test `orientFace` makes. */
  function NormalTest(vertices: seq<Vec3>, face: Face, center: Vec3): real
    requires |face| >= 3 && FaceInRange(face, |vertices|)
  {
    var v0, v1, v2 := vertices[face[0]], vertices[face[1]], vertices[face[2]];
    Dot3(Cross3(Sub3(v1, v0), Sub3(v2, v0)), Sub3(center, v0))
  }

  /** `orientFace`: the face, or its reverse when the normal points at the centre. */
  function OrientFace(vertices: seq<Vec3>, face: Face, center: Vec3): (r: Face)
    requires |face| >= 3 && FaceInRange(face, |vertices|)
    ensures r == face || r == Reverse(face)
    ensures multiset(r) == multiset(face) && |r| == |face|
    ensures NormalTest(vertices, face, center) <= 0.0 ==> r == face
  {
    ReverseProperties(face);
    if NormalTest(vertices, face, center) > 0.0 then Reverse(face) else face
  }

  /** The cross product of the reversed triangle's edges is the opposite normal. */
  lemma ReversedCross(v0: Vec3, v1: Vec3, v2: Vec3)
    ensures Cross3(Sub3(v1, v2), Sub3(v0, v2)) == Scale3(Cross3(Sub3(v1, v0), Sub3(v2, v0)), -1.0)
  {
    var n := Cross3(Sub3(v1, v0), Sub3(v2, v0));
    var n' := Cross3(Sub3(v1, v2), Sub3(v0, v2));
    assert n'[0] == -n[0];
    assert n'[1] == -n[1];
    assert n'[2] == -n[2];
  }

  /** Moving the base point of the test along a vector perpendicular to the normal. */
  lemma ShiftedTest(n: Vec3, c: Vec3, v0: Vec3, v2: Vec3)
    requires Dot3(n, Sub3(v2, v0)) == 0.0
    ensures Dot3(Scale3(n, -1.0), Sub3(c, v2)) == -Dot3(n, Sub3(c, v0))
  {
    assert Dot3(Scale3(n, -1.0), Sub3(c, v2)) == -Dot3(n, Sub3(c, v0)) + Dot3(n, Sub3(v2, v0));
  }

  /** Reversing a triangle negates its normal test. */
  lemma ReverseTriangleTest(vertices: seq<Vec3>, face: Face, center: Vec3)
    requires |face| == 3 && FaceInRange(face, |vertices|)
    ensures FaceInRange(Reverse(face), |vertices|)
    ensures NormalTest(vertices, Reverse(face), center) == -NormalTest(vertices, face, center)
  {
    var v0, v1, v2 := vertices[face[0]], vertices[face[1]], vertices[face[2]];
    var r := Reverse(face);
    assert r[0] == face[2] && r[1] == face[1] && r[2] == face[0];
    var n := Cross3(Sub3(v1, v0), Sub3(v2, v0));
    ReversedCross(v0, v1, v2);
    CrossPerpendicular(Sub3(v1, v0), Sub3(v2, v0));
    ShiftedTest(n, center, v0, v2);
  }

  /** After `orientFace` a triangle's normal no longer points at the centre. */
  lemma OrientTriangleOutward(vertices: seq<Vec3>, face: Face, center: Vec3)
    requires |face| == 3 && FaceInRange(face, |vertices|)
    ensures FaceInRange(OrientFace(vertices, face, center), |vertices|)
    ensures NormalTest(vertices, OrientFace(vertices, face, center), center) <= 0.0
  {
    ReverseTriangleTest(vertices, face, center);
  }

  // ==================== seeds ====================

  /** The five seed keys; any other key selects the tetrahedron. */
  const SeedKeys: set<string> := {"tetrahedron", "cube", "octahedron", "dodecahedron", "icosahedron"}

  const TetrahedronFaces: seq<Face> := [[0, 1, 2], [0, 2, 3], [0, 3, 1], [1, 3, 2]]
  const CubeFaces: seq<Face> := [[0, 2, 3, 1], [4, 5, 7, 6], [0, 1, 5, 4], [2, 6, 7, 3], [0, 4, 6, 2], [1, 3, 7, 5]]
  const OctahedronFaces: seq<Face> := [[0, 2, 4], [0, 4, 3], [0, 3, 5], [0, 5, 2], [1, 4, 2], [1, 3, 4], [1, 5, 3], [1, 2, 5]]

  function TetrahedronSeed(sqrt: real -> real): Poly
  {
    Poly([Normalize3([1.0, 1.0, 1.0], sqrt), Normalize3([1.0, -1.0, -1.0], sqrt),
          Normalize3([-1.0, 1.0, -1.0], sqrt), Normalize3([-1.0, -1.0, 1.0], sqrt)],
         TetrahedronFaces,
         "Tetraedro")
  }

  function CubeSeed(sqrt: real -> real): Poly
    requires IsSqrt(sqrt)
  {
    SqrtPositive(sqrt, 3.0);
    var s := 1.0 / sqrt(3.0);
    Poly([[-s, -s, -s], [-s, -s, s], [-s, s, -s], [-s, s, s],
          [s, -s, -s], [s, -s, s], [s, s, -s], [s, s, s]],
         CubeFaces,
         "Cubo")
  }

  function OctahedronSeed(): Poly
  {
    Poly([[1.0, 0.0, 0.0], [-1.0, 0.0, 0.0], [0.0, 1.0, 0.0], [0.0, -1.0, 0.0], [0.0, 0.0, 1.0], [0.0, 0.0, -1.0]],
         OctahedronFaces,
         "Octaedro")
  }

  /**
   * `getSeed`.  The dodecahedron and icosahedron take their faces from the face walk over
   * an adjacency graph, which is not modelled: those two seeds are parameters.
   */
  function GetSeed(key: string, sqrt: real -> real, dodecahedron: Poly, icosahedron: Poly): (p: Poly)
    requires IsSqrt(sqrt)
    ensures key !in SeedKeys ==> p == TetrahedronSeed(sqrt)
    ensures key == "cube" ==> p == CubeSeed(sqrt)
    ensures key == "octahedron" ==> p == OctahedronSeed()
    ensures key == "dodecahedron" ==> p == dodecahedron
    ensures key == "icosahedron" ==> p == icosahedron
  {
    if key == "cube" then CubeSeed(sqrt)
    else if key == "octahedron" then OctahedronSeed()
    else if key == "dodecahedron" then dodecahedron
    else if key == "icosahedron" then icosahedron
    else TetrahedronSeed(sqrt)
  }

  /** Every face of `p` has `k` vertices. */
  predicate AllFacesOfSize(p: Poly, k: nat)
  {
    forall f :: 0 <= f < |p.faces| ==> |p.faces[f]| == k
  }

  /** The three explicit seeds: 4 triangles on 4 vertices, 6 squares on 8, 8 triangles on 6. */
  lemma ExplicitSeeds(sqrt: real -> real)
    requires IsSqrt(sqrt)
    ensures var t := TetrahedronSeed(sqrt);
      |t.vertices| == 4 && |t.faces| == 4 && AllFacesOfSize(t, 3) && InRange(t)
    ensures var c := CubeSeed(sqrt);
      |c.vertices| == 8 && |c.faces| == 6 && AllFacesOfSize(c, 4) && InRange(c)
    ensures var o := OctahedronSeed();
      |o.vertices| == 6 && |o.faces| == 8 && AllFacesOfSize(o, 3) && InRange(o)
  {
    var t, c, o := TetrahedronSeed(sqrt), CubeSeed(sqrt), OctahedronSeed();
    forall f | 0 <= f < 4
      ensures FaceInRange(t.faces[f], 4)
    {
    }
    forall f | 0 <= f < 6
      ensures FaceInRange(c.faces[f], 8)
    {
    }
    forall f | 0 <= f < 8
      ensures FaceInRange(o.faces[f], 6)
    {
    }
  }

  // ==================== interpolation ====================

  /** `a + (b − a)·t`, coordinate by coordinate. */
  function Lerp3(a: Vec3, b: Vec3, t: real): Vec3
  {
    [a[0] + (b[0] - a[0]) * t, a[1] + (b[1] - a[1]) * t, a[2] + (b[2] - a[2]) * t]
  }

  /** At `t = 0` the blend is its first point, at `t = 1` its second. */
  lemma Lerp3Ends(p: Vec3, q: Vec3, t: real)
    ensures t == 0.0 ==> Lerp3(p, q, t) == p
    ensures t == 1.0 ==> Lerp3(p, q, t) == q
  {
    var r := Lerp3(p, q, t);
    if t == 0.0 {
      assert r[0] == p[0] && r[1] == p[1] && r[2] == p[2];
    }
    if t == 1.0 {
      assert r[0] == q[0] && r[1] == q[1] && r[2] == q[2];
    }
  }

  function MaxLen(m: nat, n: nat): (r: nat)
    ensures r >= m && r >= n && (r == m || r == n)
  {
    if m >= n then m else n
  }

  /**
   * The vertex list `interpolateVertices` builds.  An empty list paired with a non-empty
   * one makes the source read `undefined`; the precondition rules that case out.
   */
  function Interpolation(a: seq<Vec3>, b: seq<Vec3>, t: real): (r: seq<Vec3>)
    requires (|a| == 0) == (|b| == 0)
  {
    seq(MaxLen(|a|, |b|), i requires 0 <= i < MaxLen(|a|, |b|) => Lerp3(a[i % |a|], b[i % |b|], t))
  }

  /** `interpolateVertices`: the loop over `i < max(|a|, |b|)`. */
  method InterpolateVertices(a: seq<Vec3>, b: seq<Vec3>, t: real) returns (result: seq<Vec3>)
    requires (|a| == 0) == (|b| == 0)
    ensures result == Interpolation(a, b, t)
  {
    var maxLen := MaxLen(|a|, |b|);
    result := [];
    var i := 0;
    while i < maxLen
      invariant i <= maxLen
      invariant |result| == i
      invariant forall k :: 0 <= k < i ==> result[k] == Lerp3(a[k % |a|], b[k % |b|], t)
    {
      result := result + [Lerp3(a[i % |a|], b[i % |b|], t)];
      i := i + 1;
    }
  }

  /**
   * The interpolation is as long as the longer list, wraps the shorter one, and runs from
   * the first list at `t = 0` to the second at `t = 1`.
   */
  lemma InterpolationProperties(a: seq<Vec3>, b: seq<Vec3>, t: real)
    requires (|a| == 0) == (|b| == 0)
    ensures var r := Interpolation(a, b, t);
      |r| == MaxLen(|a|, |b|)
      && (t == 0.0 ==> forall i :: 0 <= i < |r| ==> r[i] == a[i % |a|])
      && (t == 1.0 ==> forall i :: 0 <= i < |r| ==> r[i] == b[i % |b|])
      && (|a| == |b| && t == 0.0 ==> r == a)
      && (|a| == |b| && t == 1.0 ==> r == b)
  {
    var r := Interpolation(a, b, t);
    forall i | 0 <= i < |r|
      ensures t == 0.0 ==> r[i] == a[i % |a|]
      ensures t == 1.0 ==> r[i] == b[i % |b|]
    {
      InterpolationEnds(a, b, t, i);
    }
    if |a| == |b| {
      InterpolationSameLength(a, b, t);
    }
  }

  lemma InterpolationEnds(a: seq<Vec3>, b: seq<Vec3>, t: real, i: nat)
    requires (|a| == 0) == (|b| == 0) && i < MaxLen(|a|, |b|)
    ensures t == 0.0 ==> Interpolation(a, b, t)[i] == a[i % |a|]
    ensures t == 1.0 ==> Interpolation(a, b, t)[i] == b[i % |b|]
  {
    Lerp3Ends(a[i % |a|], b[i % |b|], t);
  }

  /** Two lists of one length: the ends of the blend are the lists themselves. */
  lemma InterpolationSameLength(a: seq<Vec3>, b: seq<Vec3>, t: real)
    requires |a| == |b|
    ensures t == 0.0 ==> Interpolation(a, b, t) == a
    ensures t == 1.0 ==> Interpolation(a, b, t) == b
  {
    var r := Interpolation(a, b, t);
    forall i | 0 <= i < |a|
      ensures r[i] == Lerp3(a[i], b[i], t)
    {
      assert i % |a| == i;
    }
    forall i | 0 <= i < |a|
      ensures (t == 0.0 ==> r[i] == a[i]) && (t == 1.0 ==> r[i] == b[i])
    {
      Lerp3Ends(a[i], b[i], t);
    }
  }

}

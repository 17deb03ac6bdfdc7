/**
 * What the Conway module reads off a polyhedron: the V/E/F counts of `getInfo`, the edge
 * lines of `toEdgeGeometry` and the triangle buffers of `toBufferGeometry`.  All three
 * walk every face cyclically, pairing position `i` with `(i + 1) % length`.
 */
module ConwayInfo {
  import opened RealMath
  import opened Vectors
  import opened Wrappers
  import opened PairLoops
  import opened FirstOccurrence
  import opened ConwayPoly

  /** The directed edges of one face, in order: `(face[i], face[(i + 1) % length])`. */
  function FaceWalk(f: Face): (w: seq<Edge>)
    ensures |w| == |f|
    ensures forall i :: 0 <= i < |f| ==> w[i] == (f[i], f[Next(i, |f|)])
  {
    seq(|f|, i requires 0 <= i < |f| => (f[i], f[Next(i, |f|)]))
  }

  /** The directed edges of all faces, face after face. */
  function Walk(faces: seq<Face>): seq<Edge>
  {
    if |faces| == 0 then [] else Walk(faces[..|faces| - 1]) + FaceWalk(faces[|faces| - 1])
  }

  /** The key a directed edge is stored under. */
  function UKey(e: Edge): Edge
  {
    EdgeKey(e.0, e.1)
  }

  /** The contents of `edgeSet` once every face has been walked. */
  function EdgeKeys(faces: seq<Face>): set<Edge>
  {
    KeySet(Walk(faces), UKey)
  }

  /** A loop that has walked `w` and then positions `0 .. i − 1` of face `f` takes one more step. */
  lemma WalkStep(w: seq<Edge>, f: Face, i: nat)
    requires i < |f|
    ensures w + FaceWalk(f)[..i + 1] == (w + FaceWalk(f)[..i]) + [(f[i], f[Next(i, |f|)])]
  {
    assert FaceWalk(f)[..i + 1] == FaceWalk(f)[..i] + [FaceWalk(f)[i]];
  }

  lemma WalkNextFace(faces: seq<Face>, f: nat)
    requires f < |faces|
    ensures Walk(faces[..f + 1]) == Walk(faces[..f]) + FaceWalk(faces[f])[..|faces[f]|]
  {
    assert faces[..f + 1][..f] == faces[..f];
  }

  /** Every directed edge of the walk is a consecutive pair of some face, and back. */
  lemma {:induction false} WalkMembers(faces: seq<Face>)
    ensures forall e :: e in Walk(faces) <==>
      exists f, i :: 0 <= f < |faces| && 0 <= i < |faces[f]| && e == (faces[f][i], faces[f][Next(i, |faces[f]|)])
  {
    if |faces| > 0 {
      var n := |faces| - 1;
      var init := faces[..n];
      WalkMembers(init);
      forall e | e in Walk(faces)
        ensures exists f, i :: 0 <= f < |faces| && 0 <= i < |faces[f]| && e == (faces[f][i], faces[f][Next(i, |faces[f]|)])
      {
        if e in Walk(init) {
          var f, i :| 0 <= f < |init| && 0 <= i < |init[f]| && e == (init[f][i], init[f][Next(i, |init[f]|)]);
          assert init[f] == faces[f];
        } else {
          assert e in FaceWalk(faces[n]);
          var i :| 0 <= i < |faces[n]| && FaceWalk(faces[n])[i] == e;
        }
      }
      forall e | exists f, i :: 0 <= f < |faces| && 0 <= i < |faces[f]| && e == (faces[f][i], faces[f][Next(i, |faces[f]|)])
        ensures e in Walk(faces)
      {
        var f, i :| 0 <= f < |faces| && 0 <= i < |faces[f]| && e == (faces[f][i], faces[f][Next(i, |faces[f]|)]);
        if f < n {
          assert init[f] == faces[f];
        } else {
          assert FaceWalk(faces[n])[i] == e;
        }
      }
    }
  }

  /**
   * `edgeSet` holds exactly the unordered pairs of cyclically consecutive face vertices,
   * each under its one key.
   */
  lemma EdgeKeysMembers(faces: seq<Face>)
    ensures forall k :: k in EdgeKeys(faces) <==>
      exists f, i :: 0 <= f < |faces| && 0 <= i < |faces[f]| && k == EdgeKey(faces[f][i], faces[f][Next(i, |faces[f]|)])
  {
    var w := Walk(faces);
    KeySetMembers(w, UKey);
    WalkMembers(faces);
    forall k | k in EdgeKeys(faces)
      ensures exists f, i :: 0 <= f < |faces| && 0 <= i < |faces[f]| && k == EdgeKey(faces[f][i], faces[f][Next(i, |faces[f]|)])
    {
      var j :| 0 <= j < |w| && UKey(w[j]) == k;
      assert w[j] in w;
    }
    forall k | exists f, i :: 0 <= f < |faces| && 0 <= i < |faces[f]| && k == EdgeKey(faces[f][i], faces[f][Next(i, |faces[f]|)])
      ensures k in EdgeKeys(faces)
    {
      var f, i :| 0 <= f < |faces| && 0 <= i < |faces[f]| && k == EdgeKey(faces[f][i], faces[f][Next(i, |faces[f]|)]);
      var e := (faces[f][i], faces[f][Next(i, |faces[f]|)]);
      assert e in w;
      var j :| 0 <= j < |w| && w[j] == e;
      assert UKey(w[j]) == k;
    }
  }

  // ==================== getInfo ====================

  datatype Info = Info(V: nat, E: nat, F: nat, euler: int, faceSizes: map<nat, nat>, name: string)

  /** `faceSizes[f.length] = (faceSizes[f.length] || 0) + 1` over the faces. */
  function SizeCounts(faces: seq<Face>): map<nat, nat>
  {
    if |faces| == 0 then map[]
    else
      var m := SizeCounts(faces[..|faces| - 1]);
      var k := |faces[|faces| - 1]|;
      m[k := Count(m, k) + 1]
  }

  /** A count read with `|| 0`. */
  function Count(m: map<nat, nat>, k: nat): nat
  {
    if k in m then m[k] else 0
  }

  /** The record `getInfo` returns. */
  function InfoOf(p: Poly): Info
  {
    var e := |EdgeKeys(p.faces)|;
    Info(|p.vertices|, e, |p.faces|, |p.vertices| - e + |p.faces|, SizeCounts(p.faces), p.name)
  }

  /** The inner loop of `getInfo` over one face, adding the key of each consecutive pair. */
  method AddFaceKeys(faces: seq<Face>, fi: nat, edgeSet: set<Edge>, ghost walked: seq<Edge>)
    returns (edgeSet': set<Edge>, ghost walked': seq<Edge>)
    requires fi < |faces| && walked == Walk(faces[..fi]) && edgeSet == KeySet(walked, UKey)
    ensures walked' == Walk(faces[..fi + 1]) && edgeSet' == KeySet(walked', UKey)
  {
    var face := faces[fi];
    edgeSet', walked' := edgeSet, walked;
    assert walked + FaceWalk(face)[..0] == walked;
    var i := 0;
    while i < |face|
      invariant i <= |face|
      invariant walked' == walked + FaceWalk(face)[..i]
      invariant edgeSet' == KeySet(walked', UKey)
    {
      var a := face[i];
      var b := face[(i + 1) % |face|];
      WalkStep(walked, face, i);
      AppendStep(walked', (a, b), UKey);
      walked' := walked' + [(a, b)];
      edgeSet' := edgeSet' + {if a < b then (a, b) else (b, a)};
      i := i + 1;
    }
    WalkNextFace(faces, fi);
  }

  /** `getInfo`: the face loop filling `edgeSet`, then the `faceSizes` pass. */
  method GetInfo(p: Poly) returns (info: Info)
    ensures info == InfoOf(p)
  {
    var edgeSet: set<Edge> := {};
    ghost var walked: seq<Edge> := [];
    var fi := 0;
    while fi < |p.faces|
      invariant fi <= |p.faces|
      invariant walked == Walk(p.faces[..fi])
      invariant edgeSet == KeySet(walked, UKey)
    {
      edgeSet, walked := AddFaceKeys(p.faces, fi, edgeSet, walked);
      fi := fi + 1;
    }
    assert p.faces[..|p.faces|] == p.faces;
    var faceSizes: map<nat, nat> := map[];
    var k := 0;
    while k < |p.faces|
      invariant k <= |p.faces|
      invariant faceSizes == SizeCounts(p.faces[..k])
    {
      var len := |p.faces[k]|;
      assert p.faces[..k + 1][..k] == p.faces[..k];
      faceSizes := faceSizes[len := (if len in faceSizes then faceSizes[len] else 0) + 1];
      k := k + 1;
    }
    var e := |edgeSet|;
    info := Info(|p.vertices|, e, |p.faces|, |p.vertices| - e + |p.faces|, faceSizes, p.name);
  }

  /** The counts of sizes `0 .. bound − 1`. */
  function SumCounts(m: map<nat, nat>, bound: nat): nat
  {
    if bound == 0 then 0 else SumCounts(m, bound - 1) + Count(m, bound - 1)
  }

  lemma {:induction false} SumCountsBump(m: map<nat, nat>, k: nat, bound: nat)
    ensures SumCounts(m[k := Count(m, k) + 1], bound) == SumCounts(m, bound) + (if k < bound then 1 else 0)
  {
    if bound > 0 {
      SumCountsBump(m, k, bound - 1);
    }
  }

  lemma {:induction false} SumCountsEmpty(bound: nat)
    ensures SumCounts(map[], bound) == 0
  {
    if bound > 0 {
      SumCountsEmpty(bound - 1);
    }
  }

  /** Every face is shorter than `bound`. */
  predicate SizesBelow(faces: seq<Face>, bound: nat)
  {
    forall f :: 0 <= f < |faces| ==> |faces[f]| < bound
  }

  /** The size counts add up to the number of faces, and only sizes that occur are keys. */
  lemma {:induction false} SizeCountsProperties(faces: seq<Face>, bound: nat)
    requires SizesBelow(faces, bound)
    ensures SumCounts(SizeCounts(faces), bound) == |faces|
    ensures forall k :: k in SizeCounts(faces) ==> exists f :: 0 <= f < |faces| && |faces[f]| == k
  {
    if |faces| == 0 {
      SumCountsEmpty(bound);
    } else {
      var init := faces[..|faces| - 1];
      var m := SizeCounts(init);
      var k := |faces[|faces| - 1]|;
      assert k < bound;
      assert SizeCounts(faces) == m[k := Count(m, k) + 1];
      assert SizesBelow(init, bound) by {
        forall f | 0 <= f < |init|
          ensures |init[f]| < bound
        {
          assert init[f] == faces[f];
        }
      }
      SizeCountsProperties(init, bound);
      SumCountsBump(m, k, bound);
      forall j | j in SizeCounts(faces)
        ensures exists f :: 0 <= f < |faces| && |faces[f]| == j
      {
        if j != k {
          var f :| 0 <= f < |init| && |init[f]| == j;
          assert init[f] == faces[f];
        }
      }
    }
  }

  /**
   * `getInfo` counts each key of a consecutive vertex pair once as an edge, reports
   * `euler = V − E + F`, and its size counts add up to F.
   */
  lemma InfoProperties(p: Poly, bound: nat)
    requires SizesBelow(p.faces, bound)
    ensures var info := InfoOf(p);
      info.V == |p.vertices| && info.F == |p.faces|
      && info.E == |EdgeKeys(p.faces)|
      && info.euler == info.V - info.E + info.F
      && SumCounts(info.faceSizes, bound) == info.F
  {
    SizeCountsProperties(p.faces, bound);
  }

  // ==================== toEdgeGeometry ====================

  /** `scale || 1`: a missing or zero scale means 1. */
  function ScaleOr(scale: Option<real>): (s: real)
    ensures s != 0.0
    ensures scale.Some? && scale.value != 0.0 ==> s == scale.value
  {
    if scale.Some? && scale.value != 0.0 then scale.value else 1.0
  }

  /** The edges `toEdgeGeometry` draws: the first directed edge walked for each key. */
  function DrawnEdges(faces: seq<Face>): seq<Edge>
  {
    FirstByKey(Walk(faces), UKey)
  }

  /** Every edge of the walk has both ends inside the vertex list. */
  lemma WalkInRange(p: Poly)
    requires InRange(p)
    ensures forall e :: e in Walk(p.faces) ==> e.0 < |p.vertices| && e.1 < |p.vertices|
  {
    WalkMembers(p.faces);
    forall e | e in Walk(p.faces)
      ensures e.0 < |p.vertices| && e.1 < |p.vertices|
    {
      var f, i :| 0 <= f < |p.faces| && 0 <= i < |p.faces[f]|
        && e == (p.faces[f][i], p.faces[f][Next(i, |p.faces[f]|)]);
      assert FaceInRange(p.faces[f], |p.vertices|);
    }
  }

  predicate EdgesInRange(edges: seq<Edge>, n: nat)
  {
    forall t :: 0 <= t < |edges| ==> edges[t].0 < n && edges[t].1 < n
  }

  /** The two scaled endpoints of each edge, edge after edge. */
  function EdgePoints(vertices: seq<Vec3>, edges: seq<Edge>, s: real): (r: seq<Vec3>)
    requires EdgesInRange(edges, |vertices|)
    ensures |r| == 2 * |edges|
  {
    if |edges| == 0 then []
    else
      var e := edges[|edges| - 1];
      EdgePoints(vertices, edges[..|edges| - 1], s) + [Scale3(vertices[e.0], s), Scale3(vertices[e.1], s)]
  }

  /** One pair `(a, b)` of `toEdgeGeometry`: a key not yet in `edgeSet` adds the pair's two points. */
  method AddSegment(vertices: seq<Vec3>, s: real, a: nat, b: nat, edgeSet: set<Edge>, points: seq<Vec3>,
                    ghost walked: seq<Edge>, ghost drawn: seq<Edge>)
    returns (edgeSet': set<Edge>, points': seq<Vec3>, ghost drawn': seq<Edge>)
    requires a < |vertices| && b < |vertices|
    requires edgeSet == KeySet(walked, UKey) && drawn == FirstByKey(walked, UKey)
    requires EdgesInRange(drawn, |vertices|) && points == EdgePoints(vertices, drawn, s)
    ensures edgeSet' == KeySet(walked + [(a, b)], UKey) && drawn' == FirstByKey(walked + [(a, b)], UKey)
    ensures EdgesInRange(drawn', |vertices|) && points' == EdgePoints(vertices, drawn', s)
  {
    AppendStep(walked, (a, b), UKey);
    var key := if a < b then (a, b) else (b, a);
    if key !in edgeSet {
      edgeSet' := edgeSet + {key};
      drawn' := drawn + [(a, b)];
      assert drawn'[..|drawn'| - 1] == drawn;
      points' := points + [Scale3(vertices[a], s), Scale3(vertices[b], s)];
    } else {
      edgeSet', points', drawn' := edgeSet + {key}, points, drawn;
    }
  }

  /** The inner loop of `toEdgeGeometry` over one face: a new key adds the pair's two points. */
  method AddFaceSegments(p: Poly, fi: nat, s: real, edgeSet: set<Edge>, points: seq<Vec3>,
                         ghost walked: seq<Edge>, ghost drawn: seq<Edge>)
    returns (edgeSet': set<Edge>, points': seq<Vec3>, ghost walked': seq<Edge>, ghost drawn': seq<Edge>)
    requires InRange(p) && fi < |p.faces| && walked == Walk(p.faces[..fi])
    requires edgeSet == KeySet(walked, UKey) && drawn == FirstByKey(walked, UKey)
    requires EdgesInRange(drawn, |p.vertices|) && points == EdgePoints(p.vertices, drawn, s)
    ensures walked' == Walk(p.faces[..fi + 1])
    ensures edgeSet' == KeySet(walked', UKey) && drawn' == FirstByKey(walked', UKey)
    ensures EdgesInRange(drawn', |p.vertices|) && points' == EdgePoints(p.vertices, drawn', s)
  {
    var face := p.faces[fi];
    assert FaceInRange(face, |p.vertices|);
    edgeSet', points', walked', drawn' := edgeSet, points, walked, drawn;
    assert walked + FaceWalk(face)[..0] == walked;
    var i := 0;
    while i < |face|
      invariant i <= |face|
      invariant walked' == walked + FaceWalk(face)[..i]
      invariant edgeSet' == KeySet(walked', UKey) && drawn' == FirstByKey(walked', UKey)
      invariant EdgesInRange(drawn', |p.vertices|)
      invariant points' == EdgePoints(p.vertices, drawn', s)
    {
      var a := face[i];
      var b := face[(i + 1) % |face|];
      WalkStep(walked, face, i);
      edgeSet', points', drawn' := AddSegment(p.vertices, s, a, b, edgeSet', points', walked', drawn');
      walked' := walked' + [(a, b)];
      i := i + 1;
    }
    WalkNextFace(p.faces, fi);
  }

  /** `toEdgeGeometry`: the face loop with its `edgeSet`, collecting the points of new keys. */
  method ToEdgeGeometry(p: Poly, scale: Option<real>) returns (points: seq<Vec3>)
    requires InRange(p)
    ensures EdgesInRange(DrawnEdges(p.faces), |p.vertices|)
    ensures points == EdgePoints(p.vertices, DrawnEdges(p.faces), ScaleOr(scale))
  {
    var s := ScaleOr(scale);
    var edgeSet: set<Edge> := {};
    ghost var walked: seq<Edge> := [];
    ghost var drawn: seq<Edge> := [];
    points := [];
    var fi := 0;
    while fi < |p.faces|
      invariant fi <= |p.faces|
      invariant walked == Walk(p.faces[..fi])
      invariant edgeSet == KeySet(walked, UKey) && drawn == FirstByKey(walked, UKey)
      invariant EdgesInRange(drawn, |p.vertices|)
      invariant points == EdgePoints(p.vertices, drawn, s)
    {
      edgeSet, points, walked, drawn := AddFaceSegments(p, fi, s, edgeSet, points, walked, drawn);
      fi := fi + 1;
    }
    assert p.faces[..|p.faces|] == p.faces;
  }

  /**
   * `toEdgeGeometry` draws every undirected edge once: one segment per key `getInfo`
   * counts, no key twice, and two points per segment.
   */
  lemma EdgeGeometryProperties(p: Poly)
    requires InRange(p)
    ensures var d := DrawnEdges(p.faces);
      |d| == InfoOf(p).E
      && KeySet(d, UKey) == EdgeKeys(p.faces)
      && (forall a, b :: 0 <= a < b < |d| ==> UKey(d[a]) != UKey(d[b]))
      && (forall e :: e in d ==> e in Walk(p.faces))
  {
    FirstByKeyProperties(Walk(p.faces), UKey);
  }

  // ==================== toBufferGeometry ====================

  /** A triangle as three vertex indices. */
  type Tri = (nat, nat, nat)

  /** The triangles a face becomes: none below three vertices, else the fan from `face[0]`. */
  function FanTriangles(face: Face): (t: seq<Tri>)
    ensures |face| < 3 ==> t == []
  {
    if |face| < 3 then [] else seq(|face| - 2, i requires 0 <= i < |face| - 2 => (face[0], face[i + 1], face[i + 2]))
  }

  predicate TrisInRange(tris: seq<Tri>, n: nat)
  {
    forall t :: 0 <= t < |tris| ==> tris[t].0 < n && tris[t].1 < n && tris[t].2 < n
  }

  /** Nine scaled coordinates per triangle, corner after corner. */
  function TriPositions(vertices: seq<Vec3>, tris: seq<Tri>, s: real): (r: seq<real>)
    requires TrisInRange(tris, |vertices|)
    ensures |r| == 9 * |tris|
  {
    if |tris| == 0 then []
    else
      var t := tris[|tris| - 1];
      TriPositions(vertices, tris[..|tris| - 1], s)
        + Scale3(vertices[t.0], s) + Scale3(vertices[t.1], s) + Scale3(vertices[t.2], s)
  }

  /** The same normal, three times per triangle. */
  function TriNormals(n: Vec3, count: nat): (r: seq<real>)
    ensures |r| == 9 * count
  {
    if count == 0 then [] else TriNormals(n, count - 1) + n + n + n
  }

  /** `normalize3(cross3(v1 − v0, v2 − v0))`. */
  function FaceNormal(vertices: seq<Vec3>, face: Face, sqrt: real -> real): Vec3
    requires |face| >= 3 && FaceInRange(face, |vertices|)
  {
    var v0, v1, v2 := vertices[face[0]], vertices[face[1]], vertices[face[2]];
    NormalizeUp(Cross3(Sub3(v1, v0), Sub3(v2, v0)), sqrt)
  }

  lemma FanInRange(face: Face, n: nat)
    requires FaceInRange(face, n)
    ensures TrisInRange(FanTriangles(face), n)
  {
  }

  /** The `positions` buffer after the first faces. */
  function BufferPositions(p: Poly, count: nat, s: real): seq<real>
    requires InRange(p) && count <= |p.faces|
  {
    if count == 0 then []
    else
      var face := p.faces[count - 1];
      assert FaceInRange(face, |p.vertices|);
      BufferPositions(p, count - 1, s) + TriPositions(p.vertices, FanTriangles(face), s)
  }

  /** The `normals` buffer after the first faces. */
  function BufferNormals(p: Poly, count: nat, sqrt: real -> real): seq<real>
    requires InRange(p) && count <= |p.faces|
  {
    if count == 0 then []
    else
      var face := p.faces[count - 1];
      assert FaceInRange(face, |p.vertices|);
      BufferNormals(p, count - 1, sqrt)
        + (if |face| < 3 then [] else TriNormals(FaceNormal(p.vertices, face, sqrt), |face| - 2))
  }

  /** The scaled coordinates of the listed vertices, one after another. */
  function Corners(vertices: seq<Vec3>, idx: seq<nat>, s: real): (r: seq<real>)
    requires FaceInRange(idx, |vertices|)
    ensures |r| == 3 * |idx|
  {
    if |idx| == 0 then [] else Corners(vertices, idx[..|idx| - 1], s) + Scale3(vertices[idx[|idx| - 1]], s)
  }

  /** `k` copies of a normal. */
  function Copies(n: Vec3, k: nat): (r: seq<real>)
    ensures |r| == 3 * k
  {
    if k == 0 then [] else Copies(n, k - 1) + n
  }

  /** A triangle's positions are its three scaled corners. */
  lemma OneTriangle(vertices: seq<Vec3>, face: Face, s: real)
    requires |face| == 3 && FaceInRange(face, |vertices|)
    ensures TriPositions(vertices, FanTriangles(face), s) == Corners(vertices, face, s)
  {
    var tris := FanTriangles(face);
    assert tris == [(face[0], face[1], face[2])];
    assert tris[..0] == [];
    var a: seq<real>, b: seq<real>, c: seq<real> := Scale3(vertices[face[0]], s), Scale3(vertices[face[1]], s), Scale3(vertices[face[2]], s);
    assert face[..1][..0] == [];
    assert Corners(vertices, face[..1], s) == a;
    assert face[..2][..1] == face[..1];
    assert Corners(vertices, face[..2], s) == a + b;
    assert face[..2] == face[..|face| - 1];
    assert Corners(vertices, face, s) == a + b + c;
  }

  /** A face's normal copied per corner of one triangle is the triangle's normal block. */
  lemma OneTriangleNormals(n: Vec3)
    ensures TriNormals(n, 1) == Copies(n, 3)
  {
    assert Copies(n, 1) == n;
    assert Copies(n, 2) == n + n;
  }

  /** One more fan triangle appends its nine coordinates. */
  lemma FanStep(vertices: seq<Vec3>, face: Face, s: real, i: nat)
    requires |face| > 3 && FaceInRange(face, |vertices|) && 1 <= i < |face| - 1
    ensures var tris := FanTriangles(face);
      TriPositions(vertices, tris[..i], s)
      == TriPositions(vertices, tris[..i - 1], s) + Scale3(vertices[face[0]], s)
         + Scale3(vertices[face[i]], s) + Scale3(vertices[face[i + 1]], s)
  {
    var tris := FanTriangles(face);
    assert tris[..i][..i - 1] == tris[..i - 1] && tris[..i][i - 1] == (face[0], face[i], face[i + 1]);
  }

  /** A triangle: `for (const idx of face)` pushes each corner and the normal. */
  method TriangleBuffers(vertices: seq<Vec3>, face: Face, s: real, n: Vec3) returns (pos: seq<real>, nor: seq<real>)
    requires |face| == 3 && FaceInRange(face, |vertices|)
    ensures pos == TriPositions(vertices, FanTriangles(face), s)
    ensures nor == TriNormals(n, 1)
  {
    pos, nor := [], [];
    var k := 0;
    while k < 3
      invariant k <= 3
      invariant pos == Corners(vertices, face[..k], s)
      invariant nor == Copies(n, k)
    {
      var v := vertices[face[k]];
      assert face[..k + 1][..k] == face[..k];
      pos := pos + Scale3(v, s);
      nor := nor + n;
      k := k + 1;
    }
    assert face[..3] == face;
    OneTriangle(vertices, face, s);
    OneTriangleNormals(n);
  }

  /** A longer face: the fan `(face[0], face[i], face[i + 1])` for `1 <= i < length − 1`. */
  method FanBuffers(vertices: seq<Vec3>, face: Face, s: real, n: Vec3) returns (pos: seq<real>, nor: seq<real>)
    requires |face| > 3 && FaceInRange(face, |vertices|)
    ensures pos == TriPositions(vertices, FanTriangles(face), s)
    ensures nor == TriNormals(n, |face| - 2)
  {
    ghost var tris := FanTriangles(face);
    assert tris[..0] == [];
    pos, nor := [], [];
    var i := 1;
    while i < |face| - 1
      invariant 1 <= i <= |face| - 1
      invariant pos == TriPositions(vertices, tris[..i - 1], s)
      invariant nor == TriNormals(n, i - 1)
    {
      var a, b, c := vertices[face[0]], vertices[face[i]], vertices[face[i + 1]];
      FanStep(vertices, face, s, i);
      pos := pos + Scale3(a, s) + Scale3(b, s) + Scale3(c, s);
      nor := nor + n + n + n;
      i := i + 1;
    }
    assert tris[..|face| - 2] == tris;
  }

  /** The body of the face loop for a face of at least three vertices. */
  method FaceBuffers(vertices: seq<Vec3>, face: Face, s: real, sqrt: real -> real) returns (pos: seq<real>, nor: seq<real>)
    requires |face| >= 3 && FaceInRange(face, |vertices|)
    ensures pos == TriPositions(vertices, FanTriangles(face), s)
    ensures nor == TriNormals(FaceNormal(vertices, face, sqrt), |face| - 2)
  {
    var v0, v1, v2 := vertices[face[0]], vertices[face[1]], vertices[face[2]];
    var n := NormalizeUp(Cross3(Sub3(v1, v0), Sub3(v2, v0)), sqrt);
    if |face| == 3 {
      pos, nor := TriangleBuffers(vertices, face, s, n);
    } else {
      pos, nor := FanBuffers(vertices, face, s, n);
    }
  }

  /** One pass of the face loop: a face of fewer than three vertices is skipped. */
  method BufferFace(p: Poly, fi: nat, s: real, sqrt: real -> real, positions: seq<real>, normals: seq<real>)
    returns (positions': seq<real>, normals': seq<real>)
    requires InRange(p) && fi < |p.faces|
    requires positions == BufferPositions(p, fi, s) && normals == BufferNormals(p, fi, sqrt)
    ensures positions' == BufferPositions(p, fi + 1, s) && normals' == BufferNormals(p, fi + 1, sqrt)
  {
    var face := p.faces[fi];
    assert FaceInRange(face, |p.vertices|);
    if |face| >= 3 {
      var pos, nor := FaceBuffers(p.vertices, face, s, sqrt);
      positions', normals' := positions + pos, normals + nor;
    } else {
      assert FanTriangles(face) == [];
      positions', normals' := positions, normals;
    }
  }

  /** `toBufferGeometry`: skip the faces with fewer than three vertices, triangulate the rest. */
  method ToBufferGeometry(p: Poly, scale: Option<real>, sqrt: real -> real) returns (positions: seq<real>, normals: seq<real>)
    requires InRange(p)
    ensures positions == BufferPositions(p, |p.faces|, ScaleOr(scale))
    ensures normals == BufferNormals(p, |p.faces|, sqrt)
  {
    var s := ScaleOr(scale);
    positions, normals := [], [];
    var fi := 0;
    while fi < |p.faces|
      invariant fi <= |p.faces|
      invariant positions == BufferPositions(p, fi, s)
      invariant normals == BufferNormals(p, fi, sqrt)
    {
      positions, normals := BufferFace(p, fi, s, sqrt, positions, normals);
      fi := fi + 1;
    }
  }

  /** The triangles the buffers hold after the first faces. */
  function TriangleCount(faces: seq<Face>): nat
  {
    if |faces| == 0 then 0
    else
      var f := faces[|faces| - 1];
      TriangleCount(faces[..|faces| - 1]) + (if |f| < 3 then 0 else |f| - 2)
  }

  /**
   * Faces with fewer than three vertices add nothing, a k-gon adds k − 2 fan triangles
   * `(face[0], face[i], face[i + 1])`, and both buffers hold nine numbers per triangle.
   */
  lemma {:induction false} BufferProperties(p: Poly, count: nat, s: real, sqrt: real -> real)
    requires InRange(p) && count <= |p.faces|
    ensures |BufferPositions(p, count, s)| == 9 * TriangleCount(p.faces[..count])
    ensures |BufferNormals(p, count, sqrt)| == 9 * TriangleCount(p.faces[..count])
    ensures forall f :: 0 <= f < |p.faces| && |p.faces[f]| >= 3 ==>
      var t := FanTriangles(p.faces[f]);
      |t| == |p.faces[f]| - 2
      && forall i :: 1 <= i < |p.faces[f]| - 1 ==> t[i - 1] == (p.faces[f][0], p.faces[f][i], p.faces[f][i + 1])
  {
    if count > 0 {
      BufferProperties(p, count - 1, s, sqrt);
      assert p.faces[..count][..count - 1] == p.faces[..count - 1];
    }
  }

  // ==================== the seeds ====================

  /** The key of position `i` of face `f`. */
  function KeyAt(faces: seq<Face>, f: nat, i: nat): Edge
    requires f < |faces| && i < |faces[f]|
  {
    EdgeKey(faces[f][i], faces[f][Next(i, |faces[f]|)])
  }

  /** A face list's keys, named once its members are known. */
  lemma KeysAre(faces: seq<Face>, keys: set<Edge>)
    requires forall f, i :: 0 <= f < |faces| && 0 <= i < |faces[f]| ==> KeyAt(faces, f, i) in keys
    requires forall k :: k in keys ==> exists f, i :: 0 <= f < |faces| && 0 <= i < |faces[f]| && k == KeyAt(faces, f, i)
    ensures EdgeKeys(faces) == keys
  {
    EdgeKeysMembers(faces);
    forall k
      ensures k in EdgeKeys(faces) <==> k in keys
    {
      if k in keys {
        var f, i :| 0 <= f < |faces| && 0 <= i < |faces[f]| && k == KeyAt(faces, f, i);
        assert k == EdgeKey(faces[f][i], faces[f][Next(i, |faces[f]|)]);
      }
      if k in EdgeKeys(faces) {
        var f, i :| 0 <= f < |faces| && 0 <= i < |faces[f]| && k == EdgeKey(faces[f][i], faces[f][Next(i, |faces[f]|)]);
        assert KeyAt(faces, f, i) == k;
      }
    }
  }

  /** A list of pairwise different keys has as many members as entries. */
  lemma {:induction false} DistinctCard(list: seq<Edge>)
    requires forall i, j :: 0 <= i < j < |list| ==> list[i] != list[j]
    ensures |set k | k in list| == |list|
  {
    if |list| > 0 {
      var init := list[..|list| - 1];
      DistinctCard(init);
      var x := list[|list| - 1];
      assert (set k | k in list) == (set k | k in init) + {x};
      assert x !in (set k | k in init);
    }
  }

  /** `getInfo` of the tetrahedron seed: V = 4, E = 6, F = 4, so V − E + F = 2. */
  lemma TetrahedronInfo(sqrt: real -> real)
    ensures var info := InfoOf(TetrahedronSeed(sqrt));
      info.V == 4 && info.E == 6 && info.F == 4 && info.euler == 2
  {
    var faces := TetrahedronFaces;
    var list: seq<Edge> := [(0, 1), (1, 2), (0, 2), (2, 3), (0, 3), (1, 3)];
    var keys := set k | k in list;
    DistinctCard(list);
    assert KeyAt(faces, 0, 0) == (0, 1) && KeyAt(faces, 0, 1) == (1, 2) && KeyAt(faces, 0, 2) == (0, 2);
    assert KeyAt(faces, 1, 1) == (2, 3) && KeyAt(faces, 1, 2) == (0, 3) && KeyAt(faces, 2, 1) == (1, 3);
    forall f, i | 0 <= f < |faces| && 0 <= i < |faces[f]|
      ensures KeyAt(faces, f, i) in keys
    {
    }
    KeysAre(faces, keys);
  }
}

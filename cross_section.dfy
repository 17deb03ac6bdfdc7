/**
 * The plane–solid cross-section of the 3-D lab: per-triangle intersection of an indexed
 * mesh with a plane, greedy chaining of the segments into a polygon, projection onto the
 * plane's own 2-D frame, and the polygon's metrics and name.
 */
module CrossSection {
  import opened Wrappers
  import opened RealMath
  import opened Vectors
  import opened Polygon2D
  import opened NumberText
  import opened PairLoops
  import Slicer

  // ==================== the plane and the mesh ====================

  /** A plane `normal · p + constant = 0`. */
  datatype Plane = Plane(normal: Vec3, constant: real)

  /** `plane.distanceToPoint(p)`: the signed distance `normal · p + constant`. */
  function Distance(plane: Plane, p: Vec3): real
  {
    Dot3(plane.normal, p) + plane.constant
  }

  /** An indexed or a plain triangle mesh: the `position` attribute and the optional index. */
  datatype Mesh = Mesh(position: seq<Vec3>, index: Option<seq<nat>>)

  /** Every index names a position and the index lists whole triangles. */
  predicate WellIndexed(m: Mesh)
  {
    m.index.Some? ==>
      |m.index.value| % 3 == 0 && forall i :: 0 <= i < |m.index.value| ==> m.index.value[i] < |m.position|
  }

  type Segment = (Vec3, Vec3)

  /** `p.distanceTo(q) < eps`. */
  predicate Near(p: Vec3, q: Vec3, eps: real, sqrt: real -> real)
  {
    Len3(Sub3(p, q), sqrt) < eps
  }

  // ==================== one triangle ====================

  /** `new THREE.Vector3().lerpVectors(p1, p2, t)`: `p1 + (p2 − p1)·t`. */
  function LerpVectors(p1: Vec3, p2: Vec3, t: real): Vec3
  {
    [p1[0] + (p2[0] - p1[0]) * t, p1[1] + (p2[1] - p1[1]) * t, p1[2] + (p2[2] - p1[2]) * t]
  }

  /** `lerpEdge`: the point where the edge meets the plane, at `t = d1 / (d1 − d2)`. */
  function LerpEdge(p1: Vec3, p2: Vec3, d1: real, d2: real): Vec3
    requires d1 * d2 < 0.0
  {
    Slicer.CrossingParameter(d1, d2);
    LerpVectors(p1, p2, d1 / (d1 - d2))
  }

  /** The signed distance is affine along an edge. */
  lemma DistanceLerp(plane: Plane, p1: Vec3, p2: Vec3, t: real)
    ensures Distance(plane, LerpVectors(p1, p2, t))
      == Distance(plane, p1) + t * (Distance(plane, p2) - Distance(plane, p1))
  {
    var n := plane.normal;
    var l := LerpVectors(p1, p2, t);
    assert Dot3(n, l) == Dot3(n, p1) + t * (n[0] * (p2[0] - p1[0]) + n[1] * (p2[1] - p1[1]) + n[2] * (p2[2] - p1[2]));
  }

  /**
   * With the two end distances of opposite sign the parameter lies strictly between 0 and
   * 1 and the point is on the plane.
   */
  lemma LerpEdgeOnPlane(plane: Plane, p1: Vec3, p2: Vec3)
    requires Distance(plane, p1) * Distance(plane, p2) < 0.0
    ensures var d1, d2 := Distance(plane, p1), Distance(plane, p2);
      0.0 < d1 / (d1 - d2) < 1.0 && Distance(plane, LerpEdge(p1, p2, d1, d2)) == 0.0
  {
    var d1, d2 := Distance(plane, p1), Distance(plane, p2);
    Slicer.CrossingParameter(d1, d2);
    DistanceLerp(plane, p1, p2, d1 / (d1 - d2));
  }

  /** `const EPS = 1e-7`: a vertex this close to the plane is a point of the section. */
  const OnPlaneEps: real := 0.0000001

  /** The crossing of the edge from `p` to `q`, when its ends are on opposite sides. */
  function EdgeCrossing(plane: Plane, p: Vec3, q: Vec3): (r: seq<Vec3>)
    ensures |r| <= 1
  {
    var dp, dq := Distance(plane, p), Distance(plane, q);
    if dp * dq < 0.0 then [LerpEdge(p, q, dp, dq)] else []
  }

  /** A corner within `1e-7` of the plane. */
  function CornerOnPlane(plane: Plane, p: Vec3): (r: seq<Vec3>)
    ensures |r| <= 1
  {
    if Abs(Distance(plane, p)) < OnPlaneEps then [p] else []
  }

  /** The `pts` of one triangle: its edge crossings in the order ab, bc, ca, then its corners on the plane. */
  function TrianglePoints(plane: Plane, a: Vec3, b: Vec3, c: Vec3): (pts: seq<Vec3>)
    ensures |pts| <= 6
  {
    EdgeCrossing(plane, a, b) + EdgeCrossing(plane, b, c) + EdgeCrossing(plane, c, a)
    + CornerOnPlane(plane, a) + CornerOnPlane(plane, b) + CornerOnPlane(plane, c)
  }

  /** `1e-5`: two points of a triangle closer than this are one point. */
  const DupEps: real := 0.00001

  /** Some point of `unique` is within `1e-5` of `p`. */
  predicate NearAny(unique: seq<Vec3>, p: Vec3, sqrt: real -> real)
  {
    exists i :: 0 <= i < |unique| && Near(p, unique[i], DupEps, sqrt)
  }

  /** The `unique` list after the first `n` points: a point is kept when no kept point is near it. */
  function KeepApart(pts: seq<Vec3>, n: nat, sqrt: real -> real): (r: seq<Vec3>)
    requires n <= |pts|
    ensures |r| <= n
  {
    if n == 0 then []
    else
      var prev := KeepApart(pts, n - 1, sqrt);
      if NearAny(prev, pts[n - 1], sqrt) then prev else prev + [pts[n - 1]]
  }

  /** The segment of one triangle, from its first two mutually distinct points. */
  function TriangleSegment(plane: Plane, a: Vec3, b: Vec3, c: Vec3, sqrt: real -> real): Option<Segment>
  {
    var pts := TrianglePoints(plane, a, b, c);
    if |pts| < 2 then None
    else
      var unique := KeepApart(pts, |pts|, sqrt);
      if |unique| >= 2 then Some((unique[0], unique[1])) else None
  }

  /** Every point from 1 up to `j` is within `1e-5` of the first. */
  ghost predicate NearFirst(pts: seq<Vec3>, j: nat, sqrt: real -> real)
    requires 0 < |pts| && j <= |pts|
  {
    forall k :: 1 <= k < j ==> Near(pts[k], pts[0], DupEps, sqrt)
  }

  /** The first point is always kept, and every kept point is one of the points. */
  lemma {:induction false} KeepApartMembers(pts: seq<Vec3>, n: nat, sqrt: real -> real)
    requires 0 < n <= |pts|
    ensures var r := KeepApart(pts, n, sqrt);
      |r| > 0 && r[0] == pts[0] && forall u :: u in r ==> u in pts
  {
    if n > 1 {
      KeepApartMembers(pts, n - 1, sqrt);
    }
  }

  /** While every point is near the first, only the first is kept. */
  lemma {:induction false} KeepApartSingle(pts: seq<Vec3>, n: nat, sqrt: real -> real)
    requires 0 < n <= |pts| && NearFirst(pts, n, sqrt)
    ensures KeepApart(pts, n, sqrt) == [pts[0]]
  {
    if n > 1 {
      KeepApartSingle(pts, n - 1, sqrt);
      assert Near(pts[n - 1], [pts[0]][0], DupEps, sqrt);
    } else {
      assert KeepApart(pts, 0, sqrt) == [];
    }
  }

  /** The second kept point is the first point that is not near the first one. */
  lemma {:induction false} KeepApartSecond(pts: seq<Vec3>, n: nat, j: nat, sqrt: real -> real)
    requires 1 <= j < n <= |pts| && NearFirst(pts, j, sqrt) && !Near(pts[j], pts[0], DupEps, sqrt)
    ensures |KeepApart(pts, n, sqrt)| >= 2 && KeepApart(pts, n, sqrt)[1] == pts[j]
  {
    if n == j + 1 {
      KeepApartSingle(pts, j, sqrt);
      var prev := KeepApart(pts, j, sqrt);
      assert !NearAny(prev, pts[j], sqrt);
    } else {
      KeepApartSecond(pts, n - 1, j, sqrt);
    }
  }

  /** The earliest point after the first that is not near it, if any. */
  lemma FirstFar(pts: seq<Vec3>, sqrt: real -> real) returns (j: nat)
    requires 0 < |pts|
    ensures 1 <= j <= |pts| && NearFirst(pts, j, sqrt)
    ensures j < |pts| ==> !Near(pts[j], pts[0], DupEps, sqrt)
  {
    j := 1;
    while j < |pts| && Near(pts[j], pts[0], DupEps, sqrt)
      invariant 1 <= j <= |pts| && NearFirst(pts, j, sqrt)
    {
      j := j + 1;
    }
  }

  /**
   * A triangle gives a segment exactly when one of its points is not near its first point;
   * the segment joins the first point to the earliest such point.
   */
  lemma TriangleSegmentProperties(plane: Plane, a: Vec3, b: Vec3, c: Vec3, sqrt: real -> real)
    ensures var pts := TrianglePoints(plane, a, b, c);
      var s := TriangleSegment(plane, a, b, c, sqrt);
      s.None? <==> |pts| == 0 || NearFirst(pts, |pts|, sqrt)
    ensures forall j :: 1 <= j < |TrianglePoints(plane, a, b, c)| ==>
      var pts := TrianglePoints(plane, a, b, c);
      (NearFirst(pts, j, sqrt) && !Near(pts[j], pts[0], DupEps, sqrt)) ==>
        TriangleSegment(plane, a, b, c, sqrt) == Some((pts[0], pts[j]))
  {
    var pts := TrianglePoints(plane, a, b, c);
    if |pts| > 0 {
      KeepApartMembers(pts, |pts|, sqrt);
      var j := FirstFar(pts, sqrt);
      if j < |pts| {
        KeepApartSecond(pts, |pts|, j, sqrt);
        assert !NearFirst(pts, |pts|, sqrt);
      } else {
        KeepApartSingle(pts, |pts|, sqrt);
      }
      forall j' | 1 <= j' < |pts| && NearFirst(pts, j', sqrt) && !Near(pts[j'], pts[0], DupEps, sqrt)
        ensures TriangleSegment(plane, a, b, c, sqrt) == Some((pts[0], pts[j']))
      {
        KeepApartSecond(pts, |pts|, j', sqrt);
      }
    }
  }

  /** Every point is within `1e-7` of the plane. */
  predicate CloseToPlane(plane: Plane, pts: seq<Vec3>)
  {
    forall i :: 0 <= i < |pts| ==> Abs(Distance(plane, pts[i])) < OnPlaneEps
  }

  lemma CloseToPlaneAppend(plane: Plane, xs: seq<Vec3>, ys: seq<Vec3>)
    requires CloseToPlane(plane, xs) && CloseToPlane(plane, ys)
    ensures CloseToPlane(plane, xs + ys)
  {
    assert forall i :: |xs| <= i < |xs + ys| ==> (xs + ys)[i] == ys[i - |xs|];
  }

  /** A crossing of one edge, when there is one, is on the plane. */
  lemma CrossingClose(plane: Plane, p: Vec3, q: Vec3)
    ensures CloseToPlane(plane, EdgeCrossing(plane, p, q))
  {
    if Distance(plane, p) * Distance(plane, q) < 0.0 {
      LerpEdgeOnPlane(plane, p, q);
    }
  }

  /** Every point of a triangle is within `1e-7` of the plane. */
  lemma TrianglePointsOnPlane(plane: Plane, a: Vec3, b: Vec3, c: Vec3)
    ensures CloseToPlane(plane, TrianglePoints(plane, a, b, c))
  {
    var p0, p1, p2 := EdgeCrossing(plane, a, b), EdgeCrossing(plane, b, c), EdgeCrossing(plane, c, a);
    var p3, p4, p5 := CornerOnPlane(plane, a), CornerOnPlane(plane, b), CornerOnPlane(plane, c);
    CrossingClose(plane, a, b);
    CrossingClose(plane, b, c);
    CrossingClose(plane, c, a);
    CloseToPlaneAppend(plane, p0, p1);
    CloseToPlaneAppend(plane, p0 + p1, p2);
    CloseToPlaneAppend(plane, p0 + p1 + p2, p3);
    CloseToPlaneAppend(plane, p0 + p1 + p2 + p3, p4);
    CloseToPlaneAppend(plane, p0 + p1 + p2 + p3 + p4, p5);
  }

  /** Both ends of a triangle's segment are within `1e-7` of the plane. */
  lemma TriangleSegmentOnPlane(plane: Plane, a: Vec3, b: Vec3, c: Vec3, sqrt: real -> real)
    ensures var s := TriangleSegment(plane, a, b, c, sqrt);
      s.Some? ==> Abs(Distance(plane, s.value.0)) < OnPlaneEps && Abs(Distance(plane, s.value.1)) < OnPlaneEps
  {
    var pts := TrianglePoints(plane, a, b, c);
    TrianglePointsOnPlane(plane, a, b, c);
    if |pts| >= 2 {
      KeepApartMembers(pts, |pts|, sqrt);
      var unique := KeepApart(pts, |pts|, sqrt);
      if |unique| >= 2 {
        assert unique[0] in pts && unique[1] in pts;
      }
    }
  }

  // ==================== the whole mesh ====================

  /** The corners of triangle `t`. */
  function Corner(m: Mesh, t: nat, k: nat): Vec3
    requires WellIndexed(m) && m.index.Some? && 3 * t + 3 <= |m.index.value| && k < 3
  {
    m.position[m.index.value[3 * t + k]]
  }

  /** The segment of triangle `t`, if it has one. */
  function TriangleAt(m: Mesh, plane: Plane, t: nat, sqrt: real -> real): Option<Segment>
    requires WellIndexed(m) && m.index.Some? && 3 * t + 3 <= |m.index.value|
  {
    TriangleSegment(plane, Corner(m, t, 0), Corner(m, t, 1), Corner(m, t, 2), sqrt)
  }

  /** Triangle `t`'s segment; nothing past the last whole triangle. */
  function SegmentAt(m: Mesh, plane: Plane, sqrt: real -> real, t: nat): Option<Segment>
  {
    if WellIndexed(m) && m.index.Some? && 3 * t + 3 <= |m.index.value| then TriangleAt(m, plane, t, sqrt) else None
  }

  function HasSegment(m: Mesh, plane: Plane, sqrt: real -> real): nat -> bool
  {
    (t: nat) => SegmentAt(m, plane, sqrt, t).Some?
  }

  function SegmentItem(m: Mesh, plane: Plane, sqrt: real -> real): nat -> Segment
  {
    (t: nat) => var s := SegmentAt(m, plane, sqrt, t); if s.Some? then s.value else (Zero3, Zero3)
  }

  /** The segments of the first `t` triangles, in triangle order. */
  function SegmentsUpTo(m: Mesh, plane: Plane, t: nat, sqrt: real -> real): seq<Segment>
  {
    FilterMap(t, HasSegment(m, plane, sqrt), SegmentItem(m, plane, sqrt))
  }

  /** `computeIntersection`: nothing for a mesh without an index, else one segment at most per triangle. */
  function Intersection(m: Mesh, plane: Plane, sqrt: real -> real): seq<Segment>
    requires WellIndexed(m)
  {
    if m.index.None? then [] else SegmentsUpTo(m, plane, |m.index.value| / 3, sqrt)
  }

  /** The segment is the segment of one of the mesh's triangles. */
  ghost predicate FromSomeTriangle(m: Mesh, plane: Plane, sqrt: real -> real, s: Segment)
    requires WellIndexed(m) && m.index.Some?
  {
    exists k :: 0 <= k < |m.index.value| / 3 && TriangleAt(m, plane, k, sqrt) == Some(s)
  }

  /**
   * A mesh without an index has no section; otherwise there is at most one segment per
   * triangle, each the segment of some triangle, with both ends within `1e-7` of the plane.
   */
  lemma IntersectionProperties(m: Mesh, plane: Plane, sqrt: real -> real)
    requires WellIndexed(m)
    ensures m.index.None? ==> Intersection(m, plane, sqrt) == []
    ensures m.index.Some? ==> |Intersection(m, plane, sqrt)| <= |m.index.value| / 3
    ensures m.index.Some? ==> forall g :: 0 <= g < |Intersection(m, plane, sqrt)| ==>
      FromSomeTriangle(m, plane, sqrt, Intersection(m, plane, sqrt)[g])
    ensures forall g :: 0 <= g < |Intersection(m, plane, sqrt)| ==>
      Abs(Distance(plane, Intersection(m, plane, sqrt)[g].0)) < OnPlaneEps
      && Abs(Distance(plane, Intersection(m, plane, sqrt)[g].1)) < OnPlaneEps
  {
    if m.index.Some? {
      var t := |m.index.value| / 3;
      forall g | 0 <= g < |Intersection(m, plane, sqrt)|
        ensures FromSomeTriangle(m, plane, sqrt, Intersection(m, plane, sqrt)[g])
        ensures Abs(Distance(plane, Intersection(m, plane, sqrt)[g].0)) < OnPlaneEps
          && Abs(Distance(plane, Intersection(m, plane, sqrt)[g].1)) < OnPlaneEps
      {
        var k := FilterMapSource(t, HasSegment(m, plane, sqrt), SegmentItem(m, plane, sqrt), g);
        assert TriangleAt(m, plane, k, sqrt) == Some(Intersection(m, plane, sqrt)[g]);
        TriangleSegmentOnPlane(plane, Corner(m, k, 0), Corner(m, k, 1), Corner(m, k, 2), sqrt);
      }
    }
  }

  // ==================== the loops of computeIntersection ====================

  /** The dedup loop: `for (j = 1 …) { for (const u of unique) if (close) break; … }`. */
  method Unique(pts: seq<Vec3>, sqrt: real -> real) returns (unique: seq<Vec3>)
    requires |pts| > 0
    ensures unique == KeepApart(pts, |pts|, sqrt)
  {
    unique := [pts[0]];
    assert KeepApart(pts, 0, sqrt) == [];
    var j := 1;
    while j < |pts|
      invariant 1 <= j <= |pts|
      invariant unique == KeepApart(pts, j, sqrt)
    {
      var isDup := false;
      var k := 0;
      while k < |unique|
        invariant k <= |unique|
        invariant !isDup && forall i :: 0 <= i < k ==> !Near(pts[j], unique[i], DupEps, sqrt)
      {
        if Len3(Sub3(pts[j], unique[k]), sqrt) < DupEps {
          isDup := true;
          break;
        }
        k := k + 1;
      }
      assert isDup <==> NearAny(unique, pts[j], sqrt);
      if !isDup {
        unique := unique + [pts[j]];
      }
      j := j + 1;
    }
  }

  /** The body of the triangle loop, from the three corners to the optional segment. */
  method SegmentOfTriangle(plane: Plane, a: Vec3, b: Vec3, c: Vec3, sqrt: real -> real) returns (s: Option<Segment>)
    ensures s == TriangleSegment(plane, a, b, c, sqrt)
  {
    var da, db, dc := Distance(plane, a), Distance(plane, b), Distance(plane, c);
    var pts := PushCrossing([], plane, a, b, da, db);
    pts := PushCrossing(pts, plane, b, c, db, dc);
    pts := PushCrossing(pts, plane, c, a, dc, da);
    pts := PushCorner(pts, plane, a, da);
    pts := PushCorner(pts, plane, b, db);
    pts := PushCorner(pts, plane, c, dc);
    assert pts == TrianglePoints(plane, a, b, c);
    s := None;
    if |pts| >= 2 {
      var unique := Unique(pts, sqrt);
      if |unique| >= 2 {
        s := Some((unique[0], unique[1]));
      }
    }
  }

  /** `if (dp * dq < 0) pts.push(lerp(p, q))`. */
  method PushCrossing(pts: seq<Vec3>, plane: Plane, p: Vec3, q: Vec3, dp: real, dq: real) returns (pts': seq<Vec3>)
    requires dp == Distance(plane, p) && dq == Distance(plane, q)
    ensures pts' == pts + EdgeCrossing(plane, p, q)
  {
    pts' := pts;
    if dp * dq < 0.0 {
      pts' := pts + [LerpEdge(p, q, dp, dq)];
    }
  }

  /** `if (Math.abs(dp) < 1e-7) pts.push(p)`. */
  method PushCorner(pts: seq<Vec3>, plane: Plane, p: Vec3, dp: real) returns (pts': seq<Vec3>)
    requires dp == Distance(plane, p)
    ensures pts' == pts + CornerOnPlane(plane, p)
  {
    pts' := pts;
    if Abs(dp) < OnPlaneEps {
      pts' := pts + [p];
    }
  }

  /** One pass of the triangle loop: triangle `t`'s segment, if any, is pushed. */
  method AddTriangle(m: Mesh, plane: Plane, t: nat, segments: seq<Segment>, sqrt: real -> real)
    returns (next: seq<Segment>)
    requires WellIndexed(m) && m.index.Some? && 3 * t + 3 <= |m.index.value|
    requires segments == SegmentsUpTo(m, plane, t, sqrt)
    ensures next == SegmentsUpTo(m, plane, t + 1, sqrt)
  {
    var index := m.index.value;
    var a := m.position[index[3 * t]];
    var b := m.position[index[3 * t + 1]];
    var c := m.position[index[3 * t + 2]];
    assert a == Corner(m, t, 0) && b == Corner(m, t, 1) && c == Corner(m, t, 2);
    var s := SegmentOfTriangle(plane, a, b, c, sqrt);
    assert s == TriangleAt(m, plane, t, sqrt);
    next := segments;
    if s.Some? {
      next := next + [s.value];
    }
  }

  /** The index is a multiple of three long, so a triangle that starts inside it ends inside it. */
  lemma WholeTriangles(m: Mesh, t: nat)
    requires WellIndexed(m) && m.index.Some? && 3 * t < |m.index.value|
    ensures 3 * t + 3 <= |m.index.value|
  {
    var q := |m.index.value| / 3;
    assert |m.index.value| == 3 * q;
  }

  /** `computeIntersection`: the loop over the index, three entries at a time. */
  method ComputeIntersection(m: Mesh, plane: Plane, sqrt: real -> real) returns (segments: seq<Segment>)
    requires WellIndexed(m)
    ensures segments == Intersection(m, plane, sqrt)
  {
    segments := [];
    if m.index.None? {
      return;
    }
    var count := |m.index.value|;
    var i, t := 0, 0;
    while i < count
      invariant i == 3 * t && i <= count
      invariant segments == SegmentsUpTo(m, plane, t, sqrt)
    {
      WholeTriangles(m, t);
      segments := AddTriangle(m, plane, t, segments, sqrt);
      i := i + 3;
      t := t + 1;
    }
    ThirdOf(count, t);
  }

  lemma ThirdOf(count: nat, t: nat)
    requires 3 * t == count
    ensures t == count / 3
  {
  }

  // ==================== orderSegments ====================

  /** `const EPS = 1e-4`: the gap the chaining bridges between two segment ends. */
  const ChainEps: real := 0.0001

  /** Segment `i` is unused and one of its ends is within `1e-4` of `last`. */
  predicate Linked(segs: seq<Segment>, used: set<nat>, last: Vec3, i: nat, sqrt: real -> real)
    requires i < |segs|
  {
    i !in used && (Near(last, segs[i].0, ChainEps, sqrt) || Near(last, segs[i].1, ChainEps, sqrt))
  }

  /** The end of segment `i` away from `last`: the second end when the first is near `last`. */
  function FarEnd(segs: seq<Segment>, last: Vec3, i: nat, sqrt: real -> real): Vec3
    requires i < |segs|
  {
    if Near(last, segs[i].0, ChainEps, sqrt) then segs[i].1 else segs[i].0
  }

  /** The inner `for` loop from `i` on: the first linked segment and its far end. */
  function Scan(segs: seq<Segment>, used: set<nat>, last: Vec3, i: nat, sqrt: real -> real): Option<(nat, Vec3)>
    decreases |segs| - i
  {
    if i >= |segs| then None
    else if i !in used && Near(last, segs[i].0, ChainEps, sqrt) then Some((i, segs[i].1))
    else if i !in used && Near(last, segs[i].1, ChainEps, sqrt) then Some((i, segs[i].0))
    else Scan(segs, used, last, i + 1, sqrt)
  }

  /**
   * The scan finds the first linked segment at or after `i`, with its far end, and finds
   * nothing exactly when no segment from `i` on is linked.
   */
  lemma {:induction false} ScanProperties(segs: seq<Segment>, used: set<nat>, last: Vec3, i: nat, sqrt: real -> real)
    requires i <= |segs|
    ensures var r := Scan(segs, used, last, i, sqrt);
      r.Some? ==> (i <= r.value.0 < |segs| && Linked(segs, used, last, r.value.0, sqrt)
        && r.value.1 == FarEnd(segs, last, r.value.0, sqrt)
        && forall j :: i <= j < r.value.0 ==> !Linked(segs, used, last, j, sqrt))
    ensures Scan(segs, used, last, i, sqrt).None? <==> forall j :: i <= j < |segs| ==> !Linked(segs, used, last, j, sqrt)
    decreases |segs| - i
  {
    if i < |segs| && !Linked(segs, used, last, i, sqrt) {
      ScanProperties(segs, used, last, i + 1, sqrt);
    }
  }

  /** Where the outer loop stops: the segments picked in order, the `used` set and the last point. */
  datatype Chain = Chain(picks: seq<(nat, Vec3)>, used: set<nat>, last: Vec3)

  /** The outer `while` loop from the given state, with `safety` passes left. */
  function ChainFrom(segs: seq<Segment>, used: set<nat>, last: Vec3, safety: nat, sqrt: real -> real): Chain
    decreases safety
  {
    if |used| < |segs| && safety > 0 then
      match Scan(segs, used, last, 0, sqrt)
      case None => Chain([], used, last)
      case Some(pick) =>
        var rest := ChainFrom(segs, used + {pick.0}, pick.1, safety - 1, sqrt);
        Chain([pick] + rest.picks, rest.used, rest.last)
    else Chain([], used, last)
  }

  /** The `used` set after the given picks. */
  ghost function UsedAfter(used: set<nat>, picks: seq<(nat, Vec3)>): set<nat>
    decreases |picks|
  {
    if |picks| == 0 then used else UsedAfter(used + {picks[0].0}, picks[1..])
  }

  /** The points the picks push. */
  function Fars(picks: seq<(nat, Vec3)>): seq<Vec3>
  {
    seq(|picks|, k requires 0 <= k < |picks| => picks[k].1)
  }

  /** `result` before the closing point is removed. */
  function Chained(segs: seq<Segment>, sqrt: real -> real): seq<Vec3>
    requires |segs| > 0
  {
    [segs[0].0, segs[0].1] + Fars(ChainFrom(segs, {0}, segs[0].1, |segs| + 2, sqrt).picks)
  }

  /** `orderSegments`: the chained points, without a last point that comes back to the first. */
  function OrderedPolygon(segs: seq<Segment>, sqrt: real -> real): seq<Vec3>
  {
    if |segs| == 0 then []
    else
      var r := Chained(segs, sqrt);
      if |r| > 2 && Near(r[0], r[|r| - 1], ChainEps, sqrt) then r[..|r| - 1] else r
  }

  /**
   * Every pass adds one segment to `used`, so there are no more picks than passes or than
   * unused segments, and the final state is the used set after the picks and the last far end.
   */
  lemma {:induction false} ChainCounts(segs: seq<Segment>, used: set<nat>, last: Vec3, safety: nat, sqrt: real -> real)
    requires |used| <= |segs|
    ensures var c := ChainFrom(segs, used, last, safety, sqrt);
      |c.picks| <= safety && |used| + |c.picks| <= |segs| && |c.used| == |used| + |c.picks|
      && c.used == UsedAfter(used, c.picks)
      && c.last == if |c.picks| == 0 then last else c.picks[|c.picks| - 1].1
    decreases safety
  {
    if |used| < |segs| && safety > 0 {
      var r := Scan(segs, used, last, 0, sqrt);
      if r.Some? {
        ScanProperties(segs, used, last, 0, sqrt);
        var pick := r.value;
        assert |used + {pick.0}| == |used| + 1;
        ChainCounts(segs, used + {pick.0}, pick.1, safety - 1, sqrt);
        var rest := ChainFrom(segs, used + {pick.0}, pick.1, safety - 1, sqrt);
        assert ([pick] + rest.picks)[1..] == rest.picks;
      }
    }
  }

  /**
   * Pick `k` is exactly what the scan finds from the previous point with the segments picked
   * before it (and the first) already used.
   */
  lemma {:induction false} ChainPick(segs: seq<Segment>, used: set<nat>, last: Vec3, safety: nat, sqrt: real -> real, k: nat)
    requires k < |ChainFrom(segs, used, last, safety, sqrt).picks|
    ensures var c := ChainFrom(segs, used, last, safety, sqrt);
      var prev := if k == 0 then last else c.picks[k - 1].1;
      Scan(segs, UsedAfter(used, c.picks[..k]), prev, 0, sqrt) == Some(c.picks[k])
    decreases safety
  {
    var c := ChainFrom(segs, used, last, safety, sqrt);
    var pick := Scan(segs, used, last, 0, sqrt).value;
    var rest := ChainFrom(segs, used + {pick.0}, pick.1, safety - 1, sqrt);
    assert c.picks == [pick] + rest.picks;
    if k == 0 {
      assert c.picks[..0] == [];
    } else {
      ChainPick(segs, used + {pick.0}, pick.1, safety - 1, sqrt, k - 1);
      assert c.picks[..k][0] == pick && c.picks[..k][1..] == rest.picks[..k - 1];
    }
  }

  /** The used set only grows, and holds every picked segment. */
  lemma {:induction false} UsedAfterContains(used: set<nat>, picks: seq<(nat, Vec3)>)
    ensures used <= UsedAfter(used, picks)
    ensures forall j :: 0 <= j < |picks| ==> picks[j].0 in UsedAfter(used, picks)
    decreases |picks|
  {
    if |picks| > 0 {
      UsedAfterContains(used + {picks[0].0}, picks[1..]);
      assert forall j :: 1 <= j < |picks| ==> picks[j] == picks[1..][j - 1];
    }
  }

  /**
   * The picks are distinct segments, none already used; each is linked to the point before
   * it, is the first such segment, and contributes the far end.
   */
  lemma ChainPickProperties(segs: seq<Segment>, used: set<nat>, last: Vec3, safety: nat, sqrt: real -> real, k: nat)
    requires k < |ChainFrom(segs, used, last, safety, sqrt).picks|
    ensures var c := ChainFrom(segs, used, last, safety, sqrt);
      var prev := if k == 0 then last else c.picks[k - 1].1;
      var u := UsedAfter(used, c.picks[..k]);
      var i := c.picks[k].0;
      i < |segs| && i !in used && (forall j :: 0 <= j < k ==> c.picks[j].0 != i)
      && Linked(segs, u, prev, i, sqrt) && c.picks[k].1 == FarEnd(segs, prev, i, sqrt)
      && (forall j :: 0 <= j < i ==> !Linked(segs, u, prev, j, sqrt))
  {
    var c := ChainFrom(segs, used, last, safety, sqrt);
    var prev := if k == 0 then last else c.picks[k - 1].1;
    var u := UsedAfter(used, c.picks[..k]);
    ChainPick(segs, used, last, safety, sqrt, k);
    ScanProperties(segs, u, prev, 0, sqrt);
    UsedAfterContains(used, c.picks[..k]);
    assert forall j :: 0 <= j < k ==> c.picks[..k][j] == c.picks[j];
  }

  /**
   * The `safety` bound never cuts the chain short: it stops only when every segment is
   * used or no unused segment is linked to the last point.
   */
  lemma {:induction false} ChainStops(segs: seq<Segment>, used: set<nat>, last: Vec3, safety: nat, sqrt: real -> real)
    requires |used| <= |segs| && |segs| - |used| <= safety
    ensures var c := ChainFrom(segs, used, last, safety, sqrt);
      |c.used| >= |segs| || forall j :: 0 <= j < |segs| ==> !Linked(segs, c.used, c.last, j, sqrt)
    decreases safety
  {
    if |used| < |segs| {
      var r := Scan(segs, used, last, 0, sqrt);
      ScanProperties(segs, used, last, 0, sqrt);
      if r.Some? {
        var pick := r.value;
        assert |used + {pick.0}| == |used| + 1;
        ChainStops(segs, used + {pick.0}, pick.1, safety - 1, sqrt);
      }
    }
  }

  /**
   * No segments give no points.  Otherwise the polygon starts with both ends of the first
   * segment, has at most one point per segment plus one, continues with the far ends of the
   * picks in order, and loses its last point exactly when that comes back to the first.
   */
  lemma OrderedPolygonProperties(segs: seq<Segment>, sqrt: real -> real)
    ensures |segs| == 0 ==> OrderedPolygon(segs, sqrt) == []
    ensures |segs| > 0 ==>
      var r := OrderedPolygon(segs, sqrt);
      var full := Chained(segs, sqrt);
      var picks := ChainFrom(segs, {0}, segs[0].1, |segs| + 2, sqrt).picks;
      2 <= |r| <= |full| <= |segs| + 1 && full[0] == segs[0].0 && full[1] == segs[0].1
      && (forall k :: 0 <= k < |picks| ==> full[k + 2] == picks[k].1)
      && r == (if |full| > 2 && Near(full[0], full[|full| - 1], ChainEps, sqrt) then full[..|full| - 1] else full)
  {
    if |segs| > 0 {
      ChainCounts(segs, {0}, segs[0].1, |segs| + 2, sqrt);
    }
  }

  /** The inner loop, with its `continue` for used segments and `break` on the first match. */
  method ScanLoop(segs: seq<Segment>, used: set<nat>, last: Vec3, sqrt: real -> real) returns (found: Option<(nat, Vec3)>)
    ensures found == Scan(segs, used, last, 0, sqrt)
  {
    found := None;
    var i := 0;
    while i < |segs|
      invariant i <= |segs|
      invariant Scan(segs, used, last, 0, sqrt) == Scan(segs, used, last, i, sqrt)
    {
      if i in used {
        i := i + 1;
        continue;
      }
      if Len3(Sub3(last, segs[i].0), sqrt) < ChainEps {
        found := Some((i, segs[i].1));
        break;
      }
      if Len3(Sub3(last, segs[i].1), sqrt) < ChainEps {
        found := Some((i, segs[i].0));
        break;
      }
      i := i + 1;
    }
  }

  /** The loop invariant of `orderSegments`: the points so far, and the chain still to come. */
  ghost predicate ChainState(segs: seq<Segment>, result: seq<Vec3>, used: set<nat>, safety: nat,
                             picks: seq<(nat, Vec3)>, sqrt: real -> real)
    requires |segs| > 0
  {
    |result| >= 2 && result == [segs[0].0, segs[0].1] + Fars(picks)
    && ChainFrom(segs, {0}, segs[0].1, |segs| + 2, sqrt).picks
       == picks + ChainFrom(segs, used, result[|result| - 1], safety, sqrt).picks
  }

  /**
   * One pass of the outer loop: when the scan from the last point finds a segment, its far
   * end is pushed and it is marked used; otherwise the chain is complete.
   */
  method ChainPass(segs: seq<Segment>, result: seq<Vec3>, used: set<nat>, safety: nat,
                   ghost picks: seq<(nat, Vec3)>, sqrt: real -> real)
    returns (found: bool, result': seq<Vec3>, used': set<nat>, ghost picks': seq<(nat, Vec3)>)
    requires |segs| > 0 && |used| < |segs| && safety > 0 && ChainState(segs, result, used, safety, picks, sqrt)
    ensures found ==> ChainState(segs, result', used', safety - 1, picks', sqrt)
    ensures !found ==> result' == Chained(segs, sqrt)
  {
    var last := result[|result| - 1];
    var pick := ScanLoop(segs, used, last, sqrt);
    found := pick.Some?;
    result', used', picks' := result, used, picks;
    if found {
      var p := pick.value;
      ghost var rest := ChainFrom(segs, used + {p.0}, p.1, safety - 1, sqrt).picks;
      assert ChainFrom(segs, used, last, safety, sqrt).picks == [p] + rest;
      result' := result + [p.1];
      used' := used + {p.0};
      picks' := picks + [p];
      assert Fars(picks') == Fars(picks) + [p.1];
      assert picks + ([p] + rest) == picks' + rest;
    } else {
      assert ChainFrom(segs, used, last, safety, sqrt).picks == [];
      assert ChainFrom(segs, {0}, segs[0].1, |segs| + 2, sqrt).picks == picks + [];
    }
  }

  /** When the loop condition fails, the chain is complete. */
  lemma ChainDone(segs: seq<Segment>, result: seq<Vec3>, used: set<nat>, safety: nat,
                  picks: seq<(nat, Vec3)>, sqrt: real -> real)
    requires |segs| > 0 && ChainState(segs, result, used, safety, picks, sqrt)
    requires !(|used| < |segs| && safety > 0)
    ensures result == Chained(segs, sqrt)
  {
    assert ChainFrom(segs, used, result[|result| - 1], safety, sqrt).picks == [];
    assert ChainFrom(segs, {0}, segs[0].1, |segs| + 2, sqrt).picks == picks + [];
  }

  /**
   * `orderSegments`.  The source's `safety-- > 0` also counts down on the pass that stops
   * the loop; the final value of the counter is never read, so here it stops at 0.
   */
  method OrderSegments(segs: seq<Segment>, sqrt: real -> real) returns (result: seq<Vec3>)
    ensures result == OrderedPolygon(segs, sqrt)
  {
    if |segs| == 0 {
      return [];
    }
    var n := |segs|;
    result := [segs[0].0, segs[0].1];
    var used: set<nat> := {0};
    var safety := n + 2;
    ghost var picks: seq<(nat, Vec3)> := [];
    assert Fars(picks) == [];
    var found := true;
    while |used| < n && safety > 0
      invariant 0 <= safety && found && ChainState(segs, result, used, safety, picks, sqrt)
      decreases safety
    {
      found, result, used, picks := ChainPass(segs, result, used, safety, picks, sqrt);
      safety := safety - 1;
      if !found {
        break;
      }
    }
    if found {
      ChainDone(segs, result, used, safety, picks, sqrt);
    }
    if |result| > 2 && Len3(Sub3(result[0], result[|result| - 1]), sqrt) < ChainEps {
      result := result[..|result| - 1];
    }
  }

  // ==================== projectTo2D ====================

  /** `Vector3.normalize()`: divide by `length() || 1`, so the zero vector stays as it is. */
  function ThreeNormalize(v: Vec3, sqrt: real -> real): Vec3
  {
    var l := Len3(v, sqrt);
    if l == 0.0 then v else [v[0] / l, v[1] / l, v[2] / l]
  }

  /** The in-plane axes `u = normalize(n × up)` and `v = normalize(u × n)`. */
  function PlaneAxes(normal: Vec3, sqrt: real -> real): (Vec3, Vec3)
  {
    var up: Vec3 := if Abs(normal[1]) < 0.9 then [0.0, 1.0, 0.0] else [1.0, 0.0, 0.0];
    var u := ThreeNormalize(Cross3(normal, up), sqrt);
    (u, ThreeNormalize(Cross3(u, normal), sqrt))
  }

  /** The sum of the points. */
  function Sum3(pts: seq<Vec3>): Vec3
  {
    if |pts| == 0 then Zero3 else Add3(Sum3(pts[..|pts| - 1]), pts[|pts| - 1])
  }

  /** `centroid.divideScalar(points.length)` after adding every point. */
  function Centroid3(pts: seq<Vec3>): Vec3
    requires |pts| > 0
  {
    DivideScalar(Sum3(pts), |pts| as real)
  }

  /** `v.divideScalar(n)`. */
  function DivideScalar(v: Vec3, n: real): Vec3
    requires n != 0.0
  {
    [v[0] / n, v[1] / n, v[2] / n]
  }

  /** One point in plane coordinates: its offset from the centroid against each axis. */
  function ProjectPoint(p: Vec3, c: Vec3, u: Vec3, v: Vec3): P2
  {
    var d := Sub3(p, c);
    P2(Dot3(d, u), Dot3(d, v))
  }

  function ProjectAll(pts: seq<Vec3>, c: Vec3, u: Vec3, v: Vec3): (r: seq<P2>)
    ensures |r| == |pts|
  {
    if |pts| == 0 then [] else ProjectAll(pts[..|pts| - 1], c, u, v) + [ProjectPoint(pts[|pts| - 1], c, u, v)]
  }

  /** `projectTo2D`: nothing for fewer than three points. */
  function ProjectTo2D(pts: seq<Vec3>, normal: Vec3, sqrt: real -> real): seq<P2>
  {
    if |pts| < 3 then []
    else
      var axes := PlaneAxes(normal, sqrt);
      ProjectAll(pts, Centroid3(pts), axes.0, axes.1)
  }

  /** Entry `i` of the projection is point `i` projected. */
  lemma {:induction false} ProjectAllAt(pts: seq<Vec3>, c: Vec3, u: Vec3, v: Vec3, i: nat)
    requires i < |pts|
    ensures ProjectAll(pts, c, u, v)[i] == ProjectPoint(pts[i], c, u, v)
  {
    if i < |pts| - 1 {
      ProjectAllAt(pts[..|pts| - 1], c, u, v, i);
    }
  }

  /** The sum of the offsets of the points from `c` along `w`. */
  function SumOffsets(pts: seq<Vec3>, c: Vec3, w: Vec3): real
  {
    if |pts| == 0 then 0.0 else SumOffsets(pts[..|pts| - 1], c, w) + Dot3(Sub3(pts[|pts| - 1], c), w)
  }

  lemma {:induction false} SumXY(pts: seq<Vec3>, c: Vec3, u: Vec3, v: Vec3)
    ensures SumX(ProjectAll(pts, c, u, v)) == SumOffsets(pts, c, u)
    ensures SumY(ProjectAll(pts, c, u, v)) == SumOffsets(pts, c, v)
  {
    if |pts| > 0 {
      var r := ProjectAll(pts, c, u, v);
      assert r[..|r| - 1] == ProjectAll(pts[..|pts| - 1], c, u, v);
      SumXY(pts[..|pts| - 1], c, u, v);
    }
  }

  lemma DotSub(p: Vec3, c: Vec3, w: Vec3)
    ensures Dot3(Sub3(p, c), w) == Dot3(p, w) - Dot3(c, w)
  {
    assert (p[0] - c[0]) * w[0] == p[0] * w[0] - c[0] * w[0];
    assert (p[1] - c[1]) * w[1] == p[1] * w[1] - c[1] * w[1];
    assert (p[2] - c[2]) * w[2] == p[2] * w[2] - c[2] * w[2];
  }

  lemma DotAdd(p: Vec3, q: Vec3, w: Vec3)
    ensures Dot3(Add3(p, q), w) == Dot3(p, w) + Dot3(q, w)
  {
    assert (p[0] + q[0]) * w[0] == p[0] * w[0] + q[0] * w[0];
    assert (p[1] + q[1]) * w[1] == p[1] * w[1] + q[1] * w[1];
    assert (p[2] + q[2]) * w[2] == p[2] * w[2] + q[2] * w[2];
  }

  /** The offsets from `c` add up to the sum of the points less `n` times `c`. */
  lemma {:induction false} SumOffsetsLinear(pts: seq<Vec3>, c: Vec3, w: Vec3)
    ensures SumOffsets(pts, c, w) == Dot3(Sum3(pts), w) - |pts| as real * Dot3(c, w)
  {
    if |pts| > 0 {
      var init, p := pts[..|pts| - 1], pts[|pts| - 1];
      SumOffsetsLinear(init, c, w);
      DotSub(p, c, w);
      DotAdd(Sum3(init), p, w);
      var k, dc := |init| as real, Dot3(c, w);
      assert k * dc + dc == (k + 1.0) * dc;
    }
  }

  lemma CancelCount(a: real, w: real, n: real)
    requires n != 0.0
    ensures n * (a / n * w) == a * w
  {
    assert n * (a / n) == a;
  }

  /** `n` copies of the centroid add up to the sum of the points. */
  lemma CentroidTimesCount(pts: seq<Vec3>, w: Vec3)
    requires |pts| > 0
    ensures |pts| as real * Dot3(Centroid3(pts), w) == Dot3(Sum3(pts), w)
  {
    ScaleBack(Sum3(pts), |pts| as real, w);
  }

  /** Scaling a vector down by `n` and its dot product back up by `n` gives the original dot product. */
  lemma ScaleBack(s: Vec3, n: real, w: Vec3)
    requires n != 0.0
    ensures n * Dot3(DivideScalar(s, n), w) == Dot3(s, w)
  {
    var c := DivideScalar(s, n);
    var t0, t1, t2 := c[0] * w[0], c[1] * w[1], c[2] * w[2];
    assert Dot3(c, w) == t0 + t1 + t2;
    assert n * (t0 + t1 + t2) == n * t0 + n * t1 + n * t2;
    CancelCount(s[0], w[0], n);
    CancelCount(s[1], w[1], n);
    CancelCount(s[2], w[2], n);
  }

  /**
   * The centroid's offsets along any direction cancel out; in particular the projected
   * polygon is centred, its coordinates adding up to zero.
   */
  lemma OffsetsCancel(pts: seq<Vec3>, w: Vec3)
    requires |pts| > 0
    ensures SumOffsets(pts, Centroid3(pts), w) == 0.0
  {
    SumOffsetsLinear(pts, Centroid3(pts), w);
    CentroidTimesCount(pts, w);
  }

  /** Dividing by the length keeps a vector perpendicular to whatever it was perpendicular to. */
  lemma NormalizeKeepsPerpendicular(x: Vec3, w: Vec3, sqrt: real -> real)
    requires Dot3(x, w) == 0.0
    ensures Dot3(ThreeNormalize(x, sqrt), w) == 0.0
  {
    var l := Len3(x, sqrt);
    if l != 0.0 {
      assert Dot3(ThreeNormalize(x, sqrt), w) * l == Dot3(x, w);
    }
  }

  /** Both in-plane axes are perpendicular to the normal and to each other. */
  lemma PlaneAxesPerpendicular(normal: Vec3, sqrt: real -> real)
    ensures var (u, v) := PlaneAxes(normal, sqrt);
      Dot3(u, normal) == 0.0 && Dot3(v, normal) == 0.0 && Dot3(v, u) == 0.0
  {
    var up: Vec3 := if Abs(normal[1]) < 0.9 then [0.0, 1.0, 0.0] else [1.0, 0.0, 0.0];
    CrossPerpendicular(normal, up);
    var x := Cross3(normal, up);
    assert Dot3(x, normal) == 0.0 by {
      assert Dot3(x, normal) == Dot3(Cross3(normal, up), normal);
    }
    NormalizeKeepsPerpendicular(x, normal, sqrt);
    var u := ThreeNormalize(x, sqrt);
    CrossPerpendicular(u, normal);
    NormalizeKeepsPerpendicular(Cross3(u, normal), normal, sqrt);
    NormalizeKeepsPerpendicular(Cross3(u, normal), u, sqrt);
  }

  /**
   * Fewer than three points project to nothing.  Otherwise there is one plane point per
   * point, its offset from the centroid against the two axes, and the plane points are
   * centred: their x and their y coordinates each add up to zero.
   */
  lemma ProjectTo2DProperties(pts: seq<Vec3>, normal: Vec3, sqrt: real -> real)
    ensures |pts| < 3 ==> ProjectTo2D(pts, normal, sqrt) == []
    ensures |pts| >= 3 ==>
      var r := ProjectTo2D(pts, normal, sqrt);
      |r| == |pts| && SumX(r) == 0.0 && SumY(r) == 0.0
      && forall i :: 0 <= i < |pts| ==>
        r[i] == ProjectPoint(pts[i], Centroid3(pts), PlaneAxes(normal, sqrt).0, PlaneAxes(normal, sqrt).1)
  {
    if |pts| >= 3 {
      var (u, v) := PlaneAxes(normal, sqrt);
      var c := Centroid3(pts);
      SumXY(pts, c, u, v);
      OffsetsCancel(pts, u);
      OffsetsCancel(pts, v);
      forall i | 0 <= i < |pts|
        ensures ProjectTo2D(pts, normal, sqrt)[i] == ProjectPoint(pts[i], c, u, v)
      {
        ProjectAllAt(pts, c, u, v, i);
      }
    }
  }

  /** The `forEach` that adds every point into the centroid, then the division. */
  method CentroidLoop(pts: seq<Vec3>) returns (centroid: Vec3)
    requires |pts| > 0
    ensures centroid == Centroid3(pts)
  {
    var sum := Zero3;
    var i := 0;
    while i < |pts|
      invariant i <= |pts|
      invariant sum == Sum3(pts[..i])
    {
      assert pts[..i + 1][..i] == pts[..i];
      sum := Add3(sum, pts[i]);
      i := i + 1;
    }
    assert pts[..|pts|] == pts;
    centroid := DivideScalar(sum, |pts| as real);
  }

  /** `projectTo2D`, with the centroid loop and the final `map`. */
  method ProjectPoints(pts: seq<Vec3>, normal: Vec3, sqrt: real -> real) returns (r: seq<P2>)
    ensures r == ProjectTo2D(pts, normal, sqrt)
  {
    if |pts| < 3 {
      return [];
    }
    var up: Vec3 := if Abs(normal[1]) < 0.9 then [0.0, 1.0, 0.0] else [1.0, 0.0, 0.0];
    var u := ThreeNormalize(Cross3(normal, up), sqrt);
    var v := ThreeNormalize(Cross3(u, normal), sqrt);
    var centroid := CentroidLoop(pts);
    r := ProjectAll(pts, centroid, u, v);
  }

  // ==================== analyzePolygon and getPolygonName ====================

  /** The result object of `analyzePolygon`. */
  datatype PolygonInfo = PolygonInfo(sides: nat, sideLengths: seq<real>, perimeter: real, area: real,
                                     isRegular: bool, name: string)

  /** `points3D[i].distanceTo(points3D[(i + 1) % n])`. */
  function SideLength3(pts: seq<Vec3>, i: nat, sqrt: real -> real): real
    requires i < |pts|
  {
    Len3(Sub3(pts[i], pts[Next(i, |pts|)]), sqrt)
  }

  function SideLengths3(pts: seq<Vec3>, sqrt: real -> real): (r: seq<real>)
    ensures |r| == |pts|
  {
    seq(|pts|, i requires 0 <= i < |pts| => SideLength3(pts, i, sqrt))
  }

  /** `getPolygonName`: the table covers 3 to 10 and 12; 11 and the rest are "n-gono". */
  function PolygonName(n: nat, isRegular: bool): string
  {
    var base :=
      if n == 3 then "Triángulo"
      else if n == 4 then "Cuadrilátero"
      else if n == 5 then "Pentágono"
      else if n == 6 then "Hexágono"
      else if n == 7 then "Heptágono"
      else if n == 8 then "Octógono"
      else if n == 9 then "Eneágono"
      else if n == 10 then "Decágono"
      else if n == 12 then "Dodecágono"
      else NatToString(n) + "-gono";
    if isRegular then base + " regular" else base
  }

  /** `analyzePolygon`: `null` below three points. */
  function AnalyzedPolygon(points3D: seq<Vec3>, points2D: seq<P2>, sqrt: real -> real): Option<PolygonInfo>
  {
    var n := |points3D|;
    if n < 3 then None
    else
      var sides := SideLengths3(points3D, sqrt);
      var perimeter := Sum(sides);
      var isRegular := n >= 3 && AllWithin(sides, perimeter / n as real, 0.08);
      Some(PolygonInfo(n, sides, perimeter, ShoelaceArea(points2D), isRegular, PolygonName(n, isRegular)))
  }

  /**
   * `null` exactly below three points.  Otherwise `sides` is the point count, the side
   * lengths are the n cyclic distances (the last closing back to the first point), the
   * perimeter is their sum (never negative for a true square root), the area is half the
   * absolute shoelace sum of the plane points, and the polygon is regular exactly when every
   * side is within 8 % of the mean.
   */
  lemma AnalyzedPolygonProperties(points3D: seq<Vec3>, points2D: seq<P2>, sqrt: real -> real)
    ensures AnalyzedPolygon(points3D, points2D, sqrt).None? <==> |points3D| < 3
    ensures AnalyzedPolygon(points3D, points2D, sqrt).Some? ==>
      var a := AnalyzedPolygon(points3D, points2D, sqrt).value;
      var n := |points3D|;
      a.sides == n && |a.sideLengths| == n
      && (forall i :: 0 <= i < n - 1 ==> a.sideLengths[i] == Len3(Sub3(points3D[i], points3D[i + 1]), sqrt))
      && a.sideLengths[n - 1] == Len3(Sub3(points3D[n - 1], points3D[0]), sqrt)
      && a.perimeter == Sum(a.sideLengths) && (IsSqrt(sqrt) ==> 0.0 <= a.perimeter)
      && a.area == ShoelaceArea(points2D) && 0.0 <= a.area
      && (a.isRegular <==> forall i :: 0 <= i < n ==>
            Abs(a.sideLengths[i] - a.perimeter / n as real) < a.perimeter / n as real * 0.08)
      && a.name == PolygonName(n, a.isRegular)
  {
    if |points3D| >= 3 {
      SideLengthsCyclic(points3D, sqrt);
      if IsSqrt(sqrt) {
        PerimeterNonNegative(points3D, sqrt);
      }
    }
  }

  /** Side `i` joins point `i` to point `i + 1`, and the last side closes back to point 0. */
  lemma SideLengthsCyclic(pts: seq<Vec3>, sqrt: real -> real)
    requires |pts| > 0
    ensures forall i :: 0 <= i < |pts| - 1 ==> SideLengths3(pts, sqrt)[i] == Len3(Sub3(pts[i], pts[i + 1]), sqrt)
    ensures SideLengths3(pts, sqrt)[|pts| - 1] == Len3(Sub3(pts[|pts| - 1], pts[0]), sqrt)
  {
    var n := |pts|;
    forall i | 0 <= i < n - 1
      ensures SideLengths3(pts, sqrt)[i] == Len3(Sub3(pts[i], pts[i + 1]), sqrt)
    {
      assert Next(i, n) == i + 1;
    }
    assert Next(n - 1, n) == 0;
  }

  lemma PerimeterNonNegative(points3D: seq<Vec3>, sqrt: real -> real)
    requires IsSqrt(sqrt)
    ensures 0.0 <= Sum(SideLengths3(points3D, sqrt))
  {
    var sides := SideLengths3(points3D, sqrt);
    forall i | 0 <= i < |sides|
      ensures 0.0 <= sides[i]
    {
      var d := Sub3(points3D[i], points3D[Next(i, |points3D|)]);
      assert Dot3(d, d) == Norm3Sq(d);
    }
    SumNonNegative(sides, |sides|);
  }

  /**
   * The table's names for 3 to 10 sides and 12; "n-gono" for every other count (11
   * included); " regular" is appended exactly for a regular polygon.
   */
  lemma PolygonNameProperties(n: nat, isRegular: bool)
    ensures n == 3 ==> PolygonName(n, false) == "Triángulo"
    ensures n == 4 ==> PolygonName(n, false) == "Cuadrilátero"
    ensures n == 5 ==> PolygonName(n, false) == "Pentágono"
    ensures n == 6 ==> PolygonName(n, false) == "Hexágono"
    ensures n == 7 ==> PolygonName(n, false) == "Heptágono"
    ensures n == 8 ==> PolygonName(n, false) == "Octógono"
    ensures n == 9 ==> PolygonName(n, false) == "Eneágono"
    ensures n == 10 ==> PolygonName(n, false) == "Decágono"
    ensures n == 12 ==> PolygonName(n, false) == "Dodecágono"
    ensures (n < 3 || n == 11 || n > 12) ==> PolygonName(n, false) == NatToString(n) + "-gono"
    ensures PolygonName(n, true) == PolygonName(n, false) + " regular"
    ensures isRegular <==> HasSuffix(PolygonName(n, isRegular), " regular")
  {
    var base := PolygonName(n, false);
    if isRegular {
      assert PolygonName(n, isRegular)[|PolygonName(n, isRegular)| - 8..] == " regular";
    } else if |base| >= 8 {
      if n < 3 || n == 11 || n > 12 {
        assert base[|base| - 1] == 'o' != 'r';
      }
    }
  }

  /** Two counts outside the table never share a name. */
  lemma PolygonFallbackDistinct(m: nat, n: nat)
    requires m < 3 || m == 11 || m > 12
    requires n < 3 || n == 11 || n > 12
    requires PolygonName(m, false) == PolygonName(n, false)
    ensures m == n
  {
    var a, b := NatToString(m), NatToString(n);
    assert a + "-gono" == b + "-gono";
    assert a == (a + "-gono")[..|a + "-gono"| - 5];
    assert b == (b + "-gono")[..|b + "-gono"| - 5];
    NatToStringInjective(m, n);
  }

  /** The side loop, which pushes each cyclic distance. */
  method SideLoop(points3D: seq<Vec3>, sqrt: real -> real) returns (sideLengths: seq<real>)
    ensures sideLengths == SideLengths3(points3D, sqrt)
  {
    var n := |points3D|;
    sideLengths := [];
    var i := 0;
    while i < n
      invariant i <= n
      invariant sideLengths == SideLengths3(points3D, sqrt)[..i]
    {
      sideLengths := sideLengths + [Len3(Sub3(points3D[i], points3D[(i + 1) % n]), sqrt)];
      i := i + 1;
    }
  }

  /** `sideLengths.reduce((a, b) => a + b, 0)`. */
  method SumLoop(s: seq<real>) returns (total: real)
    ensures total == Sum(s)
  {
    total := 0.0;
    var i := 0;
    while i < |s|
      invariant i <= |s|
      invariant total == SumTo(s, i)
    {
      total := total + s[i];
      i := i + 1;
    }
  }

  /** `analyzePolygon`, with its side loop, its sum and its shoelace loop. */
  method AnalyzePolygon(points3D: seq<Vec3>, points2D: seq<P2>, sqrt: real -> real) returns (r: Option<PolygonInfo>)
    ensures r == AnalyzedPolygon(points3D, points2D, sqrt)
  {
    var n := |points3D|;
    if n < 3 {
      return None;
    }
    var sideLengths := SideLoop(points3D, sqrt);
    var perimeter := SumLoop(sideLengths);
    var area := ShoelaceLoop(points2D);
    area := Abs(area) / 2.0;
    var avgSide := perimeter / n as real;
    var isRegular := n >= 3 && AllWithin(sideLengths, avgSide, 0.08);
    r := Some(PolygonInfo(n, sideLengths, perimeter, area, isRegular, PolygonName(n, isRegular)));
  }
}

/**
 * The hyperplane slicer of the 4-D polytope engine: the cut normal for each cut type, the
 * range of offsets over which the hyperplane meets the polytope, and `computeSlice`, which
 * collects the points where the polytope's edges cross the hyperplane `dot(x, normal) = offset`.
 * The polytope is passed in (the result of `getPolytope` for the key).
 */
module Slicer {
  import opened Wrappers
  import opened RealMath
  import opened Vectors
  import opened PairLoops
  import opened PolytopeBuilders
  import D = Dedup

  // ---------------------------------------------------------------- getSliceNormal

  const WNormal: Vec4 := [0.0, 0.0, 0.0, 1.0]

  /** `data.vertices[0]` and `data.edges[0]` exist where the cut type reads them. */
  predicate NormalDefined(p: Polytope, cutType: string)
  {
    (cutType == "vertex" ==> |p.vertices| > 0)
    && (cutType == "edge" ==> |p.edges| > 0 && p.edges[0].0 < |p.vertices| && p.edges[0].1 < |p.vertices|)
  }

  /** `vi.map((x, k) => (x + vj[k]) / 2)`. */
  function Midpoint(a: Vec4, b: Vec4): Vec4
  {
    [(a[0] + b[0]) / 2.0, (a[1] + b[1]) / 2.0, (a[2] + b[2]) / 2.0, (a[3] + b[3]) / 2.0]
  }

  function SliceNormal(p: Polytope, cutType: string, sqrt: real -> real): Vec4
    requires NormalDefined(p, cutType)
  {
    if cutType == "w" then WNormal
    else if cutType == "vertex" then Normalize4(p.vertices[0], sqrt)
    else if cutType == "edge" then Normalize4(Midpoint(p.vertices[p.edges[0].0], p.vertices[p.edges[0].1]), sqrt)
    else if cutType == "diagonal" then Normalize4([1.0, 1.0, 1.0, 1.0], sqrt)
    else WNormal
  }

  /**
   * 'w' and every unknown cut type give the w axis, 'diagonal' gives (½, ½, ½, ½); 'vertex'
   * and 'edge' normalise the first vertex and the first edge's midpoint.  Every normal is a
   * unit vector unless the vector normalised is zero, when it is zero.
   */
  lemma SliceNormalProperties(p: Polytope, cutType: string, sqrt: real -> real)
    requires NormalDefined(p, cutType) && IsSqrt(sqrt)
    ensures cutType !in {"vertex", "edge", "diagonal"} ==> SliceNormal(p, cutType, sqrt) == WNormal
    ensures cutType == "diagonal" ==> SliceNormal(p, cutType, sqrt) == [0.5, 0.5, 0.5, 0.5]
    ensures cutType == "vertex" ==> SliceNormal(p, cutType, sqrt) == Normalize4(p.vertices[0], sqrt)
    ensures cutType == "edge" ==>
      SliceNormal(p, cutType, sqrt) == Normalize4(Midpoint(p.vertices[p.edges[0].0], p.vertices[p.edges[0].1]), sqrt)
    ensures var n := SliceNormal(p, cutType, sqrt); Dot4(n, n) == 1.0 || n == Zero4
  {
    var n := SliceNormal(p, cutType, sqrt);
    if cutType == "diagonal" {
      var ones: Vec4 := [1.0, 1.0, 1.0, 1.0];
      SqrtUnique(sqrt, 4.0, 2.0);
      assert Len4(ones, sqrt) == 2.0;
      var a, b := Normalize4(ones, sqrt), [0.5, 0.5, 0.5, 0.5];
      assert a[0] == b[0] && a[1] == b[1] && a[2] == b[2] && a[3] == b[3];
    } else if cutType == "vertex" || cutType == "edge" {
      var v := if cutType == "vertex" then p.vertices[0] else Midpoint(p.vertices[p.edges[0].0], p.vertices[p.edges[0].1]);
      assert n == Normalize4(v, sqrt);
      if Dot4(v, v) > 0.0 {
        Normalize4Unit(v, sqrt);
      } else {
        assert Dot4(v, v) == Norm4Sq(v);
        Normalize4Zero(v, sqrt);
      }
    }
  }

  // ---------------------------------------------------------------- getSliceRange

  /** The least and greatest `dot4(v, normal)`; `None` stands for the initial ±Infinity. */
  datatype Range = Range(min: real, max: real)

  /** The `minD` / `maxD` pair after the loop has seen the first `n` vertices. */
  function RangeOf(verts: seq<Vec4>, normal: Vec4, n: nat): Option<Range>
    requires n <= |verts|
  {
    if n == 0 then None
    else
      var d := Dot4(verts[n - 1], normal);
      var r := RangeOf(verts, normal, n - 1);
      if r.None? then Some(Range(d, d))
      else Some(Range(if d < r.value.min then d else r.value.min, if d > r.value.max then d else r.value.max))
  }

  method GetSliceRange(verts: seq<Vec4>, normal: Vec4) returns (r: Option<Range>)
    ensures r == RangeOf(verts, normal, |verts|)
  {
    var minD: Option<real> := None;
    var maxD: Option<real> := None;
    var t := 0;
    while t < |verts|
      invariant t <= |verts|
      invariant minD.None? <==> t == 0
      invariant maxD.None? <==> t == 0
      invariant t > 0 ==> RangeOf(verts, normal, t) == Some(Range(minD.value, maxD.value))
    {
      var d := Dot4(verts[t], normal);
      if minD.None? || d < minD.value {
        minD := Some(d);
      }
      if maxD.None? || d > maxD.value {
        maxD := Some(d);
      }
      t := t + 1;
    }
    if t == 0 {
      return None;
    }
    return Some(Range(minD.value, maxD.value));
  }

  /** The range bounds every vertex's offset, both ends are attained, and min ≤ max. */
  lemma {:induction false} RangeProperties(verts: seq<Vec4>, normal: Vec4, n: nat)
    requires n <= |verts|
    ensures RangeOf(verts, normal, n).None? <==> n == 0
    ensures RangeOf(verts, normal, n).Some? ==>
      var r := RangeOf(verts, normal, n).value;
      r.min <= r.max
      && (forall t :: 0 <= t < n ==> r.min <= Dot4(verts[t], normal) <= r.max)
      && (exists t :: 0 <= t < n && Dot4(verts[t], normal) == r.min)
      && (exists t :: 0 <= t < n && Dot4(verts[t], normal) == r.max)
  {
    if n > 0 {
      RangeProperties(verts, normal, n - 1);
      var r := RangeOf(verts, normal, n).value;
      var d := Dot4(verts[n - 1], normal);
      if RangeOf(verts, normal, n - 1).Some? {
        var r0 := RangeOf(verts, normal, n - 1).value;
        if d >= r0.min {
          var t :| 0 <= t < n - 1 && Dot4(verts[t], normal) == r0.min;
          assert Dot4(verts[t], normal) == r.min;
        }
        if d <= r0.max {
          var t :| 0 <= t < n - 1 && Dot4(verts[t], normal) == r0.max;
          assert Dot4(verts[t], normal) == r.max;
        }
      }
      assert Dot4(verts[n - 1], normal) == d;
    }
  }

  // ---------------------------------------------------------------- computeSlice

  /** Every edge indexes two existing vertices (otherwise `dot4(undefined, …)` throws). */
  predicate EdgesIndex(p: Polytope)
  {
    forall e :: e in p.edges ==> e.0 < |p.vertices| && e.1 < |p.vertices|
  }

  /** `vi.map((x, k) => x + t · (vj[k] − x))`. */
  function Lerp(a: Vec4, b: Vec4, t: real): Vec4
  {
    [a[0] + t * (b[0] - a[0]), a[1] + t * (b[1] - a[1]), a[2] + t * (b[2] - a[2]), a[3] + t * (b[3] - a[3])]
  }

  /** The signed distance `dot4(v, normal) − offset` of a vertex from the hyperplane. */
  function Side(v: Vec4, normal: Vec4, offset: real): real
  {
    Dot4(v, normal) - offset
  }

  /** What one edge `[i, j]` contributes: the crossing point, or endpoint `i` when it is on the plane. */
  function Crossing(vi: Vec4, vj: Vec4, normal: Vec4, offset: real): Option<Vec4>
  {
    var di := Side(vi, normal, offset);
    var dj := Side(vj, normal, offset);
    if di * dj < 0.0 then Some(Lerp(vi, vj, di / (di - dj)))
    else if Abs(di) < 0.0001 then Some(vi)
    else None
  }

  /** The `intersections` list after the first `n` edges. */
  function Intersections(p: Polytope, normal: Vec4, offset: real, n: nat): seq<Vec4>
    requires EdgesIndex(p) && n <= |p.edges|
  {
    if n == 0 then []
    else
      var e := p.edges[n - 1];
      assert e in p.edges;
      var c := Crossing(p.vertices[e.0], p.vertices[e.1], normal, offset);
      Intersections(p, normal, offset, n - 1) + (if c.Some? then [c.value] else [])
  }

  /** The object `computeSlice` returns. */
  datatype SliceResult = SliceResult(points4D: seq<Vec4>, normal: Vec4, offset: real)

  function Slice(p: Polytope, normal: Vec4, offset: real, key: Vec4 -> string): Option<SliceResult>
    requires EdgesIndex(p)
  {
    var raw := Intersections(p, normal, offset, |p.edges|);
    if |raw| < 3 then None
    else
      var unique := D.Dedup4(raw, key);
      if |unique| < 3 then None else Some(SliceResult(unique, normal, offset))
  }

  /** The loop over `data.edges` that fills `intersections`. */
  method CollectIntersections(p: Polytope, normal: Vec4, offset: real) returns (intersections: seq<Vec4>)
    requires EdgesIndex(p)
    ensures intersections == Intersections(p, normal, offset, |p.edges|)
  {
    intersections := [];
    var t := 0;
    while t < |p.edges|
      invariant t <= |p.edges|
      invariant intersections == Intersections(p, normal, offset, t)
    {
      var (i, j) := p.edges[t];
      assert p.edges[t] in p.edges;
      var di := Dot4(p.vertices[i], normal) - offset;
      var dj := Dot4(p.vertices[j], normal) - offset;
      ghost var c := Crossing(p.vertices[i], p.vertices[j], normal, offset);
      assert Intersections(p, normal, offset, t + 1) == intersections + (if c.Some? then [c.value] else []);
      if di * dj < 0.0 {
        var s := di / (di - dj);
        assert c == Some(Lerp(p.vertices[i], p.vertices[j], s));
        intersections := intersections + [Lerp(p.vertices[i], p.vertices[j], s)];
      } else if Abs(di) < 0.0001 {
        assert c == Some(p.vertices[i]);
        intersections := intersections + [p.vertices[i]];
      } else {
        assert c == None;
      }
      t := t + 1;
    }
  }

  method ComputeSlice(p: Polytope, cutType: string, position: real, sqrt: real -> real, key: Vec4 -> string)
    returns (r: Option<SliceResult>)
    requires NormalDefined(p, cutType) && EdgesIndex(p)
    ensures r == Slice(p, SliceNormal(p, cutType, sqrt), position, key)
  {
    var normal := SliceNormal(p, cutType, sqrt);
    var offset := position;
    var intersections := CollectIntersections(p, normal, offset);
    if |intersections| < 3 {
      return None;
    }
    var unique := D.Dedup4Loop(intersections, key);
    if |unique| < 3 {
      return None;
    }
    return Some(SliceResult(unique, normal, offset));
  }

  // ---------------------------------------------------------------- what a slice is

  lemma DotLerp(a: Vec4, b: Vec4, t: real, n: Vec4)
    ensures Dot4(Lerp(a, b, t), n) == Dot4(a, n) + t * (Dot4(b, n) - Dot4(a, n))
  {
    var l := Lerp(a, b, t);
    calc {
      Dot4(l, n);
      (a[0] + t * (b[0] - a[0])) * n[0] + (a[1] + t * (b[1] - a[1])) * n[1]
        + (a[2] + t * (b[2] - a[2])) * n[2] + (a[3] + t * (b[3] - a[3])) * n[3];
      Dot4(a, n) + t * ((b[0] - a[0]) * n[0] + (b[1] - a[1]) * n[1] + (b[2] - a[2]) * n[2] + (b[3] - a[3]) * n[3]);
    }
  }

  lemma NonNegativeProduct(a: real, b: real)
    requires (a >= 0.0 && b >= 0.0) || (a <= 0.0 && b <= 0.0)
    ensures a * b >= 0.0
  {
  }

  lemma ProductSigns(a: real, b: real)
    requires a * b < 0.0
    ensures (a > 0.0 && b < 0.0) || (a < 0.0 && b > 0.0)
  {
    if !((a > 0.0 && b < 0.0) || (a < 0.0 && b > 0.0)) {
      NonNegativeProduct(a, b);
      assert false;
    }
  }

  /** The parameter of a sign change lies strictly between 0 and 1 and cancels the first distance. */
  lemma CrossingParameter(di: real, dj: real)
    requires di * dj < 0.0
    ensures di - dj != 0.0
    ensures 0.0 < di / (di - dj) < 1.0
    ensures di + di / (di - dj) * (dj - di) == 0.0
  {
    ProductSigns(di, dj);
    var t := di / (di - dj);
    assert t * (di - dj) == di;
  }

  /**
   * An edge whose ends are on opposite sides contributes `vi + t (vj − vi)` with 0 < t < 1,
   * a point exactly on the hyperplane.
   */
  lemma CrossingOnPlane(vi: Vec4, vj: Vec4, normal: Vec4, offset: real)
    requires Side(vi, normal, offset) * Side(vj, normal, offset) < 0.0
    ensures var di, dj := Side(vi, normal, offset), Side(vj, normal, offset);
      var t := di / (di - dj);
      0.0 < t < 1.0 && Crossing(vi, vj, normal, offset) == Some(Lerp(vi, vj, t))
      && Dot4(Lerp(vi, vj, t), normal) == offset
  {
    var di, dj := Side(vi, normal, offset), Side(vj, normal, offset);
    CrossingParameter(di, dj);
    var t := di / (di - dj);
    DotLerp(vi, vj, t, normal);
    LerpSide(Dot4(vi, normal), Dot4(vj, normal), offset, t);
  }

  /** The distance at parameter `t`, rewritten in the two signed distances. */
  lemma LerpSide(a: real, b: real, offset: real, t: real)
    requires (a - offset) + t * ((b - offset) - (a - offset)) == 0.0
    ensures a + t * (b - a) == offset
  {
  }

  /**
   * Without a sign change only endpoint `i` is examined, so an endpoint `j` on the hyperplane
   * is never added by its edge; whatever an edge contributes is within 10⁻⁴ of the hyperplane.
   */
  lemma CrossingProperties(vi: Vec4, vj: Vec4, normal: Vec4, offset: real)
    ensures var di, dj := Side(vi, normal, offset), Side(vj, normal, offset);
      di * dj >= 0.0 ==> Crossing(vi, vj, normal, offset) == (if Abs(di) < 0.0001 then Some(vi) else None)
    ensures Dot4(vj, normal) == offset && Abs(Dot4(vi, normal) - offset) >= 0.0001 ==>
      Crossing(vi, vj, normal, offset) == None
    ensures Crossing(vi, vj, normal, offset).Some? ==>
      Abs(Dot4(Crossing(vi, vj, normal, offset).value, normal) - offset) < 0.0001
  {
    var di, dj := Side(vi, normal, offset), Side(vj, normal, offset);
    if di * dj < 0.0 {
      CrossingOnPlane(vi, vj, normal, offset);
    } else if dj == 0.0 {
      assert di * dj == 0.0;
    }
  }

  /** Every collected point lies within 10⁻⁴ of the hyperplane. */
  lemma {:induction false} IntersectionsOnPlane(p: Polytope, normal: Vec4, offset: real, n: nat)
    requires EdgesIndex(p) && n <= |p.edges|
    ensures |Intersections(p, normal, offset, n)| <= n
    ensures forall q :: q in Intersections(p, normal, offset, n) ==> Abs(Dot4(q, normal) - offset) < 0.0001
  {
    if n > 0 {
      IntersectionsOnPlane(p, normal, offset, n - 1);
      var e := p.edges[n - 1];
      assert e in p.edges;
      CrossingProperties(p.vertices[e.0], p.vertices[e.1], normal, offset);
    }
  }

  /**
   * `null` with fewer than three raw or three distinct points; otherwise the deduplicated
   * crossing points, all within 10⁻⁴ of the hyperplane, with the normal and offset unchanged.
   */
  lemma SliceProperties(p: Polytope, normal: Vec4, offset: real, key: Vec4 -> string)
    requires EdgesIndex(p)
    ensures var raw := Intersections(p, normal, offset, |p.edges|);
      Slice(p, normal, offset, key).None? <==> |raw| < 3 || |D.Dedup4(raw, key)| < 3
    ensures Slice(p, normal, offset, key).Some? ==>
      var s := Slice(p, normal, offset, key).value;
      s.normal == normal && s.offset == offset && 3 <= |s.points4D| <= |p.edges|
      && s.points4D == D.Dedup4(Intersections(p, normal, offset, |p.edges|), key)
      && forall q :: q in s.points4D ==> Abs(Dot4(q, normal) - offset) < 0.0001
  {
    var raw := Intersections(p, normal, offset, |p.edges|);
    IntersectionsOnPlane(p, normal, offset, |p.edges|);
    D.Dedup4Properties(raw, key);
  }

  /** An offset beyond the vertex range by more than 10⁻⁴ meets no edge, so the slice is `null`. */
  lemma OutOfRangeIsEmpty(p: Polytope, normal: Vec4, offset: real, key: Vec4 -> string)
    requires EdgesIndex(p) && |p.vertices| > 0
    requires var r := RangeOf(p.vertices, normal, |p.vertices|);
      r.Some? && (offset < r.value.min - 0.0001 || offset > r.value.max + 0.0001)
    ensures Intersections(p, normal, offset, |p.edges|) == []
    ensures Slice(p, normal, offset, key).None?
  {
    RangeProperties(p.vertices, normal, |p.vertices|);
    var r := RangeOf(p.vertices, normal, |p.vertices|).value;
    forall t | 0 <= t < |p.vertices|
      ensures Dot4(p.vertices[t], normal) - offset > 0.0001 || Dot4(p.vertices[t], normal) - offset < -0.0001
      ensures offset < r.min - 0.0001 ==> Dot4(p.vertices[t], normal) - offset > 0.0001
      ensures offset > r.max + 0.0001 ==> Dot4(p.vertices[t], normal) - offset < -0.0001
    {
    }
    NothingCrosses(p, normal, offset, |p.edges|, offset < r.min - 0.0001);
  }

  /** When every vertex is on the same side, beyond the tolerance, no edge contributes. */
  lemma {:induction false} NothingCrosses(p: Polytope, normal: Vec4, offset: real, n: nat, above: bool)
    requires EdgesIndex(p) && n <= |p.edges|
    requires forall t :: 0 <= t < |p.vertices| ==>
      if above then Dot4(p.vertices[t], normal) - offset > 0.0001 else Dot4(p.vertices[t], normal) - offset < -0.0001
    ensures Intersections(p, normal, offset, n) == []
  {
    if n > 0 {
      NothingCrosses(p, normal, offset, n - 1, above);
      var e := p.edges[n - 1];
      assert e in p.edges;
      var di, dj := Dot4(p.vertices[e.0], normal) - offset, Dot4(p.vertices[e.1], normal) - offset;
      SameSignProduct(di, dj);
      assert Crossing(p.vertices[e.0], p.vertices[e.1], normal, offset) == None;
    }
  }

  lemma SameSignProduct(a: real, b: real)
    requires (a > 0.0 && b > 0.0) || (a < 0.0 && b < 0.0)
    ensures a * b > 0.0
  {
  }
}

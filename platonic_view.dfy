/**
 * The older engine's viewing maps: single-plane rotations in xw, yw, zw and xy, a
 * `rotate4D` that composes only those four, the two projections with their `viewDistance || 3`
 * default, and the line-segment buffers of `createProjectedEdges`.
 */
module PlatonicView {
  import opened Wrappers
  import opened RealMath
  import opened Vectors
  import opened PlaneRotation
  import V = View4D
  import P4 = Platonic4D

  // ---------------------------------------------------------------- rotations

  /** `rotateXW(v, angle)`: x and w turn, y and z are copied. */
  function RotateXW(v: Vec4, a: real, cos: real -> real, sin: real -> real): Vec4
  {
    var c, s := cos(a), sin(a);
    [v[0] * c - v[3] * s, v[1], v[2], v[0] * s + v[3] * c]
  }

  function RotateYW(v: Vec4, a: real, cos: real -> real, sin: real -> real): Vec4
  {
    var c, s := cos(a), sin(a);
    [v[0], v[1] * c - v[3] * s, v[2], v[1] * s + v[3] * c]
  }

  function RotateZW(v: Vec4, a: real, cos: real -> real, sin: real -> real): Vec4
  {
    var c, s := cos(a), sin(a);
    [v[0], v[1], v[2] * c - v[3] * s, v[2] * s + v[3] * c]
  }

  function RotateXY(v: Vec4, a: real, cos: real -> real, sin: real -> real): Vec4
  {
    var c, s := cos(a), sin(a);
    [v[0] * c - v[1] * s, v[0] * s + v[1] * c, v[2], v[3]]
  }

  /** Each of the four is the plane rotation of its two coordinates. */
  lemma SinglePlaneForms(v: Vec4, a: real, cos: real -> real, sin: real -> real)
    ensures RotateXW(v, a, cos, sin) == RotatePlane(v, 0, 3, cos(a), sin(a))
    ensures RotateYW(v, a, cos, sin) == RotatePlane(v, 1, 3, cos(a), sin(a))
    ensures RotateZW(v, a, cos, sin) == RotatePlane(v, 2, 3, cos(a), sin(a))
    ensures RotateXY(v, a, cos, sin) == RotatePlane(v, 0, 1, cos(a), sin(a))
  {
    Equal4(RotateXW(v, a, cos, sin), RotatePlane(v, 0, 3, cos(a), sin(a)));
    Equal4(RotateYW(v, a, cos, sin), RotatePlane(v, 1, 3, cos(a), sin(a)));
    Equal4(RotateZW(v, a, cos, sin), RotatePlane(v, 2, 3, cos(a), sin(a)));
    Equal4(RotateXY(v, a, cos, sin), RotatePlane(v, 0, 1, cos(a), sin(a)));
  }

  /** Each single-plane rotation keeps the squared length. */
  lemma SinglePlaneIsometry(v: Vec4, a: real, cos: real -> real, sin: real -> real)
    requires IsTrig(cos, sin)
    ensures Dot4(RotateXW(v, a, cos, sin), RotateXW(v, a, cos, sin)) == Dot4(v, v)
    ensures Dot4(RotateYW(v, a, cos, sin), RotateYW(v, a, cos, sin)) == Dot4(v, v)
    ensures Dot4(RotateZW(v, a, cos, sin), RotateZW(v, a, cos, sin)) == Dot4(v, v)
    ensures Dot4(RotateXY(v, a, cos, sin), RotateXY(v, a, cos, sin)) == Dot4(v, v)
  {
    SinglePlaneForms(v, a, cos, sin);
    assert Sq(cos(a)) + Sq(sin(a)) == 1.0;
    RotatePlaneProperties(v, 0, 3, cos(a), sin(a));
    RotatePlaneProperties(v, 1, 3, cos(a), sin(a));
    RotatePlaneProperties(v, 2, 3, cos(a), sin(a));
    RotatePlaneProperties(v, 0, 1, cos(a), sin(a));
  }

  /** The `angles` object of this engine; an absent or zero angle is falsy. */
  datatype Angles = Angles(xw: real, yw: real, zw: real, xy: real)

  /** `rotate4D`: xw, then yw, zw and xy, each skipped when its angle is falsy. */
  function Rotate4D(v: Vec4, angles: Angles, cos: real -> real, sin: real -> real): Vec4
  {
    var r1 := Step(v, angles.xw, 0, 3, cos, sin);
    var r2 := Step(r1, angles.yw, 1, 3, cos, sin);
    var r3 := Step(r2, angles.zw, 2, 3, cos, sin);
    Step(r3, angles.xy, 0, 1, cos, sin)
  }

  /** The inverse: xy, zw, yw and xw turned back. */
  function Unrotate4D(v: Vec4, angles: Angles, cos: real -> real, sin: real -> real): Vec4
  {
    var r3 := Unstep(v, angles.xy, 0, 1, cos, sin);
    var r2 := Unstep(r3, angles.zw, 2, 3, cos, sin);
    var r1 := Unstep(r2, angles.yw, 1, 3, cos, sin);
    Unstep(r1, angles.xw, 0, 3, cos, sin)
  }

  /** `rotate4D` keeps the squared length and `Unrotate4D` undoes it. */
  lemma Rotate4DIsometry(v: Vec4, angles: Angles, cos: real -> real, sin: real -> real)
    requires IsTrig(cos, sin)
    ensures Dot4(Rotate4D(v, angles, cos, sin), Rotate4D(v, angles, cos, sin)) == Dot4(v, v)
    ensures Unrotate4D(Rotate4D(v, angles, cos, sin), angles, cos, sin) == v
  {
    var r1 := Step(v, angles.xw, 0, 3, cos, sin);
    var r2 := Step(r1, angles.yw, 1, 3, cos, sin);
    var r3 := Step(r2, angles.zw, 2, 3, cos, sin);
    StepProperties(v, angles.xw, 0, 3, cos, sin);
    StepProperties(r1, angles.yw, 1, 3, cos, sin);
    StepProperties(r2, angles.zw, 2, 3, cos, sin);
    StepProperties(r3, angles.xy, 0, 1, cos, sin);
  }

  /**
   * A falsy angle skips its plane: with every angle zero the point is unchanged, and each
   * set angle applies its own single-plane rotation, in the order xw, yw, zw, xy.
   */
  lemma Rotate4DSkips(v: Vec4, angles: Angles, cos: real -> real, sin: real -> real)
    ensures angles == Angles(0.0, 0.0, 0.0, 0.0) ==> Rotate4D(v, angles, cos, sin) == v
    ensures angles.yw == 0.0 && angles.zw == 0.0 && angles.xy == 0.0 && angles.xw != 0.0 ==>
      Rotate4D(v, angles, cos, sin) == RotateXW(v, angles.xw, cos, sin)
    ensures angles.xw == 0.0 && angles.zw == 0.0 && angles.xy == 0.0 && angles.yw != 0.0 ==>
      Rotate4D(v, angles, cos, sin) == RotateYW(v, angles.yw, cos, sin)
    ensures angles.xw == 0.0 && angles.yw == 0.0 && angles.xy == 0.0 && angles.zw != 0.0 ==>
      Rotate4D(v, angles, cos, sin) == RotateZW(v, angles.zw, cos, sin)
    ensures angles.xw == 0.0 && angles.yw == 0.0 && angles.zw == 0.0 && angles.xy != 0.0 ==>
      Rotate4D(v, angles, cos, sin) == RotateXY(v, angles.xy, cos, sin)
    ensures angles.xw != 0.0 && angles.yw != 0.0 && angles.zw != 0.0 && angles.xy != 0.0 ==>
      Rotate4D(v, angles, cos, sin) == RotateXY(RotateZW(RotateYW(RotateXW(v, angles.xw, cos, sin),
        angles.yw, cos, sin), angles.zw, cos, sin), angles.xy, cos, sin)
  {
    var r1 := RotateXW(v, angles.xw, cos, sin);
    var r2 := RotateYW(r1, angles.yw, cos, sin);
    var r3 := RotateZW(r2, angles.zw, cos, sin);
    SinglePlaneForms(v, angles.xw, cos, sin);
    SinglePlaneForms(v, angles.yw, cos, sin);
    SinglePlaneForms(v, angles.zw, cos, sin);
    SinglePlaneForms(v, angles.xy, cos, sin);
    SinglePlaneForms(r1, angles.yw, cos, sin);
    SinglePlaneForms(r2, angles.zw, cos, sin);
    SinglePlaneForms(r3, angles.xy, cos, sin);
  }

  /**
   * The newer engine turns xy first and this one last; when only the three w planes turn,
   * both engines apply them in the same order and agree.
   */
  lemma EnginesAgreeWithoutXY(v: Vec4, angles: Angles, cos: real -> real, sin: real -> real)
    requires angles.xy == 0.0
    ensures Rotate4D(v, angles, cos, sin)
      == V.Rotate4D(v, V.Angles(0.0, 0.0, angles.xw, 0.0, angles.yw, angles.zw), cos, sin)
  {
  }

  // ---------------------------------------------------------------- projections

  /** `viewDistance || 3`: an absent or zero view distance becomes 3. */
  function ViewDistance(viewDistance: Option<real>): (d: real)
    ensures d != 0.0
    ensures viewDistance.None? || viewDistance.value == 0.0 ==> d == 3.0
    ensures viewDistance.Some? && viewDistance.value != 0.0 ==> d == viewDistance.value
  {
    if viewDistance.None? || viewDistance.value == 0.0 then 3.0 else viewDistance.value
  }

  /** `stereographicProject`: scale `d / (d - w)`; `None` where it is not finite. */
  function StereographicProject(v: Vec4, viewDistance: Option<real>): Option<Vec3>
  {
    V.Stereographic(v, ViewDistance(viewDistance))
  }

  /** `perspectiveProject`: factor `d / (d + w)`; `None` where it is not finite. */
  function PerspectiveProject(v: Vec4, viewDistance: Option<real>): Option<Vec3>
  {
    V.Perspective(v, ViewDistance(viewDistance))
  }

  /**
   * Both projections substitute 3 for a falsy view distance; they are mirror images in w;
   * a point with w = 0 keeps x, y, z whatever the view distance; otherwise every coordinate is
   * scaled by the same factor.
   */
  lemma ProjectionProperties(v: Vec4, viewDistance: Option<real>)
    ensures viewDistance.None? || viewDistance == Some(0.0) ==>
      PerspectiveProject(v, viewDistance) == V.Perspective(v, 3.0)
      && StereographicProject(v, viewDistance) == V.Stereographic(v, 3.0)
    ensures PerspectiveProject(v, viewDistance) == StereographicProject(v[3 := -v[3]], viewDistance)
    ensures v[3] == 0.0 ==> PerspectiveProject(v, viewDistance) == Some(V.XYZ(v))
    ensures v[3] == 0.0 ==> StereographicProject(v, viewDistance) == Some(V.XYZ(v))
    ensures var d := ViewDistance(viewDistance);
      d + v[3] != 0.0 ==>
        PerspectiveProject(v, viewDistance) == Some(Scale3(V.XYZ(v), d / (d + v[3])))
  {
    var d := ViewDistance(viewDistance);
    V.PerspectiveMirror(v, d);
    if v[3] == 0.0 {
      V.FlatProjection(v, d);
    }
    if d + v[3] != 0.0 {
      ScaleXYZIsScale3(v, d / (d + v[3]));
    }
  }

  lemma ScaleXYZIsScale3(v: Vec4, f: real)
    ensures Scale3(V.XYZ(v), f) == V.ScaleXYZ(v, f)
  {
    var x := V.XYZ(v);
    assert Scale3(x, f)[0] == V.ScaleXYZ(v, f)[0];
    assert Scale3(x, f)[1] == V.ScaleXYZ(v, f)[1];
    assert Scale3(x, f)[2] == V.ScaleXYZ(v, f)[2];
  }

  // ---------------------------------------------------------------- createProjectedEdges

  /** Every edge names two vertices of the polytope. */
  predicate EdgesInRange(m: P4.Mesh)
  {
    forall t :: 0 <= t < |m.edges| ==> m.edges[t].0 < |m.vertices| && m.edges[t].1 < |m.vertices|
  }

  /** One endpoint: rotated, projected in perspective, scaled; `None` for a non-finite point. */
  function EdgePoint(v: Vec4, angles: Angles, viewDist: Option<real>, scale: real,
                     cos: real -> real, sin: real -> real): Option<Vec3>
  {
    match PerspectiveProject(Rotate4D(v, angles, cos, sin), viewDist)
    case None => None
    case Some(p) => Some(Scale3(p, scale))
  }

  /** `(w + 1) / 2` of the rotated endpoint. */
  function Shade(v: Vec4, angles: Angles, cos: real -> real, sin: real -> real): real
  {
    (Rotate4D(v, angles, cos, sin)[3] + 1.0) / 2.0
  }

  /** The endpoints of the first `k` edges, in order, each mapped by `f`. */
  function EndpointList(m: P4.Mesh, f: Vec4 -> Option<Vec3>, k: nat): seq<Option<Vec3>>
    requires EdgesInRange(m) && k <= |m.edges|
  {
    if k == 0 then []
    else
      var e := m.edges[k - 1];
      EndpointList(m, f, k - 1) + [f(m.vertices[e.0]), f(m.vertices[e.1])]
  }

  /** Three copies of `g` of each endpoint of the first `k` edges, when `on`. */
  function ShadeList(m: P4.Mesh, g: Vec4 -> real, on: bool, k: nat): seq<real>
    requires EdgesInRange(m) && k <= |m.edges|
  {
    if k == 0 then []
    else
      var e := m.edges[k - 1];
      var wi, wj := g(m.vertices[e.0]), g(m.vertices[e.1]);
      ShadeList(m, g, on, k - 1) + (if on then [wi, wi, wi, wj, wj, wj] else [])
  }

  /** The `points` list after the first `k` edges. */
  function EdgePoints(m: P4.Mesh, angles: Angles, viewDist: Option<real>, scale: real,
                      cos: real -> real, sin: real -> real, k: nat): seq<Option<Vec3>>
    requires EdgesInRange(m) && k <= |m.edges|
  {
    EndpointList(m, (v: Vec4) => EdgePoint(v, angles, viewDist, scale, cos, sin), k)
  }

  /** The `colors` list after the first `k` edges: three shades per endpoint when `colorByW`. */
  function EdgeColors(m: P4.Mesh, angles: Angles, colorByW: bool,
                      cos: real -> real, sin: real -> real, k: nat): seq<real>
    requires EdgesInRange(m) && k <= |m.edges|
  {
    ShadeList(m, (v: Vec4) => Shade(v, angles, cos, sin), colorByW, k)
  }

  /** The loop of `createProjectedEdges` that fills `points` and `colors`. */
  method ProjectedEdges(m: P4.Mesh, angles: Angles, viewDist: Option<real>, scale: real, colorByW: bool,
                        cos: real -> real, sin: real -> real)
    returns (points: seq<Option<Vec3>>, colors: seq<real>)
    requires EdgesInRange(m)
    ensures points == EdgePoints(m, angles, viewDist, scale, cos, sin, |m.edges|)
    ensures colors == EdgeColors(m, angles, colorByW, cos, sin, |m.edges|)
  {
    points := [];
    colors := [];
    var t := 0;
    while t < |m.edges|
      invariant t <= |m.edges|
      invariant points == EdgePoints(m, angles, viewDist, scale, cos, sin, t)
      invariant colors == EdgeColors(m, angles, colorByW, cos, sin, t)
    {
      points, colors := ProjectStep(m, angles, viewDist, scale, colorByW, cos, sin, t, points, colors);
      t := t + 1;
    }
  }

  /** The loop body for edge `t`: its two points appended, and its six shades when `colorByW`. */
  method ProjectStep(m: P4.Mesh, angles: Angles, viewDist: Option<real>, scale: real, colorByW: bool,
                     cos: real -> real, sin: real -> real, t: nat, points: seq<Option<Vec3>>, colors: seq<real>)
    returns (points': seq<Option<Vec3>>, colors': seq<real>)
    requires EdgesInRange(m) && t < |m.edges|
    requires points == EdgePoints(m, angles, viewDist, scale, cos, sin, t)
    requires colors == EdgeColors(m, angles, colorByW, cos, sin, t)
    ensures points' == EdgePoints(m, angles, viewDist, scale, cos, sin, t + 1)
    ensures colors' == EdgeColors(m, angles, colorByW, cos, sin, t + 1)
  {
    var qi, qj, wi, wj := ProjectEdge(m, t, angles, viewDist, scale, cos, sin);
    EdgePointsStep(m, angles, viewDist, scale, cos, sin, t);
    EdgeColorsStep(m, angles, colorByW, cos, sin, t);
    points' := points + [qi, qj];
    colors' := colors;
    if colorByW {
      colors' := colors + [wi, wi, wi, wj, wj, wj];
    }
  }

  lemma EdgePointsStep(m: P4.Mesh, angles: Angles, viewDist: Option<real>, scale: real,
                       cos: real -> real, sin: real -> real, t: nat)
    requires EdgesInRange(m) && t < |m.edges|
    ensures EdgePoints(m, angles, viewDist, scale, cos, sin, t + 1)
      == EdgePoints(m, angles, viewDist, scale, cos, sin, t)
         + [EdgePoint(m.vertices[m.edges[t].0], angles, viewDist, scale, cos, sin),
            EdgePoint(m.vertices[m.edges[t].1], angles, viewDist, scale, cos, sin)]
  {
  }

  lemma EdgeColorsStep(m: P4.Mesh, angles: Angles, colorByW: bool, cos: real -> real, sin: real -> real, t: nat)
    requires EdgesInRange(m) && t < |m.edges|
    ensures var wi, wj := Shade(m.vertices[m.edges[t].0], angles, cos, sin), Shade(m.vertices[m.edges[t].1], angles, cos, sin);
      EdgeColors(m, angles, colorByW, cos, sin, t + 1)
      == EdgeColors(m, angles, colorByW, cos, sin, t) + (if colorByW then [wi, wi, wi, wj, wj, wj] else [])
  {
  }

  /** One pass of the loop body: both endpoints rotated, projected and scaled, and their shades. */
  method ProjectEdge(m: P4.Mesh, t: nat, angles: Angles, viewDist: Option<real>, scale: real,
                     cos: real -> real, sin: real -> real)
    returns (qi: Option<Vec3>, qj: Option<Vec3>, wi: real, wj: real)
    requires EdgesInRange(m) && t < |m.edges|
    ensures qi == EdgePoint(m.vertices[m.edges[t].0], angles, viewDist, scale, cos, sin)
    ensures qj == EdgePoint(m.vertices[m.edges[t].1], angles, viewDist, scale, cos, sin)
    ensures wi == Shade(m.vertices[m.edges[t].0], angles, cos, sin)
    ensures wj == Shade(m.vertices[m.edges[t].1], angles, cos, sin)
  {
    var (i, j) := m.edges[t];
    var vi := Rotate4D(m.vertices[i], angles, cos, sin);
    var vj := Rotate4D(m.vertices[j], angles, cos, sin);
    var pi := PerspectiveProject(vi, viewDist);
    var pj := PerspectiveProject(vj, viewDist);
    qi := if pi.None? then None else Some(Scale3(pi.value, scale));
    qj := if pj.None? then None else Some(Scale3(pj.value, scale));
    wi := (vi[3] + 1.0) / 2.0;
    wj := (vj[3] + 1.0) / 2.0;
  }

  /** Exactly two points per edge, its two endpoints in order, both through the perspective projection. */
  lemma EdgePointsProperties(m: P4.Mesh, angles: Angles, viewDist: Option<real>, scale: real,
                             cos: real -> real, sin: real -> real, k: nat)
    requires EdgesInRange(m) && k <= |m.edges|
    ensures |EdgePoints(m, angles, viewDist, scale, cos, sin, k)| == 2 * k
    ensures forall t :: 0 <= t < k ==>
      EdgePoints(m, angles, viewDist, scale, cos, sin, k)[2 * t]
        == EdgePoint(m.vertices[m.edges[t].0], angles, viewDist, scale, cos, sin)
      && EdgePoints(m, angles, viewDist, scale, cos, sin, k)[2 * t + 1]
        == EdgePoint(m.vertices[m.edges[t].1], angles, viewDist, scale, cos, sin)
  {
    var f := (v: Vec4) => EdgePoint(v, angles, viewDist, scale, cos, sin);
    EndpointListLength(m, f, k);
    forall t | 0 <= t < k
      ensures EndpointList(m, f, k)[2 * t] == f(m.vertices[m.edges[t].0])
        && EndpointList(m, f, k)[2 * t + 1] == f(m.vertices[m.edges[t].1])
    {
      EndpointAt(m, f, k, t);
    }
  }

  lemma {:induction false} EndpointListLength(m: P4.Mesh, f: Vec4 -> Option<Vec3>, k: nat)
    requires EdgesInRange(m) && k <= |m.edges|
    ensures |EndpointList(m, f, k)| == 2 * k
  {
    if k > 0 {
      EndpointListLength(m, f, k - 1);
    }
  }

  /** Entries `2t` and `2t + 1` are the images of edge `t`'s endpoints. */
  lemma {:induction false} EndpointAt(m: P4.Mesh, f: Vec4 -> Option<Vec3>, k: nat, t: nat)
    requires EdgesInRange(m) && t < k <= |m.edges|
    ensures |EndpointList(m, f, k)| == 2 * k
    ensures EndpointList(m, f, k)[2 * t] == f(m.vertices[m.edges[t].0])
      && EndpointList(m, f, k)[2 * t + 1] == f(m.vertices[m.edges[t].1])
  {
    EndpointListLength(m, f, k - 1);
    if t < k - 1 {
      EndpointAt(m, f, k - 1, t);
    }
  }

  /** Six shades per edge, three for each endpoint, when colouring by w; none otherwise. */
  lemma EdgeColorsProperties(m: P4.Mesh, angles: Angles, colorByW: bool,
                             cos: real -> real, sin: real -> real, k: nat)
    requires EdgesInRange(m) && k <= |m.edges|
    ensures |EdgeColors(m, angles, colorByW, cos, sin, k)| == if colorByW then 6 * k else 0
    ensures colorByW ==> forall t :: 0 <= t < k ==>
      var wi, wj := Shade(m.vertices[m.edges[t].0], angles, cos, sin), Shade(m.vertices[m.edges[t].1], angles, cos, sin);
      EdgeColors(m, angles, colorByW, cos, sin, k)[6 * t..6 * t + 6] == [wi, wi, wi, wj, wj, wj]
  {
    var g := (v: Vec4) => Shade(v, angles, cos, sin);
    ShadeListLength(m, g, colorByW, k);
    if colorByW {
      forall t | 0 <= t < k
        ensures var wi, wj := g(m.vertices[m.edges[t].0]), g(m.vertices[m.edges[t].1]);
          ShadeList(m, g, true, k)[6 * t..6 * t + 6] == [wi, wi, wi, wj, wj, wj]
      {
        ShadeAt(m, g, k, t);
      }
    }
  }

  lemma {:induction false} ShadeListLength(m: P4.Mesh, g: Vec4 -> real, on: bool, k: nat)
    requires EdgesInRange(m) && k <= |m.edges|
    ensures |ShadeList(m, g, on, k)| == if on then 6 * k else 0
  {
    if k > 0 {
      ShadeListLength(m, g, on, k - 1);
    }
  }

  /** Shades `6t .. 6t + 5` are those of edge `t`'s endpoints, three each. */
  lemma {:induction false} ShadeAt(m: P4.Mesh, g: Vec4 -> real, k: nat, t: nat)
    requires EdgesInRange(m) && t < k <= |m.edges|
    ensures |ShadeList(m, g, true, k)| == 6 * k
    ensures var wi, wj := g(m.vertices[m.edges[t].0]), g(m.vertices[m.edges[t].1]);
      ShadeList(m, g, true, k)[6 * t..6 * t + 6] == [wi, wi, wi, wj, wj, wj]
  {
    ShadeListLength(m, g, true, k - 1);
    var prev := ShadeList(m, g, true, k - 1);
    var e := m.edges[k - 1];
    var wi, wj := g(m.vertices[e.0]), g(m.vertices[e.1]);
    var r := ShadeList(m, g, true, k);
    assert r == prev + [wi, wi, wi, wj, wj, wj];
    if t < k - 1 {
      ShadeAt(m, g, k - 1, t);
      assert r[6 * t..6 * t + 6] == prev[6 * t..6 * t + 6];
    } else {
      assert r[6 * t..6 * t + 6] == [wi, wi, wi, wj, wj, wj];
    }
  }
}

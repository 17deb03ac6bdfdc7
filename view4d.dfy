/**
 * The viewing maps of the 4-D polytope engine: `rotate4D`, which turns a point in up to six
 * coordinate planes in a fixed order, and the two central projections to 3-space.
 */
module View4D {
  import opened Wrappers
  import opened RealMath
  import opened Vectors
  import opened PlaneRotation

  /** The `angles` object; an absent or zero angle is falsy and skips its plane. */
  datatype Angles = Angles(xy: real, xz: real, xw: real, yz: real, yw: real, zw: real)

  /** `rotate4D`: xy, then xz, xw, yz, yw and zw. */
  function Rotate4D(v: Vec4, angles: Angles, cos: real -> real, sin: real -> real): Vec4
  {
    var r1 := Step(v, angles.xy, 0, 1, cos, sin);
    var r2 := Step(r1, angles.xz, 0, 2, cos, sin);
    var r3 := Step(r2, angles.xw, 0, 3, cos, sin);
    var r4 := Step(r3, angles.yz, 1, 2, cos, sin);
    var r5 := Step(r4, angles.yw, 1, 3, cos, sin);
    Step(r5, angles.zw, 2, 3, cos, sin)
  }

  /** The inverse rotation: the six planes in reverse order, each turned back. */
  function Unrotate4D(v: Vec4, angles: Angles, cos: real -> real, sin: real -> real): Vec4
  {
    var r5 := Unstep(v, angles.zw, 2, 3, cos, sin);
    var r4 := Unstep(r5, angles.yw, 1, 3, cos, sin);
    var r3 := Unstep(r4, angles.yz, 1, 2, cos, sin);
    var r2 := Unstep(r3, angles.xw, 0, 3, cos, sin);
    var r1 := Unstep(r2, angles.xz, 0, 2, cos, sin);
    Unstep(r1, angles.xy, 0, 1, cos, sin)
  }

  /** Every rotation keeps the squared length and is undone by `Unrotate4D`. */
  lemma Rotate4DIsometry(v: Vec4, angles: Angles, cos: real -> real, sin: real -> real)
    requires IsTrig(cos, sin)
    ensures Dot4(Rotate4D(v, angles, cos, sin), Rotate4D(v, angles, cos, sin)) == Dot4(v, v)
    ensures Unrotate4D(Rotate4D(v, angles, cos, sin), angles, cos, sin) == v
  {
    var r1 := Step(v, angles.xy, 0, 1, cos, sin);
    var r2 := Step(r1, angles.xz, 0, 2, cos, sin);
    var r3 := Step(r2, angles.xw, 0, 3, cos, sin);
    var r4 := Step(r3, angles.yz, 1, 2, cos, sin);
    var r5 := Step(r4, angles.yw, 1, 3, cos, sin);
    StepProperties(v, angles.xy, 0, 1, cos, sin);
    StepProperties(r1, angles.xz, 0, 2, cos, sin);
    StepProperties(r2, angles.xw, 0, 3, cos, sin);
    StepProperties(r3, angles.yz, 1, 2, cos, sin);
    StepProperties(r4, angles.yw, 1, 3, cos, sin);
    StepProperties(r5, angles.zw, 2, 3, cos, sin);
  }

  /** With only the `xw` angle set, y and z are untouched. */
  lemma Rotate4DOnlyXW(v: Vec4, a: real, cos: real -> real, sin: real -> real)
    requires IsTrig(cos, sin)
    ensures var r := Rotate4D(v, Angles(0.0, 0.0, a, 0.0, 0.0, 0.0), cos, sin);
      r[1] == v[1] && r[2] == v[2] && Sq(r[0]) + Sq(r[3]) == Sq(v[0]) + Sq(v[3])
  {
    if a != 0.0 {
      assert Sq(cos(a)) + Sq(sin(a)) == 1.0;
      RotatePlaneProperties(v, 0, 3, cos(a), sin(a));
    }
  }

  // ---------------------------------------------------------------- projections

  function XYZ(v: Vec4): Vec3
  {
    [v[0], v[1], v[2]]
  }

  /** `v.xyz · f`, the common shape of both projections. */
  function ScaleXYZ(v: Vec4, f: real): Vec3
  {
    [v[0] * f, v[1] * f, v[2] * f]
  }

  /** `perspectiveProject`: factor d / (d + w); `None` where the factor is not finite. */
  function Perspective(v: Vec4, d: real): Option<Vec3>
  {
    if d + v[3] == 0.0 then None else Some(ScaleXYZ(v, d / (d + v[3])))
  }

  /** `stereographicProject`: factor d / (d − w); `None` where the factor is not finite. */
  function Stereographic(v: Vec4, d: real): Option<Vec3>
  {
    if d - v[3] == 0.0 then None else Some(ScaleXYZ(v, d / (d - v[3])))
  }

  /** `projectTo3D`: stereographic only for the exact string "stereographic". */
  function ProjectTo3D(v: Vec4, viewDist: real, projType: string): Option<Vec3>
  {
    if projType == "stereographic" then Stereographic(v, viewDist) else Perspective(v, viewDist)
  }

  /**
   * Any other string projects in perspective; the two projections are mirror images in w;
   * a point with w = 0 keeps x, y, z under either projection.
   */
  lemma ProjectionProperties(v: Vec4, d: real, projType: string)
    ensures projType != "stereographic" ==> ProjectTo3D(v, d, projType) == Perspective(v, d)
    ensures Perspective(v, d) == Stereographic(v[3 := -v[3]], d)
    ensures v[3] == 0.0 && d != 0.0 ==> ProjectTo3D(v, d, projType) == Some(XYZ(v))
  {
    PerspectiveMirror(v, d);
    if v[3] == 0.0 && d != 0.0 {
      FlatProjection(v, d);
    }
  }

  /** Perspective is stereographic of the point mirrored in w. */
  lemma PerspectiveMirror(v: Vec4, d: real)
    ensures Perspective(v, d) == Stereographic(v[3 := -v[3]], d)
  {
    var m := v[3 := -v[3]];
    var den := d + v[3];
    assert d - m[3] == den;
    if den != 0.0 {
      var f := d / den;
      var a, b := ScaleXYZ(m, f), ScaleXYZ(v, f);
      assert a[0] == b[0] && a[1] == b[1] && a[2] == b[2];
    }
  }

  /** A point with w = 0 keeps x, y, z under both projections. */
  lemma FlatProjection(v: Vec4, d: real)
    requires v[3] == 0.0 && d != 0.0
    ensures Perspective(v, d) == Some(XYZ(v)) && Stereographic(v, d) == Some(XYZ(v))
  {
    assert d / (d + v[3]) == 1.0;
    assert d / (d - v[3]) == 1.0;
  }
}

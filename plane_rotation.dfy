/**
 * A rotation in one coordinate plane of 4-space, the building block of every `rotateXY`,
 * `rotateXW`, ...: coordinates `p` and `q` become `v[p]·c − v[q]·s` and `v[p]·s + v[q]·c`
 * with `c = cos(a)`, `s = sin(a)`; the other two are copied.  `cos` and `sin` are parameters.
 */
module PlaneRotation {
  import opened RealMath
  import opened Vectors

  /** `Math.cos` and `Math.sin`: all that is assumed of them is cos² + sin² = 1. */
  ghost predicate IsTrig(cos: real -> real, sin: real -> real)
  {
    forall a :: Sq(cos(a)) + Sq(sin(a)) == 1.0
  }

  function RotatePlane(v: Vec4, p: nat, q: nat, c: real, s: real): Vec4
    requires p < q < 4
  {
    v[p := v[p] * c - v[q] * s][q := v[p] * s + v[q] * c]
  }

  /** One guarded step of `rotate4D`: `if (angles.pq) r = rotatePQ(r, angles.pq)`; 0 is falsy. */
  function Step(v: Vec4, a: real, p: nat, q: nat, cos: real -> real, sin: real -> real): Vec4
    requires p < q < 4
  {
    if a == 0.0 then v else RotatePlane(v, p, q, cos(a), sin(a))
  }

  /** The inverse step: the same plane turned by the opposite sine. */
  function Unstep(v: Vec4, a: real, p: nat, q: nat, cos: real -> real, sin: real -> real): Vec4
    requires p < q < 4
  {
    if a == 0.0 then v else RotatePlane(v, p, q, cos(a), -sin(a))
  }

  lemma PlaneSquares(x: real, y: real, c: real, s: real)
    ensures Sq(x * c - y * s) + Sq(x * s + y * c) == (Sq(x) + Sq(y)) * (Sq(c) + Sq(s))
  {
    calc {
      Sq(x * c - y * s) + Sq(x * s + y * c);
      (x * c - y * s) * (x * c - y * s) + (x * s + y * c) * (x * s + y * c);
      x * x * (c * c + s * s) + y * y * (c * c + s * s);
      (Sq(x) + Sq(y)) * (Sq(c) + Sq(s));
    }
  }

  lemma PlaneBack(x: real, y: real, c: real, s: real)
    requires Sq(c) + Sq(s) == 1.0
    ensures (x * c - y * s) * c - (x * s + y * c) * -s == x
    ensures (x * c - y * s) * -s + (x * s + y * c) * c == y
  {
    calc {
      (x * c - y * s) * c - (x * s + y * c) * -s;
      x * (c * c + s * s);
      { assert c * c + s * s == Sq(c) + Sq(s); }
      x;
    }
    calc {
      (x * c - y * s) * -s + (x * s + y * c) * c;
      y * (c * c + s * s);
      { assert c * c + s * s == Sq(c) + Sq(s); }
      y;
    }
  }

  /** Only coordinates `p` and `q` change, and the length is kept when c² + s² = 1. */
  lemma RotatePlaneProperties(v: Vec4, p: nat, q: nat, c: real, s: real)
    requires p < q < 4
    ensures forall k :: 0 <= k < 4 && k != p && k != q ==> RotatePlane(v, p, q, c, s)[k] == v[k]
    ensures Sq(c) + Sq(s) == 1.0 ==>
      Sq(RotatePlane(v, p, q, c, s)[p]) + Sq(RotatePlane(v, p, q, c, s)[q]) == Sq(v[p]) + Sq(v[q])
    ensures Sq(c) + Sq(s) == 1.0 ==> Dot4(RotatePlane(v, p, q, c, s), RotatePlane(v, p, q, c, s)) == Dot4(v, v)
  {
    var r := RotatePlane(v, p, q, c, s);
    PlaneSquares(v[p], v[q], c, s);
    if Sq(c) + Sq(s) == 1.0 {
      DotOfPlane(v, r, p, q);
    }
  }

  /** Two vectors that agree off the plane and have the same planar length have the same length. */
  lemma DotOfPlane(v: Vec4, r: Vec4, p: nat, q: nat)
    requires p < q < 4
    requires forall k :: 0 <= k < 4 && k != p && k != q ==> r[k] == v[k]
    requires Sq(r[p]) + Sq(r[q]) == Sq(v[p]) + Sq(v[q])
    ensures Dot4(r, r) == Dot4(v, v)
  {
    assert Dot4(r, r) == Sq(r[0]) + Sq(r[1]) + Sq(r[2]) + Sq(r[3]);
    assert Dot4(v, v) == Sq(v[0]) + Sq(v[1]) + Sq(v[2]) + Sq(v[3]);
  }

  /** Turning back by the opposite sine undoes the rotation. */
  lemma RotatePlaneInverse(v: Vec4, p: nat, q: nat, c: real, s: real)
    requires p < q < 4 && Sq(c) + Sq(s) == 1.0
    ensures RotatePlane(RotatePlane(v, p, q, c, s), p, q, c, -s) == v
  {
    var r := RotatePlane(v, p, q, c, s);
    var b := RotatePlane(r, p, q, c, -s);
    PlaneBack(v[p], v[q], c, s);
    assert b[p] == v[p] && b[q] == v[q];
    Equal4(b, v);
  }

  lemma StepProperties(v: Vec4, a: real, p: nat, q: nat, cos: real -> real, sin: real -> real)
    requires p < q < 4 && IsTrig(cos, sin)
    ensures Dot4(Step(v, a, p, q, cos, sin), Step(v, a, p, q, cos, sin)) == Dot4(v, v)
    ensures Unstep(Step(v, a, p, q, cos, sin), a, p, q, cos, sin) == v
    ensures forall k :: 0 <= k < 4 && k != p && k != q ==> Step(v, a, p, q, cos, sin)[k] == v[k]
  {
    if a != 0.0 {
      assert Sq(cos(a)) + Sq(sin(a)) == 1.0;
      RotatePlaneProperties(v, p, q, cos(a), sin(a));
      RotatePlaneInverse(v, p, q, cos(a), sin(a));
    }
  }
}

/**
 * Four- and three-component vectors and the vector helpers of the polytope engine
 * (dot, length, normalisation, distance, difference, sum, scaling, cross product).
 * Vectors are sequences because the engine indexes them by axis.
 */
module Vectors {
  import opened RealMath

  type Vec4 = v: seq<real> | |v| == 4 witness [0.0, 0.0, 0.0, 0.0]
  type Vec3 = v: seq<real> | |v| == 3 witness [0.0, 0.0, 0.0]

  const Zero4: Vec4 := [0.0, 0.0, 0.0, 0.0]
  const Zero3: Vec3 := [0.0, 0.0, 0.0]

  function Dot4(a: Vec4, b: Vec4): real
  {
    a[0] * b[0] + a[1] * b[1] + a[2] * b[2] + a[3] * b[3]
  }

  /** The squared length, written through `Sq` for the solver's sake. */
  function Norm4Sq(v: Vec4): (r: real)
    ensures r == Dot4(v, v)
    ensures 0.0 <= r
  {
    Sq(v[0]) + Sq(v[1]) + Sq(v[2]) + Sq(v[3])
  }

  function Len4(v: Vec4, sqrt: real -> real): real
  {
    sqrt(Dot4(v, v))
  }

  function Sub4(a: Vec4, b: Vec4): Vec4
  {
    [a[0] - b[0], a[1] - b[1], a[2] - b[2], a[3] - b[3]]
  }

  function Add4(a: Vec4, b: Vec4): Vec4
  {
    [a[0] + b[0], a[1] + b[1], a[2] + b[2], a[3] + b[3]]
  }

  function Scale4(v: Vec4, s: real): Vec4
  {
    [v[0] * s, v[1] * s, v[2] * s, v[3] * s]
  }

  /** `normalize4`: divide by the length, or the zero vector when the length is not positive. */
  function Normalize4(v: Vec4, sqrt: real -> real): (r: Vec4)
    ensures Len4(v, sqrt) <= 0.0 ==> r == Zero4
  {
    var l := Len4(v, sqrt);
    if l > 0.0 then [v[0] / l, v[1] / l, v[2] / l, v[3] / l] else Zero4
  }

  /** Every coordinate divided by `d` (`v.map(x => x / d)`). */
  function Divide4(v: Vec4, d: real): Vec4
    requires d != 0.0
  {
    [v[0] / d, v[1] / d, v[2] / d, v[3] / d]
  }

  /** The squared distance of `dist4`. */
  function Dist4Sq(a: Vec4, b: Vec4): (r: real)
    ensures r == Dot4(Sub4(a, b), Sub4(a, b))
    ensures 0.0 <= r
  {
    Sq(a[0] - b[0]) + Sq(a[1] - b[1]) + Sq(a[2] - b[2]) + Sq(a[3] - b[3])
  }

  function Dist4(a: Vec4, b: Vec4, sqrt: real -> real): real
  {
    sqrt(Dist4Sq(a, b))
  }

  function Dot3(a: Vec3, b: Vec3): real
  {
    a[0] * b[0] + a[1] * b[1] + a[2] * b[2]
  }

  function Norm3Sq(v: Vec3): (r: real)
    ensures r == Dot3(v, v)
    ensures 0.0 <= r
  {
    Sq(v[0]) + Sq(v[1]) + Sq(v[2])
  }

  function Len3(v: Vec3, sqrt: real -> real): real
  {
    sqrt(Dot3(v, v))
  }

  /** `normalize3`: divide by the length, or the zero vector when the length is not positive. */
  function Normalize3(v: Vec3, sqrt: real -> real): (r: Vec3)
    ensures Len3(v, sqrt) <= 0.0 ==> r == Zero3
  {
    var l := Len3(v, sqrt);
    if l > 0.0 then [v[0] / l, v[1] / l, v[2] / l] else Zero3
  }

  function Sub3(a: Vec3, b: Vec3): Vec3
  {
    [a[0] - b[0], a[1] - b[1], a[2] - b[2]]
  }

  function Add3(a: Vec3, b: Vec3): Vec3
  {
    [a[0] + b[0], a[1] + b[1], a[2] + b[2]]
  }

  function Scale3(v: Vec3, s: real): Vec3
  {
    [v[0] * s, v[1] * s, v[2] * s]
  }

  function Cross3(a: Vec3, b: Vec3): Vec3
  {
    [a[1] * b[2] - a[2] * b[1], a[2] * b[0] - a[0] * b[2], a[0] * b[1] - a[1] * b[0]]
  }

  /** The cross product is perpendicular to both of its factors. */
  lemma CrossPerpendicular(a: Vec3, b: Vec3)
    ensures Dot3(Cross3(a, b), a) == 0.0
    ensures Dot3(Cross3(a, b), b) == 0.0
  {
    var c := Cross3(a, b);
    var p01, p02, p10, p12, p20, p21 := a[0] * b[1], a[0] * b[2], a[1] * b[0], a[1] * b[2], a[2] * b[0], a[2] * b[1];
    assert c == [p12 - p21, p20 - p02, p01 - p10];
    assert Dot3(c, a) == (p12 - p21) * a[0] + (p20 - p02) * a[1] + (p01 - p10) * a[2];
    assert Dot3(c, b) == (p12 - p21) * b[0] + (p20 - p02) * b[1] + (p01 - p10) * b[2];
  }

  /** Swapping the factors of a cross product negates it. */
  lemma CrossAntisymmetric(a: Vec3, b: Vec3)
    ensures Cross3(b, a) == Scale3(Cross3(a, b), -1.0)
  {
  }

  /** Scaling both factors of a dot product. */
  lemma DotScale4(a: Vec4, b: Vec4, s: real, t: real)
    ensures Dot4(Scale4(a, s), Scale4(b, t)) == s * t * Dot4(a, b)
  {
    var st := s * t;
    assert a[0] * s * (b[0] * t) == st * (a[0] * b[0]);
    assert a[1] * s * (b[1] * t) == st * (a[1] * b[1]);
    assert a[2] * s * (b[2] * t) == st * (a[2] * b[2]);
    assert a[3] * s * (b[3] * t) == st * (a[3] * b[3]);
  }

  /** Normalising a vector of positive length scales it by the inverse length. */
  lemma Normalize4Scales(v: Vec4, sqrt: real -> real)
    requires Len4(v, sqrt) > 0.0
    ensures Normalize4(v, sqrt) == Scale4(v, 1.0 / Len4(v, sqrt))
  {
    var l := Len4(v, sqrt);
    var n, m := Normalize4(v, sqrt), Scale4(v, 1.0 / l);
    DivIsMulInverse(v[0], l);
    DivIsMulInverse(v[1], l);
    DivIsMulInverse(v[2], l);
    DivIsMulInverse(v[3], l);
    Equal4(n, m);
  }

  lemma Equal4(a: Vec4, b: Vec4)
    requires a[0] == b[0] && a[1] == b[1] && a[2] == b[2] && a[3] == b[3]
    ensures a == b
  {
  }

  /** A normalised non-zero vector has unit length and points the same way. */
  lemma Normalize4Unit(v: Vec4, sqrt: real -> real)
    requires IsSqrt(sqrt)
    requires Dot4(v, v) > 0.0
    ensures Len4(v, sqrt) > 0.0
    ensures Normalize4(v, sqrt) == Scale4(v, 1.0 / Len4(v, sqrt))
    ensures Dot4(Normalize4(v, sqrt), Normalize4(v, sqrt)) == 1.0
  {
    var l := Len4(v, sqrt);
    SqrtPositive(sqrt, Dot4(v, v));
    Normalize4Scales(v, sqrt);
    var il := 1.0 / l;
    DotScale4(v, v, il, il);
    InverseSquare(l, Dot4(v, v));
  }

  /** `(1/l)^2 * l^2 == 1`. */
  lemma InverseSquare(l: real, d: real)
    requires l > 0.0 && Sq(l) == d
    ensures (1.0 / l) * (1.0 / l) * d == 1.0
  {
    var il := 1.0 / l;
    assert il * l == 1.0;
    var p := il * l;
    assert il * il * (l * l) == p * p;
  }

  lemma DivIsMulInverse(x: real, l: real)
    requires l != 0.0
    ensures x / l == x * (1.0 / l)
  {
  }

  /** The zero vector normalises to itself. */
  lemma Normalize4Zero(v: Vec4, sqrt: real -> real)
    requires IsSqrt(sqrt)
    requires Dot4(v, v) == 0.0
    ensures Normalize4(v, sqrt) == Zero4
  {
    SqrtUnique(sqrt, 0.0, 0.0);
  }
}

/**
 * `orthonormalBasis4`: Gram–Schmidt over the four coordinate axes, giving up to three unit
 * vectors that span the hyperplane orthogonal to a slice normal.
 */
module HyperplaneBasis {
  import opened RealMath
  import opened Vectors

  /** Candidate `c` of `[[1,0,0,0], [0,1,0,0], [0,0,1,0], [0,0,0,1]]`. */
  function Axis(c: nat): Vec4
    requires c < 4
  {
    if c == 0 then [1.0, 0.0, 0.0, 0.0]
    else if c == 1 then [0.0, 1.0, 0.0, 0.0]
    else if c == 2 then [0.0, 0.0, 1.0, 0.0]
    else [0.0, 0.0, 0.0, 1.0]
  }

  /** `v.map((x, i) => x − dot4(v, b) · b[i])`: remove the component of `v` along `b`. */
  function Reject(v: Vec4, b: Vec4): Vec4
  {
    Sub4(v, Scale4(b, Dot4(v, b)))
  }

  /** The `for (const b of basis)` loop, in list order. */
  function RejectAll(v: Vec4, basis: seq<Vec4>): Vec4
    decreases |basis|
  {
    if |basis| == 0 then v else RejectAll(Reject(v, basis[0]), basis[1..])
  }

  /** The candidates from `c` on, with the basis built so far; the third vector stops the loop. */
  function BasisFrom(normal: Vec4, sqrt: real -> real, c: nat, basis: seq<Vec4>): seq<Vec4>
    decreases 4 - c
  {
    if c >= 4 then basis
    else
      var v := RejectAll(Reject(Axis(c), normal), basis);
      var l := Len4(v, sqrt);
      if l > 0.01 then
        var next := basis + [Divide4(v, l)];
        if |next| == 3 then next else BasisFrom(normal, sqrt, c + 1, next)
      else BasisFrom(normal, sqrt, c + 1, basis)
  }

  function OrthonormalBasis(normal: Vec4, sqrt: real -> real): seq<Vec4>
  {
    BasisFrom(normal, sqrt, 0, [])
  }

  method OrthonormalBasis4(normal: Vec4, sqrt: real -> real) returns (basis: seq<Vec4>)
    ensures basis == OrthonormalBasis(normal, sqrt)
  {
    basis := [];
    var c := 0;
    while c < 4
      invariant c <= 4 && |basis| < 3
      invariant BasisFrom(normal, sqrt, c, basis) == OrthonormalBasis(normal, sqrt)
    {
      var cand := Axis(c);
      var v := Reject(cand, normal);
      var t := 0;
      while t < |basis|
        invariant t <= |basis|
        invariant RejectAll(v, basis[t..]) == RejectAll(Reject(cand, normal), basis)
      {
        assert basis[t..][1..] == basis[t + 1..];
        v := Reject(v, basis[t]);
        t := t + 1;
      }
      var l := Len4(v, sqrt);
      if l > 0.01 {
        basis := basis + [Divide4(v, l)];
        if |basis| == 3 {
          return;
        }
      }
      c := c + 1;
    }
  }

  // ---------------------------------------------------------------- the Gram–Schmidt facts

  /** Unit vectors, orthogonal to each other and to `normal`. */
  ghost predicate Orthonormal(basis: seq<Vec4>, normal: Vec4)
  {
    (forall i :: 0 <= i < |basis| ==> Dot4(basis[i], basis[i]) == 1.0 && Dot4(basis[i], normal) == 0.0)
    && forall i, j :: 0 <= i < j < |basis| ==> Dot4(basis[i], basis[j]) == 0.0
  }

  lemma DotSymmetric(a: Vec4, b: Vec4)
    ensures Dot4(a, b) == Dot4(b, a)
  {
  }

  /** Dot products are linear in their first factor. */
  lemma DotReject(v: Vec4, b: Vec4, w: Vec4)
    ensures Dot4(Reject(v, b), w) == Dot4(v, w) - Dot4(v, b) * Dot4(b, w)
  {
    var d := Dot4(v, b);
    var r := Reject(v, b);
    assert r[0] == v[0] - b[0] * d && r[1] == v[1] - b[1] * d && r[2] == v[2] - b[2] * d && r[3] == v[3] - b[3] * d;
    Distribute(v[0], b[0], w[0], d);
    Distribute(v[1], b[1], w[1], d);
    Distribute(v[2], b[2], w[2], d);
    Distribute(v[3], b[3], w[3], d);
    SumScaled(b[0] * w[0], b[1] * w[1], b[2] * w[2], b[3] * w[3], d);
  }

  lemma Distribute(x: real, y: real, z: real, d: real)
    ensures (x - y * d) * z == x * z - d * (y * z)
  {
  }

  lemma SumScaled(a: real, b: real, c: real, e: real, d: real)
    ensures d * a + d * b + d * c + d * e == d * (a + b + c + e)
  {
  }

  lemma DotDivide(v: Vec4, l: real, w: Vec4)
    requires l != 0.0
    ensures Dot4(Divide4(v, l), w) == Dot4(v, w) / l
  {
    var q := Divide4(v, l);
    DivIsMulInverse(v[0], l);
    DivIsMulInverse(v[1], l);
    DivIsMulInverse(v[2], l);
    DivIsMulInverse(v[3], l);
    DivIsMulInverse(Dot4(v, w), l);
    var il := 1.0 / l;
    calc {
      Dot4(q, w);
      v[0] * il * w[0] + v[1] * il * w[1] + v[2] * il * w[2] + v[3] * il * w[3];
      Dot4(v, w) * il;
    }
  }

  /** Rejecting along vectors orthogonal to `w` keeps the dot product with `w`. */
  lemma {:induction false} RejectAllKeeps(v: Vec4, basis: seq<Vec4>, w: Vec4)
    requires forall i :: 0 <= i < |basis| ==> Dot4(basis[i], w) == 0.0
    ensures Dot4(RejectAll(v, basis), w) == Dot4(v, w)
    decreases |basis|
  {
    if |basis| > 0 {
      DotReject(v, basis[0], w);
      RejectAllKeeps(Reject(v, basis[0]), basis[1..], w);
    }
  }

  /** After the inner loop the vector is orthogonal to every basis vector. */
  lemma {:induction false} RejectAllOrthogonal(v: Vec4, basis: seq<Vec4>, normal: Vec4)
    requires Orthonormal(basis, normal)
    ensures forall i :: 0 <= i < |basis| ==> Dot4(RejectAll(v, basis), basis[i]) == 0.0
    decreases |basis|
  {
    if |basis| > 0 {
      var b := basis[0];
      var rest := basis[1..];
      var v' := Reject(v, b);
      assert Orthonormal(rest, normal);
      RejectAllOrthogonal(v', rest, normal);
      forall i | 0 <= i < |rest|
        ensures Dot4(rest[i], b) == 0.0
      {
        assert rest[i] == basis[i + 1];
        DotSymmetric(b, rest[i]);
      }
      RejectAllKeeps(v', rest, b);
      DotReject(v, b, b);
      forall i | 0 <= i < |basis|
        ensures Dot4(RejectAll(v, basis), basis[i]) == 0.0
      {
        if i > 0 {
          assert basis[i] == rest[i - 1];
        }
      }
    }
  }

  /** The candidate after both rejections is orthogonal to the normal and to the basis. */
  lemma CandidateOrthogonal(cand: Vec4, basis: seq<Vec4>, normal: Vec4)
    requires Orthonormal(basis, normal) && Dot4(normal, normal) == 1.0
    ensures var v := RejectAll(Reject(cand, normal), basis);
      Dot4(v, normal) == 0.0 && forall i :: 0 <= i < |basis| ==> Dot4(v, basis[i]) == 0.0
  {
    var u := Reject(cand, normal);
    DotReject(cand, normal, normal);
    SelfCancel(Dot4(cand, normal), Dot4(normal, normal));
    assert forall i :: 0 <= i < |basis| ==> Dot4(basis[i], normal) == 0.0;
    RejectAllKeeps(u, basis, normal);
    RejectAllOrthogonal(u, basis, normal);
  }

  lemma SelfCancel(x: real, y: real)
    requires y == 1.0
    ensures x - x * y == 0.0
  {
  }

  lemma ZeroOver(l: real)
    requires l != 0.0
    ensures 0.0 / l == 0.0
  {
  }

  lemma SquareOverSquare(d: real, l: real)
    requires l != 0.0 && d == Sq(l)
    ensures d / l / l == 1.0
  {
    assert d / l == l;
  }

  /** Dividing by the length gives a unit vector. */
  lemma UnitAfterDivide(v: Vec4, l: real)
    requires l != 0.0 && Sq(l) == Dot4(v, v)
    ensures Dot4(Divide4(v, l), Divide4(v, l)) == 1.0
  {
    var u := Divide4(v, l);
    DotDivide(v, l, u);
    DotSymmetric(v, u);
    DotDivide(v, l, v);
    SquareOverSquare(Dot4(v, v), l);
  }

  /** Appending the normalised candidate keeps the basis orthonormal. */
  lemma AppendKeepsOrthonormal(basis: seq<Vec4>, normal: Vec4, v: Vec4, sqrt: real -> real)
    requires IsSqrt(sqrt) && Orthonormal(basis, normal)
    requires Dot4(v, normal) == 0.0 && forall i :: 0 <= i < |basis| ==> Dot4(v, basis[i]) == 0.0
    requires Len4(v, sqrt) > 0.01
    ensures Orthonormal(basis + [Divide4(v, Len4(v, sqrt))], normal)
  {
    var l := Len4(v, sqrt);
    var u := Divide4(v, l);
    var next := basis + [u];
    assert Sq(l) == Dot4(v, v);
    DotDivide(v, l, normal);
    ZeroOver(l);
    UnitAfterDivide(v, l);
    forall i, j | 0 <= i < j < |next|
      ensures Dot4(next[i], next[j]) == 0.0
    {
      if j == |basis| {
        DotSymmetric(v, basis[i]);
        DotDivide(v, l, basis[i]);
        DotSymmetric(u, basis[i]);
      }
    }
  }

  /** The loop from candidate `c` keeps an orthonormal basis orthonormal and stops at three. */
  lemma {:induction false} BasisFromProperties(normal: Vec4, sqrt: real -> real, c: nat, basis: seq<Vec4>)
    requires |basis| < 3
    ensures |BasisFrom(normal, sqrt, c, basis)| <= 3
    ensures IsSqrt(sqrt) && Dot4(normal, normal) == 1.0 && Orthonormal(basis, normal) ==>
      Orthonormal(BasisFrom(normal, sqrt, c, basis), normal)
    decreases 4 - c
  {
    if c < 4 {
      var v := RejectAll(Reject(Axis(c), normal), basis);
      var l := Len4(v, sqrt);
      if IsSqrt(sqrt) && Dot4(normal, normal) == 1.0 && Orthonormal(basis, normal) {
        CandidateOrthogonal(Axis(c), basis, normal);
        if l > 0.01 {
          AppendKeepsOrthonormal(basis, normal, v, sqrt);
        }
      }
      if l > 0.01 {
        var next := basis + [Divide4(v, l)];
        if |next| < 3 {
          BasisFromProperties(normal, sqrt, c + 1, next);
        }
      } else {
        BasisFromProperties(normal, sqrt, c + 1, basis);
      }
    }
  }

  // ---------------------------------------------------------------- why three always come back

  /** `Σ_j dot4(x, basis[j])²`: the part of `|x|²` the basis captures. */
  ghost function Captured(x: Vec4, basis: seq<Vec4>): (r: real)
    ensures 0.0 <= r
    decreases |basis|
  {
    if |basis| == 0 then 0.0 else Sq(Dot4(x, basis[0])) + Captured(x, basis[1..])
  }

  /** `|x|²` less what the normal and the basis capture. */
  ghost function Residual(x: Vec4, normal: Vec4, basis: seq<Vec4>): real
  {
    Dot4(x, x) - Sq(Dot4(x, normal)) - Captured(x, basis)
  }

  /** The normal is a unit vector or, when the vector normalised was zero, zero. */
  predicate UnitOrZero(normal: Vec4)
  {
    Dot4(normal, normal) == 1.0 || normal == Zero4
  }

  lemma {:induction false} CapturedAppend(x: Vec4, basis: seq<Vec4>, b: Vec4)
    ensures Captured(x, basis + [b]) == Captured(x, basis) + Sq(Dot4(x, b))
    decreases |basis|
  {
    if |basis| > 0 {
      assert (basis + [b])[1..] == basis[1..] + [b];
      CapturedAppend(x, basis[1..], b);
    }
  }

  /** Two vectors with the same dot products against the basis have the same captured part. */
  lemma {:induction false} CapturedSame(x: Vec4, y: Vec4, basis: seq<Vec4>)
    requires forall j :: 0 <= j < |basis| ==> Dot4(x, basis[j]) == Dot4(y, basis[j])
    ensures Captured(x, basis) == Captured(y, basis)
    decreases |basis|
  {
    if |basis| > 0 {
      CapturedSame(x, y, basis[1..]);
    }
  }

  /** Pythagoras for one rejection along a unit vector (or one already orthogonal). */
  lemma RejectSquare(w: Vec4, b: Vec4)
    requires Dot4(b, b) == 1.0 || Dot4(w, b) == 0.0
    ensures Dot4(Reject(w, b), Reject(w, b)) == Dot4(w, w) - Sq(Dot4(w, b))
  {
    var r := Reject(w, b);
    var d := Dot4(w, b);
    DotReject(w, b, r);
    DotSymmetric(w, r);
    DotSymmetric(b, r);
    DotReject(w, b, w);
    DotReject(w, b, b);
    DotSymmetric(b, w);
    assert d - d * Dot4(b, b) == 0.0;
  }

  /** After the inner loop `|v|²` has lost exactly what the basis captures. */
  lemma {:induction false} RejectAllSquare(w: Vec4, basis: seq<Vec4>, normal: Vec4)
    requires Orthonormal(basis, normal)
    ensures Dot4(RejectAll(w, basis), RejectAll(w, basis)) == Dot4(w, w) - Captured(w, basis)
    decreases |basis|
  {
    if |basis| > 0 {
      var b := basis[0];
      var rest := basis[1..];
      var w' := Reject(w, b);
      RejectSquare(w, b);
      forall j | 0 <= j < |rest|
        ensures Dot4(w', rest[j]) == Dot4(w, rest[j])
      {
        assert rest[j] == basis[j + 1];
        DotReject(w, b, rest[j]);
      }
      CapturedSame(w', w, rest);
      assert Orthonormal(rest, normal);
      RejectAllSquare(w', rest, normal);
    }
  }

  /** `|v|²` for candidate `x` is its residual against the normal and the basis. */
  lemma CandidateSquare(x: Vec4, basis: seq<Vec4>, normal: Vec4)
    requires Orthonormal(basis, normal) && UnitOrZero(normal)
    ensures var v := RejectAll(Reject(x, normal), basis); Dot4(v, v) == Residual(x, normal, basis)
  {
    var u := Reject(x, normal);
    RejectSquare(x, normal);
    forall j | 0 <= j < |basis|
      ensures Dot4(u, basis[j]) == Dot4(x, basis[j])
    {
      DotReject(x, normal, basis[j]);
      DotSymmetric(normal, basis[j]);
    }
    CapturedSame(u, x, basis);
    RejectAllSquare(u, basis, normal);
  }

  /** `v` is orthogonal to the normal and the basis, also when the normal is zero. */
  lemma CandidateOrthogonalOrZero(cand: Vec4, basis: seq<Vec4>, normal: Vec4)
    requires Orthonormal(basis, normal) && UnitOrZero(normal)
    ensures var v := RejectAll(Reject(cand, normal), basis);
      Dot4(v, normal) == 0.0 && forall i :: 0 <= i < |basis| ==> Dot4(v, basis[i]) == 0.0
  {
    if normal == Zero4 {
      RejectAllOrthogonal(Reject(cand, normal), basis, normal);
    } else {
      CandidateOrthogonal(cand, basis, normal);
    }
  }

  /** `dot4(x, v) = |v|²`: the candidate's own residual lies along `v`. */
  lemma CandidateAlong(x: Vec4, basis: seq<Vec4>, normal: Vec4)
    requires Orthonormal(basis, normal) && UnitOrZero(normal)
    ensures var v := RejectAll(Reject(x, normal), basis); Dot4(x, v) == Dot4(v, v)
  {
    var u := Reject(x, normal);
    var v := RejectAll(u, basis);
    CandidateOrthogonalOrZero(x, basis, normal);
    forall i | 0 <= i < |basis|
      ensures Dot4(basis[i], v) == 0.0
    {
      DotSymmetric(basis[i], v);
    }
    RejectAllKeeps(u, basis, v);
    DotReject(x, normal, v);
    DotSymmetric(normal, v);
  }

  /** Keeping candidate `x` as `v / l` leaves nothing of `x` outside the basis. */
  lemma KeptResidual(x: Vec4, basis: seq<Vec4>, normal: Vec4, sqrt: real -> real)
    requires IsSqrt(sqrt) && Orthonormal(basis, normal) && UnitOrZero(normal)
    requires Len4(RejectAll(Reject(x, normal), basis), sqrt) > 0.01
    ensures var v := RejectAll(Reject(x, normal), basis);
      Residual(x, normal, basis + [Divide4(v, Len4(v, sqrt))]) == 0.0
  {
    var v := RejectAll(Reject(x, normal), basis);
    var l := Len4(v, sqrt);
    var u := Divide4(v, l);
    assert Sq(l) == Dot4(v, v);
    CandidateSquare(x, basis, normal);
    CandidateAlong(x, basis, normal);
    DotDivide(v, l, x);
    DotSymmetric(v, x);
    DotSymmetric(u, x);
    SquareOverSelf(l);
    CapturedAppend(x, basis, u);
  }

  /** `Σ_c dot4(axis c, u)² = |u|²`. */
  lemma AxesSquare(u: Vec4)
    ensures Sq(Dot4(Axis(0), u)) + Sq(Dot4(Axis(1), u)) + Sq(Dot4(Axis(2), u)) + Sq(Dot4(Axis(3), u)) == Dot4(u, u)
  {
  }

  /** Over the four axes a set of unit vectors captures one unit each. */
  lemma {:induction false} AxesCaptured(basis: seq<Vec4>, normal: Vec4)
    requires Orthonormal(basis, normal)
    ensures Captured(Axis(0), basis) + Captured(Axis(1), basis) + Captured(Axis(2), basis) + Captured(Axis(3), basis)
      == |basis| as real
    decreases |basis|
  {
    if |basis| > 0 {
      assert Orthonormal(basis[1..], normal);
      AxesCaptured(basis[1..], normal);
      AxesSquare(basis[0]);
    }
  }

  /** The four residuals add up to `4 − |normal|² − |basis|`. */
  lemma AxesResidual(basis: seq<Vec4>, normal: Vec4)
    requires Orthonormal(basis, normal)
    ensures Residual(Axis(0), normal, basis) + Residual(Axis(1), normal, basis)
      + Residual(Axis(2), normal, basis) + Residual(Axis(3), normal, basis)
      == 4.0 - Dot4(normal, normal) - |basis| as real
  {
    AxesCaptured(basis, normal);
    AxesSquare(normal);
    DotSymmetric(Axis(0), normal);
    DotSymmetric(Axis(1), normal);
    DotSymmetric(Axis(2), normal);
    DotSymmetric(Axis(3), normal);
  }

  /**
   * From candidate `c` on, with every earlier candidate's residual at most `0.01²`: the loop
   * either stops at three vectors or ends with every candidate's residual at most `0.01²`, and
   * the basis stays orthonormal.
   */
  lemma {:induction false} BasisFromResidual(normal: Vec4, sqrt: real -> real, c: nat, basis: seq<Vec4>)
    requires IsSqrt(sqrt) && UnitOrZero(normal) && Orthonormal(basis, normal)
    requires |basis| < 3 && c <= 4
    requires forall k :: 0 <= k < c ==> Residual(Axis(k), normal, basis) <= 0.0001
    ensures var r := BasisFrom(normal, sqrt, c, basis);
      Orthonormal(r, normal)
      && (|r| == 3 || forall k :: 0 <= k < 4 ==> Residual(Axis(k), normal, r) <= 0.0001)
    decreases 4 - c
  {
    if c < 4 {
      var x := Axis(c);
      var v := RejectAll(Reject(x, normal), basis);
      var l := Len4(v, sqrt);
      if l > 0.01 {
        var next := basis + [Divide4(v, l)];
        KeptStep(normal, sqrt, c, basis);
        if |next| < 3 {
          BasisFromResidual(normal, sqrt, c + 1, next);
        }
      } else {
        CandidateSquare(x, basis, normal);
        DroppedSmall(v, sqrt);
        BasisFromResidual(normal, sqrt, c + 1, basis);
      }
    }
  }

  /** Keeping candidate `c` keeps the basis orthonormal and every residual so far small. */
  lemma KeptStep(normal: Vec4, sqrt: real -> real, c: nat, basis: seq<Vec4>)
    requires IsSqrt(sqrt) && UnitOrZero(normal) && Orthonormal(basis, normal) && c < 4
    requires forall k :: 0 <= k < c ==> Residual(Axis(k), normal, basis) <= 0.0001
    requires Len4(RejectAll(Reject(Axis(c), normal), basis), sqrt) > 0.01
    ensures var v := RejectAll(Reject(Axis(c), normal), basis);
      var next := basis + [Divide4(v, Len4(v, sqrt))];
      Orthonormal(next, normal) && forall k :: 0 <= k <= c ==> Residual(Axis(k), normal, next) <= 0.0001
  {
    var x := Axis(c);
    var v := RejectAll(Reject(x, normal), basis);
    var u := Divide4(v, Len4(v, sqrt));
    CandidateOrthogonalOrZero(x, basis, normal);
    AppendKeepsOrthonormal(basis, normal, v, sqrt);
    KeptResidual(x, basis, normal, sqrt);
    forall k | 0 <= k < c
      ensures Residual(Axis(k), normal, basis + [u]) <= 0.0001
    {
      CapturedAppend(Axis(k), basis, u);
    }
  }

  /** A dropped candidate's `|v|²` is at most `0.01²`. */
  lemma DroppedSmall(v: Vec4, sqrt: real -> real)
    requires IsSqrt(sqrt) && Len4(v, sqrt) <= 0.01
    ensures Dot4(v, v) <= 0.0001
  {
    var l := Len4(v, sqrt);
    assert Sq(l) == Dot4(v, v) && 0.0 <= l;
    MulLe(l, 0.01);
  }

  /** A basis that leaves every axis a residual of at most `0.01²` has at least three vectors. */
  lemma NoneLeftOver(basis: seq<Vec4>, normal: Vec4)
    requires UnitOrZero(normal) && Orthonormal(basis, normal)
    requires forall k :: 0 <= k < 4 ==> Residual(Axis(k), normal, basis) <= 0.0001
    ensures |basis| >= 3
  {
    AxesResidual(basis, normal);
    SmallSum(Residual(Axis(0), normal, basis), Residual(Axis(1), normal, basis), Residual(Axis(2), normal, basis),
      Residual(Axis(3), normal, basis), 4.0 - Dot4(normal, normal) - |basis| as real);
    assert Dot4(normal, normal) <= 1.0;
  }

  lemma SquareOverSelf(l: real)
    requires l != 0.0
    ensures Sq(l) / l == l
  {
  }

  /** Four residuals of at most `0.01²` cannot add up to one or more. */
  lemma SmallSum(a: real, b: real, c: real, e: real, s: real)
    requires a <= 0.0001 && b <= 0.0001 && c <= 0.0001 && e <= 0.0001
    requires a + b + c + e == s
    ensures s < 1.0
  {
  }

  lemma MulLe(l: real, m: real)
    requires 0.0 <= l <= m
    ensures Sq(l) <= m * m
  {
    assert l * l <= l * m <= m * m;
  }

  /**
   * At most three vectors come back; for a unit (or zero) normal they are unit vectors,
   * pairwise orthogonal, orthogonal to the normal, and there are exactly three of them.
   */
  lemma OrthonormalBasisProperties(normal: Vec4, sqrt: real -> real)
    ensures |OrthonormalBasis(normal, sqrt)| <= 3
    ensures IsSqrt(sqrt) && UnitOrZero(normal) ==> Orthonormal(OrthonormalBasis(normal, sqrt), normal)
    ensures IsSqrt(sqrt) && UnitOrZero(normal) ==> |OrthonormalBasis(normal, sqrt)| == 3
  {
    BasisFromProperties(normal, sqrt, 0, []);
    if IsSqrt(sqrt) && UnitOrZero(normal) {
      BasisFromResidual(normal, sqrt, 0, []);
      var r := OrthonormalBasis(normal, sqrt);
      if |r| != 3 {
        NoneLeftOver(r, normal);
      }
    }
  }
}

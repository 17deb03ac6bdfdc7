/**
 * `convexHullTriangles`, the cubic triangulator used for the polygons and small point sets of
 * the slicer: every triple `i < j < k` whose plane has all the remaining points (those not
 * within the 0.001 tolerance of it) on one side is a face, emitted so that its normal points
 * away from them.
 */
module ConvexHull {
  import opened Wrappers
  import opened RealMath
  import opened Vectors

  /** `cross3(points[j] − points[i], points[k] − points[i])`. */
  function TriNormal(points: seq<Vec3>, i: nat, j: nat, k: nat): Vec3
    requires i < |points| && j < |points| && k < |points|
  {
    Cross3(Sub3(points[j], points[i]), Sub3(points[k], points[i]))
  }

  /** `dot3(points[l] − points[i], normal)`: which side of the plane point `l` is on. */
  function Height(points: seq<Vec3>, i: nat, normal: Vec3, l: nat): real
    requires i < |points| && l < |points|
  {
    Dot3(Sub3(points[l], points[i]), normal)
  }

  /** Point `l` takes part in the side test: not a corner, and not within tolerance of the plane. */
  predicate Off(points: seq<Vec3>, i: nat, j: nat, k: nat, normal: Vec3, l: nat)
    requires i < |points|
  {
    l < |points| && l != i && l != j && l != k && Abs(Height(points, i, normal, l)) >= 0.001
  }

  datatype ScanResult = ScanResult(valid: bool, side: int)

  /** The inner `for l` loop from `l` on, with the side seen so far; a clash stops it. */
  function Scan(points: seq<Vec3>, i: nat, j: nat, k: nat, normal: Vec3, l: nat, side: int): ScanResult
    requires i < |points|
    decreases |points| - l
  {
    if l >= |points| then ScanResult(true, side)
    else if l == i || l == j || l == k then Scan(points, i, j, k, normal, l + 1, side)
    else
      var d := Height(points, i, normal, l);
      if Abs(d) < 0.001 then Scan(points, i, j, k, normal, l + 1, side)
      else if side == 0 then Scan(points, i, j, k, normal, l + 1, Sign(d))
      else if Sign(d) != side then ScanResult(false, side)
      else Scan(points, i, j, k, normal, l + 1, side)
  }

  /** What the loop body decides for the triple `(i, j, k)`: the face it pushes, if any. */
  function Facet(points: seq<Vec3>, sqrt: real -> real, i: nat, j: nat, k: nat): Option<seq<nat>>
    requires i < |points| && j < |points| && k < |points|
  {
    var normal := TriNormal(points, i, j, k);
    if Len3(normal, sqrt) < 0.0001 then None
    else
      var r := Scan(points, i, j, k, normal, 0, 0);
      if r.valid && r.side != 0 then Some(if r.side > 0 then [i, k, j] else [i, j, k]) else None
  }

  function OptList(o: Option<seq<nat>>): seq<seq<nat>>
  {
    if o.Some? then [o.value] else []
  }

  /** The loop body's decision as a function of the triple; a triple out of range pushes nothing. */
  function Facets(points: seq<Vec3>, sqrt: real -> real): (nat, nat, nat) -> Option<seq<nat>>
  {
    (i: nat, j: nat, k: nat) =>
      if i < |points| && j < |points| && k < |points| then Facet(points, sqrt, i, j, k) else None
  }

  /** The faces the `for k` loop of row `(i, j)` pushes before `k` reaches `end`. */
  function Ks(facet: (nat, nat, nat) -> Option<seq<nat>>, i: nat, j: nat, end: nat): seq<seq<nat>>
  {
    if end <= j + 1 then [] else Ks(facet, i, j, end - 1) + OptList(facet(i, j, end - 1))
  }

  /** The faces the `for j` loop of row `i` over `n` points pushes before `j` reaches `end`. */
  function Js(facet: (nat, nat, nat) -> Option<seq<nat>>, n: nat, i: nat, end: nat): seq<seq<nat>>
  {
    if end <= i + 1 then [] else Js(facet, n, i, end - 1) + Ks(facet, i, end - 1, n)
  }

  /** The faces the `for i` loop over `n` points pushes before `i` reaches `end`. */
  function Is(facet: (nat, nat, nat) -> Option<seq<nat>>, n: nat, end: nat): seq<seq<nat>>
  {
    if end == 0 then [] else Is(facet, n, end - 1) + Js(facet, n, end - 1, n)
  }

  /** The list `convexHullTriangles` returns. */
  function Hull(points: seq<Vec3>, sqrt: real -> real): seq<seq<nat>>
  {
    if |points| < 3 then [] else if |points| == 3 then [[0, 1, 2]] else Is(Facets(points, sqrt), |points|, |points|)
  }

  method ConvexHullTriangles(points: seq<Vec3>, sqrt: real -> real) returns (triangles: seq<seq<nat>>)
    ensures triangles == Hull(points, sqrt)
  {
    var n := |points|;
    if n < 3 {
      return [];
    }
    if n == 3 {
      return [[0, 1, 2]];
    }
    triangles := [];
    var i := 0;
    while i < n
      invariant i <= n
      invariant triangles == Is(Facets(points, sqrt), n, i)
    {
      triangles := LoopJ(points, sqrt, i, triangles);
      i := i + 1;
    }
  }

  /** The `for j` loop of row `i`, pushing onto `triangles`. */
  method LoopJ(points: seq<Vec3>, sqrt: real -> real, i: nat, acc: seq<seq<nat>>) returns (triangles: seq<seq<nat>>)
    requires i < |points|
    ensures triangles == acc + Js(Facets(points, sqrt), |points|, i, |points|)
  {
    ghost var f := Facets(points, sqrt);
    triangles := acc;
    var j := i + 1;
    while j < |points|
      invariant i < j <= |points|
      invariant triangles == acc + Js(f, |points|, i, j)
    {
      ghost var js, ks := Js(f, |points|, i, j), Ks(f, i, j, |points|);
      triangles := LoopK(points, sqrt, i, j, triangles);
      AppendAssoc(acc, js, ks);
      j := j + 1;
    }
  }

  /** The `for k` loop of row `(i, j)`, pushing onto `triangles`. */
  method LoopK(points: seq<Vec3>, sqrt: real -> real, i: nat, j: nat, acc: seq<seq<nat>>) returns (triangles: seq<seq<nat>>)
    requires i < j < |points|
    ensures triangles == acc + Ks(Facets(points, sqrt), i, j, |points|)
  {
    ghost var f := Facets(points, sqrt);
    triangles := acc;
    var k := j + 1;
    while k < |points|
      invariant j < k <= |points|
      invariant triangles == acc + Ks(f, i, j, k)
    {
      triangles := PushFacet(points, sqrt, i, j, k, acc, triangles);
      k := k + 1;
    }
  }

  /** One pass of the `for k` loop: push the face of `(i, j, k)` when there is one. */
  method PushFacet(points: seq<Vec3>, sqrt: real -> real, i: nat, j: nat, k: nat, ghost acc: seq<seq<nat>>,
                   triangles: seq<seq<nat>>) returns (triangles': seq<seq<nat>>)
    requires i < j < k < |points| && triangles == acc + Ks(Facets(points, sqrt), i, j, k)
    ensures triangles' == acc + Ks(Facets(points, sqrt), i, j, k + 1)
  {
    ghost var f := Facets(points, sqrt);
    ghost var ks := Ks(f, i, j, k);
    var face := TryTriple(points, sqrt, i, j, k);
    assert f(i, j, k) == face;
    AppendAssoc(acc, ks, OptList(face));
    if face.Some? {
      triangles' := triangles + [face.value];
    } else {
      triangles' := triangles;
    }
  }

  lemma AppendAssoc<T>(a: seq<T>, b: seq<T>, c: seq<T>)
    ensures a + (b + c) == a + b + c
  {
  }

  /** The body of the `for k` loop: the face to push for `(i, j, k)`, if any. */
  method TryTriple(points: seq<Vec3>, sqrt: real -> real, i: nat, j: nat, k: nat) returns (face: Option<seq<nat>>)
    requires i < |points| && j < |points| && k < |points|
    ensures face == Facet(points, sqrt, i, j, k)
  {
    var normal := Cross3(Sub3(points[j], points[i]), Sub3(points[k], points[i]));
    if Len3(normal, sqrt) < 0.0001 {
      return None;
    }
    var side, valid := ScanSide(points, i, j, k, normal);
    if valid && side != 0 {
      return Some(if side > 0 then [i, k, j] else [i, j, k]);
    }
    return None;
  }

  /** The inner `for l` loop with its early `break`. */
  method ScanSide(points: seq<Vec3>, i: nat, j: nat, k: nat, normal: Vec3) returns (side: int, valid: bool)
    requires i < |points|
    ensures ScanResult(valid, side) == Scan(points, i, j, k, normal, 0, 0)
  {
    side, valid := 0, true;
    var l := 0;
    while l < |points|
      invariant l <= |points|
      invariant Scan(points, i, j, k, normal, l, side) == Scan(points, i, j, k, normal, 0, 0)
    {
      if l == i || l == j || l == k {
        l := l + 1;
        continue;
      }
      var d := Dot3(Sub3(points[l], points[i]), normal);
      if Abs(d) < 0.001 {
        l := l + 1;
        continue;
      }
      var s := Sign(d);
      if side == 0 {
        side := s;
      } else if s != side {
        valid := false;
        break;
      }
      l := l + 1;
    }
  }

  // ---------------------------------------------------------------- what the side test decides

  /** Every point from `l` on that is off the plane has sign `s`. */
  predicate AllOnSide(points: seq<Vec3>, i: nat, j: nat, k: nat, normal: Vec3, l: nat, s: int)
    requires i < |points|
  {
    forall a :: l <= a < |points| && Off(points, i, j, k, normal, a) ==> Sign(Height(points, i, normal, a)) == s
  }

  /** The points from `l` on that are off the plane all have the same sign. */
  predicate OneSided(points: seq<Vec3>, i: nat, j: nat, k: nat, normal: Vec3, l: nat)
    requires i < |points|
  {
    forall a, b :: l <= a < |points| && l <= b < |points| && Off(points, i, j, k, normal, a) && Off(points, i, j, k, normal, b)
      ==> Sign(Height(points, i, normal, a)) == Sign(Height(points, i, normal, b))
  }

  predicate NoneOff(points: seq<Vec3>, i: nat, j: nat, k: nat, normal: Vec3, l: nat)
    requires i < |points|
  {
    forall a :: l <= a < |points| ==> !Off(points, i, j, k, normal, a)
  }

  /**
   * The scan from `l` succeeds iff the points it tests that are off the plane agree with the
   * side seen so far and with one another; it then reports their common side, or 0 when there
   * is none and none was seen.
   */
  lemma {:induction false} ScanSpec(points: seq<Vec3>, i: nat, j: nat, k: nat, normal: Vec3, l: nat, side: int)
    requires i < |points| && -1 <= side <= 1
    ensures var r := Scan(points, i, j, k, normal, l, side);
      && (r.valid <==> (side == 0 || AllOnSide(points, i, j, k, normal, l, side)) && OneSided(points, i, j, k, normal, l))
      && (r.valid && side != 0 ==> r.side == side)
      && (r.valid ==> (r.side == 0 <==> side == 0 && NoneOff(points, i, j, k, normal, l)))
      && (r.valid && r.side != 0 ==> AllOnSide(points, i, j, k, normal, l, r.side))
    decreases |points| - l
  {
    if l < |points| {
      var d := Height(points, i, normal, l);
      if l == i || l == j || l == k || Abs(d) < 0.001 {
        assert !Off(points, i, j, k, normal, l);
        ScanSpec(points, i, j, k, normal, l + 1, side);
      } else if side == 0 {
        assert Off(points, i, j, k, normal, l);
        ScanSpec(points, i, j, k, normal, l + 1, Sign(d));
      } else if Sign(d) != side {
        assert Off(points, i, j, k, normal, l);
      } else {
        assert Off(points, i, j, k, normal, l);
        ScanSpec(points, i, j, k, normal, l + 1, side);
      }
    }
  }

  /** Turning the triple round negates its normal. */
  lemma TriNormalSwap(points: seq<Vec3>, i: nat, j: nat, k: nat)
    requires i < |points| && j < |points| && k < |points|
    ensures TriNormal(points, i, k, j) == Scale3(TriNormal(points, i, j, k), -1.0)
  {
    CrossAntisymmetric(Sub3(points[j], points[i]), Sub3(points[k], points[i]));
  }

  lemma HeightNegated(points: seq<Vec3>, i: nat, normal: Vec3, l: nat)
    requires i < |points| && l < |points|
    ensures Height(points, i, Scale3(normal, -1.0), l) == -Height(points, i, normal, l)
  {
  }

  /** Every point other than corner `i`, `j`, `k` and off the plane lies strictly behind `face`. */
  predicate Behind(points: seq<Vec3>, i: nat, j: nat, k: nat, face: Vec3)
    requires i < |points|
  {
    forall a :: 0 <= a < |points| && a != i && a != j && a != k && Abs(Height(points, i, face, a)) >= 0.001
      ==> Height(points, i, face, a) < 0.0
  }

  /**
   * A triple is pushed iff its normal is not degenerate, some other point is off its plane,
   * and all such points lie on one side.  A pushed face is `[i, j, k]` or `[i, k, j]`, and
   * every other point off its plane lies strictly behind the pushed face's own normal.
   */
  lemma FacetProperties(points: seq<Vec3>, sqrt: real -> real, i: nat, j: nat, k: nat)
    requires i < j < k < |points|
    ensures var normal := TriNormal(points, i, j, k);
      Facet(points, sqrt, i, j, k).Some? <==>
        Len3(normal, sqrt) >= 0.0001 && !NoneOff(points, i, j, k, normal, 0) && OneSided(points, i, j, k, normal, 0)
    ensures Facet(points, sqrt, i, j, k).Some? ==>
      var t := Facet(points, sqrt, i, j, k).value;
      (t == [i, j, k] || t == [i, k, j])
      && Len3(TriNormal(points, i, j, k), sqrt) >= 0.0001
      && Behind(points, i, j, k, TriNormal(points, t[0], t[1], t[2]))
  {
    var normal := TriNormal(points, i, j, k);
    ScanSpec(points, i, j, k, normal, 0, 0);
    var r := Scan(points, i, j, k, normal, 0, 0);
    if Facet(points, sqrt, i, j, k).Some? {
      var t := Facet(points, sqrt, i, j, k).value;
      var face := TriNormal(points, t[0], t[1], t[2]);
      if r.side > 0 {
        TriNormalSwap(points, i, j, k);
        forall a | 0 <= a < |points| && a != i && a != j && a != k && Abs(Height(points, i, face, a)) >= 0.001
          ensures Height(points, i, face, a) < 0.0
        {
          HeightNegated(points, i, normal, a);
          assert Off(points, i, j, k, normal, a);
        }
      } else {
        forall a | 0 <= a < |points| && a != i && a != j && a != k && Abs(Height(points, i, face, a)) >= 0.001
          ensures Height(points, i, face, a) < 0.0
        {
          assert Off(points, i, j, k, normal, a);
        }
      }
    }
  }

  // ---------------------------------------------------------------- which triples are emitted

  /** A face in row `(i, j)` comes from some `k` in range. */
  lemma {:induction false} KsSound(facet: (nat, nat, nat) -> Option<seq<nat>>, i: nat, j: nat, end: nat, t: seq<nat>)
    returns (k: nat)
    requires t in Ks(facet, i, j, end)
    ensures j < k < end && facet(i, j, k) == Some(t)
  {
    var front := Ks(facet, i, j, end - 1);
    if t in front {
      k := KsSound(facet, i, j, end - 1, t);
    } else {
      k := end - 1;
    }
  }

  /** Every `k` in range whose triple gives a face contributes it to row `(i, j)`. */
  lemma {:induction false} KsComplete(facet: (nat, nat, nat) -> Option<seq<nat>>, i: nat, j: nat, end: nat, k: nat)
    requires j < k < end && facet(i, j, k).Some?
    ensures facet(i, j, k).value in Ks(facet, i, j, end)
  {
    var front, last := Ks(facet, i, j, end - 1), OptList(facet(i, j, end - 1));
    assert Ks(facet, i, j, end) == front + last;
    if k < end - 1 {
      KsComplete(facet, i, j, end - 1, k);
      InLeft(front, last, facet(i, j, k).value);
    } else {
      assert last == [facet(i, j, k).value];
      InRight(front, last, facet(i, j, k).value);
    }
  }

  lemma {:induction false} JsSound(facet: (nat, nat, nat) -> Option<seq<nat>>, n: nat, i: nat, end: nat, t: seq<nat>)
    returns (j: nat, k: nat)
    requires t in Js(facet, n, i, end)
    ensures i < j < end && j < k < n && facet(i, j, k) == Some(t)
  {
    if t in Js(facet, n, i, end - 1) {
      j, k := JsSound(facet, n, i, end - 1, t);
    } else {
      j := end - 1;
      k := KsSound(facet, i, j, n, t);
    }
  }

  lemma {:induction false} JsComplete(facet: (nat, nat, nat) -> Option<seq<nat>>, n: nat, i: nat, end: nat, j: nat, k: nat)
    requires i < j < end && j < k < n && facet(i, j, k).Some?
    ensures facet(i, j, k).value in Js(facet, n, i, end)
  {
    var front, row := Js(facet, n, i, end - 1), Ks(facet, i, end - 1, n);
    assert Js(facet, n, i, end) == front + row;
    if j < end - 1 {
      JsComplete(facet, n, i, end - 1, j, k);
      InLeft(front, row, facet(i, j, k).value);
    } else {
      KsComplete(facet, i, j, n, k);
      InRight(front, row, facet(i, j, k).value);
    }
  }

  lemma InLeft<T>(a: seq<T>, b: seq<T>, x: T)
    requires x in a
    ensures x in a + b
  {
  }

  lemma InRight<T>(a: seq<T>, b: seq<T>, x: T)
    requires x in b
    ensures x in a + b
  {
  }

  lemma {:induction false} IsSound(facet: (nat, nat, nat) -> Option<seq<nat>>, n: nat, end: nat, t: seq<nat>)
    returns (i: nat, j: nat, k: nat)
    requires t in Is(facet, n, end)
    ensures i < end && i < j < k < n && facet(i, j, k) == Some(t)
  {
    if t in Is(facet, n, end - 1) {
      i, j, k := IsSound(facet, n, end - 1, t);
    } else {
      i := end - 1;
      j, k := JsSound(facet, n, i, n, t);
    }
  }

  lemma {:induction false} IsComplete(facet: (nat, nat, nat) -> Option<seq<nat>>, n: nat, end: nat, i: nat, j: nat, k: nat)
    requires i < end && i < j < k < n && facet(i, j, k).Some?
    ensures facet(i, j, k).value in Is(facet, n, end)
  {
    var front, row := Is(facet, n, end - 1), Js(facet, n, end - 1, n);
    assert Is(facet, n, end) == front + row;
    if i < end - 1 {
      IsComplete(facet, n, end - 1, i, j, k);
      InLeft(front, row, facet(i, j, k).value);
    } else {
      JsComplete(facet, n, i, n, j, k);
      InRight(front, row, facet(i, j, k).value);
    }
  }

  /**
   * Fewer than three points give no face and exactly three give `[0, 1, 2]`, collinear or not;
   * from four points on, a triple is in the result exactly when the loop body pushes it.
   */
  lemma HullMembers(points: seq<Vec3>, sqrt: real -> real)
    ensures |points| < 3 ==> Hull(points, sqrt) == []
    ensures |points| == 3 ==> Hull(points, sqrt) == [[0, 1, 2]]
    ensures |points| > 3 ==> forall t :: t in Hull(points, sqrt) <==>
      exists i, j, k :: 0 <= i < j < k < |points| && Facet(points, sqrt, i, j, k) == Some(t)
  {
    if |points| > 3 {
      var f := Facets(points, sqrt);
      forall t ensures t in Hull(points, sqrt) <==>
        exists i, j, k :: 0 <= i < j < k < |points| && Facet(points, sqrt, i, j, k) == Some(t)
      {
        if t in Hull(points, sqrt) {
          var i, j, k := IsSound(f, |points|, |points|, t);
          assert Facet(points, sqrt, i, j, k) == Some(t);
        }
        if exists i, j, k :: 0 <= i < j < k < |points| && Facet(points, sqrt, i, j, k) == Some(t) {
          var i, j, k :| 0 <= i < j < k < |points| && Facet(points, sqrt, i, j, k) == Some(t);
          assert f(i, j, k) == Some(t);
          IsComplete(f, |points|, |points|, i, j, k);
        }
      }
    }
  }
}

/**
 * Planar polygon metrics shared by the 4-D slice analysis and the 3-D cross-section
 * analysis: the cyclic shoelace sum, sums of side lengths and the "every side within a
 * fraction of the mean" regularity test.
 */
module Polygon2D {
  import opened RealMath

  /** A point of the cutting plane's own 2-D coordinate system. */
  datatype P2 = P2(x: real, y: real)

  /** `(i + 1) % n`: the next vertex, wrapping round to the first. */
  function Next(i: nat, n: nat): (j: nat)
    requires i < n
    ensures j < n
    ensures j == if i == n - 1 then 0 else i + 1
  {
    (i + 1) % n
  }

  /** `p[i].x · p[j].y − p[j].x · p[i].y` for the side from `i` to the next vertex. */
  function ShoelaceTerm(pts: seq<P2>, i: nat): real
    requires i < |pts|
  {
    var j := Next(i, |pts|);
    pts[i].x * pts[j].y - pts[j].x * pts[i].y
  }

  /** The running `area` accumulator after the first `k` sides. */
  function ShoelaceSum(pts: seq<P2>, k: nat): real
    requires k <= |pts|
  {
    if k == 0 then 0.0 else ShoelaceSum(pts, k - 1) + ShoelaceTerm(pts, k - 1)
  }

  /** `Math.abs(area) / 2`. */
  function ShoelaceArea(pts: seq<P2>): (a: real)
    ensures 0.0 <= a
  {
    Abs(ShoelaceSum(pts, |pts|)) / 2.0
  }

  /** The sums of the x and of the y coordinates. */
  function SumX(pts: seq<P2>): real
  {
    if |pts| == 0 then 0.0 else SumX(pts[..|pts| - 1]) + pts[|pts| - 1].x
  }

  function SumY(pts: seq<P2>): real
  {
    if |pts| == 0 then 0.0 else SumY(pts[..|pts| - 1]) + pts[|pts| - 1].y
  }

  /** The running sum of the first `k` entries. */
  function SumTo(s: seq<real>, k: nat): real
    requires k <= |s|
  {
    if k == 0 then 0.0 else SumTo(s, k - 1) + s[k - 1]
  }

  function Sum(s: seq<real>): real
  {
    SumTo(s, |s|)
  }

  /** `sideLengths.every(l => Math.abs(l − avg) < avg · tol)`. */
  predicate AllWithin(sides: seq<real>, avg: real, tol: real)
  {
    forall i :: 0 <= i < |sides| ==> Abs(sides[i] - avg) < avg * tol
  }

  /** The shoelace loop: `area += p[i].x · p[j].y − p[j].x · p[i].y` over the n sides. */
  method ShoelaceLoop(pts: seq<P2>) returns (area: real)
    ensures area == ShoelaceSum(pts, |pts|)
  {
    var n := |pts|;
    area := 0.0;
    var i := 0;
    while i < n
      invariant i <= n
      invariant area == ShoelaceSum(pts, i)
    {
      var j := (i + 1) % n;
      area := area + (pts[i].x * pts[j].y - pts[j].x * pts[i].y);
      i := i + 1;
    }
  }

  // ---------------------------------------------------------------- facts

  /** A sum of non-negative lengths is non-negative. */
  lemma {:induction false} SumNonNegative(s: seq<real>, k: nat)
    requires k <= |s|
    requires forall i :: 0 <= i < |s| ==> 0.0 <= s[i]
    ensures 0.0 <= SumTo(s, k)
  {
    if k > 0 {
      SumNonNegative(s, k - 1);
    }
  }

  /** `k` equal entries sum to `k` times that entry. */
  lemma {:induction false} SumConstant(s: seq<real>, k: nat, l: real)
    requires k <= |s|
    requires forall i :: 0 <= i < |s| ==> s[i] == l
    ensures SumTo(s, k) == k as real * l
  {
    if k > 0 {
      SumConstant(s, k - 1, l);
      var m := (k - 1) as real;
      assert SumTo(s, k) == m * l + s[k - 1];
      MulStep(m, l, k as real);
    }
  }

  lemma MulStep(m: real, l: real, n: real)
    requires n == m + 1.0
    ensures m * l + l == n * l
  {
  }

  /** Equal positive sides pass the regularity test for every positive tolerance. */
  lemma EqualSidesAreRegular(sides: seq<real>, l: real, tol: real)
    requires |sides| > 0 && 0.0 < l && 0.0 < tol
    requires forall i :: 0 <= i < |sides| ==> sides[i] == l
    ensures AllWithin(sides, Sum(sides) / |sides| as real, tol)
  {
    SumConstant(sides, |sides|, l);
    var n := |sides| as real;
    assert Sum(sides) / n == l;
    assert 0.0 < l * tol;
  }

  /** The points moved by `(a, b)`. */
  function Translate(pts: seq<P2>, a: real, b: real): (r: seq<P2>)
    ensures |r| == |pts|
    ensures forall i :: 0 <= i < |pts| ==> r[i] == P2(pts[i].x + a, pts[i].y + b)
  {
    seq(|pts|, i requires 0 <= i < |pts| => P2(pts[i].x + a, pts[i].y + b))
  }

  /** What moving by `(a, b)` adds to the shoelace terms of a walk from `p` to `r`. */
  function Twist(a: real, b: real, p: P2, r: P2): real
  {
    a * (r.y - p.y) - b * (r.x - p.x)
  }

  lemma TwistAdd(a: real, b: real, p: P2, q: P2, r: P2)
    ensures Twist(a, b, p, q) + Twist(a, b, q, r) == Twist(a, b, p, r)
  {
  }

  lemma TwistBack(a: real, b: real, p: P2, r: P2)
    ensures Twist(a, b, p, r) + Twist(a, b, r, p) == 0.0
  {
  }

  /** How one shoelace term changes when the polygon is moved by `(a, b)`. */
  lemma TranslateTerm(pts: seq<P2>, a: real, b: real, i: nat)
    requires i < |pts|
    ensures ShoelaceTerm(Translate(pts, a, b), i) == ShoelaceTerm(pts, i) + Twist(a, b, pts[i], pts[Next(i, |pts|)])
  {
    var j := Next(i, |pts|);
    var q := Translate(pts, a, b);
    TermShift(pts[i].x, pts[i].y, pts[j].x, pts[j].y, a, b);
  }

  lemma TermShift(xi: real, yi: real, xj: real, yj: real, a: real, b: real)
    ensures (xi + a) * (yj + b) - (xj + a) * (yi + b) == xi * yj - xj * yi + Twist(a, b, P2(xi, yi), P2(xj, yj))
  {
    assert (xi + a) * (yj + b) == xi * yj + xi * b + a * yj + a * b;
    assert (xj + a) * (yi + b) == xj * yi + xj * b + a * yi + a * b;
  }

  /** Before the closing side the change telescopes to the last point against the first. */
  lemma {:induction false} TranslatePartial(pts: seq<P2>, a: real, b: real, k: nat)
    requires 0 < k < |pts|
    ensures ShoelaceSum(Translate(pts, a, b), k) == ShoelaceSum(pts, k) + Twist(a, b, pts[0], pts[k])
  {
    TranslateTerm(pts, a, b, k - 1);
    assert Next(k - 1, |pts|) == k;
    if k > 1 {
      TranslatePartial(pts, a, b, k - 1);
      TwistAdd(a, b, pts[0], pts[k - 1], pts[k]);
    }
  }

  /** Moving the polygon does not change the shoelace sum, hence not its area. */
  lemma TranslationInvariant(pts: seq<P2>, a: real, b: real)
    ensures ShoelaceSum(Translate(pts, a, b), |pts|) == ShoelaceSum(pts, |pts|)
    ensures ShoelaceArea(Translate(pts, a, b)) == ShoelaceArea(pts)
  {
    var n := |pts|;
    if n == 1 {
      TranslateTerm(pts, a, b, 0);
      TwistBack(a, b, pts[0], pts[0]);
    } else if n > 1 {
      TranslatePartial(pts, a, b, n - 1);
      TranslateTerm(pts, a, b, n - 1);
      assert Next(n - 1, n) == 0;
      TwistBack(a, b, pts[0], pts[n - 1]);
    }
  }
}

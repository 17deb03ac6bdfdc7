/**
 * `analyzeSlice`: the slice's points in the hyperplane's own coordinates (first two basis
 * vectors), ordered by angle about their centroid, with the shoelace area, the perimeter,
 * the 5 % regularity test and the Spanish polygon name.
 */
module SliceAnalysis {
  import opened Wrappers
  import opened RealMath
  import opened Vectors
  import opened Polygon2D
  import opened KeySort
  import opened NumberText
  import opened Slicer
  import opened HyperplaneBasis
  import opened PolytopeBuilders

  /** The object `analyzeSlice` returns. */
  datatype Analysis = Analysis(vertices: nat, area: real, perimeter: real, shapeName: string, isRegular: bool)

  /** `rel = p − normal · offset`, then `[dot4(rel, b0), dot4(rel, b1)]`. */
  function Project(p: Vec4, normal: Vec4, offset: real, b0: Vec4, b1: Vec4): P2
  {
    var rel := Sub4(p, Scale4(normal, offset));
    P2(Dot4(rel, b0), Dot4(rel, b1))
  }

  function Points2D(pts: seq<Vec4>, normal: Vec4, offset: real, b0: Vec4, b1: Vec4): (r: seq<P2>)
    ensures |r| == |pts|
    ensures forall i :: 0 <= i < |pts| ==> r[i] == Project(pts[i], normal, offset, b0, b1)
  {
    seq(|pts|, i requires 0 <= i < |pts| => Project(pts[i], normal, offset, b0, b1))
  }

  /** `(cx, cy)`. */
  function Centroid(pts: seq<P2>): P2
    requires |pts| > 0
  {
    P2(SumX(pts) / |pts| as real, SumY(pts) / |pts| as real)
  }

  /** The sort key `Math.atan2(p[1] − cy, p[0] − cx)`. */
  function AngleKey(c: P2, atan2: (real, real) -> real): P2 -> real
  {
    (p: P2) => atan2(p.y - c.y, p.x - c.x)
  }

  /** `dx · dx + dy · dy`. */
  function SquaredLength(dx: real, dy: real): (r: real)
    ensures 0.0 <= r
  {
    assert dx * dx == Sq(dx) && dy * dy == Sq(dy);
    dx * dx + dy * dy
  }

  /** `Math.sqrt(dx² + dy²)` for the side from vertex `i` to the next. */
  function SideLength(pts: seq<P2>, i: nat, sqrt: real -> real): real
    requires i < |pts|
  {
    var j := Next(i, |pts|);
    sqrt(SquaredLength(pts[j].x - pts[i].x, pts[j].y - pts[i].y))
  }

  function SideLengths(pts: seq<P2>, sqrt: real -> real): (r: seq<real>)
    ensures |r| == |pts|
    ensures forall i :: 0 <= i < |pts| ==> r[i] == SideLength(pts, i, sqrt)
  {
    seq(|pts|, i requires 0 <= i < |pts| => SideLength(pts, i, sqrt))
  }

  /** `names[n] || `${n}-gono``, plus " regular" for a regular slice. */
  function ShapeName(n: nat, isRegular: bool): string
  {
    var base :=
      if n == 3 then "Triángulo"
      else if n == 4 then "Cuadrilátero"
      else if n == 5 then "Pentágono"
      else if n == 6 then "Hexágono"
      else if n == 8 then "Octágono"
      else if n == 10 then "Decágono"
      else if n == 12 then "Dodecágono"
      else NatToString(n) + "-gono";
    if isRegular then base + " regular" else base
  }

  /** `analyzeSlice` reads `basis[0]` and `basis[1]`; with fewer vectors it throws. */
  predicate BasisDefined(slice: Option<SliceResult>, sqrt: real -> real)
  {
    slice.Some? && |slice.value.points4D| >= 3 ==> |OrthonormalBasis(slice.value.normal, sqrt)| >= 2
  }

  /**
   * Every slice `computeSlice` returns, for any cut type, has a normal whose hyperplane basis
   * holds three vectors, so `analyzeSlice` can always read `basis[0]` and `basis[1]`.
   */
  lemma SliceBasisDefined(p: Polytope, cutType: string, position: real, key: Vec4 -> string, sqrt: real -> real)
    requires NormalDefined(p, cutType) && EdgesIndex(p) && IsSqrt(sqrt)
    ensures |OrthonormalBasis(SliceNormal(p, cutType, sqrt), sqrt)| == 3
    ensures BasisDefined(Slice(p, SliceNormal(p, cutType, sqrt), position, key), sqrt)
  {
    SliceNormalProperties(p, cutType, sqrt);
    OrthonormalBasisProperties(SliceNormal(p, cutType, sqrt), sqrt);
  }

  /** The ordered 2-D polygon of a slice. */
  function SortedPolygon(s: SliceResult, basis: seq<Vec4>, atan2: (real, real) -> real): seq<P2>
    requires |basis| >= 2 && |s.points4D| > 0
  {
    var pts := Points2D(s.points4D, s.normal, s.offset, basis[0], basis[1]);
    SortBy(pts, AngleKey(Centroid(pts), atan2))
  }

  function Analyze(slice: Option<SliceResult>, sqrt: real -> real, atan2: (real, real) -> real): Option<Analysis>
    requires BasisDefined(slice, sqrt)
  {
    if slice.None? || |slice.value.points4D| < 3 then None
    else
      var s := slice.value;
      Some(Describe(SortedPolygon(s, OrthonormalBasis(s.normal, sqrt), atan2), sqrt))
  }

  /** The numbers and the name for an ordered polygon. */
  function Describe(sorted: seq<P2>, sqrt: real -> real): Analysis
    requires |sorted| > 0
  {
    var n := |sorted|;
    var sides := SideLengths(sorted, sqrt);
    var perimeter := Sum(sides);
    var isRegular := AllWithin(sides, perimeter / n as real, 0.05);
    Analysis(n, ShoelaceArea(sorted), perimeter, ShapeName(n, isRegular), isRegular)
  }

  method AnalyzeSlice(slice: Option<SliceResult>, sqrt: real -> real, atan2: (real, real) -> real)
    returns (r: Option<Analysis>)
    requires BasisDefined(slice, sqrt)
    ensures r == Analyze(slice, sqrt, atan2)
  {
    if slice.None? || |slice.value.points4D| < 3 {
      return None;
    }
    var s := slice.value;
    var basis := OrthonormalBasis4(s.normal, sqrt);
    var points2D := Points2D(s.points4D, s.normal, s.offset, basis[0], basis[1]);
    var n := |points2D|;
    var sorted := SortBy(points2D, AngleKey(Centroid(points2D), atan2));
    assert sorted == SortedPolygon(s, basis, atan2);
    var area := ShoelaceLoop(sorted);
    area := Abs(area) / 2.0;
    var perimeter, sideLengths := PerimeterLoop(sorted, sqrt);
    var avgSide := perimeter / n as real;
    var isRegular := AllWithin(sideLengths, avgSide, 0.05);
    var shapeName := ShapeName(n, isRegular);
    assert Analysis(n, area, perimeter, shapeName, isRegular) == Describe(sorted, sqrt);
    return Some(Analysis(n, area, perimeter, shapeName, isRegular));
  }

  /** The perimeter loop, which also pushes each side length. */
  method PerimeterLoop(sorted: seq<P2>, sqrt: real -> real) returns (perimeter: real, sideLengths: seq<real>)
    ensures sideLengths == SideLengths(sorted, sqrt)
    ensures perimeter == Sum(sideLengths)
  {
    var n := |sorted|;
    perimeter := 0.0;
    sideLengths := [];
    var i := 0;
    while i < n
      invariant i <= n
      invariant sideLengths == SideLengths(sorted, sqrt)[..i]
      invariant perimeter == SumTo(SideLengths(sorted, sqrt), i)
    {
      var len := SideOf(sorted, i, sqrt);
      PerimeterStep(sorted, sqrt, i);
      sideLengths := sideLengths + [len];
      perimeter := perimeter + len;
      i := i + 1;
    }
    assert sideLengths == SideLengths(sorted, sqrt);
  }

  /** One pass of the loop body: `Math.sqrt(dx * dx + dy * dy)` for side `i`. */
  method SideOf(sorted: seq<P2>, i: nat, sqrt: real -> real) returns (len: real)
    requires i < |sorted|
    ensures len == SideLength(sorted, i, sqrt)
  {
    var j := (i + 1) % |sorted|;
    var dx := sorted[j].x - sorted[i].x;
    var dy := sorted[j].y - sorted[i].y;
    len := sqrt(dx * dx + dy * dy);
    assert dx * dx + dy * dy == SquaredLength(dx, dy);
  }

  /** One more side: the prefix and its sum grow by side `i`. */
  lemma PerimeterStep(sorted: seq<P2>, sqrt: real -> real, i: nat)
    requires i < |sorted|
    ensures var sides := SideLengths(sorted, sqrt);
      sides[..i + 1] == sides[..i] + [SideLength(sorted, i, sqrt)]
      && SumTo(sides, i + 1) == SumTo(sides, i) + SideLength(sorted, i, sqrt)
  {
    var sides := SideLengths(sorted, sqrt);
    assert sides[..i + 1] == sides[..i] + [sides[i]];
  }

  // ---------------------------------------------------------------- what the analysis states

  /**
   * `null` exactly for a missing slice or fewer than three points.  Otherwise the polygon
   * described is the slice's points in the hyperplane's coordinates, reordered by angle
   * about their centroid.
   */
  lemma AnalyzeProperties(slice: Option<SliceResult>, sqrt: real -> real, atan2: (real, real) -> real)
    requires BasisDefined(slice, sqrt)
    ensures Analyze(slice, sqrt, atan2).None? <==> slice.None? || |slice.value.points4D| < 3
    ensures Analyze(slice, sqrt, atan2).Some? ==>
      var s := slice.value;
      var basis := OrthonormalBasis(s.normal, sqrt);
      var pts := Points2D(s.points4D, s.normal, s.offset, basis[0], basis[1]);
      var sorted := SortedPolygon(s, basis, atan2);
      Analyze(slice, sqrt, atan2).value == Describe(sorted, sqrt) && |sorted| == |s.points4D|
      && multiset(sorted) == multiset(pts) && SortedBy(sorted, AngleKey(Centroid(pts), atan2))
  {
    if slice.Some? && |slice.value.points4D| >= 3 {
      var s := slice.value;
      var basis := OrthonormalBasis(s.normal, sqrt);
      var pts := Points2D(s.points4D, s.normal, s.offset, basis[0], basis[1]);
      SortBySorted(pts, AngleKey(Centroid(pts), atan2));
    }
  }

  /**
   * `vertices` counts the points, `area` is half the absolute shoelace sum and never negative,
   * `perimeter` adds the n cyclic sides (never negative for a true square root), and
   * `isRegular` holds exactly when every side is within 5 % of their mean.
   */
  lemma DescribeProperties(sorted: seq<P2>, sqrt: real -> real)
    requires |sorted| > 0
    ensures var a := Describe(sorted, sqrt);
      a.vertices == |sorted| && a.area == ShoelaceArea(sorted) && 0.0 <= a.area
      && a.perimeter == Sum(SideLengths(sorted, sqrt))
      && a.shapeName == ShapeName(a.vertices, a.isRegular)
      && (IsSqrt(sqrt) ==> 0.0 <= a.perimeter)
    ensures var a := Describe(sorted, sqrt);
      a.isRegular <==> forall i :: 0 <= i < |sorted| ==>
        Abs(SideLength(sorted, i, sqrt) - a.perimeter / a.vertices as real) < a.perimeter / a.vertices as real * 0.05
  {
    var sides := SideLengths(sorted, sqrt);
    if IsSqrt(sqrt) {
      SumNonNegative(sides, |sides|);
    }
  }

  /** A slice polygon whose sides all have the same positive length is reported regular. */
  lemma EqualSidesDescribedRegular(sorted: seq<P2>, sqrt: real -> real, l: real)
    requires |sorted| > 0 && 0.0 < l
    requires forall i :: 0 <= i < |sorted| ==> SideLength(sorted, i, sqrt) == l
    ensures Describe(sorted, sqrt).isRegular
    ensures HasSuffix(Describe(sorted, sqrt).shapeName, " regular")
  {
    EqualSidesAreRegular(SideLengths(sorted, sqrt), l, 0.05);
    ShapeNameProperties(|sorted|, true);
  }

  /**
   * The table names triangles to hexagons, octagons, decagons and dodecagons; any other
   * count gives "n-gono", which tells different counts apart; " regular" is appended
   * exactly for a regular polygon.
   */
  lemma ShapeNameProperties(n: nat, isRegular: bool)
    ensures n == 3 ==> ShapeName(n, false) == "Triángulo"
    ensures n == 4 ==> ShapeName(n, false) == "Cuadrilátero"
    ensures n == 5 ==> ShapeName(n, false) == "Pentágono"
    ensures n == 6 ==> ShapeName(n, false) == "Hexágono"
    ensures n == 8 ==> ShapeName(n, false) == "Octágono"
    ensures n == 10 ==> ShapeName(n, false) == "Decágono"
    ensures n == 12 ==> ShapeName(n, false) == "Dodecágono"
    ensures n !in {3, 4, 5, 6, 8, 10, 12} ==> ShapeName(n, false) == NatToString(n) + "-gono"
    ensures ShapeName(n, true) == ShapeName(n, false) + " regular"
    ensures isRegular <==> HasSuffix(ShapeName(n, isRegular), " regular")
  {
    var base := ShapeName(n, false);
    if isRegular {
      assert ShapeName(n, isRegular)[|ShapeName(n, isRegular)| - 8..] == " regular";
    } else if |base| >= 8 {
      if n !in {3, 4, 5, 6, 8, 10, 12} {
        assert base[|base| - 1] == 'o' != 'r';
      }
    }
  }

  /** Two counts outside the table never share a name. */
  lemma FallbackNamesDistinct(m: nat, n: nat)
    requires m !in {3, 4, 5, 6, 8, 10, 12} && n !in {3, 4, 5, 6, 8, 10, 12}
    requires ShapeName(m, false) == ShapeName(n, false)
    ensures m == n
  {
    var a, b := NatToString(m), NatToString(n);
    assert a + "-gono" == b + "-gono";
    assert a == (a + "-gono")[..|a + "-gono"| - 5];
    assert b == (b + "-gono")[..|b + "-gono"| - 5];
    NatToStringInjective(m, n);
  }
}

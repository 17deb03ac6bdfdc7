/**
 * The older 4-D polytope engine: its builders return only `{ vertices, edges }` (no cells).
 * The 5-cell, tesseract and 16-cell builders run the same loops as the newer engine; the
 * 24-cell builder concatenates the eight axis vectors with the 24 two-entry vectors and
 * deduplicates by a rounded key; `findEdges4D` joins pairs closer than 1.05 times the
 * least distance found among the first 50 vertices.
 */
module Platonic4D {
  import opened Wrappers
  import opened RealMath
  import opened Vectors
  import opened PairLoops
  import opened PolytopeBuilders
  import opened SixteenCell
  import opened MinSearch
  import T24 = TwentyFourCell
  import D = Dedup
  import SixHundredCell

  /** `{ vertices, edges }`. */
  datatype Mesh = Mesh(vertices: seq<Vec4>, edges: seq<Edge>)

  // ---------------------------------------------------------------- 5-cell, tesseract, 16-cell

  /** `build5Cell`: the normalised simplex and every pair `i < j < 5`. */
  method Build5Cell(sqrt: real -> real) returns (m: Mesh)
    requires IsSqrt(sqrt)
    ensures m == Mesh(FiveCellVertices(sqrt), FilterPairs(5, AnyPair()))
  {
    var verts := FiveCellVertices(sqrt);
    var edges := CollectPairs(5, AnyPair());
    m := Mesh(verts, edges);
  }

  /** The 5-cell mesh has 5 vertices and its 10 edges are all the pairs `i < j < 5`. */
  lemma FiveCellMesh(sqrt: real -> real)
    requires IsSqrt(sqrt)
    ensures |FiveCellVertices(sqrt)| == 5
    ensures forall e :: e in FilterPairs(5, AnyPair()) <==> e.0 < e.1 < 5
    ensures |FilterPairs(5, AnyPair())| == 10
  {
    FilterPairsMembers(5, AnyPair());
    AllPairsCount(5);
  }

  /** `buildTesseract`: the 16 half-unit sign vectors, edges where one coordinate differs. */
  method BuildTesseract() returns (m: Mesh)
    ensures m == Mesh(TessVertices(), TessEdges())
  {
    var verts := TesseractVertexLoops();
    var edges := TesseractEdgeLoops(verts);
    m := Mesh(verts, edges);
  }

  /** The tesseract mesh: 16 vertices, 32 edges, exactly the index pairs one bit apart. */
  lemma TesseractMesh()
    ensures |TessVertices()| == 16
    ensures forall e :: e in TessEdges() <==> e.0 < e.1 < 16 && Hamming(e.0, e.1, 4) == 1
    ensures |TessEdges()| == 32
  {
    TesseractEdgesHamming();
    TesseractEdgeCount();
  }

  /** `build16Cell`: the 8 unit axis vectors, edges at distance below 1.5. */
  method Build16Cell(sqrt: real -> real) returns (m: Mesh)
    ensures m == Mesh(SixteenVertices(), FilterPairs(8, CloseKeep(SixteenVertices(), sqrt)))
  {
    var verts := SixteenVertexLoops();
    var edges := CollectPairs(8, CloseKeep(verts, sqrt));
    m := Mesh(verts, edges);
  }

  /** The 16-cell mesh: 24 edges, every pair except the four antipodal ones. */
  lemma SixteenCellMesh(sqrt: real -> real)
    requires IsSqrt(sqrt)
    ensures |SixteenVertices()| == 8
    ensures forall e :: e in FilterPairs(8, CloseKeep(SixteenVertices(), sqrt)) <==>
      e.0 < e.1 < 8 && e.0 / 2 != e.1 / 2
    ensures |FilterPairs(8, CloseKeep(SixteenVertices(), sqrt))| == 24
  {
    SixteenEdges(sqrt);
  }

  // ---------------------------------------------------------------- 24-cell

  /** Entries `-1, +1` of the sign loops `for (const s of [-1, 1])`, as integers. */
  function SignOf(s: nat): int
  {
    if s == 0 then -1 else 1
  }

  /**
   * Coordinate `k` of the `m`-th vector of the pair loops `for i < j, for si, for sj`:
   * `m = 4p + 2a + b` for pair `p`, with `SignOf(a)` on its first axis and `SignOf(b)` on
   * its second.
   */
  function PairCoord(m: nat, k: nat): int
    requires m < 24
  {
    var pair := T24.Pairs[m / 4];
    if k == pair.0 then SignOf((m % 4) / 2)
    else if k == pair.1 then SignOf(m % 2)
    else 0
  }

  /** Coordinate `k` of the `m`-th of the 32 raw points: 8 axis vectors, then the pair loops. */
  function RawCoord(m: nat, k: nat): int
    requires m < 32
  {
    if m < 8 then (if k == m / 2 then SignOf(m % 2) else 0) else PairCoord(m - 8, k)
  }

  function RawPoint(m: nat): Vec4
    requires m < 32
  {
    [RawCoord(m, 0) as real, RawCoord(m, 1) as real, RawCoord(m, 2) as real, RawCoord(m, 3) as real]
  }

  /** The 24 vectors of the pair loops. */
  function PairPoints(): seq<Vec4>
  {
    seq(24, m requires 0 <= m < 24 => RawPoint(m + 8))
  }

  /** `verts` before deduplication: the 16-cell's vertices followed by the pair vectors. */
  function RawPoints(): seq<Vec4>
  {
    SixteenVertices() + PairPoints()
  }

  /** The edge test `d > 0.1 && d < Math.sqrt(2) * 1.01`. */
  function NearKeep(verts: seq<Vec4>, sqrt: real -> real): (nat, nat) -> bool
  {
    (i: nat, j: nat) => i < |verts| && j < |verts|
      && 0.1 < Dist4(verts[i], verts[j], sqrt) < sqrt(2.0) * 1.01
  }

  /** The mesh `build24Cell` returns, for the 4-decimal key `key`. */
  function TwentyFourMesh(sqrt: real -> real, key: Vec4 -> string): Mesh
  {
    var unique := D.Dedup4(RawPoints(), key);
    Mesh(unique, FilterPairs(|unique|, NearKeep(unique, sqrt)))
  }

  /** `build24Cell` as written. */
  method Build24Cell(sqrt: real -> real, key: Vec4 -> string) returns (m: Mesh)
    ensures m == TwentyFourMesh(sqrt, key)
  {
    var axis := SixteenVertexLoops();
    var pairs := PairSignLoops();
    var verts := axis + pairs;
    var unique := D.Dedup4Loop(verts, key);
    var edges := CollectPairs(|unique|, NearKeep(unique, sqrt));
    m := Mesh(unique, edges);
  }

  /** The loop index `p` of the pair `(i, i + 1)`: the pairs of smaller first axes come first. */
  function PairBase(i: nat): nat
  {
    if i == 0 then 0 else if i == 1 then 3 else if i == 2 then 5 else 6
  }

  lemma PairAt(i: nat, j: nat)
    requires i < j < 4
    ensures PairBase(i) + (j - i - 1) < 6
    ensures T24.Pairs[PairBase(i) + (j - i - 1)] == (i, j)
  {
  }

  lemma PairDigits(m: nat, p: nat, a: nat, b: nat)
    requires p < 6 && a < 2 && b < 2 && m == 4 * p + 2 * a + b
    ensures m < 24 && m / 4 == p && (m % 4) / 2 == a && m % 2 == b
  {
  }

  /** `for (i < 4) for (j = i + 1 < 4) for (si of [-1, 1]) for (sj of [-1, 1])`. */
  method PairSignLoops() returns (verts: seq<Vec4>)
    ensures verts == PairPoints()
  {
    verts := [];
    var i := 0;
    while i < 4
      invariant i <= 4
      invariant |verts| == 4 * PairBase(i)
      invariant forall m :: 0 <= m < |verts| ==> verts[m] == RawPoint(m + 8)
    {
      var j := i + 1;
      while j < 4
        invariant i + 1 <= j <= 4
        invariant |verts| == 4 * (PairBase(i) + (j - i - 1))
        invariant forall m :: 0 <= m < |verts| ==> verts[m] == RawPoint(m + 8)
      {
        PairAt(i, j);
        ghost var p := PairBase(i) + (j - i - 1);
        var a := 0;
        while a < 2
          invariant a <= 2
          invariant |verts| == 4 * p + 2 * a
          invariant forall m :: 0 <= m < |verts| ==> verts[m] == RawPoint(m + 8)
        {
          var b := 0;
          while b < 2
            invariant b <= 2
            invariant |verts| == 4 * p + 2 * a + b
            invariant forall m :: 0 <= m < |verts| ==> verts[m] == RawPoint(m + 8)
          {
            var v := [0.0, 0.0, 0.0, 0.0];
            v := v[i := SignOf(a) as real];
            v := v[j := SignOf(b) as real];
            PairDigits(|verts|, p, a, b);
            Equal4(v, RawPoint(|verts| + 8));
            verts := verts + [v];
            b := b + 1;
          }
          a := a + 1;
        }
        j := j + 1;
      }
      assert PairBase(i) + (4 - i - 1) == PairBase(i + 1);
      i := i + 1;
    }
    assert verts == PairPoints();
  }

  /** The raw list is the integer points `RawPoint(0), ..., RawPoint(31)`. */
  lemma RawPointsAre(m: nat)
    requires m < 32
    ensures |RawPoints()| == 32
    ensures RawPoints()[m] == RawPoint(m)
  {
    if m < 8 {
      assert RawPoints()[m] == SixteenVertex(m);
      Equal4(SixteenVertex(m), RawPoint(m));
    } else {
      assert RawPoints()[m] == PairPoints()[m - 8];
    }
  }

  /** The pair vectors are the newer engine's 24-cell vertices with both signs flipped in order. */
  function Flip(m: nat): nat
    requires m < 24
  {
    4 * (m / 4) + (3 - m % 4)
  }

  lemma FlipInvolution(m: nat)
    requires m < 24
    ensures Flip(m) < 24 && Flip(Flip(m)) == m
  {
    var q, r := m / 4, m % 4;
    var f := 4 * q + (3 - r);
    assert f / 4 == q && f % 4 == 3 - r;
  }

  lemma FlipCoord(m: nat, k: nat)
    requires m < 24
    ensures Flip(m) < 24
    ensures PairCoord(m, k) == T24.Coord(Flip(m), k)
  {
    var f := Flip(m);
    assert f / 4 == m / 4 && (f % 4) / 2 == 1 - (m % 4) / 2 && f % 2 == 1 - m % 2;
  }

  /** An axis vector is nonzero only on its axis. */
  lemma AxisSupport(m: nat, k: nat)
    requires m < 8 && k < 4
    ensures RawCoord(m, k) != 0 <==> k == m / 2
  {
  }

  /** A pair vector is nonzero exactly on the two axes of its pair. */
  lemma PairSupport(m: nat, k: nat)
    requires 8 <= m < 32 && k < 4
    ensures T24.Pairs[(m - 8) / 4].0 < T24.Pairs[(m - 8) / 4].1 < 4
    ensures RawCoord(m, k) != 0 <==> k == T24.Pairs[(m - 8) / 4].0 || k == T24.Pairs[(m - 8) / 4].1
  {
  }

  /** Equal integer coordinates mean the same raw index. */
  lemma RawInjective(m: nat, n: nat)
    requires m < 32 && n < 32
    requires forall k :: 0 <= k < 4 ==> RawCoord(m, k) == RawCoord(n, k)
    ensures m == n
  {
    if m < 8 && n < 8 {
      AxisSupport(m, m / 2);
      AxisSupport(n, m / 2);
      assert RawCoord(m, m / 2) == RawCoord(n, m / 2);
    } else if m >= 8 && n >= 8 {
      PairInjective(m, n);
    } else if m < 8 {
      AxisIsNoPair(m, n);
    } else {
      AxisIsNoPair(n, m);
    }
  }

  lemma PairInjective(m: nat, n: nat)
    requires 8 <= m < 32 && 8 <= n < 32
    requires forall k :: 0 <= k < 4 ==> RawCoord(m, k) == RawCoord(n, k)
    ensures m == n
  {
    var fm, fn := Flip(m - 8), Flip(n - 8);
    FlippedCoordsAgree(m, n, fm, fn);
    T24.CoordInjective(fm, fn);
    FlipInvolution(m - 8);
    FlipInvolution(n - 8);
  }

  lemma FlippedCoordsAgree(m: nat, n: nat, fm: nat, fn: nat)
    requires 8 <= m < 32 && 8 <= n < 32 && fm == Flip(m - 8) && fn == Flip(n - 8)
    requires forall k :: 0 <= k < 4 ==> RawCoord(m, k) == RawCoord(n, k)
    ensures fm < 24 && fn < 24
    ensures forall k :: 0 <= k < 4 ==> T24.Coord(fm, k) == T24.Coord(fn, k)
  {
    FlipInvolution(m - 8);
    FlipInvolution(n - 8);
    forall k | 0 <= k < 4
      ensures T24.Coord(fm, k) == T24.Coord(fn, k)
    {
      FlipCoord(m - 8, k);
      FlipCoord(n - 8, k);
      assert RawCoord(m, k) == RawCoord(n, k);
    }
  }

  /** An axis vector and a pair vector differ on one of the pair's axes. */
  lemma AxisIsNoPair(a: nat, p: nat)
    requires a < 8 && 8 <= p < 32
    ensures exists k :: 0 <= k < 4 && RawCoord(a, k) != RawCoord(p, k)
  {
    var pair := T24.Pairs[(p - 8) / 4];
    PairSupport(p, pair.0);
    PairSupport(p, pair.1);
    AxisSupport(a, pair.0);
    AxisSupport(a, pair.1);
    if RawCoord(a, pair.0) == RawCoord(p, pair.0) {
      assert RawCoord(a, pair.1) != RawCoord(p, pair.1);
    }
  }

  /** Two integers less than 1 apart are equal. */
  lemma IntClose(x: int, y: int, eps: real)
    requires eps <= 1.0 && Abs(x as real - y as real) < eps
    ensures x == y
  {
  }

  /**
   * Under a key that only confuses points less than `eps <= 1` apart on every axis, the 32
   * raw points have 32 different keys.
   */
  lemma RawKeysDistinct(key: Vec4 -> string, eps: real, p: nat, q: nat)
    requires SixHundredCell.KeyRounds(key, eps) && eps <= 1.0
    requires p < q < 32
    ensures key(RawPoint(p)) != key(RawPoint(q))
  {
    var u, v := RawPoint(p), RawPoint(q);
    if key(u) == key(v) {
      assert forall i :: 0 <= i < 4 ==> Abs(u[i] - v[i]) < eps;
      forall k | 0 <= k < 4
        ensures RawCoord(p, k) == RawCoord(q, k)
      {
        assert u[k] == RawCoord(p, k) as real && v[k] == RawCoord(q, k) as real;
        IntClose(RawCoord(p, k), RawCoord(q, k), eps);
      }
      RawInjective(p, q);
      assert false;
    }
  }

  /** The squared distance of two raw points, on the integer coordinates. */
  function RawDistSq(m: nat, n: nat): int
    requires m < 32 && n < 32
  {
    var d0, d1, d2, d3 := RawCoord(m, 0) - RawCoord(n, 0), RawCoord(m, 1) - RawCoord(n, 1),
      RawCoord(m, 2) - RawCoord(n, 2), RawCoord(m, 3) - RawCoord(n, 3);
    d0 * d0 + d1 * d1 + d2 * d2 + d3 * d3
  }

  lemma RawDistCast(m: nat, n: nat)
    requires m < 32 && n < 32
    ensures 0 <= RawDistSq(m, n)
    ensures Dist4Sq(RawPoint(m), RawPoint(n)) == RawDistSq(m, n) as real
  {
    T24.IntPointsDist(RawCoord(m, 0), RawCoord(m, 1), RawCoord(m, 2), RawCoord(m, 3),
                      RawCoord(n, 0), RawCoord(n, 1), RawCoord(n, 2), RawCoord(n, 3));
  }

  /** On a whole squared distance, the edge test accepts exactly 1 and 2. */
  lemma NearTest(sqrt: real -> real, d: int)
    requires IsSqrt(sqrt) && 0 <= d
    ensures 0.1 < sqrt(d as real) < sqrt(2.0) * 1.01 <==> d == 1 || d == 2
  {
    var r2 := sqrt(2.0);
    var c := r2 * 1.01;
    assert 0.0 <= r2 && r2 * r2 == 2.0;
    assert Sq(c) == 2.0402 by {
      assert c * c == (r2 * r2) * (1.01 * 1.01);
    }
    SqrtGreater(sqrt, d as real, 0.1);
    SqrtLess(sqrt, d as real, c);
  }

  /**
   * Finding: the deduplication in `build24Cell` removes nothing, since no axis vector equals
   * a two-entry vector; the builder returns 32 vertices, not 24, and its edges join the points
   * at distance 1 (an axis vector and a two-entry vector) as well as those at distance `sqrt(2)`.
   */
  lemma TwentyFourKeepsAll(sqrt: real -> real, key: Vec4 -> string, eps: real)
    requires IsSqrt(sqrt)
    requires SixHundredCell.KeyRounds(key, eps) && eps <= 1.0
    ensures TwentyFourMesh(sqrt, key).vertices == RawPoints()
    ensures |TwentyFourMesh(sqrt, key).vertices| == 32
    ensures forall e :: e in TwentyFourMesh(sqrt, key).edges <==>
      e.0 < e.1 < 32 && (RawDistSq(e.0, e.1) == 1 || RawDistSq(e.0, e.1) == 2)
  {
    var raw := RawPoints();
    forall m | 0 <= m < 32
      ensures raw[m] == RawPoint(m)
    {
      RawPointsAre(m);
    }
    forall p, q | 0 <= p < q < |raw|
      ensures key(raw[p]) != key(raw[q])
    {
      RawKeysDistinct(key, eps, p, q);
    }
    D.DistinctKeysKeepAll(raw, key, {});
    var keep := NearKeep(raw, sqrt);
    FilterPairsMembers(32, keep);
    forall e: Edge | e.0 < e.1 < 32
      ensures keep(e.0, e.1) <==> RawDistSq(e.0, e.1) == 1 || RawDistSq(e.0, e.1) == 2
    {
      RawDistCast(e.0, e.1);
      NearTest(sqrt, RawDistSq(e.0, e.1));
    }
  }

  /** The evident intent: only the pair loops, which already give all 24 vertices. */
  function IntendedTwentyFourMesh(sqrt: real -> real, key: Vec4 -> string): Mesh
  {
    var unique := D.Dedup4(PairPoints(), key);
    Mesh(unique, FilterPairs(|unique|, NearKeep(unique, sqrt)))
  }

  /**
   * Without the axis loop the 24-cell has its registry's 24 vertices, the same set as the
   * newer engine's, and its edges are exactly the pairs at distance `sqrt(2)`.
   */
  lemma IntendedTwentyFourProperties(sqrt: real -> real, key: Vec4 -> string, eps: real)
    requires IsSqrt(sqrt)
    requires SixHundredCell.KeyRounds(key, eps) && eps <= 1.0
    ensures IntendedTwentyFourMesh(sqrt, key).vertices == PairPoints()
    ensures |IntendedTwentyFourMesh(sqrt, key).vertices| == 24
    ensures forall v :: v in PairPoints() <==> v in T24.Vertices()
    ensures forall e :: e in IntendedTwentyFourMesh(sqrt, key).edges <==>
      e.0 < e.1 < 24 && Dist4Sq(PairPoints()[e.0], PairPoints()[e.1]) == 2.0
  {
    var pts := PairPoints();
    forall p, q | 0 <= p < q < |pts|
      ensures key(pts[p]) != key(pts[q])
    {
      RawKeysDistinct(key, eps, p + 8, q + 8);
    }
    D.DistinctKeysKeepAll(pts, key, {});
    SameVertexSet();
    IntendedEdges(sqrt);
  }

  /** Pair vector `m` is vertex `Flip(m)` of the newer engine's 24-cell. */
  lemma PairPointIsFlipped(m: nat)
    requires m < 24
    ensures Flip(m) < 24 && PairPoints()[m] == T24.Vertex(Flip(m))
  {
    FlipCoord(m, 0);
    FlipCoord(m, 1);
    FlipCoord(m, 2);
    FlipCoord(m, 3);
    assert PairPoints()[m] == RawPoint(m + 8);
  }

  lemma SameVertexSet()
    ensures forall v :: v in PairPoints() <==> v in T24.Vertices()
  {
    var pts := PairPoints();
    forall v | v in pts
      ensures v in T24.Vertices()
    {
      var n :| 0 <= n < 24 && pts[n] == v;
      PairPointIsFlipped(n);
      assert T24.Vertices()[Flip(n)] == v;
    }
    forall v | v in T24.Vertices()
      ensures v in pts
    {
      var n :| 0 <= n < 24 && T24.Vertices()[n] == v;
      FlipInvolution(n);
      PairPointIsFlipped(Flip(n));
      assert pts[Flip(n)] == v;
    }
  }

  lemma IntendedEdges(sqrt: real -> real)
    requires IsSqrt(sqrt)
    ensures forall e :: e in FilterPairs(24, NearKeep(PairPoints(), sqrt)) <==>
      e.0 < e.1 < 24 && Dist4Sq(PairPoints()[e.0], PairPoints()[e.1]) == 2.0
  {
    var pts := PairPoints();
    var keep := NearKeep(pts, sqrt);
    FilterPairsMembers(24, keep);
    forall e: Edge | e.0 < e.1 < 24
      ensures keep(e.0, e.1) <==> Dist4Sq(pts[e.0], pts[e.1]) == 2.0
    {
      IntendedPair(sqrt, e.0, e.1);
    }
  }

  /** Two distinct pair vectors pass the edge test exactly when they are `sqrt(2)` apart. */
  lemma IntendedPair(sqrt: real -> real, m: nat, n: nat)
    requires IsSqrt(sqrt)
    requires m < n < 24
    ensures NearKeep(PairPoints(), sqrt)(m, n) <==> Dist4Sq(PairPoints()[m], PairPoints()[n]) == 2.0
  {
    var a, b := Flip(m), Flip(n);
    PairPointIsFlipped(m);
    PairPointIsFlipped(n);
    T24.DistCast(a, b);
    T24.IntDistValues(a, b);
    FlipInvolution(m);
    FlipInvolution(n);
    NearTest(sqrt, T24.IntDistSq(a, b));
  }

  // ---------------------------------------------------------------- findEdges4D

  /** `Math.min(verts.length, 50)`. */
  function Window(verts: seq<Vec4>): nat
  {
    if |verts| < 50 then |verts| else 50
  }

  /** `minDist`: the least distance above 0.01 among the first 50 vertices, `None` for `Infinity`. */
  function MinDist(verts: seq<Vec4>, sqrt: real -> real): Option<real>
  {
    RowsMin(PairDist(verts, sqrt), 0.01, Window(verts), Window(verts))
  }

  /** `dist4(verts[i], verts[j]) < minDist * 1.05`; every finite distance is below `Infinity`. */
  function ShortKeep(verts: seq<Vec4>, sqrt: real -> real, minD: Option<real>): (nat, nat) -> bool
  {
    (i: nat, j: nat) => i < |verts| && j < |verts|
      && (minD.None? || Dist4(verts[i], verts[j], sqrt) < minD.value * 1.05)
  }

  function FindEdges(verts: seq<Vec4>, sqrt: real -> real): seq<Edge>
  {
    FilterPairs(|verts|, ShortKeep(verts, sqrt, MinDist(verts, sqrt)))
  }

  /**
   * `findEdges4D(verts, threshold)`.  `threshold` only feeds a value the function never uses,
   * so the result does not depend on it.
   */
  method FindEdges4D(verts: seq<Vec4>, threshold: Option<real>, sqrt: real -> real) returns (edges: seq<Edge>)
    ensures edges == FindEdges(verts, sqrt)
  {
    var n := if |verts| < 50 then |verts| else 50;
    var minD := MinPairDistance(verts, sqrt, 0.01, n);
    edges := CollectPairs(|verts|, ShortKeep(verts, sqrt, minD));
  }

  /**
   * A pair is an edge exactly when it is closer than 1.05 times `minDist`, or every pair when
   * no pair among the first 50 vertices is more than 0.01 apart; `minDist` is above 0.01, is
   * the distance of some pair in the window and is at most every window distance above 0.01.
   */
  lemma FindEdgesProperties(verts: seq<Vec4>, sqrt: real -> real)
    ensures var minD := MinDist(verts, sqrt);
      (forall e :: e in FindEdges(verts, sqrt) <==>
        (e.0 < e.1 < |verts| && (minD.None? || Dist4(verts[e.0], verts[e.1], sqrt) < minD.value * 1.05)))
      && StrictlyOrdered(FindEdges(verts, sqrt))
  {
    FilterPairsMembers(|verts|, ShortKeep(verts, sqrt, MinDist(verts, sqrt)));
  }

  /** `minDist` is `Infinity` exactly when no pair among the first 50 vertices is more than 0.01 apart. */
  lemma MinDistNone(verts: seq<Vec4>, sqrt: real -> real)
    ensures MinDist(verts, sqrt).None? <==>
      forall i: nat, j: nat :: i < j < Window(verts) ==> Dist4(verts[i], verts[j], sqrt) <= 0.01
  {
    var w := Window(verts);
    var dist := PairDist(verts, sqrt);
    RowsMinProperties(dist, 0.01, w, w);
    forall i: nat, j: nat | i < j < w
      ensures dist(i, j) == Dist4(verts[i], verts[j], sqrt)
    {
      WindowDistance(verts, sqrt, i, j);
    }
  }

  /**
   * A finite `minDist` is above 0.01, is the distance of some pair among the first 50
   * vertices and is at most every distance above 0.01 among them.
   */
  lemma MinDistLeast(verts: seq<Vec4>, sqrt: real -> real)
    requires MinDist(verts, sqrt).Some?
    ensures 0.01 < MinDist(verts, sqrt).value
    ensures exists i: nat, j: nat ::
      i < j < Window(verts) && Dist4(verts[i], verts[j], sqrt) == MinDist(verts, sqrt).value
    ensures forall i: nat, j: nat ::
      i < j < Window(verts) && Dist4(verts[i], verts[j], sqrt) > 0.01 ==>
        MinDist(verts, sqrt).value <= Dist4(verts[i], verts[j], sqrt)
  {
    var w := Window(verts);
    var dist := PairDist(verts, sqrt);
    var m := MinDist(verts, sqrt).value;
    RowsMinProperties(dist, 0.01, w, w);
    var i: nat, j: nat :| i < w && i < j < w && dist(i, j) == m;
    WindowDistance(verts, sqrt, i, j);
    forall a: nat, b: nat | a < b < w && Dist4(verts[a], verts[b], sqrt) > 0.01
      ensures m <= Dist4(verts[a], verts[b], sqrt)
    {
      WindowDistance(verts, sqrt, a, b);
      assert a < w && a < b < w && dist(a, b) > 0.01;
    }
  }

  /** Inside the window the loop's distance is `dist4` of the two vertices. */
  lemma WindowDistance(verts: seq<Vec4>, sqrt: real -> real, i: nat, j: nat)
    requires i < j < Window(verts)
    ensures j < |verts| && PairDist(verts, sqrt)(i, j) == Dist4(verts[i], verts[j], sqrt)
  {
  }
}

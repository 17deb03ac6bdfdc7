/**
 * `build120Cell`: the vertices are the centres of the 600-cell's cells, all divided by the
 * length of the first centre; the edges join the pairs within 5% of the smallest positive
 * distance among the first 80 vertices; no cell list is built.
 */
module OneTwentyCell {
  import opened Wrappers
  import opened RealMath
  import opened Vectors
  import opened PairLoops
  import opened PolytopeBuilders
  import opened MinSearch

  /** A list of vertex indices into `verts`. */
  predicate IdsIn(verts: seq<Vec4>, ids: seq<nat>)
  {
    forall m :: 0 <= m < |ids| ==> ids[m] < |verts|
  }

  /** Every cell lists only existing vertices. */
  predicate CellsIndex(verts: seq<Vec4>, cells: seq<Cell>)
  {
    forall c :: c in cells ==> IdsIn(verts, c.vertices)
  }

  predicate NonEmptyCells(cells: seq<Cell>)
  {
    forall c :: c in cells ==> |c.vertices| > 0
  }

  /** The coordinate sums of the listed vertices. */
  function SumOf(verts: seq<Vec4>, ids: seq<nat>): Vec4
    requires IdsIn(verts, ids)
  {
    if ids == [] then Zero4 else Add4(SumOf(verts, ids[..|ids| - 1]), verts[ids[|ids| - 1]])
  }

  /** The centre of a cell: the sum of its vertices divided by their number. */
  function Centroid(verts: seq<Vec4>, c: Cell): Vec4
    requires |c.vertices| > 0 && IdsIn(verts, c.vertices)
  {
    Divide4(SumOf(verts, c.vertices), |c.vertices| as real)
  }

  function Centroids(verts: seq<Vec4>, cells: seq<Cell>): seq<Vec4>
    requires CellsIndex(verts, cells) && NonEmptyCells(cells)
  {
    seq(|cells|, i requires 0 <= i < |cells| => Centroid(verts, cells[i]))
  }

  /** `verts.map(v => v.map(x => x / R))`. */
  function Scaled(vs: seq<Vec4>, r: real): seq<Vec4>
    requires r != 0.0
  {
    seq(|vs|, i requires 0 <= i < |vs| => Divide4(vs[i], r))
  }

  // ---------------------------------------------------------------- findMinEdgeLen

  /** `Math.min(verts.length, 80)`. */
  function Window(verts: seq<Vec4>): (n: nat)
    ensures n <= |verts| && n <= 80
  {
    if |verts| < 80 then |verts| else 80
  }

  /** The value `findMinEdgeLen` returns, `None` standing for `Infinity`. */
  function MinEdgeLen(verts: seq<Vec4>, sqrt: real -> real): Option<real>
  {
    RowsMin(PairDist(verts, sqrt), 0.001, Window(verts), Window(verts))
  }

  /** `findMinEdgeLen`: the double loop over the first `min(n, 80)` vertices. */
  method FindMinEdgeLen(verts: seq<Vec4>, sqrt: real -> real) returns (minD: Option<real>)
    ensures minD == MinEdgeLen(verts, sqrt)
  {
    var n := if |verts| < 80 then |verts| else 80;
    minD := MinPairDistance(verts, sqrt, 0.001, n);
  }

  /**
   * `findMinEdgeLen` returns the least distance above 0.001 between two of the first 80
   * vertices, and `Infinity` (`None`) exactly when no such pair exists.
   */
  lemma MinEdgeLenIsMinimum(verts: seq<Vec4>, sqrt: real -> real)
    ensures var dist, w := PairDist(verts, sqrt), Window(verts);
      (MinEdgeLen(verts, sqrt).None? <==> forall i: nat, j: nat :: i < j < w ==> dist(i, j) <= 0.001)
      && (MinEdgeLen(verts, sqrt).Some? ==>
            MinEdgeLen(verts, sqrt).value > 0.001
            && (exists i: nat, j: nat :: i < j < w && dist(i, j) == MinEdgeLen(verts, sqrt).value)
            && (forall i: nat, j: nat :: i < j < w && dist(i, j) > 0.001 ==> MinEdgeLen(verts, sqrt).value <= dist(i, j)))
  {
    RowsMinProperties(PairDist(verts, sqrt), 0.001, Window(verts), Window(verts));
  }

  // ---------------------------------------------------------------- the builder

  /** The edge test: `Math.abs(dist4(u, v) - edgeLen) < edgeLen * 0.05`, never true for `Infinity`. */
  function NearKeep(verts: seq<Vec4>, sqrt: real -> real, edgeLen: Option<real>): (nat, nat) -> bool
  {
    (i: nat, j: nat) => i < |verts| && j < |verts| && edgeLen.Some? &&
      Abs(Dist4(verts[i], verts[j], sqrt) - edgeLen.value) < edgeLen.value * 0.05
  }

  /**
   * The 120-cell from a 600-cell; `None` where the source fails: an empty cell list makes
   * `verts[0]` undefined, and a first centre of length zero makes every coordinate non-finite.
   */
  function OneTwentySpec(sqrt: real -> real, p600: Polytope): Option<Polytope>
    requires CellsIndex(p600.vertices, p600.cells) && NonEmptyCells(p600.cells)
  {
    var cs := Centroids(p600.vertices, p600.cells);
    if |cs| == 0 || Len4(cs[0], sqrt) == 0.0 then None
    else
      var normalized := Scaled(cs, Len4(cs[0], sqrt));
      Some(Polytope(normalized, FilterPairs(|normalized|, NearKeep(normalized, sqrt, MinEdgeLen(normalized, sqrt))), [], false))
  }

  method Build120Cell(sqrt: real -> real, p600: Polytope) returns (r: Option<Polytope>)
    requires CellsIndex(p600.vertices, p600.cells) && NonEmptyCells(p600.cells)
    ensures r == OneTwentySpec(sqrt, p600)
  {
    var verts := CentroidLoop(p600.vertices, p600.cells);
    if |verts| == 0 {
      return None;
    }
    var rr := Len4(verts[0], sqrt);
    if rr == 0.0 {
      return None;
    }
    var normalized := Scaled(verts, rr);
    var edgeLen := FindMinEdgeLen(normalized, sqrt);
    var edges := CollectPairs(|normalized|, NearKeep(normalized, sqrt, edgeLen));
    r := Some(Polytope(normalized, edges, [], false));
  }

  /** `cells600.map(cell => ...)`: one centre per cell. */
  method CentroidLoop(verts: seq<Vec4>, cells: seq<Cell>) returns (cs: seq<Vec4>)
    requires CellsIndex(verts, cells) && NonEmptyCells(cells)
    ensures cs == Centroids(verts, cells)
  {
    cs := [];
    var i := 0;
    while i < |cells|
      invariant i <= |cells| && |cs| == i
      invariant forall m :: 0 <= m < i ==> cs[m] == Centroid(verts, cells[m])
    {
      assert cells[i] in cells;
      var c := CentroidOf(verts, cells[i]);
      cs := cs + [c];
      i := i + 1;
    }
  }

  /** `for (const vi of cell.vertices) for (let k = 0; k < 4; k++) centroid[k] += verts600[vi][k]`, then the division. */
  method CentroidOf(verts: seq<Vec4>, c: Cell) returns (centroid: Vec4)
    requires |c.vertices| > 0 && IdsIn(verts, c.vertices)
    ensures centroid == Centroid(verts, c)
  {
    var sum: Vec4 := [0.0, 0.0, 0.0, 0.0];
    var m := 0;
    while m < |c.vertices|
      invariant m <= |c.vertices|
      invariant sum == SumOf(verts, c.vertices[..m])
    {
      assert c.vertices[..m + 1][..m] == c.vertices[..m];
      var p := verts[c.vertices[m]];
      var k := 0;
      ghost var start := sum;
      while k < 4
        invariant k <= 4 && |sum| == 4
        invariant forall q :: 0 <= q < 4 ==> sum[q] == if q < k then start[q] + p[q] else start[q]
      {
        sum := sum[k := sum[k] + p[k]];
        k := k + 1;
      }
      m := m + 1;
    }
    assert c.vertices[..m] == c.vertices;
    centroid := Divide4(sum, |c.vertices| as real);
  }

  // ---------------------------------------------------------------- properties

  /**
   * One vertex per 600-cell cell, the first of unit length, no cells, and every edge a pair
   * `i < j` within 5% of the minimum edge length; no edges when all distances are tiny.
   */
  lemma OneTwentyShape(sqrt: real -> real, p600: Polytope)
    requires IsSqrt(sqrt)
    requires CellsIndex(p600.vertices, p600.cells) && NonEmptyCells(p600.cells)
    ensures OneTwentySpec(sqrt, p600).None? <==>
      |p600.cells| == 0 || Len4(Centroid(p600.vertices, p600.cells[0]), sqrt) == 0.0
    ensures OneTwentySpec(sqrt, p600).Some? ==>
      var p := OneTwentySpec(sqrt, p600).value;
      |p.vertices| == |p600.cells| && p.cells == [] && !p.hasCells &&
      Norm4Sq(p.vertices[0]) == 1.0 &&
      (forall e :: e in p.edges <==> e.0 < e.1 < |p.vertices| && NearKeep(p.vertices, sqrt, MinEdgeLen(p.vertices, sqrt))(e.0, e.1)) &&
      (MinEdgeLen(p.vertices, sqrt).None? ==> p.edges == [])
  {
    if OneTwentySpec(sqrt, p600).Some? {
      var p := OneTwentySpec(sqrt, p600).value;
      var c0 := Centroid(p600.vertices, p600.cells[0]);
      assert p.vertices[0] == Divide4(c0, Len4(c0, sqrt));
      DivideByLength(c0, sqrt);
      var keep := NearKeep(p.vertices, sqrt, MinEdgeLen(p.vertices, sqrt));
      FilterPairsMembers(|p.vertices|, keep);
      if MinEdgeLen(p.vertices, sqrt).None? {
        FilterPairsNone(|p.vertices|, keep);
      }
    }
  }

  /** A nonzero vector divided by its own length has unit length. */
  lemma DivideByLength(v: Vec4, sqrt: real -> real)
    requires IsSqrt(sqrt) && Len4(v, sqrt) != 0.0
    ensures Norm4Sq(Divide4(v, Len4(v, sqrt))) == 1.0
  {
    var l := Len4(v, sqrt);
    SqZero(l);
    assert Sq(l) == Dot4(v, v);
    Normalize4Unit(v, sqrt);
    DivIsMulInverse(v[0], l);
    DivIsMulInverse(v[1], l);
    DivIsMulInverse(v[2], l);
    DivIsMulInverse(v[3], l);
    Equal4(Divide4(v, l), Scale4(v, 1.0 / l));
  }
}

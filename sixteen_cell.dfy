/**
 * `build16Cell`: the eight unit vectors `+-e_axis`, the edges between non-opposite
 * vertices and the sixteen tetrahedral cells that pick one vertex from each opposite pair.
 */
module SixteenCell {
  import opened RealMath
  import opened Vectors
  import opened PairLoops
  import opened PolytopeBuilders

  /** The sign loop runs over `[-1, 1]`: slot 0 is `-1`, slot 1 is `+1`. */
  function AxisSign(s: nat): real
  {
    if s == 0 then -1.0 else 1.0
  }

  /** The unit vector with `sign` on `axis`. */
  function AxisVector(axis: nat, sign: real): Vec4
  {
    [if axis == 0 then sign else 0.0, if axis == 1 then sign else 0.0,
     if axis == 2 then sign else 0.0, if axis == 3 then sign else 0.0]
  }

  /** Vertex `2 * axis + s` is `AxisSign(s)` on `axis` and zero elsewhere. */
  function SixteenVertex(i: nat): Vec4
  {
    AxisVector(i / 2, AxisSign(i % 2))
  }

  function SixteenVertices(): seq<Vec4>
  {
    seq(8, i requires 0 <= i < 8 => SixteenVertex(i))
  }

  /** The edge test of the pair loop: distance below 1.5. */
  function CloseKeep(verts: seq<Vec4>, sqrt: real -> real): (nat, nat) -> bool
  {
    (i: nat, j: nat) => i < |verts| && j < |verts| && Dist4(verts[i], verts[j], sqrt) < 1.5
  }

  /** Two indices name opposite vertices exactly when they share the axis `i / 2`. */
  function NotOpposite(): (nat, nat) -> bool
  {
    (i: nat, j: nat) => i / 2 != j / 2
  }

  /** Cell `8a + 4b + 2c + d` is `[a, 2 + b, 4 + c, 6 + d]`. */
  function SixteenCells(): seq<Cell>
  {
    seq(16, q requires 0 <= q < 16 =>
      Cell([q / 8, 2 + (q / 4) % 2, 4 + (q / 2) % 2, 6 + q % 2], Tetrahedron))
  }

  function SixteenSpec(sqrt: real -> real): Polytope
  {
    Polytope(SixteenVertices(), FilterPairs(8, CloseKeep(SixteenVertices(), sqrt)), SixteenCells(), true)
  }

  /** `build16Cell`: the axis/sign loops, the distance-checked pair loop and the four 0/1 cell loops. */
  method Build16Cell(sqrt: real -> real) returns (p: Polytope)
    ensures p == SixteenSpec(sqrt)
  {
    var verts := SixteenVertexLoops();
    var edges := CollectPairs(8, CloseKeep(verts, sqrt));
    var cells := SixteenCellLoops();
    p := Polytope(verts, edges, cells, true);
  }

  method SixteenVertexLoops() returns (verts: seq<Vec4>)
    ensures verts == SixteenVertices()
  {
    verts := [];
    var axis := 0;
    while axis < 4
      invariant axis <= 4
      invariant |verts| == 2 * axis
      invariant forall m :: 0 <= m < |verts| ==> verts[m] == SixteenVertex(m)
    {
      var s := 0;
      while s < 2
        invariant s <= 2
        invariant |verts| == 2 * axis + s
        invariant forall m :: 0 <= m < |verts| ==> verts[m] == SixteenVertex(m)
      {
        var v := [0.0, 0.0, 0.0, 0.0];
        v := v[axis := AxisSign(s)];
        SlotDigits(|verts|, axis, s);
        assert v == SixteenVertex(|verts|);
        verts := verts + [v];
        s := s + 1;
      }
      axis := axis + 1;
    }
    assert verts == SixteenVertices();
  }

  method SixteenCellLoops() returns (cells: seq<Cell>)
    ensures cells == SixteenCells()
  {
    ghost var spec := SixteenCells();
    cells := [];
    var a := 0;
    while a < 2
      invariant a <= 2 && cells == spec[..8 * a]
    {
      var b := 0;
      while b < 2
        invariant b <= 2 && cells == spec[..8 * a + 4 * b]
      {
        var c := 0;
        while c < 2
          invariant c <= 2 && cells == spec[..8 * a + 4 * b + 2 * c]
        {
          var d := 0;
          while d < 2
            invariant d <= 2 && cells == spec[..8 * a + 4 * b + 2 * c + d]
          {
            var q := 8 * a + 4 * b + 2 * c + d;
            CellDigits(q, a, b, c, d);
            assert spec[q] == Cell([a, 2 + b, 4 + c, 6 + d], Tetrahedron);
            assert spec[..q + 1] == spec[..q] + [spec[q]];
            cells := cells + [Cell([a, 2 + b, 4 + c, 6 + d], Tetrahedron)];
            d := d + 1;
          }
          c := c + 1;
        }
        b := b + 1;
      }
      a := a + 1;
    }
    assert spec[..16] == spec;
  }

  lemma CellDigits(q: nat, a: nat, b: nat, c: nat, d: nat)
    requires a < 2 && b < 2 && c < 2 && d < 2
    requires q == 8 * a + 4 * b + 2 * c + d
    ensures q / 8 == a && (q / 4) % 2 == b && (q / 2) % 2 == c && q % 2 == d
  {
  }

  /** The squared distance between two 16-cell vertices: 0, 4 for opposite vertices, else 2. */
  lemma SixteenDistSq(i: nat, j: nat)
    requires i < 8 && j < 8
    ensures Dist4Sq(SixteenVertex(i), SixteenVertex(j)) ==
      if i == j then 0.0 else if i / 2 == j / 2 then 4.0 else 2.0
  {
    var a, b := SixteenVertex(i), SixteenVertex(j);
    assert Sub4(a, b)[0] == a[0] - b[0];
    if i == j {
      assert a == b;
    } else if i / 2 == j / 2 {
      assert AxisSign(i % 2) == -AxisSign(j % 2);
    }
  }

  /** The distance test `< 1.5` keeps exactly the pairs of non-opposite vertices. */
  lemma SixteenKeepIsNotOpposite(sqrt: real -> real)
    requires IsSqrt(sqrt)
    ensures FilterPairs(8, CloseKeep(SixteenVertices(), sqrt)) == FilterPairs(8, NotOpposite())
  {
    var verts := SixteenVertices();
    forall i: nat, j: nat | i < j < 8
      ensures CloseKeep(verts, sqrt)(i, j) == NotOpposite()(i, j)
    {
      SixteenDistSq(i, j);
      SqrtLess(sqrt, Dist4Sq(verts[i], verts[j]), 1.5);
    }
    FilterPairsAgree(8, CloseKeep(verts, sqrt), NotOpposite());
  }

  /** Vertex `2a + s` is `-1` (s = 0) or `+1` (s = 1) on axis `a` and zero on the other axes. */
  lemma SixteenVertexAxes(i: nat, k: nat)
    requires i < 8 && k < 4
    ensures |SixteenVertices()| == 8
    ensures SixteenVertices()[i][k] == if k == i / 2 then (if i % 2 == 0 then -1.0 else 1.0) else 0.0
  {
  }

  /** The 16-cell's edges are all pairs `i < j < 8` except the four opposite pairs `{2a, 2a + 1}`. */
  lemma SixteenEdges(sqrt: real -> real)
    requires IsSqrt(sqrt)
    ensures forall e :: e in SixteenSpec(sqrt).edges <==> e.0 < e.1 < 8 && e.0 / 2 != e.1 / 2
    ensures !((0, 1) in SixteenSpec(sqrt).edges) && (0, 2) in SixteenSpec(sqrt).edges
    ensures StrictlyOrdered(SixteenSpec(sqrt).edges)
    ensures |SixteenSpec(sqrt).edges| == 24
  {
    SixteenKeepIsNotOpposite(sqrt);
    var n :| n == 8;
    NotOppositePairs(n);
  }

  /** The non-opposite pairs over `n == 8` indices, by membership, order and count. */
  lemma NotOppositePairs(n: nat)
    requires n == 8
    ensures forall e :: e in FilterPairs(n, NotOpposite()) <==> e.0 < e.1 < 8 && e.0 / 2 != e.1 / 2
    ensures !((0, 1) in FilterPairs(n, NotOpposite())) && (0, 2) in FilterPairs(n, NotOpposite())
    ensures StrictlyOrdered(FilterPairs(n, NotOpposite()))
    ensures |FilterPairs(n, NotOpposite())| == 24
  {
    FilterPairsMembers(n, NotOpposite());
    NotOppositeCount(n);
  }

  // Row `i` of the non-opposite pair loop over 8 indices.
  lemma NotOppositeRows()
    ensures |Row(0, 8, NotOpposite())| == 6 && |Row(1, 8, NotOpposite())| == 6
    ensures |Row(2, 8, NotOpposite())| == 4 && |Row(3, 8, NotOpposite())| == 4
    ensures |Row(4, 8, NotOpposite())| == 2 && |Row(5, 8, NotOpposite())| == 2
    ensures |Row(6, 8, NotOpposite())| == 0 && |Row(7, 8, NotOpposite())| == 0
  {
    assert |Row(0, 4, NotOpposite())| == 2;
    assert |Row(1, 4, NotOpposite())| == 2;
  }

  lemma NotOppositeCount(n: nat)
    requires n == 8
    ensures |Rows(n, n, NotOpposite())| == 24
  {
    NotOppositeRows();
    assert |Rows(2, n, NotOpposite())| == 12;
    assert |Rows(4, n, NotOpposite())| == 20;
    assert |Rows(6, n, NotOpposite())| == 24;
  }

  /**
   * Cell `q` takes exactly one vertex from each opposite pair `{2p, 2p + 1}`: its `p`-th
   * vertex is `2p` or `2p + 1`, chosen by bit `3 - p` of `q`, so the sixteen cells are the
   * sixteen choices.
   */
  lemma SixteenCellsTransversal(q: nat, p: nat)
    requires q < 16 && p < 4
    ensures |SixteenCells()| == 16 && |SixteenCells()[q].vertices| == 4
    ensures SixteenCells()[q].vertices[p] / 2 == p
    ensures SixteenCells()[q].vertices[p] % 2 == 1 <==> Bit(q, 3 - p)
    ensures SixteenCells()[q].cellType == Tetrahedron
  {
  }

  /** Different cells make different choices. */
  lemma SixteenCellsDistinct(q: nat, r: nat)
    requires q < r < 16
    ensures SixteenCells()[q].vertices != SixteenCells()[r].vertices
  {
  }
}

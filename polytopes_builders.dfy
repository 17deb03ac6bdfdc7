/**
 * The builders of the polytope engine for the 5-cell, tesseract, 16-cell and 24-cell,
 * which use exact coordinates (0, +-1/2, +-1), with the cell lists the slicer and the
 * cell view read.
 */
module PolytopeBuilders {
  import opened RealMath
  import opened Vectors
  import opened PairLoops

  datatype CellType = Tetrahedron | Cube(axis: nat, sign: real) | Octahedron

  datatype Cell = Cell(vertices: seq<nat>, cellType: CellType)

  /** What every builder returns: `{ vertices, edges, cells, hasCells }`. */
  datatype Polytope = Polytope(vertices: seq<Vec4>, edges: seq<Edge>, cells: seq<Cell>, hasCells: bool)

  /** Edges index existing vertices; cells list existing vertices. */
  predicate WellFormed(p: Polytope)
  {
    (forall e :: e in p.edges ==> e.0 < |p.vertices| && e.1 < |p.vertices|)
    && (forall c, v :: c in p.cells && v in c.vertices ==> v < |p.vertices|)
  }

  function AnyPair(): (nat, nat) -> bool
  {
    (i: nat, j: nat) => true
  }

  function Except(k: nat): nat -> bool
  {
    (i: nat) => i != k
  }

  // ---------------------------------------------------------------- 5-cell

  /** The five unnormalised 5-cell coordinates, with `1/sqrt(5)` in the last slot. */
  function FiveCellRaw(sqrt: real -> real): seq<Vec4>
    requires IsSqrt(sqrt)
  {
    SqrtPositive(sqrt, 5.0);
    var r5 := sqrt(5.0);
    [[1.0, 1.0, 1.0, -1.0 / r5], [1.0, -1.0, -1.0, -1.0 / r5], [-1.0, 1.0, -1.0, -1.0 / r5],
     [-1.0, -1.0, 1.0, -1.0 / r5], [0.0, 0.0, 0.0, r5 - 1.0 / r5]]
  }

  function FiveCellVertices(sqrt: real -> real): seq<Vec4>
    requires IsSqrt(sqrt)
  {
    var raw := FiveCellRaw(sqrt);
    seq(5, i requires 0 <= i < 5 => Normalize4(raw[i], sqrt))
  }

  function FiveCellCells(): seq<Cell>
  {
    seq(5, k requires 0 <= k < 5 => Cell(FilterIndices(5, Except(k)), Tetrahedron))
  }

  function FiveCell(sqrt: real -> real): Polytope
    requires IsSqrt(sqrt)
  {
    Polytope(FiveCellVertices(sqrt), FilterPairs(5, AnyPair()), FiveCellCells(), true)
  }

  /** `build5Cell`: every pair `i < j < 5` is an edge; cell `skip` is every other index. */
  method Build5Cell(sqrt: real -> real) returns (p: Polytope)
    requires IsSqrt(sqrt)
    ensures p == FiveCell(sqrt)
  {
    var verts := FiveCellVertices(sqrt);
    var edges := CollectPairs(5, AnyPair());
    var cells: seq<Cell> := [];
    var skip := 0;
    while skip < 5
      invariant skip <= 5
      invariant cells == FiveCellCells()[..skip]
    {
      var cv := CollectIndices(5, Except(skip));
      cells := cells + [Cell(cv, Tetrahedron)];
      skip := skip + 1;
    }
    p := Polytope(verts, edges, cells, true);
  }

  /** There are `n(n-1)/2` pairs `i < j < n`. */
  lemma {:induction false} AllPairsCount(n: nat)
    ensures |FilterPairs(n, AnyPair())| == n * (n - 1) / 2
  {
    RowsAllCount(n, n);
  }

  lemma {:induction false} RowsAllCount(count: nat, n: nat)
    requires count <= n
    ensures 2 * |Rows(count, n, AnyPair())| == count * (2 * n - count - 1)
  {
    if count > 0 {
      RowsAllCount(count - 1, n);
      RowAllCount(count - 1, n);
      TriangleStep(count, n);
    }
  }

  /** One more row of the triangle: `(c - 1)(2n - c) + 2(n - c) == c(2n - c - 1)`. */
  lemma TriangleStep(c: int, n: int)
    ensures (c - 1) * (2 * n - (c - 1) - 1) + 2 * (n - c) == c * (2 * n - c - 1)
  {
    assert (c - 1) * (2 * n - c) == c * (2 * n - c) - (2 * n - c);
    assert c * (2 * n - c) == c * (2 * n - c - 1) + c;
  }

  lemma {:induction false} RowAllCount(i: nat, end: nat)
    ensures |Row(i, end, AnyPair())| == if end <= i + 1 then 0 else end - i - 1
    decreases end
  {
    if end > i + 1 {
      RowAllCount(i, end - 1);
    }
  }

  /** Leaving one index out of `0 .. n-1` leaves `n - 1` indices. */
  lemma {:induction false} ExceptCount(n: nat, k: nat)
    requires k < n
    ensures |FilterIndices(n, Except(k))| == n - 1
  {
    if n - 1 != k {
      ExceptCount(n - 1, k);
    } else {
      NoneExcluded(n - 1, k);
    }
  }

  lemma {:induction false} NoneExcluded(n: nat, k: nat)
    requires n <= k
    ensures |FilterIndices(n, Except(k))| == n
  {
    if n > 0 {
      NoneExcluded(n - 1, k);
    }
  }

  /** The 5-cell's edges are exactly the ten pairs `i < j < 5`, in loop order. */
  lemma FiveCellEdges(sqrt: real -> real)
    requires IsSqrt(sqrt)
    ensures var p := FiveCell(sqrt);
      |p.vertices| == 5 && |p.edges| == 10 && StrictlyOrdered(p.edges)
      && (forall e :: e in p.edges <==> e.0 < e.1 < 5)
  {
    FilterPairsMembers(5, AnyPair());
    AllPairsCount(5);
  }

  /** Cell `k` of the 5-cell is the tetrahedron on the four indices other than `k`. */
  lemma FiveCellCellsExcept(sqrt: real -> real, k: nat)
    requires IsSqrt(sqrt)
    requires k < 5
    ensures var p := FiveCell(sqrt);
      |p.cells| == 5 && p.hasCells && p.cells[k].cellType == Tetrahedron
      && |p.cells[k].vertices| == 4
      && (forall i: nat :: i in p.cells[k].vertices <==> i < 5 && i != k)
  {
    FilterIndicesMembers(5, Except(k));
    ExceptCount(5, k);
  }

  // ---------------------------------------------------------------- tesseract

  /** Bit `k` of `i`, for the four bits a tesseract index has. */
  function Bit(i: nat, k: nat): bool
    requires k < 4
  {
    if k == 0 then i % 2 == 1
    else if k == 1 then (i / 2) % 2 == 1
    else if k == 2 then (i / 4) % 2 == 1
    else (i / 8) % 2 == 1
  }

  function HalfSign(b: bool): real
  {
    if b then 0.5 else -0.5
  }

  /** Vertex `i` of the tesseract: coordinate `k` is `+1/2` when bit `k` of `i` is set, else `-1/2`. */
  function TessVertex(i: nat): Vec4
  {
    [HalfSign(Bit(i, 0)), HalfSign(Bit(i, 1)), HalfSign(Bit(i, 2)), HalfSign(Bit(i, 3))]
  }

  function TessVertices(): seq<Vec4>
  {
    seq(16, i requires 0 <= i < 16 => TessVertex(i))
  }

  /** How many of the four coordinates differ by more than 0.01 (the inner `diff` loop). */
  function DiffCount(a: Vec4, b: Vec4, k: nat): nat
    requires k <= 4
  {
    if k == 0 then 0
    else DiffCount(a, b, k - 1) + (if Abs(a[k - 1] - b[k - 1]) > 0.01 then 1 else 0)
  }

  function TessKeep(verts: seq<Vec4>): (nat, nat) -> bool
  {
    (i: nat, j: nat) => i < |verts| && j < |verts| && DiffCount(verts[i], verts[j], 4) == 1
  }

  function SignOfSlot(s: nat): real
  {
    if s == 0 then 0.5 else -0.5
  }

  function OnFacet(verts: seq<Vec4>, axis: nat, sign: real): nat -> bool
    requires axis < 4
  {
    (i: nat) => i < |verts| && Abs(verts[i][axis] - sign) < 0.01
  }

  /** The cube on which coordinate `axis` is `+1/2` (s = 0) or `-1/2` (s = 1); `|verts|` is the loop's 16. */
  function TessCell(verts: seq<Vec4>, axis: nat, s: nat): Cell
    requires axis < 4
  {
    Cell(FilterIndices(|verts|, OnFacet(verts, axis, SignOfSlot(s))), Cube(axis, SignOfSlot(s)))
  }

  /** The two cubes of one axis, `+1/2` first. */
  function TessPair(verts: seq<Vec4>, axis: nat): seq<Cell>
    requires axis < 4
  {
    [TessCell(verts, axis, 0), TessCell(verts, axis, 1)]
  }

  /** The cubes of the first `n` axes. */
  function TessCellsUpTo(verts: seq<Vec4>, n: nat): (r: seq<Cell>)
    requires n <= 4
    ensures |r| == 2 * n
  {
    if n == 0 then [] else TessCellsUpTo(verts, n - 1) + TessPair(verts, n - 1)
  }

  /** Cell `2 * axis + s` fixes coordinate `axis` to `+1/2` (s = 0) or `-1/2` (s = 1). */
  function TessCells(verts: seq<Vec4>): seq<Cell>
  {
    TessCellsUpTo(verts, 4)
  }

  lemma {:induction false} TessCellAt(verts: seq<Vec4>, n: nat, axis: nat, s: nat)
    requires axis < n <= 4 && s < 2
    ensures TessCellsUpTo(verts, n)[2 * axis + s] == TessCell(verts, axis, s)
  {
    if axis < n - 1 {
      TessCellAt(verts, n - 1, axis, s);
    }
  }

  function TessEdges(): seq<Edge>
  {
    FilterPairs(16, TessKeep(TessVertices()))
  }

  function TesseractSpec(): Polytope
  {
    Polytope(TessVertices(), TessEdges(), TessCells(TessVertices()), true)
  }

  /** `buildTesseract`: the four nested sign loops (w outermost, x innermost), the edge test and the cells. */
  method BuildTesseract() returns (p: Polytope)
    ensures p == TesseractSpec()
  {
    var verts := TesseractVertexLoops();
    var edges := TesseractEdgeLoops(verts);
    var cells := TesseractCellLoops(verts);
    p := Polytope(verts, edges, cells, true);
  }

  method TesseractVertexLoops() returns (verts: seq<Vec4>)
    ensures verts == TessVertices()
  {
    verts := [];
    var w := -1;
    while w <= 1
      invariant w == -1 || w == 1 || w == 3
      invariant |verts| == 4 * (w + 1)
      invariant forall m :: 0 <= m < |verts| ==> verts[m] == TessVertex(m)
    {
      var z := -1;
      while z <= 1
        invariant z == -1 || z == 1 || z == 3
        invariant |verts| == 4 * (w + 1) + 2 * (z + 1)
        invariant forall m :: 0 <= m < |verts| ==> verts[m] == TessVertex(m)
      {
        var y := -1;
        while y <= 1
          invariant y == -1 || y == 1 || y == 3
          invariant |verts| == 4 * (w + 1) + 2 * (z + 1) + (y + 1)
          invariant forall m :: 0 <= m < |verts| ==> verts[m] == TessVertex(m)
        {
          var x := -1;
          while x <= 1
            invariant x == -1 || x == 1 || x == 3
            invariant |verts| == 4 * (w + 1) + 2 * (z + 1) + (y + 1) + (x + 1) / 2
            invariant forall m :: 0 <= m < |verts| ==> verts[m] == TessVertex(m)
          {
            TessVertexDigits(|verts|, x, y, z, w);
            verts := verts + [[x as real * 0.5, y as real * 0.5, z as real * 0.5, w as real * 0.5]];
            x := x + 2;
          }
          y := y + 2;
        }
        z := z + 2;
      }
      w := w + 2;
    }
    assert verts == TessVertices();
  }

  /** The edge loops: a pair is an edge when exactly one coordinate differs by more than 0.01. */
  method TesseractEdgeLoops(verts: seq<Vec4>) returns (edges: seq<Edge>)
    requires |verts| == 16
    ensures edges == FilterPairs(16, TessKeep(verts))
  {
    var n := |verts|;
    edges := [];
    var i := 0;
    while i < n
      invariant i <= n
      invariant edges == Rows(i, n, TessKeep(verts))
    {
      var row := TessEdgeRow(verts, i);
      edges := edges + row;
      i := i + 1;
    }
  }

  /** The inner `j` loop of row `i`. */
  method TessEdgeRow(verts: seq<Vec4>, i: nat) returns (row: seq<Edge>)
    requires i < |verts|
    ensures row == Row(i, |verts|, TessKeep(verts))
  {
    row := [];
    var j := i + 1;
    while j < |verts|
      invariant i + 1 <= j <= |verts|
      invariant row == Row(i, j, TessKeep(verts))
    {
      var diff := TessDiffLoop(verts[i], verts[j]);
      if diff == 1 {
        row := row + [(i, j)];
      }
      j := j + 1;
    }
  }

  /** The `diff` loop over the four coordinates. */
  method TessDiffLoop(a: Vec4, b: Vec4) returns (diff: nat)
    ensures diff == DiffCount(a, b, 4)
  {
    diff := 0;
    var k := 0;
    while k < 4
      invariant k <= 4
      invariant diff == DiffCount(a, b, k)
    {
      if Abs(a[k] - b[k]) > 0.01 {
        diff := diff + 1;
      }
      k := k + 1;
    }
  }

  /** The cell loops: for each axis and each sign in `[0.5, -0.5]`, the indices on that facet. */
  method TesseractCellLoops(verts: seq<Vec4>) returns (cells: seq<Cell>)
    requires |verts| == 16
    ensures cells == TessCells(verts)
  {
    cells := [];
    var axis := 0;
    while axis < 4
      invariant axis <= 4
      invariant cells == TessCellsUpTo(verts, axis)
    {
      var pair := TessSignLoop(verts, axis);
      cells := cells + pair;
      axis := axis + 1;
    }
  }

  /** The inner `for (const sign of [0.5, -0.5])` loop of one axis. */
  method TessSignLoop(verts: seq<Vec4>, axis: nat) returns (cells: seq<Cell>)
    requires |verts| == 16 && axis < 4
    ensures cells == TessPair(verts, axis)
  {
    cells := [];
    var s := 0;
    while s < 2
      invariant s <= 2
      invariant cells == TessPair(verts, axis)[..s]
    {
      var cell := TessSignCell(verts, axis, s);
      assert TessPair(verts, axis)[..s + 1] == TessPair(verts, axis)[..s] + [cell];
      cells := cells + [cell];
      s := s + 1;
    }
  }

  /** One pass of the sign loop: the vertices on the facet where coordinate `axis` is the sign. */
  method TessSignCell(verts: seq<Vec4>, axis: nat, s: nat) returns (cell: Cell)
    requires axis < 4
    ensures cell == TessCell(verts, axis, s)
  {
    var sign := SignOfSlot(s);
    var cv := CollectIndices(|verts|, OnFacet(verts, axis, sign));
    cell := Cell(cv, Cube(axis, sign));
  }

  lemma SlotDigits(c: nat, axis: nat, s: nat)
    requires s < 2 && c == 2 * axis + s
    ensures c / 2 == axis && c % 2 == s
  {
  }

  /** The loop counters of the four sign loops spell the vertex index in binary. */
  lemma TessVertexDigits(m: nat, x: int, y: int, z: int, w: int)
    requires x == -1 || x == 1
    requires y == -1 || y == 1
    requires z == -1 || z == 1
    requires w == -1 || w == 1
    requires m == 4 * (w + 1) + 2 * (z + 1) + (y + 1) + (x + 1) / 2
    ensures TessVertex(m) == [x as real * 0.5, y as real * 0.5, z as real * 0.5, w as real * 0.5]
  {
    var xb, yb, zb, wb := OneIf(x == 1), OneIf(y == 1), OneIf(z == 1), OneIf(w == 1);
    var q2, q4 := 4 * wb + 2 * zb + yb, 2 * wb + zb;
    assert m == 2 * q2 + xb && m == 4 * q4 + (2 * yb + xb) && m == 8 * wb + (4 * zb + 2 * yb + xb);
    SplitBy2(q2, xb);
    SplitBy4(q4, 2 * yb + xb);
    SplitBy8(wb, 4 * zb + 2 * yb + xb);
    SplitBy2(2 * wb + zb, yb);
    SplitBy2(wb, zb);
    SplitBy2(0, wb);
    assert Bit(m, 0) == (x == 1);
    assert Bit(m, 1) == (y == 1);
    assert Bit(m, 2) == (z == 1);
    assert Bit(m, 3) == (w == 1);
    HalfSignOf(x);
    HalfSignOf(y);
    HalfSignOf(z);
    HalfSignOf(w);
  }

  lemma HalfSignOf(x: int)
    requires x == -1 || x == 1
    ensures HalfSign(x == 1) == x as real * 0.5
  {
  }

  function OneIf(b: bool): nat
  {
    if b then 1 else 0
  }

  lemma SplitBy2(q: nat, r: nat)
    requires r < 2
    ensures (2 * q + r) / 2 == q && (2 * q + r) % 2 == r
  {
  }

  lemma SplitBy4(q: nat, r: nat)
    requires r < 4
    ensures (4 * q + r) / 4 == q
  {
  }

  lemma SplitBy8(q: nat, r: nat)
    requires r < 8
    ensures (8 * q + r) / 8 == q
  {
  }

  /** The number of the low `k` bits in which `i` and `j` differ. */
  function Hamming(i: nat, j: nat, k: nat): nat
    requires k <= 4
  {
    if k == 0 then 0 else Hamming(i, j, k - 1) + (if Bit(i, k - 1) != Bit(j, k - 1) then 1 else 0)
  }

  function HammingOne(): (nat, nat) -> bool
  {
    (i: nat, j: nat) => Hamming(i, j, 4) == 1
  }

  /** On tesseract vertices the tolerance test counts exactly the differing bits. */
  lemma {:induction false} TessDiffIsHamming(i: nat, j: nat, k: nat)
    requires k <= 4
    ensures DiffCount(TessVertex(i), TessVertex(j), k) == Hamming(i, j, k)
  {
    if k > 0 {
      TessDiffIsHamming(i, j, k - 1);
      assert TessVertex(i)[k - 1] == HalfSign(Bit(i, k - 1));
      assert TessVertex(j)[k - 1] == HalfSign(Bit(j, k - 1));
    }
  }

  lemma TessKeepIsHammingOne()
    ensures TessEdges() == FilterPairs(16, HammingOne())
  {
    forall i: nat, j: nat | i < j < 16
      ensures TessKeep(TessVertices())(i, j) == HammingOne()(i, j)
    {
      TessDiffIsHamming(i, j, 4);
    }
    FilterPairsAgree(16, TessKeep(TessVertices()), HammingOne());
  }

  /** Coordinate `k` of tesseract vertex `i` is `+1/2` exactly when bit `k` of `i` is set, else `-1/2`. */
  lemma TesseractVertexBits(i: nat, k: nat)
    requires i < 16 && k < 4
    ensures |TessVertices()| == 16
    ensures TessVertices()[i][k] == 0.5 <==> Bit(i, k)
    ensures TessVertices()[i][k] == -0.5 <==> !Bit(i, k)
  {
  }

  /** The tesseract's edges are the index pairs differing in exactly one bit, in loop order. */
  lemma TesseractEdgesHamming()
    ensures forall e :: e in TessEdges() <==> e.0 < e.1 < 16 && Hamming(e.0, e.1, 4) == 1
    ensures StrictlyOrdered(TessEdges())
  {
    TessKeepIsHammingOne();
    FilterPairsMembers(16, HammingOne());
  }

  // Row `i` of the one-bit-apart pair loop holds one pair per clear bit of `i` above it.
  lemma HammingRow0()
    ensures |Row(0, 16, HammingOne())| == 4
  {
    assert |Row(0, 4, HammingOne())| == 2;
    assert |Row(0, 8, HammingOne())| == 3;
    assert |Row(0, 12, HammingOne())| == 4;
  }

  lemma HammingRow1()
    ensures |Row(1, 16, HammingOne())| == 3
  {
    assert |Row(1, 4, HammingOne())| == 1;
    assert |Row(1, 8, HammingOne())| == 2;
    assert |Row(1, 12, HammingOne())| == 3;
  }

  lemma HammingRow2()
    ensures |Row(2, 16, HammingOne())| == 3
  {
    assert |Row(2, 4, HammingOne())| == 1;
    assert |Row(2, 8, HammingOne())| == 2;
    assert |Row(2, 12, HammingOne())| == 3;
  }

  lemma HammingRow3()
    ensures |Row(3, 16, HammingOne())| == 2
  {
    assert |Row(3, 8, HammingOne())| == 1;
    assert |Row(3, 12, HammingOne())| == 2;
  }

  lemma HammingRow4()
    ensures |Row(4, 16, HammingOne())| == 3
  {
    assert |Row(4, 8, HammingOne())| == 2;
    assert |Row(4, 12, HammingOne())| == 2;
  }

  lemma HammingRow5()
    ensures |Row(5, 16, HammingOne())| == 2
  {
    assert |Row(5, 8, HammingOne())| == 1;
    assert |Row(5, 12, HammingOne())| == 1;
  }

  lemma HammingRow6()
    ensures |Row(6, 16, HammingOne())| == 2
  {
    assert |Row(6, 8, HammingOne())| == 1;
    assert |Row(6, 12, HammingOne())| == 1;
  }

  lemma HammingRow7()
    ensures |Row(7, 16, HammingOne())| == 1
  {
    assert |Row(7, 12, HammingOne())| == 0;
  }

  lemma HammingRow8()
    ensures |Row(8, 16, HammingOne())| == 3
  {
    assert |Row(8, 12, HammingOne())| == 2;
  }

  lemma HammingRow9()
    ensures |Row(9, 16, HammingOne())| == 2
  {
    assert |Row(9, 12, HammingOne())| == 1;
  }

  lemma HammingRow10()
    ensures |Row(10, 16, HammingOne())| == 2
  {
    assert |Row(10, 12, HammingOne())| == 1;
  }

  lemma HammingRow11()
    ensures |Row(11, 16, HammingOne())| == 1
  {
  }

  lemma HammingRow12()
    ensures |Row(12, 16, HammingOne())| == 2
  {
  }

  lemma HammingRow13()
    ensures |Row(13, 16, HammingOne())| == 1
  {
  }

  lemma HammingRow14()
    ensures |Row(14, 16, HammingOne())| == 1
  {
  }

  lemma HammingRow15()
    ensures |Row(15, 16, HammingOne())| == 0
  {
  }

  /** How many pairs each of the 16 rows of the one-bit-apart loop emits. */
  const HammingRowSizes: seq<nat> := [4, 3, 3, 2, 3, 2, 2, 1, 3, 2, 2, 1, 2, 1, 1, 0]

  /** The sizes of the first `k` rows added up. */
  function HammingRowsUpTo(k: nat): nat
    requires k <= 16
  {
    if k == 0 then 0 else HammingRowsUpTo(k - 1) + HammingRowSizes[k - 1]
  }

  /** The sizes of all 16 rows add up to 32. */
  lemma HammingRowsTotal()
    ensures HammingRowsUpTo(16) == 32
  {
    assert HammingRowsUpTo(1) == 4;
    assert HammingRowsUpTo(2) == 7;
    assert HammingRowsUpTo(3) == 10;
    assert HammingRowsUpTo(4) == 12;
    assert HammingRowsUpTo(5) == 15;
    assert HammingRowsUpTo(6) == 17;
    assert HammingRowsUpTo(7) == 19;
    assert HammingRowsUpTo(8) == 20;
    assert HammingRowsUpTo(9) == 23;
    assert HammingRowsUpTo(10) == 25;
    assert HammingRowsUpTo(11) == 27;
    assert HammingRowsUpTo(12) == 28;
    assert HammingRowsUpTo(13) == 30;
    assert HammingRowsUpTo(14) == 31;
    assert HammingRowsUpTo(15) == 32;
  }

  lemma HammingRowSize(i: nat)
    requires i < 16
    ensures |Row(i, 16, HammingOne())| == HammingRowSizes[i]
  {
    if i == 0 { HammingRow0(); }
    else if i == 1 { HammingRow1(); }
    else if i == 2 { HammingRow2(); }
    else if i == 3 { HammingRow3(); }
    else if i == 4 { HammingRow4(); }
    else if i == 5 { HammingRow5(); }
    else if i == 6 { HammingRow6(); }
    else if i == 7 { HammingRow7(); }
    else if i == 8 { HammingRow8(); }
    else if i == 9 { HammingRow9(); }
    else if i == 10 { HammingRow10(); }
    else if i == 11 { HammingRow11(); }
    else if i == 12 { HammingRow12(); }
    else if i == 13 { HammingRow13(); }
    else if i == 14 { HammingRow14(); }
    else { HammingRow15(); }
  }

  lemma {:induction false} HammingRowsSize(k: nat)
    requires k <= 16
    ensures |Rows(k, 16, HammingOne())| == HammingRowsUpTo(k)
  {
    if k > 0 {
      HammingRowsSize(k - 1);
      HammingRowSize(k - 1);
    }
  }

  /** Summing the rows: the one-bit-apart pair loop over 16 indices emits 32 pairs. */
  lemma HammingPairCount(n: nat)
    requires n == 16
    ensures |Rows(n, n, HammingOne())| == 32
  {
    HammingRowsTotal();
    HammingRowsSize(n);
  }

  /** The tesseract has 32 edges. */
  lemma TesseractEdgeCount()
    ensures |TessEdges()| == 32
  {
    TessKeepIsHammingOne();
    HammingPairCount(16);
  }

  lemma {:induction false} HammingSymmetric(i: nat, j: nat, k: nat)
    requires k <= 4
    ensures Hamming(i, j, k) == Hamming(j, i, k)
  {
    if k > 0 {
      HammingSymmetric(i, j, k - 1);
    }
  }

  lemma {:induction false} HammingSelf(i: nat, k: nat)
    requires k <= 4
    ensures Hamming(i, i, k) == 0
  {
    if k > 0 {
      HammingSelf(i, k - 1);
    }
  }

  /** The indices one bit away from `v`: its neighbours in the tesseract. */
  function Adjacent(v: nat): nat -> bool
  {
    (x: nat) => Hamming(x, v, 4) == 1
  }

  /** `x` is in the neighbour list of `v` exactly when the edge list joins `x` and `v`. */
  lemma TesseractNeighbours(v: nat)
    requires v < 16
    ensures forall x: nat :: x in FilterIndices(16, Adjacent(v)) <==>
      x < 16 && ((x < v && (x, v) in TessEdges()) || (v < x && (v, x) in TessEdges()))
  {
    TesseractEdgesHamming();
    NeighboursOf(v, TessEdges());
  }

  lemma NeighboursOf(v: nat, edges: seq<Edge>)
    requires v < 16
    requires forall e :: e in edges <==> e.0 < e.1 < 16 && Hamming(e.0, e.1, 4) == 1
    ensures forall x: nat :: x in FilterIndices(16, Adjacent(v)) <==>
      x < 16 && ((x < v && (x, v) in edges) || (v < x && (v, x) in edges))
  {
    FilterIndicesMembers(16, Adjacent(v));
    forall x: nat
      ensures Hamming(x, v, 4) == Hamming(v, x, 4)
    {
      HammingSymmetric(x, v, 4);
    }
    HammingSelf(v, 4);
  }

  /** How many `x < n` are one bit away from `v`. */
  function NeighbourCount(v: nat, n: nat): nat
  {
    if n == 0 then 0 else NeighbourCount(v, n - 1) + (if Hamming(n - 1, v, 4) == 1 then 1 else 0)
  }

  lemma {:induction false} NeighbourListLength(v: nat, n: nat)
    ensures |FilterIndices(n, Adjacent(v))| == NeighbourCount(v, n)
  {
    if n > 0 {
      NeighbourListLength(v, n - 1);
    }
  }

  /** Every tesseract vertex has degree 4. */
  lemma TesseractDegree(v: nat)
    requires v < 16
    ensures |FilterIndices(16, Adjacent(v))| == 4
  {
    NeighbourListLength(v, 16);
    DegreeCount(v);
  }

  /** `0` or `1`: bit `k` of `x` as a digit. */
  function Digit(x: nat, k: nat): int
    requires k < 4
  {
    if Bit(x, k) then 1 else 0
  }

  /** An index below 16 is the sum of its four binary digits. */
  lemma Digits(x: nat)
    requires x < 16
    ensures x == Digit(x, 0) + 2 * Digit(x, 1) + 4 * Digit(x, 2) + 8 * Digit(x, 3)
  {
    var q3, q2, q1 := x / 8, x / 4, x / 2;
    assert q2 == 2 * q3 + (q2 % 2);
    assert q1 == 2 * q2 + (q1 % 2);
    assert x == 2 * q1 + (x % 2);
  }

  function Pow2(k: nat): nat
    requires k < 4
  {
    if k == 0 then 1 else if k == 1 then 2 else if k == 2 then 4 else 8
  }

  /** `v` with bit `k` flipped. */
  function Flip(v: nat, k: nat): int
    requires k < 4
  {
    if Bit(v, k) then v - Pow2(k) else v + Pow2(k)
  }

  function Differ(a: int, b: int): nat
  {
    if a != b then 1 else 0
  }

  /** Two four-digit binary numbers differ in exactly one digit iff one is the other with one digit flipped. */
  lemma DigitArith(a0: int, a1: int, a2: int, a3: int, b0: int, b1: int, b2: int, b3: int)
    requires 0 <= a0 <= 1 && 0 <= a1 <= 1 && 0 <= a2 <= 1 && 0 <= a3 <= 1
    requires 0 <= b0 <= 1 && 0 <= b1 <= 1 && 0 <= b2 <= 1 && 0 <= b3 <= 1
    ensures var x, v := a0 + 2 * a1 + 4 * a2 + 8 * a3, b0 + 2 * b1 + 4 * b2 + 8 * b3;
      Differ(a0, b0) + Differ(a1, b1) + Differ(a2, b2) + Differ(a3, b3) == 1 <==>
      x == v + 1 - 2 * b0 || x == v + 2 - 4 * b1 || x == v + 4 - 8 * b2 || x == v + 8 - 16 * b3
  {
  }

  /** `x` is one bit away from `v` exactly when it is one of the four flips of `v`. */
  lemma HammingFlip(x: nat, v: nat)
    requires x < 16 && v < 16
    ensures Hamming(x, v, 4) == 1 <==> x == Flip(v, 0) || x == Flip(v, 1) || x == Flip(v, 2) || x == Flip(v, 3)
  {
    Digits(x);
    Digits(v);
    HammingDigits(x, v);
    FlipDigits(v);
    DigitArith(Digit(x, 0), Digit(x, 1), Digit(x, 2), Digit(x, 3), Digit(v, 0), Digit(v, 1), Digit(v, 2), Digit(v, 3));
  }

  /** The distance counts the differing digits. */
  lemma HammingDigits(x: nat, v: nat)
    ensures Hamming(x, v, 4)
      == Differ(Digit(x, 0), Digit(v, 0)) + Differ(Digit(x, 1), Digit(v, 1))
       + Differ(Digit(x, 2), Digit(v, 2)) + Differ(Digit(x, 3), Digit(v, 3))
  {
    assert Hamming(x, v, 1) == Differ(Digit(x, 0), Digit(v, 0));
    assert Hamming(x, v, 2) == Hamming(x, v, 1) + Differ(Digit(x, 1), Digit(v, 1));
    assert Hamming(x, v, 3) == Hamming(x, v, 2) + Differ(Digit(x, 2), Digit(v, 2));
  }

  /** Flipping bit `k` adds `2^k` to a zero digit and takes it from a one digit. */
  lemma FlipDigits(v: nat)
    ensures Flip(v, 0) == v + 1 - 2 * Digit(v, 0) && Flip(v, 1) == v + 2 - 4 * Digit(v, 1)
    ensures Flip(v, 2) == v + 4 - 8 * Digit(v, 2) && Flip(v, 3) == v + 8 - 16 * Digit(v, 3)
  {
  }

  /** The four flips of an index below 16 are distinct indices below 16. */
  lemma FlipRange(v: nat)
    requires v < 16
    ensures 0 <= Flip(v, 0) < 16 && 0 <= Flip(v, 1) < 16 && 0 <= Flip(v, 2) < 16 && 0 <= Flip(v, 3) < 16
    ensures Flip(v, 0) != Flip(v, 1) && Flip(v, 0) != Flip(v, 2) && Flip(v, 0) != Flip(v, 3)
    ensures Flip(v, 1) != Flip(v, 2) && Flip(v, 1) != Flip(v, 3) && Flip(v, 2) != Flip(v, 3)
  {
    Digits(v);
  }

  function Below(x: int, k: int): nat
  {
    if x < k then 1 else 0
  }

  /** How many of the four flips of `v` are below `k`. */
  function FlipsBelow(v: nat, k: nat): nat
    requires v < 16
  {
    Below(Flip(v, 0), k) + Below(Flip(v, 1), k) + Below(Flip(v, 2), k) + Below(Flip(v, 3), k)
  }

  /** Counting the neighbours of `v` below `k` counts its flips below `k`; all four are below 16. */
  lemma {:induction false} DegreeCount(v: nat)
    requires v < 16
    ensures NeighbourCount(v, 16) == 4
  {
    FlipRange(v);
    var k := 0;
    while k < 16
      invariant k <= 16
      invariant NeighbourCount(v, k) == FlipsBelow(v, k)
    {
      DegreeStep(v, k);
      k := k + 1;
    }
  }

  lemma DegreeStep(v: nat, k: nat)
    requires v < 16 && k < 16 && NeighbourCount(v, k) == FlipsBelow(v, k)
    ensures NeighbourCount(v, k + 1) == FlipsBelow(v, k + 1)
  {
    HammingFlip(k, v);
  }

  /** The indices whose bit `axis` is `b`. */
  function HasBit(axis: nat, b: bool): nat -> bool
    requires axis < 4
  {
    (i: nat) => Bit(i, axis) == b
  }

  function BitCount(axis: nat, b: bool, n: nat): nat
    requires axis < 4
  {
    if n == 0 then 0 else BitCount(axis, b, n - 1) + (if Bit(n - 1, axis) == b then 1 else 0)
  }

  lemma {:induction false} BitListLength(axis: nat, b: bool, n: nat)
    requires axis < 4
    ensures |FilterIndices(n, HasBit(axis, b))| == BitCount(axis, b, n)
  {
    if n > 0 {
      BitListLength(axis, b, n - 1);
    }
  }

  /** Half of the sixteen indices have a given bit set. */
  lemma HalfHaveBit(axis: nat, b: bool, n: nat)
    requires axis < 4 && n == 16
    ensures BitCount(axis, b, n) == 8
  {
    if axis == 0 {
      HalfHaveBit0();
    } else if axis == 1 {
      HalfHaveBit1();
    } else if axis == 2 {
      HalfHaveBit2();
    } else {
      HalfHaveBit3();
    }
  }

  lemma HalfHaveBit0()
    ensures BitCount(0, true, 16) == 8 && BitCount(0, false, 16) == 8
  {
    HalfHaveBit0True();
    HalfHaveBit0False();
  }

  lemma HalfHaveBit0True()
    ensures BitCount(0, true, 16) == 8
  {
    assert BitCount(0, true, 4) == 2;
    assert BitCount(0, true, 8) == 4;
    assert BitCount(0, true, 12) == 6;
  }

  lemma HalfHaveBit0False()
    ensures BitCount(0, false, 16) == 8
  {
    assert BitCount(0, false, 4) == 2;
    assert BitCount(0, false, 8) == 4;
    assert BitCount(0, false, 12) == 6;
  }

  lemma HalfHaveBit1()
    ensures BitCount(1, true, 16) == 8 && BitCount(1, false, 16) == 8
  {
    HalfHaveBit1True();
    HalfHaveBit1False();
  }

  lemma HalfHaveBit1True()
    ensures BitCount(1, true, 16) == 8
  {
    assert BitCount(1, true, 4) == 2;
    assert BitCount(1, true, 8) == 4;
    assert BitCount(1, true, 12) == 6;
  }

  lemma HalfHaveBit1False()
    ensures BitCount(1, false, 16) == 8
  {
    assert BitCount(1, false, 4) == 2;
    assert BitCount(1, false, 8) == 4;
    assert BitCount(1, false, 12) == 6;
  }

  lemma HalfHaveBit2()
    ensures BitCount(2, true, 16) == 8 && BitCount(2, false, 16) == 8
  {
    HalfHaveBit2True();
    HalfHaveBit2False();
  }

  lemma HalfHaveBit2True()
    ensures BitCount(2, true, 16) == 8
  {
    assert BitCount(2, true, 4) == 0;
    assert BitCount(2, true, 8) == 4;
    assert BitCount(2, true, 12) == 4;
  }

  lemma HalfHaveBit2False()
    ensures BitCount(2, false, 16) == 8
  {
    assert BitCount(2, false, 4) == 4;
    assert BitCount(2, false, 8) == 4;
    assert BitCount(2, false, 12) == 8;
  }

  lemma HalfHaveBit3()
    ensures BitCount(3, true, 16) == 8 && BitCount(3, false, 16) == 8
  {
    HalfHaveBit3True();
    HalfHaveBit3False();
  }

  lemma HalfHaveBit3True()
    ensures BitCount(3, true, 16) == 8
  {
    assert BitCount(3, true, 4) == 0;
    assert BitCount(3, true, 8) == 0;
    assert BitCount(3, true, 12) == 4;
  }

  lemma HalfHaveBit3False()
    ensures BitCount(3, false, 16) == 8
  {
    assert BitCount(3, false, 4) == 4;
    assert BitCount(3, false, 8) == 8;
    assert BitCount(3, false, 12) == 8;
  }

  lemma TessVertexCoord(i: nat, axis: nat)
    requires axis < 4
    ensures TessVertex(i)[axis] == HalfSign(Bit(i, axis))
  {
  }

  /** A coordinate `HalfSign(x)` is within 0.01 of the slot's sign exactly when `x` matches the slot. */
  lemma HalfSignOnFacet(x: bool, s: nat, c: real)
    requires c == HalfSign(x)
    ensures Abs(c - SignOfSlot(s)) < 0.01 <==> x == (s == 0)
  {
  }

  /** On the tesseract's vertices, lying on facet `(axis, s)` is having bit `axis` match the slot. */
  lemma TessFacetAgree(verts: seq<Vec4>, axis: nat, s: nat)
    requires axis < 4 && s < 2
    requires forall i :: 0 <= i < |verts| ==> verts[i] == TessVertex(i)
    ensures forall i: nat :: i < |verts| ==> OnFacet(verts, axis, SignOfSlot(s))(i) == HasBit(axis, s == 0)(i)
  {
    forall i: nat | i < |verts|
      ensures OnFacet(verts, axis, SignOfSlot(s))(i) == HasBit(axis, s == 0)(i)
    {
      var x, c := Bit(i, axis), verts[i][axis];
      TessVertexCoord(i, axis);
      HalfSignOnFacet(x, s, c);
      assert OnFacet(verts, axis, SignOfSlot(s))(i) == (Abs(c - SignOfSlot(s)) < 0.01);
      assert HasBit(axis, s == 0)(i) == (x == (s == 0));
    }
  }

  /** On the tesseract's vertices the facet filter of cube `(axis, s)` is the bit filter. */
  lemma TessCellVertices(verts: seq<Vec4>, axis: nat, s: nat)
    requires axis < 4 && s < 2
    requires forall i :: 0 <= i < |verts| ==> verts[i] == TessVertex(i)
    ensures TessCell(verts, axis, s).vertices == FilterIndices(|verts|, HasBit(axis, s == 0))
  {
    TessFacetAgree(verts, axis, s);
    FilterIndicesAgree(|verts|, OnFacet(verts, axis, SignOfSlot(s)), HasBit(axis, s == 0));
  }

  /**
   * Cell `2 * axis + s` of the tesseract is the cube on which coordinate `axis` is `+1/2`
   * (s = 0) or `-1/2` (s = 1): the eight indices whose bit `axis` is set (s = 0) or clear (s = 1).
   */
  lemma TesseractCells(verts: seq<Vec4>, axis: nat, s: nat)
    requires axis < 4 && s < 2
    requires |verts| == 16 && forall i :: 0 <= i < 16 ==> verts[i] == TessVertex(i)
    ensures |TessCells(verts)| == 8
    ensures TessCells(verts)[2 * axis + s].cellType == Cube(axis, SignOfSlot(s))
    ensures forall i: nat :: i in TessCells(verts)[2 * axis + s].vertices <==> i < 16 && Bit(i, axis) == (s == 0)
    ensures |TessCells(verts)[2 * axis + s].vertices| == 8
  {
    var n, b := |verts|, s == 0;
    TessCellAt(verts, 4, axis, s);
    var cell := TessCells(verts)[2 * axis + s];
    TessCellVertices(verts, axis, s);
    forall i: nat
      ensures i in cell.vertices <==> i < 16 && Bit(i, axis) == b
    {
      FilterIndicesMember(n, HasBit(axis, b), i);
    }
    BitListLength(axis, b, n);
    HalfHaveBit(axis, b, n);
  }
}

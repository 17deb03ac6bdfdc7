/**
 * `build24Cell`: the 24 vertices with two entries `+-1` on a coordinate pair, the edges at
 * distance `sqrt(2)`, and the 8 + 16 octahedral cells.
 */
module TwentyFourCell {
  import opened RealMath
  import opened Vectors
  import opened PairLoops
  import opened PolytopeBuilders

  /** The coordinate pairs in loop order: `[0,1], [0,2], [0,3], [1,2], [1,3], [2,3]`. */
  const Pairs: seq<Edge> := [(0, 1), (0, 2), (0, 3), (1, 2), (1, 3), (2, 3)]

  /** The pair loop is the `i < j < 4` pair loop. */
  lemma PairsLoop()
    ensures FilterPairs(4, AnyPair()) == Pairs
  {
    assert Row(0, 4, AnyPair()) == [(0, 1), (0, 2), (0, 3)];
  }

  /** The sign loops run over `[1, -1]`: slot 0 is `+1`, slot 1 is `-1`. */
  function SlotSign(b: nat): int
  {
    if b == 0 then 1 else -1
  }

  /**
   * Coordinate `k` of vertex `m = 4p + 2a + b`: `SlotSign(a)` on the first axis of pair `p`,
   * `SlotSign(b)` on the second, zero elsewhere.
   */
  function Coord(m: nat, k: nat): int
    requires m < 24
  {
    var pair := Pairs[m / 4];
    if k == pair.0 then SlotSign((m % 4) / 2)
    else if k == pair.1 then SlotSign(m % 2)
    else 0
  }

  function Vertex(m: nat): Vec4
    requires m < 24
  {
    [Coord(m, 0) as real, Coord(m, 1) as real, Coord(m, 2) as real, Coord(m, 3) as real]
  }

  function Vertices(): (r: seq<Vec4>)
    ensures |r| == 24 && forall m :: 0 <= m < 24 ==> r[m] == Vertex(m)
  {
    seq(24, m requires 0 <= m < 24 => Vertex(m))
  }

  /** The edge test: the distance is within 0.01 of `sqrt(2)`. */
  function RootTwoKeep(verts: seq<Vec4>, sqrt: real -> real): (nat, nat) -> bool
  {
    (i: nat, j: nat) => i < |verts| && j < |verts| && Abs(Dist4(verts[i], verts[j], sqrt) - sqrt(2.0)) < 0.01
  }

  /** The squared distance of two vertices, on the integer coordinates. */
  function IntDistSq(m: nat, n: nat): int
    requires m < 24 && n < 24
  {
    var d0, d1, d2, d3 := Coord(m, 0) - Coord(n, 0), Coord(m, 1) - Coord(n, 1),
      Coord(m, 2) - Coord(n, 2), Coord(m, 3) - Coord(n, 3);
    d0 * d0 + d1 * d1 + d2 * d2 + d3 * d3
  }

  function AtDistTwo(): (nat, nat) -> bool
  {
    (i: nat, j: nat) => i < 24 && j < 24 && IntDistSq(i, j) == 2
  }

  lemma SqCast(x: int)
    ensures Sq(x as real) == (x * x) as real
  {
  }

  lemma DistCast(m: nat, n: nat)
    requires m < 24 && n < 24
    ensures Dist4Sq(Vertex(m), Vertex(n)) == IntDistSq(m, n) as real
  {
    IntPointsDist(Coord(m, 0), Coord(m, 1), Coord(m, 2), Coord(m, 3),
                  Coord(n, 0), Coord(n, 1), Coord(n, 2), Coord(n, 3));
  }

  /** The squared distance of two points with integer coordinates is the integer sum of squares. */
  lemma IntPointsDist(x0: int, x1: int, x2: int, x3: int, y0: int, y1: int, y2: int, y3: int)
    ensures Dist4Sq([x0 as real, x1 as real, x2 as real, x3 as real], [y0 as real, y1 as real, y2 as real, y3 as real])
      == ((x0 - y0) * (x0 - y0) + (x1 - y1) * (x1 - y1) + (x2 - y2) * (x2 - y2) + (x3 - y3) * (x3 - y3)) as real
  {
    SqCast(x0 - y0);
    SqCast(x1 - y1);
    SqCast(x2 - y2);
    SqCast(x3 - y3);
  }

  /** Every vertex has two entries `+-1` and two zeros, so its squared length is 2. */
  lemma CoordShape(m: nat)
    requires m < 24
    ensures forall k :: 0 <= k < 4 ==> -1 <= Coord(m, k) <= 1
    ensures Coord(m, 0) * Coord(m, 0) + Coord(m, 1) * Coord(m, 1)
      + Coord(m, 2) * Coord(m, 2) + Coord(m, 3) * Coord(m, 3) == 2
  {
  }

  function IntDot(m: nat, n: nat): int
    requires m < 24 && n < 24
  {
    Coord(m, 0) * Coord(n, 0) + Coord(m, 1) * Coord(n, 1) + Coord(m, 2) * Coord(n, 2) + Coord(m, 3) * Coord(n, 3)
  }

  lemma DistDot(m: nat, n: nat)
    requires m < 24 && n < 24
    ensures IntDistSq(m, n) == 4 - 2 * IntDot(m, n)
    ensures 0 <= 4 + 2 * IntDot(m, n)
  {
    CoordShape(m);
    CoordShape(n);
    SquareExpansion(Coord(m, 0), Coord(m, 1), Coord(m, 2), Coord(m, 3),
      Coord(n, 0), Coord(n, 1), Coord(n, 2), Coord(n, 3));
  }

  lemma SquareExpansion(a0: int, a1: int, a2: int, a3: int, b0: int, b1: int, b2: int, b3: int)
    requires a0 * a0 + a1 * a1 + a2 * a2 + a3 * a3 == 2
    requires b0 * b0 + b1 * b1 + b2 * b2 + b3 * b3 == 2
    ensures (a0 - b0) * (a0 - b0) + (a1 - b1) * (a1 - b1) + (a2 - b2) * (a2 - b2) + (a3 - b3) * (a3 - b3)
      == 4 - 2 * (a0 * b0 + a1 * b1 + a2 * b2 + a3 * b3)
    ensures 0 <= 4 + 2 * (a0 * b0 + a1 * b1 + a2 * b2 + a3 * b3)
  {
    Binomials(a0, b0);
    Binomials(a1, b1);
    Binomials(a2, b2);
    Binomials(a3, b3);
  }

  /** The squares of a difference and of a sum; the latter is not negative. */
  lemma Binomials(a: int, b: int)
    ensures (a - b) * (a - b) == a * a - 2 * (a * b) + b * b
    ensures 0 <= (a + b) * (a + b) == a * a + 2 * (a * b) + b * b
  {
  }

  /** The coordinates determine the index. */
  lemma CoordInjective(m: nat, n: nat)
    requires m < 24 && n < 24
    requires forall k :: 0 <= k < 4 ==> Coord(m, k) == Coord(n, k)
    ensures m == n
  {
    assert Coord(m, 0) == Coord(n, 0) && Coord(m, 1) == Coord(n, 1);
    assert Coord(m, 2) == Coord(n, 2) && Coord(m, 3) == Coord(n, 3);
  }

  /** Distinct vertices lie at squared distance 2, 4, 6 or 8. */
  lemma IntDistValues(m: nat, n: nat)
    requires m < 24 && n < 24
    ensures m == n ==> IntDistSq(m, n) == 0
    ensures m != n ==> IntDistSq(m, n) in {2, 4, 6, 8}
  {
    IntDistEven(m, n);
    if IntDistSq(m, n) == 0 {
      DistZeroSame(m, n);
    }
  }

  /** The squared distance is one of 0, 2, 4, 6 and 8. */
  lemma IntDistEven(m: nat, n: nat)
    requires m < 24 && n < 24
    ensures IntDistSq(m, n) in {0, 2, 4, 6, 8}
  {
    DistDot(m, n);
    var d0, d1, d2, d3 := Coord(m, 0) - Coord(n, 0), Coord(m, 1) - Coord(n, 1),
      Coord(m, 2) - Coord(n, 2), Coord(m, 3) - Coord(n, 3);
    EvenBetween(d0, d1, d2, d3, IntDot(m, n));
  }

  /** Squared distance 0 means the same vertex. */
  lemma DistZeroSame(m: nat, n: nat)
    requires m < 24 && n < 24 && IntDistSq(m, n) == 0
    ensures m == n
  {
    ZeroSquares(Coord(m, 0) - Coord(n, 0), Coord(m, 1) - Coord(n, 1),
      Coord(m, 2) - Coord(n, 2), Coord(m, 3) - Coord(n, 3));
    CoordInjective(m, n);
  }

  lemma ZeroSquares(d0: int, d1: int, d2: int, d3: int)
    requires d0 * d0 + d1 * d1 + d2 * d2 + d3 * d3 == 0
    ensures d0 == 0 && d1 == 0 && d2 == 0 && d3 == 0
  {
    assert 0 <= d0 * d0 && 0 <= d1 * d1 && 0 <= d2 * d2 && 0 <= d3 * d3;
  }

  lemma EvenBetween(d0: int, d1: int, d2: int, d3: int, t: int)
    requires d0 * d0 + d1 * d1 + d2 * d2 + d3 * d3 == 4 - 2 * t
    requires 0 <= 4 + 2 * t
    ensures d0 * d0 + d1 * d1 + d2 * d2 + d3 * d3 in {0, 2, 4, 6, 8}
  {
    assert 0 <= d0 * d0 && 0 <= d1 * d1 && 0 <= d2 * d2 && 0 <= d3 * d3;
    assert -2 <= t <= 2;
  }

  /** `sqrt(2)` lies below 1.42. */
  lemma RootTwoBelow(sqrt: real -> real)
    requires IsSqrt(sqrt)
    ensures 0.0 <= sqrt(2.0) < 1.42
  {
    SqrtLess(sqrt, 2.0, 1.42);
  }

  /** Among the squared distances that occur, only 2 passes the `|d - sqrt(2)| < 0.01` test. */
  lemma RootTwoTest(sqrt: real -> real, d: real)
    requires IsSqrt(sqrt)
    requires d == 2.0 || d == 4.0 || d == 6.0 || d == 8.0
    ensures Abs(sqrt(d) - sqrt(2.0)) < 0.01 <==> d == 2.0
  {
    RootTwoBelow(sqrt);
    if d != 2.0 {
      SqrtGreater(sqrt, d, 1.99);
    }
  }

  /** The tolerance test keeps exactly the pairs at squared distance 2. */
  lemma RootTwoKeepIsDistTwo(sqrt: real -> real)
    requires IsSqrt(sqrt)
    ensures FilterPairs(24, RootTwoKeep(Vertices(), sqrt)) == FilterPairs(24, AtDistTwo())
  {
    var verts := Vertices();
    forall i: nat, j: nat | i < j < 24
      ensures RootTwoKeep(verts, sqrt)(i, j) == AtDistTwo()(i, j)
    {
      DistCast(i, j);
      IntDistValues(i, j);
      RootTwoTest(sqrt, Dist4Sq(verts[i], verts[j]));
    }
    FilterPairsAgree(24, RootTwoKeep(verts, sqrt), AtDistTwo());
  }

  // ---------------------------------------------------------------- cells

  /** The sign loops of the type-2 cells run `-1, 1`: digit 0 is `-1`, digit 1 is `+1`. */
  function DigitSign(b: nat): int
  {
    if b == 0 then -1 else 1
  }

  /** The sign vector of type-2 cell `q = 8 b0 + 4 b1 + 2 b2 + b3`. */
  function CellSigns(q: nat): seq<int>
  {
    [DigitSign(q / 8), DigitSign((q / 4) % 2), DigitSign((q / 2) % 2), DigitSign(q % 2)]
  }

  /** The index formula: from pair `p`, the vertex `4p + 2 [signs[i] = -1] + [signs[j] = -1]`. */
  function PickIndex(signs: seq<int>, p: nat): nat
    requires |signs| == 4 && p < 6
  {
    4 * p + (if signs[Pairs[p].0] == -1 then 2 else 0) + (if signs[Pairs[p].1] == -1 then 1 else 0)
  }

  function SignCell(signs: seq<int>): seq<nat>
    requires |signs| == 4
  {
    seq(6, p requires 0 <= p < 6 => PickIndex(signs, p))
  }

  /** Type-1 cell `2 * axis + s` collects the vertices with `SlotSign(s)` on `axis`. */
  /** The cell of the vertices whose coordinate `axis` is `SlotSign(s)`. */
  function AxisCell(verts: seq<Vec4>, axis: nat, s: nat): Cell
    requires axis < 4
  {
    Cell(FilterIndices(|verts|, OnFacet(verts, axis, SlotSign(s) as real)), Octahedron)
  }

  /** The two cells of one axis, `+1` first. */
  function AxisPair(verts: seq<Vec4>, axis: nat): seq<Cell>
    requires axis < 4
  {
    [AxisCell(verts, axis, 0), AxisCell(verts, axis, 1)]
  }

  /** The cells of the first `n` axes. */
  function AxisCellsUpTo(verts: seq<Vec4>, n: nat): (r: seq<Cell>)
    requires n <= 4
    ensures |r| == 2 * n
  {
    if n == 0 then [] else AxisCellsUpTo(verts, n - 1) + AxisPair(verts, n - 1)
  }

  function AxisCells(verts: seq<Vec4>): seq<Cell>
  {
    AxisCellsUpTo(verts, 4)
  }

  /** Cell `2 * axis + s` is the cell of that axis and sign. */
  lemma {:induction false} AxisCellAt(verts: seq<Vec4>, n: nat, axis: nat, s: nat)
    requires axis < n <= 4 && s < 2
    ensures AxisCellsUpTo(verts, n)[2 * axis + s] == AxisCell(verts, axis, s)
  {
    if axis < n - 1 {
      AxisCellAt(verts, n - 1, axis, s);
    }
  }

  function SignCells(): seq<Cell>
  {
    seq(16, q requires 0 <= q < 16 => Cell(SignCell(CellSigns(q)), Octahedron))
  }

  function TwentyFourSpec(sqrt: real -> real): Polytope
  {
    Polytope(Vertices(), FilterPairs(24, RootTwoKeep(Vertices(), sqrt)),
      AxisCells(Vertices()) + SignCells(), true)
  }

  /** `build24Cell`: the pair loop, the vertex loops, the tolerance-checked pair loop and both cell families. */
  method Build24Cell(sqrt: real -> real) returns (p: Polytope)
    ensures p == TwentyFourSpec(sqrt)
  {
    var pairs := CollectPairs(4, AnyPair());
    PairsLoop();
    var verts := VertexLoops(pairs);
    var edges := CollectPairs(24, RootTwoKeep(verts, sqrt));
    var axisCells := AxisCellLoops(verts);
    var signCells := SignCellLoops(pairs);
    p := Polytope(verts, edges, axisCells + signCells, true);
  }

  method VertexLoops(pairs: seq<Edge>) returns (verts: seq<Vec4>)
    requires pairs == Pairs
    ensures verts == Vertices()
  {
    verts := [];
    var p := 0;
    while p < 6
      invariant p <= 6
      invariant |verts| == 4 * p
      invariant forall m :: 0 <= m < |verts| ==> verts[m] == Vertex(m)
    {
      var (i, j) := pairs[p];
      var a := 0;
      while a < 2
        invariant a <= 2
        invariant |verts| == 4 * p + 2 * a
        invariant forall m :: 0 <= m < |verts| ==> verts[m] == Vertex(m)
      {
        var b := 0;
        while b < 2
          invariant b <= 2
          invariant |verts| == 4 * p + 2 * a + b
          invariant forall m :: 0 <= m < |verts| ==> verts[m] == Vertex(m)
        {
          var v := [0.0, 0.0, 0.0, 0.0];
          v := v[i := SlotSign(a) as real];
          v := v[j := SlotSign(b) as real];
          VertexDigits(|verts|, p, a, b);
          Equal4(v, Vertex(|verts|));
          verts := verts + [v];
          b := b + 1;
        }
        a := a + 1;
      }
      p := p + 1;
    }
    assert verts == Vertices();
  }

  lemma VertexDigits(m: nat, p: nat, a: nat, b: nat)
    requires p < 6 && a < 2 && b < 2 && m == 4 * p + 2 * a + b
    ensures m < 24 && m / 4 == p && (m % 4) / 2 == a && m % 2 == b
  {
  }

  method AxisCellLoops(verts: seq<Vec4>) returns (cells: seq<Cell>)
    requires |verts| == 24
    ensures cells == AxisCells(verts)
  {
    cells := [];
    var axis := 0;
    while axis < 4
      invariant axis <= 4
      invariant cells == AxisCellsUpTo(verts, axis)
    {
      var pair := SignLoop(verts, axis);
      cells := cells + pair;
      axis := axis + 1;
    }
  }

  /** The inner `for (const sign of [1, -1])` loop of one axis. */
  method SignLoop(verts: seq<Vec4>, axis: nat) returns (cells: seq<Cell>)
    requires |verts| == 24 && axis < 4
    ensures cells == AxisPair(verts, axis)
  {
    cells := [];
    var s := 0;
    while s < 2
      invariant s <= 2
      invariant cells == AxisPair(verts, axis)[..s]
    {
      var cell := AxisCellOfSlot(verts, axis, s);
      assert AxisPair(verts, axis)[..s + 1] == AxisPair(verts, axis)[..s] + [cell];
      cells := cells + [cell];
      s := s + 1;
    }
  }

  /** One pass of the sign loop: the vertices on the facet where coordinate `axis` is the sign. */
  method AxisCellOfSlot(verts: seq<Vec4>, axis: nat, s: nat) returns (cell: Cell)
    requires axis < 4
    ensures cell == AxisCell(verts, axis, s)
  {
    var cv := CollectIndices(|verts|, OnFacet(verts, axis, SlotSign(s) as real));
    cell := Cell(cv, Octahedron);
  }


  method SignCellLoops(pairs: seq<Edge>) returns (cells: seq<Cell>)
    requires pairs == Pairs
    ensures cells == SignCells()
  {
    ghost var spec := SignCells();
    cells := [];
    var s0 := -1;
    while s0 <= 1
      invariant s0 == -1 || s0 == 1 || s0 == 3
      invariant cells == spec[..4 * (s0 + 1)]
    {
      var s1 := -1;
      while s1 <= 1
        invariant s1 == -1 || s1 == 1 || s1 == 3
        invariant cells == spec[..4 * (s0 + 1) + 2 * (s1 + 1)]
      {
        var s2 := -1;
        while s2 <= 1
          invariant s2 == -1 || s2 == 1 || s2 == 3
          invariant cells == spec[..4 * (s0 + 1) + 2 * (s1 + 1) + (s2 + 1)]
        {
          var s3 := -1;
          while s3 <= 1
            invariant s3 == -1 || s3 == 1 || s3 == 3
            invariant cells == spec[..4 * (s0 + 1) + 2 * (s1 + 1) + (s2 + 1) + (s3 + 1) / 2]
          {
            cells := AddSignCell(pairs, s0, s1, s2, s3, cells);
            s3 := s3 + 2;
          }
          s2 := s2 + 2;
        }
        s1 := s1 + 2;
      }
      s0 := s0 + 2;
    }
    assert spec[..16] == spec;
  }

  /** The body of the four sign loops: push the cell of the sign vector `[s0, s1, s2, s3]`. */
  method AddSignCell(pairs: seq<Edge>, s0: int, s1: int, s2: int, s3: int, cells: seq<Cell>)
    returns (cells': seq<Cell>)
    requires pairs == Pairs
    requires (s0 == -1 || s0 == 1) && (s1 == -1 || s1 == 1) && (s2 == -1 || s2 == 1) && (s3 == -1 || s3 == 1)
    requires cells == SignCells()[..4 * (s0 + 1) + 2 * (s1 + 1) + (s2 + 1) + (s3 + 1) / 2]
    ensures cells' == SignCells()[..4 * (s0 + 1) + 2 * (s1 + 1) + (s2 + 1) + (s3 + 1) / 2 + 1]
  {
    ghost var spec := SignCells();
    var signs := [s0, s1, s2, s3];
    var cv := PickLoop(pairs, signs);
    var q := 4 * (s0 + 1) + 2 * (s1 + 1) + (s2 + 1) + (s3 + 1) / 2;
    SignDigits(q, s0, s1, s2, s3);
    assert spec[q] == Cell(cv, Octahedron);
    assert spec[..q + 1] == spec[..q] + [spec[q]];
    cells' := cells + [Cell(cv, Octahedron)];
  }

  /** The loop over the six pairs pushing the index formula. */
  method PickLoop(pairs: seq<Edge>, signs: seq<int>) returns (cv: seq<nat>)
    requires pairs == Pairs && |signs| == 4
    ensures cv == SignCell(signs)
  {
    cv := [];
    var p := 0;
    while p < 6
      invariant p <= 6
      invariant cv == SignCell(signs)[..p]
    {
      var (i, j) := pairs[p];
      var idx := 4 * p + (if signs[i] == -1 then 2 else 0) + (if signs[j] == -1 then 1 else 0);
      assert SignCell(signs)[..p + 1] == SignCell(signs)[..p] + [idx];
      cv := cv + [idx];
      p := p + 1;
    }
  }

  lemma SignDigits(q: int, s0: int, s1: int, s2: int, s3: int)
    requires s0 == -1 || s0 == 1
    requires s1 == -1 || s1 == 1
    requires s2 == -1 || s2 == 1
    requires s3 == -1 || s3 == 1
    requires q == 4 * (s0 + 1) + 2 * (s1 + 1) + (s2 + 1) + (s3 + 1) / 2
    ensures 0 <= q < 16 && CellSigns(q) == [s0, s1, s2, s3]
  {
    var b0, b1, b2, b3 := (s0 + 1) / 2, (s1 + 1) / 2, (s2 + 1) / 2, (s3 + 1) / 2;
    assert q == 8 * b0 + 4 * b1 + 2 * b2 + b3;
  }

  // ---------------------------------------------------------------- properties

  /** Vertex `4p + k` has its nonzero entries exactly on the two axes of pair `p`. */
  lemma VertexSupport(m: nat, k: nat)
    requires m < 24 && k < 4
    ensures |Vertices()| == 24
    ensures Vertices()[m][k] != 0.0 <==> k == Pairs[m / 4].0 || k == Pairs[m / 4].1
    ensures Vertices()[m][k] == 1.0 || Vertices()[m][k] == -1.0 || Vertices()[m][k] == 0.0
  {
  }

  /** The 24-cell's edges are exactly the pairs `i < j` at squared distance 2, in loop order. */
  lemma TwentyFourEdges(sqrt: real -> real)
    requires IsSqrt(sqrt)
    ensures forall e :: e in TwentyFourSpec(sqrt).edges <==>
      e.0 < e.1 < 24 && Dist4Sq(Vertex(e.0), Vertex(e.1)) == 2.0
    ensures StrictlyOrdered(TwentyFourSpec(sqrt).edges)
  {
    RootTwoKeepIsDistTwo(sqrt);
    FilterPairsMembers(24, AtDistTwo());
    forall e: Edge | e.0 < e.1 < 24
      ensures AtDistTwo()(e.0, e.1) <==> Dist4Sq(Vertex(e.0), Vertex(e.1)) == 2.0
    {
      DistCast(e.0, e.1);
    }
  }

  function HasCoord(axis: nat, sign: int): nat -> bool
  {
    (k: nat) => k < 24 && Coord(k, axis) == sign
  }

  function CoordCount(axis: nat, sign: int, n: nat): nat
    requires n <= 24
  {
    if n == 0 then 0 else CoordCount(axis, sign, n - 1) + (if Coord(n - 1, axis) == sign then 1 else 0)
  }

  lemma {:induction false} CoordListLength(axis: nat, sign: int, n: nat)
    requires n <= 24
    ensures |FilterIndices(n, HasCoord(axis, sign))| == CoordCount(axis, sign, n)
  {
    if n > 0 {
      CoordListLength(axis, sign, n - 1);
    }
  }

  /** Six vertices carry each sign on each axis. */
  lemma SixOnEachFacet(axis: nat, s: nat, n: nat)
    requires axis < 4 && s < 2 && n == 24
    ensures CoordCount(axis, SlotSign(s), n) == 6
  {
    if axis == 0 && s == 0 {
      SixOnFacet00();
    } else if axis == 0 && s == 1 {
      SixOnFacet01();
    } else if axis == 1 && s == 0 {
      SixOnFacet10();
    } else if axis == 1 && s == 1 {
      SixOnFacet11();
    } else if axis == 2 && s == 0 {
      SixOnFacet20();
    } else if axis == 2 && s == 1 {
      SixOnFacet21();
    } else if axis == 3 && s == 0 {
      SixOnFacet30();
    } else if axis == 3 && s == 1 {
      SixOnFacet31();
    }
  }

  lemma SixOnFacet00()
    ensures CoordCount(0, 1, 24) == 6
  {
    assert CoordCount(0, 1, 8) == 4;
    assert CoordCount(0, 1, 16) == 6;
  }



  lemma SixOnFacet01()
    ensures CoordCount(0, -1, 24) == 6
  {
    assert CoordCount(0, -1, 8) == 4;
    assert CoordCount(0, -1, 16) == 6;
  }



  lemma SixOnFacet10()
    ensures CoordCount(1, 1, 24) == 6
  {
    assert CoordCount(1, 1, 8) == 2;
    assert CoordCount(1, 1, 16) == 4;
  }



  lemma SixOnFacet11()
    ensures CoordCount(1, -1, 24) == 6
  {
    assert CoordCount(1, -1, 8) == 2;
    assert CoordCount(1, -1, 16) == 4;
  }



  lemma SixOnFacet20()
    ensures CoordCount(2, 1, 24) == 6
  {
    assert CoordCount(2, 1, 8) == 2;
    assert CoordCount(2, 1, 16) == 4;
  }



  lemma SixOnFacet21()
    ensures CoordCount(2, -1, 24) == 6
  {
    assert CoordCount(2, -1, 8) == 2;
    assert CoordCount(2, -1, 16) == 4;
  }



  lemma SixOnFacet30()
    ensures CoordCount(3, 1, 24) == 6
  {
    assert CoordCount(3, 1, 12) == 2;
    assert CoordCount(3, 1, 18) == 3;
  }



  lemma SixOnFacet31()
    ensures CoordCount(3, -1, 24) == 6
  {
    assert CoordCount(3, -1, 12) == 2;
    assert CoordCount(3, -1, 18) == 3;
  }



  /**
   * Type-1 cell `2 * axis + s` holds the six vertices whose coordinate `axis` is
   * `SlotSign(s)`.
   */
  lemma AxisCellMembers(verts: seq<Vec4>, axis: nat, s: nat)
    requires axis < 4 && s < 2
    requires |verts| == 24 && forall k :: 0 <= k < 24 ==> verts[k] == Vertex(k)
    ensures |AxisCells(verts)| == 8
    ensures forall k: nat :: k in AxisCells(verts)[2 * axis + s].vertices <==>
      k < 24 && Coord(k, axis) == SlotSign(s)
    ensures |AxisCells(verts)[2 * axis + s].vertices| == 6
    ensures AxisCells(verts)[2 * axis + s].cellType == Octahedron
  {
    var n, sign := |verts|, SlotSign(s);
    AxisCellAt(verts, 4, axis, s);
    FacetIndices(verts, axis, s);
    var cell := AxisCells(verts)[2 * axis + s];
    assert cell.vertices == FilterIndices(n, HasCoord(axis, sign));
    forall k: nat
      ensures k in cell.vertices <==> k < 24 && Coord(k, axis) == sign
    {
      FilterIndicesMember(n, HasCoord(axis, sign), k);
    }
    CoordListLength(axis, sign, n);
    SixOnEachFacet(axis, s, n);
  }

  lemma CoordRange(m: nat, k: nat)
    requires m < 24
    ensures -1 <= Coord(m, k) <= 1
  {
  }

  /** On the 24 vertices the facet test with tolerance is the exact coordinate test. */
  lemma FacetIndices(verts: seq<Vec4>, axis: nat, s: nat)
    requires axis < 4 && s < 2
    requires |verts| == 24 && forall k :: 0 <= k < 24 ==> verts[k] == Vertex(k)
    ensures FilterIndices(|verts|, OnFacet(verts, axis, SlotSign(s) as real))
      == FilterIndices(|verts|, HasCoord(axis, SlotSign(s)))
  {
    var sign := SlotSign(s);
    forall k: nat | k < |verts|
      ensures OnFacet(verts, axis, sign as real)(k) == HasCoord(axis, sign)(k)
    {
      CoordRange(k, axis);
      assert verts[k][axis] == Coord(k, axis) as real;
    }
    FilterIndicesAgree(|verts|, OnFacet(verts, axis, sign as real), HasCoord(axis, sign));
  }

  /**
   * Type-2 cell `8 + q` takes from each pair `p` the vertex `4p + ...` whose two nonzero
   * entries are the entries of the cell's sign vector on that pair.
   */
  lemma SignCellMembers(q: nat, p: nat)
    requires q < 16 && p < 6
    ensures |SignCells()| == 16
    ensures SignCells()[q].cellType == Octahedron
    ensures |SignCells()[q].vertices| == 6
    ensures SignCells()[q].vertices[p] < 24
    ensures SignCells()[q].vertices[p] / 4 == p
    ensures Coord(SignCells()[q].vertices[p], Pairs[p].0) == CellSigns(q)[Pairs[p].0]
    ensures Coord(SignCells()[q].vertices[p], Pairs[p].1) == CellSigns(q)[Pairs[p].1]
  {
  }

  /** The cell list is the 8 type-1 cells followed by the 16 type-2 cells. */
  lemma TwentyFourCellCount(sqrt: real -> real)
    ensures TwentyFourSpec(sqrt).cells == AxisCells(Vertices()) + SignCells()
    ensures |TwentyFourSpec(sqrt).cells| == 24
  {
  }
}

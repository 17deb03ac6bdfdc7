/**
 * `build600Cell`: the 8 axis vertices, the 16 half-integer vertices and the 96 even
 * permutations of `(0, +-1/(2 phi), +-1/2, +-phi/2)`, deduplicated; the pairs at distance
 * about `1/phi` as edges; and the tetrahedral cells found by the common-neighbour search.
 */
module SixHundredCell {
  import opened RealMath
  import opened Vectors
  import opened PairLoops
  import opened PolytopeBuilders
  import opened Dedup
  import opened Cliques
  import SixteenCell
  import TwentyFourCell

  // ---------------------------------------------------------------- golden ratio

  /** `PHI = (1 + sqrt(5)) / 2`. */
  function Phi(sqrt: real -> real): real
  {
    (1.0 + sqrt(5.0)) / 2.0
  }

  /** `IPHI = 1 / PHI`. */
  function IPhi(sqrt: real -> real): real
    requires IsSqrt(sqrt)
  {
    SqrtPositive(sqrt, 5.0);
    1.0 / Phi(sqrt)
  }

  /** `template = [0, a, b, c]` with `a = IPHI / 2`, `b = 0.5`, `c = PHI / 2`. */
  function Template(sqrt: real -> real): seq<real>
    requires IsSqrt(sqrt)
  {
    [0.0, IPhi(sqrt) / 2.0, 0.5, Phi(sqrt) / 2.0]
  }

  /** The template is `0 < a < b < c`, with `a` and `c` within a few hundredths of 0.309 and 0.809. */
  lemma GoldenTemplate(sqrt: real -> real)
    requires IsSqrt(sqrt)
    ensures |Template(sqrt)| == 4 && Template(sqrt)[0] == 0.0 && Template(sqrt)[2] == 0.5
    ensures 0.3 < Template(sqrt)[1] < 0.32 && 0.8 < Template(sqrt)[3] < 0.82
  {
    SqrtGreater(sqrt, 5.0, 2.2);
    SqrtLess(sqrt, 5.0, 2.25);
    var phi := Phi(sqrt);
    assert 1.6 < phi < 1.625;
    ReciprocalBounds(phi);
  }

  lemma ReciprocalBounds(y: real)
    requires 1.6 < y < 1.625
    ensures 0.6 < 1.0 / y < 0.64
  {
  }

  // ---------------------------------------------------------------- even permutations

  const EvenPerms: seq<seq<nat>> := [
    [0, 1, 2, 3], [0, 2, 3, 1], [0, 3, 1, 2],
    [1, 0, 3, 2], [1, 2, 0, 3], [1, 3, 2, 0],
    [2, 0, 1, 3], [2, 1, 3, 0], [2, 3, 0, 1],
    [3, 0, 2, 1], [3, 1, 0, 2], [3, 2, 1, 0]]

  /** Four indices into the template. */
  predicate Indices4(perm: seq<nat>)
  {
    |perm| == 4 && forall i :: 0 <= i < 4 ==> perm[i] < 4
  }

  /** A permutation of `0..3`. */
  predicate IsPerm4(perm: seq<nat>)
  {
    Indices4(perm) && NoDup(perm)
  }

  function Ind(b: bool): nat
  {
    if b then 1 else 0
  }

  /** The number of pairs `i < j` a permutation puts out of order. */
  function Inversions(perm: seq<nat>): nat
    requires |perm| == 4
  {
    Ind(perm[0] > perm[1]) + Ind(perm[0] > perm[2]) + Ind(perm[0] > perm[3])
    + Ind(perm[1] > perm[2]) + Ind(perm[1] > perm[3]) + Ind(perm[2] > perm[3])
  }

  /** Position `i` does not take the template's zero. */
  function NonZeroSlot(perm: seq<nat>): nat -> bool
  {
    (i: nat) => i < |perm| && perm[i] != 0
  }

  /** The base-4 number with digits `perm`: the table lists the permutations by increasing code. */
  function Code(perm: seq<nat>): nat
    requires |perm| == 4
  {
    64 * perm[0] + 16 * perm[1] + 4 * perm[2] + perm[3]
  }

  lemma EvenPermRow(p: nat)
    requires p < 12
    ensures |EvenPerms| == 12
    ensures IsPerm4(EvenPerms[p]) && Inversions(EvenPerms[p]) % 2 == 0
    ensures p < 11 ==> Code(EvenPerms[p]) < Code(EvenPerms[p + 1])
    ensures |FilterIndices(4, NonZeroSlot(EvenPerms[p]))| == 3
  {
    if p < 6 {
      EvenPermRowLow(p);
    } else {
      EvenPermRowHigh(p);
    }
  }

  lemma EvenPermRowLow(p: nat)
    requires p < 6
    ensures |EvenPerms| == 12
    ensures IsPerm4(EvenPerms[p]) && Inversions(EvenPerms[p]) % 2 == 0
    ensures p < 11 ==> Code(EvenPerms[p]) < Code(EvenPerms[p + 1])
    ensures |FilterIndices(4, NonZeroSlot(EvenPerms[p]))| == 3
  {
    if p == 0 {
      assert EvenPerms[0] == [0, 1, 2, 3];
    } else if p == 1 {
      assert EvenPerms[1] == [0, 2, 3, 1];
    } else if p == 2 {
      assert EvenPerms[2] == [0, 3, 1, 2];
    } else if p == 3 {
      assert EvenPerms[3] == [1, 0, 3, 2];
    } else if p == 4 {
      assert EvenPerms[4] == [1, 2, 0, 3];
    } else {
      assert EvenPerms[5] == [1, 3, 2, 0];
    }
  }

  lemma EvenPermRowHigh(p: nat)
    requires 6 <= p < 12
    ensures |EvenPerms| == 12
    ensures IsPerm4(EvenPerms[p]) && Inversions(EvenPerms[p]) % 2 == 0
    ensures p < 11 ==> Code(EvenPerms[p]) < Code(EvenPerms[p + 1])
    ensures |FilterIndices(4, NonZeroSlot(EvenPerms[p]))| == 3
  {
    if p == 6 {
      assert EvenPerms[6] == [2, 0, 1, 3];
    } else if p == 7 {
      assert EvenPerms[7] == [2, 1, 3, 0];
    } else if p == 8 {
      assert EvenPerms[8] == [2, 3, 0, 1];
    } else if p == 9 {
      assert EvenPerms[9] == [3, 0, 2, 1];
    } else if p == 10 {
      assert EvenPerms[10] == [3, 1, 0, 2];
    } else {
      assert EvenPerms[11] == [3, 2, 1, 0];
    }
  }

  lemma {:induction false} CodesIncrease(p: nat, q: nat)
    requires p < q < 12
    ensures Code(EvenPerms[p]) < Code(EvenPerms[q])
    decreases q - p
  {
    EvenPermRow(p);
    if p + 1 < q {
      CodesIncrease(p + 1, q);
    }
  }

  /** Twelve indices lists, each a list of four template indices. */
  predicate IndexTable(perms: seq<seq<nat>>)
  {
    |perms| == 12 && forall p :: 0 <= p < 12 ==> Indices4(perms[p])
  }

  /** Twelve different permutations of `0..3`, each leaving exactly one position on slot 0. */
  predicate PermTable(perms: seq<seq<nat>>)
  {
    IndexTable(perms)
    && (forall p :: 0 <= p < 12 ==> IsPerm4(perms[p]) && |FilterIndices(4, NonZeroSlot(perms[p]))| == 3)
    && (forall p, q :: 0 <= p < q < 12 ==> perms[p] != perms[q])
  }

  /**
   * The table lists twelve different permutations of `0..3`, each with an even number of
   * inversions: as there are exactly twelve even permutations of four elements, all of them.
   */
  lemma EvenPermsTable()
    ensures PermTable(EvenPerms)
    ensures forall p :: 0 <= p < 12 ==> Inversions(EvenPerms[p]) % 2 == 0
  {
    forall p | 0 <= p < 12
      ensures IsPerm4(EvenPerms[p]) && Inversions(EvenPerms[p]) % 2 == 0
      ensures |FilterIndices(4, NonZeroSlot(EvenPerms[p]))| == 3
    {
      EvenPermRow(p);
    }
    forall p, q | 0 <= p < q < 12
      ensures EvenPerms[p] != EvenPerms[q]
    {
      CodesIncrease(p, q);
    }
  }

  // ---------------------------------------------------------------- sign variants

  /** `perm.map(i => template[i])`. */
  function PermVals(t: seq<real>, perm: seq<nat>): Vec4
    requires |t| == 4 && Indices4(perm)
  {
    [t[perm[0]], t[perm[1]], t[perm[2]], t[perm[3]]]
  }

  /** The test `vals[i] !== 0` of the `nzPos` loop. */
  function NonZeroAt(vals: Vec4): nat -> bool
  {
    (i: nat) => i < 4 && vals[i] != 0.0
  }

  function Pow2(k: nat): (r: nat)
    ensures r >= 1
  {
    if k == 0 then 1 else 2 * Pow2(k - 1)
  }

  /** `s & (1 << k)` is nonzero. */
  predicate MaskBit(s: nat, k: nat)
  {
    (s / Pow2(k)) % 2 == 1
  }

  /** `v` after the first `k` steps of `for (k...) if (s & (1 << k)) v[nzPos[k]] *= -1`. */
  function Flip(v: Vec4, nz: seq<nat>, s: nat, k: nat): Vec4
    requires k <= |nz| && forall m :: 0 <= m < |nz| ==> nz[m] < 4
  {
    if k == 0 then v
    else
      var w := Flip(v, nz, s, k - 1);
      if MaskBit(s, k - 1) then w[nz[k - 1] := -w[nz[k - 1]]] else w
  }

  /** The template permuted by `perm`, with the signs of mask `s` applied to its nonzero entries. */
  function SignedPoint(t: seq<real>, perm: seq<nat>, s: nat): Vec4
    requires |t| == 4 && Indices4(perm)
  {
    var vals := PermVals(t, perm);
    NzPosBound(vals);
    Flip(vals, NzPos(vals), s, |NzPos(vals)|)
  }

  /** `nzPos`: the positions of the nonzero entries, in increasing order. */
  function NzPos(vals: Vec4): seq<nat>
  {
    FilterIndices(4, NonZeroAt(vals))
  }

  lemma NzPosBound(vals: Vec4)
    ensures forall m :: 0 <= m < |NzPos(vals)| ==> NzPos(vals)[m] < 4
  {
    FilterIndicesMembers(4, NonZeroAt(vals));
    forall m | 0 <= m < |NzPos(vals)| ensures NzPos(vals)[m] < 4 {
      assert NzPos(vals)[m] in NzPos(vals);
    }
  }

  /** The 96 points pushed by the permutation loop: point `8p + s` is permutation `p`, mask `s`. */
  function PermPoints(t: seq<real>, perms: seq<seq<nat>>): seq<Vec4>
    requires |t| == 4 && IndexTable(perms)
  {
    seq(96, m requires 0 <= m < 96 => SignedPoint(t, perms[m / 8], m % 8))
  }

  /** Half-integer vertex `8 b0 + 4 b1 + 2 b2 + b3`: `+-1/2` on every axis, `-` for a zero digit. */
  function HalfVertex(q: nat): Vec4
  {
    var signs := TwentyFourCell.CellSigns(q);
    [(signs[0] as real) * 0.5, (signs[1] as real) * 0.5, (signs[2] as real) * 0.5, (signs[3] as real) * 0.5]
  }

  function HalfVertices(): seq<Vec4>
  {
    seq(16, q requires 0 <= q < 16 => HalfVertex(q))
  }

  /** The 120 points in the order they are pushed, before deduplication. */
  function RawVertices(sqrt: real -> real): seq<Vec4>
    requires IsSqrt(sqrt)
  {
    EvenPermsTable();
    SixteenCell.SixteenVertices() + HalfVertices() + PermPoints(Template(sqrt), EvenPerms)
  }

  /** The edge test: `Math.abs(dist4(u, v) - IPHI) < 0.02`. */
  function GoldenKeep(verts: seq<Vec4>, sqrt: real -> real): (nat, nat) -> bool
    requires IsSqrt(sqrt)
  {
    var edgeLen := IPhi(sqrt);
    (i: nat, j: nat) => i < |verts| && j < |verts| && Abs(Dist4(verts[i], verts[j], sqrt) - edgeLen) < 0.02
  }

  // ---------------------------------------------------------------- properties of the 96 points

  /** Flipping signs keeps every absolute value. */
  lemma {:induction false} FlipAbs(v: Vec4, nz: seq<nat>, s: nat, k: nat, i: nat)
    requires k <= |nz| && (forall m :: 0 <= m < |nz| ==> nz[m] < 4) && i < 4
    ensures Abs(Flip(v, nz, s, k)[i]) == Abs(v[i])
  {
    if k > 0 {
      FlipAbs(v, nz, s, k - 1, i);
    }
  }

  /** After `m` steps, position `nz[k]` is negated exactly when `k < m` and bit `k` of the mask is set. */
  lemma {:induction false} FlipAt(v: Vec4, nz: seq<nat>, s: nat, m: nat, k: nat)
    requires m <= |nz| && (forall j :: 0 <= j < |nz| ==> nz[j] < 4) && NoDup(nz) && k < |nz|
    ensures Flip(v, nz, s, m)[nz[k]] == if k < m && MaskBit(s, k) then -v[nz[k]] else v[nz[k]]
  {
    if m > 0 {
      FlipAt(v, nz, s, m - 1, k);
      if k != m - 1 {
        assert nz[k] != nz[m - 1];
      }
    }
  }

  /** Two different masks below 8 differ in one of the three low bits. */
  lemma MaskBitsDiffer(s: nat, r: nat) returns (k: nat)
    requires s < 8 && r < 8 && s != r
    ensures k < 3 && MaskBit(s, k) != MaskBit(r, k)
  {
    assert Pow2(1) == 2 && Pow2(2) == 4;
    if s % 2 != r % 2 {
      k := 0;
    } else if (s / 2) % 2 != (r / 2) % 2 {
      k := 1;
    } else {
      k := 2;
    }
  }

  /** A template `[0, a, b, c]` with `0 < a < b < c`. */
  predicate IncreasingTemplate(t: seq<real>)
  {
    |t| == 4 && t[0] == 0.0 && 0.0 < t[1] < t[2] < t[3]
  }

  /** With a template nonzero apart from slot 0, `nzPos` is the positions not holding slot 0. */
  lemma NzPosOfIndices(t: seq<real>, perm: seq<nat>)
    requires IncreasingTemplate(t) && Indices4(perm)
    ensures NzPos(PermVals(t, perm)) == FilterIndices(4, NonZeroSlot(perm))
  {
    var vals := PermVals(t, perm);
    forall i: nat | i < 4 ensures NonZeroAt(vals)(i) == NonZeroSlot(perm)(i) {
    }
    FilterIndicesAgree(4, NonZeroAt(vals), NonZeroSlot(perm));
  }

  /** Position `i` of a signed point is `+-template[perm[i]]`. */
  lemma SignedPointAbs(t: seq<real>, perm: seq<nat>, s: nat, i: nat)
    requires IncreasingTemplate(t) && Indices4(perm) && i < 4
    ensures Abs(SignedPoint(t, perm, s)[i]) == t[perm[i]]
  {
    var vals := PermVals(t, perm);
    NzPosBound(vals);
    FlipAbs(vals, NzPos(vals), s, |NzPos(vals)|, i);
    assert Abs(vals[i]) == t[perm[i]];
  }

  /** Different masks give different points when the permuted template has three nonzero entries. */
  lemma SignedPointsDiffer(t: seq<real>, perm: seq<nat>, s: nat, r: nat)
    requires IncreasingTemplate(t) && Indices4(perm) && |FilterIndices(4, NonZeroSlot(perm))| == 3
    requires s < 8 && r < 8 && s != r
    ensures SignedPoint(t, perm, s) != SignedPoint(t, perm, r)
  {
    var k := MaskBitsDiffer(s, r);
    NzPosOfIndices(t, perm);
    var vals := PermVals(t, perm);
    var nz := NzPos(vals);
    NzPosBound(vals);
    FilterIndicesMembers(4, NonZeroAt(vals));
    assert nz[k] in nz;
    FlipAt(vals, nz, s, |nz|, k);
    FlipAt(vals, nz, r, |nz|, k);
  }

  /** Different permutations give different points, whatever the masks. */
  lemma PermsDiffer(t: seq<real>, P: seq<nat>, Q: seq<nat>, s: nat, u: nat)
    requires IncreasingTemplate(t) && Indices4(P) && Indices4(Q) && P != Q
    ensures SignedPoint(t, P, s) != SignedPoint(t, Q, u)
  {
    var i :| 0 <= i < 4 && P[i] != Q[i];
    var A, B := SignedPoint(t, P, s), SignedPoint(t, Q, u);
    SignedPointAbs(t, P, s, i);
    SignedPointAbs(t, Q, u, i);
    TemplateInjective(t, P[i], Q[i]);
    assert Abs(A[i]) != Abs(B[i]);
  }

  lemma TemplateInjective(t: seq<real>, a: nat, b: nat)
    requires IncreasingTemplate(t) && a < 4 && b < 4 && a != b
    ensures t[a] != t[b]
  {
  }

  /** Two different (permutation, mask) choices give different points. */
  lemma SignedPointsApart(t: seq<real>, perms: seq<seq<nat>>, p: nat, s: nat, q: nat, u: nat)
    requires IncreasingTemplate(t) && PermTable(perms)
    requires p < 12 && q < 12 && s < 8 && u < 8 && (p, s) != (q, u)
    ensures SignedPoint(t, perms[p], s) != SignedPoint(t, perms[q], u)
  {
    if p < q {
      PermsDiffer(t, perms[p], perms[q], s, u);
    } else if q < p {
      PermsDiffer(t, perms[q], perms[p], u, s);
    } else {
      SignedPointsDiffer(t, perms[p], s, u);
    }
  }

  /** The 96 points of the permutations and sign masks are pairwise different. */
  lemma PermPointsDistinct(t: seq<real>, perms: seq<seq<nat>>, m: nat, r: nat)
    requires IncreasingTemplate(t) && PermTable(perms) && m < 96 && r < 96 && m != r
    ensures PermPoints(t, perms)[m] != PermPoints(t, perms)[r]
  {
    var p, s, q, u := m / 8, m % 8, r / 8, r % 8;
    var X, Y := SignedPoint(t, perms[p], s), SignedPoint(t, perms[q], u);
    assert PermPoints(t, perms)[m] == X;
    assert PermPoints(t, perms)[r] == Y;
    SignedPointsApart(t, perms, p, s, q, u);
  }

  // ---------------------------------------------------------------- the 120 vertices

  /** The number of zero coordinates. */
  function ZeroCount(v: Vec4): nat
  {
    Ind(v[0] == 0.0) + Ind(v[1] == 0.0) + Ind(v[2] == 0.0) + Ind(v[3] == 0.0)
  }

  lemma FilterIndicesFour(f: nat -> bool)
    ensures |FilterIndices(4, f)| == Ind(f(0)) + Ind(f(1)) + Ind(f(2)) + Ind(f(3))
  {
    assert FilterIndices(1, f) == FilterIndices(0, f) + (if f(0) then [0] else []);
  }

  /** A signed point is zero exactly where the permutation takes slot 0: once. */
  lemma SignedPointZeros(t: seq<real>, perm: seq<nat>, s: nat)
    requires IncreasingTemplate(t) && Indices4(perm) && |FilterIndices(4, NonZeroSlot(perm))| == 3
    ensures ZeroCount(SignedPoint(t, perm, s)) == 1
  {
    var v := SignedPoint(t, perm, s);
    FilterIndicesFour(NonZeroSlot(perm));
    SlotZero(t, perm, s, 0);
    SlotZero(t, perm, s, 1);
    SlotZero(t, perm, s, 2);
    SlotZero(t, perm, s, 3);
  }

  /** Coordinate `i` of a signed point is zero exactly where the permutation takes slot 0. */
  lemma SlotZero(t: seq<real>, perm: seq<nat>, s: nat, i: nat)
    requires IncreasingTemplate(t) && Indices4(perm) && i < 4
    ensures Ind(SignedPoint(t, perm, s)[i] == 0.0) == 1 - Ind(NonZeroSlot(perm)(i))
  {
    SignedPointAbs(t, perm, s, i);
  }

  /** The coordinate values of the 600-cell: `0`, `+-a`, `+-1/2`, `+-c` and `+-1`. */
  predicate GoldenValue(x: real, a: real, c: real)
  {
    x == 0.0 || Abs(x) == a || Abs(x) == 0.5 || Abs(x) == c || Abs(x) == 1.0
  }

  /** Two different coordinate values are more than 0.18 apart. */
  lemma GoldenGap(x: real, y: real, a: real, c: real)
    requires 0.3 < a < 0.32 && 0.8 < c < 0.82
    requires GoldenValue(x, a, c) && GoldenValue(y, a, c) && x != y
    ensures Abs(x - y) > 0.18
  {
  }

  ghost predicate GoldenPoint(v: Vec4, a: real, c: real)
  {
    forall i :: 0 <= i < 4 ==> GoldenValue(v[i], a, c)
  }

  /** The raw vertices are distinct, and every coordinate is one of the golden values. */
  lemma RawVerticesDistinct(sqrt: real -> real, m: nat, r: nat)
    requires IsSqrt(sqrt) && m < 120 && r < 120 && m != r
    ensures |RawVertices(sqrt)| == 120
    ensures RawVertices(sqrt)[m] != RawVertices(sqrt)[r]
    ensures GoldenPoint(RawVertices(sqrt)[m], Template(sqrt)[1], Template(sqrt)[3])
  {
    RawVertexShape(sqrt, m);
    RawVertexShape(sqrt, r);
    if m < 8 && r < 8 {
      RawAxisDistinct(sqrt, m, r);
    } else if 8 <= m < 24 && 8 <= r < 24 {
      RawHalfDistinct(sqrt, m, r);
    } else if 24 <= m && 24 <= r {
      RawPermDistinct(sqrt, m, r);
    }
  }

  lemma RawAxisDistinct(sqrt: real -> real, m: nat, r: nat)
    requires IsSqrt(sqrt) && m < 8 && r < 8 && m != r
    ensures |RawVertices(sqrt)| == 120 && RawVertices(sqrt)[m] != RawVertices(sqrt)[r]
  {
    EvenPermsTable();
    var a := SixteenCell.SixteenVertices();
    ThreePartAt(RawVertices(sqrt), a, HalfVertices(), PermPoints(Template(sqrt), EvenPerms), m);
    ThreePartAt(RawVertices(sqrt), a, HalfVertices(), PermPoints(Template(sqrt), EvenPerms), r);
    SixteenCell.SixteenDistSq(m, r);
    assert a[m] == SixteenCell.SixteenVertex(m) && a[r] == SixteenCell.SixteenVertex(r);
  }

  lemma RawHalfDistinct(sqrt: real -> real, m: nat, r: nat)
    requires IsSqrt(sqrt) && 8 <= m < 24 && 8 <= r < 24 && m != r
    ensures |RawVertices(sqrt)| == 120 && RawVertices(sqrt)[m] != RawVertices(sqrt)[r]
  {
    EvenPermsTable();
    var b := HalfVertices();
    ThreePartAt(RawVertices(sqrt), SixteenCell.SixteenVertices(), b, PermPoints(Template(sqrt), EvenPerms), m);
    ThreePartAt(RawVertices(sqrt), SixteenCell.SixteenVertices(), b, PermPoints(Template(sqrt), EvenPerms), r);
    assert b[m - 8] == HalfVertex(m - 8) && b[r - 8] == HalfVertex(r - 8);
    HalfVertexInjective(m - 8, r - 8);
  }

  lemma RawPermDistinct(sqrt: real -> real, m: nat, r: nat)
    requires IsSqrt(sqrt) && 24 <= m < 120 && 24 <= r < 120 && m != r
    ensures |RawVertices(sqrt)| == 120 && RawVertices(sqrt)[m] != RawVertices(sqrt)[r]
  {
    GoldenTemplate(sqrt);
    EvenPermsTable();
    var c := PermPoints(Template(sqrt), EvenPerms);
    PermPointsDistinct(Template(sqrt), EvenPerms, m - 24, r - 24);
    ThreePartAt(RawVertices(sqrt), SixteenCell.SixteenVertices(), HalfVertices(), c, m);
    ThreePartAt(RawVertices(sqrt), SixteenCell.SixteenVertices(), HalfVertices(), c, r);
  }

  /** Entry `i` of a list made of parts of 8, 16 and 96 entries, located in its part. */
  lemma ThreePartAt(raw: seq<Vec4>, a: seq<Vec4>, b: seq<Vec4>, c: seq<Vec4>, i: nat)
    requires raw == a + b + c && |a| == 8 && |b| == 16 && |c| == 96 && i < 120
    ensures |raw| == 120
    ensures raw[i] == if i < 8 then a[i] else if i < 24 then b[i - 8] else c[i - 24]
  {
  }

  /** Axis vertices have three zero coordinates, half-integer ones none, the others one. */
  lemma RawVertexShape(sqrt: real -> real, m: nat)
    requires IsSqrt(sqrt) && m < 120
    ensures |RawVertices(sqrt)| == 120
    ensures ZeroCount(RawVertices(sqrt)[m]) == if m < 8 then 3 else if m < 24 then 0 else 1
    ensures GoldenPoint(RawVertices(sqrt)[m], Template(sqrt)[1], Template(sqrt)[3])
  {
    GoldenTemplate(sqrt);
    EvenPermsTable();
    var t := Template(sqrt);
    var raw := RawVertices(sqrt);
    if m < 8 {
      assert raw[m] == SixteenCell.SixteenVertex(m);
      AxisShape(m / 2, SixteenCell.AxisSign(m % 2), t[1], t[3]);
    } else if m < 24 {
      assert raw[m] == HalfVertex(m - 8);
      HalfShape(m - 8, t[1], t[3]);
    } else {
      assert raw[m] == PermPoints(t, EvenPerms)[m - 24];
      PermPointShape(t, EvenPerms, m - 24);
    }
  }

  /** A unit axis vector has three zero coordinates and only the values `0` and `+-1`. */
  lemma AxisShape(axis: nat, sign: real, a: real, c: real)
    requires axis < 4 && (sign == 1.0 || sign == -1.0)
    ensures ZeroCount(SixteenCell.AxisVector(axis, sign)) == 3
    ensures GoldenPoint(SixteenCell.AxisVector(axis, sign), a, c)
  {
    var v := SixteenCell.AxisVector(axis, sign);
    assert forall i :: 0 <= i < 4 ==> v[i] == 0.0 || Abs(v[i]) == 1.0;
  }

  /** A half-integer vertex has no zero coordinate and only the values `+-1/2`. */
  lemma HalfShape(q: nat, a: real, c: real)
    ensures ZeroCount(HalfVertex(q)) == 0
    ensures GoldenPoint(HalfVertex(q), a, c)
  {
    var v := HalfVertex(q);
    var signs := TwentyFourCell.CellSigns(q);
    assert forall i :: 0 <= i < 4 ==> signs[i] == 1 || signs[i] == -1;
    assert forall i :: 0 <= i < 4 ==> Abs(v[i]) == 0.5;
  }

  /** A signed permuted template point has one zero and only template values. */
  lemma PermPointShape(t: seq<real>, perms: seq<seq<nat>>, k: nat)
    requires IncreasingTemplate(t) && t[2] == 0.5 && PermTable(perms) && k < 96
    ensures ZeroCount(PermPoints(t, perms)[k]) == 1
    ensures GoldenPoint(PermPoints(t, perms)[k], t[1], t[3])
  {
    var p, s := k / 8, k % 8;
    var v := PermPoints(t, perms)[k];
    assert v == SignedPoint(t, perms[p], s);
    SignedPointZeros(t, perms[p], s);
    forall i | 0 <= i < 4 ensures GoldenValue(v[i], t[1], t[3]) {
      SignedPointAbs(t, perms[p], s, i);
      TemplateValue(t, perms[p][i], v[i]);
    }
  }

  /** A number whose size is a template entry is one of the golden values. */
  lemma TemplateValue(t: seq<real>, j: nat, x: real)
    requires IncreasingTemplate(t) && t[2] == 0.5 && j < 4 && Abs(x) == t[j]
    ensures GoldenValue(x, t[1], t[3])
  {
    if j == 0 {
      assert x == 0.0;
    }
  }

  /** The sixteen half-integer vertices are pairwise different. */
  lemma HalfVertexInjective(p: nat, q: nat)
    requires p < 16 && q < 16 && p != q
    ensures HalfVertex(p) != HalfVertex(q)
  {
    var a, b := HalfVertex(p), HalfVertex(q);
    if p / 8 != q / 8 {
      assert a[0] != b[0];
    } else if (p / 4) % 2 != (q / 4) % 2 {
      assert a[1] != b[1];
    } else if (p / 2) % 2 != (q / 2) % 2 {
      assert a[2] != b[2];
    } else {
      assert a[3] != b[3];
    }
  }

  /**
   * A key that only gives equal keys to points closer than `eps` on every axis: `toFixed(5)`
   * has this property for any `eps` above `0.00001`.
   */
  ghost predicate KeyRounds(key: Vec4 -> string, eps: real)
  {
    forall u: Vec4, v: Vec4 :: key(u) == key(v) ==> forall i :: 0 <= i < 4 ==> Abs(u[i] - v[i]) < eps
  }

  /**
   * With a rounding key, deduplication keeps all 120 raw points, in order: the 600-cell
   * has the registry's 120 vertices.
   */
  lemma SixHundredVertexCount(sqrt: real -> real, key: Vec4 -> string, eps: real)
    requires IsSqrt(sqrt) && KeyRounds(key, eps) && eps <= 0.18
    ensures Dedup4(RawVertices(sqrt), key) == RawVertices(sqrt)
    ensures |Dedup4(RawVertices(sqrt), key)| == 120
  {
    var raw := RawVertices(sqrt);
    GoldenTemplate(sqrt);
    var a, c := Template(sqrt)[1], Template(sqrt)[3];
    forall m, r | 0 <= m < r < |raw|
      ensures key(raw[m]) != key(raw[r])
    {
      RawVerticesDistinct(sqrt, m, r);
      RawVerticesDistinct(sqrt, r, m);
      var i :| 0 <= i < 4 && raw[m][i] != raw[r][i];
      GoldenGap(raw[m][i], raw[r][i], a, c);
    }
    DistinctKeysKeepAll(raw, key, {});
  }

  // ---------------------------------------------------------------- the builder

  /**
   * `build600Cell`: the vertices are the deduplicated raw points, the edges the pairs at
   * distance about `1/phi`, and the cells exactly the 4-cliques of that edge graph, each once.
   */
  method Build600Cell(sqrt: real -> real, key: Vec4 -> string) returns (p: Polytope)
    requires IsSqrt(sqrt)
    ensures p.vertices == Dedup4(RawVertices(sqrt), key)
    ensures p.edges == FilterPairs(|p.vertices|, GoldenKeep(p.vertices, sqrt))
    ensures p.hasCells && AllTetra(p.cells) && DistinctCells(p.cells)
    ensures forall t :: IsTetra(p.edges, t) <==> Cell(t, Tetrahedron) in p.cells
  {
    var axis := SixteenCell.SixteenVertexLoops();
    var half := HalfVertexLoops();
    EvenPermsTable();
    var perm := PermLoops(Template(sqrt), EvenPerms);
    var verts := axis + half + perm;
    var unique := Dedup4Loop(verts, key);
    var edges := CollectPairs(|unique|, GoldenKeep(unique, sqrt));
    FilterPairsMembers(|unique|, GoldenKeep(unique, sqrt));
    var cells := TetraCells(|unique|, edges);
    p := Polytope(unique, edges, cells, true);
  }

  /** The body of the four sign loops: push `[s0, s1, s2, s3] / 2`. */
  method AddHalfVertex(s0: int, s1: int, s2: int, s3: int, verts: seq<Vec4>) returns (verts': seq<Vec4>)
    requires (s0 == -1 || s0 == 1) && (s1 == -1 || s1 == 1) && (s2 == -1 || s2 == 1) && (s3 == -1 || s3 == 1)
    requires verts == HalfVertices()[..4 * (s0 + 1) + 2 * (s1 + 1) + (s2 + 1) + (s3 + 1) / 2]
    ensures verts' == HalfVertices()[..4 * (s0 + 1) + 2 * (s1 + 1) + (s2 + 1) + (s3 + 1) / 2 + 1]
  {
    ghost var spec := HalfVertices();
    var q := 4 * (s0 + 1) + 2 * (s1 + 1) + (s2 + 1) + (s3 + 1) / 2;
    TwentyFourCell.SignDigits(q, s0, s1, s2, s3);
    var v: Vec4 := [(s0 as real) * 0.5, (s1 as real) * 0.5, (s2 as real) * 0.5, (s3 as real) * 0.5];
    assert spec[q] == v;
    assert spec[..q + 1] == spec[..q] + [spec[q]];
    verts' := verts + [v];
  }

  method HalfVertexLoops() returns (verts: seq<Vec4>)
    ensures verts == HalfVertices()
  {
    ghost var spec := HalfVertices();
    verts := [];
    var s0 := -1;
    while s0 <= 1
      invariant s0 == -1 || s0 == 1 || s0 == 3
      invariant verts == spec[..4 * (s0 + 1)]
    {
      var s1 := -1;
      while s1 <= 1
        invariant s1 == -1 || s1 == 1 || s1 == 3
        invariant verts == spec[..4 * (s0 + 1) + 2 * (s1 + 1)]
      {
        var s2 := -1;
        while s2 <= 1
          invariant s2 == -1 || s2 == 1 || s2 == 3
          invariant verts == spec[..4 * (s0 + 1) + 2 * (s1 + 1) + (s2 + 1)]
        {
          var s3 := -1;
          while s3 <= 1
            invariant s3 == -1 || s3 == 1 || s3 == 3
            invariant verts == spec[..4 * (s0 + 1) + 2 * (s1 + 1) + (s2 + 1) + (s3 + 1) / 2]
          {
            verts := AddHalfVertex(s0, s1, s2, s3, verts);
            s3 := s3 + 2;
          }
          s2 := s2 + 2;
        }
        s1 := s1 + 2;
      }
      s0 := s0 + 2;
    }
    assert spec[..16] == spec;
  }

  /** `for (const perm of evenPerms)`, with the `nzPos` loop and the eight sign masks. */
  method PermLoops(t: seq<real>, perms: seq<seq<nat>>) returns (verts: seq<Vec4>)
    requires |t| == 4 && IndexTable(perms)
    ensures verts == PermPoints(t, perms)
  {
    ghost var spec := PermPoints(t, perms);
    verts := [];
    var p := 0;
    while p < 12
      invariant p <= 12 && verts == spec[..8 * p]
    {
      var perm := perms[p];
      var vals := PermVals(t, perm);
      var nzPos := CollectIndices(4, NonZeroAt(vals));
      var row := SignLoop(t, perm, vals, nzPos);
      assert spec[..8 * p + 8] == spec[..8 * p] + row by {
        forall m | 0 <= m < 8 ensures spec[8 * p + m] == row[m] {
          var i := 8 * p + m;
          assert i / 8 == p && i % 8 == m;
        }
      }
      verts := verts + row;
      p := p + 1;
    }
    assert spec[..96] == spec;
  }

  /** `for (let s = 0; s < 8; s++)`: the eight sign variants of one permutation. */
  method SignLoop(t: seq<real>, perm: seq<nat>, vals: Vec4, nzPos: seq<nat>) returns (row: seq<Vec4>)
    requires |t| == 4 && Indices4(perm)
    requires vals == PermVals(t, perm) && nzPos == NzPos(vals)
    ensures |row| == 8 && forall s :: 0 <= s < 8 ==> row[s] == SignedPoint(t, perm, s)
  {
    NzPosBound(vals);
    row := [];
    var s := 0;
    while s < 8
      invariant s <= 8 && |row| == s
      invariant forall r :: 0 <= r < s ==> row[r] == SignedPoint(t, perm, r)
    {
      var v := FlipLoop(vals, nzPos, s);
      row := row + [v];
      s := s + 1;
    }
  }

  /** `const v = [...vals]; for (k < nzPos.length) if (s & (1 << k)) v[nzPos[k]] *= -1`. */
  method FlipLoop(vals: Vec4, nz: seq<nat>, s: nat) returns (v: Vec4)
    requires forall m :: 0 <= m < |nz| ==> nz[m] < 4
    ensures v == Flip(vals, nz, s, |nz|)
  {
    v := vals;
    var k := 0;
    while k < |nz|
      invariant k <= |nz| && v == Flip(vals, nz, s, k)
    {
      if (s / Pow2(k)) % 2 == 1 {
        v := v[nz[k] := -v[nz[k]]];
      }
      k := k + 1;
    }
  }
}

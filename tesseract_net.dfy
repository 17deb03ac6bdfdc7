/**
 * The unfolded tesseract (the Dali cross): eight unit cubes laid out in 3-space, each with
 * a map sending its local vertices onto one facet of the tesseract, and `getNetPositions`,
 * which blends every cube vertex between its place in the net and the projection of its
 * folded 4-D position.
 */
module TesseractNet {
  import opened Wrappers
  import opened RealMath
  import opened Vectors
  import opened PairLoops
  import opened PolytopeBuilders
  import opened View4D

  // ---------------------------------------------------------------- the local cube

  /** Local vertex `m` of the unit cube: coordinate `k` is `+1/2` when bit `k` of `m` is set. */
  function CubeLocalVert(m: nat): Vec3
  {
    [HalfSign(Bit(m, 0)), HalfSign(Bit(m, 1)), HalfSign(Bit(m, 2))]
  }

  function CubeLocalVerts(): seq<Vec3>
  {
    seq(8, m requires 0 <= m < 8 => CubeLocalVert(m))
  }

  /** How many of the three coordinates differ (`!==`). */
  function Diff3(a: Vec3, b: Vec3): nat
  {
    (if a[0] != b[0] then 1 else 0) + (if a[1] != b[1] then 1 else 0) + (if a[2] != b[2] then 1 else 0)
  }

  function CubeKeep(verts: seq<Vec3>): (nat, nat) -> bool
  {
    (i: nat, j: nat) => i < |verts| && j < |verts| && Diff3(verts[i], verts[j]) == 1
  }

  function CubeLocalEdges(): seq<Edge>
  {
    FilterPairs(8, CubeKeep(CubeLocalVerts()))
  }

  /** The six quad faces, each a cycle around one face of the cube. */
  const CubeLocalFaces: seq<seq<nat>> :=
    [[0, 1, 3, 2], [4, 6, 7, 5], [0, 4, 5, 1], [2, 3, 7, 6], [0, 2, 6, 4], [1, 5, 7, 3]]

  /** `for z, y, x in {-1, 1}: cubeLocalVerts.push([x/2, y/2, z/2])`. */
  method CubeVertexLoops() returns (verts: seq<Vec3>)
    ensures verts == CubeLocalVerts()
  {
    verts := [];
    var z := -1;
    while z <= 1
      invariant z == -1 || z == 1 || z == 3
      invariant |verts| == 2 * (z + 1)
      invariant forall m :: 0 <= m < |verts| ==> verts[m] == CubeLocalVert(m)
    {
      var y := -1;
      while y <= 1
        invariant y == -1 || y == 1 || y == 3
        invariant |verts| == 2 * (z + 1) + (y + 1)
        invariant forall m :: 0 <= m < |verts| ==> verts[m] == CubeLocalVert(m)
      {
        var x := -1;
        while x <= 1
          invariant x == -1 || x == 1 || x == 3
          invariant |verts| == 2 * (z + 1) + (y + 1) + (x + 1) / 2
          invariant forall m :: 0 <= m < |verts| ==> verts[m] == CubeLocalVert(m)
        {
          CubeVertexDigits(|verts|, x, y, z);
          verts := verts + [[x as real * 0.5, y as real * 0.5, z as real * 0.5]];
          x := x + 2;
        }
        y := y + 2;
      }
      z := z + 2;
    }
  }

  /** The loop counters spell the local vertex index in binary. */
  lemma CubeVertexDigits(m: nat, x: int, y: int, z: int)
    requires x == -1 || x == 1
    requires y == -1 || y == 1
    requires z == -1 || z == 1
    requires m == 2 * (z + 1) + (y + 1) + (x + 1) / 2
    ensures CubeLocalVert(m) == [x as real * 0.5, y as real * 0.5, z as real * 0.5]
  {
    var xb, yb, zb := (x + 1) / 2, (y + 1) / 2, (z + 1) / 2;
    assert m == 4 * zb + 2 * yb + xb;
    assert Bit(m, 0) == (x == 1);
    assert Bit(m, 1) == (y == 1);
    assert Bit(m, 2) == (z == 1);
  }

  /** `i` and `j` differ in exactly one of their three low bits. */
  predicate OneBitApart(i: nat, j: nat)
  {
    (if i % 2 != j % 2 then 1 else 0) + (if (i / 2) % 2 != (j / 2) % 2 then 1 else 0)
      + (if (i / 4) % 2 != (j / 4) % 2 then 1 else 0) == 1
  }

  function OneBit(): (nat, nat) -> bool
  {
    (i: nat, j: nat) => i < 8 && j < 8 && OneBitApart(i, j)
  }

  /** The edge loop over the cube's corners is the one-bit-apart loop over their indices. */
  lemma CubeLocalEdgesAreOneBit(edges: seq<Edge>, n: nat)
    requires edges == CubeLocalEdges() && n == 8
    ensures edges == FilterPairs(n, OneBit())
  {
    var verts := CubeLocalVerts();
    var keep := CubeKeep(verts);
    forall i: nat, j: nat | i < j < 8
      ensures keep(i, j) == OneBit()(i, j)
    {
      assert verts[i] == CubeLocalVert(i) && verts[j] == CubeLocalVert(j);
      CornersOneBit(i, j);
    }
    FilterPairsAgree(n, keep, OneBit());
  }

  /** Two corners differ in as many coordinates as their indices differ in low bits. */
  lemma CornersOneBit(i: nat, j: nat)
    ensures Diff3(CubeLocalVert(i), CubeLocalVert(j)) == 1 <==> OneBitApart(i, j)
  {
    HalfSignInjective(Bit(i, 0), Bit(j, 0));
    HalfSignInjective(Bit(i, 1), Bit(j, 1));
    HalfSignInjective(Bit(i, 2), Bit(j, 2));
  }

  lemma HalfSignInjective(a: bool, b: bool)
    ensures HalfSign(a) == HalfSign(b) <==> a == b
  {
  }

  /** A list holding exactly the pairs `i < j < 8` of corner indices one bit apart. */
  ghost predicate OneBitPairs(edges: seq<Edge>)
  {
    forall e :: e in edges <==> e.0 < e.1 < 8 && OneBitApart(e.0, e.1)
  }

  /** The edge loop keeps exactly the pairs `i < j` of indices differing in one bit, in order. */
  lemma CubeLocalEdgesMembers(edges: seq<Edge>)
    requires edges == CubeLocalEdges()
    ensures OneBitPairs(edges)
    ensures StrictlyOrdered(edges)
  {
    var n: nat :| n == 8;
    CubeLocalEdgesAreOneBit(edges, n);
    FilterPairsMembers(n, OneBit());
  }

  // Row `i` of the one-bit-apart loop over the cube holds one pair per clear bit of `i` above it.
  lemma CubeRow0(n: nat) requires n == 8 ensures |Row(0, n, OneBit())| == 3
  {
    assert |Row(0, 3, OneBit())| == 2;
  }

  lemma CubeRow1(n: nat) requires n == 8 ensures |Row(1, n, OneBit())| == 2
  {
    assert |Row(1, 4, OneBit())| == 1;
  }

  lemma CubeRow2(n: nat) requires n == 8 ensures |Row(2, n, OneBit())| == 2
  {
    assert |Row(2, 4, OneBit())| == 1;
  }

  lemma CubeRow3(n: nat) requires n == 8 ensures |Row(3, n, OneBit())| == 1
  {
    assert |Row(3, 6, OneBit())| == 0;
  }

  lemma CubeRow4(n: nat) requires n == 8 ensures |Row(4, n, OneBit())| == 2
  {
    assert |Row(4, 6, OneBit())| == 1;
  }

  lemma CubeRow5(n: nat) requires n == 8 ensures |Row(5, n, OneBit())| == 1
  {
    assert |Row(5, 7, OneBit())| == 0;
  }

  lemma CubeRow6(n: nat) requires n == 8 ensures |Row(6, n, OneBit())| == 1
  {
    assert |Row(6, 7, OneBit())| == 0;
  }

  lemma CubeRow7(n: nat) requires n == 8 ensures |Row(7, n, OneBit())| == 0
  {
  }

  /** A cube has twelve edges. */
  lemma CubeLocalEdgeCount(edges: seq<Edge>, n: nat)
    requires edges == CubeLocalEdges() && n == 8
    ensures |edges| == 12
  {
    CubeLocalEdgesAreOneBit(edges, n);
    CubeRow0(n); CubeRow1(n); CubeRow2(n); CubeRow3(n);
    CubeRow4(n); CubeRow5(n); CubeRow6(n); CubeRow7(n);
    var bits := OneBit();
    assert |Rows(2, n, bits)| == 5;
    assert |Rows(4, n, bits)| == 8;
    assert |Rows(6, n, bits)| == 11;
    assert |Rows(8, n, bits)| == 12;
  }

  /** Cyclically consecutive corners of a face differ in one bit. */
  lemma CubeFaceSides(f: nat, t: nat)
    requires f < 6 && t < 4
    ensures var a, b := CubeLocalFaces[f][t], CubeLocalFaces[f][(t + 1) % 4];
      a < 8 && b < 8 && a != b && OneBitApart(a, b) && OneBitApart(b, a)
  {
  }

  /**
   * Each face is a 4-cycle of cube edges: cyclically consecutive corners are joined, for any
   * list holding the one-bit-apart pairs (as `CubeLocalEdgesMembers` shows the edge loop's does).
   */
  lemma CubeFacesAreCycles(edges: seq<Edge>, f: nat, t: nat)
    requires OneBitPairs(edges) && f < 6 && t < 4
    ensures var a, b := CubeLocalFaces[f][t], CubeLocalFaces[f][(t + 1) % 4];
      (a, b) in edges || (b, a) in edges
  {
    CubeFaceSides(f, t);
    var a, b := CubeLocalFaces[f][t], CubeLocalFaces[f][(t + 1) % 4];
    if a < b {
      assert (a, b).0 < (a, b).1 < 8;
    } else {
      assert (b, a).0 < (b, a).1 < 8;
    }
  }

  // ---------------------------------------------------------------- the eight net cubes

  /** The `label` of net cube `ci`. */
  function NetLabel(ci: nat): string
  {
    if ci == 0 then "Central (w\U{207b})"
    else if ci == 1 then "Outer (w\U{207a})"
    else if ci == 2 then "Derecha (x\U{207a})"
    else if ci == 3 then "Izquierda (x\U{207b})"
    else if ci == 4 then "Frente (y\U{207a})"
    else if ci == 5 then "Atr\U{e1}s (y\U{207b})"
    else if ci == 6 then "Arriba (z\U{207a})"
    else "Abajo (z\U{207b})"
  }

  /** The `netCenter` of net cube `ci`. */
  function NetCenter(ci: nat): Vec3
  {
    if ci == 0 then [0.0, 0.0, 0.0]
    else if ci == 1 then [0.0, 0.0, -2.0]
    else if ci == 2 then [1.0, 0.0, 0.0]
    else if ci == 3 then [-1.0, 0.0, 0.0]
    else if ci == 4 then [0.0, 1.0, 0.0]
    else if ci == 5 then [0.0, -1.0, 0.0]
    else if ci == 6 then [0.0, 0.0, 1.0]
    else [0.0, 0.0, -1.0]
  }

  /** The `map` of net cube `ci`: a local point to its place on one tesseract facet. */
  function NetMap(ci: nat, l: Vec3): Vec4
  {
    if ci == 0 then [l[0], l[1], l[2], -0.5]
    else if ci == 1 then [l[0], l[1], -l[2], 0.5]
    else if ci == 2 then [0.5, l[1], l[2], l[0]]
    else if ci == 3 then [-0.5, l[1], l[2], -l[0]]
    else if ci == 4 then [l[0], 0.5, l[2], l[1]]
    else if ci == 5 then [l[0], -0.5, l[2], -l[1]]
    else if ci == 6 then [l[0], l[1], 0.5, l[2]]
    else [l[0], l[1], -0.5, -l[2]]
  }

  /** The coordinate net cube `ci` folds onto, and the value it takes there. */
  function FacetAxis(ci: nat): nat
  {
    if ci <= 1 then 3 else if ci <= 3 then 0 else if ci <= 5 then 1 else 2
  }

  function FacetSign(ci: nat): real
  {
    if ci == 0 || ci == 3 || ci == 5 || ci == 7 then -0.5 else 0.5
  }

  /** Where local coordinate `k` of net cube `ci` lands among the other three axes. */
  function FreeAxis(ci: nat, k: nat): nat
  {
    if ci <= 1 then k
    else if ci <= 3 then (if k == 0 then 3 else k)
    else if ci <= 5 then (if k == 1 then 3 else k)
    else (if k == 2 then 3 else k)
  }

  predicate HalfPoint(v: Vec4)
  {
    forall k :: 0 <= k < 4 ==> v[k] == 0.5 || v[k] == -0.5
  }

  /**
   * Every corner of a net cube folds onto a tesseract vertex on the cube's facet: the facet
   * axis holds the facet sign and each local coordinate appears, up to sign, on its own axis.
   */
  lemma NetMapOnFacet(ci: nat, m: nat)
    requires ci < 8
    ensures var v := NetMap(ci, CubeLocalVert(m));
      HalfPoint(v) && v[FacetAxis(ci)] == FacetSign(ci)
  {
  }

  /** Two local points differing in coordinate `k` alone fold to points differing in one axis alone. */
  lemma NetMapKeepsEdges(ci: nat, l: Vec3, l2: Vec3, k: nat)
    requires ci < 8 && k < 3
    requires l[k] != l2[k] && forall a :: 0 <= a < 3 && a != k ==> l[a] == l2[a]
    ensures var u, w := NetMap(ci, l), NetMap(ci, l2);
      FreeAxis(ci, k) < 4 && u[FreeAxis(ci, k)] != w[FreeAxis(ci, k)]
      && forall a :: 0 <= a < 4 && a != FreeAxis(ci, k) ==> u[a] == w[a]
  {
  }

  /** Two half-points differing in axis `f` alone are counted as differing in one coordinate. */
  lemma DiffCountOne(u: Vec4, w: Vec4, f: nat)
    requires f < 4 && HalfPoint(u) && HalfPoint(w) && u[f] != w[f]
    requires forall a :: 0 <= a < 4 && a != f ==> u[a] == w[a]
    ensures DiffCount(u, w, 4) == 1
  {
    assert Abs(u[f] - w[f]) == 1.0;
    assert DiffCount(u, w, 1) == (if f == 0 then 1 else 0);
    assert DiffCount(u, w, 2) == (if f <= 1 then 1 else 0);
    assert DiffCount(u, w, 3) == (if f <= 2 then 1 else 0);
  }

  /** The folded image of a cube edge is a tesseract edge: the ends differ in one coordinate. */
  lemma NetEdgesFold(ci: nat, i: nat, j: nat)
    requires ci < 8 && i < 8 && j < 8 && OneBitApart(i, j)
    ensures DiffCount(NetMap(ci, CubeLocalVert(i)), NetMap(ci, CubeLocalVert(j)), 4) == 1
  {
    var l, l2 := CubeLocalVert(i), CubeLocalVert(j);
    var k: nat := if i % 2 != j % 2 then 0 else if (i / 2) % 2 != (j / 2) % 2 then 1 else 2;
    assert l[k] != l2[k] && forall a :: 0 <= a < 3 && a != k ==> l[a] == l2[a];
    NetMapKeepsEdges(ci, l, l2, k);
    NetMapOnFacet(ci, i);
    NetMapOnFacet(ci, j);
    DiffCountOne(NetMap(ci, l), NetMap(ci, l2), FreeAxis(ci, k));
  }

  // ---------------------------------------------------------------- getNetPositions

  /** One cube of the result: `{ positions, label, edges, faces }` (`label` is a Dafny keyword). */
  datatype NetCube = NetCube(positions: seq<Option<Vec3>>, cubeLabel: string, edges: seq<Edge>, faces: seq<seq<nat>>)

  /** `net3D · (1 − t) + proj3D · t`; `None` where the projection is not finite. */
  function Blend(net3D: Vec3, proj: Option<Vec3>, t: real): Option<Vec3>
  {
    if proj.None? then None
    else
      var pos: Vec3 := [net3D[0] * (1.0 - t) + proj.value[0] * t,
                        net3D[1] * (1.0 - t) + proj.value[1] * t,
                        net3D[2] * (1.0 - t) + proj.value[2] * t];
      Some(pos)
  }

  /** The position of local vertex `m` of net cube `ci` at fold parameter `t`. */
  function NetPosition(ci: nat, m: nat, t: real, viewDist: real, projType: string): Option<Vec3>
  {
    Blend(Add3(CubeLocalVert(m), NetCenter(ci)), ProjectTo3D(NetMap(ci, CubeLocalVert(m)), viewDist, projType), t)
  }

  function NetCubeAt(ci: nat, t: real, viewDist: real, projType: string): NetCube
  {
    NetCube(seq(8, m requires 0 <= m < 8 => NetPosition(ci, m, t, viewDist, projType)),
            NetLabel(ci), CubeLocalEdges(), CubeLocalFaces)
  }

  /** `getNetPositions`: for each of the eight cubes, its eight blended corners. */
  method GetNetPositions(foldT: real, viewDist: real, projType: string) returns (cubes: seq<NetCube>)
    ensures |cubes| == 8
    ensures forall ci :: 0 <= ci < 8 ==> cubes[ci] == NetCubeAt(ci, foldT, viewDist, projType)
  {
    var localVerts, edges := CubeTemplate();
    cubes := [];
    var ci := 0;
    while ci < 8
      invariant ci <= 8 && |cubes| == ci
      invariant forall c :: 0 <= c < ci ==> cubes[c] == NetCubeAt(c, foldT, viewDist, projType)
      invariant edges == CubeLocalEdges()
    {
      var positions := NetCubeCorners(localVerts, ci, foldT, viewDist, projType);
      var cube := NetCube(positions, NetLabel(ci), edges, CubeLocalFaces);
      assert cube == NetCubeAt(ci, foldT, viewDist, projType);
      cubes := cubes + [cube];
      ci := ci + 1;
    }
  }

  /** The local cube every net cube shares: its corners and its edge loop. */
  method CubeTemplate() returns (localVerts: seq<Vec3>, edges: seq<Edge>)
    ensures |localVerts| == 8 && forall m :: 0 <= m < 8 ==> localVerts[m] == CubeLocalVert(m)
    ensures edges == CubeLocalEdges()
  {
    localVerts := CubeVertexLoops();
    edges := CollectPairs(8, CubeKeep(localVerts));
  }

  /** The inner loop of one cube: its eight blended corners. */
  method NetCubeCorners(localVerts: seq<Vec3>, ci: nat, foldT: real, viewDist: real, projType: string)
    returns (positions: seq<Option<Vec3>>)
    requires |localVerts| == 8 && forall m :: 0 <= m < 8 ==> localVerts[m] == CubeLocalVert(m)
    ensures positions == NetCubeAt(ci, foldT, viewDist, projType).positions
  {
    positions := [];
    var m := 0;
    while m < 8
      invariant m <= 8 && |positions| == m
      invariant forall q :: 0 <= q < m ==> positions[q] == NetPosition(ci, q, foldT, viewDist, projType)
    {
      var lv := localVerts[m];
      var net3D := Add3(lv, NetCenter(ci));
      var proj3D := ProjectTo3D(NetMap(ci, lv), viewDist, projType);
      positions := positions + [Blend(net3D, proj3D, foldT)];
      m := m + 1;
    }
  }

  /** Unfolded (t = 0) the corners sit in the net; folded (t = 1) they are the projections. */
  lemma NetFoldEnds(ci: nat, m: nat, viewDist: real, projType: string)
    ensures var proj := ProjectTo3D(NetMap(ci, CubeLocalVert(m)), viewDist, projType);
      proj.Some? ==>
        NetPosition(ci, m, 0.0, viewDist, projType) == Some(Add3(CubeLocalVert(m), NetCenter(ci)))
        && NetPosition(ci, m, 1.0, viewDist, projType) == proj
  {
    var proj := ProjectTo3D(NetMap(ci, CubeLocalVert(m)), viewDist, projType);
    if proj.Some? {
      var n3 := Add3(CubeLocalVert(m), NetCenter(ci));
      var b0 := Blend(n3, proj, 0.0).value;
      var b1 := Blend(n3, proj, 1.0).value;
      assert b0[0] == n3[0] && b0[1] == n3[1] && b0[2] == n3[2];
      assert b1[0] == proj.value[0] && b1[1] == proj.value[1] && b1[2] == proj.value[2];
    }
  }
}

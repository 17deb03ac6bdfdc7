/**
 * The binary STL exporter of the 3-D lab: triangles taken from a mesh's attributes,
 * scaled to millimetres, and written as an 80-byte header, a little-endian 32-bit
 * triangle count and one 50-byte record per triangle.
 */
module StlExport {
  import opened Wrappers
  import opened RealMath
  import opened Vectors

  /** A byte of the output buffer. */
  type Byte = b: int | 0 <= b < 256

  /**
   * The four bytes `setFloat32(offset, x, true)` writes.  Rounding to single precision
   * and the IEEE-754 bit layout are not modelled: the encoding is a parameter of this type.
   */
  type Float32Bytes = s: seq<Byte> | |s| == 4 witness [0, 0, 0, 0]

  type Corners = s: seq<Vec3> | |s| == 3 witness [Zero3, Zero3, Zero3]

  /** `{ normal, vertices: [v0, v1, v2] }`. */
  datatype Triangle = Triangle(normal: Vec3, vertices: Corners)

  /** The attributes `extractTriangles` reads: `position`, the optional `normal` and the optional index. */
  datatype Geometry = Geometry(position: Option<seq<Vec3>>, normal: Option<seq<Vec3>>, index: Option<seq<nat>>)

  /**
   * A geometry whose attributes can be read whole triangles at a time: a `position`
   * attribute, a `normal` attribute (if any) of the same count, and an index (or else the
   * position list) whose length is a multiple of three, naming positions that exist.
   */
  predicate Readable(g: Geometry)
  {
    g.position.Some?
    && (g.normal.Some? ==> |g.normal.value| == |g.position.value|)
    && (match g.index
        case Some(idx) => |idx| % 3 == 0 && forall i :: 0 <= i < |idx| ==> idx[i] < |g.position.value|
        case None => |g.position.value| % 3 == 0)
  }

  /** `index ? index.count / 3 : pos.count / 3`. */
  function TriangleCount(g: Geometry): nat
    requires g.position.Some?
  {
    if g.index.Some? then |g.index.value| / 3 else |g.position.value| / 3
  }

  lemma TriangleFits(n: nat, t: nat)
    requires t < n / 3
    ensures 3 * t + 3 <= n
  {
    var q := n / 3;
    assert 3 * q <= n;
  }

  /** Corner `k` of triangle `t`: `index.getX(3t + k)`, or `3t + k` without an index. */
  function CornerIndex(g: Geometry, t: nat, k: nat): (a: nat)
    requires Readable(g) && t < TriangleCount(g) && k < 3
    ensures a < |g.position.value|
  {
    if g.index.Some? then
      TriangleFits(|g.index.value|, t);
      g.index.value[3 * t + k]
    else
      TriangleFits(|g.position.value|, t);
      3 * t + k
  }

  /** The edge cross product, divided by its length only when that length is positive. */
  function FaceNormal(v0: Vec3, v1: Vec3, v2: Vec3, sqrt: real -> real): Vec3
  {
    var n := Cross3(Sub3(v1, v0), Sub3(v2, v0));
    var len := sqrt(Sq(n[0]) + Sq(n[1]) + Sq(n[2]));
    if len > 0.0 then [n[0] / len, n[1] / len, n[2] / len] else n
  }

  /** Triangle `t`: its three positions, and the first corner's normal or else the face normal. */
  function TriangleOf(g: Geometry, t: nat, sqrt: real -> real): Triangle
    requires Readable(g) && t < TriangleCount(g)
  {
    var pos := g.position.value;
    var a, b, c := CornerIndex(g, t, 0), CornerIndex(g, t, 1), CornerIndex(g, t, 2);
    var normal := if g.normal.Some? then g.normal.value[a] else FaceNormal(pos[a], pos[b], pos[c], sqrt);
    Triangle(normal, [pos[a], pos[b], pos[c]])
  }

  /** `extractTriangles`. */
  function Triangles(g: Geometry, sqrt: real -> real): seq<Triangle>
    requires Readable(g)
  {
    seq(TriangleCount(g), t requires 0 <= t < TriangleCount(g) => TriangleOf(g, t, sqrt))
  }

  /** Dividing a vector by a number keeps it perpendicular to what it was perpendicular to. */
  lemma DivideKeepsPerpendicular(n: Vec3, w: Vec3, len: real)
    requires len != 0.0 && Dot3(n, w) == 0.0
    ensures Dot3([n[0] / len, n[1] / len, n[2] / len], w) == 0.0
  {
    assert Dot3([n[0] / len, n[1] / len, n[2] / len], w) * len == Dot3(n, w);
  }

  /** The face normal is perpendicular to both edges from the first corner. */
  lemma FaceNormalPerpendicular(v0: Vec3, v1: Vec3, v2: Vec3, sqrt: real -> real)
    ensures Dot3(FaceNormal(v0, v1, v2, sqrt), Sub3(v1, v0)) == 0.0
    ensures Dot3(FaceNormal(v0, v1, v2, sqrt), Sub3(v2, v0)) == 0.0
  {
    var e1, e2 := Sub3(v1, v0), Sub3(v2, v0);
    var n := Cross3(e1, e2);
    CrossPerpendicular(e1, e2);
    var len := sqrt(Sq(n[0]) + Sq(n[1]) + Sq(n[2]));
    if len > 0.0 {
      DivideKeepsPerpendicular(n, e1, len);
      DivideKeepsPerpendicular(n, e2, len);
    }
  }

  /** With a true square root and a positive length, the face normal has unit length. */
  lemma FaceNormalUnit(v0: Vec3, v1: Vec3, v2: Vec3, sqrt: real -> real)
    requires IsSqrt(sqrt)
    requires var n := Cross3(Sub3(v1, v0), Sub3(v2, v0)); sqrt(Sq(n[0]) + Sq(n[1]) + Sq(n[2])) > 0.0
    ensures Dot3(FaceNormal(v0, v1, v2, sqrt), FaceNormal(v0, v1, v2, sqrt)) == 1.0
  {
    var n := Cross3(Sub3(v1, v0), Sub3(v2, v0));
    var s := Sq(n[0]) + Sq(n[1]) + Sq(n[2]);
    var len := sqrt(s);
    assert Sq(len) == s;
    UnitAfterDivide(n[0], n[1], n[2], len);
  }

  lemma UnitAfterDivide(x: real, y: real, z: real, len: real)
    requires len > 0.0 && Sq(len) == Sq(x) + Sq(y) + Sq(z)
    ensures (x / len) * (x / len) + (y / len) * (y / len) + (z / len) * (z / len) == 1.0
  {
    SqDivided(x, len);
    SqDivided(y, len);
    SqDivided(z, len);
    SqZero(len);
    UnitFrom(Sq(x / len), Sq(y / len), Sq(z / len), Sq(x), Sq(y), Sq(z), Sq(len));
  }

  lemma SqDivided(x: real, l: real)
    requires l != 0.0
    ensures Sq(x) == Sq(x / l) * Sq(l)
  {
    var a := x / l;
    assert x == a * l;
  }

  /** Three parts of a positive whole, each a fraction of it, have fractions adding to one. */
  lemma UnitFrom(a: real, b: real, c: real, x: real, y: real, z: real, p: real)
    requires p > 0.0 && p == x + y + z && x == a * p && y == b * p && z == c * p
    ensures a + b + c == 1.0
  {
    var u := a + b + c;
    assert (u - 1.0) * p == a * p + b * p + c * p - p;
    assert (u - 1.0) * p == 0.0;
    ZeroFactor(u - 1.0, p);
  }

  lemma ZeroFactor(d: real, p: real)
    requires p > 0.0 && d * p == 0.0
    ensures d == 0.0
  {
  }

  /**
   * Triangle `t` has the positions its three corners name: 3t, 3t+1 and 3t+2 without an
   * index, the index entries 3t, 3t+1 and 3t+2 with one.  Its normal is the first corner's
   * normal attribute if there is one, else the face normal, which is perpendicular to both
   * edges from the first corner.
   */
  lemma TriangleOfProperties(g: Geometry, t: nat, sqrt: real -> real)
    requires Readable(g) && t < TriangleCount(g)
    ensures var tri, pos := TriangleOf(g, t, sqrt), g.position.value;
      (g.index.None? ==> 3 * t + 2 < |pos| && tri.vertices == [pos[3 * t], pos[3 * t + 1], pos[3 * t + 2]])
      && (g.index.Some? ==>
            (3 * t + 2 < |g.index.value|
             && tri.vertices
                == [pos[g.index.value[3 * t]], pos[g.index.value[3 * t + 1]], pos[g.index.value[3 * t + 2]]]))
      && (g.normal.Some? ==> tri.normal == g.normal.value[CornerIndex(g, t, 0)])
      && (g.normal.None? ==>
            (tri.normal == FaceNormal(tri.vertices[0], tri.vertices[1], tri.vertices[2], sqrt)
             && Dot3(tri.normal, Sub3(tri.vertices[1], tri.vertices[0])) == 0.0
             && Dot3(tri.normal, Sub3(tri.vertices[2], tri.vertices[0])) == 0.0))
  {
    var tri := TriangleOf(g, t, sqrt);
    if g.index.Some? {
      TriangleFits(|g.index.value|, t);
    } else {
      TriangleFits(|g.position.value|, t);
    }
    FaceNormalPerpendicular(tri.vertices[0], tri.vertices[1], tri.vertices[2], sqrt);
  }

  /** One triangle per three index entries, or per three positions without an index, in order. */
  lemma TrianglesProperties(g: Geometry, sqrt: real -> real)
    requires Readable(g)
    ensures |Triangles(g, sqrt)| == if g.index.Some? then |g.index.value| / 3 else |g.position.value| / 3
    ensures forall t :: 0 <= t < |Triangles(g, sqrt)| ==> Triangles(g, sqrt)[t] == TriangleOf(g, t, sqrt)
  {
  }

  /** `scaleTriangles`: every corner coordinate times the scale, the normal as it was. */
  function ScaleTriangles(tris: seq<Triangle>, scale: real): (r: seq<Triangle>)
    ensures |r| == |tris|
  {
    seq(|tris|, i requires 0 <= i < |tris| =>
      var vs := tris[i].vertices;
      Triangle(tris[i].normal, [Scale3(vs[0], scale), Scale3(vs[1], scale), Scale3(vs[2], scale)]))
  }

  /** Scaling keeps the count and the normals and multiplies every corner coordinate. */
  lemma ScaleTrianglesProperties(tris: seq<Triangle>, scale: real)
    ensures forall i, k, c :: 0 <= i < |tris| && 0 <= k < 3 && 0 <= c < 3 ==>
      ScaleTriangles(tris, scale)[i].vertices[k][c] == tris[i].vertices[k][c] * scale
    ensures forall i :: 0 <= i < |tris| ==> ScaleTriangles(tris, scale)[i].normal == tris[i].normal
  {
  }

  /** Scaling by a non-zero factor and then by its inverse gives the triangles back. */
  lemma ScaleTrianglesInverse(tris: seq<Triangle>, scale: real)
    requires scale != 0.0
    ensures ScaleTriangles(ScaleTriangles(tris, scale), 1.0 / scale) == tris
  {
    var once := ScaleTriangles(tris, scale);
    var back := ScaleTriangles(once, 1.0 / scale);
    forall i | 0 <= i < |tris|
      ensures back[i] == tris[i]
    {
      var vs := tris[i].vertices;
      ScaleBack3(vs[0], scale);
      ScaleBack3(vs[1], scale);
      ScaleBack3(vs[2], scale);
      assert back[i].vertices[0] == vs[0] && back[i].vertices[1] == vs[1] && back[i].vertices[2] == vs[2];
    }
  }

  lemma ScaleBack3(v: Vec3, s: real)
    requires s != 0.0
    ensures Scale3(Scale3(v, s), 1.0 / s) == v
  {
    ScaleBack(v[0], s);
    ScaleBack(v[1], s);
    ScaleBack(v[2], s);
    var u := Scale3(Scale3(v, s), 1.0 / s);
    assert u[0] == v[0] && u[1] == v[1] && u[2] == v[2];
  }

  lemma ScaleBack(x: real, s: real)
    requires s != 0.0
    ensures x * s * (1.0 / s) == x
  {
  }

  // ==================== the byte layout ====================

  /** `'Binary STL exported from PlatonicLab — EigenLab'`, 47 UTF-16 code units. */
  const HeaderText: string := "Binary STL exported from PlatonicLab \U{2014} EigenLab"

  /** `setUint8(i, i < header.length ? header.charCodeAt(i) : 0)`: the code unit taken modulo 256. */
  function HeaderBytes(): (h: seq<Byte>)
    ensures |h| == 80
  {
    seq(80, i requires 0 <= i < 80 => if i < |HeaderText| then (HeaderText[i] as int) % 256 else 0)
  }

  /** `setUint32(offset, x, true)`: `x` modulo 2^32, least significant byte first. */
  function Uint32LE(x: nat): (r: seq<Byte>)
    ensures |r| == 4
  {
    var w0 := x % 0x1_0000_0000;
    var w1 := w0 / 256;
    var w2 := w1 / 256;
    var w3 := w2 / 256;
    [w0 % 256, w1 % 256, w2 % 256, w3 % 256]
  }

  /** Reading four little-endian bytes back as an unsigned 32-bit number. */
  function ReadUint32LE(b: seq<Byte>): nat
    requires |b| == 4
  {
    var b0, b1, b2, b3: int := b[0], b[1], b[2], b[3];
    b0 + 256 * (b1 + 256 * (b2 + 256 * b3))
  }

  /** The count written reads back as the count modulo 2^32. */
  lemma Uint32RoundTrip(x: nat)
    ensures ReadUint32LE(Uint32LE(x)) == x % 0x1_0000_0000
  {
    var w0 := x % 0x1_0000_0000;
    var w1 := w0 / 256;
    var w2 := w1 / 256;
    var w3 := w2 / 256;
    assert w0 == w0 % 256 + 256 * w1;
    assert w1 == w1 % 256 + 256 * w2;
    assert w2 == w2 % 256 + 256 * w3;
    assert w1 < 0x100_0000;
    assert w2 < 0x1_0000;
    assert w3 < 256;
  }

  /** The twelve numbers of a record: the normal, then the corners in order. */
  function RecordFloats(tri: Triangle): (r: seq<real>)
    ensures |r| == 12
  {
    tri.normal + tri.vertices[0] + tri.vertices[1] + tri.vertices[2]
  }

  /** The encodings of the numbers, one after the other. */
  function FloatBytes(xs: seq<real>, f32: real -> Float32Bytes): (r: seq<Byte>)
    ensures |r| == 4 * |xs|
  {
    if |xs| == 0 then [] else FloatBytes(xs[..|xs| - 1], f32) + f32(xs[|xs| - 1])
  }

  /** Number `k` is encoded at bytes `4k` to `4k + 4`. */
  lemma {:induction false} FloatBytesAt(xs: seq<real>, f32: real -> Float32Bytes, k: nat)
    requires k < |xs|
    ensures FloatBytes(xs, f32)[4 * k..4 * k + 4] == f32(xs[k])
  {
    if k < |xs| - 1 {
      FloatBytesAt(xs[..|xs| - 1], f32, k);
    }
  }

  /** A 50-byte record: twelve floats and the attribute byte count, a zero uint16. */
  function Record(tri: Triangle, f32: real -> Float32Bytes): (r: seq<Byte>)
    ensures |r| == 50
  {
    FloatBytes(RecordFloats(tri), f32) + [0, 0]
  }

  /** The records of the triangles, in order. */
  function Records(tris: seq<Triangle>, f32: real -> Float32Bytes): (r: seq<Byte>)
    ensures |r| == 50 * |tris|
  {
    if |tris| == 0 then [] else Records(tris[..|tris| - 1], f32) + Record(tris[|tris| - 1], f32)
  }

  /** The buffer `toBinarySTL` returns. */
  function StlBytes(tris: seq<Triangle>, f32: real -> Float32Bytes): seq<Byte>
  {
    HeaderBytes() + Uint32LE(|tris|) + Records(tris, f32)
  }

  /** Record `t` sits at bytes `50t` to `50t + 50` of the records. */
  lemma {:induction false} RecordsAt(tris: seq<Triangle>, f32: real -> Float32Bytes, t: nat)
    requires t < |tris|
    ensures Records(tris, f32)[50 * t..50 * t + 50] == Record(tris[t], f32)
  {
    if t < |tris| - 1 {
      RecordsAt(tris[..|tris| - 1], f32, t);
      var prev := Records(tris[..|tris| - 1], f32);
      assert Records(tris, f32)[50 * t..50 * t + 50] == prev[50 * t..50 * t + 50];
    }
  }

  /**
   * The buffer is 84 + 50n bytes: the header text's code units modulo 256 (the em dash
   * becomes 0x14) padded with zeros to 80 bytes, then n as a little-endian uint32, then the
   * records.
   */
  lemma StlLayout(tris: seq<Triangle>, f32: real -> Float32Bytes)
    ensures |StlBytes(tris, f32)| == 84 + 50 * |tris|
    ensures |HeaderText| == 47 && HeaderText[37] == '\U{2014}' && StlBytes(tris, f32)[37] == 0x14
    ensures forall i :: 0 <= i < 47 ==> StlBytes(tris, f32)[i] == (HeaderText[i] as int) % 256
    ensures forall i :: 47 <= i < 80 ==> StlBytes(tris, f32)[i] == 0
    ensures StlBytes(tris, f32)[80..84] == Uint32LE(|tris|)
    ensures ReadUint32LE(StlBytes(tris, f32)[80..84]) == |tris| % 0x1_0000_0000
  {
    var b := StlBytes(tris, f32);
    assert b[..80] == HeaderBytes();
    assert b[80..84] == Uint32LE(|tris|);
    Uint32RoundTrip(|tris|);
  }

  /**
   * Record `t` occupies bytes 84 + 50t to 134 + 50t: the three normal floats, then the nine
   * corner floats in corner order, each four bytes, then two zero bytes.
   */
  lemma StlRecord(tris: seq<Triangle>, f32: real -> Float32Bytes, t: nat)
    requires t < |tris|
    ensures var b, o := StlBytes(tris, f32), 84 + 50 * t;
      b[o..o + 50] == Record(tris[t], f32)
      && (forall k :: 0 <= k < 3 ==> b[o + 4 * k..o + 4 * k + 4] == f32(tris[t].normal[k]))
      && (forall j, c :: 0 <= j < 3 && 0 <= c < 3 ==>
            b[o + 12 + 12 * j + 4 * c..o + 12 + 12 * j + 4 * c + 4] == f32(tris[t].vertices[j][c]))
      && b[o + 48] == 0 && b[o + 49] == 0
  {
    var b, o := StlBytes(tris, f32), 84 + 50 * t;
    var rec := Record(tris[t], f32);
    StlRecordSlice(tris, f32, t);
    RecordFields(tris[t], f32);
    forall k | 0 <= k < 3
      ensures b[o + 4 * k..o + 4 * k + 4] == f32(tris[t].normal[k])
    {
      InnerSlice(b, o, rec, 4 * k, 4);
    }
    forall j, c | 0 <= j < 3 && 0 <= c < 3
      ensures b[o + 12 + 12 * j + 4 * c..o + 12 + 12 * j + 4 * c + 4] == f32(tris[t].vertices[j][c])
    {
      InnerSlice(b, o, rec, 12 + 12 * j + 4 * c, 4);
    }
    assert b[o + 48] == rec[48] && b[o + 49] == rec[49];
  }

  /** A slice of a slice. */
  lemma InnerSlice(b: seq<Byte>, o: nat, rec: seq<Byte>, x: nat, w: nat)
    requires o + |rec| <= |b| && b[o..o + |rec|] == rec && x + w <= |rec|
    ensures b[o + x..o + x + w] == rec[x..x + w]
  {
    var inner, outer := b[o + x..o + x + w], b[o..o + |rec|];
    assert forall m :: 0 <= m < w ==> inner[m] == outer[x + m];
  }

  /** Record `t` is the 50 bytes after the header, the count and the records before it. */
  lemma StlRecordSlice(tris: seq<Triangle>, f32: real -> Float32Bytes, t: nat)
    requires t < |tris|
    ensures var o := 84 + 50 * t; StlBytes(tris, f32)[o..o + 50] == Record(tris[t], f32)
  {
    RecordsAt(tris, f32, t);
    var o := 84 + 50 * t;
    assert StlBytes(tris, f32)[o..o + 50] == Records(tris, f32)[50 * t..50 * t + 50];
  }

  /** The fields of one record: the normal's floats, each corner's floats, two zero bytes. */
  lemma RecordFields(tri: Triangle, f32: real -> Float32Bytes)
    ensures var rec := Record(tri, f32);
      (forall k :: 0 <= k < 3 ==> rec[4 * k..4 * k + 4] == f32(tri.normal[k]))
      && (forall j, c :: 0 <= j < 3 && 0 <= c < 3 ==>
            rec[12 + 12 * j + 4 * c..12 + 12 * j + 4 * c + 4] == f32(tri.vertices[j][c]))
      && rec[48] == 0 && rec[49] == 0
  {
    var rec := Record(tri, f32);
    var xs := RecordFloats(tri);
    forall k | 0 <= k < 12
      ensures rec[4 * k..4 * k + 4] == f32(xs[k])
    {
      FloatBytesAt(xs, f32, k);
      assert rec[4 * k..4 * k + 4] == FloatBytes(xs, f32)[4 * k..4 * k + 4];
    }
    forall k | 0 <= k < 3
      ensures xs[k] == tri.normal[k]
    {
    }
    forall j, c | 0 <= j < 3 && 0 <= c < 3
      ensures xs[3 + 3 * j + c] == tri.vertices[j][c]
    {
    }
  }

  // ==================== the loops ====================

  /** The triangle loop of `extractTriangles`. */
  method ExtractTriangles(g: Geometry, sqrt: real -> real) returns (triangles: seq<Triangle>)
    requires Readable(g)
    ensures triangles == Triangles(g, sqrt)
  {
    var pos := g.position.value;
    var triCount := if g.index.Some? then |g.index.value| / 3 else |pos| / 3;
    triangles := [];
    var t := 0;
    while t < triCount
      invariant t <= triCount && triCount == TriangleCount(g)
      invariant triangles == Triangles(g, sqrt)[..t]
    {
      var tri := ExtractTriangle(g, t, sqrt);
      assert Triangles(g, sqrt)[..t + 1] == Triangles(g, sqrt)[..t] + [tri];
      triangles := triangles + [tri];
      t := t + 1;
    }
  }

  /** One pass of the triangle loop: the three corners and the stored or computed normal. */
  method ExtractTriangle(g: Geometry, t: nat, sqrt: real -> real) returns (tri: Triangle)
    requires Readable(g) && t < TriangleCount(g)
    ensures tri == TriangleOf(g, t, sqrt)
  {
    var pos := g.position.value;
    var a, b, c := CornerIndex(g, t, 0), CornerIndex(g, t, 1), CornerIndex(g, t, 2);
    var v0, v1, v2 := pos[a], pos[b], pos[c];
    var normal: Vec3;
    if g.normal.Some? {
      normal := g.normal.value[a];
    } else {
      var e1, e2 := Sub3(v1, v0), Sub3(v2, v0);
      normal := Cross3(e1, e2);
      var len := sqrt(Sq(normal[0]) + Sq(normal[1]) + Sq(normal[2]));
      if len > 0.0 {
        normal := [normal[0] / len, normal[1] / len, normal[2] / len];
      }
    }
    tri := Triangle(normal, [v0, v1, v2]);
  }

  /** `view.setFloat32(offset, x, true)`. */
  method SetFloat32(buf: array<Byte>, offset: nat, x: real, f32: real -> Float32Bytes)
    requires offset + 4 <= buf.Length
    modifies buf
    ensures buf[..offset + 4] == old(buf[..offset]) + f32(x)
  {
    var b := f32(x);
    buf[offset] := b[0];
    buf[offset + 1] := b[1];
    buf[offset + 2] := b[2];
    buf[offset + 3] := b[3];
  }

  /** `view.setUint32(offset, x, true)`. */
  method SetUint32(buf: array<Byte>, offset: nat, x: nat)
    requires offset + 4 <= buf.Length
    modifies buf
    ensures buf[..offset + 4] == old(buf[..offset]) + Uint32LE(x)
  {
    var b := Uint32LE(x);
    buf[offset] := b[0];
    buf[offset + 1] := b[1];
    buf[offset + 2] := b[2];
    buf[offset + 3] := b[3];
  }

  /** Concatenated numbers are encoded as the concatenated encodings. */
  lemma {:induction false} FloatBytesAppend(xs: seq<real>, ys: seq<real>, f32: real -> Float32Bytes)
    ensures FloatBytes(xs + ys, f32) == FloatBytes(xs, f32) + FloatBytes(ys, f32)
  {
    if |ys| > 0 {
      assert (xs + ys)[..|xs + ys| - 1] == xs + ys[..|ys| - 1];
      FloatBytesAppend(xs, ys[..|ys| - 1], f32);
    } else {
      assert xs + ys == xs;
    }
  }

  /** Successive `setFloat32` calls, four bytes apart. */
  method SetFloats(buf: array<Byte>, start: nat, xs: seq<real>, f32: real -> Float32Bytes) returns (offset: nat)
    requires start + 4 * |xs| <= buf.Length
    modifies buf
    ensures offset == start + 4 * |xs|
    ensures buf[..offset] == old(buf[..start]) + FloatBytes(xs, f32)
  {
    ghost var before := buf[..start];
    offset := start;
    var k := 0;
    while k < |xs|
      invariant k <= |xs| && offset == start + 4 * k
      invariant buf[..offset] == before + FloatBytes(xs[..k], f32)
    {
      assert xs[..k + 1][..k] == xs[..k];
      SetFloat32(buf, offset, xs[k], f32);
      offset := offset + 4;
      k := k + 1;
    }
    assert xs[..k] == xs;
  }

  /** One record: the normal's three floats, three floats per corner, then `setUint16(offset, 0, true)`. */
  method WriteRecord(buf: array<Byte>, start: nat, tri: Triangle, f32: real -> Float32Bytes) returns (offset: nat)
    requires start + 50 <= buf.Length
    modifies buf
    ensures offset == start + 50
    ensures buf[..offset] == old(buf[..start]) + Record(tri, f32)
  {
    ghost var before := buf[..start];
    ghost var done: seq<real> := tri.normal;
    offset := SetFloats(buf, start, tri.normal, f32);
    var j := 0;
    while j < 3
      invariant j <= 3 && offset == start + 12 + 12 * j && |done| == 3 + 3 * j
      invariant done == tri.normal + Flatten(tri.vertices[..j])
      invariant buf[..offset] == before + FloatBytes(done, f32)
    {
      assert tri.vertices[..j + 1][..j] == tri.vertices[..j];
      offset := SetFloats(buf, offset, tri.vertices[j], f32);
      FloatBytesAppend(done, tri.vertices[j], f32);
      done := done + tri.vertices[j];
      j := j + 1;
    }
    assert tri.vertices[..3] == tri.vertices;
    FlattenRecord(tri);
    ghost var floats := buf[..offset];
    buf[offset] := 0;
    buf[offset + 1] := 0;
    assert buf[..offset + 2] == floats + [0, 0];
    offset := offset + 2;
  }

  /** The corners' coordinates one after the other. */
  function Flatten(vs: seq<Vec3>): (r: seq<real>)
    ensures |r| == 3 * |vs|
  {
    if |vs| == 0 then [] else Flatten(vs[..|vs| - 1]) + vs[|vs| - 1]
  }

  lemma FlattenRecord(tri: Triangle)
    ensures tri.normal + Flatten(tri.vertices) == RecordFloats(tri)
  {
    var vs := tri.vertices;
    assert vs[..2][..1] == vs[..1] && vs[..1][..0] == [] && vs[..3] == vs;
    assert Flatten(vs[..1]) == vs[0];
  }

  /** The 80 header bytes, one `setUint8` each. */
  method WriteHeader(buf: array<Byte>)
    requires 80 <= buf.Length
    modifies buf
    ensures buf[..80] == HeaderBytes()
  {
    var i := 0;
    while i < 80
      invariant i <= 80
      invariant buf[..i] == HeaderBytes()[..i]
    {
      buf[i] := if i < |HeaderText| then (HeaderText[i] as int) % 256 else 0;
      i := i + 1;
    }
  }

  /** `toBinarySTL`: the buffer, written front to back with a running offset. */
  method ToBinarySTL(tris: seq<Triangle>, f32: real -> Float32Bytes) returns (buf: array<Byte>)
    ensures fresh(buf)
    ensures buf[..] == StlBytes(tris, f32)
  {
    var triCount := |tris|;
    buf := new Byte[80 + 4 + triCount * 50];
    WriteHeader(buf);
    SetUint32(buf, 80, triCount);
    var offset := 84;
    var t := 0;
    while t < triCount
      invariant t <= triCount && offset == 84 + 50 * t
      invariant buf[..offset] == HeaderBytes() + Uint32LE(triCount) + Records(tris[..t], f32)
    {
      assert tris[..t + 1][..t] == tris[..t];
      offset := WriteRecord(buf, offset, tris[t], f32);
      t := t + 1;
    }
    assert tris[..triCount] == tris;
    assert buf[..] == buf[..offset];
  }

  // ==================== exportSTL ====================

  /** What `download` receives: the file name and the bytes. */
  datatype Download = Download(filename: string, bytes: seq<Byte>)

  /** `scaleMM || 50`. */
  function ScaleOrDefault(scaleMM: Option<real>): real
  {
    if scaleMM.None? || scaleMM.value == 0.0 then 50.0 else scaleMM.value
  }

  /** `filename || 'model.stl'`. */
  function FilenameOrDefault(filename: Option<string>): string
  {
    if filename.None? || filename.value == "" then "model.stl" else filename.value
  }

  /** `exportSTL`: nothing without a geometry whose `position` attribute exists. */
  function Export(geometry: Option<Geometry>, filename: Option<string>, scaleMM: Option<real>,
                  sqrt: real -> real, f32: real -> Float32Bytes): Option<Download>
    requires geometry.Some? && geometry.value.position.Some? ==> Readable(geometry.value)
  {
    if geometry.None? || geometry.value.position.None? then None
    else
      var tris := ScaleTriangles(Triangles(geometry.value, sqrt), ScaleOrDefault(scaleMM));
      Some(Download(FilenameOrDefault(filename), StlBytes(tris, f32)))
  }

  /**
   * Nothing is downloaded exactly when there is no geometry or no `position` attribute.
   * Otherwise the file is named `filename`, or 'model.stl' when that is missing or empty,
   * the scale is `scaleMM`, or 50 when that is missing or zero, and the bytes are the STL
   * buffer of the scaled triangles, 84 + 50 bytes per triangle long.
   */
  lemma ExportProperties(geometry: Option<Geometry>, filename: Option<string>, scaleMM: Option<real>,
                         sqrt: real -> real, f32: real -> Float32Bytes)
    requires geometry.Some? && geometry.value.position.Some? ==> Readable(geometry.value)
    ensures Export(geometry, filename, scaleMM, sqrt, f32).None? <==> geometry.None? || geometry.value.position.None?
    ensures Export(geometry, filename, scaleMM, sqrt, f32).Some? ==>
      var d := Export(geometry, filename, scaleMM, sqrt, f32).value;
      (d.filename == "model.stl" <==> filename.None? || filename.value == "" || filename.value == "model.stl")
      && (filename.Some? && filename.value != "" ==> d.filename == filename.value)
      && (ScaleOrDefault(scaleMM) == 50.0 <==> scaleMM.None? || scaleMM.value == 0.0 || scaleMM.value == 50.0)
      && d.bytes == StlBytes(ScaleTriangles(Triangles(geometry.value, sqrt), ScaleOrDefault(scaleMM)), f32)
      && |d.bytes| == 84 + 50 * TriangleCount(geometry.value)
  {
    if geometry.Some? && geometry.value.position.Some? {
      var tris := ScaleTriangles(Triangles(geometry.value, sqrt), ScaleOrDefault(scaleMM));
      StlLayout(tris, f32);
    }
  }

  /** `exportSTL`, returning what it hands to `download`. */
  method ExportSTL(geometry: Option<Geometry>, filename: Option<string>, scaleMM: Option<real>,
                   sqrt: real -> real, f32: real -> Float32Bytes) returns (r: Option<Download>)
    requires geometry.Some? && geometry.value.position.Some? ==> Readable(geometry.value)
    ensures r == Export(geometry, filename, scaleMM, sqrt, f32)
  {
    if geometry.None? || geometry.value.position.None? {
      return None;
    }
    var scale := ScaleOrDefault(scaleMM);
    var triangles := ExtractTriangles(geometry.value, sqrt);
    triangles := ScaleTriangles(triangles, scale);
    var buffer := ToBinarySTL(triangles, f32);
    r := Some(Download(FilenameOrDefault(filename), buffer[..]));
  }
}

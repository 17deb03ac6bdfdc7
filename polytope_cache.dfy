/**
 * `getPolytope`: a memo table from registry key to built polytope.  A key already in the
 * table is answered from it; otherwise the builder runs and its result is stored.  Building
 * the 120-cell asks the table for the 600-cell first, so it fills that entry too.
 */
module PolytopeCacheModule {
  import opened Wrappers
  import opened RealMath
  import opened PairLoops
  import B = PolytopeBuilders
  import Reg = PolytopeRegistry
  import S16 = SixteenCell
  import S24 = TwentyFourCell
  import S600 = SixHundredCell
  import S120 = OneTwentyCell
  import C = Cliques
  import D = Dedup
  import V = Vectors

  /** What `build600Cell` promises about the polytope it returns. */
  ghost predicate SixHundredResult(sqrt: real -> real, key: V.Vec4 -> string, p: B.Polytope)
  {
    IsSqrt(sqrt)
    && p.vertices == D.Dedup4(S600.RawVertices(sqrt), key)
    && p.edges == FilterPairs(|p.vertices|, S600.GoldenKeep(p.vertices, sqrt))
    && p.hasCells && C.AllTetra(p.cells) && C.DistinctCells(p.cells)
    && forall t :: C.IsTetra(p.edges, t) <==> B.Cell(t, B.Tetrahedron) in p.cells
  }

  /** Each 600-cell cell lists four existing vertices, so the 120-cell builder can take centres. */
  lemma SixHundredCellsIndexed(sqrt: real -> real, key: V.Vec4 -> string, p: B.Polytope)
    requires SixHundredResult(sqrt, key, p)
    ensures S120.CellsIndex(p.vertices, p.cells) && S120.NonEmptyCells(p.cells)
  {
    var n := |p.vertices|;
    FilterPairsMembers(n, S600.GoldenKeep(p.vertices, sqrt));
    forall c | c in p.cells
      ensures S120.IdsIn(p.vertices, c.vertices) && |c.vertices| > 0
    {
      assert c == B.Cell(c.vertices, B.Tetrahedron);
      var t := c.vertices;
      assert C.IsTetra(p.edges, t);
      forall m | 0 <= m < |t|
        ensures t[m] < n
      {
        var other := if m == 0 then t[1] else t[0];
        assert t[0] < t[1];
        assert t[m] in t && other in t && t[m] != other;
        assert C.Adjacent(p.edges, t[m], other);
      }
    }
  }

  /** `buildTesseract`'s result, stated on the polytope's own vertex list. */
  ghost predicate IsTesseract(p: B.Polytope)
  {
    |p.vertices| == 16 && (forall i :: 0 <= i < 16 ==> p.vertices[i] == B.TessVertex(i))
    && p.edges == FilterPairs(|p.vertices|, B.TessKeep(p.vertices))
    && p.cells == B.TessCells(p.vertices) && p.hasCells
  }

  lemma TesseractIs(p: B.Polytope)
    requires p == B.TesseractSpec()
    ensures IsTesseract(p)
  {
  }

  /** What the builder of each key other than the 120-cell promises. */
  ghost predicate Built(sqrt: real -> real, key: V.Vec4 -> string, k: Reg.PolyKey, p: B.Polytope)
    requires IsSqrt(sqrt)
  {
    match k
    case FiveCell => p == B.FiveCell(sqrt)
    case Tesseract => IsTesseract(p)
    case SixteenCell => p == S16.SixteenSpec(sqrt)
    case TwentyFourCell => p == S24.TwentyFourSpec(sqrt)
    case SixHundredCell => SixHundredResult(sqrt, key, p)
    case OneTwentyCell => false
  }

  /** The entry the table may hold for each key; a 120-cell comes from the stored 600-cell. */
  ghost predicate EntryOk(sqrt: real -> real, key: V.Vec4 -> string, entries: map<Reg.PolyKey, B.Polytope>, k: Reg.PolyKey)
    requires IsSqrt(sqrt) && k in entries
  {
    if k != Reg.OneTwentyCell then Built(sqrt, key, k, entries[k])
    else
      Reg.SixHundredCell in entries && SixHundredResult(sqrt, key, entries[Reg.SixHundredCell])
      && (SixHundredCellsIndexed(sqrt, key, entries[Reg.SixHundredCell]);
          S120.OneTwentySpec(sqrt, entries[Reg.SixHundredCell]) == Some(entries[k]))
  }

  ghost predicate AllOk(sqrt: real -> real, key: V.Vec4 -> string, entries: map<Reg.PolyKey, B.Polytope>)
  {
    IsSqrt(sqrt) && forall k :: k in entries ==> EntryOk(sqrt, key, entries, k)
  }

  /** Storing a new entry that fits its key keeps every entry fitting. */
  lemma StoreKeepsOk(sqrt: real -> real, key: V.Vec4 -> string, entries: map<Reg.PolyKey, B.Polytope>, k: Reg.PolyKey, p: B.Polytope)
    requires AllOk(sqrt, key, entries) && k !in entries
    requires EntryOk(sqrt, key, entries[k := p], k)
    ensures AllOk(sqrt, key, entries[k := p])
  {
    var after := entries[k := p];
    forall k' | k' in after
      ensures EntryOk(sqrt, key, after, k')
    {
      if k' != k {
        assert EntryOk(sqrt, key, entries, k');
        if k' == Reg.OneTwentyCell {
          assert after[Reg.SixHundredCell] == entries[Reg.SixHundredCell];
        }
      }
    }
  }

  /** Storing the 120-cell built from the stored 600-cell keeps every entry fitting. */
  lemma Store120Ok(sqrt: real -> real, key: V.Vec4 -> string, entries: map<Reg.PolyKey, B.Polytope>, p: B.Polytope)
    requires AllOk(sqrt, key, entries) && Reg.OneTwentyCell !in entries
    requires Reg.SixHundredCell in entries && SixHundredResult(sqrt, key, entries[Reg.SixHundredCell])
    requires (SixHundredCellsIndexed(sqrt, key, entries[Reg.SixHundredCell]);
              S120.OneTwentySpec(sqrt, entries[Reg.SixHundredCell]) == Some(p))
    ensures AllOk(sqrt, key, entries[Reg.OneTwentyCell := p])
  {
    var after := entries[Reg.OneTwentyCell := p];
    assert after[Reg.SixHundredCell] == entries[Reg.SixHundredCell];
    StoreKeepsOk(sqrt, key, entries, Reg.OneTwentyCell, p);
  }

  /** The `builders` table for the keys whose builder needs no other entry. */
  method BuildDirect(sqrt: real -> real, key: V.Vec4 -> string, k: Reg.PolyKey) returns (p: B.Polytope)
    requires IsSqrt(sqrt) && k != Reg.OneTwentyCell
    ensures Built(sqrt, key, k, p)
  {
    match k {
      case FiveCell =>
        p := B.Build5Cell(sqrt);
      case Tesseract =>
        p := B.BuildTesseract();
        TesseractIs(p);
      case SixteenCell =>
        p := S16.Build16Cell(sqrt);
      case TwentyFourCell =>
        p := S24.Build24Cell(sqrt);
      case SixHundredCell =>
        p := S600.Build600Cell(sqrt, key);
    }
  }

  /** A stored 120-cell has no cell list. */
  lemma OneTwentyEntryShape(sqrt: real -> real, key: V.Vec4 -> string, entries: map<Reg.PolyKey, B.Polytope>)
    requires IsSqrt(sqrt)
    requires Reg.OneTwentyCell in entries && EntryOk(sqrt, key, entries, Reg.OneTwentyCell)
    ensures entries[Reg.OneTwentyCell].cells == [] && !entries[Reg.OneTwentyCell].hasCells
  {
    var p600 := entries[Reg.SixHundredCell];
    SixHundredCellsIndexed(sqrt, key, p600);
    S120.OneTwentyShape(sqrt, p600);
  }

  /** The 120-cell is built after the 600-cell it asks for. */
  function Rank(k: Reg.PolyKey): nat
  {
    if k == Reg.OneTwentyCell then 1 else 0
  }

  class PolytopeCache {
    /** The `cache` object: one built polytope per key asked for so far. */
    var entries: map<Reg.PolyKey, B.Polytope>
    /** `Math.sqrt` and the `toFixed` rounding key of `dedup4`. */
    const sqrt: real -> real
    const key: V.Vec4 -> string

    ghost predicate Valid()
      reads this
    {
      AllOk(sqrt, key, entries)
    }

    constructor (sqrt: real -> real, key: V.Vec4 -> string)
      requires IsSqrt(sqrt)
      ensures Valid() && entries == map[]
      ensures this.sqrt == sqrt && this.key == key
    {
      this.sqrt := sqrt;
      this.key := key;
      entries := map[];
    }

    /**
     * A cached key answers with its entry and leaves the table alone; any other key runs its
     * builder and stores the result.  Only the 120-cell can fail: when the 600-cell has no cell
     * or its first centre is the origin.
     */
    method Get(k: Reg.PolyKey) returns (r: Option<B.Polytope>)
      requires Valid()
      modifies this
      ensures Valid()
      ensures k in old(entries) ==> r == Some(old(entries)[k]) && entries == old(entries)
      ensures forall k' :: k' in old(entries) ==> k' in entries && entries[k'] == old(entries)[k']
      ensures entries.Keys <= old(entries).Keys + {k, Reg.SixHundredCell}
      ensures r.Some? ==> k in entries && entries[k] == r.value
      ensures r.None? ==> k == Reg.OneTwentyCell && k !in entries && Reg.SixHundredCell in entries
      ensures k == Reg.OneTwentyCell ==> Reg.SixHundredCell in entries
      ensures k == Reg.OneTwentyCell && r.Some? ==> r.value.cells == [] && !r.value.hasCells
      decreases Rank(k), 1
    {
      if k in entries {
        if k == Reg.OneTwentyCell {
          OneTwentyEntryShape(sqrt, key, entries);
        }
        return Some(entries[k]);
      }
      var p: B.Polytope;
      if k != Reg.OneTwentyCell {
        p := StoreDirect(k);
        return Some(p);
      } else {
        var built := Build120();
        if built.None? {
          return None;
        }
        p := built.value;
        Store120Ok(sqrt, key, entries, p);
      }
      entries := entries[k := p];
      r := Some(p);
    }

    /** Run the builder of a key that needs no other entry, and store its result. */
    method StoreDirect(k: Reg.PolyKey) returns (p: B.Polytope)
      requires Valid() && k !in entries && k != Reg.OneTwentyCell
      modifies this
      ensures Valid() && entries == old(entries)[k := p]
    {
      p := BuildDirect(sqrt, key, k);
      assert EntryOk(sqrt, key, entries[k := p], k);
      StoreKeepsOk(sqrt, key, entries, k, p);
      entries := entries[k := p];
    }

    /**
     * `build120Cell`: fetch the 600-cell through the table, then build from its cells.  `None`
     * where the source has no usable result.
     */
    method Build120() returns (r: Option<B.Polytope>)
      requires Valid()
      modifies this
      ensures Valid()
      ensures forall k' :: k' in old(entries) ==> k' in entries && entries[k'] == old(entries)[k']
      ensures entries.Keys <= old(entries).Keys + {Reg.SixHundredCell}
      ensures Reg.SixHundredCell in entries && SixHundredResult(sqrt, key, entries[Reg.SixHundredCell])
      ensures (SixHundredCellsIndexed(sqrt, key, entries[Reg.SixHundredCell]);
               r == S120.OneTwentySpec(sqrt, entries[Reg.SixHundredCell]))
      ensures r.Some? ==> r.value.cells == [] && !r.value.hasCells
      decreases Rank(Reg.OneTwentyCell), 0
    {
      var p600 := Get(Reg.SixHundredCell);
      assert EntryOk(sqrt, key, entries, Reg.SixHundredCell);
      SixHundredCellsIndexed(sqrt, key, p600.value);
      r := S120.Build120Cell(sqrt, p600.value);
      S120.OneTwentyShape(sqrt, p600.value);
    }
  }
}

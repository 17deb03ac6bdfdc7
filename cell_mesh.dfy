/**
 * The index arithmetic of `buildCellMesh`: pick cell `cellIndex` of a polytope, keep the
 * polytope edges whose two ends both belong to the cell, and renumber each end by its first
 * position in the cell's vertex list.
 */
module CellMesh {
  import opened Wrappers
  import opened PairLoops
  import opened PolytopeBuilders

  /** `indexOf`: the first position of `x` in `s`, or −1. */
  function IndexOf(s: seq<nat>, x: nat): (r: int)
    ensures -1 <= r < |s|
    ensures r == -1 <==> x !in s
    ensures r >= 0 ==> s[r] == x && x !in s[..r]
  {
    if |s| == 0 then -1
    else if s[0] == x then 0
    else
      var t := IndexOf(s[1..], x);
      assert s[1..][..if t < 0 then 0 else t] == s[1..1 + (if t < 0 then 0 else t)];
      if t < 0 then -1 else t + 1
  }

  /** The remapped edge list for the cell with vertex list `cell`, over edges `edges`. */
  function Remap(cell: seq<nat>, edges: seq<Edge>): seq<Edge>
  {
    if |edges| == 0 then []
    else
      var (a, b) := edges[|edges| - 1];
      Remap(cell, edges[..|edges| - 1])
        + (if a in cell && b in cell then [(IndexOf(cell, a) as nat, IndexOf(cell, b) as nat)] else [])
  }

  /** `buildCellMesh`'s guard and edge remap: `None` where it returns `null`. */
  function CellEdges(p: Polytope, cellIndex: nat): Option<seq<Edge>>
  {
    if !p.hasCells || cellIndex >= |p.cells| then None
    else Some(Remap(p.cells[cellIndex].vertices, p.edges))
  }

  /** One pass of the edge loop: an edge with both ends in the cell is renumbered and kept. */
  method AddCellEdge(cell: seq<nat>, cellVertSet: set<nat>, edges: seq<Edge>, t: nat, cellEdges: seq<Edge>)
    returns (cellEdges': seq<Edge>)
    requires forall v :: v in cellVertSet <==> v in cell
    requires t < |edges| && cellEdges == Remap(cell, edges[..t])
    ensures cellEdges' == Remap(cell, edges[..t + 1])
  {
    var (a, b) := edges[t];
    assert edges[..t + 1][..t] == edges[..t];
    if a in cellVertSet && b in cellVertSet {
      cellEdges' := cellEdges + [(IndexOf(cell, a) as nat, IndexOf(cell, b) as nat)];
    } else {
      cellEdges' := cellEdges;
    }
  }

  method BuildCellEdges(p: Polytope, cellIndex: nat) returns (r: Option<seq<Edge>>)
    ensures r == CellEdges(p, cellIndex)
  {
    if !p.hasCells || cellIndex >= |p.cells| {
      return None;
    }
    var cell := p.cells[cellIndex].vertices;
    var cellVertSet := set v | v in cell;
    var cellEdges: seq<Edge> := [];
    var t := 0;
    while t < |p.edges|
      invariant t <= |p.edges|
      invariant cellEdges == Remap(cell, p.edges[..t])
    {
      cellEdges := AddCellEdge(cell, cellVertSet, p.edges, t, cellEdges);
      t := t + 1;
    }
    assert p.edges[..|p.edges|] == p.edges;
    return Some(cellEdges);
  }

  /**
   * Each remapped pair points at two positions of the cell whose vertices are joined by an
   * edge, and every edge with both ends in the cell is remapped: the result lists, in edge
   * order, exactly those edges.
   */
  lemma {:induction false} RemapProperties(cell: seq<nat>, edges: seq<Edge>)
    ensures |Remap(cell, edges)| <= |edges|
    ensures forall e :: e in Remap(cell, edges) ==> e.0 < |cell| && e.1 < |cell| && (cell[e.0], cell[e.1]) in edges
    ensures forall e :: e in edges && e.0 in cell && e.1 in cell ==>
      (IndexOf(cell, e.0) as nat, IndexOf(cell, e.1) as nat) in Remap(cell, edges)
  {
    RemapLength(cell, edges);
    forall e | e in Remap(cell, edges)
      ensures e.0 < |cell| && e.1 < |cell| && (cell[e.0], cell[e.1]) in edges
    {
      RemapSound(cell, edges, e);
    }
    forall e | e in edges && e.0 in cell && e.1 in cell
      ensures (IndexOf(cell, e.0) as nat, IndexOf(cell, e.1) as nat) in Remap(cell, edges)
    {
      RemapComplete(cell, edges, e);
    }
  }

  lemma {:induction false} RemapLength(cell: seq<nat>, edges: seq<Edge>)
    ensures |Remap(cell, edges)| <= |edges|
  {
    if |edges| > 0 {
      RemapLength(cell, edges[..|edges| - 1]);
    }
  }

  /** A remapped pair renumbers an edge with both ends in the cell. */
  lemma {:induction false} RemapSound(cell: seq<nat>, edges: seq<Edge>, e: Edge)
    requires e in Remap(cell, edges)
    ensures e.0 < |cell| && e.1 < |cell| && (cell[e.0], cell[e.1]) in edges
  {
    var front := edges[..|edges| - 1];
    if e in Remap(cell, front) {
      RemapSound(cell, front, e);
      var q :| 0 <= q < |front| && front[q] == (cell[e.0], cell[e.1]);
      assert edges[q] == front[q];
    } else {
      var (a, b) := edges[|edges| - 1];
      assert a in cell && b in cell && e == (IndexOf(cell, a) as nat, IndexOf(cell, b) as nat);
      assert cell[e.0] == a && cell[e.1] == b;
      assert edges[|edges| - 1] in edges;
    }
  }

  /** An edge with both ends in the cell is remapped. */
  lemma {:induction false} RemapComplete(cell: seq<nat>, edges: seq<Edge>, e: Edge)
    requires e in edges && e.0 in cell && e.1 in cell
    ensures (IndexOf(cell, e.0) as nat, IndexOf(cell, e.1) as nat) in Remap(cell, edges)
  {
    var front := edges[..|edges| - 1];
    if e != edges[|edges| - 1] {
      var q :| 0 <= q < |edges| && edges[q] == e;
      assert front[q] == e;
      RemapComplete(cell, front, e);
    }
  }

  /** `null` exactly when the polytope has no cells or the index is past the last one. */
  lemma CellEdgesProperties(p: Polytope, cellIndex: nat)
    ensures CellEdges(p, cellIndex).None? <==> !p.hasCells || cellIndex >= |p.cells|
    ensures CellEdges(p, cellIndex).Some? ==>
      var cell := p.cells[cellIndex].vertices;
      (forall e :: e in CellEdges(p, cellIndex).value ==> e.0 < |cell| && e.1 < |cell| && (cell[e.0], cell[e.1]) in p.edges)
      && forall e :: e in p.edges && e.0 in cell && e.1 in cell ==>
           (IndexOf(cell, e.0) as nat, IndexOf(cell, e.1) as nat) in CellEdges(p, cellIndex).value
  {
    if CellEdges(p, cellIndex).Some? {
      RemapProperties(p.cells[cellIndex].vertices, p.edges);
    }
  }
}

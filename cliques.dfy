/**
 * The tetrahedral-cell search of the 600-cell builder: `buildAdj` turns the edge list into
 * neighbour sets, and every edge `[u, v]` with two adjacent common neighbours `w, x`
 * yields the cell `[u, v, w, x]` sorted ascending, recorded once per key.  The model
 * shows the cells found are exactly the 4-cliques of the edge graph, each once.
 */
module Cliques {
  import opened PairLoops
  import opened PolytopeBuilders

  // ---------------------------------------------------------------- neighbour sets

  /**
   * `Set.add` on a set that iterates in insertion order: a neighbour set is the list of
   * its members in the order they were first added.
   */
  function AddTo(s: seq<nat>, x: nat): seq<nat>
  {
    if x in s then s else s + [x]
  }

  predicate NoDup(s: seq<nat>)
  {
    forall p, q :: 0 <= p < q < |s| ==> s[p] != s[q]
  }

  /** `x` and `y` are joined by an edge, listed either way round. */
  predicate Adjacent(edges: seq<Edge>, x: nat, y: nat)
  {
    (x, y) in edges || (y, x) in edges
  }

  /** Every edge names two of the `n` vertices. */
  predicate EdgesIn(n: nat, edges: seq<Edge>)
  {
    forall e :: e in edges ==> e.0 < n && e.1 < n
  }

  /** No edge joins a vertex to itself. */
  predicate LoopFree(edges: seq<Edge>)
  {
    forall e :: e in edges ==> e.0 != e.1
  }

  /** One step of the loop: `adj[i].add(j); adj[j].add(i)`. */
  function AddEdge(adj: seq<seq<nat>>, e: Edge): seq<seq<nat>>
    requires e.0 < |adj| && e.1 < |adj|
  {
    var a := adj[e.0 := AddTo(adj[e.0], e.1)];
    a[e.1 := AddTo(a[e.1], e.0)]
  }

  /** `buildAdj(n, edges)`: `n` empty sets, then every edge added in list order. */
  function AdjSpec(n: nat, edges: seq<Edge>): (adj: seq<seq<nat>>)
    requires EdgesIn(n, edges)
    ensures |adj| == n
  {
    if edges == [] then seq(n, v => [])
    else AddEdge(AdjSpec(n, edges[..|edges| - 1]), edges[|edges| - 1])
  }

  method BuildAdj(n: nat, edges: seq<Edge>) returns (adj: seq<seq<nat>>)
    requires EdgesIn(n, edges)
    ensures adj == AdjSpec(n, edges)
  {
    adj := seq(n, v => []);
    var k := 0;
    while k < |edges|
      invariant k <= |edges|
      invariant adj == AdjSpec(n, edges[..k])
    {
      assert edges[..k + 1][..k] == edges[..k];
      var (i, j) := edges[k];
      adj := adj[i := AddTo(adj[i], j)];
      adj := adj[j := AddTo(adj[j], i)];
      k := k + 1;
    }
    assert edges[..k] == edges;
  }

  /** The neighbour set of a vertex, with the adjacency relation it represents. */
  ghost predicate AdjOf(n: nat, edges: seq<Edge>, adj: seq<seq<nat>>)
  {
    |adj| == n &&
    forall v :: 0 <= v < n ==>
      NoDup(adj[v]) && forall w :: w in adj[v] <==> Adjacent(edges, v, w)
  }

  /**
   * `buildAdj` is correct: `w` is in the set of `v` exactly when an edge joins them, each
   * neighbour appears once, and so the relation is symmetric.
   */
  lemma {:induction false} AdjSpecMembers(n: nat, edges: seq<Edge>)
    requires EdgesIn(n, edges)
    ensures AdjOf(n, edges, AdjSpec(n, edges))
    ensures forall v, w :: 0 <= v < n && 0 <= w < n ==> (w in AdjSpec(n, edges)[v] <==> v in AdjSpec(n, edges)[w])
  {
    if edges != [] {
      var front: seq<Edge>, e: Edge := edges[..|edges| - 1], edges[|edges| - 1];
      assert edges == front + [e];
      AdjSpecMembers(n, front);
      var adj := AdjSpec(n, front);
      var a := adj[e.0 := AddTo(adj[e.0], e.1)];
      var r := a[e.1 := AddTo(a[e.1], e.0)];
      assert r == AdjSpec(n, edges);
      forall v | 0 <= v < n
        ensures NoDup(r[v]) && forall w :: w in r[v] <==> Adjacent(edges, v, w)
      {
        AddToMembers(adj[e.0], e.1);
        AddToMembers(a[e.1], e.0);
      }
    }
  }

  lemma AddToMembers(s: seq<nat>, x: nat)
    ensures forall w :: w in AddTo(s, x) <==> w == x || w in s
    ensures NoDup(s) ==> NoDup(AddTo(s, x))
  {
  }

  // ---------------------------------------------------------------- common neighbours

  /** `for (const w of adj[u]) if (adj[v].has(w)) common.push(w)`. */
  function Common(a: seq<nat>, b: seq<nat>): seq<nat>
  {
    if a == [] then [] else Common(a[..|a| - 1], b) + (if a[|a| - 1] in b then [a[|a| - 1]] else [])
  }

  method CommonLoop(a: seq<nat>, b: seq<nat>) returns (common: seq<nat>)
    ensures common == Common(a, b)
  {
    common := [];
    var i := 0;
    while i < |a|
      invariant i <= |a|
      invariant common == Common(a[..i], b)
    {
      assert a[..i + 1][..i] == a[..i];
      if a[i] in b {
        common := common + [a[i]];
      }
      i := i + 1;
    }
    assert a[..i] == a;
  }

  /** The common list holds the members of `a` that are in `b`, each once if `a` has no repeat. */
  lemma {:induction false} CommonMembers(a: seq<nat>, b: seq<nat>)
    ensures forall w :: w in Common(a, b) <==> w in a && w in b
    ensures NoDup(a) ==> NoDup(Common(a, b))
  {
    if a != [] {
      var front, x := a[..|a| - 1], a[|a| - 1];
      assert a == front + [x];
      CommonMembers(front, b);
      if NoDup(a) {
        assert NoDup(front) by {
          forall p, q | 0 <= p < q < |front| ensures front[p] != front[q] {
            assert front[p] == a[p] && front[q] == a[q];
          }
        }
        forall p | 0 <= p < |front| ensures front[p] != x {
          assert front[p] == a[p];
        }
      }
    }
  }

  // ---------------------------------------------------------------- ascending sort

  predicate Increasing(s: seq<nat>)
  {
    forall p, q :: 0 <= p < q < |s| ==> s[p] < s[q]
  }

  function Insert(x: nat, s: seq<nat>): seq<nat>
  {
    if s == [] then [x] else if x <= s[0] then [x] + s else [s[0]] + Insert(x, s[1..])
  }

  /** `.sort((a, b) => a - b)`: ascending order. */
  function SortAsc(s: seq<nat>): seq<nat>
  {
    if s == [] then [] else Insert(s[0], SortAsc(s[1..]))
  }

  lemma {:induction false} InsertMembers(x: nat, s: seq<nat>)
    ensures |Insert(x, s)| == |s| + 1
    ensures forall w :: w in Insert(x, s) <==> w == x || w in s
  {
    if s != [] && x > s[0] {
      assert s == [s[0]] + s[1..];
      InsertMembers(x, s[1..]);
    }
  }

  /** The head of a strictly increasing list is below every other element. */
  lemma IncreasingHead(s: seq<nat>, w: nat)
    requires Increasing(s) && w in s
    ensures s[0] <= w
  {
    var q :| 0 <= q < |s| && s[q] == w;
  }

  lemma {:induction false} InsertProperties(x: nat, s: seq<nat>)
    ensures |Insert(x, s)| == |s| + 1
    ensures forall w :: w in Insert(x, s) <==> w == x || w in s
    ensures Increasing(s) && x !in s ==> Increasing(Insert(x, s))
  {
    InsertMembers(x, s);
    if s != [] && x > s[0] {
      var rest := s[1..];
      InsertProperties(x, rest);
      if Increasing(s) && x !in s {
        var t := Insert(x, rest);
        InsertMembers(x, rest);
        IncreasingRest(s);
        forall q | 0 <= q < |t| ensures s[0] < t[q] {
          assert t[q] in t;
          if t[q] != x {
            IncreasingTail(s, t[q]);
          }
        }
        IncreasingCons(s[0], t);
      }
    }
  }

  /** The tail of a strictly increasing list is strictly increasing. */
  lemma IncreasingRest(s: seq<nat>)
    requires Increasing(s) && |s| > 0
    ensures Increasing(s[1..])
  {
    var rest := s[1..];
    forall p, q | 0 <= p < q < |rest| ensures rest[p] < rest[q] {
      assert rest[p] == s[p + 1] && rest[q] == s[q + 1];
    }
  }

  /** A head below every element of a strictly increasing list extends it. */
  lemma IncreasingCons(h: nat, t: seq<nat>)
    requires Increasing(t) && forall q :: 0 <= q < |t| ==> h < t[q]
    ensures Increasing([h] + t)
  {
    var r := [h] + t;
    forall p, q | 0 <= p < q < |r| ensures r[p] < r[q] {
      if p == 0 {
        assert r[q] == t[q - 1];
      } else {
        assert r[p] == t[p - 1] && r[q] == t[q - 1];
      }
    }
  }

  /** The tail of a strictly increasing list holds its elements other than the head. */
  lemma IncreasingTail(s: seq<nat>, w: nat)
    requires Increasing(s) && |s| > 0
    ensures w in s[1..] <==> w in s && w != s[0]
  {
    if w in s[1..] {
      var p :| 0 <= p < |s| - 1 && s[1..][p] == w;
      assert s[p + 1] == w;
    }
    if w in s && w != s[0] {
      var q :| 0 <= q < |s| && s[q] == w;
      assert s[1..][q - 1] == w;
    }
  }

  /** The sort keeps the elements and, on distinct elements, produces a strictly increasing list. */
  lemma {:induction false} SortAscProperties(s: seq<nat>)
    ensures |SortAsc(s)| == |s|
    ensures forall w :: w in SortAsc(s) <==> w in s
    ensures NoDup(s) ==> Increasing(SortAsc(s))
  {
    if s != [] {
      var rest := s[1..];
      assert s == [s[0]] + rest;
      SortAscProperties(rest);
      InsertProperties(s[0], SortAsc(rest));
      if NoDup(s) {
        assert NoDup(rest) by {
          forall p, q | 0 <= p < q < |rest| ensures rest[p] != rest[q] {
            assert rest[p] == s[p + 1] && rest[q] == s[q + 1];
          }
        }
        forall q | 0 <= q < |rest| ensures rest[q] != s[0] {
          assert rest[q] == s[q + 1];
        }
      }
    }
  }

  /** A strictly increasing list is determined by its elements. */
  lemma {:induction false} IncreasingUnique(x: seq<nat>, y: seq<nat>)
    requires Increasing(x) && Increasing(y)
    requires forall w :: w in x <==> w in y
    ensures x == y
    decreases |x|
  {
    if x != [] {
      assert x[0] in x;
    }
    if y != [] {
      assert y[0] in y;
    }
    if x != [] && y != [] {
      IncreasingHead(y, x[0]);
      IncreasingHead(x, y[0]);
      var xs, ys := x[1..], y[1..];
      forall w ensures w in xs <==> w in ys {
        IncreasingTail(x, w);
        IncreasingTail(y, w);
      }
      IncreasingRest(x);
      IncreasingRest(y);
      IncreasingUnique(xs, ys);
      assert x == [x[0]] + xs && y == [y[0]] + ys;
    }
  }

  // ---------------------------------------------------------------- the cells

  /** A tetrahedral cell: four vertices in ascending order, any two joined by an edge. */
  predicate IsTetra(edges: seq<Edge>, c: seq<nat>)
  {
    |c| == 4 && Increasing(c) &&
    forall x, y :: x in c && y in c && x != y ==> Adjacent(edges, x, y)
  }

  /** The key of a cell, `cell.join(',')`, identifies it: the key set is the set of vertex lists. */
  function KeySet(cells: seq<Cell>): set<seq<nat>>
  {
    set c | c in cells :: c.vertices
  }

  predicate DistinctCells(cells: seq<Cell>)
  {
    forall p, q :: 0 <= p < q < |cells| ==> cells[p].vertices != cells[q].vertices
  }

  predicate SoundCells(edges: seq<Edge>, cells: seq<Cell>)
  {
    forall c :: c in cells ==> IsTetra(edges, c.vertices)
  }

  predicate AllTetra(cells: seq<Cell>)
  {
    forall c :: c in cells ==> c.cellType == Tetrahedron
  }

  /**
   * The cell search.  Every cell found is a tetrahedron, no key is recorded twice, every
   * 4-clique of the edge graph is found, and without self-loops every cell found is a
   * 4-clique.
   */
  method TetraCells(n: nat, edges: seq<Edge>) returns (cells: seq<Cell>)
    requires EdgesIn(n, edges)
    ensures AllTetra(cells) && DistinctCells(cells)
    ensures forall t :: IsTetra(edges, t) ==> Cell(t, Tetrahedron) in cells
    ensures LoopFree(edges) ==> SoundCells(edges, cells)
  {
    var adj := BuildAdj(n, edges);
    AdjSpecMembers(n, edges);
    var cellSet: set<seq<nat>> := {};
    cells := [];
    var k := 0;
    while k < |edges|
      invariant k <= |edges|
      invariant cellSet == KeySet(cells)
      invariant AllTetra(cells) && DistinctCells(cells)
      invariant LoopFree(edges) ==> SoundCells(edges, cells)
      invariant forall t :: IsTetra(edges, t) && Adjacent(edges[..k], t[0], t[1]) ==> t in cellSet
    {
      var (u, v) := edges[k];
      var common := CommonLoop(adj[u], adj[v]);
      CommonMembers(adj[u], adj[v]);
      cells, cellSet := EdgeCells(n, edges, adj, u, v, common, cells, cellSet);
      forall t | IsTetra(edges, t) && Adjacent(edges[..k + 1], t[0], t[1])
        ensures t in cellSet
      {
        assert edges[..k + 1] == edges[..k] + [(u, v)];
        if !Adjacent(edges[..k], t[0], t[1]) {
          CliqueThroughEdge(n, edges, adj, u, v, common, t);
        }
      }
      k := k + 1;
    }
    forall t | IsTetra(edges, t)
      ensures Cell(t, Tetrahedron) in cells
    {
      assert edges[..k] == edges;
      assert t[0] in t && t[1] in t;
      assert t in cellSet;
      var c :| c in cells && c.vertices == t;
    }
  }

  lemma AdjacentIn(n: nat, edges: seq<Edge>, x: nat, y: nat)
    requires EdgesIn(n, edges) && Adjacent(edges, x, y)
    ensures x < n && y < n
  {
  }

  /** A 4-clique through the edge `{u, v}` has its other two vertices among the common neighbours. */
  lemma CliqueThroughEdge(n: nat, edges: seq<Edge>, adj: seq<seq<nat>>, u: nat, v: nat, common: seq<nat>, t: seq<nat>)
    requires AdjOf(n, edges, adj) && u < n && v < n
    requires forall w :: w in common <==> w in adj[u] && w in adj[v]
    requires NoDup(common)
    requires IsTetra(edges, t)
    requires (t[0] == u && t[1] == v) || (t[0] == v && t[1] == u)
    ensures exists a, b ::
              0 <= a < b < |common| && Adjacent(edges, common[a], common[b]) &&
              SortAsc([u, v, common[a], common[b]]) == t
  {
    assert forall p :: 0 <= p < 4 ==> t[p] in t;
    assert t[2] in common && t[3] in common by {
      assert t[0] != t[2] && t[1] != t[2] && t[0] != t[3] && t[1] != t[3];
    }
    var a2 :| 0 <= a2 < |common| && common[a2] == t[2];
    var a3 :| 0 <= a3 < |common| && common[a3] == t[3];
    var a, b := if a2 < a3 then a2 else a3, if a2 < a3 then a3 else a2;
    assert a2 != a3;
    var s := [u, v, common[a], common[b]];
    SortAscProperties(s);
    assert NoDup(s);
    forall w ensures w in SortAsc(s) <==> w in t {
      assert w in s <==> w == t[0] || w == t[1] || w == t[2] || w == t[3];
    }
    IncreasingUnique(SortAsc(s), t);
    assert Adjacent(edges, common[a], common[b]);
  }

  /**
   * The double loop over the common neighbours of the edge `[u, v]`: every adjacent pair
   * `common[i], common[j]` (i < j) contributes its sorted cell unless its key is known.
   */
  method EdgeCells(n: nat, edges: seq<Edge>, adj: seq<seq<nat>>, u: nat, v: nat, common: seq<nat>,
                   cells0: seq<Cell>, cellSet0: set<seq<nat>>)
    returns (cells: seq<Cell>, cellSet: set<seq<nat>>)
    requires EdgesIn(n, edges) && AdjOf(n, edges, adj) && (u, v) in edges && u < n && v < n
    requires forall w :: w in common <==> w in adj[u] && w in adj[v]
    requires NoDup(common)
    requires cellSet0 == KeySet(cells0) && AllTetra(cells0) && DistinctCells(cells0)
    requires LoopFree(edges) ==> SoundCells(edges, cells0)
    ensures cellSet == KeySet(cells) && AllTetra(cells) && DistinctCells(cells)
    ensures LoopFree(edges) ==> SoundCells(edges, cells)
    ensures cellSet0 <= cellSet
    ensures forall a, b :: 0 <= a < b < |common| && Adjacent(edges, common[a], common[b]) ==>
      SortAsc([u, v, common[a], common[b]]) in cellSet
  {
    cells, cellSet := cells0, cellSet0;
    var i := 0;
    while i < |common|
      invariant i <= |common|
      invariant cellSet == KeySet(cells) && AllTetra(cells) && DistinctCells(cells)
      invariant LoopFree(edges) ==> SoundCells(edges, cells)
      invariant cellSet0 <= cellSet
      invariant forall a, b :: 0 <= a < b < |common| && a < i && Adjacent(edges, common[a], common[b]) ==>
        SortAsc([u, v, common[a], common[b]]) in cellSet
    {
      var j := i + 1;
      while j < |common|
        invariant i + 1 <= j <= |common|
        invariant cellSet == KeySet(cells) && AllTetra(cells) && DistinctCells(cells)
        invariant LoopFree(edges) ==> SoundCells(edges, cells)
        invariant cellSet0 <= cellSet
        invariant forall a, b ::
                    (0 <= a < b < |common| && (a < i || (a == i && b < j)) && Adjacent(edges, common[a], common[b]))
                    ==> SortAsc([u, v, common[a], common[b]]) in cellSet
      {
        assert common[i] in common;
        AdjacentIn(n, edges, u, common[i]);
        if common[j] in adj[common[i]] {
          var cell := SortAsc([u, v, common[i], common[j]]);
          if !(cell in cellSet) {
            ghost var old_cells := cells;
            if LoopFree(edges) {
              assert common[j] in common;
              CellIsTetra(n, edges, adj, u, v, common, i, j);
            }
            cellSet := cellSet + {cell};
            cells := cells + [Cell(cell, Tetrahedron)];
            assert forall p :: 0 <= p < |old_cells| ==> old_cells[p] in old_cells;
          }
        }
        j := j + 1;
      }
      i := i + 1;
    }
  }

  /** On a loop-free edge list, the sorted `[u, v, common[i], common[j]]` of an adjacent pair is a 4-clique. */
  lemma CellIsTetra(n: nat, edges: seq<Edge>, adj: seq<seq<nat>>, u: nat, v: nat, common: seq<nat>, i: nat, j: nat)
    requires AdjOf(n, edges, adj) && (u, v) in edges && u < n && v < n
    requires forall w :: w in common <==> w in adj[u] && w in adj[v]
    requires NoDup(common) && LoopFree(edges)
    requires i < j < |common| && common[i] < n && common[j] in adj[common[i]]
    ensures IsTetra(edges, SortAsc([u, v, common[i], common[j]]))
  {
    var x, y := common[i], common[j];
    assert x in common && y in common;
    assert Adjacent(edges, u, x) && Adjacent(edges, v, x) && Adjacent(edges, u, y) && Adjacent(edges, v, y);
    assert Adjacent(edges, x, y);
    var s := [u, v, x, y];
    assert NoDup(s) by {
      assert u != v && u != x && u != y && v != x && v != y && x != y;
    }
    SortAscProperties(s);
    var r := SortAsc(s);
    forall a, b | a in r && b in r && a != b
      ensures Adjacent(edges, a, b)
    {
      assert a in s && b in s;
    }
  }
}

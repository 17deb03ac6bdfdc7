/**
 * The nested "for i, for j > i" loop that every polytope builder uses to collect edges,
 * specified as the row-by-row list of kept index pairs.
 */
module PairLoops {
  /** An edge as an index pair `[i, j]`. */
  type Edge = (nat, nat)

  /** Row `i` of the loop, cut at `end`: the kept pairs `(i, j)` with `i < j < end`, by increasing `j`. */
  function Row(i: nat, end: nat, keep: (nat, nat) -> bool): seq<Edge>
    decreases end
  {
    if end <= i + 1 then []
    else Row(i, end - 1, keep) + (if keep(i, end - 1) then [(i, end - 1)] else [])
  }

  /** Rows `0 .. count - 1` of the loop over `n` indices. */
  function Rows(count: nat, n: nat, keep: (nat, nat) -> bool): seq<Edge>
  {
    if count == 0 then [] else Rows(count - 1, n, keep) + Row(count - 1, n, keep)
  }

  /** All kept pairs `i < j < n`, in the loop's order. */
  function FilterPairs(n: nat, keep: (nat, nat) -> bool): seq<Edge>
  {
    Rows(n, n, keep)
  }

  /** Lexicographic order of pairs, the order the loop visits them in. */
  predicate Before(a: Edge, b: Edge)
  {
    a.0 < b.0 || (a.0 == b.0 && a.1 < b.1)
  }

  predicate StrictlyOrdered(s: seq<Edge>)
  {
    forall p, q :: 0 <= p < q < |s| ==> Before(s[p], s[q])
  }

  lemma {:induction false} RowMembers(i: nat, end: nat, keep: (nat, nat) -> bool)
    ensures forall e :: e in Row(i, end, keep) <==> e.0 == i && i < e.1 < end && keep(e.0, e.1)
    ensures StrictlyOrdered(Row(i, end, keep))
    ensures forall e :: e in Row(i, end, keep) ==> e.1 < end
    decreases end
  {
    if end > i + 1 {
      RowMembers(i, end - 1, keep);
    }
  }

  lemma RowsMembers(count: nat, n: nat, keep: (nat, nat) -> bool)
    ensures forall e :: e in Rows(count, n, keep) <==> e.0 < count && e.0 < e.1 < n && keep(e.0, e.1)
    ensures StrictlyOrdered(Rows(count, n, keep))
  {
    RowsContents(count, n, keep);
    RowsOrdered(count, n, keep);
  }

  lemma {:induction false} RowsContents(count: nat, n: nat, keep: (nat, nat) -> bool)
    ensures forall e :: e in Rows(count, n, keep) <==> e.0 < count && e.0 < e.1 < n && keep(e.0, e.1)
  {
    if count > 0 {
      RowsContents(count - 1, n, keep);
      RowMembers(count - 1, n, keep);
      var a, b := Rows(count - 1, n, keep), Row(count - 1, n, keep);
      forall e ensures e in Rows(count, n, keep) <==> e.0 < count && e.0 < e.1 < n && keep(e.0, e.1) {
        assert e in Rows(count, n, keep) <==> e in a || e in b;
      }
    }
  }

  lemma {:induction false} RowsOrdered(count: nat, n: nat, keep: (nat, nat) -> bool)
    ensures StrictlyOrdered(Rows(count, n, keep))
  {
    if count > 0 {
      RowsOrdered(count - 1, n, keep);
      RowsContents(count - 1, n, keep);
      RowMembers(count - 1, n, keep);
      OrderedConcat(Rows(count - 1, n, keep), Row(count - 1, n, keep));
    }
  }

  /** Two ordered lists, the first wholly before the second, make an ordered list. */
  lemma OrderedConcat(a: seq<Edge>, b: seq<Edge>)
    requires StrictlyOrdered(a) && StrictlyOrdered(b)
    requires forall x, y :: x in a && y in b ==> Before(x, y)
    ensures StrictlyOrdered(a + b)
  {
    forall p, q | 0 <= p < q < |a + b|
      ensures Before((a + b)[p], (a + b)[q])
    {
      if q >= |a| && p < |a| {
        assert a[p] in a && b[q - |a|] in b;
      }
    }
  }

  /** The loop keeps exactly the pairs `i < j < n` that satisfy `keep`, each once, in order. */
  lemma FilterPairsMembers(n: nat, keep: (nat, nat) -> bool)
    ensures forall e :: e in FilterPairs(n, keep) <==> e.0 < e.1 < n && keep(e.0, e.1)
    ensures StrictlyOrdered(FilterPairs(n, keep))
  {
    RowsMembers(n, n, keep);
  }

  /** The list only depends on the values of `keep` on pairs `i < j < n`. */
  lemma {:induction false} RowsAgree(count: nat, n: nat, k1: (nat, nat) -> bool, k2: (nat, nat) -> bool)
    requires forall i: nat, j: nat :: i < j < n ==> k1(i, j) == k2(i, j)
    ensures Rows(count, n, k1) == Rows(count, n, k2)
  {
    if count > 0 {
      RowsAgree(count - 1, n, k1, k2);
      RowAgree(count - 1, n, n, k1, k2);
    }
  }

  lemma {:induction false} RowAgree(i: nat, end: nat, n: nat, k1: (nat, nat) -> bool, k2: (nat, nat) -> bool)
    requires end <= n
    requires forall i: nat, j: nat :: i < j < n ==> k1(i, j) == k2(i, j)
    ensures Row(i, end, k1) == Row(i, end, k2)
    decreases end
  {
    if end > i + 1 {
      RowAgree(i, end - 1, n, k1, k2);
    }
  }

  lemma FilterPairsAgree(n: nat, k1: (nat, nat) -> bool, k2: (nat, nat) -> bool)
    requires forall i: nat, j: nat :: i < j < n ==> k1(i, j) == k2(i, j)
    ensures FilterPairs(n, k1) == FilterPairs(n, k2)
  {
    RowsAgree(n, n, k1, k2);
  }

  lemma {:induction false} RowsNone(count: nat, n: nat, keep: (nat, nat) -> bool)
    requires forall i: nat, j: nat :: i < j < n ==> !keep(i, j)
    ensures Rows(count, n, keep) == []
  {
    if count > 0 {
      RowsNone(count - 1, n, keep);
      RowNone(count - 1, n, n, keep);
    }
  }

  lemma {:induction false} RowNone(i: nat, end: nat, n: nat, keep: (nat, nat) -> bool)
    requires end <= n
    requires forall i: nat, j: nat :: i < j < n ==> !keep(i, j)
    ensures Row(i, end, keep) == []
    decreases end
  {
    if end > i + 1 {
      RowNone(i, end - 1, n, keep);
    }
  }

  /** A test that rejects every pair leaves the list empty. */
  lemma FilterPairsNone(n: nat, keep: (nat, nat) -> bool)
    requires forall i: nat, j: nat :: i < j < n ==> !keep(i, j)
    ensures FilterPairs(n, keep) == []
  {
    RowsNone(n, n, keep);
  }

  /**
   * The nested loop itself: `for (i = 0; i < n; i++) for (j = i + 1; j < n; j++) if (keep(i, j)) edges.push([i, j])`.
   */
  method CollectPairs(n: nat, keep: (nat, nat) -> bool) returns (edges: seq<Edge>)
    ensures edges == FilterPairs(n, keep)
  {
    edges := [];
    var i := 0;
    while i < n
      invariant i <= n
      invariant edges == Rows(i, n, keep)
    {
      edges := CollectRow(n, keep, i, edges);
      i := i + 1;
    }
  }

  /** The inner loop of row `i`: appends the kept pairs `(i, j)`, `i < j < n`. */
  method CollectRow(n: nat, keep: (nat, nat) -> bool, i: nat, start: seq<Edge>) returns (edges: seq<Edge>)
    requires i < n
    ensures edges == start + Row(i, n, keep)
  {
    edges := start;
    var j := i + 1;
    while j < n
      invariant i + 1 <= j <= n
      invariant edges == start + Row(i, j, keep)
    {
      if keep(i, j) {
        edges := edges + [(i, j)];
      }
      j := j + 1;
    }
  }

  /** The indices `i < n` satisfying `pred`, in increasing order: a loop pushing `i` when `pred(i)`. */
  function FilterIndices(n: nat, pred: nat -> bool): seq<nat>
  {
    if n == 0 then [] else FilterIndices(n - 1, pred) + (if pred(n - 1) then [n - 1] else [])
  }

  lemma {:induction false} FilterIndicesMembers(n: nat, pred: nat -> bool)
    ensures forall i: nat :: i in FilterIndices(n, pred) <==> i < n && pred(i)
    ensures forall p, q :: 0 <= p < q < |FilterIndices(n, pred)| ==> FilterIndices(n, pred)[p] < FilterIndices(n, pred)[q]
  {
    if n > 0 {
      FilterIndicesMembers(n - 1, pred);
      var a := FilterIndices(n - 1, pred);
      var b: seq<nat> := if pred(n - 1) then [n - 1] else [];
      assert FilterIndices(n, pred) == a + b;
      forall p, q | 0 <= p < q < |a + b|
        ensures (a + b)[p] < (a + b)[q]
      {
        if q >= |a| && p < |a| {
          assert a[p] in a;
        }
      }
    }
  }

  /** One index at a time: `i` is kept exactly when it is below `n` and satisfies `pred`. */
  lemma {:induction false} FilterIndicesMember(n: nat, pred: nat -> bool, i: nat)
    ensures i in FilterIndices(n, pred) <==> i < n && pred(i)
  {
    if n > 0 {
      FilterIndicesMember(n - 1, pred, i);
    }
  }

  lemma {:induction false} FilterIndicesAgree(n: nat, p1: nat -> bool, p2: nat -> bool)
    requires forall i: nat :: i < n ==> p1(i) == p2(i)
    ensures FilterIndices(n, p1) == FilterIndices(n, p2)
  {
    if n > 0 {
      FilterIndicesAgree(n - 1, p1, p2);
    }
  }

  /** `for (let i = 0; i < n; i++) if (keep(i)) out.push(item(i))`, as a value. */
  function FilterMap<T>(n: nat, keep: nat -> bool, item: nat -> T): (r: seq<T>)
    ensures |r| <= n
  {
    if n == 0 then [] else FilterMap(n - 1, keep, item) + (if keep(n - 1) then [item(n - 1)] else [])
  }

  /** Entry `g` is the item of some kept index below `n`. */
  lemma {:induction false} FilterMapSource<T>(n: nat, keep: nat -> bool, item: nat -> T, g: nat) returns (i: nat)
    requires g < |FilterMap(n, keep, item)|
    ensures i < n && keep(i) && FilterMap(n, keep, item)[g] == item(i)
  {
    var prev := FilterMap(n - 1, keep, item);
    if g < |prev| {
      i := FilterMapSource(n - 1, keep, item, g);
    } else {
      i := n - 1;
    }
  }

  /** The item of every kept index below `n` is an entry. */
  lemma {:induction false} FilterMapComplete<T>(n: nat, keep: nat -> bool, item: nat -> T, i: nat) returns (g: nat)
    requires i < n && keep(i)
    ensures g < |FilterMap(n, keep, item)| && FilterMap(n, keep, item)[g] == item(i)
  {
    if i < n - 1 {
      g := FilterMapComplete(n - 1, keep, item, i);
    } else {
      g := |FilterMap(n - 1, keep, item)|;
    }
  }

  /** With every index kept, entry `i` is item `i`. */
  lemma {:induction false} FilterMapAll<T>(n: nat, keep: nat -> bool, item: nat -> T)
    requires forall i: nat :: i < n ==> keep(i)
    ensures |FilterMap(n, keep, item)| == n && forall i :: 0 <= i < n ==> FilterMap(n, keep, item)[i] == item(i)
  {
    if n > 0 {
      FilterMapAll(n - 1, keep, item);
    }
  }

  /** `for (let i = 0; i < n; i++) if (pred(i)) cv.push(i)`. */
  method CollectIndices(n: nat, pred: nat -> bool) returns (cv: seq<nat>)
    ensures cv == FilterIndices(n, pred)
  {
    cv := [];
    var i := 0;
    while i < n
      invariant i <= n
      invariant cv == FilterIndices(i, pred)
    {
      if pred(i) {
        cv := cv + [i];
      }
      i := i + 1;
    }
  }
}

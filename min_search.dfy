/**
 * The least-distance search both engines run over the first few vertices:
 * `for i < n, for i < j < n: d = dist4(verts[i], verts[j]); if (d > floor && d < minD) minD = d`,
 * starting from `minD = Infinity`, which the model writes as `None`.
 */
module MinSearch {
  import opened Wrappers
  import opened Vectors

  /** One step of the inner loop. */
  function MinStep(acc: Option<real>, d: real, floor: real): Option<real>
  {
    if d > floor && (acc.None? || d < acc.value) then Some(d) else acc
  }

  /** `minD` after the inner loop of row `i` has run up to `end`. */
  function RowMin(dist: (nat, nat) -> real, floor: real, acc: Option<real>, i: nat, end: nat): Option<real>
    decreases end
  {
    if end <= i + 1 then acc else MinStep(RowMin(dist, floor, acc, i, end - 1), dist(i, end - 1), floor)
  }

  /** `minD` after rows `0 .. count - 1` of the loop over `n` vertices. */
  function RowsMin(dist: (nat, nat) -> real, floor: real, count: nat, n: nat): Option<real>
  {
    if count == 0 then None else RowMin(dist, floor, RowsMin(dist, floor, count - 1, n), count - 1, n)
  }

  /** `dist4(verts[i], verts[j])` for the indices in range. */
  function PairDist(verts: seq<Vec4>, sqrt: real -> real): (nat, nat) -> real
  {
    (i: nat, j: nat) => if i < |verts| && j < |verts| then Dist4(verts[i], verts[j], sqrt) else 0.0
  }

  /** The double loop over the first `n` vertices. */
  method MinPairDistance(verts: seq<Vec4>, sqrt: real -> real, floor: real, n: nat) returns (minD: Option<real>)
    requires n <= |verts|
    ensures minD == RowsMin(PairDist(verts, sqrt), floor, n, n)
  {
    minD := None;
    var i := 0;
    while i < n
      invariant i <= n
      invariant minD == RowsMin(PairDist(verts, sqrt), floor, i, n)
    {
      minD := RowLoop(PairDist(verts, sqrt), floor, n, i, minD);
      i := i + 1;
    }
  }

  /** The inner loop of row `i`, starting from the running minimum `acc`; `dist(i, j)` is `dist4(verts[i], verts[j])`. */
  method RowLoop(dist: (nat, nat) -> real, floor: real, n: nat, i: nat, acc: Option<real>)
    returns (minD: Option<real>)
    requires i < n
    ensures minD == RowMin(dist, floor, acc, i, n)
  {
    minD := acc;
    var j := i + 1;
    while j < n
      invariant i + 1 <= j <= n
      invariant minD == RowMin(dist, floor, acc, i, j)
    {
      var d := dist(i, j);
      RowMinStep(dist, floor, acc, i, j);
      if d > floor && (minD.None? || d < minD.value) {
        minD := Some(d);
      }
      j := j + 1;
    }
  }

  lemma RowMinStep(dist: (nat, nat) -> real, floor: real, acc: Option<real>, i: nat, j: nat)
    requires i + 1 <= j
    ensures RowMin(dist, floor, acc, i, j + 1) == MinStep(RowMin(dist, floor, acc, i, j), dist(i, j), floor)
  {
  }

  /** A distance `minD` holds is always above the floor. */
  predicate AboveFloor(acc: Option<real>, floor: real)
  {
    acc.Some? ==> acc.value > floor
  }

  lemma {:induction false} RowMinProperties(dist: (nat, nat) -> real, floor: real, acc: Option<real>, i: nat, end: nat)
    requires AboveFloor(acc, floor)
    ensures var r := RowMin(dist, floor, acc, i, end);
      AboveFloor(r, floor)
      && (r.None? <==> acc.None? && forall j: nat :: i < j < end ==> dist(i, j) <= floor)
      && (r.Some? ==> (acc.Some? && r.value == acc.value) || exists j: nat :: i < j < end && dist(i, j) == r.value)
      && (r.Some? && acc.Some? ==> r.value <= acc.value)
      && (r.Some? ==> forall j: nat :: i < j < end && dist(i, j) > floor ==> r.value <= dist(i, j))
    decreases end
  {
    if end > i + 1 {
      RowMinProperties(dist, floor, acc, i, end - 1);
    }
  }

  /**
   * The search returns the least distance above the floor among the pairs it visits, and
   * `Infinity` (`None`) exactly when no visited pair is farther apart than the floor.
   */
  lemma {:induction false} RowsMinProperties(dist: (nat, nat) -> real, floor: real, count: nat, n: nat)
    ensures var r := RowsMin(dist, floor, count, n);
      AboveFloor(r, floor)
      && (r.None? <==> forall i: nat, j: nat :: i < count && i < j < n ==> dist(i, j) <= floor)
      && (r.Some? ==> exists i: nat, j: nat :: i < count && i < j < n && dist(i, j) == r.value)
      && (r.Some? ==> forall i: nat, j: nat :: i < count && i < j < n && dist(i, j) > floor ==> r.value <= dist(i, j))
  {
    if count > 0 {
      var acc := RowsMin(dist, floor, count - 1, n);
      RowsMinProperties(dist, floor, count - 1, n);
      RowMinProperties(dist, floor, acc, count - 1, n);
    }
  }
}

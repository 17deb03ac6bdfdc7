/**
 * The chaos lab's analysis helpers: statistics of a flat point buffer, the merge of a
 * system's declared parameters with caller overrides, the divergence test on a state, and
 * the guards that make the numerical analyses return neutral values for an unknown system.
 */
module ChaosAnalyzer {
  import opened Wrappers
  import opened RealMath
  import opened Vectors

  // ==================== trajectoryStats ====================

  /**
   * A running bound that starts at an infinity: `None` is the `Infinity` (for a minimum) or
   * `-Infinity` (for a maximum) the loop starts from, which every finite value beats.
   */
  type Bound = Option<real>

  /** `v < min[j]`. */
  predicate Below(v: real, m: Bound)
  {
    m.None? || v < m.value
  }

  /** `v > max[j]`. */
  predicate Above(v: real, m: Bound)
  {
    m.None? || v > m.value
  }

  /** Coordinate `j` of point `i` of a flat `[x, y, z, ...]` buffer. */
  function Coord(points: seq<real>, i: nat, j: nat): real
    requires 3 * i + j < |points|
  {
    points[3 * i + j]
  }

  /** `min[j]` after the first `n` points. */
  function MinUpTo(points: seq<real>, n: nat, j: nat): Bound
    requires j < 3 && 3 * n <= |points|
  {
    if n == 0 then None
    else
      var m, v := MinUpTo(points, n - 1, j), Coord(points, n - 1, j);
      if Below(v, m) then Some(v) else m
  }

  /** `max[j]` after the first `n` points. */
  function MaxUpTo(points: seq<real>, n: nat, j: nat): Bound
    requires j < 3 && 3 * n <= |points|
  {
    if n == 0 then None
    else
      var m, v := MaxUpTo(points, n - 1, j), Coord(points, n - 1, j);
      if Above(v, m) then Some(v) else m
  }

  /** `sum[j]` after the first `n` points. */
  function SumUpTo(points: seq<real>, n: nat, j: nat): real
    requires j < 3 && 3 * n <= |points|
  {
    if n == 0 then 0.0 else SumUpTo(points, n - 1, j) + Coord(points, n - 1, j)
  }

  datatype Stats = Stats(min: Vec3, max: Vec3, centroid: Vec3, spread: real)

  /** The bounds' values once at least one point has been seen. */
  function Value(m: Bound): real
  {
    m.GetOr(0.0)
  }

  /** `trajectoryStats(points, count)`. */
  function TrajectoryStats(points: seq<real>, count: nat, sqrt: real -> real): Stats
    requires 3 * count <= |points|
  {
    if count == 0 then Stats(Zero3, Zero3, Zero3, 0.0)
    else
      var lo := [Value(MinUpTo(points, count, 0)), Value(MinUpTo(points, count, 1)), Value(MinUpTo(points, count, 2))];
      var hi := [Value(MaxUpTo(points, count, 0)), Value(MaxUpTo(points, count, 1)), Value(MaxUpTo(points, count, 2))];
      Stats(lo, hi, Centroid(points, count), sqrt(Sq(hi[0] - lo[0]) + Sq(hi[1] - lo[1]) + Sq(hi[2] - lo[2])))
  }

  /** `[sum[0] / count, sum[1] / count, sum[2] / count]`. */
  function Centroid(points: seq<real>, count: nat): Vec3
    requires 3 * count <= |points| && count > 0
  {
    var c := count as real;
    [SumUpTo(points, count, 0) / c, SumUpTo(points, count, 1) / c, SumUpTo(points, count, 2) / c]
  }

  /** After at least one point the running minimum is set, below or at every point seen, and one of them. */
  lemma MinUpToProperties(points: seq<real>, n: nat, j: nat) returns (w: nat)
    requires j < 3 && 3 * n <= |points| && n > 0
    ensures MinUpTo(points, n, j).Some?
    ensures forall i :: 0 <= i < n ==> MinUpTo(points, n, j).value <= Coord(points, i, j)
    ensures w < n && MinUpTo(points, n, j).value == Coord(points, w, j)
  {
    if n == 1 {
      w := 0;
    } else {
      var prev := MinUpToProperties(points, n - 1, j);
      if Below(Coord(points, n - 1, j), MinUpTo(points, n - 1, j)) {
        w := n - 1;
      } else {
        w := prev;
      }
    }
  }

  /** After at least one point the running maximum is set, at or above every point seen, and one of them. */
  lemma MaxUpToProperties(points: seq<real>, n: nat, j: nat) returns (w: nat)
    requires j < 3 && 3 * n <= |points| && n > 0
    ensures MaxUpTo(points, n, j).Some?
    ensures forall i :: 0 <= i < n ==> Coord(points, i, j) <= MaxUpTo(points, n, j).value
    ensures w < n && MaxUpTo(points, n, j).value == Coord(points, w, j)
  {
    if n == 1 {
      w := 0;
    } else {
      var prev := MaxUpToProperties(points, n - 1, j);
      if Above(Coord(points, n - 1, j), MaxUpTo(points, n - 1, j)) {
        w := n - 1;
      } else {
        w := prev;
      }
    }
  }

  /** With no points every field is zero. */
  lemma StatsOfNothing(points: seq<real>, sqrt: real -> real)
    ensures TrajectoryStats(points, 0, sqrt) == Stats([0.0, 0.0, 0.0], [0.0, 0.0, 0.0], [0.0, 0.0, 0.0], 0.0)
  {
  }

  /**
   * Coordinate `j` of every one of the first `count` points lies between `min[j]` and
   * `max[j]`, and both bounds are attained by some point.
   */
  lemma StatsBounds(points: seq<real>, count: nat, sqrt: real -> real, j: nat) returns (lowest: nat, highest: nat)
    requires 3 * count <= |points| && count > 0 && j < 3
    ensures var s := TrajectoryStats(points, count, sqrt);
      (forall i :: 0 <= i < count ==> s.min[j] <= Coord(points, i, j) <= s.max[j])
      && lowest < count && s.min[j] == Coord(points, lowest, j)
      && highest < count && s.max[j] == Coord(points, highest, j)
  {
    lowest := MinUpToProperties(points, count, j);
    highest := MaxUpToProperties(points, count, j);
  }

  /** The centroid times the count is the coordinate sum. */
  lemma StatsCentroid(points: seq<real>, count: nat, j: nat)
    requires 3 * count <= |points| && count > 0 && j < 3
    ensures Centroid(points, count)[j] * (count as real) == SumUpTo(points, count, j)
  {
    CentroidAt(points, count, j);
    DivideBack(SumUpTo(points, count, j), count as real, Centroid(points, count)[j]);
  }

  lemma CentroidAt(points: seq<real>, count: nat, j: nat)
    requires 3 * count <= |points| && count > 0 && j < 3
    ensures Centroid(points, count)[j] == SumUpTo(points, count, j) / (count as real)
  {
  }

  /** The spread is the length of `max - min`: never negative, and zero exactly when all the points coincide. */
  lemma StatsSpread(points: seq<real>, count: nat, sqrt: real -> real)
    requires IsSqrt(sqrt) && 3 * count <= |points| && count > 0
    ensures var s := TrajectoryStats(points, count, sqrt);
      s.spread == Len3(Sub3(s.max, s.min), sqrt) && s.spread >= 0.0 && (s.spread == 0.0 <==> s.min == s.max)
  {
    var s := TrajectoryStats(points, count, sqrt);
    assert s.spread == sqrt(Sq(s.max[0] - s.min[0]) + Sq(s.max[1] - s.min[1]) + Sq(s.max[2] - s.min[2]));
    SpreadIsLength(s.min, s.max, sqrt);
  }

  lemma DivideBack(x: real, c: real, q: real)
    requires c != 0.0 && q == x / c
    ensures q * c == x
  {
  }

  /** The diagonal of a box is its length, zero only for a single point. */
  lemma SpreadIsLength(lo: Vec3, hi: Vec3, sqrt: real -> real)
    requires IsSqrt(sqrt)
    ensures var spread := sqrt(Sq(hi[0] - lo[0]) + Sq(hi[1] - lo[1]) + Sq(hi[2] - lo[2]));
      spread == Len3(Sub3(hi, lo), sqrt) && spread >= 0.0 && (spread == 0.0 <==> lo == hi)
  {
    var d := Sub3(hi, lo);
    var x := Sq(d[0]) + Sq(d[1]) + Sq(d[2]);
    assert Dot3(d, d) == x;
    var spread := sqrt(x);
    assert Sq(spread) == x;
    SqZero(spread);
    SqZero(d[0]);
    SqZero(d[1]);
    SqZero(d[2]);
    if spread == 0.0 {
      assert lo[0] == hi[0] && lo[1] == hi[1] && lo[2] == hi[2];
    }
  }

  /** The inner loop of `trajectoryStats` for point `i`: each coordinate updates its bound and sum. */
  method StatsStep(points: seq<real>, i: nat, lo: seq<Bound>, hi: seq<Bound>, sum: seq<real>)
    returns (lo': seq<Bound>, hi': seq<Bound>, sum': seq<real>)
    requires 3 * i + 3 <= |points| && |lo| == 3 && |hi| == 3 && |sum| == 3
    requires forall j :: 0 <= j < 3 ==> lo[j] == MinUpTo(points, i, j) && hi[j] == MaxUpTo(points, i, j)
    requires forall j :: 0 <= j < 3 ==> sum[j] == SumUpTo(points, i, j)
    ensures |lo'| == 3 && |hi'| == 3 && |sum'| == 3
    ensures forall j :: 0 <= j < 3 ==> lo'[j] == MinUpTo(points, i + 1, j) && hi'[j] == MaxUpTo(points, i + 1, j)
    ensures forall j :: 0 <= j < 3 ==> sum'[j] == SumUpTo(points, i + 1, j)
  {
    lo', hi', sum' := lo, hi, sum;
    var idx := i * 3;
    var j := 0;
    while j < 3
      invariant j <= 3 && |lo'| == 3 && |hi'| == 3 && |sum'| == 3
      invariant forall k :: 0 <= k < j ==>
        lo'[k] == MinUpTo(points, i + 1, k) && hi'[k] == MaxUpTo(points, i + 1, k) && sum'[k] == SumUpTo(points, i + 1, k)
      invariant forall k :: j <= k < 3 ==> lo'[k] == lo[k] && hi'[k] == hi[k] && sum'[k] == sum[k]
    {
      var v := points[idx + j];
      if Below(v, lo'[j]) {
        lo' := lo'[j := Some(v)];
      }
      if Above(v, hi'[j]) {
        hi' := hi'[j := Some(v)];
      }
      sum' := sum'[j := sum'[j] + v];
      j := j + 1;
    }
  }

  /** `trajectoryStats`, with its loops over points and coordinates. */
  method ComputeTrajectoryStats(points: seq<real>, count: nat, sqrt: real -> real) returns (s: Stats)
    requires 3 * count <= |points|
    ensures s == TrajectoryStats(points, count, sqrt)
  {
    if count == 0 {
      return Stats([0.0, 0.0, 0.0], [0.0, 0.0, 0.0], [0.0, 0.0, 0.0], 0.0);
    }
    var lo: seq<Bound> := [None, None, None];
    var hi: seq<Bound> := [None, None, None];
    var sum := [0.0, 0.0, 0.0];
    var i := 0;
    while i < count
      invariant i <= count && |lo| == 3 && |hi| == 3 && |sum| == 3
      invariant forall j :: 0 <= j < 3 ==> lo[j] == MinUpTo(points, i, j) && hi[j] == MaxUpTo(points, i, j)
      invariant forall j :: 0 <= j < 3 ==> sum[j] == SumUpTo(points, i, j)
    {
      lo, hi, sum := StatsStep(points, i, lo, hi, sum);
      i := i + 1;
    }
    var min := [Value(lo[0]), Value(lo[1]), Value(lo[2])];
    var max := [Value(hi[0]), Value(hi[1]), Value(hi[2])];
    var c := count as real;
    var centroid := [sum[0] / c, sum[1] / c, sum[2] / c];
    var spread := sqrt((max[0] - min[0]) * (max[0] - min[0]) + (max[1] - min[1]) * (max[1] - min[1])
                       + (max[2] - min[2]) * (max[2] - min[2]));
    assert spread == sqrt(Sq(max[0] - min[0]) + Sq(max[1] - min[1]) + Sq(max[2] - min[2]));
    s := Stats(min, max, centroid, spread);
  }

  // ==================== buildParams ====================

  /** One entry of a system's `params` list. */
  datatype ParamDecl = ParamDecl(key: string, default: real)

  /**
   * The value `p[param.key]` receives: the override when the caller gave overrides and one
   * defined for this key (`overrides[key] !== undefined`), else the declared default.
   */
  function Chosen(param: ParamDecl, overrides: Option<map<string, real>>): real
  {
    if overrides.Some? && param.key in overrides.value then overrides.value[param.key] else param.default
  }

  /** The object after the first `n` declared parameters; a later declaration of a key overwrites an earlier one. */
  function BuiltParams(params: seq<ParamDecl>, overrides: Option<map<string, real>>, n: nat): map<string, real>
    requires n <= |params|
  {
    if n == 0 then map[]
    else BuiltParams(params, overrides, n - 1)[params[n - 1].key := Chosen(params[n - 1], overrides)]
  }

  /** The keys are exactly the declared keys, so undeclared override keys are ignored. */
  lemma {:induction false} BuiltParamsKeys(params: seq<ParamDecl>, overrides: Option<map<string, real>>, n: nat)
    requires n <= |params|
    ensures BuiltParams(params, overrides, n).Keys == set i | 0 <= i < n :: params[i].key
  {
    if n > 0 {
      BuiltParamsKeys(params, overrides, n - 1);
      assert (set i | 0 <= i < n :: params[i].key) == (set i | 0 <= i < n - 1 :: params[i].key) + {params[n - 1].key};
    }
  }

  /** No parameter after the `i`th declares the same key. */
  predicate DeclaredLast(params: seq<ParamDecl>, n: nat, i: nat)
    requires i < n <= |params|
  {
    forall k :: i < k < n ==> params[k].key != params[i].key
  }

  /** A key declared last at `i` gets its override if one is defined, else its default. */
  lemma {:induction false} BuiltParamsAt(params: seq<ParamDecl>, overrides: Option<map<string, real>>, n: nat, i: nat)
    requires i < n <= |params| && DeclaredLast(params, n, i)
    ensures params[i].key in BuiltParams(params, overrides, n)
    ensures BuiltParams(params, overrides, n)[params[i].key] == Chosen(params[i], overrides)
  {
    if i < n - 1 {
      assert params[n - 1].key != params[i].key;
      BuiltParamsAt(params, overrides, n - 1, i);
    }
  }

  /** `buildParams`: one assignment per declared parameter, in order. */
  method BuildParams(params: seq<ParamDecl>, overrides: Option<map<string, real>>) returns (p: map<string, real>)
    ensures p == BuiltParams(params, overrides, |params|)
  {
    p := map[];
    var i := 0;
    while i < |params|
      invariant i <= |params| && p == BuiltParams(params, overrides, i)
    {
      var param := params[i];
      p := p[param.key := if overrides.Some? && param.key in overrides.value then overrides.value[param.key] else param.default];
      i := i + 1;
    }
  }

  // ==================== isStateValid ====================

  /** The divergence bound on each coordinate. */
  const Limit: real := 100000000.0

  /** A state is valid when its first three components exist and have magnitude at most 1e8. */
  predicate StateValid(state: seq<real>)
  {
    |state| >= 3 && forall i :: 0 <= i < 3 ==> Abs(state[i]) <= Limit
  }

  /** `isStateValid`: the loop over the first three components with its early return. */
  method IsStateValid(state: seq<real>) returns (valid: bool)
    ensures valid <==> StateValid(state)
  {
    var i := 0;
    while i < 3
      invariant i <= 3 && i <= |state|
      invariant forall k :: 0 <= k < i ==> k < |state| && Abs(state[k]) <= Limit
    {
      if i >= |state| || Abs(state[i]) > Limit {
        return false;
      }
      i := i + 1;
    }
    return true;
  }

  // ==================== unknown-system guards ====================

  /** What the analyses read from a registered system. */
  datatype System = System(params: seq<ParamDecl>, defaultState: seq<real>)

  /** `getSystem(key)`: the registered system, if any. */
  function GetSystem(systems: map<string, System>, key: string): Option<System>
  {
    if key in systems then Some(systems[key]) else None
  }

  /**
   * `lyapunovExponent(systemKey, params, ...)`: 0 for an unknown system, else the estimate
   * computed from the system and its merged parameters (the integration is a parameter).
   */
  function LyapunovExponent(systems: map<string, System>, key: string, overrides: Option<map<string, real>>,
                            estimate: (System, map<string, real>) -> real): real
  {
    match GetSystem(systems, key)
    case None => 0.0
    case Some(sys) => estimate(sys, BuiltParams(sys.params, overrides, |sys.params|))
  }

  datatype BifurcationData = BifurcationData(paramValues: seq<real>, capturedValues: seq<seq<real>>)

  /** `bifurcationData`: empty lists for an unknown system, else the sweep (a parameter). */
  function Bifurcation(systems: map<string, System>, key: string, sweep: System -> BifurcationData): BifurcationData
  {
    match GetSystem(systems, key)
    case None => BifurcationData([], [])
    case Some(sys) => sweep(sys)
  }

  datatype Divergence = Divergence(times: seq<real>, divergences: seq<real>)

  /** `sensitivityDivergence`: empty lists for an unknown system, else the measurement (a parameter). */
  function SensitivityDivergence(systems: map<string, System>, key: string, overrides: Option<map<string, real>>,
                                 measure: (System, map<string, real>) -> Divergence): Divergence
  {
    match GetSystem(systems, key)
    case None => Divergence([], [])
    case Some(sys) => measure(sys, BuiltParams(sys.params, overrides, |sys.params|))
  }

  /**
   * For a key no system is registered under, the exponent is 0 and both data sets are
   * empty, whatever the numerical analyses would compute; for a registered system they
   * run on its parameters merged with the overrides.
   */
  lemma UnknownSystemGuards(systems: map<string, System>, key: string, overrides: Option<map<string, real>>,
                            estimate: (System, map<string, real>) -> real, sweep: System -> BifurcationData,
                            measure: (System, map<string, real>) -> Divergence)
    ensures key !in systems ==>
      LyapunovExponent(systems, key, overrides, estimate) == 0.0
      && Bifurcation(systems, key, sweep) == BifurcationData([], [])
      && SensitivityDivergence(systems, key, overrides, measure) == Divergence([], [])
    ensures key in systems ==>
      var sys := systems[key];
      LyapunovExponent(systems, key, overrides, estimate) == estimate(sys, BuiltParams(sys.params, overrides, |sys.params|))
      && Bifurcation(systems, key, sweep) == sweep(sys)
      && SensitivityDivergence(systems, key, overrides, measure) == measure(sys, BuiltParams(sys.params, overrides, |sys.params|))
  {
  }
}

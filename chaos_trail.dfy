/**
 * The chaos lab's trail: a linear buffer of 3-D points with a raw colour per point and a
 * faded colour per point.  When a batch of new points would overflow the buffer, the newest
 * half is moved to the front first; the new points are then appended, and the colours are
 * faded by age.  Typed-array semantics are kept: a write past the end of a buffer is ignored.
 */
module ChaosTrail {
  import opened Wrappers
  import opened RealMath

  datatype Color = Color(r: real, g: real, b: real)

  /** One call's arguments: flat `[x, y, z, ...]` points, optional speeds, and the colour mode. */
  datatype Batch = Batch(points: seq<real>, velocities: Option<seq<real>>, mode: string)

  /** `Math.floor(maxPoints / 2)`: how many points an overflow keeps. */
  function Keep(maxPoints: nat): nat
  {
    maxPoints / 2
  }

  /** An index argument of `copyWithin` made absolute: counted from the end when negative, clamped to the length. */
  function Clamp(i: int, len: nat): (r: nat)
    ensures r <= len
  {
    if i < 0 then (if len + i < 0 then 0 else len + i) else if i > len then len else i
  }

  /** `a.copyWithin(0, start, end)`. */
  function CopyToFront(a: seq<real>, start: int, end: int): (r: seq<real>)
    ensures |r| == |a|
  {
    var from, fin := Clamp(start, |a|), Clamp(end, |a|);
    seq(|a|, i requires 0 <= i < |a| => if i < fin - from then a[from + i] else a[i])
  }

  /** The buffer after the overflow shift: `copyWithin(0, (count - keep) * 3, count * 3)` when the batch does not fit. */
  function AfterShift(a: seq<real>, count: nat, numNew: nat, maxPoints: nat): (r: seq<real>)
    ensures |r| == |a|
  {
    if count + numNew > maxPoints then CopyToFront(a, (count - Keep(maxPoints)) * 3, count * 3) else a
  }

  /** The count after the overflow check, where the batch is appended. */
  function BaseCount(count: nat, numNew: nat, maxPoints: nat): nat
  {
    if count + numNew > maxPoints then Keep(maxPoints) else count
  }

  /** Writing `values` from slot `base` on, a write past the end being ignored. */
  function WriteAt(buf: seq<real>, base: nat, values: seq<real>): (r: seq<real>)
    ensures |r| == |buf|
  {
    seq(|buf|, j requires 0 <= j < |buf| => if base <= j < base + |values| then values[j - base] else buf[j])
  }

  /** `newVelocities ? (newVelocities[i] || 0) : 0`. */
  function Speed(velocities: Option<seq<real>>, i: nat): real
  {
    if velocities.Some? && i < |velocities.value| then velocities.value[i] else 0.0
  }

  /**
   * `((count + i) % maxPoints) / maxPoints`.  With no slots at all (`maxPoints == 0`) the
   * value is never stored, so the model takes 0 there.
   */
  function TimeFraction(slot: nat, maxPoints: nat): real
  {
    if maxPoints == 0 then 0.0 else ((slot % maxPoints) as real) / (maxPoints as real)
  }

  /** `Math.min(Math.max((z + 30) / 60, 0), 1)`. */
  function HeightFraction(z: real): real
  {
    Min(Max((z + 30.0) / 60.0, 0.0), 1.0)
  }

  /** The raw colour of new point `i`, appended at slot `count + i`. */
  function PointColor(batch: Batch, base: Color, maxPoints: nat, count: nat, i: nat): Color
    requires 3 * i + 2 < |batch.points|
  {
    if batch.mode == "velocity" then
      var t := Min(Speed(batch.velocities, i) / 150.0, 1.0);
      Color(t * t, 0.1 + 0.6 * t, 0.6 + 0.4 * (1.0 - t))
    else if batch.mode == "time" then
      var t := TimeFraction(count + i, maxPoints);
      Color(0.3 + 0.5 * t, 0.8 * (1.0 - t), 0.8 + 0.2 * t)
    else if batch.mode == "dimension" then
      var t := HeightFraction(batch.points[3 * i + 2]);
      Color(0.2 + 0.8 * t, 0.8 * (1.0 - Abs(t - 0.5) * 2.0), 0.8 * (1.0 - t))
    else
      base
  }

  /** The raw colours of the first `n` new points, flat `[r, g, b, ...]`. */
  function ColorValues(batch: Batch, base: Color, maxPoints: nat, count: nat, n: nat): (r: seq<real>)
    requires 3 * n <= |batch.points|
    ensures |r| == 3 * n
  {
    if n == 0 then []
    else
      var c := PointColor(batch, base, maxPoints, count, n - 1);
      ColorValues(batch, base, maxPoints, count, n - 1) + [c.r, c.g, c.b]
  }

  /** `0.05 + 0.95 * (i / n)^2`: 5% for the oldest point, rising towards 100% for the newest. */
  function Brightness(i: nat, n: nat): real
    requires n > 0
  {
    0.05 + 0.95 * Sq((i as real) / (n as real))
  }

  /** The faded colours of the first `n` points, the rest as they were. */
  function Faded(colors: seq<real>, raw: seq<real>, n: nat): (r: seq<real>)
    requires |raw| == |colors|
    ensures |r| == |colors|
  {
    if n == 0 then colors
    else seq(|colors|, j requires 0 <= j < |colors| => if j < 3 * n then raw[j] * Brightness(j / 3, n) else colors[j])
  }

  /** A list agreeing with the faded colours at every slot is the faded list. */
  lemma FadedFrom(c: seq<real>, before: seq<real>, raw: seq<real>, n: nat)
    requires |c| == |before| == |raw| && n > 0
    requires forall j :: 0 <= j < |c| ==> c[j] == if j < 3 * n then raw[j] * Brightness(j / 3, n) else before[j]
    ensures c == Faded(before, raw, n)
  {
    var f := Faded(before, raw, n);
    forall j | 0 <= j < |c|
      ensures c[j] == f[j]
    {
    }
  }

  // ==================== properties ====================

  /** Written slots hold the values in order; every other slot keeps its value. */
  lemma WriteAtProperties(buf: seq<real>, base: nat, values: seq<real>)
    ensures forall k :: 0 <= k < |values| && base + k < |buf| ==> WriteAt(buf, base, values)[base + k] == values[k]
    ensures forall j :: 0 <= j < |buf| && (j < base || base + |values| <= j) ==> WriteAt(buf, base, values)[j] == buf[j]
  {
  }

  /** Two writes one after the other are one write of the concatenation. */
  lemma WriteAtAppend(buf: seq<real>, base: nat, vs: seq<real>, ws: seq<real>)
    ensures WriteAt(WriteAt(buf, base, vs), base + |vs|, ws) == WriteAt(buf, base, vs + ws)
  {
  }

  /**
   * With the buffer sized for `maxPoints` points and between `keep` and `maxPoints` points
   * held, the shift moves the newest `keep` points, in order, to the front.
   */
  lemma ShiftKeepsNewest(a: seq<real>, count: nat, numNew: nat, maxPoints: nat)
    requires |a| == 3 * maxPoints && Keep(maxPoints) <= count <= maxPoints && count + numNew > maxPoints
    ensures forall j :: 0 <= j < 3 * Keep(maxPoints) ==>
      AfterShift(a, count, numNew, maxPoints)[j] == a[3 * (count - Keep(maxPoints)) + j]
    ensures forall j :: 3 * Keep(maxPoints) <= j < |a| ==> AfterShift(a, count, numNew, maxPoints)[j] == a[j]
    ensures BaseCount(count, numNew, maxPoints) == Keep(maxPoints)
  {
    var keep := Keep(maxPoints);
    assert Clamp((count - keep) * 3, |a|) == 3 * (count - keep);
    assert Clamp(count * 3, |a|) == 3 * count;
  }

  /**
   * With fewer than `keep` points held, the shift's source range is empty, so nothing moves,
   * yet the count still becomes `keep`: the slots between the old count and `keep` are
   * counted as trail points with whatever they held.
   */
  lemma ShiftWhenShort(a: seq<real>, count: nat, numNew: nat, maxPoints: nat)
    requires |a| == 3 * maxPoints && count < Keep(maxPoints) && count + numNew > maxPoints
    ensures AfterShift(a, count, numNew, maxPoints) == a
    ensures BaseCount(count, numNew, maxPoints) == Keep(maxPoints) > count
  {
    var keep := Keep(maxPoints);
    var from := Clamp((count - keep) * 3, |a|);
    assert from == 3 * maxPoints + 3 * (count - keep);
    assert Clamp(count * 3, |a|) - from <= 0;
  }

  /** The count stays within the buffer as long as every batch fits beside the kept half. */
  lemma CountStaysBounded(count: nat, numNew: nat, maxPoints: nat)
    requires count <= maxPoints && numNew <= maxPoints - Keep(maxPoints)
    ensures BaseCount(count, numNew, maxPoints) + numNew <= maxPoints
    ensures BaseCount(count, numNew, maxPoints) <= count
  {
  }

  /** Colour component `c` of new point `i` sits at flat index `3i + c`. */
  lemma {:induction false} ColorValuesAt(batch: Batch, base: Color, maxPoints: nat, count: nat, n: nat, i: nat)
    requires 3 * n <= |batch.points| && i < n
    ensures var vs, c := ColorValues(batch, base, maxPoints, count, n), PointColor(batch, base, maxPoints, count, i);
      vs[3 * i] == c.r && vs[3 * i + 1] == c.g && vs[3 * i + 2] == c.b
  {
    if i < n - 1 {
      ColorValuesAt(batch, base, maxPoints, count, n - 1, i);
    }
  }

  /**
   * An unknown mode gives the base colour.  The time mode's fraction lies in [0, 1), so its
   * colour stays within [0.3, 0.8) x (0, 0.8] x [0.8, 1); the height fraction lies in [0, 1], and
   * the velocity fraction is at most 1 and, for a non-negative speed, at least 0.
   */
  lemma PointColorProperties(batch: Batch, base: Color, maxPoints: nat, count: nat, i: nat)
    requires 3 * i + 2 < |batch.points|
    ensures var c := PointColor(batch, base, maxPoints, count, i);
      (batch.mode != "velocity" && batch.mode != "time" && batch.mode != "dimension" ==> c == base)
      && (batch.mode == "time" && maxPoints > 0 ==>
            (0.3 <= c.r < 0.8 && 0.0 < c.g <= 0.8 && 0.8 <= c.b < 1.0))
      && (batch.mode == "dimension" ==>
            (0.2 <= c.r <= 1.0 && 0.0 <= c.g <= 0.8 && 0.0 <= c.b <= 0.8))
      && (batch.mode == "velocity" && Speed(batch.velocities, i) >= 0.0 ==>
            (0.0 <= c.r <= 1.0 && 0.1 <= c.g <= 0.7 && 0.6 <= c.b <= 1.0))
  {
    if batch.mode == "time" && maxPoints > 0 {
      TimeFractionRange(count + i, maxPoints);
    }
    if batch.mode == "velocity" && Speed(batch.velocities, i) >= 0.0 {
      UnitSquare(Min(Speed(batch.velocities, i) / 150.0, 1.0));
    }
  }

  lemma TimeFractionRange(slot: nat, maxPoints: nat)
    requires maxPoints > 0
    ensures 0.0 <= TimeFraction(slot, maxPoints) < 1.0
  {
    var m := slot % maxPoints;
    assert (m as real) < (maxPoints as real);
    assert (m as real) / (maxPoints as real) < 1.0;
  }

  /** For the `n` points faded, the brightness lies in [0.05, 1) and never decreases with the index. */
  lemma BrightnessProperties(i: nat, j: nat, n: nat)
    requires i <= j < n
    ensures 0.05 <= Brightness(i, n) <= Brightness(j, n) < 1.0
  {
    var a, b := (i as real) / (n as real), (j as real) / (n as real);
    FractionBelowOne(i, j, n);
    if a < b {
      SquareMonotone(a, b);
    }
    SquareMonotone(b, 1.0);
  }

  lemma FractionBelowOne(i: nat, j: nat, n: nat)
    requires i <= j < n
    ensures 0.0 <= (i as real) / (n as real) <= (j as real) / (n as real) < 1.0
  {
    var m := n as real;
    DivMonotone(i as real, j as real, m);
    DivMonotone(0.0, i as real, m);
    DivStrict(j as real, m, m);
  }

  lemma DivMonotone(x: real, y: real, m: real)
    requires m > 0.0 && x <= y
    ensures x / m <= y / m
  {
    var p, q := x / m, y / m;
    assert p * m == x && q * m == y;
    assert (q - p) * m == y - x;
    FactorSign(q - p, m);
  }

  lemma DivStrict(x: real, y: real, m: real)
    requires m > 0.0 && x < y
    ensures x / m < y / m
  {
    var p, q := x / m, y / m;
    assert p * m == x && q * m == y;
    assert (q - p) * m == y - x;
    FactorSign(q - p, m);
  }

  /** A product with a positive factor has the sign of the other factor. */
  lemma FactorSign(d: real, m: real)
    requires m > 0.0
    ensures d * m >= 0.0 ==> d >= 0.0
    ensures d * m > 0.0 ==> d > 0.0
  {
  }

  lemma UnitSquare(t: real)
    requires 0.0 <= t <= 1.0
    ensures 0.0 <= t * t <= 1.0
  {
    assert t * t <= t * 1.0;
  }

  /** Fading scales component `c` of point `i < n` by that point's brightness and leaves the rest. */
  lemma FadedAt(colors: seq<real>, raw: seq<real>, n: nat, i: nat, c: nat)
    requires |raw| == |colors| && c < 3 && 3 * i + c < |colors|
    ensures i < n ==> Faded(colors, raw, n)[3 * i + c] == raw[3 * i + c] * Brightness(i, n)
    ensures n <= i ==> Faded(colors, raw, n)[3 * i + c] == colors[3 * i + c]
  {
    assert (3 * i + c) / 3 == i;
  }

  // ==================== the buffer ====================

  /** The trail `createTrail` returns, with the draw range's end as `drawCount`. */
  class Trail {
    const positions: array<real>
    const colors: array<real>
    const rawColors: array<real>
    const maxPoints: nat
    const baseColor: Color
    var count: nat
    var drawCount: nat

    /** Three distinct buffers of three numbers per point. */
    ghost predicate Valid()
      reads this
    {
      positions.Length == 3 * maxPoints && colors.Length == 3 * maxPoints && rawColors.Length == 3 * maxPoints
      && positions != colors && positions != rawColors && colors != rawColors
    }

    /** `createTrail`: zeroed buffers, no points, an empty draw range. */
    constructor(maxPoints: nat, baseColor: Color)
      ensures Valid() && this.maxPoints == maxPoints && this.baseColor == baseColor
      ensures count == 0 && drawCount == 0
      ensures fresh(positions) && fresh(colors) && fresh(rawColors)
      ensures forall j :: 0 <= j < 3 * maxPoints ==> positions[j] == 0.0 && colors[j] == 0.0 && rawColors[j] == 0.0
    {
      this.maxPoints := maxPoints;
      this.baseColor := baseColor;
      positions := new real[maxPoints * 3](_ => 0.0);
      colors := new real[maxPoints * 3](_ => 0.0);
      rawColors := new real[maxPoints * 3](_ => 0.0);
      count := 0;
      drawCount := 0;
    }

    /** `arr[j] = v` on a typed array: ignored past the end. */
    static method SetIfInBounds(a: array<real>, j: nat, v: real)
      modifies a
      ensures a[..] == WriteAt(old(a[..]), j, [v])
    {
      if j < a.Length {
        a[j] := v;
      }
    }

    /** `a.copyWithin(0, start, end)`, copying forwards. */
    static method CopyWithinFront(a: array<real>, start: int, end: int)
      modifies a
      ensures a[..] == CopyToFront(old(a[..]), start, end)
    {
      var from, fin := Clamp(start, a.Length), Clamp(end, a.Length);
      ghost var before := a[..];
      var k := 0;
      while k < fin - from
        invariant 0 <= k && (k <= fin - from || k == 0) && |before| == a.Length
        invariant forall i :: 0 <= i < k ==> a[i] == before[from + i]
        invariant forall i :: k <= i < a.Length ==> a[i] == before[i]
      {
        a[k] := a[from + k];
        k := k + 1;
      }
      assert a[..] == CopyToFront(before, start, end);
    }

    /** Writes three numbers from slot `j` on. */
    static method SetThree(a: array<real>, j: nat, x: real, y: real, z: real)
      modifies a
      ensures a[..] == WriteAt(old(a[..]), j, [x, y, z])
    {
      ghost var before := a[..];
      SetIfInBounds(a, j, x);
      SetIfInBounds(a, j + 1, y);
      WriteAtAppend(before, j, [x], [y]);
      assert [x] + [y] == [x, y];
      SetIfInBounds(a, j + 2, z);
      WriteAtAppend(before, j, [x, y], [z]);
      assert [x, y] + [z] == [x, y, z];
    }

    /** One pass of the append loop: point `i`'s position and raw colour. */
    method AppendPoint(batch: Batch, base: nat, i: nat, ghost pos0: seq<real>, ghost raw0: seq<real>)
      requires Valid() && 3 * i + 3 <= |batch.points|
      requires positions[..] == WriteAt(pos0, 3 * base, batch.points[..3 * i])
      requires rawColors[..] == WriteAt(raw0, 3 * base, ColorValues(batch, baseColor, maxPoints, base, i))
      modifies positions, rawColors
      ensures positions[..] == WriteAt(pos0, 3 * base, batch.points[..3 * i + 3])
      ensures rawColors[..] == WriteAt(raw0, 3 * base, ColorValues(batch, baseColor, maxPoints, base, i + 1))
    {
      var idx, si := (base + i) * 3, i * 3;
      assert idx == 3 * base + |batch.points[..3 * i]|;
      SetThree(positions, idx, batch.points[si], batch.points[si + 1], batch.points[si + 2]);
      assert batch.points[..3 * i] + [batch.points[si], batch.points[si + 1], batch.points[si + 2]]
        == batch.points[..3 * i + 3];
      WriteAtAppend(pos0, 3 * base, batch.points[..3 * i], [batch.points[si], batch.points[si + 1], batch.points[si + 2]]);
      var c := PointColor(batch, baseColor, maxPoints, base, i);
      SetThree(rawColors, idx, c.r, c.g, c.b);
      WriteAtAppend(raw0, 3 * base, ColorValues(batch, baseColor, maxPoints, base, i), [c.r, c.g, c.b]);
    }

    /** `updateTrail`. */
    method Update(batch: Batch)
      requires Valid() && |batch.points| % 3 == 0
      modifies this, positions, rawColors, colors
      ensures Valid()
      ensures batch.points == [] ==>
        count == old(count) && drawCount == old(drawCount) && positions[..] == old(positions[..])
        && rawColors[..] == old(rawColors[..]) && colors[..] == old(colors[..])
      ensures batch.points != [] ==>
        var numNew := |batch.points| / 3;
        var base := BaseCount(old(count), numNew, maxPoints);
        count == base + numNew && drawCount == count
        && positions[..] == WriteAt(AfterShift(old(positions[..]), old(count), numNew, maxPoints), 3 * base, batch.points)
        && rawColors[..] == WriteAt(AfterShift(old(rawColors[..]), old(count), numNew, maxPoints), 3 * base,
                                    ColorValues(batch, baseColor, maxPoints, base, numNew))
        && colors[..] == Faded(old(colors[..]), rawColors[..], count)
      ensures old(count) <= maxPoints && |batch.points| / 3 <= maxPoints - Keep(maxPoints) ==> count <= maxPoints
    {
      var numNew := |batch.points| / 3;
      if numNew == 0 {
        assert batch.points == [];
        return;
      }
      ghost var count0 := count;
      if count + numNew > maxPoints {
        var keep := Keep(maxPoints);
        var srcOffset := (count - keep) * 3;
        CopyWithinFront(positions, srcOffset, count * 3);
        CopyWithinFront(rawColors, srcOffset, count * 3);
        count := keep;
      }
      ghost var base := count;
      ghost var shiftedPos, shiftedRaw := positions[..], rawColors[..];
      assert shiftedPos == AfterShift(old(positions[..]), count0, numNew, maxPoints);
      assert shiftedRaw == AfterShift(old(rawColors[..]), count0, numNew, maxPoints);
      AppendAll(batch, count);
      ghost var raw1 := rawColors[..];
      assert raw1 == WriteAt(shiftedRaw, 3 * base, ColorValues(batch, baseColor, maxPoints, base, numNew));
      count := count + numNew;
      ApplyFading();
      assert rawColors[..] == raw1;
      drawCount := count;
      if count0 <= maxPoints && numNew <= maxPoints - Keep(maxPoints) {
        CountStaysBounded(count0, numNew, maxPoints);
      }
    }

    /** The append loop of `updateTrail`: every new point written from slot `base` on. */
    method AppendAll(batch: Batch, base: nat)
      requires Valid() && |batch.points| % 3 == 0
      modifies positions, rawColors
      ensures positions[..] == WriteAt(old(positions[..]), 3 * base, batch.points)
      ensures rawColors[..] == WriteAt(old(rawColors[..]), 3 * base,
                                       ColorValues(batch, baseColor, maxPoints, base, |batch.points| / 3))
    {
      var numNew := |batch.points| / 3;
      ghost var pos0, raw0 := positions[..], rawColors[..];
      assert batch.points[..0] == [];
      assert WriteAt(pos0, 3 * base, []) == pos0;
      assert WriteAt(raw0, 3 * base, []) == raw0;
      var i := 0;
      while i < numNew
        invariant i <= numNew && 3 * numNew == |batch.points|
        invariant positions[..] == WriteAt(pos0, 3 * base, batch.points[..3 * i])
        invariant rawColors[..] == WriteAt(raw0, 3 * base, ColorValues(batch, baseColor, maxPoints, base, i))
      {
        AppendPoint(batch, base, i, pos0, raw0);
        i := i + 1;
      }
      assert batch.points[..3 * numNew] == batch.points;
    }

    /** `applyFading`: nothing with no points, else every held point's colour scaled by its brightness. */
    method ApplyFading()
      requires Valid()
      modifies colors
      ensures colors[..] == Faded(old(colors[..]), rawColors[..], count)
    {
      var n := count;
      if n == 0 {
        return;
      }
      ghost var before := colors[..];
      var i := 0;
      while i < n
        invariant i <= n
        invariant forall j :: 0 <= j < colors.Length ==>
          colors[j] == if j < 3 * i then rawColors[j] * Brightness(j / 3, n) else before[j]
      {
        var brightness := 0.05 + 0.95 * Sq((i as real) / (n as real));
        var idx := i * 3;
        FadeStep(idx, i, n, brightness, before);
        i := i + 1;
      }
      FadedFrom(colors[..], before, rawColors[..], n);
    }

    /** Point `i`'s three faded components, each written only when within the buffer. */
    method FadeStep(idx: nat, i: nat, n: nat, brightness: real, ghost before: seq<real>)
      requires Valid() && idx == 3 * i && i < n && brightness == Brightness(i, n) && |before| == colors.Length
      requires forall j :: 0 <= j < colors.Length ==>
        colors[j] == if j < 3 * i then rawColors[j] * Brightness(j / 3, n) else before[j]
      modifies colors
      ensures forall j :: 0 <= j < colors.Length ==>
        colors[j] == if j < 3 * i + 3 then rawColors[j] * Brightness(j / 3, n) else before[j]
    {
      ghost var start := colors[..];
      if idx < colors.Length {
        colors[idx] := rawColors[idx] * brightness;
      }
      if idx + 1 < colors.Length {
        colors[idx + 1] := rawColors[idx + 1] * brightness;
      }
      if idx + 2 < colors.Length {
        colors[idx + 2] := rawColors[idx + 2] * brightness;
      }
      forall j | 0 <= j < colors.Length
        ensures colors[j] == if j < 3 * i + 3 then rawColors[j] * Brightness(j / 3, n) else before[j]
      {
        if 3 * i <= j < 3 * i + 3 {
          assert j / 3 == i;
        } else {
          assert colors[j] == start[j];
        }
      }
    }

    /** `resetTrail`: no points and an empty draw range; the buffers are left as they are. */
    method Reset()
      modifies this
      ensures count == 0 && drawCount == 0
      ensures positions[..] == old(positions[..]) && colors[..] == old(colors[..]) && rawColors[..] == old(rawColors[..])
    {
      count := 0;
      drawCount := 0;
    }
  }
}

/** Slice and Range arithmetic (3rdparty/onnx-tensorrt/builtin_op_importers.cpp). */
module Slice {
  import opened ShapeArithmetic

  // ----- decoding a start or end -----

  /** The formula used by the importer, with the operations a shape tensor has. */
  function Decode(index: int, d: int): int
  {
    Min(Max(index, -1 * d), d) - d * Max(-1, Min(0, index))
  }

  function Clamp(x: int, lo: int, hi: int): int { Min(Max(x, lo), hi) }

  /** Negative indices count from the end. */
  function FromEnd(index: int, d: int): int { if index < 0 then index + d else index }

  /** Where an ONNX slice starts.  Going backward it starts on the axis, not behind it. */
  function OnnxStart(index: int, d: int, step: int): int
  {
    Clamp(FromEnd(index, d), 0, if step > 0 then d else d - 1)
  }

  /** Where an ONNX slice ends.  Going backward it may end before position 0. */
  function OnnxEnd(index: int, d: int, step: int): int
  {
    if step > 0 then Clamp(FromEnd(index, d), 0, d) else Clamp(FromEnd(index, d), -1, d - 1)
  }

  /** The formula clamps to the axis and one position behind it, whatever the step. */
  lemma DecodeClamps(index: int, d: int)
    requires d >= 0
    ensures Decode(index, d) == Clamp(FromEnd(index, d), 0, d) && 0 <= Decode(index, d) <= d
  {
  }

  /** Case by case. */
  lemma DecodeCases(index: int, d: int)
    requires d >= 0
    ensures 0 <= index <= d ==> Decode(index, d) == index
    ensures -d <= index < 0 ==> Decode(index, d) == d + index
    ensures index > d ==> Decode(index, d) == d
    ensures index < -d ==> Decode(index, d) == 0
  {
    DecodeClamps(index, d);
  }

  /** A start is decoded as ONNX asks if and only if the step goes forward or the index is on
      the axis or counted from its end. */
  lemma DecodeIsStart(index: int, d: int, step: int)
    requires d >= 0 && step != 0
    ensures Decode(index, d) == OnnxStart(index, d, step) <==> step > 0 || (d >= 1 && index < d)
  {
    DecodeClamps(index, d);
  }

  /** An end is decoded as ONNX asks if and only if the step goes forward or the index names a
      position on the axis. */
  lemma DecodeIsEnd(index: int, d: int, step: int)
    requires d >= 0 && step != 0
    ensures Decode(index, d) == OnnxEnd(index, d, step) <==> step > 0 || -d <= index < d
  {
    DecodeClamps(index, d);
  }

  /** Clamping a 64-bit index to 32 bits first makes no difference. */
  lemma DecodeIgnoresClamp(index: int, d: int)
    requires 0 <= d <= INT32_MAX
    ensures Decode(Clamp(index, INT32_MIN, INT32_MAX), d) == Decode(index, d)
  {
    DecodeClamps(index, d);
    DecodeClamps(Clamp(index, INT32_MIN, INT32_MAX), d);
  }

  // ----- how many positions a slice has -----

  /** Position `k` of a slice lies before its end, in the direction of the step. */
  predicate Before(start: int, end: int, step: int, k: int)
    requires step != 0
  {
    if step > 0 then start + k * step < end else start + k * step > end
  }

  /** `n` is the number of positions from `start` before `end`. */
  ghost predicate IsCount(start: int, end: int, step: int, n: int)
    requires step != 0
  {
    n >= 0 && forall k :: 0 <= k ==> (Before(start, end, step, k) <==> k < n)
  }

  /** The general size formula: `0 - floor((start - end) / step) + shift`. */
  function Size(start: int, end: int, step: int, shift: int): int
    requires step != 0
  {
    0 - FloorDiv(start - end, step) + shift
  }

  lemma StepsMonotone(j: int, k: int, step: int)
    requires j <= k
    ensures step > 0 ==> j * step <= k * step
    ensures step < 0 ==> j * step >= k * step
  {
    assert (k - j) * step == k * step - j * step;
  }

  /** Position `k` is before the end exactly when `k` is below the computed size. */
  lemma SizeSeparates(start: int, end: int, step: int, k: int)
    requires step != 0
    ensures Before(start, end, step, k) <==> k < Size(start, end, step, 0)
  {
    var q := FloorDiv(start - end, step);
    FloorDivIsFloor(start - end, step);
    FloorSeparates(start - end, step, q, k);
  }

  lemma FloorSeparates(span: int, step: int, q: int, k: int)
    requires step != 0 && IsFloor(span, step, q)
    ensures step > 0 ==> (span + k * step < 0 <==> k < -q)
    ensures step < 0 ==> (span + k * step > 0 <==> k < -q)
  {
    var d := k + q;
    assert d * step == k * step + q * step;
    Away(d, step);
  }

  /** Without shift the size is the number of positions exactly when the bounds are out of
      order by less than one step. */
  lemma SizeIsCount(start: int, end: int, step: int)
    requires step != 0
    ensures IsCount(start, end, step, Size(start, end, step, 0)) <==>
      (if step > 0 then start - end < step else end - start < -step)
  {
    var n := Size(start, end, step, 0);
    forall k
      ensures Before(start, end, step, k) <==> k < n
    {
      SizeSeparates(start, end, step, k);
    }
    SizeSeparates(start, end, step, -1);
    assert Before(start, end, step, -1) <==> (if step > 0 then start - end < step else end - start < -step);
  }

  /** The shortcut for steps of 1 is the general formula. */
  lemma UnitStepShortcut(start: int, end: int)
    ensures end - start == Size(start, end, 1, 0)
  {
    FloorDivIsFloor(start - end, 1);
  }

  /** The positions taken by the layer stay on the axis. */
  ghost predicate Inside(start: int, step: int, n: int, d: int)
  {
    forall k :: 0 <= k < n ==> 0 <= start + k * step < d
  }

  /** With decoded bounds all positions are on the axis, unless a backward slice starts behind
      it and does not end there. */
  lemma PositionsInside(start: int, end: int, step: int, d: int)
    requires step != 0 && 0 <= start <= d && 0 <= end <= d
    ensures Inside(start, step, Size(start, end, step, 0), d) <==> step > 0 || start < d || end == d
  {
    var n := Size(start, end, step, 0);
    if step > 0 || start < d || end == d {
      forall k | 0 <= k < n
        ensures 0 <= start + k * step < d
      {
        SizeSeparates(start, end, step, k);
        StepsMonotone(0, k, step);
      }
    } else {
      SizeSeparates(start, end, step, 0);
      assert start + 0 * step == d;
    }
  }

  /** The same with the shift, which comes with an end decoded to 0: going forward at most the
      start is taken, going backward the steps have to hit position 0. */
  lemma ShiftedInside(a: int, step: int, d: int)
    requires step != 0 && 0 <= a <= d
    ensures Inside(a, step, Size(a, 0, step, 1), d) <==>
      if step > 0 then a < d || step <= a else a < d && a % -step == 0
  {
    var n := Size(a, 0, step, 1);
    assert a + 0 * step == a;
    if step > 0 {
      FloorDivIsFloor(a, step);
      if a < step { FloorUnique(a, step, FloorDiv(a, step), 0); } else { FloorAtLeastOne(a, step, FloorDiv(a, step)); }
    } else {
      BackwardToZero(a, step);
      QuotientNonNegative(a, -step);
      LastPosition(a, -step, n);
      if a < d && a % -step == 0 {
        forall k | 0 <= k < n
          ensures 0 <= a + k * step < d
        {
          StepsMonotone(k, n - 1, step);
          StepsMonotone(0, k, step);
        }
      } else {
        var k := if a < d then n - 1 else 0;
        assert 0 <= k < n && !(0 <= a + k * step < d);
      }
    }
  }

  lemma FloorAtLeastOne(a: int, step: int, q: int)
    requires step > 0 && a >= step && IsFloor(a, step, q)
    ensures q >= 1
  {
    if q <= 0 { Away(q, step); }
  }

  lemma LastPosition(a: int, u: int, n: int)
    requires u > 0 && a >= 0 && n == a / u + (if a % u == 0 then 1 else 2)
    ensures a + (n - 1) * -u == if a % u == 0 then 0 else a % u - u
  {
    Euclid(a, u);
    Scale(a / u, u);
    assert (n - 1) * -u == -((n - 1) * u);
  }

  /** The positions taken for an axis all lie on it. */
  predicate StaysOn(start: int, end: int, step: int, d: int, shifted: bool)
    requires step != 0
  {
    if !shifted then step > 0 || start < d || end == d
    else if step > 0 then start < d || step <= start
    else start < d && start % -step == 0
  }

  lemma InsideExactly(start: int, end: int, step: int, d: int, shifted: bool)
    requires step != 0 && 0 <= start <= d && 0 <= end <= d && (shifted ==> end == 0)
    ensures Inside(start, step, Size(start, end, step, if shifted then 1 else 0), d) <==>
      StaysOn(start, end, step, d, shifted)
  {
    if shifted { ShiftedInside(start, step, d); } else { PositionsInside(start, end, step, d); }
  }

  /** For example a full reverse slice written with a large start. */
  lemma ReverseFromBehind(d: int)
    requires 1 <= d <= INT32_MAX
    ensures var a, b := Decode(INT32_MAX, d), Decode(0, d);
      a == d && Size(a, b, -1, 0) == d && !Inside(a, -1, Size(a, b, -1, 0), d)
  {
    DecodeClamps(INT32_MAX, d);
    DecodeClamps(0, d);
    PositionsInside(d, 0, -1, d);
    FloorDivIsFloor(d, -1);
  }

  /** For example a reverse slice by two of an even length, which runs to position -1. */
  lemma ReversePastZero(d: int)
    requires 2 <= d < INT32_MAX && d % 2 == 0
    ensures var a, b := Decode(-1, d), Decode(INT32_MIN, d); a == d - 1 && !Inside(a, -2, Size(a, b, -2, 1), d)
  {
    DecodeClamps(-1, d);
    DecodeClamps(INT32_MIN, d);
    ShiftedInside(d - 1, -2, d);
  }

  // ----- what the layer takes, against ONNX -----

  lemma CountUnique(start: int, end: int, step: int, n: int, m: int)
    requires step != 0 && IsCount(start, end, step, n) && IsCount(start, end, step, m)
    ensures n == m
  {
    assert !Before(start, end, step, n) && !Before(start, end, step, m);
  }

  /** Taking `n` positions from `start` is the ONNX slice of the axis. */
  ghost predicate IsOnnxSlice(s: int, e: int, step: int, d: int, start: int, n: int)
    requires step != 0
  {
    && IsCount(OnnxStart(s, d, step), OnnxEnd(e, d, step), step, n)
    && (n > 0 ==> start == OnnxStart(s, d, step))
  }

  /** When the importer takes the ONNX slice.  The shift is set for an end of INT_MIN. */
  predicate Exact(s: int, e: int, step: int, d: int, shifted: bool)
    requires step != 0
  {
    var a, x := Decode(s, d), FromEnd(e, d);
    if step > 0 then
      if shifted then step <= a < 2 * step else a - Decode(e, d) < step
    else if d == 0 then !shifted
    else if x < 0 then s < d && (a % -step == 0 <==> shifted)
    else if x < d then s < d && x - a < -step
    else d - a < -step
  }

  lemma AxisExact(s: int, e: int, step: int, d: int, shifted: bool)
    requires step != 0 && 0 <= d < INT32_MAX && (shifted ==> e == INT32_MIN)
    ensures var a, b := Decode(s, d), Decode(e, d);
      IsOnnxSlice(s, e, step, d, a, Size(a, b, step, if shifted then 1 else 0)) <==> Exact(s, e, step, d, shifted)
  {
    DecodeClamps(s, d);
    DecodeClamps(e, d);
    if step > 0 {
      if shifted { ShiftedForward(Decode(s, d), step); } else { SizeIsCount(Decode(s, d), Decode(e, d), step); }
    } else if d == 0 {
      EmptyAxis(step, shifted);
    } else if FromEnd(e, d) < 0 {
      ThroughZero(s, e, step, d, shifted);
    } else if FromEnd(e, d) < d {
      WithinAxis(s, e, step, d);
    } else {
      NoneTaken(s, e, step, d);
    }
  }

  /** Going forward to an end of INT_MIN nothing is to be taken. */
  lemma ShiftedForward(a: int, step: int)
    requires a >= 0 && step > 0
    ensures IsCount(a, 0, step, Size(a, 0, step, 1)) <==> step <= a < 2 * step
  {
    var q := FloorDiv(a, step);
    FloorDivIsFloor(a, step);
    forall k | 0 <= k
      ensures !Before(a, 0, step, k)
    {
      StepsMonotone(0, k, step);
    }
    assert IsCount(a, 0, step, 0);
    if IsCount(a, 0, step, 1 - q) { CountUnique(a, 0, step, 0, 1 - q); }
    if step <= a < 2 * step { FloorUnique(a, step, q, 1); }
  }

  /** For example one position is taken where there is none to take. */
  lemma SentinelForward(d: int)
    requires 0 <= d < INT32_MAX
    ensures var a, b := Decode(0, d), Decode(INT32_MIN, d);
      Size(a, b, 2, 1) == 1 && !IsOnnxSlice(0, INT32_MIN, 2, d, a, Size(a, b, 2, 1))
  {
    DecodeClamps(0, d);
    DecodeClamps(INT32_MIN, d);
    AxisExact(0, INT32_MIN, 2, d, true);
    FloorDivIsFloor(0, 2);
  }

  lemma EmptyAxis(step: int, shifted: bool)
    requires step < 0
    ensures IsCount(-1, -1, step, Size(0, 0, step, if shifted then 1 else 0)) <==> !shifted
    ensures Size(0, 0, step, 0) == 0
  {
    FloorDivIsFloor(0, step);
    FloorUnique(0, step, FloorDiv(0, step), 0);
    NothingBefore(-1, -1, step);
    if shifted && IsCount(-1, -1, step, 1) { CountUnique(-1, -1, step, 0, 1); }
  }

  /** Going backward, nothing lies between a start and an end not below it. */
  lemma NothingBefore(start: int, end: int, step: int)
    requires step < 0 && start <= end
    ensures IsCount(start, end, step, 0)
  {
    forall k | 0 <= k
      ensures !Before(start, end, step, k)
    {
      StepsMonotone(0, k, step);
    }
  }

  lemma ThroughZero(s: int, e: int, step: int, d: int, shifted: bool)
    requires step < 0 && d >= 1 && FromEnd(e, d) < 0
    ensures var a := Decode(s, d);
      IsOnnxSlice(s, e, step, d, a, Size(a, 0, step, if shifted then 1 else 0)) <==>
        s < d && (a % -step == 0 <==> shifted)
  {
    var a, start := Decode(s, d), OnnxStart(s, d, step);
    var n := Size(a, 0, step, if shifted then 1 else 0);
    DecodeClamps(s, d);
    DecodeIsStart(s, d, step);
    BackwardThroughZero(start, step);
    SizeIsCount(start, -1, step);
    QuotientNonNegative(start, -step);
    BackwardToZero(a, step);
    if IsCount(start, -1, step, n) { CountUnique(start, -1, step, n, start / -step + 1); }
  }

  lemma QuotientNonNegative(a: int, b: int)
    requires a >= 0 && b > 0
    ensures a / b >= 0
  {
  }

  lemma WithinAxis(s: int, e: int, step: int, d: int)
    requires step < 0 && d >= 1 && 0 <= FromEnd(e, d) < d
    ensures var a, x := Decode(s, d), FromEnd(e, d);
      IsOnnxSlice(s, e, step, d, a, Size(a, x, step, 0)) <==> s < d && x - a < -step
  {
    var a, x := Decode(s, d), FromEnd(e, d);
    DecodeClamps(s, d);
    DecodeIsStart(s, d, step);
    SizeIsCount(a, x, step);
    SizeSeparates(a, x, step, 0);
  }

  lemma NoneTaken(s: int, e: int, step: int, d: int)
    requires step < 0 && d >= 1 && FromEnd(e, d) >= d
    ensures var a := Decode(s, d); IsOnnxSlice(s, e, step, d, a, Size(a, d, step, 0)) <==> d - a < -step
  {
    var a := Decode(s, d);
    var n := Size(a, d, step, 0);
    DecodeClamps(s, d);
    NothingBefore(OnnxStart(s, d, step), d - 1, step);
    if IsCount(OnnxStart(s, d, step), d - 1, step, n) { CountUnique(OnnxStart(s, d, step), d - 1, step, n, 0); }
    SizeSeparates(a, d, step, 0);
    SizeSeparates(a, d, step, -1);
  }

  lemma BackwardThroughZero(start: int, step: int)
    requires start >= 0 && step < 0
    ensures Size(start, -1, step, 0) == start / -step + 1
  {
    var a := -step;
    var q := start / a;
    Scale(q, a);
    assert (-q - 1) * step == (q + 1) * a;
    FloorDivIsFloor(start + 1, step);
    FloorUnique(start + 1, step, FloorDiv(start + 1, step), -q - 1);
  }

  lemma BackwardToZero(start: int, step: int)
    requires start >= 0 && step < 0
    ensures Size(start, 0, step, 0) == start / -step + (if start % -step == 0 then 0 else 1)
  {
    var a := -step;
    var q := start / a;
    var f := if start % a == 0 then -q else -q - 1;
    Scale(q, a);
    assert f * step == -f * a;
    FloorDivIsFloor(start, step);
    FloorUnique(start, step, FloorDiv(start, step), f);
  }

  lemma Scale(q: int, a: int)
    ensures q * a == a * q && (q + 1) * a == a * q + a && -q * a == -(a * q)
  {
  }

  // ----- Range -----

  /** `max(0 - floor((start - limit) / delta), 0)` is the number of elements, for every order
      of the bounds. */
  lemma RangeIsCount(start: int, limit: int, delta: int)
    requires delta != 0
    ensures IsCount(start, limit, delta, Max(Size(start, limit, delta, 0), 0))
  {
    forall k | 0 <= k
      ensures Before(start, limit, delta, k) <==> k < Max(Size(start, limit, delta, 0), 0)
    {
      SizeSeparates(start, limit, delta, k);
    }
  }

  // ----- axes -----

  predicate Distinct(axes: seq<int>) { forall i, j :: 0 <= i < j < |axes| ==> axes[i] != axes[j] }

  /** Negative axes count from the back; out-of-range and repeated axes are refused. */
  method DecodeAxes(axes: seq<int>, r: int) returns (ok: bool, decoded: seq<int>, isIota: bool)
    requires r >= 0
    ensures ok <==>
      && (forall i :: 0 <= i < |axes| ==> -r <= axes[i] < r)
      && (forall i, j :: 0 <= i < j < |axes| ==> FromEnd(axes[i], r) != FromEnd(axes[j], r))
    ensures ok ==> |decoded| == |axes| && Distinct(decoded)
    ensures ok ==> forall i :: 0 <= i < |axes| ==> decoded[i] == FromEnd(axes[i], r) && 0 <= decoded[i] < r
    ensures ok ==> (isIota <==> forall i :: 0 <= i < |axes| ==> decoded[i] == i)
  {
    isIota, decoded := true, [];
    for j := 0 to |axes|
      invariant |decoded| == j
      invariant forall i :: 0 <= i < j ==> -r <= axes[i] < r && decoded[i] == FromEnd(axes[i], r)
      invariant isIota <==> forall i :: 0 <= i < j ==> decoded[i] == i
    {
      var axis := axes[j];
      if !(-r <= axis < r) {
        return false, decoded, isIota;
      }
      if axis < 0 {
        axis := axis + r;
      }
      isIota := isIota && axis == j;
      decoded := decoded + [axis];
    }
    ok := Distinct(decoded);
    if !ok {
      assert exists i, j :: 0 <= i < j < |decoded| && decoded[i] == decoded[j];
    }
  }

  predicate OnAxes(axes: seq<int>, n: nat)
  {
    Distinct(axes) && forall i :: 0 <= i < |axes| ==> 0 <= axes[i] < n
  }

  /** The listed axes point behind the first `n` entries, in order; the others at themselves. */
  ghost predicate Interlaces(axes: seq<int>, n: nat, subscripts: seq<int>)
    requires OnAxes(axes, n)
  {
    && |subscripts| == n
    && (forall i :: 0 <= i < |axes| ==> subscripts[axes[i]] == n + i)
    && forall a :: 0 <= a < n && a !in axes ==> subscripts[a] == a
  }

  /** Subscripts into the concatenation of a full vector and one entry per listed axis. */
  method InterlaceSubscripts(axes: seq<int>, n: nat) returns (subscripts: seq<int>)
    requires OnAxes(axes, n)
    ensures Interlaces(axes, n, subscripts)
  {
    subscripts := seq(n, i => i);
    for i := 0 to |axes|
      invariant |subscripts| == n
      invariant forall k :: 0 <= k < i ==> subscripts[axes[k]] == n + k
      invariant forall a :: 0 <= a < n && a !in axes[..i] ==> subscripts[a] == a
    {
      assert axes[..i + 1] == axes[..i] + [axes[i]];
      subscripts := subscripts[axes[i] := n + i];
    }
    assert axes[..|axes|] == axes;
  }

  lemma InterlaceOverrides(axes: seq<int>, subscripts: seq<int>, x: seq<int>, y: seq<int>)
    requires OnAxes(axes, |x|) && Interlaces(axes, |x|, subscripts) && |y| == |axes|
    ensures Overrides(x, y, axes, subscripts)
  {
    forall a | 0 <= a < |x|
      ensures 0 <= subscripts[a] < |x + y|
    {
      if a in axes {
        var i :| 0 <= i < |axes| && axes[i] == a;
        assert subscripts[axes[i]] == |x| + i;
      }
    }
  }

  /** The shift vector has one entry per listed axis when the ends are known, and a single entry
      otherwise.  It is gathered only if the axes are incomplete or out of order, and this stays
      inside the concatenation exactly as stated. */
  lemma ShiftGatherInRange(axes: seq<int>, n: nat, subscripts: seq<int>, endsKnown: bool)
    requires OnAxes(axes, n) && Interlaces(axes, n, subscripts)
    ensures var size := if endsKnown then |axes| else 1;
      (forall a :: 0 <= a < n ==> subscripts[a] < n + size) <==> endsKnown || |axes| <= 1
  {
    if |axes| > 1 {
      assert subscripts[axes[1]] == n + 1;
    }
    forall a | 0 <= a < n
      ensures 0 <= subscripts[a] < n + |axes|
    {
      if a in axes {
        var i :| 0 <= i < |axes| && axes[i] == a;
        assert subscripts[axes[i]] == n + i;
      }
    }
  }

  /** Gathering by `subscripts` replaces exactly the listed axes of `x` by the entries of `y`. */
  ghost predicate Overrides(x: seq<int>, y: seq<int>, axes: seq<int>, subscripts: seq<int>)
    requires |subscripts| == |x| && |y| == |axes| && forall i :: 0 <= i < |axes| ==> 0 <= axes[i] < |x|
  {
    && (forall a :: 0 <= a < |x| ==> 0 <= subscripts[a] < |x + y|)
    && (forall i :: 0 <= i < |axes| ==> (x + y)[subscripts[axes[i]]] == y[i])
    && forall a :: 0 <= a < |x| && a !in axes ==> (x + y)[subscripts[a]] == x[a]
  }
}

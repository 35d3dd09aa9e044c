/** The Slice importer as a whole (3rdparty/onnx-tensorrt/builtin_op_importers.cpp): axes, shift,
    interlacing, decoding and sizes. */
module SliceImporter {
  import opened ShapeArithmetic
  import opened ShapeTensors
  import opened SliceLayer
  import opened Wrappers
  import Slice

  // ----- spreading listed entries over all axes -----

  /** `x` with the listed axes replaced by the entries of `y`. */
  ghost function Spread(x: seq<int>, y: seq<int>, axes: seq<int>): (w: seq<int>)
    requires Slice.OnAxes(axes, |x|) && |y| == |axes|
    ensures |w| == |x|
    ensures forall i :: 0 <= i < |axes| ==> w[axes[i]] == y[i]
    ensures forall a :: 0 <= a < |x| && a !in axes ==> w[a] == x[a]
  {
    seq(|x|, a requires 0 <= a < |x| => if a in axes then y[IndexOf(axes, a)] else x[a])
  }

  lemma SpreadEntry(x: seq<int>, y: seq<int>, axes: seq<int>, a: int)
    requires Slice.OnAxes(axes, |x|) && |y| == |axes| && 0 <= a < |x|
    ensures if a in axes then exists i :: 0 <= i < |axes| && axes[i] == a && Spread(x, y, axes)[a] == y[i]
      else Spread(x, y, axes)[a] == x[a]
  {
    if a in axes { var i := IndexOf(axes, a); }
  }

  lemma GatherSpreads(x: seq<int>, y: seq<int>, axes: seq<int>, p: seq<int>)
    requires Slice.OnAxes(axes, |x|) && |y| == |axes| && Slice.Interlaces(axes, |x|, p)
    ensures Subscripts(p, |x + y|) && Picked(x + y, p) == Spread(x, y, axes)
  {
    Slice.InterlaceOverrides(axes, p, x, y);
    forall a | 0 <= a < |x|
      ensures Picked(x + y, p)[a] == Spread(x, y, axes)[a]
    {
      SpreadEntry(x, y, axes, a);
    }
  }

  lemma SpreadAll(x: seq<int>, y: seq<int>, axes: seq<int>)
    requires Slice.OnAxes(axes, |x|) && |y| == |axes| == |x| && forall i :: 0 <= i < |axes| ==> axes[i] == i
    ensures Spread(x, y, axes) == y
  {
    forall a | 0 <= a < |x|
      ensures Spread(x, y, axes)[a] == y[a]
    {
      assert axes[a] == a;
    }
  }

  /** The vector itself, or moved into 32 bits on its way through a layer. */
  ghost predicate IsOrClamped(z: ShapeTensor, w: seq<int>)
    reads z
  {
    Is(z, w) || Is(z, Clamped(w))
  }

  method Interlace(x: ShapeTensor, y: ShapeTensor, p: seq<int>, ghost u: seq<int>, ghost v: seq<int>,
      ghost axes: seq<int>)
    returns (z: ShapeTensor)
    requires Is(x, u) && Is(y, v) && |u| + |v| <= INT32_MAX && |v| == |axes|
    requires Slice.OnAxes(axes, |u|) && Slice.Interlaces(axes, |u|, p)
    modifies x`tensor, y`tensor
    ensures Is(x, u) && Is(y, v)
    ensures fresh(z) && IsOrClamped(z, Spread(u, v, axes))
    ensures AllFit32(u) && AllFit32(v) ==> Is(z, Spread(u, v, axes))
    ensures if x.Known() && y.Known() then z.Known() && Is(z, Spread(u, v, axes)) else |u| > 0 && |v| > 0 ==> !z.Known()
  {
    GatherSpreads(u, v, axes, p);
    var subscripts := new ShapeTensor.Of(1, p);
    var both := Concat(x, y);
    ClampedPicked(u + v, p);
    z := Gather(both, subscripts);
    assert Clamped(Clamped(Spread(u, v, axes))) == Clamped(Spread(u, v, axes));
    SpreadFits(u, v, axes);
  }

  lemma SpreadFits(x: seq<int>, y: seq<int>, axes: seq<int>)
    requires Slice.OnAxes(axes, |x|) && |y| == |axes|
    ensures AllFit32(x) && AllFit32(y) ==> AllFit32(Spread(x, y, axes))
    ensures AllFit64(x) && AllFit64(y) ==> AllFit64(Spread(x, y, axes))
  {
    forall a | 0 <= a < |x|
      ensures AllFit32(x) && AllFit32(y) ==> Fits32(Spread(x, y, axes)[a])
      ensures AllFit64(x) && AllFit64(y) ==> Fits64(Spread(x, y, axes)[a])
    {
      SpreadEntry(x, y, axes, a);
    }
  }

  // ----- the shift -----

  function Shifts(e: seq<int>): (h: seq<int>)
    ensures |h| == |e| && forall i :: 0 <= i < |e| ==> h[i] == if e[i] == INT32_MIN then 1 else 0
  {
    seq(|e|, i requires 0 <= i < |e| => if e[i] == INT32_MIN then 1 else 0)
  }

  /** One entry per end when the ends are known, whatever the steps; a single 0 otherwise. */
  method ShiftVector(ends: ShapeTensor, ghost e: seq<int>) returns (shift: ShapeTensor)
    requires Is(ends, e) && (ends.Known() && ends.size > 0 ==> ends.tensor.None?)
    ensures fresh(shift) && Is(shift, if ends.Known() then Shifts(e) else [0]) && shift.Known()
  {
    if !ends.Known() {
      shift := new ShapeTensor.Of(1, [0]);
      return;
    }
    shift := new ShapeTensor.Copy(ends);
    for i := 0 to |ends.values|
      invariant shift.rank == 1 && shift.size == ends.size && |shift.values| == |e| && shift.tensor == ends.tensor
      invariant forall k :: 0 <= k < i ==> shift.values[k] == if e[k] == INT32_MIN then 1 else 0
      invariant forall k :: i <= k < |e| ==> shift.values[k] == e[k]
    {
      if shift.values[i] == INT32_MIN {
        shift.values := shift.values[i := 1];
      } else {
        shift.values := shift.values[i := 0];
      }
    }
    assert shift.values == Shifts(e);
  }

  // ----- one entry per axis -----

  datatype Operands = Operands(starts: ShapeTensor, ends: ShapeTensor, steps: ShapeTensor, shift: ShapeTensor)

  function Repeat(n: nat, x: int): (w: seq<int>)
    ensures |w| == n && forall k :: 0 <= k < n ==> w[k] == x
  {
    seq(n, k => x)
  }

  /** The values of the operands: lengths, and per listed axis start, end and step. */
  datatype Values = Values(d: seq<int>, s: seq<int>, e: seq<int>, t: seq<int>)

  ghost predicate Legal(v: Values, axes: seq<int>)
  {
    && AreDims(v.d) && |v.s| == |v.e| == |v.t| == |axes| && |v.d| + |axes| <= INT32_MAX
    && AllFit64(v.s) && AllFit64(v.e) && AllFit64(v.t) && forall i :: 0 <= i < |v.t| ==> v.t[i] != 0
  }

  ghost predicate Hold(o: Operands, s: seq<int>, e: seq<int>, t: seq<int>, h: seq<int>)
    reads o.starts, o.ends, o.steps, o.shift
  {
    Is(o.starts, s) && IsOrClamped(o.ends, e) && Is(o.steps, t) && Is(o.shift, h)
  }

  ghost predicate Apart(dims: ShapeTensor, o: Operands)
  {
    && dims !in {o.starts, o.ends, o.steps, o.shift} && o.starts !in {o.ends, o.steps, o.shift}
    && o.ends !in {o.steps, o.shift} && o.steps != o.shift
  }

  /** Incomplete or unordered operands are spread over all axes. */
  method SpreadOperands(dims: ShapeTensor, o: Operands, p: seq<int>, ghost axes: seq<int>, ghost v: Values,
      ghost h: seq<int>)
    returns (r: Operands)
    requires Legal(v, axes) && Is(dims, v.d) && Is(o.starts, v.s) && Is(o.ends, v.e) && Is(o.steps, v.t) &&
      Is(o.shift, h)
    requires Apart(dims, o) && AllFit32(h) && |h| == |axes|
    requires Slice.OnAxes(axes, |v.d|) && Slice.Interlaces(axes, |v.d|, p)
    modifies dims`tensor, o.starts`tensor, o.ends`tensor, o.steps`tensor, o.shift`tensor
    ensures Is(dims, v.d) && Apart(dims, r) && fresh({r.starts, r.ends, r.steps, r.shift})
    ensures r.steps.Known() <==> o.steps.Known()
    ensures var n := |v.d|; Hold(r, Spread(Repeat(n, 0), v.s, axes), Spread(v.d, v.e, axes),
      Spread(Repeat(n, 1), v.t, axes), Spread(Repeat(n, 0), h, axes))
  {
    var starts := SpreadOver(dims.size, 0, o.starts, p, v.s, axes);
    var ends := Interlace(dims, o.ends, p, v.d, v.e, axes);
    var steps := SpreadOver(dims.size, 1, o.steps, p, v.t, axes);
    var shift := SpreadOver(dims.size, 0, o.shift, p, h, axes);
    r := Operands(starts, ends, steps, shift);
  }

  /** Axes that are not listed get `fill`. */
  method SpreadOver(n: nat, fill: int, y: ShapeTensor, p: seq<int>, ghost v: seq<int>, ghost axes: seq<int>)
    returns (z: ShapeTensor)
    requires Is(y, v) && 1 <= n && n + |v| <= INT32_MAX && |v| == |axes| && 0 <= fill <= 1
    requires Slice.OnAxes(axes, n) && Slice.Interlaces(axes, n, p)
    modifies y`tensor
    ensures Is(y, v)
    ensures fresh(z) && Is(z, Spread(Repeat(n, fill), v, axes)) && (z.Known() <==> y.Known())
  {
    ghost var u := Repeat(n, fill);
    var x := new ShapeTensor.Of(1, Repeat(n, fill));
    assert x.Value() == u && AllFit32(u);
    assert !y.Known() ==> AllFit32(v) && |v| > 0;
    z := Interlace(x, y, p, u, v, axes);
  }

  /** Decoding and sizes once there is one entry per axis. */
  method Finish(dims: ShapeTensor, o: Operands, ghost d: seq<int>, ghost s: seq<int>, ghost e: seq<int>,
      ghost t: seq<int>, ghost h: seq<int>)
    returns (first: ShapeTensor, sizes: ShapeTensor)
    requires AreDims(d) && |s| == |e| == |t| == |d| && AllFit64(s) && AllFit64(e) && AllFit64(t)
    requires (forall k :: 0 <= k < |t| ==> t[k] != 0) && (|h| == 1 || |h| == |d|) && forall k :: 0 <= k < |h| ==>
      0 <= h[k] <= 1
    requires Is(dims, d) && Hold(o, s, e, t, h) && Apart(dims, o)
    modifies dims`tensor, o.starts`tensor, o.ends`tensor, o.steps`tensor, o.shift`tensor
    ensures fresh({first, sizes}) && Is(first, Decoded(s, d)) && Is(o.steps, t)
    ensures Is(sizes, Sizes(Decoded(s, d), Decoded(e, d), t, if old(o.steps.AllAre(1)) then [0] else h))
  {
    DecodedAlike(e, d);
    first := DecodeIndices(o.starts, dims, s, d);
    var last := DecodeIndices(o.ends, dims, o.ends.Value(), d);
    DecodedBounds(s, e, t, h, d);
    sizes := ComputeSizes(first, last, o.steps, o.shift, Decoded(s, d), Decoded(e, d), t, h);
  }

  /** Moving an index into 32 bits does not change what it decodes to. */
  lemma DecodedAlike(e: seq<int>, d: seq<int>)
    requires |e| == |d| && AreDims(d)
    ensures Decoded(Clamped(e), d) == Decoded(e, d)
  {
    forall k | 0 <= k < |e|
      ensures Slice.Decode(Clamped(e)[k], d[k]) == Slice.Decode(e[k], d[k])
    {
      Slice.DecodeIgnoresClamp(e[k], d[k]);
    }
  }

  lemma DecodedBounds(s: seq<int>, e: seq<int>, t: seq<int>, h: seq<int>, d: seq<int>)
    requires AreDims(d) && |s| == |e| == |t| == |d| && AllFit64(t)
    requires (forall k :: 0 <= k < |t| ==> t[k] != 0) && (|h| == 1 || |h| == |d|) && forall k :: 0 <= k < |h| ==>
      0 <= h[k] <= 1
    ensures Bounds(Decoded(s, d), Decoded(e, d), t, h)
  {
    forall k | 0 <= k < |d|
      ensures 0 <= Decoded(s, d)[k] <= d[k] && 0 <= Decoded(e, d)[k] <= d[k]
    {
      Slice.DecodeClamps(s[k], d[k]);
      Slice.DecodeClamps(e[k], d[k]);
    }
  }

  // ----- the importer -----

  function DecodedAxes(axes: seq<int>, n: nat): (w: seq<int>)
    ensures |w| == |axes| && forall i :: 0 <= i < |axes| ==> w[i] == Slice.FromEnd(axes[i], n)
  {
    seq(|axes|, i requires 0 <= i < |axes| => Slice.FromEnd(axes[i], n))
  }

  ghost predicate AxesOk(axes: seq<int>, n: nat)
  {
    (forall i :: 0 <= i < |axes| ==> 0 <= axes[i] + n && axes[i] < n) && Slice.Distinct(DecodedAxes(axes, n))
  }

  predicate IsIota(axes: seq<int>) { forall i :: 0 <= i < |axes| ==> axes[i] == i }

  /** The shift can be gathered for the decoded axes, or need not be. */
  ghost predicate ShiftInRange(axes: seq<int>, n: nat, endsKnown: bool)
  {
    endsKnown || |axes| <= 1 || (|axes| == n && IsIota(axes))
  }

  /** On a listed axis: decoded start, given step, and a size that makes the layer take the ONNX
      slice, and stay on the axis, exactly under the stated conditions. */
  ghost predicate ListedAxis(v: Values, i: nat, a: int, first: int, size: int, step: int, shifted: bool)
    requires i < |v.s| == |v.e| == |v.t| && 0 <= a < |v.d| && v.t[i] != 0
  {
    var start, end := Slice.Decode(v.s[i], v.d[a]), Slice.Decode(v.e[i], v.d[a]);
    && first == start && step == v.t[i]
    && size == Slice.Size(start, end, v.t[i], if shifted then 1 else 0)
    && (Slice.IsOnnxSlice(v.s[i], v.e[i], v.t[i], v.d[a], first, size) <==>
         Slice.Exact(v.s[i], v.e[i], v.t[i], v.d[a], shifted))
    && (Slice.Inside(first, step, size, v.d[a]) <==> Slice.StaysOn(start, end, v.t[i], v.d[a], shifted))
  }

  ghost predicate LayerIs(v: Values, axes: seq<int>, first: seq<int>, sizes: seq<int>, steps: seq<int>, shifting: bool)
    requires Legal(v, axes) && Slice.OnAxes(axes, |v.d|)
  {
    && |first| == |sizes| == |steps| == |v.d|
    && (forall i :: 0 <= i < |axes| ==>
          ListedAxis(v, i, axes[i], first[axes[i]], sizes[axes[i]], steps[axes[i]], shifting && v.e[i] == INT32_MIN))
    && forall a :: 0 <= a < |v.d| && a !in axes ==> first[a] == 0 && sizes[a] == v.d[a] && steps[a] == 1
  }

  /** The shift on an axis, from one entry per axis or a single one. */
  ghost predicate ShiftIs(v: Values, axes: seq<int>, h: seq<int>, shifting: bool)
    requires |v.e| == |axes| && Slice.OnAxes(axes, |v.d|)
  {
    && (|h| == 1 || |h| == |v.d|)
    && (forall i :: 0 <= i < |axes| ==> Entry(h, axes[i]) == if shifting && v.e[i] == INT32_MIN then 1 else 0)
    && forall a :: 0 <= a < |v.d| && a !in axes ==> Entry(h, a) == 0
  }

  lemma LayerValues(v: Values, axes: seq<int>, h: seq<int>, shifting: bool)
    requires Legal(v, axes) && Slice.OnAxes(axes, |v.d|) && ShiftIs(v, axes, h, shifting)
    ensures var n := |v.d|;
      var s, e, t := Spread(Repeat(n, 0), v.s, axes), Spread(v.d, v.e, axes), Spread(Repeat(n, 1), v.t, axes);
      && (forall k :: 0 <= k < n ==> t[k] != 0)
      && LayerIs(v, axes, Decoded(s, v.d), Sizes(Decoded(s, v.d), Decoded(e, v.d), t, h), t, shifting)
  {
    var n := |v.d|;
    var s, e, t := Spread(Repeat(n, 0), v.s, axes), Spread(v.d, v.e, axes), Spread(Repeat(n, 1), v.t, axes);
    forall k | 0 <= k < n
      ensures t[k] != 0
    {
      SpreadEntry(Repeat(n, 1), v.t, axes, k);
    }
    forall i | 0 <= i < |axes|
      ensures var a := axes[i]; var x, y := Slice.Decode(v.s[i], v.d[a]), Slice.Decode(v.e[i], v.d[a]);
        var shifted := shifting && v.e[i] == INT32_MIN;
        ListedAxis(v, i, a, x, Slice.Size(x, y, v.t[i], if shifted then 1 else 0), v.t[i], shifted)
    {
      ListedAxisHolds(v, i, axes[i], shifting && v.e[i] == INT32_MIN);
    }
    forall a | 0 <= a < n && a !in axes
      ensures Slice.Decode(s[a], v.d[a]) == 0 && Slice.Size(0, Slice.Decode(e[a], v.d[a]), 1, 0) == v.d[a]
    {
      WholeAxis(v.d[a]);
    }
  }

  lemma ListedAxisHolds(v: Values, i: nat, a: int, shifted: bool)
    requires i < |v.s| == |v.e| == |v.t| && 0 <= a < |v.d| && AreDims(v.d) && v.t[i] != 0
    requires shifted ==> v.e[i] == INT32_MIN
    ensures var x, y := Slice.Decode(v.s[i], v.d[a]), Slice.Decode(v.e[i], v.d[a]);
      ListedAxis(v, i, a, x, Slice.Size(x, y, v.t[i], if shifted then 1 else 0), v.t[i], shifted)
  {
    Slice.DecodeClamps(v.s[i], v.d[a]);
    Slice.DecodeClamps(v.e[i], v.d[a]);
    Slice.AxisExact(v.s[i], v.e[i], v.t[i], v.d[a], shifted);
    Slice.InsideExactly(Slice.Decode(v.s[i], v.d[a]), Slice.Decode(v.e[i], v.d[a]), v.t[i], v.d[a], shifted);
  }

  lemma WholeAxis(d: int)
    requires d >= 0
    ensures Slice.Decode(0, d) == 0 && Slice.Decode(d, d) == d && Slice.Size(0, d, 1, 0) == d
  {
    Slice.DecodeClamps(0, d);
    Slice.DecodeClamps(d, d);
    Slice.UnitStepShortcut(0, d);
  }

  datatype Result = Invalid | OutOfRange | Layer(first: ShapeTensor, sizes: ShapeTensor, steps: ShapeTensor)

  ghost predicate Ready(dims: ShapeTensor, o: Operands, axes: seq<int>, v: Values)
    reads dims, o.starts, o.ends, o.steps, o.shift
  {
    && Legal(v, axes) && Slice.OnAxes(axes, |v.d|) && Apart(dims, o)
    && Is(dims, v.d) && Is(o.starts, v.s) && Is(o.ends, v.e) && Is(o.steps, v.t)
    && Is(o.shift, if o.ends.Known() then Shifts(v.e) else [0])
  }

  ghost predicate Built(r: Result, axes: seq<int>, v: Values, shifting: bool)
    requires Legal(v, axes) && Slice.OnAxes(axes, |v.d|)
    reads if r.Layer? then {r.first, r.sizes, r.steps} else {}
  {
    && r.Layer? && r.first.Valid() && r.sizes.Valid() && r.steps.Valid()
    && LayerIs(v, axes, r.first.Value(), r.sizes.Value(), r.steps.Value(), shifting)
  }

  lemma SpreadLegal(v: Values, axes: seq<int>)
    requires Legal(v, axes) && Slice.OnAxes(axes, |v.d|)
    ensures var n := |v.d|;
      AllFit64(Spread(Repeat(n, 0), v.s, axes)) && AllFit64(Spread(v.d, v.e, axes)) &&
        AllFit64(Spread(Repeat(n, 1), v.t, axes))
  {
    var n := |v.d|;
    SpreadFits(Repeat(n, 0), v.s, axes);
    SpreadFits(v.d, v.e, axes);
    SpreadFits(Repeat(n, 1), v.t, axes);
  }

  lemma UnitSpread(n: nat, t: seq<int>, axes: seq<int>)
    requires Slice.OnAxes(axes, n) && |t| == |axes|
    ensures (forall k :: 0 <= k < n ==> Spread(Repeat(n, 1), t, axes)[k] == 1) <==>
      (forall i :: 0 <= i < |t| ==> t[i] == 1)
  {
    var w := Spread(Repeat(n, 1), t, axes);
    if forall i :: 0 <= i < |t| ==> t[i] == 1 {
      forall k | 0 <= k < n
        ensures w[k] == 1
      {
        SpreadEntry(Repeat(n, 1), t, axes, k);
      }
    }
    if forall k :: 0 <= k < n ==> w[k] == 1 {
      forall i | 0 <= i < |t|
        ensures t[i] == 1
      {
        assert w[axes[i]] == t[i];
      }
    }
  }

  /** The operands, spread over all axes, to the layer. */
  method Finalize(dims: ShapeTensor, o: Operands, axes: seq<int>, ghost v: Values, ghost g: seq<int>,
      ghost endsKnown: bool)
    returns (r: Result)
    requires Legal(v, axes) && Slice.OnAxes(axes, |v.d|) && Is(dims, v.d) && Apart(dims, o)
    requires ShiftIs(v, axes, g, endsKnown) && forall k :: 0 <= k < |g| ==> 0 <= g[k] <= 1
    requires var n := |v.d|;
      Hold(o, Spread(Repeat(n, 0), v.s, axes), Spread(v.d, v.e, axes), Spread(Repeat(n, 1), v.t, axes), g)
    modifies dims`tensor, o.starts`tensor, o.ends`tensor, o.steps`tensor, o.shift`tensor
    ensures Built(r, axes, v, endsKnown && !old(o.steps.AllAre(1)))
  {
    ghost var n: nat := |v.d|;
    ghost var s, e, t := Spread(Repeat(n, 0), v.s, axes), Spread(v.d, v.e, axes), Spread(Repeat(n, 1), v.t, axes);
    ghost var unit := o.steps.AllAre(1);
    SpreadLegal(v, axes);
    LayerValues(v, axes, if unit then [0] else g, endsKnown && !unit);
    var first, sizes := Finish(dims, o, v.d, s, e, t, g);
    r := Layer(first, sizes, o.steps);
  }

  lemma ShiftSpread(v: Values, axes: seq<int>, h: seq<int>, endsKnown: bool)
    requires Slice.OnAxes(axes, |v.d|) && |v.e| == |axes| == |h|
    requires h == if endsKnown then Shifts(v.e) else [0]
    ensures var g := Spread(Repeat(|v.d|, 0), h, axes);
      ShiftIs(v, axes, g, endsKnown) && forall k :: 0 <= k < |g| ==> 0 <= g[k] <= 1
  {
    var n: nat := |v.d|;
    var g := Spread(Repeat(n, 0), h, axes);
    forall k | 0 <= k < n
      ensures 0 <= g[k] <= 1 && Entry(g, k) == g[k]
    {
      SpreadEntry(Repeat(n, 0), h, axes, k);
    }
  }

  method ImportSpread(dims: ShapeTensor, o: Operands, p: seq<int>, axes: seq<int>, ghost v: Values) returns (r: Result)
    requires Ready(dims, o, axes, v) && (o.ends.Known() || |axes| <= 1) && Slice.Interlaces(axes, |v.d|, p)
    modifies dims`tensor, o.starts`tensor, o.ends`tensor, o.steps`tensor, o.shift`tensor
    ensures Built(r, axes, v, o.ends.Known() && !old(o.steps.AllAre(1)))
  {
    ghost var n: nat := |v.d|;
    ghost var h := if o.ends.Known() then Shifts(v.e) else [0];
    assert !o.ends.Known() ==> |v.e| == 1;
    var q := SpreadOperands(dims, o, p, axes, v, h);
    UnitSpread(n, v.t, axes);
    assert q.steps.AllAre(1) <==> old(o.steps.AllAre(1));
    ShiftSpread(v, axes, h, o.ends.Known());
    r := Finalize(dims, q, axes, v, Spread(Repeat(n, 0), h, axes), o.ends.Known());
  }

  /** Listing all axes in order leaves the operands as they are. */
  lemma WholeSpread(v: Values, axes: seq<int>, endsKnown: bool)
    requires Legal(v, axes) && Slice.OnAxes(axes, |v.d|) && |axes| == |v.d| && IsIota(axes)
    ensures var n := |v.d|;
      Spread(Repeat(n, 0), v.s, axes) == v.s && Spread(v.d, v.e, axes) == v.e && Spread(Repeat(n, 1), v.t, axes) == v.t
    ensures ShiftIs(v, axes, if endsKnown then Shifts(v.e) else [0], endsKnown)
  {
    SpreadAll(Repeat(|v.d|, 0), v.s, axes);
    SpreadAll(v.d, v.e, axes);
    SpreadAll(Repeat(|v.d|, 1), v.t, axes);
  }

  method ImportWhole(dims: ShapeTensor, o: Operands, axes: seq<int>, ghost v: Values) returns (r: Result)
    requires Ready(dims, o, axes, v) && |axes| == |v.d| && IsIota(axes)
    modifies dims`tensor, o.starts`tensor, o.ends`tensor, o.steps`tensor, o.shift`tensor
    ensures Built(r, axes, v, o.ends.Known() && !old(o.steps.AllAre(1)))
  {
    WholeSpread(v, axes, o.ends.Known());
    r := Finalize(dims, o, axes, v, if o.ends.Known() then Shifts(v.e) else [0], o.ends.Known());
  }

  /** Decoded axes that are incomplete or out of order are spread, if the shift can be gathered. */
  method Dispatch(dims: ShapeTensor, o: Operands, axes: seq<int>, isIota: bool, ghost v: Values) returns (r: Result)
    requires Ready(dims, o, axes, v) && (isIota <==> IsIota(axes))
    modifies dims`tensor, o.starts`tensor, o.ends`tensor, o.steps`tensor, o.shift`tensor
    ensures if ShiftInRange(axes, |v.d|, o.ends.Known()) then
      Built(r, axes, v, o.ends.Known() && !old(o.steps.AllAre(1)))
      else r.OutOfRange?
  {
    if |axes| < dims.size || !isIota {
      var p := Slice.InterlaceSubscripts(axes, dims.size);
      Slice.ShiftGatherInRange(axes, dims.size, p, o.ends.Known());
      if exists a :: 0 <= a < |p| && p[a] >= dims.size + o.shift.size {
        return OutOfRange;
      }
      r := ImportSpread(dims, o, p, axes, v);
    } else {
      NoMoreAxes(axes, dims.size);
      r := ImportWhole(dims, o, axes, v);
    }
  }

  lemma NoMoreAxes(axes: seq<int>, n: nat)
    requires Slice.OnAxes(axes, n) && IsIota(axes)
    ensures |axes| <= n
  {
    assert |axes| > 0 ==> axes[|axes| - 1] == |axes| - 1;
  }

  method PrepareAxes(axes: seq<int>, n: nat) returns (ok: bool, decoded: seq<int>, isIota: bool)
    ensures ok <==> AxesOk(axes, n)
    ensures ok ==> decoded == DecodedAxes(axes, n) && Slice.OnAxes(decoded, n) && (isIota <==> IsIota(decoded))
  {
    ok, decoded, isIota := Slice.DecodeAxes(axes, n);
    if ok { assert decoded == DecodedAxes(axes, n); }
  }

  /** Everything from the operands to the layer.  `OutOfRange` stands for the read past the end of
      the shift; a known, non-empty vector of ends comes from weights and has no tensor yet. */
  method Import(dims: ShapeTensor, starts: ShapeTensor, ends: ShapeTensor, steps: ShapeTensor, axes: seq<int>,
      ghost v: Values)
    returns (r: Result)
    requires Legal(v, axes) && Is(dims, v.d) && Is(starts, v.s) && Is(ends, v.e) && Is(steps, v.t)
    requires dims !in {starts, ends, steps} && starts !in {ends, steps} && ends != steps
    requires ends.Known() && ends.size > 0 ==> ends.tensor.None?
    modifies dims`tensor, starts`tensor, ends`tensor, steps`tensor
    ensures r.Invalid? <==> !AxesOk(axes, |v.d|)
    ensures r.OutOfRange? <==> AxesOk(axes, |v.d|) && !ShiftInRange(DecodedAxes(axes, |v.d|), |v.d|, ends.Known())
    ensures r.Layer? ==> Built(r, DecodedAxes(axes, |v.d|), v, ends.Known() && !old(steps.AllAre(1)))
  {
    var ok, decoded, isIota := PrepareAxes(axes, dims.size);
    if !ok {
      return Invalid;
    }
    var shift := ShiftVector(ends, v.e);
    r := Dispatch(dims, Operands(starts, ends, steps, shift), decoded, isIota, v);
  }
}

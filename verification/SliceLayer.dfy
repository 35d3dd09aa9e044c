/** The Slice importer on shape tensors (3rdparty/onnx-tensorrt/builtin_op_importers.cpp): the
    start, size and step vectors given to the layer, for known and unknown operands alike. */
module SliceLayer {
  import opened ShapeArithmetic
  import opened ShapeTensors
  import Slice

  ghost predicate AreDims(d: seq<int>)
  {
    |d| >= 1 && forall k :: 0 <= k < |d| ==> 0 <= d[k] < INT32_MAX
  }

  // ----- one element-wise step, entry by entry -----

  ghost predicate IsStep(op: Operation, u: seq<int>, v: seq<int>, w: seq<int>)
  {
    && Compatible(u, v) && Divisible(op, v) && |w| == (if |u| < |v| then |v| else |u|)
    && forall k :: 0 <= k < |w| ==> w[k] == Apply(op, Entry(u, k), Entry(v, k))
  }

  lemma StepIsElementWise(op: Operation, u: seq<int>, v: seq<int>, w: seq<int>)
    requires IsStep(op, u, v, w)
    ensures ElementWise(op, u, v) == w
  {
    forall k | 0 <= k < |w|
      ensures ElementWise(op, u, v)[k] == w[k]
    {
      ApplyIsMeaning(op, Entry(u, k), Entry(v, k));
    }
  }

  ghost predicate All32(u: seq<int>, v: seq<int>, w: seq<int>) { AllFit32(u) && AllFit32(v) && AllFit32(w) }
  ghost predicate All64(u: seq<int>, v: seq<int>, w: seq<int>) { AllFit64(u) && AllFit64(v) && AllFit64(w) }

  method Step(op: Operation, x: ShapeTensor, y: ShapeTensor, ghost u: seq<int>, ghost v: seq<int>, ghost w: seq<int>)
    returns (z: ShapeTensor)
    requires Is(x, u) && Is(y, v) && IsStep(op, u, v, w)
    requires All32(u, v, w) || (x.Known() && y.Known() && All64(u, v, w))
    modifies x`tensor, y`tensor
    ensures Is(x, u) && Is(y, v)
    ensures fresh(z) && Is(z, w) && (x.Known() && y.Known() ==> z.Known())
    ensures old(LeftToLayer(op, x, y)) ==> !z.Known()
  {
    StepIsElementWise(op, u, v, w);
    z := Op(x, y, op);
  }

  // ----- decoding starts and ends -----

  function Negated(d: seq<int>): (w: seq<int>)
    ensures |w| == |d| && forall k :: 0 <= k < |d| ==> w[k] == -d[k]
  {
    seq(|d|, k requires 0 <= k < |d| => -d[k])
  }

  function Larger(a: seq<int>, b: seq<int>): (w: seq<int>)
    requires |a| == |b|
    ensures |w| == |a| && forall k :: 0 <= k < |a| ==> w[k] == Max(a[k], b[k])
  {
    seq(|a|, k requires 0 <= k < |a| => Max(a[k], b[k]))
  }

  /** Indices take part with all 64 bits, or moved into 32 bits when the lengths are unknown. */
  method Raise(indices: ShapeTensor, low: ShapeTensor, ghost a: seq<int>, ghost d: seq<int>) returns (z: ShapeTensor)
    requires Is(indices, a) && Is(low, Negated(d)) && |a| == |d| && AreDims(d) && AllFit64(a)
    modifies indices`tensor, low`tensor
    ensures Is(indices, a)
    ensures fresh(z)
    ensures if indices.Known() && low.Known() then z.Known() && Is(z, Larger(a, Negated(d)))
      else Is(z, Larger(Clamped(a), Negated(d)))
  {
    RaisedValues(a, d);
    ghost var n := Negated(d);
    assert !low.AllAre(INT64_MIN) by { assert low.Known() ==> low.values[0] == n[0]; }
    z := Op(indices, low, MaxOf);
  }

  lemma RaisedValues(a: seq<int>, d: seq<int>)
    requires |a| == |d| && AreDims(d) && AllFit64(a)
    ensures var n := Negated(d);
      && AllFit32(n) && Clamped(n) == n && AllFit64(Larger(a, n)) && AllFit32(Larger(Clamped(a), n))
      && Compatible(a, n) && ElementWise(MaxOf, a, n) == Larger(a, n)
      && Compatible(Clamped(a), n) && ElementWise(MaxOf, Clamped(a), n) == Larger(Clamped(a), n)
      && ((forall k :: 0 <= k < |a| ==> a[k] == INT64_MIN) ==> Larger(a, n) == Larger(Clamped(a), n))
  {
    var n := Negated(d);
    StepIsElementWise(MaxOf, a, n, Larger(a, n));
    StepIsElementWise(MaxOf, Clamped(a), n, Larger(Clamped(a), n));
  }

  function Cut(a: seq<int>, d: seq<int>): (w: seq<int>)
    requires |a| == |d|
    ensures |w| == |a| && forall k :: 0 <= k < |a| ==> w[k] == Min(Max(a[k], -d[k]), d[k])
  {
    seq(|a|, k requires 0 <= k < |a| => Min(Max(a[k], -d[k]), d[k]))
  }

  lemma CutStep(a: seq<int>, d: seq<int>)
    requires |a| == |d| && AreDims(d) && AllFit64(a)
    ensures AllFit32(d) && AllFit32(Cut(a, d))
    ensures IsStep(MinOf, Larger(a, Negated(d)), d, Cut(a, d)) && AllFit64(Larger(a, Negated(d)))
    ensures IsStep(MinOf, Larger(Clamped(a), Negated(d)), d, Cut(a, d)) && AllFit32(Larger(Clamped(a), Negated(d)))
  {
  }

  method CutToDims(indices: ShapeTensor, dims: ShapeTensor, ghost a: seq<int>, ghost d: seq<int>)
    returns (z: ShapeTensor)
    requires Is(indices, a) && Is(dims, d) && |a| == |d| && AreDims(d) && AllFit64(a)
    modifies indices`tensor, dims`tensor
    ensures Is(indices, a) && Is(dims, d)
    ensures fresh(z) && Is(z, Cut(a, d))
  {
    var minusOne := new ShapeTensor.Of(1, [-1]);
    assert minusOne.values[0] == -1;
    assert !dims.Known() ==> LeftToLayer(Prod, minusOne, dims);
    var low := Step(Prod, minusOne, dims, [-1], d, Negated(d));
    var raised := Raise(indices, low, a, d);
    CutStep(a, d);
    z := Step(MinOf, raised, dims, raised.Value(), d, Cut(a, d));
  }

  function Turn(a: seq<int>, d: seq<int>): (w: seq<int>)
    requires |a| == |d|
    ensures |w| == |a| && forall k :: 0 <= k < |a| ==> w[k] == if a[k] < 0 then -d[k] else 0
  {
    seq(|a|, k requires 0 <= k < |a| => if a[k] < 0 then -d[k] else 0)
  }

  function Below(a: seq<int>): (w: seq<int>)
    ensures |w| == |a| && forall k :: 0 <= k < |a| ==> w[k] == Min(0, a[k])
  {
    seq(|a|, k requires 0 <= k < |a| => Min(0, a[k]))
  }

  function Sign(a: seq<int>): (w: seq<int>)
    ensures |w| == |a| && forall k :: 0 <= k < |a| ==> w[k] == if a[k] < 0 then -1 else 0
  {
    seq(|a|, k requires 0 <= k < |a| => if a[k] < 0 then -1 else 0)
  }

  lemma TurnSteps(a: seq<int>, d: seq<int>)
    requires |a| == |d| && AreDims(d) && AllFit64(a)
    ensures IsStep(MinOf, [0], a, Below(a)) && AllFit64(Below(a)) && (AllFit32(a) ==> AllFit32(Below(a)))
    ensures IsStep(MaxOf, [-1], Below(a), Sign(a)) && AllFit32(Sign(a))
    ensures IsStep(Prod, d, Sign(a), Turn(a, d)) && All32(d, Sign(a), Turn(a, d))
  {
  }

  method TurnBack(indices: ShapeTensor, dims: ShapeTensor, ghost a: seq<int>, ghost d: seq<int>)
    returns (z: ShapeTensor)
    requires Is(indices, a) && Is(dims, d) && |a| == |d| && AreDims(d) && AllFit64(a)
    modifies indices`tensor, dims`tensor
    ensures Is(indices, a) && Is(dims, d)
    ensures fresh(z) && Is(z, Turn(a, d))
  {
    TurnSteps(a, d);
    var zero := new ShapeTensor.Of(1, [0]);
    var below := Step(MinOf, zero, indices, [0], a, Below(a));
    var minusOne := new ShapeTensor.Of(1, [-1]);
    var sign := Step(MaxOf, minusOne, below, [-1], Below(a), Sign(a));
    z := Step(Prod, dims, sign, d, Sign(a), Turn(a, d));
  }

  function Decoded(a: seq<int>, d: seq<int>): (w: seq<int>)
    requires |a| == |d|
    ensures |w| == |a| && forall k :: 0 <= k < |a| ==> w[k] == Slice.Decode(a[k], d[k])
  {
    seq(|a|, k requires 0 <= k < |a| => Slice.Decode(a[k], d[k]))
  }

  /** Known or not, 32 bits or 64, every index is decoded as the formula says. */
  method DecodeIndices(indices: ShapeTensor, dims: ShapeTensor, ghost a: seq<int>, ghost d: seq<int>)
    returns (z: ShapeTensor)
    requires Is(indices, a) && Is(dims, d) && |a| == |d| && AreDims(d) && AllFit64(a)
    modifies indices`tensor, dims`tensor
    ensures Is(indices, a) && Is(dims, d)
    ensures fresh(z) && Is(z, Decoded(a, d))
  {
    var cut := CutToDims(indices, dims, a, d);
    var turn := TurnBack(indices, dims, a, d);
    DecodedStep(a, d);
    z := Step(Sub, cut, turn, Cut(a, d), Turn(a, d), Decoded(a, d));
  }

  lemma DecodedStep(a: seq<int>, d: seq<int>)
    requires |a| == |d| && AreDims(d)
    ensures IsStep(Sub, Cut(a, d), Turn(a, d), Decoded(a, d)) && All32(Cut(a, d), Turn(a, d), Decoded(a, d))
  {
    forall k | 0 <= k < |a|
      ensures Decoded(a, d)[k] == Cut(a, d)[k] - Turn(a, d)[k] && 0 <= Decoded(a, d)[k] <= d[k]
    {
      Slice.DecodeClamps(a[k], d[k]);
    }
  }

  // ----- sizes -----

  lemma FloorDivShrinks(x: int, y: int)
    requires y != 0
    ensures -Max(x, -x) <= FloorDiv(x, y) <= Max(x, -x)
  {
    var q, m := FloorDiv(x, y), Max(x, -x);
    FloorDivIsFloor(x, y);
    Signs(q, y);
    assert q <= m by { if q > m { MoreThan(q, m, y); } }
    assert -m <= q by { if q < -m { MoreThan(-q, m, y); } }
  }

  lemma MoreThan(q: int, m: int, y: int)
    requires q > m >= 0 && y != 0
    ensures y > 0 ==> q * y >= m + y
    ensures y < 0 ==> q * y <= -m + y
  {
    var p, a := q - 1, if y > 0 then y else -y;
    NonNegative(p, a - 1);
    assert p * (a - 1) == p * a - p;
    Signs(p, a);
    assert p * y == q * y - y;
  }

  lemma NonNegative(a: int, b: int)
    requires a >= 0 && b >= 0
    ensures a * b >= 0
  {
  }

  ghost predicate Bounds(s: seq<int>, e: seq<int>, t: seq<int>, h: seq<int>)
  {
    && |s| == |e| == |t| >= 1 && (|h| == 1 || |h| == |s|)
    && (forall k :: 0 <= k < |s| ==> 0 <= s[k] < INT32_MAX && 0 <= e[k] < INT32_MAX && t[k] != 0 && Fits64(t[k]))
    && forall k :: 0 <= k < |h| ==> 0 <= h[k] <= 1
  }

  function Sizes(s: seq<int>, e: seq<int>, t: seq<int>, h: seq<int>): (w: seq<int>)
    requires |s| == |e| == |t| && (|h| == 1 || |h| == |s|) && forall k :: 0 <= k < |t| ==> t[k] != 0
    ensures |w| == |s| && forall k :: 0 <= k < |s| ==> w[k] == Slice.Size(s[k], e[k], t[k], Entry(h, k))
  {
    seq(|s|, k requires 0 <= k < |s| => Slice.Size(s[k], e[k], t[k], Entry(h, k)))
  }

  function Spans(s: seq<int>, e: seq<int>): (w: seq<int>)
    requires |s| == |e|
    ensures |w| == |s| && forall k :: 0 <= k < |s| ==> w[k] == s[k] - e[k]
  {
    seq(|s|, k requires 0 <= k < |s| => s[k] - e[k])
  }

  function Quotients(w: seq<int>, t: seq<int>): (q: seq<int>)
    requires |w| == |t| && forall k :: 0 <= k < |t| ==> t[k] != 0
    ensures |q| == |w| && forall k :: 0 <= k < |w| ==> q[k] == FloorDiv(w[k], t[k])
  {
    seq(|w|, k requires 0 <= k < |w| => FloorDiv(w[k], t[k]))
  }

  /** All intermediate vectors of the size formula fit a layer. */
  lemma SizesFit(s: seq<int>, e: seq<int>, t: seq<int>, h: seq<int>)
    requires Bounds(s, e, t, h)
    ensures var q := Quotients(Spans(s, e), t);
      AllFit32(Spans(s, e)) && AllFit32(q) && AllFit32(Negated(q)) && AllFit32(Sizes(s, e, t, h))
  {
    forall k | 0 <= k < |s|
      ensures var f := FloorDiv(s[k] - e[k], t[k]); Fits32(f) && Fits32(-f) && Fits32(-f + Entry(h, k))
    {
      FloorDivShrinks(s[k] - e[k], t[k]);
    }
  }

  lemma UnitSizes(s: seq<int>, e: seq<int>, t: seq<int>)
    requires |s| == |e| == |t| && forall k :: 0 <= k < |t| ==> t[k] == 1
    ensures Sizes(s, e, t, [0]) == Spans(e, s)
  {
    forall k | 0 <= k < |s|
      ensures Slice.Size(s[k], e[k], 1, 0) == e[k] - s[k]
    {
      Slice.UnitStepShortcut(s[k], e[k]);
    }
  }

  /** The shortcut for unit steps and the general formula; only the shortcut drops the shift. */
  method ComputeSizes(starts: ShapeTensor, ends: ShapeTensor, steps: ShapeTensor, shift: ShapeTensor,
                      ghost s: seq<int>, ghost e: seq<int>, ghost t: seq<int>,
                        ghost h: seq<int>) returns (z: ShapeTensor)
    requires Bounds(s, e, t, h) && Is(starts, s) && Is(ends, e) && Is(steps, t) && Is(shift, h)
    requires starts !in {steps, shift} && ends !in {steps, shift}
    modifies starts`tensor, ends`tensor, steps`tensor, shift`tensor
    ensures Is(starts, s) && Is(steps, t)
    ensures fresh(z) && Is(z, Sizes(s, e, t, if old(steps.AllAre(1)) then [0] else h))
  {
    var unit := steps.IsAll(1);
    if unit {
      UnitSizes(s, e, t);
      z := Step(Sub, ends, starts, e, s, Spans(e, s));
    } else {
      SizesFit(s, e, t, h);
      var span := Step(Sub, starts, ends, s, e, Spans(s, e));
      z := Divide(span, steps, shift, s, e, t, h);
    }
  }

  /** A step beyond 32 bits divides a difference of positions as its clamped form does. */
  lemma QuotientIgnoresClamp(x: int, y: int)
    requires y != 0 && -INT32_MAX < x < INT32_MAX
    ensures FloorDiv(x, Clamp32(y)) == FloorDiv(x, y)
  {
    FloorDivIsFloor(x, y);
    FloorDivIsFloor(x, Clamp32(y));
    if !Fits32(y) {
      var q := if x == 0 || (x > 0) == (y > 0) then 0 else -1;
      FloorUnique(x, y, FloorDiv(x, y), q);
      FloorUnique(x, Clamp32(y), FloorDiv(x, Clamp32(y)), q);
    }
  }

  lemma QuotientSteps(w: seq<int>, t: seq<int>)
    requires |w| == |t| >= 1 && forall k :: 0 <= k < |w| ==> -INT32_MAX < w[k] < INT32_MAX && t[k] != 0
    ensures IsStep(FloorDivision, w, t, Quotients(w, t)) && IsStep(FloorDivision, w, Clamped(t), Quotients(w, t))
  {
    forall k | 0 <= k < |w|
      ensures FloorDiv(w[k], Clamped(t)[k]) == FloorDiv(w[k], t[k])
    {
      QuotientIgnoresClamp(w[k], t[k]);
    }
  }

  method DivideSpan(span: ShapeTensor, steps: ShapeTensor, ghost w: seq<int>, ghost t: seq<int>)
    returns (z: ShapeTensor)
    requires Is(span, w) && Is(steps, t) && |w| == |t| >= 1 && AllFit64(t)
    requires forall k :: 0 <= k < |w| ==> -INT32_MAX < w[k] < INT32_MAX && t[k] != 0
    requires AllFit32(Quotients(w, t))
    modifies span`tensor, steps`tensor
    ensures Is(steps, t)
    ensures fresh(z) && Is(z, Quotients(w, t))
  {
    QuotientSteps(w, t);
    StepIsElementWise(FloorDivision, w, t, Quotients(w, t));
    StepIsElementWise(FloorDivision, w, Clamped(t), Quotients(w, t));
    assert Clamped(w) == w;
    z := Op(span, steps, FloorDivision);
  }

  lemma DivideSteps(s: seq<int>, e: seq<int>, t: seq<int>, h: seq<int>, zeros: seq<int>)
    requires Bounds(s, e, t, h) && |zeros| == |s| && forall k :: 0 <= k < |zeros| ==> zeros[k] == 0
    ensures var w := Spans(s, e); var q := Quotients(w, t);
      && IsStep(Sub, zeros, q, Negated(q)) && All32(zeros, q, Negated(q))
      && IsStep(Sum, Negated(q), h, Sizes(s, e, t, h)) && All32(Negated(q), h, Sizes(s, e, t, h))
  {
    SizesFit(s, e, t, h);
  }

  method Divide(span: ShapeTensor, steps: ShapeTensor, shift: ShapeTensor,
                ghost s: seq<int>, ghost e: seq<int>, ghost t: seq<int>, ghost h: seq<int>) returns (z: ShapeTensor)
    requires Bounds(s, e, t, h) && Is(span, Spans(s, e)) && Is(steps, t) && Is(shift, h) && span !in {steps, shift}
    modifies span`tensor, steps`tensor, shift`tensor
    ensures Is(steps, t)
    ensures fresh(z) && Is(z, Sizes(s, e, t, h))
  {
    ghost var q := Quotients(Spans(s, e), t);
    DivideSteps(s, e, t, h, seq(|s|, k => 0));
    var quotient := DivideSpan(span, steps, Spans(s, e), t);
    var zeros := new ShapeTensor.Of(1, seq(span.size, k => 0));
    var negated := Step(Sub, zeros, quotient, seq(|s|, k => 0), q, Negated(q));
    z := Step(Sum, negated, shift, Negated(q), h, Sizes(s, e, t, h));
  }
}

/** Padding of transposed convolutions (3rdparty/onnx-tensorrt/builtin_op_importers.cpp and
    onnx2trt_utils.cpp): turning a requested output shape into pre, post and output padding. */
module DeconvPadding {

  /** One spatial axis: input length, stride, kernel length and dilation. */
  datatype Axis = Axis(input: int, stride: int, kernel: int, dilation: int)

  /** Output length before any padding is applied. */
  function Reach(a: Axis): int
  {
    (a.input - 1) * a.stride + (a.kernel - 1) * a.dilation + 1
  }

  /** Pre and post padding cut the output; output padding extends it. */
  function OutputLength(a: Axis, beg: int, end: int, out: int): int
  {
    Reach(a) - beg - end + out
  }

  /** Input position `x` and kernel position `k` contribute to position `p` of the full output. */
  predicate Touches(a: Axis, x: int, k: int, p: int)
  {
    0 <= x < a.input && 0 <= k < a.kernel && p == x * a.stride + k * a.dilation
  }

  /** The full output ends with the last position the transposed convolution contributes to. */
  lemma LastTouched(a: Axis, x: int, k: int, p: int)
    requires a.input >= 1 && a.kernel >= 1 && a.stride >= 1 && a.dilation >= 1
    ensures Touches(a, a.input - 1, a.kernel - 1, Reach(a) - 1)
    ensures Touches(a, x, k, p) ==> 0 <= p <= Reach(a) - 1
  {
    if Touches(a, x, k, p) {
      Grows(0, x, a.stride);
      Grows(0, k, a.dilation);
      Grows(x, a.input - 1, a.stride);
      Grows(k, a.kernel - 1, a.dilation);
    }
  }

  /** Padding takes positions off its two ends, output padding adds some. */
  lemma LengthIsCount(a: Axis, beg: int, end: int, out: int)
    ensures beg + OutputLength(a, beg, end, out) == Reach(a) - end + out
  {
  }

  lemma Grows(x: int, y: int, s: int)
    requires x <= y && s >= 0
    ensures x * s <= y * s
  {
    assert (y - x) * s == y * s - x * s;
  }

  datatype Status = Ok | Unsupported

  /** The branch for explicit padding. */
  method GeneratePadding(axes: seq<Axis>, shape: seq<int>, beg: seq<int>, end: array<int>, out: array<int>)
    requires |axes| == |shape| == |beg| == end.Length == out.Length && end != out
    modifies out
    ensures forall i :: 0 <= i < |axes| ==> OutputLength(axes[i], beg[i], end[i], out[i]) == shape[i]
  {
    for i := 0 to |axes|
      invariant forall k :: 0 <= k < i ==> OutputLength(axes[k], beg[k], end[k], out[k]) == shape[k]
    {
      var expected :=
        (axes[i].input - 1) * axes[i].stride + (axes[i].kernel - 1) * axes[i].dilation + 1 - beg[i] - end[i];
      out[i] := shape[i] - expected;
    }
  }

  /** Negative post padding becomes output padding; negative pre padding is refused. */
  method LiftNegative(beg: seq<int>, end: array<int>, out: array<int>) returns (status: Status)
    requires |beg| == end.Length == out.Length && end != out
    modifies end, out
    ensures status.Ok? <==> forall i :: 0 <= i < |beg| ==> beg[i] >= 0
    ensures status.Ok? ==> forall i :: 0 <= i < |beg| ==>
      if old(end[i]) < 0 then end[i] == 0 && out[i] == -old(end[i]) else end[i] == old(end[i]) && out[i] == old(out[i])
  {
    for i := 0 to |beg|
      invariant forall k :: 0 <= k < i ==> beg[k] >= 0
      invariant forall k :: 0 <= k < i ==>
        if old(end[k]) < 0 then end[k] == 0 && out[k] == -old(end[k]) else
          end[k] == old(end[k]) && out[k] == old(out[k])
      invariant forall k :: i <= k < |beg| ==> end[k] == old(end[k]) && out[k] == old(out[k])
    {
      if beg[i] < 0 {
        return Unsupported;
      }
      if end[i] < 0 {
        out[i] := end[i] * -1;
        end[i] := 0;
      }
    }
    return Ok;
  }

  /** At least one of the two is 0 and neither is negative. */
  predicate Settled(end: int, out: int) { end >= 0 && out >= 0 && (end == 0 || out == 0) }

  /** Output padding is taken out of post padding as far as that goes. */
  method Adjust(end: array<int>, out: array<int>) returns (hasOutputPadding: bool)
    requires end.Length == out.Length && end != out
    modifies end, out
    ensures forall i :: 0 <= i < end.Length ==> end[i] - out[i] == old(end[i]) - old(out[i])
    ensures forall i :: 0 <= i < end.Length ==> Settled(end[i], out[i])
    ensures hasOutputPadding <==> exists i :: 0 <= i < out.Length && out[i] != 0
  {
    hasOutputPadding := false;
    for i := 0 to end.Length
      invariant forall k :: 0 <= k < i ==> end[k] - out[k] == old(end[k]) - old(out[k]) && Settled(end[k], out[k])
      invariant forall k :: i <= k < end.Length ==> end[k] == old(end[k]) && out[k] == old(out[k])
      invariant hasOutputPadding <==> exists k :: 0 <= k < i && out[k] != 0
    {
      if end[i] - out[i] >= 0 {
        end[i] := end[i] - out[i];
        out[i] := 0;
      } else {
        out[i] := out[i] - end[i];
        end[i] := 0;
        hasOutputPadding := true;
      }
    }
  }

  /** Adjustment happens only when there is output padding on some axis. */
  method AdjustIfNeeded(end: array<int>, out: array<int>) returns (hasOutputPadding: bool)
    requires end.Length == out.Length && end != out
    modifies end, out
    ensures forall i :: 0 <= i < end.Length ==> end[i] - out[i] == old(end[i]) - old(out[i])
    ensures forall i :: 0 <= i < end.Length && old(end[i]) >= 0 ==> Settled(end[i], out[i])
    ensures hasOutputPadding <==> exists i :: 0 <= i < out.Length && out[i] != 0
  {
    hasOutputPadding := false;
    if exists i :: 0 <= i < out.Length && out[i] != 0 {
      hasOutputPadding := Adjust(end, out);
    }
  }

  /** The final padding for a requested output shape.  The length comes out as requested on an
      axis whose post padding was not negative; otherwise it is the length without any output
      padding, whatever was requested. */
  method PadToShape(axes: seq<Axis>, shape: seq<int>, beg: seq<int>, end: array<int>, out: array<int>)
    returns (status: Status, hasOutputPadding: bool)
    requires |axes| == |shape| == |beg| == end.Length == out.Length && end != out
    modifies end, out
    ensures status.Ok? <==> forall i :: 0 <= i < |beg| ==> beg[i] >= 0
    ensures status.Ok? ==> forall i :: 0 <= i < |axes| ==> Settled(end[i], out[i])
    ensures status.Ok? ==> forall i :: 0 <= i < |axes| ==>
      OutputLength(axes[i], beg[i], end[i], out[i]) ==
        if old(end[i]) >= 0 then shape[i] else OutputLength(axes[i], beg[i], old(end[i]), 0)
    ensures status.Ok? ==> (hasOutputPadding <==> exists i :: 0 <= i < out.Length && out[i] != 0)
  {
    hasOutputPadding := false;
    GeneratePadding(axes, shape, beg, end, out);
    ghost var before := out[..];
    status := LiftNegative(beg, end, out);
    if status.Ok? {
      assert forall i :: 0 <= i < |axes| ==> end[i] >= 0 && (old(end[i]) >= 0 ==> out[i] == before[i]);
      hasOutputPadding := AdjustIfNeeded(end, out);
    }
  }

  /** For example one more than that length is requested, and it comes out one short. */
  method NegativePostPadding(axis: Axis, end: int) returns (requested: int, length: int)
    requires end < 0
    ensures requested == OutputLength(axis, 0, end, 0) + 1 && length == requested - 1
  {
    requested := OutputLength(axis, 0, end, 0) + 1;
    var post, out := new int[1], new int[1];
    post[0] := end;
    var status, hasOutputPadding := PadToShape([axis], [requested], [0], post, out);
    length := OutputLength(axis, 0, post[0], out[0]);
  }
}

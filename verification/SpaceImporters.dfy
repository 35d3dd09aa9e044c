/** The two DepthToSpace importers (3rdparty/onnx-tensorrt/builtin_op_importers.cpp): one works
    on declared dimensions, where -1 stands for a length known at run time, the other on the
    run-time lengths themselves. */
module SpaceImporters {
  import opened AxisOrder
  import opened Permutations
  import opened RowMajor
  import opened SpaceBlocks
  import ShapeArithmetic

  const UNKNOWN := -1

  /** Integer division as in C++ and in the layer. */
  function Divided(c: int, b: int): int
    requires b >= 1
  {
    SquarePositive(b);
    ShapeArithmetic.Truncated(c, b * b)
  }

  /** From declared dimensions: the shapes are fixed when the network is built. */
  function StaticImport(dims: seq<int>, b: int, mode: Mode): Plan
    requires |dims| == 4 && b >= 1
  {
    var final := [dims[0], Divided(dims[1], b), dims[2] * b, dims[3] * b];
    match mode
    case DCR => Plan([dims[0], b, b, Divided(dims[1], b), dims[2], dims[3]], [0, 3, 4, 1, 5, 2], final)
    case CRD => Plan([dims[0], Divided(dims[1], b), b, b, dims[2], dims[3]], [0, 1, 4, 2, 5, 3], final)
  }

  /** From the lengths found at run time: each shape is joined from one-entry tensors. */
  function DynamicImport(shape: seq<int>, b: int, mode: Mode): Plan
    requires |shape| == 4 && b >= 1
  {
    var n, c, h, w := shape[0..1], shape[1..2], shape[2..3], shape[3..4];
    var block, k := [b], [Divided(c[0], b)];
    var first := if mode.DCR? then n + block + block + k + h + w else n + k + block + block + h + w;
    var perm := if mode.DCR? then [0, 3, 4, 1, 5, 2] else [0, 1, 4, 2, 5, 3];
    Plan(first, perm, n + k + [h[0] * block[0]] + [w[0] * block[0]])
  }

  /** The layers set up for a tensor declared as `declared` that has the lengths `actual`: only a
      length other than the batch that is unknown leads to the dynamic importer. */
  function Import(declared: seq<int>, actual: seq<int>, b: int, mode: Mode): Plan
    requires |declared| == |actual| == 4 && b >= 1
  {
    if declared[1] == UNKNOWN || declared[2] == UNKNOWN || declared[3] == UNKNOWN then DynamicImport(actual, b, mode)
    else StaticImport(declared, b, mode)
  }

  /** On the same lengths the two set up the same layers. */
  lemma SameLayers(d: seq<int>, b: int, mode: Mode)
    requires |d| == 4 && b >= 1
    ensures StaticImport(d, b, mode) == DynamicImport(d, b, mode) ==
      ToSpace(d[0], Divided(d[1], b), d[2], d[3], b, mode)
  {
  }

  predicate Matches(declared: seq<int>, actual: seq<int>)
  {
    |declared| == |actual| && forall i :: 0 <= i < |actual| ==> declared[i] == UNKNOWN || declared[i] == actual[i]
  }

  /** A reshape to `d` gives a tensor of `volume` elements the dimensions `e`. */
  ghost predicate Resolves(d: seq<int>, volume: int, e: seq<int>)
  {
    Matches(d, e) && Positive(e) && Volume(e) == volume
  }

  /** A missing leading length is determined by the number of elements. */
  lemma LeadingLength(d: seq<int>, volume: int, e: seq<int>, f: seq<int>)
    requires Resolves(d, volume, e) && Resolves(d, volume, f) && |d| >= 1 && forall i :: 1 <= i < |d| ==>
      d[i] != UNKNOWN
    ensures e == f
  {
    assert e[1..] == f[1..];
    var v := Volume(e[1..]);
    assert Positive(e[1..]);
    SameQuotient(e[0], f[0], v, 0, 0);
    assert e == [e[0]] + e[1..] && f == [f[0]] + f[1..];
  }

  lemma DividedPositive(c: int, b: int)
    requires c >= 1 && b >= 1
    ensures b * b >= 1 && Divided(c, b) == c / (b * b)
  {
    SquarePositive(b);
  }

  lemma PlanResolves(n: int, c: int, h: int, w: int, b: int, mode: Mode)
    requires n >= 1 && c >= 1 && h >= 1 && w >= 1 && b >= 1 && b * b >= 1 && c % (b * b) == 0
    ensures c / (b * b) >= 1
    ensures var p := DepthToSpace(n, c, h, w, b, mode); var v := Volume([n, c, h, w]);
      Positive(p.first) && Volume(p.first) == v && Positive(p.final) && Volume(p.final) == v
  {
    PlansAreLegal(n, c, h, w, b, mode);
    DivideOut(c, b * b);
    ToSpaceShape(n, c / (b * b), h, w, b, mode);
    PermuteKeepsVolume(DepthToSpace(n, c, h, w, b, mode).first, DepthToSpace(n, c, h, w, b, mode).perm);
  }

  lemma OnlyResolution(d: seq<int>, volume: int, e: seq<int>, f: seq<int>)
    requires Resolves(d, volume, e) && |d| >= 1 && forall i :: 1 <= i < |d| ==> d[i] != UNKNOWN
    ensures Resolves(d, volume, f) <==> f == e
  {
    if Resolves(d, volume, f) { LeadingLength(d, volume, e, f); }
  }

  /** At most the batch is missing in the shapes set up. */
  ghost predicate LeavesBatch(d: seq<int>, e: seq<int>)
  {
    Matches(d, e) && |d| >= 1 && forall i :: 1 <= i < |d| ==> d[i] != UNKNOWN
  }

  lemma LayersMatch(declared: seq<int>, n: int, c: int, h: int, w: int, b: int, mode: Mode)
    requires n >= 1 && c >= 1 && h >= 1 && w >= 1 && b >= 1 && b * b >= 1 && c / (b * b) >= 1
    requires Matches(declared, [n, c, h, w])
    ensures var plan := DepthToSpace(n, c, h, w, b, mode);
      var layers := Import(declared, [n, c, h, w], b, mode);
      layers.perm == plan.perm && LeavesBatch(layers.first, plan.first) && LeavesBatch(layers.final, plan.final)
  {
    DividedPositive(c, b);
    SameLayers([n, c, h, w], b, mode);
    SameLayers(declared, b, mode);
    Positives(h, w, b);
  }

  /** Whatever was declared, the layers do at run time what the plan for the actual lengths does. */
  lemma ImportersAgree(declared: seq<int>, n: int, c: int, h: int, w: int, b: int, mode: Mode, first: seq<int>,
      final: seq<int>)
    requires n >= 1 && c >= 1 && h >= 1 && w >= 1 && b >= 1 && b * b >= 1 && c % (b * b) == 0
    requires Matches(declared, [n, c, h, w])
    ensures
      var plan := DepthToSpace(n, c, h, w, b, mode);
      var layers := Import(declared, [n, c, h, w], b, mode);
      var v := Volume([n, c, h, w]);
      && layers.perm == plan.perm
      && (Resolves(layers.first, v, first) <==> first == plan.first)
      && (Resolves(layers.final, v, final) <==> final == plan.final)
  {
    var plan := DepthToSpace(n, c, h, w, b, mode);
    var layers := Import(declared, [n, c, h, w], b, mode);
    var v := Volume([n, c, h, w]);
    PlanResolves(n, c, h, w, b, mode);
    LayersMatch(declared, n, c, h, w, b, mode);
    OnlyResolution(layers.first, v, plan.first, first);
    OnlyResolution(layers.final, v, plan.final, final);
  }

  lemma Positives(h: int, w: int, b: int)
    requires h >= 1 && w >= 1 && b >= 1
    ensures h * b >= 1 && w * b >= 1
  {
  }
}

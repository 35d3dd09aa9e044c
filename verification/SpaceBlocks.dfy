/** DepthToSpace and SpaceToDepth as reshape, transpose, reshape
    (3rdparty/onnx-tensorrt/builtin_op_importers.cpp). */
module SpaceBlocks {
  import opened AxisOrder
  import opened Permutations
  import opened RowMajor

  datatype Mode = DCR | CRD

  /** The three layers: reshape to `first`, permute by `perm`, reshape to `final`. */
  datatype Plan = Plan(first: seq<int>, perm: seq<int>, final: seq<int>)

  /** DepthToSpace to `k` channels. */
  function ToSpace(n: int, k: int, h: int, w: int, b: int, mode: Mode): (p: Plan)
  {
    Plan(
      if mode.DCR? then [n, b, b, k, h, w] else [n, k, b, b, h, w],
      if mode.DCR? then [0, 3, 4, 1, 5, 2] else [0, 1, 4, 2, 5, 3],
      [n, k, h * b, w * b])
  }

  /** SpaceToDepth to `m` channels of size `h` by `w`. */
  function ToDepth(n: int, c: int, m: int, h: int, w: int, b: int): (p: Plan)
  {
    Plan([n, c, h, b, w, b], [0, 3, 5, 1, 2, 4], [n, m, h, w])
  }

  function DepthToSpace(n: int, c: int, h: int, w: int, b: int, mode: Mode): (p: Plan)
    requires b >= 1
  {
    ToSpace(n, c / (b * b), h, w, b, mode)
  }

  function SpaceToDepth(n: int, c: int, h: int, w: int, b: int): (p: Plan)
    requires b >= 1
  {
    ToDepth(n, c, c * (b * b), h / b, w / b, b)
  }

  // ----- merging neighbouring axes -----

  /** `e`, `y` are `d`, `x` with axes `k` and `k + 1` joined. */
  predicate Joins(d: seq<int>, x: seq<int>, k: nat, e: seq<int>, y: seq<int>)
  {
    && k + 1 < |d| == |x| && |e| == |y| == |d| - 1
    && (forall i :: 0 <= i < k ==> e[i] == d[i] && y[i] == x[i])
    && e[k] == d[k] * d[k + 1] && y[k] == x[k] * d[k + 1] + x[k + 1]
    && forall i :: k < i < |e| ==> e[i] == d[i + 1] && y[i] == x[i + 1]
  }

  /** A reshape that joins two neighbouring axes keeps volume and positions. */
  lemma {:induction false} JoinKeepsOffset(d: seq<int>, x: seq<int>, k: nat, e: seq<int>, y: seq<int>)
    requires Joins(d, x, k, e, y)
    ensures Volume(e) == Volume(d) && Offset(e, y) == Offset(d, x)
    decreases k
  {
    if k == 0 {
      assert e[1..] == d[1..][1..] && y[1..] == x[1..][1..];
      MergeStep(d[0], d[1], x[0], x[1], Volume(e[1..]));
    } else {
      assert Joins(d[1..], x[1..], k - 1, e[1..], y[1..]);
      JoinKeepsOffset(d[1..], x[1..], k - 1, e[1..], y[1..]);
    }
  }

  lemma MergeStep(d0: int, d1: int, x0: int, x1: int, v: int)
    ensures Product(d0 * d1, v) == Product(d0, Product(d1, v))
    ensures Product(x0 * d1 + x1, v) == Product(x0, Product(d1, v)) + Product(x1, v)
  {
    assert (d0 * d1) * v == d0 * (d1 * v);
    assert (x0 * d1 + x1) * v == x0 * (d1 * v) + x1 * v;
  }

  // ----- sizes -----

  lemma DivideOut(c: int, q: int)
    requires q >= 1 && c >= 1 && c % q == 0
    ensures c / q >= 1 && q * (c / q) == c
  {
  }

  lemma MultiplyDivide(c: int, q: int)
    requires q >= 1
    ensures (c * q) / q == c && (c * q) % q == 0
  {
    assert c * q == q * c + 0;
    DivUnique(c * q, q, c, 0);
  }

  lemma DivUnique(a: int, q: int, c: int, r: int)
    requires q >= 1 && a == q * c + r && 0 <= r < q
    ensures a / q == c && a % q == r
  {
    SameQuotient(a / q, c, q, a % q, r);
  }

  lemma SquarePositive(b: int)
    requires b >= 1
    ensures b * b >= 1
  {
  }

  lemma MulAtLeastOne(a: int, b: int)
    requires a >= 1 && b >= 1
    ensures a * b >= 1
  {
  }

  /** Two joins in a row; `mid` is the shape in between. */
  lemma JoinTwice(d: seq<int>, x: seq<int>, k: nat, mid: seq<int>, z: seq<int>, m: nat, e: seq<int>, y: seq<int>)
    requires Joins(d, x, k, mid, z) && Joins(mid, z, m, e, y)
    ensures Volume(e) == Volume(d) && Offset(e, y) == Offset(d, x)
  {
    JoinKeepsOffset(d, x, k, mid, z);
    JoinKeepsOffset(mid, z, m, e, y);
  }

  lemma MergeChannelsDCR(n: int, c: int, h: int, w: int, b: int, b2: int, x: seq<int>, i: int)
    requires |x| == 6 && b2 == b * b && i == x[1] * b + x[2]
    ensures Volume([n, b2 * c, h, w]) == Volume([n, b, b, c, h, w])
    ensures Offset([n, b2 * c, h, w], [x[0], i * c + x[3], x[4], x[5]]) == Offset([n, b, b, c, h, w], x)
  {
    var d, mid, e := [n, b, b, c, h, w], [n, b2, c, h, w], [n, b2 * c, h, w];
    var z, y := [x[0], i, x[3], x[4], x[5]], [x[0], i * c + x[3], x[4], x[5]];
    JoinTwice(d, x, 1, mid, z, 1, e, y);
  }

  lemma MergeChannelsCRD(n: int, c: int, h: int, w: int, b: int, b2: int, x: seq<int>, i: int)
    requires |x| == 6 && b2 == b * b && i == x[2] * b + x[3]
    ensures Volume([n, c * b2, h, w]) == Volume([n, c, b, b, h, w])
    ensures Offset([n, c * b2, h, w], [x[0], x[1] * b2 + i, x[4], x[5]]) == Offset([n, c, b, b, h, w], x)
  {
    var d, mid, e := [n, c, b, b, h, w], [n, c, b2, h, w], [n, c * b2, h, w];
    var z, y := [x[0], x[1], i, x[4], x[5]], [x[0], x[1] * b2 + i, x[4], x[5]];
    JoinTwice(d, x, 2, mid, z, 1, e, y);
  }

  lemma MergeSpace(n: int, c: int, h: int, w: int, b: int, x: seq<int>)
    requires |x| == 6
    ensures Volume([n, c, h * b, w * b]) == Volume([n, c, h, b, w, b])
    ensures Offset([n, c, h * b, w * b], [x[0], x[1], x[2] * b + x[3], x[4] * b + x[5]]) ==
      Offset([n, c, h, b, w, b], x)
  {
    var d, mid, e := [n, c, h, b, w, b], [n, c, h * b, w, b], [n, c, h * b, w * b];
    var z, y := [x[0], x[1], x[2] * b + x[3], x[4], x[5]], [x[0], x[1], x[2] * b + x[3], x[4] * b + x[5]];
    JoinTwice(d, x, 2, mid, z, 3, e, y);
  }

  /** The plan can be carried out on a tensor of dimensions `dims`: reshapes keep the number
      of elements. */
  ghost predicate Legal(dims: seq<int>, p: Plan)
  {
    && Positive(p.first) && IsPerm(p.perm, |p.first|) && Positive(p.final)
    && Volume(p.first) == Volume(dims)
    && Volume(p.final) == Volume(Permute(p.first, p.perm))
  }

  /** The output data of a plan. */
  ghost predicate Runs<T>(p: Plan, data: seq<T>, out: seq<T>)
    requires Positive(p.first) && IsPerm(p.perm, |p.first|)
  {
    IsTransposed(p.first, p.perm, data, out)
  }

  lemma ToSpaceShape(n: int, k: int, h: int, w: int, b: int, mode: Mode)
    requires n >= 1 && k >= 1 && h >= 1 && w >= 1 && b >= 1
    ensures var p := ToSpace(n, k, h, w, b, mode);
      && Positive(p.first) && IsPerm(p.perm, |p.first|) && Positive(p.final)
      && Permute(p.first, p.perm) == [n, k, h, b, w, b]
  {
    MulAtLeastOne(h, b);
    MulAtLeastOne(w, b);
  }

  lemma ToSpaceLegal(n: int, c: int, k: int, h: int, w: int, b: int, b2: int, mode: Mode)
    requires n >= 1 && k >= 1 && h >= 1 && w >= 1 && b >= 1 && b2 == b * b && c == b2 * k
    ensures Legal([n, c, h, w], ToSpace(n, k, h, w, b, mode))
  {
    var zero := [0, 0, 0, 0, 0, 0];
    ToSpaceShape(n, k, h, w, b, mode);
    MergeSpace(n, k, h, w, b, zero);
    if mode.DCR? {
      MergeChannelsDCR(n, k, h, w, b, b2, zero, 0);
    } else {
      MergeChannelsCRD(n, k, h, w, b, b2, zero, 0);
      Commute(k, b2);
    }
  }

  lemma Commute(a: int, b: int)
    ensures a * b == b * a
  {
  }

  lemma ToDepthShape(n: int, c: int, m: int, h: int, w: int, b: int)
    requires n >= 1 && c >= 1 && m >= 1 && h >= 1 && w >= 1 && b >= 1
    ensures var p := ToDepth(n, c, m, h, w, b);
      && Positive(p.first) && IsPerm(p.perm, |p.first|) && Positive(p.final)
      && Permute(p.first, p.perm) == [n, b, b, c, h, w]
  {
  }

  lemma ToDepthLegal(n: int, c: int, m: int, h: int, w: int, b: int, b2: int)
    requires n >= 1 && c >= 1 && m >= 1 && h >= 1 && w >= 1 && b >= 1 && b2 == b * b && m == b2 * c
    ensures Legal([n, c, h * b, w * b], ToDepth(n, c, m, h, w, b))
  {
    var zero := [0, 0, 0, 0, 0, 0];
    ToDepthShape(n, c, m, h, w, b);
    MergeSpace(n, c, h, w, b, zero);
    MergeChannelsDCR(n, c, h, w, b, b2, zero, 0);
  }

  /** With the divisibility ONNX asks for, the importers' plans can be carried out. */
  lemma PlansAreLegal(n: int, c: int, h: int, w: int, b: int, mode: Mode)
    requires n >= 1 && c >= 1 && h >= 1 && w >= 1 && b >= 1
    ensures c % (b * b) == 0 ==> Legal([n, c, h, w], DepthToSpace(n, c, h, w, b, mode))
    ensures h % b == 0 && w % b == 0 ==> Legal([n, c, h, w], SpaceToDepth(n, c, h, w, b))
  {
    var b2 := b * b;
    SquarePositive(b);
    if c % b2 == 0 {
      DivideOut(c, b2);
      ToSpaceLegal(n, c, c / b2, h, w, b, b2, mode);
    }
    if h % b == 0 && w % b == 0 {
      DivideOut(h, b);
      DivideOut(w, b);
      Commute(b2, c);
      MulAtLeastOne(c, b2);
      ToDepthLegal(n, c, c * b2, h / b, w / b, b, b2);
      Commute(b, h / b);
      Commute(b, w / b);
    }
  }

  // ----- what the plans compute -----

  /** The channel DepthToSpace reads for block offset `i`, `j` and output channel `xc`: the
      offset is the slow part of the channel in DCR mode and the fast part in CRD mode. */
  function SourceChannel(k: int, b: int, mode: Mode, xc: int, i: int, j: int): int
  {
    if mode.DCR? then (i * b + j) * k + xc else xc * (b * b) + (i * b + j)
  }

  ghost predicate SameAt<T>(data: seq<T>, from: int, out: seq<T>, to: int)
  {
    0 <= from < |data| && 0 <= to < |out| && out[to] == data[from]
  }

  lemma ToSpaceElements<T>(n: int, c: int, k: int, h: int, w: int, b: int, b2: int, mode: Mode, data: seq<T>,
      out: seq<T>,
    xn: int, xc: int, xh: int, xw: int, i: int, j: int)
    requires n >= 1 && k >= 1 && h >= 1 && w >= 1 && b >= 1 && b2 == b * b && c == b2 * k
    requires Legal([n, c, h, w], ToSpace(n, k, h, w, b, mode)) && Runs(ToSpace(n, k, h, w, b, mode), data, out)
    requires 0 <= xn < n && 0 <= xc < k && 0 <= xh < h && 0 <= xw < w && 0 <= i < b && 0 <= j < b
    ensures SameAt(data, Offset([n, c, h, w], [xn, SourceChannel(k, b, mode, xc, i, j), xh, xw]),
                   out, Offset([n, k, h * b, w * b], [xn, xc, xh * b + i, xw * b + j]))
  {
    var x, y := BlockIndex(mode, xn, xc, xh, xw, i, j), [xn, xc, xh, i, xw, j];
    BlockFrom(n, c, k, h, w, b, b2, mode, xn, xc, xh, xw, i, j);
    BlockTo(n, k, h, w, b, xn, xc, xh, xw, i, j);
    BlockShape(n, k, h, w, b, mode, xn, xc, xh, xw, i, j);
    BlockMoves(n, k, h, w, b, mode, data, out, x, y);
  }

  /** The six-dimensional coordinate of an element before the transpose. */
  function BlockIndex(mode: Mode, xn: int, xc: int, xh: int, xw: int, i: int, j: int): (x: seq<int>)
  {
    if mode.DCR? then [xn, i, j, xc, xh, xw] else [xn, xc, i, j, xh, xw]
  }

  lemma BlockShape(n: int, k: int, h: int, w: int, b: int, mode: Mode, xn: int, xc: int, xh: int, xw: int, i: int,
      j: int)
    requires 0 <= xn < n && 0 <= xc < k && 0 <= xh < h && 0 <= xw < w && 0 <= i < b && 0 <= j < b
    ensures var p, x := ToSpace(n, k, h, w, b, mode), BlockIndex(mode, xn, xc, xh, xw, i, j);
      InBounds(p.first, x) && Permute(x, p.perm) == [xn, xc, xh, i, xw, j]
  {
  }

  lemma BlockMoves<T>(n: int, k: int, h: int, w: int, b: int, mode: Mode, data: seq<T>, out: seq<T>, x: seq<int>,
      y: seq<int>)
    requires n >= 1 && k >= 1 && h >= 1 && w >= 1 && b >= 1
    requires Positive(ToSpace(n, k, h, w, b, mode).first) && Runs(ToSpace(n, k, h, w, b, mode), data, out)
    requires |x| == 6 && |y| == 6 && InBounds(ToSpace(n, k, h, w, b, mode).first, x)
    requires Permute(x, ToSpace(n, k, h, w, b, mode).perm) == y
    ensures SameAt(data, Offset(ToSpace(n, k, h, w, b, mode).first, x), out, Offset([n, k, h, b, w, b], y))
  {
    var p := ToSpace(n, k, h, w, b, mode);
    ToSpaceShape(n, k, h, w, b, mode);
    assert Moved(p.first, p.perm, data, out, x);
    OffsetRange(p.first, x);
    OffsetRange(Permute(p.first, p.perm), y);
  }

  lemma BlockFrom(n: int, c: int, k: int, h: int, w: int, b: int, b2: int, mode: Mode, xn: int, xc: int, xh: int,
      xw: int, i: int, j: int)
    requires b2 == b * b && c == b2 * k
    ensures Offset([n, c, h, w], [xn, SourceChannel(k, b, mode, xc, i, j), xh, xw]) ==
      Offset(ToSpace(n, k, h, w, b, mode).first, BlockIndex(mode, xn, xc, xh, xw, i, j))
  {
    if mode.DCR? { FromDCR(n, c, k, h, w, b, b2, xn, xc, xh, xw, i, j); } else
      { FromCRD(n, c, k, h, w, b, b2, xn, xc, xh, xw, i, j); }
  }

  lemma FromDCR(n: int, c: int, k: int, h: int, w: int, b: int, b2: int, xn: int, xc: int, xh: int, xw: int, i: int,
      j: int)
    requires b2 == b * b && c == b2 * k
    ensures Offset([n, c, h, w], [xn, SourceChannel(k, b, DCR, xc, i, j), xh, xw]) ==
      Offset(ToSpace(n, k, h, w, b, DCR).first, BlockIndex(DCR, xn, xc, xh, xw, i, j))
  {
    MergeChannelsDCR(n, k, h, w, b, b2, [xn, i, j, xc, xh, xw], i * b + j);
  }

  lemma FromCRD(n: int, c: int, k: int, h: int, w: int, b: int, b2: int, xn: int, xc: int, xh: int, xw: int, i: int,
      j: int)
    requires b2 == b * b && c == b2 * k
    ensures Offset([n, c, h, w], [xn, SourceChannel(k, b, CRD, xc, i, j), xh, xw]) ==
      Offset(ToSpace(n, k, h, w, b, CRD).first, BlockIndex(CRD, xn, xc, xh, xw, i, j))
  {
    Commute(k, b2);
    MergeChannelsCRD(n, k, h, w, b, b2, [xn, xc, i, j, xh, xw], i * b + j);
  }

  lemma BlockTo(n: int, k: int, h: int, w: int, b: int, xn: int, xc: int, xh: int, xw: int, i: int, j: int)
    ensures Offset([n, k, h * b, w * b], [xn, xc, xh * b + i, xw * b + j]) ==
      Offset([n, k, h, b, w, b], [xn, xc, xh, i, xw, j])
  {
    MergeSpace(n, k, h, w, b, [xn, xc, xh, i, xw, j]);
  }

  /** DepthToSpace, element for element, as the ONNX operator defines it. */
  lemma DepthToSpaceElements<T>(n: int, c: int, h: int, w: int, b: int, mode: Mode, data: seq<T>, out: seq<T>,
    xn: int, xc: int, xh: int, xw: int, i: int, j: int)
    requires n >= 1 && c >= 1 && h >= 1 && w >= 1 && b >= 1 && c % (b * b) == 0
    requires Legal([n, c, h, w], DepthToSpace(n, c, h, w, b, mode)) &&
      Runs(DepthToSpace(n, c, h, w, b, mode), data, out)
    requires 0 <= xn < n && 0 <= xc < c / (b * b) && 0 <= xh < h && 0 <= xw < w && 0 <= i < b && 0 <= j < b
    ensures DepthToSpace(n, c, h, w, b, mode).final == [n, c / (b * b), h * b, w * b]
    ensures mode == DCR ==>
      SameAt(data, Offset([n, c, h, w], [xn, (i * b + j) * (c / (b * b)) + xc, xh, xw]),
             out, Offset([n, c / (b * b), h * b, w * b], [xn, xc, xh * b + i, xw * b + j]))
    ensures mode == CRD ==>
      SameAt(data, Offset([n, c, h, w], [xn, xc * (b * b) + (i * b + j), xh, xw]),
             out, Offset([n, c / (b * b), h * b, w * b], [xn, xc, xh * b + i, xw * b + j]))
  {
    SquarePositive(b);
    DivideOut(c, b * b);
    ToSpaceElements(n, c, c / (b * b), h, w, b, b * b, mode, data, out, xn, xc, xh, xw, i, j);
  }

  // ----- mutual inverses -----

  lemma ToDepthUndoes<T>(n: int, k: int, m: int, h: int, w: int, b: int, data: seq<T>, mid: seq<T>, out: seq<T>)
    requires n >= 1 && k >= 1 && m >= 1 && h >= 1 && w >= 1 && b >= 1
    requires Positive(ToSpace(n, k, h, w, b, DCR).first) && Runs(ToSpace(n, k, h, w, b, DCR), data, mid)
    requires Positive(ToDepth(n, k, m, h, w, b).first) && Runs(ToDepth(n, k, m, h, w, b), mid, out)
    ensures out == data
  {
    var p, back := ToSpace(n, k, h, w, b, DCR), ToDepth(n, k, m, h, w, b);
    ToSpaceShape(n, k, h, w, b, DCR);
    TransposeBack(p.first, p.perm, back.perm, data, mid, out);
  }

  lemma ToSpaceUndoes<T>(n: int, c: int, m: int, h: int, w: int, b: int, data: seq<T>, mid: seq<T>, out: seq<T>)
    requires n >= 1 && c >= 1 && m >= 1 && h >= 1 && w >= 1 && b >= 1
    requires Positive(ToDepth(n, c, m, h, w, b).first) && Runs(ToDepth(n, c, m, h, w, b), data, mid)
    requires Positive(ToSpace(n, c, h, w, b, DCR).first) && Runs(ToSpace(n, c, h, w, b, DCR), mid, out)
    ensures out == data
  {
    var p, back := ToDepth(n, c, m, h, w, b), ToSpace(n, c, h, w, b, DCR);
    ToDepthShape(n, c, m, h, w, b);
    TransposeBack(p.first, p.perm, back.perm, data, mid, out);
  }

  /** SpaceToDepth on the result of DepthToSpace in DCR mode: same shape, same elements. */
  lemma SpaceToDepthUndoes<T>(n: int, c: int, h: int, w: int, b: int, data: seq<T>, mid: seq<T>, out: seq<T>)
    requires n >= 1 && c >= 1 && h >= 1 && w >= 1 && b >= 1 && c % (b * b) == 0
    requires Legal([n, c, h, w], DepthToSpace(n, c, h, w, b, DCR)) && Runs(DepthToSpace(n, c, h, w, b, DCR), data, mid)
    requires var back := SpaceToDepth(n, c / (b * b), h * b, w * b, b);
      Legal([n, c / (b * b), h * b, w * b], back) && Runs(back, mid, out)
    ensures out == data && SpaceToDepth(n, c / (b * b), h * b, w * b, b).final == [n, c, h, w]
  {
    var k := c / (b * b);
    SquarePositive(b);
    DivideOut(c, b * b);
    Commute(b * b, k);
    MultiplyDivide(h, b);
    MultiplyDivide(w, b);
    ToDepthUndoes(n, k, c, h, w, b, data, mid, out);
  }

  /** DepthToSpace in DCR mode on the result of SpaceToDepth: same shape, same elements. */
  lemma DepthToSpaceUndoes<T>(n: int, c: int, h: int, w: int, b: int, data: seq<T>, mid: seq<T>, out: seq<T>)
    requires n >= 1 && c >= 1 && h >= 1 && w >= 1 && b >= 1 && h % b == 0 && w % b == 0
    requires Legal([n, c, h, w], SpaceToDepth(n, c, h, w, b)) && Runs(SpaceToDepth(n, c, h, w, b), data, mid)
    requires var back := DepthToSpace(n, c * (b * b), h / b, w / b, b, DCR);
      Legal([n, c * (b * b), h / b, w / b], back) && Runs(back, mid, out)
    ensures out == data && DepthToSpace(n, c * (b * b), h / b, w / b, b, DCR).final == [n, c, h, w]
  {
    SquarePositive(b);
    MultiplyDivide(c, b * b);
    DivideOut(h, b);
    DivideOut(w, b);
    Commute(b, h / b);
    Commute(b, w / b);
    MulAtLeastOne(c, b * b);
    ToSpaceUndoes(n, c, c * (b * b), h / b, w / b, b, data, mid, out);
  }
}

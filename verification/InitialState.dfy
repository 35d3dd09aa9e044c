/** The byte loops that bring an LSTM's initial state from [directions, batch, hidden] to
    [batch, directions, hidden] (3rdparty/onnx-tensorrt/onnx2trt_utils.cpp). */
module InitialState {
  import opened AxisOrder
  import opened Permutations
  import opened RowMajor

  // ----- filling a buffer in the order of the source -----

  /** Every element of the source before position `c` is at its place in the buffer. */
  ghost predicate Filled<T>(d: seq<int>, perm: seq<int>, data: seq<T>, out: seq<T>, c: int)
    requires Positive(d) && IsPerm(perm, |d|)
  {
    && |data| == Volume(d) && |out| == Volume(Permute(d, perm))
    && forall x :: InBounds(d, x) && Offset(d, x) < c ==> Moved(d, perm, data, out, x)
  }

  lemma FillStep<T>(d: seq<int>, perm: seq<int>, data: seq<T>, out: seq<T>, x: seq<int>, p: int, q: int)
    requires Positive(d) && IsPerm(perm, |d|) && InBounds(d, x) && p == Offset(d, x)
    requires q == Offset(Permute(d, perm), Permute(x, perm)) && Filled(d, perm, data, out, p)
    ensures 0 <= p < |data| && 0 <= q < |out| && Filled(d, perm, data, out[q := data[p]], p + 1)
  {
    OffsetRange(d, x);
    OffsetRange(Permute(d, perm), Permute(x, perm));
    var next := out[q := data[p]];
    forall y | InBounds(d, y) && Offset(d, y) < p + 1
      ensures Moved(d, perm, data, next, y)
    {
      OffsetRange(d, y);
      OffsetRange(Permute(d, perm), Permute(y, perm));
      if Offset(d, y) == p {
        OffsetInjective(d, x, y);
      } else {
        assert Moved(d, perm, data, out, y);
        if Offset(Permute(d, perm), Permute(y, perm)) == q { PermutedApart(d, perm, x, y); }
      }
    }
  }

  lemma FilledIsTransposed<T>(d: seq<int>, perm: seq<int>, data: seq<T>, out: seq<T>)
    requires Positive(d) && IsPerm(perm, |d|) && Filled(d, perm, data, out, Volume(d))
    ensures IsTransposed(d, perm, data, out)
  {
    forall x | InBounds(d, x)
      ensures Moved(d, perm, data, out, x)
    {
      OffsetRange(d, x);
    }
  }

  // ----- the index arithmetic of the loops -----

  function Src(b: nat, h: nat, s: nat, i: nat, j: nat, k: nat, l: nat): int
  {
    i * b * h * s + j * h * s + k * s + l
  }

  function Buf(n: nat, h: nat, s: nat, i: nat, j: nat, k: nat, l: nat): int
  {
    j * n * h * s + i * h * s + k * s + l
  }

  lemma Volume4(d: seq<int>)
    requires |d| == 4
    ensures Volume(d) == d[0] * d[1] * d[2] * d[3] && Volume(d[1..]) == d[1] * d[2] * d[3]
  {
    Volume3(d[1..]);
    Regroup(d[0], d[1], d[2], d[3]);
  }

  lemma Volume3(d: seq<int>)
    requires |d| == 3
    ensures Volume(d) == d[0] * d[1] * d[2] && Volume(d[1..]) == d[1] * d[2]
  {
    var e := d[1..];
    assert e[1..][1..] == [];
    assert Volume(e[1..]) == e[1] * Volume([]);
    assert Volume(e) == e[0] * e[1];
    Regroup(1, d[0], d[1], d[2]);
  }

  lemma Regroup(a: int, b: int, c: int, d: int)
    ensures a * (b * c * d) == a * b * c * d && b * (c * d) == b * c * d
  {
  }

  lemma Offset3(d: seq<int>, x: seq<int>)
    requires |d| == 3 && |x| == 3
    ensures Offset(d, x) == x[0] * d[1] * d[2] + x[1] * d[2] + x[2]
  {
    Volume3(d);
    var e, y := d[1..], x[1..];
    assert e[1..][1..] == [] && y[1..][1..] == [];
    assert Volume(e[1..]) == e[1] * Volume([]);
    assert Offset(e[1..], y[1..]) == y[1] * Volume([]) + Offset([], []);
    assert Offset(e, y) == y[0] * e[1] + y[1];
    Regroup(1, x[0], d[1], d[2]);
  }

  lemma Offset4(d: seq<int>, x: seq<int>)
    requires |d| == 4 && |x| == 4
    ensures Offset(d, x) == x[0] * d[1] * d[2] * d[3] + x[1] * d[2] * d[3] + x[2] * d[3] + x[3]
  {
    Volume4(d);
    Offset3(d[1..], x[1..]);
    Regroup(x[0], d[1], d[2], d[3]);
  }

  function Dims(n: int, b: int, h: int, s: int): seq<int> { [n, b, h, s] }

  /** Directions and batch change places. */
  const SWAP: seq<int> := [1, 0, 2, 3]

  lemma SwapDims(n: int, b: int, h: int, s: int)
    ensures IsPerm(SWAP, 4) && Permute(Dims(n, b, h, s), SWAP) == Dims(b, n, h, s)
  {
  }

  lemma IndicesAreOffsets(n: nat, b: nat, h: nat, s: nat, i: nat, j: nat, k: nat, l: nat)
    ensures IsPerm(SWAP, 4) && Permute(Dims(n, b, h, s), SWAP) == Dims(b, n, h, s) &&
      Permute(Dims(i, j, k, l), SWAP) == Dims(j, i, k, l)
    ensures Offset(Dims(n, b, h, s), Dims(i, j, k, l)) == Src(b, h, s, i, j, k, l)
    ensures Offset(Dims(b, n, h, s), Dims(j, i, k, l)) == Buf(n, h, s, i, j, k, l)
  {
    SwapDims(n, b, h, s);
    SwapDims(i, j, k, l);
    Offset4(Dims(n, b, h, s), Dims(i, j, k, l));
    Offset4(Dims(b, n, h, s), Dims(j, i, k, l));
  }

  lemma Carries(b: nat, h: nat, s: nat, i: nat, j: nat, k: nat)
    ensures Src(b, h, s, i, j, k, s) == Src(b, h, s, i, j, k + 1, 0)
    ensures Src(b, h, s, i, j, h, 0) == Src(b, h, s, i, j + 1, 0, 0)
    ensures Src(b, h, s, i, b, 0, 0) == Src(b, h, s, i + 1, 0, 0, 0)
  {
    CarryOne(k, s);
    Regroup(1, j, h, s);
    Regroup(1, j + 1, h, s);
    CarryOne(j, h * s);
    Regroup(i, b, h, s);
    Regroup(i + 1, b, h, s);
    CarryOne(i, b * h * s);
  }

  lemma CarryOne(k: int, s: int)
    ensures (k + 1) * s == k * s + s
  {
  }

  // ----- the loops -----

  ghost predicate Copied<T>(n: nat, b: nat, h: nat, s: nat, data: seq<T>, out: seq<T>, c: int)
  {
    n > 0 && b > 0 && h > 0 && s > 0 ==> IsPerm(SWAP, 4) && Filled(Dims(n, b, h, s), SWAP, data, out, c)
  }

  lemma CopyAt<T>(n: nat, b: nat, h: nat, s: nat, data: seq<T>, out: seq<T>, x: seq<int>, p: int, q: int)
    requires InBounds(Dims(n, b, h, s), x) && Copied(n, b, h, s, data, out, p) && p == Offset(Dims(n, b, h, s), x)
    requires IsPerm(SWAP, 4) && q == Offset(Permute(Dims(n, b, h, s), SWAP), Permute(x, SWAP))
    ensures 0 <= p < |data| && 0 <= q < |out| && Copied(n, b, h, s, data, out[q := data[p]], p + 1)
  {
    assert 0 <= x[0] < n && 0 <= x[1] < b && 0 <= x[2] < h && 0 <= x[3] < s;
    FillStep(Dims(n, b, h, s), SWAP, data, out, x, p, q);
  }

  lemma CopyStep<T>(n: nat, b: nat, h: nat, s: nat, data: seq<T>, out: seq<T>, i: nat, j: nat, k: nat, l: nat)
    requires i < n && j < b && k < h && l < s && Copied(n, b, h, s, data, out, Src(b, h, s, i, j, k, l))
    ensures var p, q := Src(b, h, s, i, j, k, l), Buf(n, h, s, i, j, k, l);
      0 <= p < |data| && 0 <= q < |out| && Copied(n, b, h, s, data, out[q := data[p]], Src(b, h, s, i, j, k, l + 1))
  {
    IndicesAreOffsets(n, b, h, s, i, j, k, l);
    CopyAt(n, b, h, s, data, out, Dims(i, j, k, l), Src(b, h, s, i, j, k, l), Buf(n, h, s, i, j, k, l));
  }

  lemma FillStart<T>(d: seq<int>, perm: seq<int>, data: seq<T>, out: seq<T>)
    requires Positive(d) && IsPerm(perm, |d|) && |data| == Volume(d) && |out| == Volume(Permute(d, perm))
    ensures Filled(d, perm, data, out, 0)
  {
    forall x | InBounds(d, x)
      ensures Offset(d, x) >= 0
    {
      OffsetRange(d, x);
    }
  }

  lemma Volumes(n: int, b: int, h: int, s: int, v: int)
    requires v == n * b * h * s
    ensures Volume(Dims(n, b, h, s)) == v && Volume(Dims(b, n, h, s)) == v
  {
    Volume4(Dims(n, b, h, s));
    Volume4(Dims(b, n, h, s));
    assert n * b == b * n;
  }

  lemma CopyStart<T>(n: nat, b: nat, h: nat, s: nat, data: seq<T>, out: seq<T>)
    requires |data| == |out| == n * b * h * s
    ensures Copied(n, b, h, s, data, out, 0)
  {
    if n > 0 && b > 0 && h > 0 && s > 0 {
      SwapDims(n, b, h, s);
      Volumes(n, b, h, s, |data|);
      FillStart(Dims(n, b, h, s), SWAP, data, out);
    }
  }

  /** In place: the source bytes are overwritten by the finished buffer. */
  method SwapDirectionsAndBatch(values: array<bv8>, n: nat, b: nat, h: nat, s: nat)
    requires values.Length == n * b * h * s
    modifies values
    ensures n > 0 && b > 0 && h > 0 && s > 0 ==>
      IsPerm([1, 0, 2, 3], 4) && IsTransposed([n, b, h, s], [1, 0, 2, 3], old(values[..]), values[..])
  {
    var source := values[..];
    var buffer: seq<bv8> := seq(n * b * h * s, i => 0);
    CopyStart(n, b, h, s, source, buffer);
    for i := 0 to n
      invariant Copied(n, b, h, s, source, buffer, Src(b, h, s, i, 0, 0, 0)) && |buffer| == |source|
    {
      for j := 0 to b
        invariant Copied(n, b, h, s, source, buffer, Src(b, h, s, i, j, 0, 0)) && |buffer| == |source|
      {
        for k := 0 to h
          invariant Copied(n, b, h, s, source, buffer, Src(b, h, s, i, j, k, 0)) && |buffer| == |source|
        {
          for l := 0 to s
            invariant Copied(n, b, h, s, source, buffer, Src(b, h, s, i, j, k, l)) && |buffer| == |source|
          {
            CopyStep(n, b, h, s, source, buffer, i, j, k, l);
            buffer := buffer[Buf(n, h, s, i, j, k, l) := source[Src(b, h, s, i, j, k, l)]];
          }
          Carries(b, h, s, i, j, k);
        }
        Carries(b, h, s, i, j, 0);
      }
      Carries(b, h, s, i, 0, 0);
    }
    for p := 0 to values.Length
      invariant values[..p] == buffer[..p]
    {
      values[p] := buffer[p];
    }
    assert values[..] == buffer;
    if n > 0 && b > 0 && h > 0 && s > 0 {
      Volumes(n, b, h, s, |source|);
      FilledIsTransposed(Dims(n, b, h, s), SWAP, source, buffer);
    }
  }
}

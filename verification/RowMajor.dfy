/** Row-major tensors and axis permutations: where elements go. */
module RowMajor {
  import opened Permutations

  predicate Positive(d: seq<int>) { forall i :: 0 <= i < |d| ==> d[i] >= 1 }

  function Volume(d: seq<int>): (v: int)
    ensures Positive(d) ==> v >= 1
  {
    if d == [] then 1 else
      assert Positive(d) ==> Positive(d[1..]);
      Product(d[0], Volume(d[1..]))
  }

  /** Multiplication, named so that it is not expanded everywhere. */
  function Product(a: int, b: int): (p: int)
    ensures a >= 1 && b >= 1 ==> p >= 1
  {
    a * b
  }

  lemma {:induction false} VolumeAppend(d: seq<int>, x: int)
    ensures Volume(d + [x]) == Volume(d) * x
    decreases |d|
  {
    if d == [] {
      assert d + [x] == [x] && [x][1..] == [];
      assert Volume([]) == 1;
    } else {
      VolumeAppend(d[1..], x);
      assert (d + [x])[1..] == d[1..] + [x];
      Associate(d[0], Volume(d[1..]), x);
    }
  }

  lemma Associate(a: int, b: int, c: int)
    ensures a * (b * c) == a * b * c
  {
  }

  predicate InBounds(d: seq<int>, x: seq<int>)
  {
    |x| == |d| && forall i :: 0 <= i < |d| ==> 0 <= x[i] < d[i]
  }

  /** The position of coordinate `x` in the data of a tensor with dimensions `d`. */
  function Offset(d: seq<int>, x: seq<int>): int
    requires |x| == |d|
  {
    if d == [] then 0 else Product(x[0], Volume(d[1..])) + Offset(d[1..], x[1..])
  }

  lemma {:induction false} OffsetRange(d: seq<int>, x: seq<int>)
    requires InBounds(d, x) && Positive(d)
    ensures 0 <= Offset(d, x) < Volume(d)
    decreases |d|
  {
    if d != [] {
      OffsetRange(d[1..], x[1..]);
      var v := Volume(d[1..]);
      assert 0 <= x[0] * v <= (d[0] - 1) * v by { MulBounds(x[0], d[0] - 1, v); }
      assert (d[0] - 1) * v + v == d[0] * v;
    }
  }

  lemma MulBounds(a: int, b: int, v: int)
    requires 0 <= a <= b && v >= 0
    ensures 0 <= a * v <= b * v
  {
  }

  /** The coordinate stored at position `p`. */
  function Index(d: seq<int>, p: int): (x: seq<int>)
    requires Positive(d)
    ensures |x| == |d|
    decreases |d|
  {
    if d == [] then [] else [p / Volume(d[1..])] + Index(d[1..], p % Volume(d[1..]))
  }

  lemma {:induction false} IndexOffset(d: seq<int>, p: int)
    requires Positive(d) && 0 <= p < Volume(d)
    ensures InBounds(d, Index(d, p)) && Offset(d, Index(d, p)) == p
    decreases |d|
  {
    if d != [] {
      var v := Volume(d[1..]);
      IndexOffset(d[1..], p % v);
      DivBound(p, d[0], v);
      assert Index(d, p)[1..] == Index(d[1..], p % v);
    }
  }

  lemma DivBound(p: int, a: int, v: int)
    requires v >= 1 && 0 <= p < Product(a, v)
    ensures 0 <= p / v < a && Product(p / v, v) + p % v == p
  {
    if p / v >= a { MulBounds(a, p / v, v); }
  }

  lemma {:induction false} OffsetInjective(d: seq<int>, x: seq<int>, y: seq<int>)
    requires Positive(d) && InBounds(d, x) && InBounds(d, y) && Offset(d, x) == Offset(d, y)
    ensures x == y
    decreases |d|
  {
    if d != [] {
      var v := Volume(d[1..]);
      OffsetRange(d[1..], x[1..]);
      OffsetRange(d[1..], y[1..]);
      SameQuotient(x[0], y[0], v, Offset(d[1..], x[1..]), Offset(d[1..], y[1..]));
      OffsetInjective(d[1..], x[1..], y[1..]);
      assert x == [x[0]] + x[1..] && y == [y[0]] + y[1..];
    }
  }

  /** Two coordinates agree up to axis `k`, and there the first one is smaller. */
  predicate SmallerAt(x: seq<int>, y: seq<int>, k: int)
  {
    0 <= k < |x| && k < |y| && x[..k] == y[..k] && x[k] < y[k]
  }

  lemma {:induction false} OffsetGrows(d: seq<int>, x: seq<int>, y: seq<int>, k: int)
    requires Positive(d) && InBounds(d, x) && InBounds(d, y) && SmallerAt(x, y, k)
    ensures Offset(d, x) < Offset(d, y)
    decreases |d|
  {
    var v := Volume(d[1..]);
    OffsetRange(d[1..], x[1..]);
    OffsetRange(d[1..], y[1..]);
    if k == 0 {
      MulGap(x[0], y[0], v);
    } else {
      assert x[..k][0] == y[..k][0];
      assert x[1..][..k - 1] == x[..k][1..] && y[1..][..k - 1] == y[..k][1..];
      OffsetGrows(d[1..], x[1..], y[1..], k - 1);
    }
  }

  lemma {:induction false} FirstDifference(x: seq<int>, y: seq<int>) returns (k: int)
    requires |x| == |y| && x != y
    ensures SmallerAt(x, y, k) || SmallerAt(y, x, k)
    decreases |x|
  {
    if x[0] != y[0] {
      k := 0;
    } else {
      assert x == [x[0]] + x[1..] && y == [y[0]] + y[1..];
      k := FirstDifference(x[1..], y[1..]);
      k := k + 1;
      assert x[..k] == [x[0]] + x[1..][..k - 1] && y[..k] == [y[0]] + y[1..][..k - 1];
    }
  }

  /** The last axis varies fastest: positions are in the lexicographic order of coordinates. */
  lemma OffsetOrder(d: seq<int>, x: seq<int>, y: seq<int>)
    requires Positive(d) && InBounds(d, x) && InBounds(d, y)
    ensures Offset(d, x) < Offset(d, y) <==> exists k :: SmallerAt(x, y, k)
  {
    if x != y {
      var k := FirstDifference(x, y);
      if SmallerAt(x, y, k) { OffsetGrows(d, x, y, k); } else { OffsetGrows(d, y, x, k); }
    }
    if k :| SmallerAt(x, y, k) { OffsetGrows(d, x, y, k); }
  }

  lemma SameQuotient(a: int, b: int, v: int, r: int, s: int)
    requires v >= 1 && 0 <= r < v && 0 <= s < v && Product(a, v) + r == Product(b, v) + s
    ensures a == b && r == s
  {
    if a < b { MulGap(a, b, v); }
    if b < a { MulGap(b, a, v); }
  }

  lemma MulGap(a: int, b: int, v: int)
    requires a < b && v >= 1
    ensures Product(a, v) + v <= Product(b, v)
  {
    MulBounds(0, b - a - 1, v);
    assert (b - a - 1) * v == b * v - a * v - v;
  }

  // ----- permutations -----

  function Iota(n: nat): (s: seq<int>)
    ensures |s| == n && forall i :: 0 <= i < n ==> s[i] == i
  {
    seq(n, i => i)
  }

  function Permute(s: seq<int>, perm: seq<int>): (t: seq<int>)
    requires forall i :: 0 <= i < |perm| ==> 0 <= perm[i] < |s|
    ensures |t| == |perm| && forall i :: 0 <= i < |perm| ==> t[i] == s[perm[i]]
  {
    seq(|perm|, i requires 0 <= i < |perm| => s[perm[i]])
  }

  /** The tensor `out` is `data` with its axes permuted. */
  ghost predicate IsTransposed<T>(d: seq<int>, perm: seq<int>, data: seq<T>, out: seq<T>)
    requires Positive(d) && IsPerm(perm, |d|)
  {
    && |data| == Volume(d) && |out| == Volume(Permute(d, perm))
    && forall x :: InBounds(d, x) ==> Moved(d, perm, data, out, x)
  }

  ghost predicate Moved<T>(d: seq<int>, perm: seq<int>, data: seq<T>, out: seq<T>, x: seq<int>)
    requires Positive(d) && IsPerm(perm, |d|) && InBounds(d, x)
    requires |data| == Volume(d) && |out| == Volume(Permute(d, perm))
  {
    OffsetRange(d, x);
    OffsetRange(Permute(d, perm), Permute(x, perm));
    out[Offset(Permute(d, perm), Permute(x, perm))] == data[Offset(d, x)]
  }
}

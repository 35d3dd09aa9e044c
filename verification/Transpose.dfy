/** When a transpose may be replaced by a reshape
    (`isTransposeRequired` and `transposeTensor`, 3rdparty/onnx-tensorrt/onnx2trt_utils.cpp). */
module Transpose {
  import opened Permutations
  import opened RowMajor

  /** Two axes longer than 1 that change their order. */
  predicate Inversion(d: seq<int>, perm: seq<int>, i: int, j: int)
    requires forall k :: 0 <= k < |perm| ==> 0 <= perm[k] < |d|
  {
    0 <= i < j < |perm| && d[perm[i]] != 1 && d[perm[j]] != 1 && perm[j] < perm[i]
  }

  predicate Dynamic(d: seq<int>) { exists i :: 0 <= i < |d| && d[i] == -1 }

  method IsTransposeRequired(d: seq<int>, perm: seq<int>) returns (required: bool)
    requires IsPerm(perm, |d|)
    ensures required <==> Dynamic(d) || exists i, j :: Inversion(d, perm, i, j)
  {
    var prev := 0;
    ghost var last := -1;
    for i := 0 to |d|
      invariant -1 <= last < i && (last == -1 ==> prev == 0)
      invariant last >= 0 ==> prev == perm[last] && d[perm[last]] != 1
      invariant forall k :: last < k < i ==> d[perm[k]] == 1
      invariant forall k :: 0 <= k <= last && d[perm[k]] != 1 ==> perm[k] <= prev
      invariant forall k :: 0 <= k < i ==> d[perm[k]] != -1
      invariant forall a, b :: 0 <= a < b < i ==> !Inversion(d, perm, a, b)
    {
      var src := perm[i];
      if d[src] != 1 {
        if d[src] == -1 {
          return true;
        }
        if src < prev {
          assert Inversion(d, perm, last, i);
          return true;
        }
        prev := src;
        last := i;
      }
    }
    assert !Dynamic(d) by {
      forall a | 0 <= a < |d|
        ensures d[a] != -1
      {
        var i := PermOnto(perm, |d|, a);
      }
    }
    return false;
  }

  // ----- addresses by axis order -----

  predicate Axes(axes: seq<int>, n: nat)
  {
    forall i :: 0 <= i < |axes| ==> 0 <= axes[i] < n
  }

  function Size(axes: seq<int>, d: seq<int>): (v: int)
    requires Axes(axes, |d|)
  {
    if axes == [] then 1 else Product(d[axes[0]], Size(axes[1..], d))
  }

  /** Where coordinate `x` lies when the axes are stored in the order `axes`, slowest first. */
  function Address(axes: seq<int>, d: seq<int>, x: seq<int>): int
    requires Axes(axes, |d|) && |x| == |d|
  {
    if axes == [] then 0 else Product(x[axes[0]], Size(axes[1..], d)) + Address(axes[1..], d, x)
  }

  lemma {:induction false} OffsetIsAddress(axes: seq<int>, d: seq<int>, x: seq<int>)
    requires Axes(axes, |d|) && |x| == |d|
    ensures Volume(Permute(d, axes)) == Size(axes, d)
    ensures Offset(Permute(d, axes), Permute(x, axes)) == Address(axes, d, x)
    decreases |axes|
  {
    if axes != [] {
      OffsetIsAddress(axes[1..], d, x);
      assert Permute(d, axes)[1..] == Permute(d, axes[1..]);
      assert Permute(x, axes)[1..] == Permute(x, axes[1..]);
    }
  }

  lemma OffsetInOrder(d: seq<int>, x: seq<int>)
    requires |x| == |d|
    ensures Volume(d) == Size(Iota(|d|), d) && Offset(d, x) == Address(Iota(|d|), d, x)
  {
    OffsetIsAddress(Iota(|d|), d, x);
    assert Permute(d, Iota(|d|)) == d && Permute(x, Iota(|d|)) == x;
  }

  // ----- axes of length 1 do not count -----

  function Significant(axes: seq<int>, d: seq<int>): (s: seq<int>)
    requires Axes(axes, |d|)
    ensures Axes(s, |d|)
  {
    if axes == [] then []
    else
      var rest := Significant(axes[1..], d);
      if d[axes[0]] == 1 then rest else [axes[0]] + rest
  }

  lemma {:induction false} AddressSignificant(axes: seq<int>, d: seq<int>, x: seq<int>)
    requires Axes(axes, |d|) && InBounds(d, x)
    ensures Size(axes, d) == Size(Significant(axes, d), d)
    ensures Address(axes, d, x) == Address(Significant(axes, d), d, x)
    decreases |axes|
  {
    if axes != [] {
      AddressSignificant(axes[1..], d, x);
      var rest := Significant(axes[1..], d);
      if d[axes[0]] == 1 {
        assert x[axes[0]] == 0;
      } else {
        assert ([axes[0]] + rest)[1..] == rest;
      }
    }
  }

  lemma {:induction false} SignificantMember(axes: seq<int>, d: seq<int>, a: int)
    requires Axes(axes, |d|)
    ensures a in Significant(axes, d) <==> a in axes && 0 <= a < |d| && d[a] != 1
    decreases |axes|
  {
    if axes != [] {
      SignificantMember(axes[1..], d, a);
      assert axes == [axes[0]] + axes[1..];
    }
  }

  lemma {:induction false} SignificantIncreasing(axes: seq<int>, d: seq<int>)
    requires Axes(axes, |d|) && forall i, j :: 0 <= i < j < |axes| ==> axes[i] != axes[j]
    requires forall i, j :: !Inversion(d, axes, i, j)
    ensures Increasing(Significant(axes, d))
    decreases |axes|
  {
    if axes != [] {
      var tail := axes[1..];
      forall i, j
        ensures !Inversion(d, tail, i, j)
      {
        assert !Inversion(d, axes, i + 1, j + 1);
      }
      SignificantIncreasing(tail, d);
      if d[axes[0]] != 1 {
        forall k | 0 <= k < |Significant(tail, d)|
          ensures axes[0] < Significant(tail, d)[k]
        {
          var a := Significant(tail, d)[k];
          SignificantMember(tail, d, a);
          var m :| 0 <= m < |tail| && tail[m] == a;
          assert axes[m + 1] == a && !Inversion(d, axes, 0, m + 1);
        }
      }
    }
  }

  lemma SameSignificant(d: seq<int>, perm: seq<int>)
    requires IsPerm(perm, |d|) && forall i, j :: !Inversion(d, perm, i, j)
    ensures Significant(perm, d) == Significant(Iota(|d|), d)
  {
    SignificantIncreasing(perm, d);
    SignificantIncreasing(Iota(|d|), d);
    forall a
      ensures a in Significant(perm, d) <==> a in Significant(Iota(|d|), d)
    {
      SignificantMember(perm, d, a);
      SignificantMember(Iota(|d|), d, a);
      if 0 <= a < |d| {
        var i := PermOnto(perm, |d|, a);
        assert Iota(|d|)[a] == a;
      }
    }
    IncreasingUnique(Significant(perm, d), Significant(Iota(|d|), d));
  }

  // ----- when two long axes are swapped, some element moves -----

  /** The coordinate that is 1 on axis `a` and 0 elsewhere. */
  function Unit(n: nat, a: int): (x: seq<int>)
    ensures |x| == n && forall i :: 0 <= i < n ==> x[i] == if i == a then 1 else 0
  {
    seq(n, i => if i == a then 1 else 0)
  }

  lemma {:induction false} AddressZero(axes: seq<int>, d: seq<int>, a: int)
    requires Axes(axes, |d|) && a !in axes
    ensures Address(axes, d, Unit(|d|, a)) == 0
    decreases |axes|
  {
    if axes != [] {
      assert axes[0] in axes;
      assert axes == [axes[0]] + axes[1..];
      AddressZero(axes[1..], d, a);
    }
  }

  /** The address of a unit coordinate is the size of everything stored faster than its axis. */
  lemma {:induction false} AddressUnit(axes: seq<int>, d: seq<int>, k: int)
    requires Axes(axes, |d|) && 0 <= k < |axes| && forall i, j :: 0 <= i < j < |axes| ==> axes[i] != axes[j]
    ensures Address(axes, d, Unit(|d|, axes[k])) == Size(axes[k + 1..], d)
    decreases |axes|
  {
    if k == 0 {
      AddressZero(axes[1..], d, axes[0]);
    } else {
      assert axes[1..][k - 1] == axes[k] && axes[1..][k..] == axes[k + 1..];
      AddressUnit(axes[1..], d, k - 1);
    }
  }

  lemma {:induction false} SizePositive(axes: seq<int>, d: seq<int>)
    requires Axes(axes, |d|) && Positive(d)
    ensures Size(axes, d) >= 1
    decreases |axes|
  {
    if axes != [] { SizePositive(axes[1..], d); }
  }

  /** An axis longer than 1 among `axes` makes everything before it at least twice as large. */
  lemma {:induction false} SizeShrinks(axes: seq<int>, d: seq<int>, k: int)
    requires Axes(axes, |d|) && Positive(d) && 0 <= k < |axes| && d[axes[k]] != 1
    ensures Size(axes, d) > Size(axes[k + 1..], d)
    decreases |axes|
  {
    var tail := axes[1..];
    SizePositive(tail, d);
    if k == 0 {
      MulGap(1, d[axes[0]], Size(tail, d));
    } else {
      assert tail[k - 1] == axes[k] && tail[k..] == axes[k + 1..];
      SizeShrinks(tail, d, k - 1);
      MulAtLeast(d[axes[0]], Size(tail, d));
    }
  }

  lemma MulAtLeast(a: int, v: int)
    requires a >= 1 && v >= 1
    ensures Product(a, v) >= v
  {
    MulBounds(1, a, v);
  }

  /** Of two axes, the one stored first has the larger stride. */
  lemma StrideOrder(axes: seq<int>, d: seq<int>, i: int, j: int)
    requires Axes(axes, |d|) && Positive(d) && 0 <= i < j < |axes| && d[axes[j]] != 1
    requires forall k, m :: 0 <= k < m < |axes| ==> axes[k] != axes[m]
    ensures Address(axes, d, Unit(|d|, axes[i])) > Address(axes, d, Unit(|d|, axes[j]))
  {
    AddressUnit(axes, d, i);
    AddressUnit(axes, d, j);
    var after := axes[i + 1..];
    assert after[j - i - 1] == axes[j] && after[j - i..] == axes[j + 1..];
    SizeShrinks(after, d, j - i - 1);
  }

  /** With an inversion, the unit coordinate of one of the two axes changes its address. */
  lemma InversionMoves(d: seq<int>, perm: seq<int>, i: int, j: int) returns (x: seq<int>)
    requires Positive(d) && IsPerm(perm, |d|) && Inversion(d, perm, i, j)
    ensures InBounds(d, x) && Address(perm, d, x) != Address(Iota(|d|), d, x)
  {
    var s, t := perm[i], perm[j];  // t < s, but s comes first in `perm`
    StrideOrder(perm, d, i, j);
    StrideOrder(Iota(|d|), d, t, s);
    x := if Address(perm, d, Unit(|d|, s)) != Address(Iota(|d|), d, Unit(|d|, s)) then Unit(|d|, s) else Unit(|d|, t);
  }

  // ----- the shortcut -----

  /** For a static shape: reshaping (which keeps the data as it is) gives the transposed
      tensor, whatever the data, exactly when no two long axes change their order. */
  lemma ReshapeIsTranspose(d: seq<int>, perm: seq<int>)
    requires Positive(d) && IsPerm(perm, |d|)
    ensures (forall data: seq<int> :: |data| == Volume(d) ==> IsTransposed(d, perm, data, data)) <==>
      forall i, j :: !Inversion(d, perm, i, j)
  {
    if forall i, j :: !Inversion(d, perm, i, j) {
      forall data: seq<int> | |data| == Volume(d)
        ensures IsTransposed(d, perm, data, data)
      {
        NothingMoves(d, perm, data);
      }
    } else {
      var i, j :| Inversion(d, perm, i, j);
      var x := InversionMoves(d, perm, i, j);
      if IsTransposed(d, perm, Iota(Volume(d)), Iota(Volume(d))) { AddressesAgree(d, perm, x); }
    }
  }

  /** If the tensor of positions is its own transpose, the addresses are the same. */
  lemma AddressesAgree(d: seq<int>, perm: seq<int>, x: seq<int>)
    requires Positive(d) && IsPerm(perm, |d|) && InBounds(d, x) &&
      IsTransposed(d, perm, Iota(Volume(d)), Iota(Volume(d)))
    ensures Address(perm, d, x) == Address(Iota(|d|), d, x)
  {
    OffsetIsAddress(perm, d, x);
    OffsetInOrder(d, x);
    OffsetRange(d, x);
    OffsetRange(Permute(d, perm), Permute(x, perm));
    assert Moved(d, perm, Iota(Volume(d)), Iota(Volume(d)), x);
  }

  lemma NothingMoves<T>(d: seq<int>, perm: seq<int>, data: seq<T>)
    requires Positive(d) && IsPerm(perm, |d|) && |data| == Volume(d)
    requires forall i, j :: !Inversion(d, perm, i, j)
    ensures IsTransposed(d, perm, data, data)
  {
    SameSignificant(d, perm);
    forall x | InBounds(d, x)
      ensures Offset(Permute(d, perm), Permute(x, perm)) == Offset(d, x)
      ensures Volume(Permute(d, perm)) == Volume(d)
    {
      OffsetIsAddress(perm, d, x);
      OffsetInOrder(d, x);
      AddressSignificant(perm, d, x);
      AddressSignificant(Iota(|d|), d, x);
    }
    var zero := Unit(|d|, -1);
    assert InBounds(d, zero);
    assert Offset(Permute(d, perm), Permute(zero, perm)) == Offset(d, zero);
    forall x | InBounds(d, x)
      ensures Moved(d, perm, data, data, x)
    {
      OffsetRange(d, x);
    }
  }

  /** The layer that `transposeTensor` adds: a real transpose, or a reshape to new dimensions. */
  datatype Shuffle = FirstTranspose(perm: seq<int>) | Reshape(dims: seq<int>)

  method TransposeTensor(d: seq<int>, perm: seq<int>) returns (layer: Shuffle)
    requires IsPerm(perm, |d|)
    ensures layer.FirstTranspose? ==> layer.perm == perm
    ensures layer.Reshape? ==> layer.dims == Permute(d, perm)
    ensures Positive(d) ==>
      (layer.Reshape? <==> forall data: seq<int> :: |data| == Volume(d) ==> IsTransposed(d, perm, data, data))
  {
    var required := IsTransposeRequired(d, perm);
    if Positive(d) { ReshapeIsTranspose(d, perm); }
    if required {
      return FirstTranspose(perm);
    }
    var dims: seq<int> := [];
    for i := 0 to |d|
      invariant |dims| == i && forall k :: 0 <= k < i ==> dims[k] == d[perm[k]]
    {
      dims := dims + [d[perm[i]]];
    }
    assert dims == Permute(d, perm);
    return Reshape(dims);
  }
}

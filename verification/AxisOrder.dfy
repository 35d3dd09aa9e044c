/** Permuting the axes of row-major tensors: permutations can be undone, keep the number of
    elements, and put every element in exactly one place. */
module AxisOrder {
  import opened Permutations
  import opened RowMajor
  import Digraph

  predicate Inverse(perm: seq<int>, back: seq<int>)
  {
    && IsPerm(perm, |perm|) && IsPerm(back, |perm|)
    && forall i :: 0 <= i < |perm| ==> perm[back[i]] == i
  }

  /** Permuting back restores every element. */
  lemma TransposeBack<T>(d: seq<int>, perm: seq<int>, back: seq<int>, a: seq<T>, b: seq<T>, c: seq<T>)
    requires Positive(d) && |perm| == |d| && Inverse(perm, back)
    requires IsTransposed(d, perm, a, b) && IsTransposed(Permute(d, perm), back, b, c)
    ensures c == a
  {
    var e := Permute(d, perm);
    Forth(d, perm, back);
    forall p | 0 <= p < |a|
      ensures c[p] == a[p]
    {
      var x := Index(d, p);
      IndexOffset(d, p);
      PermuteInBounds(d, x, perm);
      Forth(x, perm, back);
      assert Moved(d, perm, a, b, x) && Moved(e, back, b, c, Permute(x, perm));
    }
  }

  lemma InversePerm(perm: seq<int>, n: nat) returns (back: seq<int>)
    requires IsPerm(perm, n)
    ensures Inverse(perm, back)
  {
    back := [];
    for k := 0 to n
      invariant |back| == k && forall i :: 0 <= i < k ==> 0 <= back[i] < n && perm[back[i]] == i
    {
      var i := PermOnto(perm, n, k);
      back := back + [i];
    }
  }

  lemma Forth(y: seq<int>, perm: seq<int>, back: seq<int>)
    requires |y| == |perm| && Inverse(perm, back)
    ensures Permute(Permute(y, perm), back) == y
  {
  }

  lemma Back(y: seq<int>, perm: seq<int>, back: seq<int>)
    requires |y| == |perm| && Inverse(perm, back)
    ensures Permute(Permute(y, back), perm) == y
  {
    forall i | 0 <= i < |y|
      ensures back[perm[i]] == i
    {
      assert perm[back[perm[i]]] == perm[i];
    }
  }

  /** A permutation keeps coordinates apart. */
  lemma PermutedApart(d: seq<int>, perm: seq<int>, x: seq<int>, y: seq<int>)
    requires Positive(d) && IsPerm(perm, |d|) && InBounds(d, x) && InBounds(d, y)
    requires Offset(Permute(d, perm), Permute(x, perm)) == Offset(Permute(d, perm), Permute(y, perm))
    ensures x == y
  {
    OffsetInjective(Permute(d, perm), Permute(x, perm), Permute(y, perm));
    forall k | 0 <= k < |d|
      ensures x[k] == y[k]
    {
      var i := PermOnto(perm, |d|, k);
      assert Permute(x, perm)[i] == Permute(y, perm)[i];
    }
  }

  /** Coordinates cannot be kept apart in a smaller tensor. */
  lemma NotSmaller(d: seq<int>, perm: seq<int>)
    requires Positive(d) && IsPerm(perm, |d|)
    ensures Volume(d) <= Volume(Permute(d, perm))
  {
    var e := Permute(d, perm);
    var n: nat := Volume(e);
    if Volume(d) > n {
      var q := Places(d, perm);
      var i, j := Digraph.Repeat(Digraph.Below(n), q);
      IndexOffset(d, i);
      IndexOffset(d, j);
      PermutedApart(d, perm, Index(d, i), Index(d, j));
      assert false;
    }
  }

  /** Where each element of a tensor goes. */
  lemma Places(d: seq<int>, perm: seq<int>) returns (q: seq<nat>)
    requires Positive(d) && IsPerm(perm, |d|)
    ensures |q| == Volume(d)
    ensures forall p :: 0 <= p < |q| ==>
      q[p] == Offset(Permute(d, perm), Permute(Index(d, p), perm)) && q[p] < Volume(Permute(d, perm))
  {
    q := [];
    for p := 0 to Volume(d)
      invariant |q| == p
      invariant forall i :: 0 <= i < p ==>
        q[i] == Offset(Permute(d, perm), Permute(Index(d, i), perm)) && q[i] < Volume(Permute(d, perm))
    {
      IndexOffset(d, p);
      OffsetRange(Permute(d, perm), Permute(Index(d, p), perm));
      var place: nat := Offset(Permute(d, perm), Permute(Index(d, p), perm));
      q := q + [place];
    }
  }

  lemma PermuteKeepsVolume(d: seq<int>, perm: seq<int>)
    requires Positive(d) && IsPerm(perm, |d|)
    ensures Volume(Permute(d, perm)) == Volume(d)
  {
    var back := InversePerm(perm, |d|);
    NotSmaller(d, perm);
    NotSmaller(Permute(d, perm), back);
    Forth(d, perm, back);
  }

  lemma PermuteInBounds(d: seq<int>, x: seq<int>, perm: seq<int>)
    requires IsPerm(perm, |d|) && InBounds(d, x)
    ensures InBounds(Permute(d, perm), Permute(x, perm))
  {
  }

  lemma Placing(d: seq<int>, perm: seq<int>, back: seq<int>, e: seq<int>, q: int) returns (x: seq<int>)
    requires Positive(d) && |perm| == |d| && Inverse(perm, back) && e == Permute(d, perm) && 0 <= q < Volume(e)
    ensures InBounds(d, x) && Permute(x, perm) == Index(e, q) && Offset(e, Index(e, q)) == q
  {
    var y := Index(e, q);
    IndexOffset(e, q);
    x := Permute(y, back);
    Forth(d, perm, back);
    Back(y, perm, back);
    PermuteInBounds(e, y, back);
  }

  /** Every position of the permuted tensor belongs to exactly one coordinate. */
  lemma EachPlaceOnce(d: seq<int>, perm: seq<int>, back: seq<int>, q: int) returns (x: seq<int>)
    requires Positive(d) && |perm| == |d| && Inverse(perm, back) && 0 <= q < Volume(Permute(d, perm))
    ensures InBounds(d, x) && Offset(Permute(d, perm), Permute(x, perm)) == q
    ensures forall y :: InBounds(d, y) && Offset(Permute(d, perm), Permute(y, perm)) == q ==> y == x
  {
    x := Placing(d, perm, back, Permute(d, perm), q);
    forall z | InBounds(d, z) && Offset(Permute(d, perm), Permute(z, perm)) == q
      ensures z == x
    {
      PermutedApart(d, perm, x, z);
    }
  }

  /** Every tensor can be transposed. */
  lemma TransposeExists<T>(d: seq<int>, perm: seq<int>, data: seq<T>) returns (out: seq<T>)
    requires Positive(d) && IsPerm(perm, |d|) && |data| == Volume(d)
    ensures IsTransposed(d, perm, data, out)
  {
    var e := Permute(d, perm);
    var back := InversePerm(perm, |d|);
    out := [];
    for q := 0 to Volume(e)
      invariant |out| == q
      invariant forall x :: InBounds(d, x) && 0 <= Offset(e, Permute(x, perm)) < q ==> Placed(d, perm, data, out, x)
    {
      var y := EachPlaceOnce(d, perm, back, q);
      OffsetRange(d, y);
      out := out + [data[Offset(d, y)]];
    }
    forall x | InBounds(d, x)
      ensures Moved(d, perm, data, out, x)
    {
      PermuteInBounds(d, x, perm);
      OffsetRange(e, Permute(x, perm));
      assert Placed(d, perm, data, out, x);
    }
  }

  ghost predicate Placed<T>(d: seq<int>, perm: seq<int>, data: seq<T>, out: seq<T>, x: seq<int>)
    requires IsPerm(perm, |d|) && |x| == |d|
  {
    var p, q := Offset(d, x), Offset(Permute(d, perm), Permute(x, perm));
    0 <= p < |data| && 0 <= q < |out| && out[q] == data[p]
  }
}

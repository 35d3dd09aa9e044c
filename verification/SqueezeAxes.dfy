/** Unsqueeze and squeeze (3rdparty/onnx-tensorrt/onnx2trt_utils.cpp): inserting and removing
    axes of length 1 through a vector of subscripts. */
module SqueezeAxes {
  import opened Permutations
  import RowMajor
  import opened Wrappers

  /** Most axes a TensorRT tensor can have. */
  const MAX_DIMS := 8

  /** The first `k` entries of `s` without those at positions in `axes`. */
  function KeptTo<T>(s: seq<T>, axes: set<int>, k: nat): (r: seq<T>)
    requires k <= |s|
    ensures |r| <= k
  {
    if k == 0 then [] else
      var r := KeptTo(s, axes, k - 1);
      if k - 1 in axes then r else r + [s[k - 1]]
  }

  function Kept<T>(s: seq<T>, axes: set<int>): seq<T> { KeptTo(s, axes, |s|) }

  predicate Remains(axes: set<int>, k: nat, i: int) { 0 <= i < k && i !in axes }

  ghost predicate KeptAt<T>(s: seq<T>, axes: set<int>, k: nat, x: T, i: int)
  {
    Remains(axes, k, i) && i < |s| && x == s[i]
  }

  /** `r` holds the entries of `s` before `k` at exactly the positions not in `axes`, in order. */
  ghost predicate Keeps<T>(s: seq<T>, axes: set<int>, k: nat, r: seq<T>, pos: seq<int>)
  {
    && |pos| == |r| && Increasing(pos)
    && (forall m :: 0 <= m < |pos| ==> KeptAt(s, axes, k, r[m], pos[m]))
    && forall i :: Remains(axes, k, i) ==> i in pos
  }

  lemma KeepsSnoc<T>(s: seq<T>, axes: set<int>, k: nat, r: seq<T>, pos: seq<int>)
    requires k < |s| && Keeps(s, axes, k, r, pos)
    ensures if k in axes then Keeps(s, axes, k + 1, r, pos) else Keeps(s, axes, k + 1, r + [s[k]], pos + [k])
  {
    var longer := pos + [k];
    forall m | 0 <= m < |pos|
      ensures pos[m] < k && KeptAt(s, axes, k + 1, r[m], pos[m])
    {
      assert KeptAt(s, axes, k, r[m], pos[m]);
    }
    forall i | Remains(axes, k + 1, i)
      ensures if i < k then i in pos else k !in axes && i in longer
    {
      assert i < k ==> Remains(axes, k, i);
    }
  }

  lemma {:induction false} KeptInOrder<T>(s: seq<T>, axes: set<int>, k: nat) returns (pos: seq<int>)
    requires k <= |s|
    ensures Keeps(s, axes, k, KeptTo(s, axes, k), pos)
  {
    pos := [];
    if k > 0 {
      pos := KeptInOrder(s, axes, k - 1);
      KeepsSnoc(s, axes, k - 1, KeptTo(s, axes, k - 1), pos);
      if k - 1 !in axes {
        pos := pos + [k - 1];
      }
    }
  }

  // ----- inserting in ascending order -----

  function Inserted<T>(s: seq<T>, p: nat, v: T): (r: seq<T>)
    requires p <= |s|
    ensures |r| == |s| + 1 && r[p] == v
    ensures forall i :: 0 <= i < p ==> r[i] == s[i]
    ensures forall i :: p < i < |r| ==> r[i] == s[i - 1]
  {
    s[..p] + [v] + s[p..]
  }

  lemma {:induction false} InsertKeeps<T>(s: seq<T>, done: set<int>, p: nat, v: T, k: nat)
    requires p <= |s| && k <= |s| && forall a :: a in done ==> a < p
    ensures k <= p ==> KeptTo(Inserted(s, p, v), done + {p}, k) == KeptTo(s, done, k)
    ensures p <= k ==> KeptTo(Inserted(s, p, v), done + {p}, k + 1) == KeptTo(s, done, k)
  {
    if k > 0 {
      InsertKeeps(s, done, p, v, k - 1);
    }
  }

  lemma {:induction false} NothingDropped<T>(s: seq<T>, k: nat)
    requires k <= |s|
    ensures KeptTo(s, {}, k) == s[..k]
  {
    if k > 0 {
      NothingDropped(s, k - 1);
      assert s[..k] == s[..k - 1] + [s[k - 1]];
    }
  }

  /** A set of integers from `lo` to below `hi` has no more than that many members. */
  lemma {:induction false} Crowd(s: set<int>, lo: int, hi: int)
    requires lo <= hi && forall a :: a in s ==> lo <= a < hi
    ensures |s| <= hi - lo
    decreases hi - lo
  {
    if lo == hi {
      assert s == {};
    } else {
      var t := s - {hi - 1};
      Crowd(t, lo, hi - 1);
      assert s <= t + {hi - 1};
      if hi - 1 in s {
        assert |t| == |s| - 1;
      } else {
        assert t == s;
      }
    }
  }

  lemma {:induction false} SmallestExists(s: set<int>) returns (m: int)
    requires s != {}
    ensures m in s && forall a :: a in s ==> m <= a
    decreases |s|
  {
    assert (forall x :: x !in s) ==> s == {};
    var x :| x in s;
    var t := s - {x};
    if t == {} {
      assert s == {x};
      m := x;
    } else {
      var y := SmallestExists(t);
      m := if x < y then x else y;
      assert s == t + {x};
    }
  }

  /** Distinct axes of the result, each within its rank. */
  predicate InRange(axes: set<int>, n: nat)
  {
    forall a :: a in axes ==> 0 <= a < n + |axes|
  }

  /** After inserting `done`, the smallest remaining axis is not past the end. */
  lemma InsertionInBounds(axes: set<int>, done: set<int>, n: nat, p: int)
    requires InRange(axes, n) && done <= axes && p in axes - done
    requires forall a :: a in axes - done ==> p <= a
    ensures 0 <= p <= n + |done|
  {
    Crowd(axes - done, p, n + |axes|);
    assert axes == done + (axes - done);
  }

  ghost predicate InsertedAt(subscripts: seq<int>, done: set<int>, n: nat)
  {
    && |subscripts| == n + |done|
    && (forall i :: 0 <= i < |subscripts| ==> 0 <= subscripts[i] <= n && (subscripts[i] == n <==> i in done))
    && Kept(subscripts, done) == RowMajor.Iota(n)
  }

  lemma InsertStep(subscripts: seq<int>, done: set<int>, n: nat, p: nat)
    requires InsertedAt(subscripts, done, n) && p <= |subscripts| && forall a :: a in done ==> a < p
    ensures InsertedAt(Inserted(subscripts, p, n), done + {p}, n)
  {
    InsertKeeps(subscripts, done, p, n, |subscripts|);
  }

  /** Every axis already inserted is below every axis still to insert. */
  ghost predicate Split(axes: set<int>, done: set<int>, rest: set<int>)
  {
    done <= axes && rest == axes - done && forall a, b :: a in done && b in rest ==> a < b
  }

  lemma SplitStep(axes: set<int>, done: set<int>, rest: set<int>, p: int)
    requires Split(axes, done, rest) && p in rest && forall a :: a in rest ==> p <= a
    ensures Split(axes, done + {p}, rest - {p})
  {
  }

  method InsertAxes(n: nat, axes: set<int>) returns (subscripts: seq<int>)
    requires InRange(axes, n)
    ensures InsertedAt(subscripts, axes, n)
  {
    subscripts := RowMajor.Iota(n);
    NothingDropped(subscripts, n);
    var rest := axes;
    ghost var done := {};
    while rest != {}
      invariant Split(axes, done, rest)
      invariant InsertedAt(subscripts, done, n)
      decreases |rest|
    {
      ghost var m := SmallestExists(rest);
      var p :| p in rest && forall a :: a in rest ==> p <= a;
      InsertionInBounds(axes, done, n, p);
      InsertStep(subscripts, done, n, p);
      SplitStep(axes, done, rest, p);
      subscripts := Inserted(subscripts, p, n);
      rest := rest - {p};
      done := done + {p};
    }
    assert done == axes;
  }

  // ----- the two operations on shapes -----

  function Gathered(data: seq<int>, subscripts: seq<int>): (r: seq<int>)
    requires forall k :: 0 <= k < |subscripts| ==> 0 <= subscripts[k] < |data|
    ensures |r| == |subscripts| && forall k :: 0 <= k < |r| ==> r[k] == data[subscripts[k]]
  {
    seq(|subscripts|, k requires 0 <= k < |subscripts| => data[subscripts[k]])
  }

  lemma {:induction false} KeptOfGathered(data: seq<int>, subscripts: seq<int>, axes: set<int>, k: nat)
    requires k <= |subscripts| && forall i :: 0 <= i < |subscripts| ==> 0 <= subscripts[i] < |data|
    ensures var kept := KeptTo(subscripts, axes, k);
      && (forall i :: 0 <= i < |kept| ==> 0 <= kept[i] < |data|)
      && KeptTo(Gathered(data, subscripts), axes, k) == Gathered(data, kept)
  {
    if k > 0 {
      KeptOfGathered(data, subscripts, axes, k - 1);
    }
  }

  /** `r` is `dims` with an axis of length 1 at each position in `axes`. */
  ghost predicate Unsqueezed(dims: seq<int>, axes: set<int>, r: seq<int>)
  {
    && |r| == |dims| + |axes|
    && (forall a :: a in axes ==> 0 <= a < |r| && r[a] == 1)
    && Kept(r, axes) == dims
  }

  method UnsqueezeShape(dims: seq<int>, axes: seq<int>) returns (r: Option<seq<int>>, ghost pos: seq<int>)
    requires InRange(set a | a in axes, |dims|)
    ensures var s := set a | a in axes;
      if |dims| + |s| > 8 then r == None
      else r.Some? && Unsqueezed(dims, s, r.value) && Keeps(r.value, s, |r.value|, dims, pos)
  {
    var s := set a | a in axes;
    if |dims| + |s| > MAX_DIMS {
      return None, [];
    }
    var n: nat := |dims|;
    var subscripts := InsertAxes(n, s);
    var both := dims + [1];
    KeptOfGathered(both, subscripts, s, |subscripts|);
    var shape := Gathered(both, subscripts);
    assert Gathered(both, RowMajor.Iota(n)) == dims;
    pos := KeptInOrder(shape, s, |shape|);
    r := Some(shape);
  }

  method SqueezeShape(dims: seq<int>, axes: seq<int>) returns (r: seq<int>, ghost pos: seq<int>)
    ensures r == Kept(dims, set a | a in axes) && Keeps(dims, set a | a in axes, |dims|, r, pos)
  {
    ghost var s := set a | a in axes;
    var n: nat := |dims|;
    var iota, subscripts: seq<int> := RowMajor.Iota(n), [];
    for x := 0 to n
      invariant subscripts == KeptTo(iota, s, x)
    {
      if iota[x] !in axes {
        subscripts := subscripts + [iota[x]];
      }
    }
    KeptOfGathered(dims, iota, s, n);
    assert Gathered(dims, iota) == dims;
    pos := KeptInOrder(dims, s, n);
    r := Gathered(dims, subscripts);
  }

  // ----- what they promise together -----

  /** Only one shape has given lengths on the kept axes and 1 on the others. */
  lemma {:induction false} KeptDetermines(r: seq<int>, t: seq<int>, axes: set<int>, k: nat)
    requires k <= |r| && k <= |t| && KeptTo(r, axes, k) == KeptTo(t, axes, k)
    requires forall a :: a in axes && 0 <= a < k ==> r[a] == t[a]
    ensures r[..k] == t[..k]
  {
    if k > 0 {
      if k - 1 !in axes {
        var x, y := KeptTo(r, axes, k), KeptTo(t, axes, k);
        assert x[|x| - 1] == y[|y| - 1] && x[..|x| - 1] == y[..|y| - 1];
        assert x[..|x| - 1] == KeptTo(r, axes, k - 1) && y[..|y| - 1] == KeptTo(t, axes, k - 1);
      }
      KeptDetermines(r, t, axes, k - 1);
      assert r[..k] == r[..k - 1] + [r[k - 1]] && t[..k] == t[..k - 1] + [t[k - 1]];
    }
  }

  lemma {:induction false} VolumeOfPrefix(r: seq<int>, k: nat)
    requires 0 < k <= |r|
    ensures RowMajor.Volume(r[..k]) == RowMajor.Volume(r[..k - 1]) * r[k - 1]
  {
    assert r[..k] == r[..k - 1] + [r[k - 1]];
    RowMajor.VolumeAppend(r[..k - 1], r[k - 1]);
  }

  lemma {:induction false} OnesDoNotCount(r: seq<int>, axes: set<int>, k: nat)
    requires k <= |r| && forall a :: a in axes && 0 <= a < k ==> r[a] == 1
    ensures RowMajor.Volume(r[..k]) == RowMajor.Volume(KeptTo(r, axes, k))
  {
    if k > 0 {
      OnesDoNotCount(r, axes, k - 1);
      VolumeOfPrefix(r, k);
      if k - 1 !in axes {
        RowMajor.VolumeAppend(KeptTo(r, axes, k - 1), r[k - 1]);
      }
    } else {
      assert r[..0] == [];
    }
  }

  /** The number of elements does not change. */
  lemma UnsqueezeKeepsVolume(dims: seq<int>, axes: set<int>, r: seq<int>)
    requires Unsqueezed(dims, axes, r)
    ensures RowMajor.Volume(r) == RowMajor.Volume(dims)
  {
    OnesDoNotCount(r, axes, |r|);
    assert r[..|r|] == r;
  }

  lemma UnsqueezedUnique(dims: seq<int>, axes: set<int>, r: seq<int>, t: seq<int>)
    requires Unsqueezed(dims, axes, r) && Unsqueezed(dims, axes, t)
    ensures r == t
  {
    KeptDetermines(r, t, axes, |r|);
    assert r[..|r|] == r && t[..|r|] == t;
  }

  /** Squeezing the axes just inserted gives the shape back. */
  method UnsqueezeThenSqueeze(dims: seq<int>, axes: seq<int>) returns (r: seq<int>)
    requires InRange(set a | a in axes, |dims|) && |dims| + |set a | a in axes| <= MAX_DIMS
    ensures r == dims
  {
    var shape; ghost var pos;
    shape, pos := UnsqueezeShape(dims, axes);
    r, pos := SqueezeShape(shape.value, axes);
  }

  /** Inserting the axes just squeezed gives the shape back, when all of them had length 1. */
  method SqueezeThenUnsqueeze(dims: seq<int>, axes: seq<int>) returns (r: Option<seq<int>>)
    requires |dims| <= MAX_DIMS && forall a :: a in axes ==> 0 <= a < |dims| && dims[a] == 1
    ensures r == Some(dims)
  {
    ghost var s := set a | a in axes;
    KeptSize(dims, s, |dims|);
    assert s == set a | a in s && 0 <= a < |dims|;
    var shape; ghost var pos;
    shape, pos := SqueezeShape(dims, axes);
    r, pos := UnsqueezeShape(shape, axes);
    UnsqueezedUnique(shape, s, dims, r.value);
  }

  lemma {:induction false} KeptSize<T>(s: seq<T>, axes: set<int>, k: nat)
    requires k <= |s|
    ensures |KeptTo(s, axes, k)| + |set a | a in axes && 0 <= a < k| == k
  {
    if k > 0 {
      KeptSize(s, axes, k - 1);
      var below := set a | a in axes && 0 <= a < k - 1;
      var all := set a | a in axes && 0 <= a < k;
      assert all == if k - 1 in axes then below + {k - 1} else below;
    }
  }
}

/** Shape tensors (3rdparty/onnx-tensorrt/ShapeTensor.cpp): vectors whose values are known when
    the network is built, or only as the output of a layer at run time. */
module ShapeTensors {
  import opened RowMajor
  import opened ShapeArithmetic
  import opened Wrappers

  predicate AllFit32(v: seq<int>) { forall i :: 0 <= i < |v| ==> Fits32(v[i]) }
  predicate AllFit64(v: seq<int>) { forall i :: 0 <= i < |v| ==> Fits64(v[i]) }

  function Clamp32(a: int): int { Max(Min(a, INT32_MAX), INT32_MIN) }

  /** The nearest number of 32 bits. */
  lemma ClampIsNearest(a: int, b: int)
    requires -0x8000_0000 <= b <= 0x7fff_ffff
    ensures -0x8000_0000 <= Clamp32(a) <= 0x7fff_ffff && Max(a - Clamp32(a), Clamp32(a) - a) <= Max(a - b, b - a)
    ensures Clamp32(b) == b
  {
  }

  function Clamped(v: seq<int>): (c: seq<int>)
    ensures |c| == |v| && AllFit32(c) && forall i :: 0 <= i < |v| ==> c[i] == Clamp32(v[i])
    ensures forall i :: 0 <= i < |v| && v[i] != 0 ==> c[i] != 0
    ensures AllFit32(v) ==> c == v
  {
    seq(|v|, i requires 0 <= i < |v| => Clamp32(v[i]))
  }

  /** `convertINT64`: values outside 32 bits are moved to the nearest bound. */
  method ConvertInt64(v: seq<int>) returns (c: seq<int>)
    ensures c == Clamped(v)
  {
    c := [];
    for i := 0 to |v|
      invariant |c| == i && forall k :: 0 <= k < i ==> c[k] == Clamp32(v[k])
    {
      if v[i] > INT32_MAX || v[i] < INT32_MIN {
        c := c + [Clamp32(v[i])];
      } else {
        c := c + [v[i]];
      }
    }
    assert c == Clamped(v);
  }

  class ShapeTensor {
    const rank: int
    const size: nat
    var values: seq<int>
    /** The cached run-time tensor, by the vector it holds when the network runs. */
    var tensor: Option<seq<int>>

    predicate Known()
      reads this
    {
      |values| == size
    }

    /** A cached tensor agrees with known values, and unknown values have a tensor. */
    ghost predicate Valid()
      reads this
    {
      && (rank == 0 || rank == 1) && (rank == 0 ==> size == 1) && size <= INT32_MAX
      && (Known() || (values == [] && tensor.Some?))
      && (tensor.Some? ==> |tensor.value| == size && AllFit32(tensor.value))
      && (tensor.Some? && Known() ==> tensor.value == Clamped(values))
    }

    ghost function Value(): (v: seq<int>)
      requires Valid()
      reads this
      ensures |v| == size
    {
      if Known() then values else tensor.value
    }

    constructor Of(rank: int, values: seq<int>)
      requires (rank == 0 || rank == 1) && (rank == 0 ==> |values| == 1) && |values| <= INT32_MAX
      ensures Valid() && this.rank == rank && Value() == values && Known()
    {
      this.rank, size, this.values, tensor := rank, |values|, values, None;
    }

    constructor FromLayer(rank: int, runtime: seq<int>)
      requires (rank == 0 || rank == 1) && (rank == 0 ==> |runtime| == 1)
      requires AllFit32(runtime) && 1 <= |runtime| <= INT32_MAX
      ensures Valid() && this.rank == rank && Value() == runtime && !Known()
    {
      this.rank, size, this.values, tensor := rank, |runtime|, [], Some(runtime);
    }

    constructor Copy(x: ShapeTensor)
      requires x.Valid()
      ensures Valid() && rank == x.rank && Value() == x.Value() && Known() == x.Known() && tensor == x.tensor
    {
      rank, size, values, tensor := x.rank, x.size, x.values, x.tensor;
    }

    ghost predicate AllAre(a: int)
      reads this
    {
      Known() && forall i :: 0 <= i < |values| ==> values[i] == a
    }

    method IsAll(a: int) returns (all: bool)
      ensures all <==> AllAre(a)
    {
      if !Known() {
        return false;
      }
      for i := 0 to |values|
        invariant forall k :: 0 <= k < i ==> values[k] == a
      {
        if values[i] != a {
          return false;
        }
      }
      return true;
    }

    /** Makes a constant on first use and keeps it. */
    method Tensor() returns (t: seq<int>)
      requires Valid()
      modifies this`tensor
      ensures Valid() && Value() == old(Value()) && Known() == old(Known())
      ensures t == Clamped(Value()) && tensor == Some(t)
      ensures old(tensor).Some? ==> tensor == old(tensor)
    {
      if tensor.None? {
        var c := ConvertInt64(values);
        tensor := Some(c);
      }
      t := tensor.value;
    }
  }

  /** `z` is a vector with the value `v`. */
  ghost predicate Is(z: ShapeTensor, v: seq<int>)
    reads z
  {
    z.Valid() && z.rank == 1 && z.Value() == v
  }

  // ----- what the element-wise layer computes -----

  predicate Compatible(u: seq<int>, v: seq<int>)
  {
    u != [] && v != [] && (|u| == 1 || |v| == 1 || |u| == |v|)
  }

  predicate Divisible(op: Operation, v: seq<int>)
  {
    forall i :: 0 <= i < |v| ==> Defined(op, v[i])
  }

  /** The layer's operation on two numbers; division by a positive number rounds down,
      and both signs may be changed together. */
  function Meaning(op: Operation, a: int, b: int): int
    requires Defined(op, b)
  {
    match op
    case Sum => a + b
    case Sub => a - b
    case Prod => a * b
    case MinOf => if a <= b then a else b
    case MaxOf => if a <= b then b else a
    case FloorDivision => if b > 0 then a / b else (-a) / (-b)
  }

  /** A single entry is repeated along the other operand. */
  function Entry(u: seq<int>, i: nat): int
    requires |u| == 1 || i < |u|
  {
    if |u| == 1 then u[0] else u[i]
  }

  function ElementWise(op: Operation, u: seq<int>, v: seq<int>): (w: seq<int>)
    requires Compatible(u, v) && Divisible(op, v)
    ensures |w| == if |u| < |v| then |v| else |u|
    ensures forall i :: 0 <= i < |w| ==> w[i] == Meaning(op, Entry(u, i), Entry(v, i))
  {
    var n := if |u| < |v| then |v| else |u|;
    seq(n, i requires 0 <= i < n => Meaning(op, Entry(u, i), Entry(v, i)))
  }

  // ----- folding and short cuts agree with it -----

  lemma QuotientIsFloor(a: int, b: int)
    requires b != 0
    ensures IsFloor(a, b, Meaning(FloorDivision, a, b))
  {
    if b > 0 {
      Euclid(a, b);
    } else {
      Euclid(-a, -b);
      Signs((-a) / (-b), -b);
    }
  }

  /** What an entry of the result is: the sum, difference or product of the two entries, the one
      that is not above or not below the other, or the quotient rounded down. */
  lemma EntriesMean(op: Operation, u: seq<int>, v: seq<int>, i: nat)
    requires Compatible(u, v) && Divisible(op, v) && i < |ElementWise(op, u, v)|
    ensures var a, b := if |u| == 1 then u[0] else u[i], if |v| == 1 then v[0] else v[i];
      var w := ElementWise(op, u, v)[i];
      match op
      case Sum => w == a + b
      case Sub => w + b == a
      case Prod => w == a * b
      case MinOf => (w == a || w == b) && w <= a && w <= b
      case MaxOf => (w == a || w == b) && w >= a && w >= b
      case FloorDivision => if b > 0 then 0 <= a - w * b < b else b < a - w * b <= 0
  {
    if op.FloorDivision? { QuotientIsFloor(Entry(u, i), Entry(v, i)); }
  }

  lemma ApplyIsMeaning(op: Operation, a: int, b: int)
    requires Defined(op, b)
    ensures Apply(op, a, b) == Meaning(op, a, b)
  {
    if op.FloorDivision? {
      FloorDivIsFloor(a, b);
      QuotientIsFloor(a, b);
      FloorUnique(a, b, FloorDiv(a, b), Meaning(op, a, b));
    }
  }

  lemma RightIdentityVanishes(op: Operation, u: seq<int>, v: seq<int>)
    requires Compatible(u, v) && AllFit64(u) && |v| <= |u| && forall i :: 0 <= i < |v| ==> v[i] == RightIdentity(op)
    ensures Divisible(op, v) && ElementWise(op, u, v) == u
  {
    forall i | 0 <= i < |u|
      ensures Defined(op, Entry(v, i)) && Meaning(op, Entry(u, i), Entry(v, i)) == u[i]
    {
      IdentityOnRight(op, u[i]);
      ApplyIsMeaning(op, u[i], Entry(v, i));
    }
  }

  lemma LeftIdentityVanishes(op: Operation, u: seq<int>, v: seq<int>)
    requires Commutes(op) && Compatible(u, v) && AllFit64(v) && |u| <= |v| && forall i :: 0 <= i < |u| ==>
      u[i] == RightIdentity(op)
    ensures Divisible(op, v) && ElementWise(op, u, v) == v
  {
    forall i | 0 <= i < |v|
      ensures Meaning(op, Entry(u, i), Entry(v, i)) == v[i]
    {
      OperandsSwap(op, Entry(u, i), v[i]);
      IdentityOnRight(op, v[i]);
    }
  }

  lemma Wraps(u: seq<int>, i: nat)
    requires u != [] && (|u| == 1 || i < |u|)
    ensures u[i % |u|] == Entry(u, i)
  {
    if |u| > 1 {
      assert i % |u| == i;
    }
  }

  /** Neither operand is an identity and at least one is unknown while the network is built. */
  ghost predicate LeftToLayer(op: Operation, x: ShapeTensor, y: ShapeTensor)
    reads x, y
  {
    && !(y.AllAre(RightIdentity(op)) && y.size <= x.size)
    && !(Commutes(op) && x.AllAre(RightIdentity(op)) && x.size <= y.size)
    && !(x.Known() && y.Known())
  }

  /** The folding loop, with the remainder standing in for broadcasting. */
  method Fold(op: Operation, u: seq<int>, v: seq<int>) returns (values: seq<int>)
    requires Compatible(u, v) && Divisible(op, v)
    ensures values == ElementWise(op, u, v)
  {
    var n := if |u| < |v| then |v| else |u|;
    values := [];
    for i := 0 to n
      invariant |values| == i && forall k :: 0 <= k < i ==> values[k] == Meaning(op, Entry(u, k), Entry(v, k))
    {
      Wraps(u, i);
      Wraps(v, i);
      ApplyIsMeaning(op, Entry(u, i), Entry(v, i));
      values := values + [Apply(op, u[i % |u|], v[i % |v|])];
    }
  }

  /** What a tensor stands for after an element-wise step: a layer works on 32-bit constants. */
  ghost function OpValue(layered: bool, op: Operation, u: seq<int>, v: seq<int>): (w: seq<int>)
    requires Compatible(u, v) && Divisible(op, v)
    ensures AllFit32(u) && AllFit32(v) ==> w == ElementWise(op, u, v)
  {
    if layered then ElementWise(op, Clamped(u), Clamped(v)) else ElementWise(op, u, v)
  }

  ghost predicate Fits(layered: bool, w: seq<int>) { if layered then AllFit32(w) else AllFit64(w) }

  method OnLayer(x: ShapeTensor, y: ShapeTensor, op: Operation) returns (z: ShapeTensor)
    requires x.Valid() && y.Valid() && x.rank == y.rank && Compatible(x.Value(), y.Value()) && Divisible(op, y.Value())
    requires AllFit32(OpValue(true, op, x.Value(), y.Value()))
    modifies x`tensor, y`tensor
    ensures x.Valid() && y.Valid() && x.Value() == old(x.Value()) && y.Value() == old(y.Value())
    ensures z.Valid() && fresh(z) && z.rank == x.rank && z.Value() == OpValue(true, op, old(x.Value()), old(y.Value()))
    ensures !z.Known()
  {
    var s := x.Tensor();
    var t := y.Tensor();
    z := new ShapeTensor.FromLayer(x.rank, ElementWise(op, s, t));
  }

  /** Folded, short-circuited or left to a layer: the value is the same, except that a layer
      sees constants moved into 32 bits. */
  method Op(x: ShapeTensor, y: ShapeTensor, op: Operation) returns (z: ShapeTensor)
    requires x.Valid() && y.Valid() && x.rank == y.rank && Compatible(x.Value(), y.Value())
    requires Divisible(op, y.Value()) && AllFit64(x.Value()) && AllFit64(y.Value())
    requires var layered := LeftToLayer(op, x, y); Fits(layered, OpValue(layered, op, x.Value(), y.Value()))
    modifies x`tensor, y`tensor
    ensures x.Valid() && y.Valid() && x.Value() == old(x.Value()) && y.Value() == old(y.Value())
    ensures z.Valid() && fresh(z) && z.rank == x.rank
    ensures z.Value() == OpValue(old(LeftToLayer(op, x, y)), op, old(x.Value()), old(y.Value()))
    ensures old(x.Known() && y.Known()) ==> z.Known()
    ensures old(LeftToLayer(op, x, y)) ==> !z.Known()
  {
    ghost var u, v := x.Value(), y.Value();
    var yAll := y.IsAll(RightIdentity(op));
    if yAll && y.size <= x.size {
      RightIdentityVanishes(op, u, v);
      z := new ShapeTensor.Copy(x);
      return;
    }
    var xAll := x.IsAll(RightIdentity(op));
    if Commutes(op) && xAll && x.size <= y.size {
      LeftIdentityVanishes(op, u, v);
      z := new ShapeTensor.Copy(y);
      return;
    }
    if x.Known() && y.Known() {
      var values := Fold(op, x.values, y.values);
      z := new ShapeTensor.Of(x.rank, values);
    } else {
      z := OnLayer(x, y, op);
    }
  }

  // ----- joining, picking and multiplying out -----

  /** Both parts are there and at least one is unknown while the network is built. */
  predicate Layered(x: ShapeTensor, y: ShapeTensor)
    reads x, y
  {
    x.size > 0 && y.size > 0 && !(x.Known() && y.Known())
  }

  lemma ClampedJoin(u: seq<int>, v: seq<int>)
    ensures Clamped(u) + Clamped(v) == Clamped(u + v) && |u + v| == |u| + |v|
  {
  }

  method Concat(x: ShapeTensor, y: ShapeTensor) returns (z: ShapeTensor)
    requires x.Valid() && y.Valid() && x.rank == 1 && y.rank == 1 && x.size + y.size <= INT32_MAX
    modifies x`tensor, y`tensor
    ensures x.Valid() && y.Valid() && x.Value() == old(x.Value()) && y.Value() == old(y.Value())
    ensures z.Valid() && fresh(z) && z.rank == 1
    ensures var w := old(x.Value()) + old(y.Value()); z.Value() == if old(Layered(x, y)) then Clamped(w) else w
    ensures old(x.Known() && y.Known()) ==> z.Known()
    ensures old(Layered(x, y)) ==> !z.Known()
  {
    if x.size == 0 {
      z := new ShapeTensor.Copy(y);
    } else if y.size == 0 {
      z := new ShapeTensor.Copy(x);
    } else if x.Known() && y.Known() {
      z := new ShapeTensor.Of(1, x.values + y.values);
    } else {
      var s := x.Tensor();
      var t := y.Tensor();
      ClampedJoin(x.Value(), y.Value());
      z := new ShapeTensor.FromLayer(1, s + t);
    }
  }

  predicate Subscripts(indices: seq<int>, n: nat)
  {
    forall k :: 0 <= k < |indices| ==> 0 <= indices[k] < n
  }

  function Picked(data: seq<int>, indices: seq<int>): (r: seq<int>)
    requires Subscripts(indices, |data|)
    ensures |r| == |indices| && forall k :: 0 <= k < |r| ==> r[k] == data[indices[k]]
  {
    seq(|indices|, k requires 0 <= k < |indices| => data[indices[k]])
  }

  lemma ClampedPicked(data: seq<int>, indices: seq<int>)
    requires Subscripts(indices, |data|) && |data| <= INT32_MAX
    ensures Clamped(indices) == indices && Picked(Clamped(data), indices) == Clamped(Picked(data, indices))
  {
  }

  method Gather(data: ShapeTensor, indices: ShapeTensor) returns (z: ShapeTensor)
    requires data.Valid() && indices.Valid() && data.rank == 1 && Subscripts(indices.Value(), data.size)
    modifies data`tensor, indices`tensor
    ensures data.Valid() && indices.Valid() && data.Value() == old(data.Value()) &&
      indices.Value() == old(indices.Value())
    ensures z.Valid() && fresh(z) && z.rank == indices.rank
    ensures var w := Picked(old(data.Value()), old(indices.Value()));
      z.Value() == if old(Layered(data, indices)) then Clamped(w) else w
    ensures old(data.Known() && indices.Known()) ==> z.Known()
    ensures old(Layered(data, indices)) ==> !z.Known()
  {
    if (data.Known() && indices.Known()) || indices.size == 0 {
      var values: seq<int> := [];
      for k := 0 to |indices.values|
        invariant |values| == k && forall l :: 0 <= l < k ==> values[l] == data.Value()[indices.values[l]]
      {
        values := values + [data.values[indices.values[k]]];
      }
      z := new ShapeTensor.Of(indices.rank, values);
    } else {
      var s := data.Tensor();
      var t := indices.Tensor();
      ClampedPicked(data.Value(), indices.Value());
      z := new ShapeTensor.FromLayer(indices.rank, Picked(s, t));
    }
  }

  /** The product of the entries from `first` up to `last`. */
  ghost function Multiplied(v: seq<int>, first: nat, last: nat): int
    requires first <= last <= |v|
    decreases last - first
  {
    if first == last then 1 else Multiplied(v, first, last - 1) * v[last - 1]
  }

  /** Every partial product is representable where it is computed. */
  ghost predicate ProductsFit(v: seq<int>, first: nat, last: nat, known: bool)
    requires last <= |v|
  {
    forall l :: first <= l <= last ==> Fits64(Multiplied(v, first, l)) && (!known ==> Fits32(Multiplied(v, first, l)))
  }

  /** The number of elements of a tensor with these lengths. */
  lemma {:induction false} MultipliedIsVolume(v: seq<int>, first: nat, last: nat)
    requires first <= last <= |v|
    ensures Multiplied(v, first, last) == Volume(v[first..last])
    decreases last - first
  {
    if first < last {
      MultipliedIsVolume(v, first, last - 1);
      assert v[first..last] == v[first..last - 1] + [v[last - 1]];
      VolumeAppend(v[first..last - 1], v[last - 1]);
    }
  }

  lemma ProductOfTwo(layered: bool, u: seq<int>, v: seq<int>, a: int, b: int)
    requires u == [a] && v == [b] && Fits64(a * b) && (layered ==> Fits32(a) && Fits32(b) && Fits32(a * b))
    ensures Compatible(u, v) && Divisible(Prod, v) && OpValue(layered, Prod, u, v) == [a * b]
    ensures Fits(layered, [a * b])
  {
    assert ElementWise(Prod, u, v) == [a * b];
    assert layered ==> Clamped(u) == u && Clamped(v) == v;
  }

  method TimesEntry(z: ShapeTensor, x: ShapeTensor, i: nat) returns (r: ShapeTensor)
    requires z.Valid() && z.size == 1 && x.Valid() && x.rank == 1 && i < x.size && x != z
    requires AllFit64(x.Value()) && Fits64(z.Value()[0]) && Fits64(z.Value()[0] * x.Value()[i])
    requires x.Known() ==> z.Known()
    requires !x.Known() ==> x.size <= INT32_MAX && Fits32(z.Value()[0]) && Fits32(z.Value()[0] * x.Value()[i])
    modifies x`tensor, z`tensor
    ensures x.Valid() && x.Value() == old(x.Value()) && x.Known() == old(x.Known())
    ensures r.Valid() && fresh(r) && r.rank == z.rank && r.Value() == [old(z.Value()[0] * x.Value()[i])]
    ensures x.Known() ==> r.Known()
  {
    var index := new ShapeTensor.Of(z.rank, [i]);
    var d := Gather(x, index);
    ghost var a, b := z.Value()[0], x.Value()[i];
    assert d.Value() == [b] && z.Value() == [a];
    ProductOfTwo(LeftToLayer(Prod, z, d), z.Value(), d.Value(), a, b);
    r := Op(z, d, Prod);
  }

  method ProductOf(x: ShapeTensor, first: nat, last: nat, rank: int) returns (z: ShapeTensor)
    requires x.Valid() && x.rank == 1 && (rank == 0 || rank == 1) && first <= last <= x.size
    requires AllFit64(x.Value()) && (!x.Known() ==> x.size <= INT32_MAX)
    requires ProductsFit(x.Value(), first, last, x.Known())
    modifies x`tensor
    ensures x.Valid() && x.Value() == old(x.Value())
    ensures z.Valid() && fresh(z) && z.rank == rank && z.Value() == [Multiplied(old(x.Value()), first, last)]
  {
    z := new ShapeTensor.Of(rank, [1]);
    for i := first to last
      invariant x.Valid() && x.Value() == old(x.Value()) && x.Known() == old(x.Known())
      invariant z.Valid() && fresh(z) && z.rank == rank && z.Value() == [Multiplied(x.Value(), first, i)]
      invariant x.Known() ==> z.Known()
    {
      assert Multiplied(x.Value(), first, i + 1) == Multiplied(x.Value(), first, i) * x.Value()[i];
      z := TimesEntry(z, x, i);
    }
  }
}

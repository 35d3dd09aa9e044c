/** Expressions over shape tensors (3rdparty/onnx-tensorrt/ShapeTensor.cpp): building one in any
    mix of known and unknown operands gives a tensor with the meaning of the expression. */
module ShapeExpressions {
  import opened ShapeArithmetic
  import opened ShapeTensors
  import opened Wrappers

  /** A scalar has rank 0 and one entry; a vector has rank 1. */
  datatype Value = Value(rank: int, entries: seq<int>)

  datatype Expr =
    | Leaf(i: nat)
    | Const(value: Value)
    | Bin(op: Operation, left: Expr, right: Expr)
    | Join(left: Expr, right: Expr)
    | Pick(data: Expr, indices: Expr)

  /** Entries may use 64 bits when all are known, and must fit layers otherwise. */
  ghost predicate InWidth(v: Value, wide: bool)
  {
    && (v.rank == 0 || v.rank == 1) && (v.rank == 0 ==> |v.entries| == 1) && |v.entries| <= INT32_MAX
    && if wide then AllFit64(v.entries) else AllFit32(v.entries)
  }

  ghost function Within(v: Value, wide: bool): Option<Value>
  {
    if InWidth(v, wide) then Some(v) else None
  }

  /** The value an expression stands for, with no regard to what is known and which short cuts
      apply; `None` where it is undefined or leaves the width. */
  ghost function Denote(e: Expr, env: seq<Value>, wide: bool): (r: Option<Value>)
    ensures r.Some? ==> InWidth(r.value, wide)
  {
    match e
    case Leaf(i) => if i < |env| then Within(env[i], wide) else None
    case Const(value) => Within(value, wide)
    case Bin(_, l, r) => Combined(e, Denote(l, env, wide), Denote(r, env, wide), wide)
    case Join(l, r) => Combined(e, Denote(l, env, wide), Denote(r, env, wide), wide)
    case Pick(l, r) => Combined(e, Denote(l, env, wide), Denote(r, env, wide), wide)
  }

  /** Element-wise operands have the same rank, joined ones are vectors, and a vector is picked
      from by a scalar or a vector. */
  ghost function Combined(e: Expr, a: Option<Value>, b: Option<Value>, wide: bool): (r: Option<Value>)
    requires e.Bin? || e.Join? || e.Pick?
    ensures r.Some? ==> InWidth(r.value, wide)
  {
    if a.None? || b.None? then None
    else
      var (u, v) := (a.value.entries, b.value.entries);
      match e
      case Bin(op, _, _) =>
        if a.value.rank == b.value.rank && Compatible(u, v) && Divisible(op, v) then
          Within(Value(a.value.rank, ElementWise(op, u, v)), wide)
        else None
      case Join(_, _) => if a.value.rank == b.value.rank == 1 then Within(Value(1, u + v), wide) else None
      case Pick(_, _) =>
        if a.value.rank == 1 && Subscripts(v, |u|) then Within(Value(b.value.rank, Picked(u, v)), wide) else None
  }

  ghost predicate Stands(z: ShapeTensor, v: Value)
    reads z
  {
    z.Valid() && z.rank == v.rank && z.Value() == v.entries
  }

  /** The tensors in `env` have the values `vs`, all of them known if `wide`. */
  ghost predicate Holds(env: seq<ShapeTensor>, vs: seq<Value>, wide: bool)
    reads env
  {
    |env| == |vs| && forall i :: 0 <= i < |env| ==> Stands(env[i], vs[i]) && (wide ==> env[i].Known())
  }

  method Combine(e: Expr, x: ShapeTensor, y: ShapeTensor, ghost a: Value, ghost b: Value, ghost wide: bool)
    returns (z: ShapeTensor)
    requires e.Bin? || e.Join? || e.Pick?
    requires Stands(x, a) && Stands(y, b) && InWidth(a, wide) && InWidth(b, wide) && (wide ==> x.Known() && y.Known())
    requires Combined(e, Some(a), Some(b), wide).Some?
    modifies x`tensor, y`tensor
    ensures fresh(z) && Stands(z, Combined(e, Some(a), Some(b), wide).value) && (wide ==> z.Known())
  {
    if e.Bin? {
      z := Op(x, y, e.op);
    } else if e.Join? {
      z := Concat(x, y);
    } else {
      z := Gather(x, y);
    }
  }

  method Evaluate(e: Expr, env: seq<ShapeTensor>, ghost vs: seq<Value>, ghost wide: bool) returns (z: ShapeTensor)
    requires Holds(env, vs, wide) && Denote(e, vs, wide).Some?
    modifies env`tensor
    ensures Holds(env, vs, wide)
    ensures fresh(z) && Stands(z, Denote(e, vs, wide).value) && (wide ==> z.Known())
    decreases e
  {
    if e.Leaf? {
      z := new ShapeTensor.Copy(env[e.i]);
    } else if e.Const? {
      z := new ShapeTensor.Of(e.value.rank, e.value.entries);
    } else {
      var l, r := if e.Pick? then e.data else e.left, if e.Pick? then e.indices else e.right;
      var x := Evaluate(l, env, vs, wide);
      var y := Evaluate(r, env, vs, wide);
      z := Combine(e, x, y, Denote(l, vs, wide).value, Denote(r, vs, wide).value, wide);
    }
  }
}

/** The integer operations on shape values (3rdparty/onnx-tensorrt/ShapeTensor.cpp). */
module ShapeArithmetic {
  const INT32_MAX := 0x7fff_ffff
  const INT32_MIN := -0x8000_0000
  const INT64_MAX := 0x7fff_ffff_ffff_ffff
  const INT64_MIN := -0x8000_0000_0000_0000

  predicate Fits32(a: int) { INT32_MIN <= a <= INT32_MAX }
  predicate Fits64(a: int) { INT64_MIN <= a <= INT64_MAX }

  function Min(a: int, b: int): int { if b < a then b else a }
  function Max(a: int, b: int): int { if a < b then b else a }

  /** C++ integer division, which rounds towards zero. */
  function Truncated(x: int, y: int): int
    requires y != 0
  {
    var q := (if x < 0 then -x else x) / (if y < 0 then -y else y);
    if (x < 0) == (y < 0) then q else -q
  }

  /** The folded form of floor division. */
  function FloorDiv(x: int, y: int): int
    requires y != 0
  {
    var d := Truncated(x, y);
    if d * y == x then d else d - (if (x < 0) != (y < 0) then 1 else 0)
  }

  /** `q` is x / y rounded down: the remainder has the sign of the divisor and is smaller. */
  ghost predicate IsFloor(x: int, y: int, q: int)
    requires y != 0
  {
    var r := x - q * y;
    if y > 0 then 0 <= r < y else y < r <= 0
  }

  /** For all sign combinations. */
  lemma FloorDivIsFloor(x: int, y: int)
    requires y != 0
    ensures IsFloor(x, y, FloorDiv(x, y))
  {
    var d := Truncated(x, y);
    TruncatedRemainder(x, y);
    assert (d - 1) * y == d * y - y;
  }

  /** Truncation leaves a remainder with the sign of the dividend. */
  lemma TruncatedRemainder(x: int, y: int)
    requires y != 0
    ensures var r := x - Truncated(x, y) * y; var b := if y < 0 then -y else y;
      if x < 0 then -b < r <= 0 else 0 <= r < b
  {
    var a, b := if x < 0 then -x else x, if y < 0 then -y else y;
    var q := a / b;
    assert a == q * b + a % b by { Euclid(a, b); }
    Signs(q, b);
  }

  lemma Euclid(a: int, b: int)
    requires b > 0
    ensures a == (a / b) * b + a % b && 0 <= a % b < b
  {
  }

  lemma Signs(q: int, b: int)
    ensures (-q) * b == -(q * b) && q * -b == -(q * b) && (-q) * -b == q * b
  {
  }

  lemma FloorUnique(x: int, y: int, p: int, q: int)
    requires y != 0 && IsFloor(x, y, p) && IsFloor(x, y, q)
    ensures p == q
  {
    var d := p - q;
    assert d * y == p * y - q * y;
    Away(d, y);
  }

  lemma Away(d: int, y: int)
    ensures y > 0 && d >= 1 ==> d * y >= y
    ensures y > 0 && d <= -1 ==> d * y <= -y
    ensures y < 0 && d >= 1 ==> d * y <= y
    ensures y < 0 && d <= -1 ==> d * y >= -y
  {
  }

  // ----- the operations -----

  datatype Operation = Sum | Sub | Prod | MinOf | MaxOf | FloorDivision

  predicate Defined(op: Operation, b: int) { op.FloorDivision? ==> b != 0 }

  function Apply(op: Operation, a: int, b: int): int
    requires Defined(op, b)
  {
    match op
    case Sum => a + b
    case Sub => a - b
    case Prod => a * b
    case MinOf => Min(a, b)
    case MaxOf => Max(a, b)
    case FloorDivision => FloorDiv(a, b)
  }

  function RightIdentity(op: Operation): int
  {
    match op
    case Sum => 0
    case Sub => 0
    case Prod => 1
    case MinOf => INT64_MAX
    case MaxOf => INT64_MIN
    case FloorDivision => 1
  }

  predicate Commutes(op: Operation) { op.Sum? || op.Prod? || op.MinOf? || op.MaxOf? }

  /** The facts behind the short cuts. */
  lemma IdentityOnRight(op: Operation, a: int)
    requires Fits64(a)
    ensures Defined(op, RightIdentity(op)) && Apply(op, a, RightIdentity(op)) == a
  {
  }

  lemma OperandsSwap(op: Operation, a: int, b: int)
    requires Commutes(op)
    ensures Apply(op, a, b) == Apply(op, b, a)
  {
  }
}

/** The C `int` of the calculator: 32-bit values, and one extra value for what C leaves undefined. */
module Arithmetic {

  type int32 = x: int | -0x8000_0000 <= x < 0x8000_0000

  /** A semantic value.  `Undefined` stands for the result of an operation that has no meaning in C:
      a zero divisor, a result outside 32 bits, or a read of an uninitialised stack slot. */
  datatype Value = Known(n: int32) | Undefined

  datatype Op = Add | Sub | Mul | Div {
    predicate Additive() { Add? || Sub? }
  }

  function Abs(x: int): nat { if x < 0 then -x else x }

  /** C's `/`: the quotient truncated toward zero. */
  function TruncDiv(a: int, b: int): (q: int)
    requires b != 0
  {
    if (a < 0) == (b < 0) then Abs(a) / Abs(b) else -(Abs(a) / Abs(b))
  }

  lemma QuotientIsUnique(m: nat, n: nat, p: int)
    requires n > 0
    ensures p == m / n <==> 0 <= m - p * n < n
  {
    var d := m / n - p;
    assert d * n == (m / n) * n - p * n;
    if d >= 1 { assert d * n >= n; }
    if d <= -1 { assert d * n + n <= 0; }
  }

  /** The remainder that goes with a truncated quotient is smaller than the divisor and never has the
      opposite sign of the dividend; no other quotient has such a remainder. */
  lemma TruncDivMeaning(a: int, b: int, q: int)
    requires b != 0
    ensures q == TruncDiv(a, b) <==>
            Abs(a - q * b) < Abs(b) && (a >= 0 ==> a - q * b >= 0) && (a < 0 ==> a - q * b <= 0)
  {
    var p := if (a < 0) == (b < 0) then q else -q;
    QuotientIsUnique(Abs(a), Abs(b), p);
    assert p * Abs(b) == if a < 0 then -(q * b) else q * b;
  }

  /** One of the four binary actions of `expr`. */
  function Apply(op: Op, x: Value, y: Value): Value {
    if x.Undefined? || y.Undefined? || (op.Div? && y.n == 0) then Undefined else
    var r: int := match op
      case Add => x.n + y.n
      case Sub => x.n - y.n
      case Mul => x.n * y.n
      case Div => TruncDiv(x.n, y.n);
    if -0x8000_0000 <= r < 0x8000_0000 then Known(r) else Undefined
  }

  // ---- what the operations mean ----

  /** `x` added up `k` times. */
  function Repeated(x: int, k: nat): int { if k == 0 then 0 else Repeated(x, k - 1) + x }

  /** `n` is what `x op y` should be: a sum is undone by subtracting, a difference by adding, a product is repeated
      addition, and a quotient leaves a remainder that is smaller than the divisor and not of opposite sign. */
  predicate Computes(op: Op, x: int, y: int, n: int) {
    match op
    case Add => n - y == x
    case Sub => n + y == x
    case Mul => n == if y >= 0 then Repeated(x, y) else -Repeated(x, -y)
    case Div =>
      var rem, size := x - n * y, if y > 0 then y else -y;
      y != 0 && if x >= 0 then 0 <= rem < size else -size < rem <= 0
  }

  lemma {:induction false} RepeatedIsProduct(x: int, k: nat)
    ensures Repeated(x, k) == x * k
  {
    if k > 0 {
      RepeatedIsProduct(x, k - 1);
      assert x * (k - 1) == x * k - x;
    }
  }

  lemma ProductMeaning(x: int, y: int, n: int)
    ensures Computes(Mul, x, y, n) <==> n == x * y
  {
    RepeatedIsProduct(x, if y >= 0 then y else -y);
    assert x * -y == -(x * y);
  }

  /** The value of an operation is the one 32-bit number that the operation should give. */
  lemma ApplyMeaning(op: Op, x: int32, y: int32, n: int32)
    ensures Apply(op, Known(x), Known(y)) == Known(n) <==> Computes(op, x, y, n)
  {
    if op.Mul? { ProductMeaning(x, y, n); }
    if op.Div? && y != 0 { TruncDivMeaning(x, y, n); }
  }

  /** It is undefined exactly when there is no such number, as with a zero divisor, or an operand is. */
  lemma ApplyUndefined(op: Op, u: Value, v: Value)
    ensures Apply(op, u, v) == Undefined <==>
            u.Undefined? || v.Undefined? || forall n: int32 :: !Computes(op, u.n, v.n, n)
  {
    if u.Known? && v.Known? {
      forall n: int32 ensures Apply(op, u, v) == Known(n) <==> Computes(op, u.n, v.n, n) {
        ApplyMeaning(op, u.n, v.n, n);
      }
      if Apply(op, u, v).Known? { assert Computes(op, u.n, v.n, Apply(op, u, v).n); }
    }
  }
}

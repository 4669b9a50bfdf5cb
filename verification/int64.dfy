/** Go's `int64`: the range, two's-complement wrap-around of `+ - *` and
    unary minus, and `/`, which truncates toward zero. */
module Int64 {
  const MinInt64: int := -0x8000_0000_0000_0000
  const MaxInt64: int := 0x7FFF_FFFF_FFFF_FFFF
  const Modulus: int := 0x1_0000_0000_0000_0000

  type Int64 = x: int | MinInt64 <= x <= MaxInt64

  /** The `int64` that a mathematical result wraps around to. */
  function Wrap64(x: int): (r: Int64)
    ensures (r - x) % Modulus == 0
    ensures MinInt64 <= x <= MaxInt64 ==> r == x
  {
    (x - MinInt64) % Modulus + MinInt64
  }

  function Abs(x: int): nat {
    if x < 0 then -x else x
  }

  /** Go's integer division: the quotient is truncated toward zero, so the
      remainder is smaller than the divisor and has the sign of the dividend. */
  function TruncDiv(a: int, b: int): (q: int)
    requires b != 0
    ensures var r := a - q * b;
      Abs(r) < Abs(b) && (r == 0 || (r < 0 <==> a < 0))
  {
    var q := Abs(a) / Abs(b);
    if (a < 0) == (b < 0) then q else -q
  }

  /** The quotient fits in an `int64` except for the most negative value
      divided by -1. */
  lemma TruncDivInRange(a: Int64, b: Int64)
    requires b != 0 && !(a == MinInt64 && b == -1)
    ensures MinInt64 <= TruncDiv(a, b) <= MaxInt64
  {
    var n, d := Abs(a), Abs(b);
    if d == 1 {
      assert n / d == n;
    } else {
      QuotientHalf(n, d);
    }
  }

  lemma QuotientHalf(n: nat, d: nat)
    requires d >= 2
    ensures n / d <= n / 2
  {
    var q := n / d;
    assert d * q <= n;
    DoubleAtMost(q, d);
  }

  lemma {:induction false} DoubleAtMost(q: nat, d: nat)
    requires d >= 2
    ensures 2 * q <= d * q
    decreases d
  {
    if d > 2 {
      DoubleAtMost(q, d - 1);
      assert d * q == (d - 1) * q + q;
    }
  }
}

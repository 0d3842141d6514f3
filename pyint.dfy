/**
 * The Python integer operators the emulator applies to register values.
 * Python integers are unbounded and behave as infinite two's-complement
 * bit strings: `&`, `|`, `^` and `~` act on every bit, `>>` floors, and `%`
 * takes the sign of the divisor. Dafny's `/` and `%` by a POSITIVE divisor
 * agree with Python's floor division and modulo, which the definitions below
 * rely on.
 */
module PyInt {

  function Abs(x: int): nat { if x < 0 then -x else x }

  /** 0 and -1 are the two integers whose bits are all equal. */
  predicate AllBitsEqual(x: int) { x == 0 || x == -1 }

  /** Halving (Python's `x >> 1`) moves every integer except 0 and -1 towards 0. */
  lemma HalfShrinks(x: int)
    ensures Abs(x / 2) <= Abs(x)
    ensures !AllBitsEqual(x) ==> Abs(x / 2) < Abs(x)
  {
  }

  datatype BitOp = AndBits | OrBits | XorBits

  /** The truth table of one bit of `&`, `|` or `^`. */
  function Combine(op: BitOp, p: bool, q: bool): bool {
    match op
    case AndBits => p && q
    case OrBits => p || q
    case XorBits => p != q
  }

  /** Python's `x & 1 == 1`. */
  predicate LowBit(x: int) { x % 2 == 1 }

  /** Bit `k` of `x` in two's complement: Python's `(x >> k) & 1 == 1`. */
  predicate TestBit(x: int, k: nat)
    decreases k
  {
    if k == 0 then LowBit(x) else TestBit(x / 2, k - 1)
  }

  /** Python's `x & y`, `x | y` and `x ^ y` on unbounded integers. */
  function Bitwise(op: BitOp, x: int, y: int): int
    decreases Abs(x) + Abs(y)
  {
    if AllBitsEqual(x) && AllBitsEqual(y) then
      (if Combine(op, x == -1, y == -1) then -1 else 0)
    else
      assert Abs(x / 2) + Abs(y / 2) < Abs(x) + Abs(y) by { HalfShrinks(x); HalfShrinks(y); }
      2 * Bitwise(op, x / 2, y / 2) + (if Combine(op, LowBit(x), LowBit(y)) then 1 else 0)
  }

  /** Python's `~x`. */
  function Invert(x: int): int { -x - 1 }

  function Pow2(n: nat): (p: nat)
    ensures p >= 1
  {
    if n == 0 then 1 else 2 * Pow2(n - 1)
  }

  /** Python's `x << n` for a non-negative shift count. */
  function ShiftLeft(x: int, n: nat): int { x * Pow2(n) }

  /** Python's `x >> n` for a non-negative shift count (floor division by 2^n). */
  function ShiftRight(x: int, n: nat): int { x / Pow2(n) }

  /** Python's `x // y`: the quotient rounded towards minus infinity. */
  function FloorDiv(x: int, y: int): int
    requires y != 0
  {
    if y > 0 || x % y == 0 then x / y else x / y - 1
  }

  /** Python's `x % y`: the remainder takes the sign of the divisor. */
  function FloorMod(x: int, y: int): int
    requires y != 0
  {
    if y > 0 || x % y == 0 then x % y else x % y + y
  }

  // ---------------------------------------------------------------------
  // Properties

  /** Splitting off the low bit: one step of the bitwise recursion. */
  lemma BitwiseStep(op: BitOp, x: int, y: int)
    ensures LowBit(Bitwise(op, x, y)) == Combine(op, LowBit(x), LowBit(y))
    ensures Bitwise(op, x, y) / 2 == Bitwise(op, x / 2, y / 2)
  {
    if AllBitsEqual(x) && AllBitsEqual(y) {
      SignStep(op, x, y);
    } else {
      var high := Bitwise(op, x / 2, y / 2);
      var low := if Combine(op, LowBit(x), LowBit(y)) then 1 else 0;
      assert Bitwise(op, x, y) == 2 * high + low;
      SplitLowBit(high, low);
    }
  }

  lemma SplitLowBit(high: int, low: int)
    requires low == 0 || low == 1
    ensures (2 * high + low) % 2 == low && (2 * high + low) / 2 == high
  {
  }

  lemma SignStep(op: BitOp, x: int, y: int)
    requires AllBitsEqual(x) && AllBitsEqual(y)
    ensures LowBit(Bitwise(op, x, y)) == Combine(op, LowBit(x), LowBit(y))
    ensures Bitwise(op, x, y) / 2 == Bitwise(op, x / 2, y / 2)
  {
    assert x / 2 == x && y / 2 == y;
    assert LowBit(x) == (x == -1) && LowBit(y) == (y == -1);
    var r := Bitwise(op, x, y);
    assert r == -1 || r == 0;
    assert r / 2 == r;
  }

  /** Every bit of `x op y` is `op` applied to the same bit of `x` and `y`. */
  lemma {:induction false} BitwiseBit(op: BitOp, x: int, y: int, k: nat)
    ensures TestBit(Bitwise(op, x, y), k) == Combine(op, TestBit(x, k), TestBit(y, k))
    decreases k
  {
    BitwiseStep(op, x, y);
    if k > 0 {
      BitwiseBit(op, x / 2, y / 2, k - 1);
    }
  }

  /** `(x ^ y) ^ y == x`: XOR with the same value undoes itself. */
  lemma {:induction false} XorUndo(x: int, y: int)
    ensures Bitwise(XorBits, Bitwise(XorBits, x, y), y) == x
    decreases Abs(x) + Abs(y)
  {
    var z := Bitwise(XorBits, x, y);
    var w := Bitwise(XorBits, z, y);
    BitwiseStep(XorBits, x, y);
    BitwiseStep(XorBits, z, y);
    if AllBitsEqual(x) && AllBitsEqual(y) {
      assert AllBitsEqual(z);
    } else {
      HalfShrinks(x);
      HalfShrinks(y);
      XorUndo(x / 2, y / 2);
      assert w / 2 == x / 2;
      assert LowBit(w) == LowBit(x);
    }
  }

  /** `x & 0 == 0`. */
  lemma {:induction false} AndZero(x: int)
    ensures Bitwise(AndBits, x, 0) == 0
    decreases Abs(x)
  {
    if !AllBitsEqual(x) {
      HalfShrinks(x);
      AndZero(x / 2);
    }
  }

  /** `x & 3 == x % 4`: masking with 3 keeps the two low bits. */
  lemma AndThree(x: int)
    ensures Bitwise(AndBits, x, 3) == x % 4
  {
    var h := x / 2;
    AndZero(h / 2);
    assert Bitwise(AndBits, h, 1) == h % 2;
    assert Bitwise(AndBits, x, 3) == 2 * (h % 2) + x % 2;
    assert x == 4 * (h / 2) + 2 * (h % 2) + x % 2;
  }

  /** On non-negative operands `&` gives a non-negative value no larger than either operand. */
  lemma {:induction false} AndBounded(x: int, y: int)
    requires 0 <= x && 0 <= y
    ensures 0 <= Bitwise(AndBits, x, y) <= x
    ensures Bitwise(AndBits, x, y) <= y
    decreases x + y
  {
    if !(AllBitsEqual(x) && AllBitsEqual(y)) {
      AndBounded(x / 2, y / 2);
    }
  }

  /** On non-negative operands `|` gives a value at least as large as either operand. */
  lemma {:induction false} OrCovers(x: int, y: int)
    requires 0 <= x && 0 <= y
    ensures x <= Bitwise(OrBits, x, y) && y <= Bitwise(OrBits, x, y)
    decreases x + y
  {
    if !(AllBitsEqual(x) && AllBitsEqual(y)) {
      OrCovers(x / 2, y / 2);
    }
  }

  /** `~~x == x`, and `~x` has the opposite sign bit to `x`. */
  lemma InvertInvolution(x: int)
    ensures Invert(Invert(x)) == x
    ensures (x >= 0) != (Invert(x) >= 0)
  {
  }

  /** `(x << n) >> n == x`. */
  lemma ShiftRoundTrip(x: int, n: nat)
    ensures ShiftRight(ShiftLeft(x, n), n) == x
  {
    var p := Pow2(n);
    var q := (x * p) / p;
    var r := (x * p) % p;
    assert x * p == q * p + r && 0 <= r < p;
    var d := x - q;
    assert d * p == r;
    assert d >= 1 ==> d * p >= p;
    assert d <= -1 ==> d * p <= -p;
  }

  /** Python's division law `x == (x // y) * y + x % y`, with the remainder on the divisor's side of zero. */
  lemma FloorDivMod(x: int, y: int)
    requires y != 0
    ensures x == FloorDiv(x, y) * y + FloorMod(x, y)
    ensures y > 0 ==> 0 <= FloorMod(x, y) < y
    ensures y < 0 ==> y < FloorMod(x, y) <= 0
  {
  }
}

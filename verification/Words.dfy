/** Unsigned 32-bit arithmetic as the filter machine performs it. */
module Words {

  const TWO32: int := 0x1_0000_0000

  type Word = x: int | 0 <= x < 0x1_0000_0000
  type Octet = x: int | 0 <= x < 256

  datatype Option<+T> = None | Some(value: T)

  /** Truncation of any integer to 32 bits: what an unsigned C expression wraps to. */
  function Wrap(x: int): Word { x % TWO32 }

  /** The cast of a 32-bit word to a signed 32-bit integer. */
  function Signed(w: Word): int { if w < 0x8000_0000 then w else w - TWO32 }

  function Pow2(n: nat): (r: nat)
    ensures r >= 1
  {
    if n == 0 then 1 else 2 * Pow2(n - 1)
  }

  lemma Pow2Of32()
    ensures Pow2(32) == TWO32
  {
    assert Pow2(8) == 256;
    assert Pow2(16) == 0x1_0000;
    assert Pow2(24) == 0x100_0000;
  }

  datatype BitFn = BitAnd | BitOr | BitXor

  function OnBits(f: BitFn, a: int, b: int): (r: int)
    ensures 0 <= r <= 1
  {
    match f
    case BitAnd => if a == 1 && b == 1 then 1 else 0
    case BitOr => if a == 1 || b == 1 then 1 else 0
    case BitXor => if a == b then 0 else 1
  }

  /** A bitwise operation on the low n bits, from the lowest bit up. */
  function BitOp(f: BitFn, x: nat, y: nat, n: nat): nat
    decreases n, x, y
  {
    if n == 0 then 0
    else OnBits(f, x % 2, y % 2) + 2 * BitOp(f, x / 2, y / 2, n - 1)
  }

  function And(x: Word, y: Word): Word { Wrap(BitOp(BitAnd, x, y, 32)) }
  function Or(x: Word, y: Word): Word { Wrap(BitOp(BitOr, x, y, 32)) }
  function Xor(x: Word, y: Word): Word { Wrap(BitOp(BitXor, x, y, 32)) }

  function ShiftLeft(x: Word, n: Word): Word { if n < 32 then Wrap(x * Pow2(n)) else 0 }
  function ShiftRight(x: Word, n: Word): Word
  {
    if n < 32 then DivBound(x, Pow2(n)); x / Pow2(n) else 0
  }

  lemma DivBound(x: nat, d: nat)
    requires d >= 1
    ensures 0 <= x / d <= x
  {
  }

  lemma {:induction false} BitOpZero(x: nat, n: nat)
    requires x < Pow2(n)
    ensures BitOp(BitAnd, x, 0, n) == 0 == BitOp(BitAnd, 0, x, n)
    ensures BitOp(BitOr, x, 0, n) == x == BitOp(BitOr, 0, x, n)
    ensures BitOp(BitXor, x, 0, n) == x == BitOp(BitXor, 0, x, n)
  {
    if n > 0 {
      BitOpZero(x / 2, n - 1);
    }
  }

  /** What the bitwise operators do when one operand is zero. */
  lemma ZeroBits(x: Word)
    ensures And(x, 0) == 0 == And(0, x)
    ensures Or(x, 0) == x == Or(0, x)
    ensures Xor(x, 0) == x == Xor(0, x)
  {
    hide BitOp, Pow2;
    Pow2Of32();
    BitOpZero(x, 32);
  }

  lemma ZeroShifts(x: Word)
    ensures ShiftLeft(x, 0) == x == ShiftRight(x, 0)
    ensures ShiftLeft(0, x) == 0 == ShiftRight(0, x)
  {
    assert Pow2(0) == 1;
    ZeroOver(Pow2(x));
  }

  lemma ZeroOver(d: nat)
    requires d >= 1
    ensures 0 / d == 0 && 0 * d == 0
  {
  }

  lemma {:induction false} BitOpOnes(x: nat, n: nat)
    requires x < Pow2(n)
    ensures BitOp(BitAnd, x, Pow2(n) - 1, n) == x
  {
    if n > 0 {
      BitOpOnes(x / 2, n - 1);
      assert (Pow2(n) - 1) / 2 == Pow2(n - 1) - 1;
    }
  }

  /** The all-ones mask keeps every bit. */
  lemma FullMask(x: Word)
    ensures And(x, 0xffff_ffff) == x
  {
    hide BitOp, Pow2;
    Pow2Of32();
    BitOpOnes(x, 32);
  }

  lemma {:induction false} BitOpSame(x: nat, n: nat)
    requires x < Pow2(n)
    ensures BitOp(BitAnd, x, x, n) == x
  {
    if n > 0 {
      BitOpSame(x / 2, n - 1);
    }
  }

  lemma SameMask(x: Word)
    ensures And(x, x) == x
  {
    hide BitOp, Pow2;
    Pow2Of32();
    BitOpSame(x, 32);
  }

  // --------------------------------------------------------------- quotients

  lemma DivMul(x: nat, c: nat, m: nat)
    requires c >= 1 && m >= 1
    ensures c * m >= 1 && x / (c * m) == x / c / m
  {
    var q := x / c / m;
    QuotientBounds(x, c);
    QuotientBounds(x / c, m);
    assert q * m <= x / c < q * m + m;
    ScaledBounds(x, c, m, q);
    QuotientUnique(x, c * m, q);
  }

  lemma QuotientBounds(x: nat, d: nat)
    requires d >= 1
    ensures x / d * d <= x < x / d * d + d
  {
  }

  lemma ScaledBounds(x: nat, c: nat, m: nat, q: nat)
    requires c >= 1 && m >= 1 && x / c * c <= x < x / c * c + c && q * m <= x / c < q * m + m
    ensures q * (c * m) <= x < q * (c * m) + c * m
  {
    var y := x / c;
    assert q * m * c <= y * c by { Monotone(q * m, y, c); }
    assert (y + 1) * c <= (q * m + m) * c by { Monotone(y + 1, q * m + m, c); }
    assert q * m * c == q * (c * m) && (q * m + m) * c == q * (c * m) + c * m;
  }

  lemma Monotone(a: int, b: int, c: nat)
    requires a <= b
    ensures a * c <= b * c
  {
  }

  lemma QuotientUnique(x: nat, d: nat, q: nat)
    requires d >= 1 && q * d <= x < q * d + d
    ensures x / d == q
  {
    var r := x / d;
    QuotientBounds(x, d);
    if r < q { Monotone(r + 1, q, d); }
    if q < r { Monotone(q + 1, r, d); }
  }
}

/** Shifts, low-bit masks and bitwise OR on naturals. They are defined bit by
    bit, so that every fact about them is linear. */
module Arithmetic {

  /** `x << n`, without a width. */
  function Shl(x: int, n: nat): int
  {
    if n == 0 then x else 2 * Shl(x, n - 1)
  }

  /** `x >> n`. */
  function Shr(x: nat, n: nat): nat
  {
    if n == 0 then x else Shr(x / 2, n - 1)
  }

  /** `x & (2^n - 1)`. */
  function Low(x: nat, n: nat): nat
  {
    if n == 0 then 0 else x % 2 + 2 * Low(x / 2, n - 1)
  }

  /** `a | b`. */
  function BitOr(a: nat, b: nat): nat
    decreases a
  {
    if a == 0 then b
    else 2 * BitOr(a / 2, b / 2) + (if a % 2 == 1 || b % 2 == 1 then 1 else 0)
  }

  function Pow2(n: nat): int { Shl(1, n) }

  function Min(a: int, b: int): int { if a <= b then a else b }

  /** `a.div_ceil(8)`. */
  function BytesFor(bits: nat): nat { (bits + 7) / 8 }

  lemma {:induction false} ShlLinear(x: int, y: int, n: nat)
    ensures Shl(x + y, n) == Shl(x, n) + Shl(y, n)
    ensures x <= y ==> Shl(x, n) <= Shl(y, n)
    ensures Shl(0, n) == 0
  {
    if n != 0 { ShlLinear(x, y, n - 1); }
  }

  lemma {:induction false} ShlShl(x: int, a: nat, b: nat)
    ensures Shl(Shl(x, a), b) == Shl(x, a + b)
  {
    if b != 0 { ShlShl(x, a, b - 1); }
  }

  lemma {:induction false} Pow2Grows(a: nat, b: nat)
    ensures Pow2(a) >= 1
    ensures a <= b ==> Pow2(a) <= Pow2(b)
    decreases b, a
  {
    if a != 0 { Pow2Grows(a - 1, b); }
    if a < b { Pow2Grows(a, b - 1); }
  }

  lemma ByteShift(x: int)
    ensures Shl(x, 8) == 0x100 * x
    ensures x >= 0 ==> Shr(x, 8) == x / 0x100 && Low(x, 8) == x % 0x100
  {
    ShlByte(x);
    if x >= 0 {
      ShlByte(1);
      ShlByte(x / 0x100);
      ShiftUnique(x, 8, x / 0x100, x % 0x100);
    }
  }

  lemma ShlByte(x: int)
    ensures Shl(x, 8) == 0x100 * x
  {
    assert Shl(x, 1) == 2 * x;
    assert Shl(x, 3) == 8 * x;
    assert Shl(x, 5) == 32 * x;
    assert Shl(x, 7) == 128 * x;
  }

  lemma Pow2Widths()
    ensures Pow2(8) == 0x100 && Pow2(16) == 0x1_0000 && Pow2(32) == 0x1_0000_0000
    ensures Pow2(64) == 0x1_0000_0000_0000_0000
  {
    assert Pow2(4) == 16;
    assert Pow2(8) == 0x100;
    assert Pow2(12) == 0x1000;
    assert Pow2(16) == 0x1_0000;
    assert Pow2(24) == 0x100_0000;
    assert Pow2(32) == 0x1_0000_0000;
    assert Pow2(40) == 0x100_0000_0000;
    assert Pow2(48) == 0x1_0000_0000_0000;
    assert Pow2(56) == 0x100_0000_0000_0000;
  }

  /** High part and low part determine the number. */
  lemma {:induction false} ShiftUnique(x: nat, n: nat, high: nat, low: nat)
    requires low < Pow2(n) && x == Shl(high, n) + low
    ensures Shr(x, n) == high && Low(x, n) == low
  {
    if n != 0 {
      ShiftUnique(x / 2, n - 1, high, low / 2);
    }
  }

  lemma {:induction false} ShiftSplit(x: nat, n: nat)
    ensures x == Shl(Shr(x, n), n) + Low(x, n)
    ensures Low(x, n) < Pow2(n)
    ensures x < Pow2(n) ==> Low(x, n) == x
    ensures Low(x, n) <= x
  {
    if n != 0 {
      ShiftSplit(x / 2, n - 1);
    }
  }

  lemma {:induction false} ShrShr(x: nat, a: nat, b: nat)
    ensures Shr(Shr(x, a), b) == Shr(x, a + b)
  {
    if a != 0 { ShrShr(x / 2, a - 1, b); }
  }

  /** A window of bits is unaffected by masking off bits above it. */
  lemma {:induction false} Window(x: nat, shift: nat, width: nat, bits: nat)
    requires shift + width <= bits
    ensures Low(Shr(Low(x, bits), shift), width) == Low(Shr(x, shift), width)
    decreases bits
  {
    if shift != 0 {
      assert Low(x, bits) / 2 == Low(x / 2, bits - 1);
      Window(x / 2, shift - 1, width, bits - 1);
    } else if width != 0 {
      assert Low(x, bits) / 2 == Low(x / 2, bits - 1);
      Window(x / 2, 0, width - 1, bits - 1);
    }
  }

  /** A digit below `2^a` on top of `b` bits stays below `2^(a+b)`. */
  lemma StackBound(high: int, a: nat, low: int, b: nat)
    requires high < Pow2(a) && low < Pow2(b)
    ensures Shl(high, b) + low < Pow2(a + b)
  {
    ShlLinear(high, Pow2(a) - 1, b);
    ShlLinear(Pow2(a) - 1, 1, b);
    ShlShl(1, a, b);
  }

  /** OR-ing into bits that are all zero is addition. */
  lemma {:induction false} BitOrDisjoint(a: nat, b: nat, k: nat)
    requires a < Pow2(k)
    ensures Shl(b, k) >= 0
    ensures BitOr(a, Shl(b, k)) == a + Shl(b, k)
    decreases k
  {
    if k > 0 {
      BitOrDisjoint(a / 2, b, k - 1);
    }
  }

  /** The number of significant bits. */
  function BitLength(n: nat): nat
  {
    if n == 0 then 0 else 1 + BitLength(n / 2)
  }

  /** `BitLength` is the least width that holds the value. */
  lemma {:induction false} BitLengthIsLeast(n: nat, w: nat)
    ensures n < Pow2(w) <==> BitLength(n) <= w
    decreases n
  {
    Pow2Grows(w, w);
    if n != 0 && w != 0 {
      BitLengthIsLeast(n / 2, w - 1);
    }
  }
}

/** Little-endian byte strings. */
module Bytes {
  import opened Arithmetic

  type byte = x: int | 0 <= x < 0x100
  type u16 = x: int | 0 <= x < 0x1_0000
  type u32 = x: int | 0 <= x < 0x1_0000_0000
  type u64 = x: int | 0 <= x < 0x1_0000_0000_0000_0000

  /** The natural number a byte string denotes, least significant byte first. */
  function LE(s: seq<byte>): nat
  {
    if s == [] then 0 else s[0] + 0x100 * LE(s[1..])
  }

  /** The `k` least significant bytes of `n`. */
  function ToLE(n: nat, k: nat): (s: seq<byte>)
    ensures |s| == k
  {
    if k == 0 then [] else [n % 0x100] + ToLE(n / 0x100, k - 1)
  }

  lemma {:induction false} LERoundTrip(n: nat, k: nat)
    requires n < Pow2(8 * k)
    ensures LE(ToLE(n, k)) == n
  {
    if k != 0 {
      var rest := 8 * (k - 1);
      ShlShl(1, 8, rest);
      ShlShl(1, rest, 8);
      ByteShift(Pow2(rest));
      var s := ToLE(n, k);
      assert s[1..] == ToLE(n / 0x100, k - 1);
      LERoundTrip(n / 0x100, k - 1);
    }
  }

  lemma {:induction false} ToLERoundTrip(s: seq<byte>)
    ensures ToLE(LE(s), |s|) == s
  {
    if s != [] {
      ToLERoundTrip(s[1..]);
      assert s == [s[0]] + s[1..];
    }
  }

  lemma {:induction false} LEConcat(a: seq<byte>, b: seq<byte>)
    ensures LE(a + b) == LE(a) + Shl(LE(b), 8 * |a|)
  {
    if a == [] {
      assert a + b == b;
    } else {
      assert (a + b)[1..] == a[1..] + b;
      LEConcat(a[1..], b);
      var n := 8 * |a[1..]|;
      ShlShl(LE(b), n, 8);
      ByteShift(Shl(LE(b), n));
    }
  }

  lemma {:induction false} LEBound(s: seq<byte>)
    ensures LE(s) < Pow2(8 * |s|)
  {
    if s != [] {
      LEBound(s[1..]);
      var n := 8 * |s[1..]|;
      ShlShl(1, n, 8);
      ByteShift(Pow2(n));
    }
  }

  lemma {:induction false} LEZeros(s: seq<byte>)
    requires forall k | 0 <= k < |s| :: s[k] == 0
    ensures LE(s) == 0
  {
    if s != [] {
      LEZeros(s[1..]);
    }
  }

  /** Overwriting one byte changes the denoted number by the weighted difference. */
  lemma {:induction false} LEUpdate(s: seq<byte>, k: nat, x: byte)
    requires k < |s|
    ensures LE(s[k := x]) + Shl(s[k], 8 * k) == LE(s) + Shl(x, 8 * k)
  {
    var t := s[k := x];
    if k == 0 {
      assert t[1..] == s[1..];
    } else {
      assert t[1..] == s[1..][k - 1 := x];
      LEUpdate(s[1..], k - 1, x);
      var n := 8 * (k - 1);
      ShlShl(x, n, 8);
      ShlShl(s[k], n, 8);
      ByteShift(Shl(x, n));
      ByteShift(Shl(s[k], n));
    }
  }

  /** Shifting right by whole bytes drops the low bytes. */
  lemma LEDrop(s: seq<byte>, k: nat)
    requires k <= |s|
    ensures Shr(LE(s), 8 * k) == LE(s[k..])
    ensures Low(LE(s), 8 * k) == LE(s[..k])
  {
    assert s == s[..k] + s[k..];
    LEConcat(s[..k], s[k..]);
    LEBound(s[..k]);
    ShiftUnique(LE(s), 8 * k, LE(s[k..]), LE(s[..k]));
  }

  /** A byte string below `2^n` has no bit set at or above position `n`. */
  lemma LEHighBytes(s: seq<byte>, k: nat, n: nat)
    requires k < |s| && LE(s) < Pow2(n)
    ensures 8 * k >= n ==> s[k] == 0
    ensures 8 * k < n ==> s[k] < Pow2(n - 8 * k)
  {
    LEUpdate(s, k, 0);
    ShlLinear(0, 0, 8 * k);
    if 8 * k >= n {
      Pow2Grows(n, 8 * k);
      if s[k] >= 1 { ShlLinear(1, s[k], 8 * k); }
    } else if s[k] >= Pow2(n - 8 * k) {
      ShlLinear(Pow2(n - 8 * k), s[k], 8 * k);
      ShlShl(1, n - 8 * k, 8 * k);
    }
  }

  // --- Fixed-width integers -------------------------------------------------

  function U16LE(x: u16): (s: seq<byte>)
    ensures |s| == 2
  {
    ToLE(x, 2)
  }

  function U32LE(x: u32): (s: seq<byte>)
    ensures |s| == 4
  {
    ToLE(x, 4)
  }

  function U64LE(x: u64): (s: seq<byte>)
    ensures |s| == 8
  {
    ToLE(x, 8)
  }


  function AsU16(x: int): u16 { x % 0x1_0000 }
  function AsU32(x: int): u32 { x % 0x1_0000_0000 }
  /** Wrapping 32-bit addition and subtraction. */
  function WrapAdd(a: int, b: int): u32 { AsU32(a + b) }
  function WrapSub(a: int, b: int): u32 { AsU32(a - b) }

  function AsU64(x: int): u64 { x % 0x1_0000_0000_0000_0000 }

  lemma LEWidths(s: seq<byte>)
    ensures |s| == 2 ==> LE(s) < 0x1_0000
    ensures |s| == 4 ==> LE(s) < 0x1_0000_0000
    ensures |s| == 8 ==> LE(s) < 0x1_0000_0000_0000_0000
  {
    LEBound(s);
    Pow2Widths();
  }

  function ReadU16(data: seq<byte>, off: nat): u16
    requires off + 2 <= |data|
  {
    LEWidths(data[off..off + 2]);
    LE(data[off..off + 2])
  }

  function ReadU32(data: seq<byte>, off: nat): u32
    requires off + 4 <= |data|
  {
    LEWidths(data[off..off + 4]);
    LE(data[off..off + 4])
  }

  function ReadU64(data: seq<byte>, off: nat): u64
    requires off + 8 <= |data|
  {
    LEWidths(data[off..off + 8]);
    LE(data[off..off + 8])
  }

  lemma SubSlice(data: seq<byte>, off: nat, record: seq<byte>, a: nat, b: nat)
    requires off + |record| <= |data| && data[off..off + |record|] == record
    requires a <= b <= |record|
    ensures data[off + a..off + b] == record[a..b]
  {
    forall i | 0 <= i < b - a
      ensures data[off + a..off + b][i] == record[a..b][i]
    {
      assert record[a + i] == data[off..off + |record|][a + i];
    }
  }

  /** A little-endian field written inside a record reads back, wherever the
      record ended up in the file. */
  lemma FieldU16(data: seq<byte>, off: nat, record: seq<byte>, a: nat, x: u16)
    requires off + |record| <= |data| && data[off..off + |record|] == record
    requires a + 2 <= |record| && record[a..a + 2] == U16LE(x)
    ensures ReadU16(data, off + a) == x
  {
    hide ToLE, LE;
    SubSlice(data, off, record, a, a + 2);
    Pow2Widths();
    LERoundTrip(x, 2);
  }

  lemma FieldU32(data: seq<byte>, off: nat, record: seq<byte>, a: nat, x: u32)
    requires off + |record| <= |data| && data[off..off + |record|] == record
    requires a + 4 <= |record| && record[a..a + 4] == U32LE(x)
    ensures ReadU32(data, off + a) == x
  {
    hide ToLE, LE;
    SubSlice(data, off, record, a, a + 4);
    Pow2Widths();
    LERoundTrip(x, 4);
  }

  lemma FieldU64(data: seq<byte>, off: nat, record: seq<byte>, a: nat, x: u64)
    requires off + |record| <= |data| && data[off..off + |record|] == record
    requires a + 8 <= |record| && record[a..a + 8] == U64LE(x)
    ensures ReadU64(data, off + a) == x
  {
    hide ToLE, LE;
    SubSlice(data, off, record, a, a + 8);
    Pow2Widths();
    LERoundTrip(x, 8);
  }

  /** The numbers that two and four bytes denote, lowest byte first. */
  function TwoBytes(s: seq<byte>, i: nat): nat
    requires i + 2 <= |s|
  {
    s[i] as int + 0x100 * (s[i + 1] as int)
  }

  function FourBytes(s: seq<byte>, i: nat): nat
    requires i + 4 <= |s|
  {
    s[i] as int + 0x100 * (s[i + 1] as int) + 0x1_0000 * (s[i + 2] as int) + 0x100_0000 * (s[i + 3] as int)
  }

  function EightBytes(s: seq<byte>, i: nat): nat
    requires i + 8 <= |s|
  {
    FourBytes(s, i) + 0x1_0000_0000 * FourBytes(s, i + 4)
  }

  lemma ReadTwo(s: seq<byte>, i: nat)
    requires i + 2 <= |s|
    ensures ReadU16(s, i) == TwoBytes(s, i)
  {
    var b := s[i..i + 2];
    assert b[1..][1..] == [];
    assert LE(b[1..]) == b[1];
  }

  lemma ReadFour(s: seq<byte>, i: nat)
    requires i + 4 <= |s|
    ensures ReadU32(s, i) == FourBytes(s, i)
  {
    var b := s[i..i + 4];
    ReadTwo(s, i + 2);
    assert LE(b[1..]) == b[1] + 0x100 * LE(b[1..][1..]);
    assert b[1..][1..] == s[i + 2..i + 4];
  }

  lemma ReadEight(s: seq<byte>, i: nat)
    requires i + 8 <= |s|
    ensures ReadU64(s, i) == EightBytes(s, i)
  {
    var b := s[i..i + 8];
    Pow2Widths();
    ReadFour(s, i);
    ReadFour(s, i + 4);
    assert b == s[i..i + 4] + s[i + 4..i + 8];
    LEConcat(s[i..i + 4], s[i + 4..i + 8]);
    ShlIsTimes(LE(s[i + 4..i + 8]), 32);
  }

  lemma {:induction false} ShlIsTimes(x: nat, n: nat)
    ensures Shl(x, n) == x * Pow2(n)
  {
    if n > 0 { ShlIsTimes(x, n - 1); }
  }
}

/** Packing values of a fixed bit width into bytes, little-endian, straddling byte
    boundaries, and gathering them back. */
module BitPacking {
  import opened Arithmetic
  import opened Bytes

  // --- Bit packing ------------------------------------------------------------

  /** The number whose base-`2^bw` digits are `values`, first value least significant. */
  function PackedValue(values: seq<u32>, bw: nat): nat
  {
    if values == [] then 0
    else
      ShlLinear(0, PackedValue(values[1..], bw), bw);
      values[0] + Shl(PackedValue(values[1..], bw), bw)
  }

  function BitPack(values: seq<u32>, bw: nat): seq<byte>
  {
    ToLE(PackedValue(values, bw), BytesFor(|values| * bw))
  }

  ghost predicate FitWidth(values: seq<u32>, bw: nat)
  {
    forall i | 0 <= i < |values| :: values[i] < Pow2(bw)
  }

  lemma {:induction false} PackedValueBound(values: seq<u32>, bw: nat)
    requires FitWidth(values, bw)
    ensures PackedValue(values, bw) < Pow2(|values| * bw)
  {
    if values != [] {
      var rest := values[1..];
      PackedValueBound(rest, bw);
      BitOffsetStep(|rest|, bw);
      StackBound(PackedValue(rest, bw), |rest| * bw, values[0], bw);
    }
  }

  lemma {:induction false} PackedValueAppend(values: seq<u32>, v: u32, bw: nat)
    ensures PackedValue(values + [v], bw) == PackedValue(values, bw) + Shl(v, |values| * bw)
  {
    if values == [] {
      assert [v][1..] == [];
      assert values + [v] == [v];
      ShlLinear(0, 0, bw);
    } else {
      var rest := values[1..];
      assert (values + [v])[1..] == rest + [v];
      PackedValueAppend(rest, v, bw);
      BitOffsetStep(|rest|, bw);
      ShlLinear(PackedValue(rest, bw), Shl(v, |rest| * bw), bw);
      ShlShl(v, |rest| * bw, bw);
    }
  }

  lemma BitOffsetStep(i: nat, bw: nat)
    ensures (i + 1) * bw == i * bw + bw
    ensures i * bw >= 0
  {}

  /** Digit `i` of the packed number is value `i`. */
  lemma {:induction false} PackedValueDigit(values: seq<u32>, bw: nat, i: nat)
    requires FitWidth(values, bw) && i < |values|
    ensures i * bw >= 0 && Low(Shr(PackedValue(values, bw), i * bw), bw) == values[i]
  {
    var rest := values[1..];
    ShiftUnique(PackedValue(values, bw), bw, PackedValue(rest, bw), values[0]);
    if i != 0 {
      PackedValueDigit(rest, bw, i - 1);
      BitOffsetStep(i - 1, bw);
      ShrShr(PackedValue(values, bw), bw, (i - 1) * bw);
    }
  }

  /** Value `i` starts in byte `i * bw / 8`; every byte it touches lies inside the
      buffer, so the write guard never fails. */
  lemma WriteGuard(i: nat, n: nat, bw: nat)
    requires i < n
    ensures i * bw / 8 + BytesFor(i * bw % 8 + bw) <= BytesFor(n * bw)
  {
    BitOffsetStep(i, bw);
    BitOffsetStep(n - i - 1, bw);
    assert n * bw == (i + 1) * bw + (n - i - 1) * bw;
  }

  /** A value shifted by less than a byte, split at the byte boundary. */
  lemma SplitShifted(val: nat, shift: nat, rest: nat)
    requires shift + rest == 8
    ensures Shl(val, shift) == 0x100 * Shr(val, rest) + Shl(Low(val, rest), shift)
  {
    hide *;
    var high := Shr(val, rest);
    ShiftSplit(val, rest);
    ShlLinear(Shl(high, rest), Low(val, rest), shift);
    ShlShl(high, rest, shift);
    ByteShift(high);
  }

  /** The low byte of a shifted value holds its low bits, shifted. */
  lemma LowByteOfShifted(val: nat, shift: nat, rest: nat)
    requires shift + rest == 8
    ensures Shl(val, shift) >= 0
    ensures Shl(val, shift) % 0x100 == Shl(Low(val, rest), shift)
    ensures Low(val, rest) < Pow2(rest)
  {
    hide *;
    SplitShifted(val, shift, rest);
    ShiftSplit(val, rest);
    ShlLinear(0, Low(val, rest), shift);
    Pow2Grows(shift, shift);
    StackBound(Low(val, rest), rest, 0, shift);
    Pow2Widths();
  }

  /** OR-ing a shifted value over the lower bits adds, without carrying out of the byte. */
  lemma OrFirstByte(p: nat, val: nat, shift: nat)
    requires shift < 8 && p < Pow2(shift)
    ensures Shl(val, shift) >= 0
    ensures BitOr(p, Shl(val, shift) % 0x100) == p + Shl(val, shift) % 0x100 < 0x100
  {
    var low := Low(val, 8 - shift);
    LowByteOfShifted(val, shift, 8 - shift);
    BitOrDisjoint(p, low, shift);
    StackBound(low, 8 - shift, p, shift);
    Pow2Widths();
  }

  /** One step of the byte loop keeps the register's weighted value. */
  lemma RegisterStep(v: nat, k: nat)
    ensures Shl(v, 8 * k) == Shl(v % 0x100, 8 * k) + Shl(v / 0x100, 8 * (k + 1))
  {
    ByteShift(v / 0x100);
    ShlShl(v / 0x100, 8, 8 * k);
    ShlLinear(Shl(v / 0x100, 8), v % 0x100, 8 * k);
  }

  lemma RegisterBound(v: nat, k: nat)
    requires k > 0 && v < Pow2(8 * k)
    ensures v / 0x100 < Pow2(8 * (k - 1))
  {
    ShlShl(1, 8 * (k - 1), 8);
    ByteShift(Pow2(8 * (k - 1)));
  }

  /** Merging the register's low byte into byte `k` and shifting the register keeps
      buffer plus register. */
  lemma MergeByte(before: seq<byte>, k: nat, v: nat, merged: byte)
    requires k < |before| && merged == before[k] + v % 0x100
    ensures LE(before[k := merged]) + Shl(v / 0x100, 8 * (k + 1)) == LE(before) + Shl(v, 8 * k)
  {
    hide LE, Shl;
    LEUpdate(before, k, merged);
    ShlLinear(before[k], v % 0x100, 8 * k);
    RegisterStep(v, k);
  }

  /** A buffer below `2^(8 off + shift)`: only zeros after byte `off`, and byte `off`
      holds fewer than `shift` bits. */
  lemma FreeBits(s: seq<byte>, off: nat, shift: nat)
    requires LE(s) < Pow2(8 * off + shift) && shift < 8
    ensures forall k | off < k < |s| :: s[k] == 0
    ensures off < |s| ==> s[off] < Pow2(shift)
  {
    hide LE;
    forall k | off < k < |s| ensures s[k] == 0 {
      LEHighBytes(s, k, 8 * off + shift);
    }
    if off < |s| {
      LEHighBytes(s, off, 8 * off + shift);
      Pow2Grows(shift, shift);
    }
  }

  /** After `j` bytes: the rest `v` of the value and the buffer add up to `target`, and the
      bytes still to be written are free. */
  ghost predicate PackState(s: seq<byte>, v: nat, target: int, off: nat, j: nat, needed: nat)
  {
    && j <= needed && v < Pow2(8 * (needed - j))
    && (forall k | off + j + (if j == 0 then 1 else 0) <= k < |s| :: s[k] == 0)
    && LE(s) + Shl(v, 8 * (off + j)) == target
  }

  lemma PackStep(s: seq<byte>, v: nat, target: int, off: nat, j: nat, needed: nat, merged: byte)
    requires PackState(s, v, target, off, j, needed) && j < needed && off + j < |s| && merged == s[off + j] + v % 0x100
    ensures PackState(s[off + j := merged], v / 0x100, target, off, j + 1, needed)
  {
    hide LE, Shl, Pow2;
    MergeByte(s, off + j, v, merged);
    RegisterBound(v, needed - j);
  }

  lemma PackStart(s: seq<byte>, val: u32, bw: nat, off: nat, shift: nat, needed: nat)
    requires val < Pow2(bw) && shift < 8 && shift + bw <= 8 * needed && LE(s) < Pow2(8 * off + shift)
    ensures Shl(val, shift) >= 0 && PackState(s, Shl(val, shift), LE(s) + Shl(val, 8 * off + shift), off, 0, needed)
    ensures off < |s| ==> BitOr(s[off], Shl(val, shift) % 0x100) == s[off] + Shl(val, shift) % 0x100 < 0x100
  {
    hide LE, Shl, BitOr, Pow2;
    FreeBits(s, off, shift);
    ShlLinear(0, val, shift);
    ShiftedBound(val, bw, shift, needed);
    ShlShl(val, shift, 8 * off);
    if off < |s| { OrFirstByte(s[off], val, shift); }
  }

  lemma PackEnd(s: seq<byte>, v: nat, target: int, off: nat, needed: nat)
    requires PackState(s, v, target, off, needed, needed)
    ensures LE(s) == target
  {
    assert Pow2(0) == 1;
    hide LE, Shl;
    ShlLinear(0, 0, 8 * (off + needed));
  }

  lemma OrZero(x: nat)
    ensures BitOr(0, x) == x
  {}

  /** Writes one value into the buffer at bit `8 * off + shift`. */
  method PackOne(buf: array<byte>, val: u32, bw: nat, off: nat, shift: nat)
    requires val < Pow2(bw) && shift < 8
    requires off + BytesFor(shift + bw) <= buf.Length
    requires LE(buf[..]) < Pow2(8 * off + shift)
    modifies buf
    ensures LE(buf[..]) == old(LE(buf[..])) + Shl(val, 8 * off + shift)
  {
    hide Shl, LE, BitOr, Pow2;
    var needed := BytesFor(shift + bw);
    PackStart(buf[..], val, bw, off, shift, needed);
    ghost var start := buf[..];
    ghost var target: int := LE(start) + Shl(val, 8 * off + shift);
    var v := Shl(val, shift);
    for j := 0 to needed
      invariant v >= 0 && PackState(buf[..], v, target, off, j, needed)
      invariant j == 0 ==> v == Shl(val, shift) && buf[..] == start
    {
      if off + j < buf.Length {
        ghost var before := buf[..];
        OrZero(v % 0x100);
        assert before[off + j] == buf[off + j];
        var merged: byte := BitOr(buf[off + j], v % 0x100);
        PackStep(before, v, target, off, j, needed, merged);
        buf[off + j] := merged;
        assert buf[..] == before[off + j := merged];
        v := v / 0x100;
      }
    }
    PackEnd(buf[..], v, target, off, needed);
  }

  lemma ShiftedBound(val: nat, bw: nat, shift: nat, needed: nat)
    requires val < Pow2(bw) && shift + bw <= 8 * needed
    ensures Shl(val, shift) < Pow2(8 * needed)
  {
    Pow2Grows(shift, shift);
    StackBound(val, bw, 0, shift);
    Pow2Grows(shift + bw, 8 * needed);
  }

  /** `bitpack`: writes each value at its bit offset with shifts and ORs. */
  method BitpackLoop(values: seq<u32>, bw: nat) returns (packed: seq<byte>)
    requires FitWidth(values, bw)
    ensures packed == BitPack(values, bw)
  {
    assert PackedValue(values[..0], bw) == 0;
    hide ToLE, LE, PackedValue, Shl;
    if bw == 0 {
      return [];
    }
    var buf := new byte[BytesFor(|values| * bw)](_ => 0);
    LEZeros(buf[..]);
    for i := 0 to |values|
      invariant LE(buf[..]) == PackedValue(values[..i], bw)
    {
      WriteGuard(i, |values|, bw);
      PackedValueBound(values[..i], bw);
      PackedValueAppend(values[..i], values[i], bw);
      assert values[..i + 1] == values[..i] + [values[i]];
      PackOne(buf, values[i], bw, i * bw / 8, i * bw % 8);
    }
    assert values[..|values|] == values;
    ToLERoundTrip(buf[..]);
    packed := buf[..];
  }

  // --- Bit unpacking ----------------------------------------------------------

  /** A left shift of a 64-bit register: the distance is taken modulo 64. */
  function Shl64(x: nat, distance: nat): nat
  {
    Shl(x, distance % 64) % 0x1_0000_0000_0000_0000
  }

  /** The register after OR-ing in the first `n` bytes from `off`, skipping
      positions past the end. */
  function Gather(data: seq<byte>, off: nat, n: nat): nat
  {
    if n == 0 then 0
    else
      var v := Gather(data, off, n - 1);
      if off + n - 1 < |data| then BitOr(v, Shl64(data[off + n - 1], 8 * (n - 1))) else v
  }

  /** `as u32` and the mask of the low `bw` bits. */
  function MaskU32(x: nat, bw: nat): u32
  {
    ShiftSplit(x, Min(bw, 32));
    Pow2Widths();
    Pow2Grows(Min(bw, 32), 32);
    Low(x, Min(bw, 32))
  }

  function UnpackAt(data: seq<byte>, pos: nat, bw: nat): u32
  {
    var off, shift := pos / 8, pos % 8;
    MaskU32(Shr(Gather(data, off, BytesFor(shift + bw)), shift), bw)
  }

  function BitUnpack(data: seq<byte>, count: nat, bw: nat): (values: seq<u32>)
    ensures |values| == count
  {
    seq(count, i requires 0 <= i => if bw == 0 then 0 else UnpackAt(data, i * bw, bw))
  }

  lemma UnpackedAt(data: seq<byte>, count: nat, bw: nat, i: nat)
    requires bw != 0 && i < count
    ensures var pos := i * bw;
      BitUnpack(data, count, bw)[i] == MaskU32(Shr(Gather(data, pos / 8, BytesFor(pos % 8 + bw)), pos % 8), bw)
  {}

  /** `bitunpack`. */
  method BitunpackLoop(data: seq<byte>, count: nat, bw: nat) returns (values: seq<u32>)
    ensures values == BitUnpack(data, count, bw)
  {
    if bw == 0 {
      return seq(count, _ => 0);
    }
    hide BitUnpack, MaskU32, Shr, Shl64, BitOr;
    values := [];
    for i := 0 to count
      invariant values == BitUnpack(data, count, bw)[..i]
    {
      var pos := i * bw;
      var off, shift := pos / 8, pos % 8;
      var v := 0;
      for j := 0 to BytesFor(shift + bw)
        invariant v == Gather(data, off, j)
      {
        if off + j < |data| {
          v := BitOr(v, Shl64(data[off + j], 8 * j));
        }
      }
      UnpackedAt(data, count, bw, i);
      values := values + [MaskU32(Shr(v, shift), bw)];
    }
  }

  /** A byte shifted within a 64-bit register loses nothing. */
  lemma NoOverflow(b: byte, k: nat)
    requires k < 8
    ensures Shl64(b, 8 * k) == Shl(b, 8 * k)
  {
    hide Shl, Pow2;
    Pow2Widths();
    Pow2Grows(8 * k, 8 * k);
    Pow2Grows(8 + 8 * k, 64);
    StackBound(b, 8, 0, 8 * k);
    ShlLinear(0, b, 8 * k);
    assert 8 * k % 64 == 8 * k;
  }

  /** For real widths the register holds exactly the bytes it covers. */
  lemma {:induction false} GatherIsSlice(data: seq<byte>, off: nat, n: nat)
    requires off + n <= |data| && n <= 8
    ensures Gather(data, off, n) == LE(data[off..off + n])
    decreases n
  {
    if n != 0 {
      GatherIsSlice(data, off, n - 1);
      var lo, b := data[off..off + n - 1], data[off + n - 1];
      assert data[off..off + n] == lo + [b];
      LEConcat(lo, [b]);
      LEBound(lo);
      assert LE([b]) == b;
      NoOverflow(b, n - 1);
      BitOrDisjoint(LE(lo), b, 8 * (n - 1));
    }
  }

  /** Unpacking recovers every packed value, whatever byte boundaries it straddles. */
  lemma UnpackPack(values: seq<u32>, bw: nat)
    requires bw <= 32 && FitWidth(values, bw)
    ensures BitUnpack(BitPack(values, bw), |values|, bw) == values
  {
    forall i | 0 <= i < |values|
      ensures BitUnpack(BitPack(values, bw), |values|, bw)[i] == values[i]
    {
      if bw == 0 {
        assert values[i] < Pow2(0);
      } else {
        UnpackPackAt(values, bw, i);
      }
    }
  }

  lemma UnpackPackAt(values: seq<u32>, bw: nat, i: nat)
    requires bw <= 32 && FitWidth(values, bw) && i < |values|
    ensures i * bw >= 0 && UnpackAt(BitPack(values, bw), i * bw, bw) == values[i]
  {
    PackedValueDigit(values, bw, i);
    WriteGuard(i, |values|, bw);
    PackedValueBound(values, bw);
    WindowOfBytes(PackedValue(values, bw), |values| * bw, i * bw, bw);
  }

  lemma WindowOfData(data: seq<byte>, pos: nat, bw: nat)
    requires bw <= 56 && pos / 8 + BytesFor(pos % 8 + bw) <= |data|
    ensures UnpackAt(data, pos, bw) == Low(Shr(LE(data), pos), Min(bw, 32))
  {
    hide LE, Gather, Shr, Low;
    var off, shift := pos / 8, pos % 8;
    var n := BytesFor(shift + bw);
    var y := data[off..];
    GatherIsSlice(data, off, n);
    assert y[..n] == data[off..off + n];
    LEDrop(data, off);
    LEDrop(y, n);
    Window(LE(y), shift, Min(bw, 32), 8 * n);
    ShrShr(LE(data), 8 * off, shift);
  }

  /** Reading `bw` bits at bit `pos` through a byte window of the stored number. */
  lemma WindowOfBytes(x: nat, bits: nat, pos: nat, bw: nat)
    requires bw <= 32 && x < Pow2(bits)
    requires pos / 8 + BytesFor(pos % 8 + bw) <= BytesFor(bits)
    ensures UnpackAt(ToLE(x, BytesFor(bits)), pos, bw) == Low(Shr(x, pos), bw)
  {
    var data := ToLE(x, BytesFor(bits));
    Pow2Grows(bits, 8 * |data|);
    LERoundTrip(x, |data|);
    WindowOfData(data, pos, bw);
  }

  // --- Any data ----------------------------------------------------------------

  function Zeros(n: nat): (z: seq<byte>)
    ensures |z| == n && forall i | 0 <= i < n :: z[i] == 0
  {
    seq(n, _ => 0)
  }

  /** Positions past the end read as zero. */
  lemma {:induction false} GatherPadded(data: seq<byte>, k: nat, off: nat, n: nat)
    ensures Gather(data + Zeros(k), off, n) == Gather(data, off, n)
  {
    hide BitOr, Shl64;
    if n > 0 {
      GatherPadded(data, k, off, n - 1);
      if |data| <= off + n - 1 < |data| + k { OrNothing(Gather(data, off, n - 1), 8 * (n - 1)); }
    }
  }

  lemma OrNothing(x: nat, distance: nat)
    ensures BitOr(x, Shl64(0, distance)) == x
  {
    hide Shl;
    ShlLinear(0, 0, distance % 64);
    OrZero(x);
  }

  /** Whatever the data, and however short: value `i` is the digit of the data's number at bit
      `i * bw`, or its low 32 bits. Beyond 56 bits the register's shifts wrap around. */
  lemma UnpackedDigit(data: seq<byte>, count: nat, bw: nat, i: nat)
    requires bw <= 56 && i < count
    ensures BitUnpack(data, count, bw)[i] == Low(Shr(LE(data), i * bw), Min(bw, 32))
  {
    hide LE, Gather, Shr;
    if bw != 0 {
      var pos := i * bw;
      var k := pos / 8 + BytesFor(pos % 8 + bw);
      GatherPadded(data, k, pos / 8, BytesFor(pos % 8 + bw));
      WindowOfData(data + Zeros(k), pos, bw);
      LEConcat(data, Zeros(k));
      LEZeros(Zeros(k));
      ShlLinear(0, 0, 8 * |data|);
    }
  }
}

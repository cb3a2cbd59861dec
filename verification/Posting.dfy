/** Posting list codec: delta-encoded, bit-packed blocks of up to 128 page ids,
    each optionally LZ4-compressed. Arithmetic on `u32` wraps, as it does in a
    release build of the original. */
module Posting {
  import opened Arithmetic
  import opened BitPacking
  import opened Bytes
  import opened Types

  /** The LZ4 library, seen from outside. */
  datatype Lz4 = Lz4(compress: seq<byte> -> seq<byte>, decompress: seq<byte> -> Option<seq<byte>>) {
    ghost predicate Lawful() {
      forall data :: decompress(compress(data)) == Some(data)
    }
  }

  // --- Deltas -----------------------------------------------------------------

  function Deltas(ids: seq<DocId>): (deltas: seq<u32>)
    ensures |deltas| == |ids|
  {
    seq(|ids|, i requires 0 <= i < |ids| => if i == 0 then 0 else WrapSub(ids[i], ids[i - 1]))
  }

  /** The running sums from `current`, wrapping. */
  function Accumulate(current: DocId, deltas: seq<u32>): (ids: seq<DocId>)
    ensures |ids| == |deltas|
    decreases |deltas|
  {
    if deltas == [] then []
    else
      var next := WrapAdd(current, deltas[0]);
      [next] + Accumulate(next, deltas[1..])
  }

  /** The first delta is ignored: the first id is the block minimum. */
  function Reconstruct(minDocId: DocId, deltas: seq<u32>): (ids: seq<DocId>)
    ensures |ids| == |deltas|
  {
    if deltas == [] then [] else [minDocId] + Accumulate(minDocId, deltas[1..])
  }

  lemma WrapInverse(prev: u32, id: u32)
    ensures WrapAdd(prev, WrapSub(id, prev)) == id
  {}

  /** Running sums invert differences, wrap-around included. */
  lemma {:induction false} AccumulateDifferences(prev: DocId, deltas: seq<u32>, ids: seq<DocId>)
    requires |deltas| == |ids|
    requires ids != [] ==> deltas[0] == WrapSub(ids[0], prev)
    requires forall i | 0 < i < |ids| :: deltas[i] == WrapSub(ids[i], ids[i - 1])
    ensures Accumulate(prev, deltas) == ids
    decreases |ids|
  {
    hide WrapAdd, WrapSub, AsU32;
    if ids != [] {
      WrapInverse(prev, ids[0]);
      AccumulateDifferences(ids[0], deltas[1..], ids[1..]);
      assert ids == [ids[0]] + ids[1..];
    }
  }

  lemma ReconstructDeltas(ids: seq<DocId>)
    requires ids != []
    ensures Reconstruct(ids[0], Deltas(ids)) == ids
  {
    AccumulateDifferences(ids[0], Deltas(ids)[1..], ids[1..]);
  }

  lemma {:induction false} AccumulateAppend(current: DocId, deltas: seq<u32>, d: u32)
    ensures Accumulate(current, deltas + [d])
         == Accumulate(current, deltas)
            + [WrapAdd(if deltas == [] then current else Accumulate(current, deltas)[|deltas| - 1], d)]
    decreases |deltas|
  {
    if deltas == [] {
      assert deltas + [d] == [d];
    } else {
      assert (deltas + [d])[1..] == deltas[1..] + [d];
      AccumulateAppend(WrapAdd(current, deltas[0]), deltas[1..], d);
    }
  }

  function MaxOf(values: seq<u32>): (m: u32)
    ensures forall i | 0 <= i < |values| :: values[i] <= m
    ensures m == 0 || m in values
  {
    if values == [] then 0
    else
      var rest := MaxOf(values[1..]);
      if values[0] >= rest then values[0] else rest
  }

  /** The width the encoder picks is the least one that holds every delta. */
  lemma LeastWidth(values: seq<u32>, w: nat)
    ensures FitWidth(values, w) <==> BitLength(MaxOf(values)) <= w
  {
    var m := MaxOf(values);
    BitLengthIsLeast(m, w);
    if m == 0 { assert BitLength(m) == 0; }
    if m < Pow2(w) {
      assert FitWidth(values, w);
    } else if m in values {
      var i :| 0 <= i < |values| && values[i] == m;
      assert !(values[i] < Pow2(w));
    }
  }

  lemma WidthOfU32(values: seq<u32>)
    ensures BitLength(MaxOf(values)) <= 32
  {
    Pow2Widths();
    LeastWidth(values, 32);
  }

  // --- Encoding ---------------------------------------------------------------

  datatype BlockBody = BlockBody(data: seq<byte>, compressed: bool, uncompressedSize: nat)

  /** Compression is used only from 32 bytes up and only when it saves space. */
  function Body(lz: Lz4, packed: seq<byte>): BlockBody
  {
    if |packed| >= 32 && |lz.compress(packed)| < |packed|
    then BlockBody(lz.compress(packed), true, |packed|)
    else BlockBody(packed, false, 0)
  }

  function BlockHeader(count: nat, minDocId: DocId, bw: nat, body: BlockBody): (h: seq<byte>)
    requires bw < 0x100
    ensures |h| == BLOCK_HEADER_SIZE
  {
    U16LE(AsU16(count)) + U32LE(minDocId) + [bw] + [if body.compressed then LZ4_COMPRESSED else 0]
    + U32LE(AsU32(|body.data|)) + U16LE(AsU16(body.uncompressedSize))
  }

  function EncodeBlock(lz: Lz4, ids: seq<DocId>): seq<byte>
    requires ids != []
  {
    WidthOfU32(Deltas(ids));
    var bw := BitLength(MaxOf(Deltas(ids)));
    var body := Body(lz, BitPack(Deltas(ids), bw));
    BlockHeader(|ids|, ids[0], bw, body) + body.data
  }

  function Encode(lz: Lz4, ids: seq<DocId>): seq<byte>
  {
    if ids == [] then []
    else
      var n := Min(|ids|, POSTING_BLOCK_SIZE);
      EncodeBlock(lz, ids[..n]) + Encode(lz, ids[n..])
  }

  /** The delta loop of `encode_block`. */
  method DeltaLoop(ids: seq<DocId>) returns (deltas: seq<u32>)
    requires 0 < |ids|
    ensures deltas == Deltas(ids)
  {
    hide WrapSub, AsU32;
    deltas := [0];
    for i := 1 to |ids|
      invariant deltas == Deltas(ids)[..i]
    {
      deltas := deltas + [WrapSub(ids[i], ids[i - 1])];
    }
  }

  method MaxLoop(values: seq<u32>) returns (m: u32)
    ensures m == MaxOf(values)
  {
    m := 0;
    for i := 0 to |values|
      invariant m == MaxOf(values[..i])
    {
      MaxOfAppend(values[..i], values[i]);
      assert values[..i + 1] == values[..i] + [values[i]];
      if values[i] >= m { m := values[i]; }
    }
    assert values[..|values|] == values;
  }

  /** `encode_block`: appends one block to the output. */
  method EncodeBlockLoop(lz: Lz4, ids: seq<DocId>, out: seq<byte>) returns (out': seq<byte>)
    requires 0 < |ids|
    ensures out' == out + EncodeBlock(lz, ids)
  {
    var deltas := DeltaLoop(ids);
    var maxDelta := MaxLoop(deltas);
    var bitWidth := BitLength(maxDelta);
    WidthOfU32(deltas);
    LeastWidth(deltas, bitWidth);
    hide ToLE, BitPack, Deltas, MaxOf, BitLength;
    var packed := BitpackLoop(deltas, bitWidth);
    var body := TryCompress(lz, packed);
    hide Body, BlockHeader;
    var header := HeaderWrites(|ids|, ids[0], bitWidth, body);
    assert out + header + body.data == out + (header + body.data);
    out' := out + header + body.data;
  }

  /** Compression in `encode_block`: only from 32 bytes on, and only if it helps. */
  method TryCompress(lz: Lz4, packed: seq<byte>) returns (body: BlockBody)
    ensures body == Body(lz, packed)
  {
    body := BlockBody(packed, false, 0);
    if |packed| >= 32 {
      var compressed := lz.compress(packed);
      if |compressed| < |packed| {
        body := BlockBody(compressed, true, |packed|);
      }
    }
  }

  /** The writes of `encode_block`'s header, field by field. */
  method HeaderWrites(count: nat, minDocId: DocId, bitWidth: nat, body: BlockBody) returns (header: seq<byte>)
    requires bitWidth < 0x100
    ensures header == BlockHeader(count, minDocId, bitWidth, body)
  {
    hide U16LE, U32LE;
    header := U16LE(AsU16(count));
    header := header + U32LE(minDocId);
    header := header + [bitWidth];
    header := header + [if body.compressed then LZ4_COMPRESSED else 0];
    header := header + U32LE(AsU32(|body.data|));
    header := header + U16LE(AsU16(body.uncompressedSize));
  }

  lemma {:induction false} MaxOfAppend(values: seq<u32>, v: u32)
    ensures MaxOf(values + [v]) == if v >= MaxOf(values) then v else MaxOf(values)
  {
    if values == [] {
      assert values + [v] == [v];
    } else {
      assert (values + [v])[1..] == values[1..] + [v];
      MaxOfAppend(values[1..], v);
    }
  }

  /** `encode`: one block per chunk of 128 ids. */
  method EncodeLoop(lz: Lz4, ids: seq<DocId>) returns (out: seq<byte>)
    ensures out == Encode(lz, ids)
  {
    hide EncodeBlock;
    out := [];
    var i := 0;
    while i < |ids|
      invariant 0 <= i <= |ids|
      invariant out + Encode(lz, ids[i..]) == Encode(lz, ids)
    {
      var end := Min(i + POSTING_BLOCK_SIZE, |ids|);
      assert ids[i..][..end - i] == ids[i..end] && ids[i..][end - i..] == ids[end..];
      out := EncodeBlockLoop(lz, ids[i..end], out);
      i := end;
    }
  }

  // --- Decoding ---------------------------------------------------------------

  /** The packed bytes of a block body, checked against the recorded size. */
  function Unbody(lz: Lz4, body: BlockBody): Result<seq<byte>>
  {
    if !body.compressed then Ok(body.data)
    else
      var plain := lz.decompress(body.data);
      if plain.None? then Err(Lz4Error)
      else if |plain.value| != body.uncompressedSize then Err(PostingDecode)
      else Ok(plain.value)
  }

  datatype Block = Block(ids: seq<DocId>, next: nat)

  /** Decodes the block at `offset`; `next` is the offset just past it. */
  function DecodeBlock(lz: Lz4, data: seq<byte>, offset: nat): (r: Result<Block>)
    ensures r.Ok? ==> offset + BLOCK_HEADER_SIZE <= r.value.next <= |data|
  {
    if offset + BLOCK_HEADER_SIZE > |data| then Err(PostingDecode)
    else
      var compressed := data[offset + 7] % 2 == 1;
      DecodeBody(lz, data, offset + BLOCK_HEADER_SIZE, ReadU16(data, offset), ReadU32(data, offset + 2),
                 data[offset + 6], compressed, ReadU32(data, offset + 8), ReadU16(data, offset + 12))
  }

  /** The part of a block after its header, given the header fields. */
  function DecodeBody(lz: Lz4, data: seq<byte>, start: nat, numDocs: nat, minDocId: DocId, bw: nat,
                      compressed: bool, size: nat, uncompressedSize: nat): (r: Result<Block>)
    ensures r.Ok? ==> start <= r.value.next <= |data|
  {
    if start + size > |data| then Err(PostingDecode)
    else
      var packed :- Unbody(lz, BlockBody(data[start..start + size], compressed, uncompressedSize));
      Ok(Block(Reconstruct(minDocId, BitUnpack(packed, numDocs, bw)), start + size))
  }

  /** Every block advances by at least a header, so decoding ends on any input. */
  function DecodeFrom(lz: Lz4, data: seq<byte>, offset: nat): Result<seq<DocId>>
    decreases |data| - offset
  {
    if offset >= |data| then Ok([])
    else
      var block :- DecodeBlock(lz, data, offset);
      var rest :- DecodeFrom(lz, data, block.next);
      Ok(block.ids + rest)
  }

  function Decode(lz: Lz4, data: seq<byte>): Result<seq<DocId>>
  {
    DecodeFrom(lz, data, 0)
  }

  /** `decode_block`: appends the block's ids to `docIds`. */
  method DecodeBlockLoop(lz: Lz4, data: seq<byte>, offset: nat, docIds: seq<DocId>)
    returns (r: Result<Block>)
    ensures r == match DecodeBlock(lz, data, offset)
                 case Ok(block) => Ok(Block(docIds + block.ids, block.next))
                 case Err(e) => Err(e)
  {
    hide LE, ReadU16, ReadU32, BitUnpack, Reconstruct;
    if offset + BLOCK_HEADER_SIZE > |data| {
      return Err(PostingDecode);
    }
    var numDocs := ReadU16(data, offset);
    var minDocId := ReadU32(data, offset + 2);
    var bitWidth := data[offset + 6];
    var compressed := data[offset + 7] % 2 == 1;
    var size := ReadU32(data, offset + 8);
    var uncompressedSize := ReadU16(data, offset + 12);
    var start := offset + BLOCK_HEADER_SIZE;
    if start + size > |data| {
      return Err(PostingDecode);
    }
    var unpacked := data[start..start + size];
    if compressed {
      var plain := lz.decompress(unpacked);
      if plain.None? {
        return Err(Lz4Error);
      }
      unpacked := plain.value;
    }
    if compressed && |unpacked| != uncompressedSize {
      return Err(PostingDecode);
    }
    var deltas := BitunpackLoop(unpacked, numDocs, bitWidth);
    var ids := ReconstructLoop(minDocId, deltas);
    return Ok(Block(docIds + ids, start + size));
  }

  /** The loop of `decode_block` that turns deltas back into ids. */
  method ReconstructLoop(minDocId: DocId, deltas: seq<u32>) returns (ids: seq<DocId>)
    ensures ids == Reconstruct(minDocId, deltas)
  {
    var current := minDocId;
    ids := [];
    for i := 0 to |deltas|
      invariant ids == Reconstruct(minDocId, deltas[..i])
      invariant current == if i == 0 then minDocId else ids[i - 1]
    {
      assert deltas[..i + 1] == deltas[..i] + [deltas[i]];
      if i != 0 {
        assert deltas[..i + 1][1..] == deltas[1..i] + [deltas[i]];
        AccumulateAppend(minDocId, deltas[1..i], deltas[i]);
        current := WrapAdd(current, deltas[i]);
      }
      ids := ids + [current];
    }
    assert deltas[..|deltas|] == deltas;
  }

  /** `decode`. */
  method DecodeLoop(lz: Lz4, data: seq<byte>) returns (r: Result<seq<DocId>>)
    ensures r == Decode(lz, data)
  {
    hide DecodeBlock;
    var docIds: seq<DocId> := [];
    var offset := 0;
    assert Decode(lz, data).Ok? ==> [] + Decode(lz, data).value == Decode(lz, data).value;
    while offset < |data|
      invariant Decode(lz, data) == match DecodeFrom(lz, data, offset)
                                    case Ok(rest) => Ok(docIds + rest)
                                    case Err(e) => Err(e)
      decreases |data| - offset
    {
      ghost var before := docIds;
      var block := DecodeBlockLoop(lz, data, offset, docIds);
      if block.Err? {
        return Err(block.error);
      }
      ghost var rest := DecodeFrom(lz, data, block.value.next);
      ghost var ids := DecodeBlock(lz, data, offset).value.ids;
      assert rest.Ok? ==> before + (ids + rest.value) == (before + ids) + rest.value;
      docIds := block.value.ids;
      offset := block.value.next;
    }
    assert docIds + [] == docIds;
    return Ok(docIds);
  }

  // --- Round trip -------------------------------------------------------------

  lemma SixFields(a: seq<byte>, b: seq<byte>, c: seq<byte>, d: seq<byte>, e: seq<byte>, f: seq<byte>)
    requires |a| == 2 && |b| == 4 && |c| == 1 && |d| == 1 && |e| == 4 && |f| == 2
    ensures var h := a + b + c + d + e + f;
      h[0..2] == a && h[2..6] == b && h[6] == c[0] && h[7] == d[0] && h[8..12] == e && h[12..14] == f
  {}

  /** The header fields of a block, as the decoder reads them. */
  lemma HeaderFields(data: seq<byte>, offset: nat, count: nat, minDocId: DocId, bw: nat, body: BlockBody)
    requires bw < 0x100 && offset + BLOCK_HEADER_SIZE <= |data|
    requires data[offset..offset + BLOCK_HEADER_SIZE] == BlockHeader(count, minDocId, bw, body)
    ensures ReadU16(data, offset) == AsU16(count)
    ensures ReadU32(data, offset + 2) == minDocId
    ensures data[offset + 6] == bw
    ensures data[offset + 7] == if body.compressed then LZ4_COMPRESSED else 0
    ensures ReadU32(data, offset + 8) == AsU32(|body.data|)
    ensures ReadU16(data, offset + 12) == AsU16(body.uncompressedSize)
  {
    hide ToLE, LE, U16LE, U32LE;
    var h := BlockHeader(count, minDocId, bw, body);
    SixFields(U16LE(AsU16(count)), U32LE(minDocId), [bw], [if body.compressed then LZ4_COMPRESSED else 0],
              U32LE(AsU32(|body.data|)), U16LE(AsU16(body.uncompressedSize)));
    FieldU16(data, offset, h, 0, AsU16(count));
    FieldU32(data, offset, h, 2, minDocId);
    FieldU32(data, offset, h, 8, AsU32(|body.data|));
    FieldU16(data, offset, h, 12, AsU16(body.uncompressedSize));
    assert data[offset + 6] == h[6];
    assert data[offset + 7] == h[7];
  }

  lemma PackedSize(n: nat, bw: nat)
    requires bw <= 32
    ensures BytesFor(n * bw) <= 4 * n
  {
    assert n * (32 - bw) >= 0;
  }

  /** A block holds at most four bytes per id after its header. */
  lemma BlockSize(lz: Lz4, ids: seq<DocId>)
    requires ids != []
    ensures BLOCK_HEADER_SIZE <= |EncodeBlock(lz, ids)| <= BLOCK_HEADER_SIZE + 4 * |ids|
  {
    hide ToLE, PackedValue, BitLength, MaxOf, BlockHeader;
    WidthOfU32(Deltas(ids));
    PackedSize(|ids|, BitLength(MaxOf(Deltas(ids))));
  }

  /** No size field of a block header is ever truncated. */
  lemma FieldsFit(lz: Lz4, ids: seq<DocId>, bw: nat)
    requires 0 < |ids| <= POSTING_BLOCK_SIZE && bw <= 32
    ensures var body := Body(lz, BitPack(Deltas(ids), bw));
      && AsU16(|ids|) == |ids|
      && AsU32(|body.data|) == |body.data|
      && AsU16(body.uncompressedSize) == body.uncompressedSize
  {
    hide ToLE, PackedValue;
    PackedSize(|ids|, bw);
  }

  /** The block decoder inverts the block writer for given delta and body codecs. */
  lemma DecodeParts(lz: Lz4, data: seq<byte>, offset: nat, count: nat, minDocId: DocId, bw: nat,
                    body: BlockBody, packed: seq<byte>)
    requires bw < 0x100 && count < 0x1_0000 && |body.data| < 0x1_0000_0000 && body.uncompressedSize < 0x1_0000
    requires Unbody(lz, body) == Ok(packed)
    requires offset + BLOCK_HEADER_SIZE + |body.data| <= |data|
    requires data[offset..offset + BLOCK_HEADER_SIZE] == BlockHeader(count, minDocId, bw, body)
    requires data[offset + BLOCK_HEADER_SIZE..offset + BLOCK_HEADER_SIZE + |body.data|] == body.data
    ensures DecodeBlock(lz, data, offset)
         == Ok(Block(Reconstruct(minDocId, BitUnpack(packed, count, bw)), offset + BLOCK_HEADER_SIZE + |body.data|))
  {
    hide LE, ToLE, BlockHeader, ReadU16, ReadU32, BitUnpack, Reconstruct, Unbody, DecodeBody;
    HeaderFields(data, offset, count, minDocId, bw, body);
    assert DecodeBlock(lz, data, offset)
        == DecodeBody(lz, data, offset + BLOCK_HEADER_SIZE, count, minDocId, bw,
                      body.compressed, |body.data|, body.uncompressedSize);
    DecodeBodyPart(lz, data, offset + BLOCK_HEADER_SIZE, count, minDocId, bw, body, packed);
  }

  lemma DecodeBodyPart(lz: Lz4, data: seq<byte>, start: nat, count: nat, minDocId: DocId, bw: nat,
                       body: BlockBody, packed: seq<byte>)
    requires Unbody(lz, body) == Ok(packed)
    requires start + |body.data| <= |data| && data[start..start + |body.data|] == body.data
    ensures DecodeBody(lz, data, start, count, minDocId, bw, body.compressed, |body.data|, body.uncompressedSize)
         == Ok(Block(Reconstruct(minDocId, BitUnpack(packed, count, bw)), start + |body.data|))
  {
    hide BitUnpack, Reconstruct;
  }

  lemma DecodeEncodeBlock(lz: Lz4, ids: seq<DocId>, data: seq<byte>, offset: nat)
    requires lz.Lawful() && 0 < |ids| <= POSTING_BLOCK_SIZE
    requires offset + |EncodeBlock(lz, ids)| <= |data|
    requires data[offset..offset + |EncodeBlock(lz, ids)|] == EncodeBlock(lz, ids)
    ensures DecodeBlock(lz, data, offset) == Ok(Block(ids, offset + |EncodeBlock(lz, ids)|))
  {
    hide ToLE, LE, PackedValue, BitPack, BitLength, MaxOf, Deltas, BlockHeader, DecodeBlock;
    var deltas := Deltas(ids);
    WidthOfU32(deltas);
    var bw := BitLength(MaxOf(deltas));
    var packed := BitPack(deltas, bw);
    var body := Body(lz, packed);
    var header := BlockHeader(|ids|, ids[0], bw, body);
    var block := EncodeBlock(lz, ids);
    assert block == header + body.data;
    assert Unbody(lz, body) == Ok(packed);
    FieldsFit(lz, ids, bw);
    LeastWidth(deltas, bw);
    hide *;
    SubSlice(data, offset, block, 0, 14);
    SubSlice(data, offset, block, 14, |block|);
    DecodeParts(lz, data, offset, |ids|, ids[0], bw, body, packed);
    UnpackPack(deltas, bw);
    ReconstructDeltas(ids);
  }

  /** Round trip: decoding an encoded list gives the list back. In wrapping
      arithmetic this holds for every list of ids, sorted or not. */
  lemma RoundTrip(lz: Lz4, ids: seq<DocId>)
    requires lz.Lawful()
    ensures Decode(lz, Encode(lz, ids)) == Ok(ids)
  {
    assert [] + Encode(lz, ids) == Encode(lz, ids);
    DecodeEncodeFrom(lz, [], ids);
  }

  lemma {:induction false} DecodeEncodeFrom(lz: Lz4, prefix: seq<byte>, ids: seq<DocId>)
    requires lz.Lawful()
    ensures DecodeFrom(lz, prefix + Encode(lz, ids), |prefix|) == Ok(ids)
    decreases |ids|
  {
    hide EncodeBlock, DecodeBlock;
    if ids == [] {
      assert prefix + [] == prefix;
    } else {
      var n := Min(|ids|, POSTING_BLOCK_SIZE);
      var block, tail := EncodeBlock(lz, ids[..n]), Encode(lz, ids[n..]);
      var data := prefix + Encode(lz, ids);
      assert Encode(lz, ids) == block + tail;
      DecodeEncodeFrom(lz, prefix + block, ids[n..]);
      hide Encode, DecodeFrom;
      assert data == (prefix + block) + tail;
      assert data[|prefix|..|prefix| + |block|] == block;
      BlockSize(lz, ids[..n]);
      DecodeEncodeBlock(lz, ids[..n], data, |prefix|);
      DecodeStep(lz, data, |prefix|, ids[..n], |prefix| + |block|, ids[n..]);
      assert ids[..n] + ids[n..] == ids;
    }
  }

  lemma DecodeStep(lz: Lz4, data: seq<byte>, offset: nat, first: seq<DocId>, next: nat, rest: seq<DocId>)
    requires offset < |data| && DecodeBlock(lz, data, offset) == Ok(Block(first, next))
    requires DecodeFrom(lz, data, next) == Ok(rest)
    ensures DecodeFrom(lz, data, offset) == Ok(first + rest)
  {
    hide DecodeBlock;
  }

  // --- Truncation -------------------------------------------------------------

  /** How many whole blocks the first `k` bytes are, if they end where a block ends. */
  function BoundaryIndex(lz: Lz4, ids: seq<DocId>, k: nat): Option<nat>
    decreases |ids|
  {
    if k == 0 then Some(0)
    else if ids == [] then None
    else
      var n := Min(|ids|, POSTING_BLOCK_SIZE);
      var size := |EncodeBlock(lz, ids[..n])|;
      if k < size then None
      else
        match BoundaryIndex(lz, ids[n..], k - size)
        case Some(b) => Some(b + 1)
        case None => None
  }

  /** The ids of the first `b` blocks. */
  function FirstBlocks(ids: seq<DocId>, b: nat): seq<DocId>
  {
    ids[..Min(128 * b, |ids|)]
  }

  /** A block that is cut off anywhere is an error. */
  lemma TruncatedBlock(lz: Lz4, ids: seq<DocId>, data: seq<byte>, offset: nat, k: nat)
    requires 0 < |ids| <= POSTING_BLOCK_SIZE && k < |EncodeBlock(lz, ids)|
    requires |data| == offset + k && data[offset..] == EncodeBlock(lz, ids)[..k]
    ensures DecodeBlock(lz, data, offset).Err?
  {
    hide ToLE, LE, PackedValue, BitPack, BitLength, MaxOf, Deltas, BlockHeader, DecodeBlock, Body, ReadU16, ReadU32, DecodeBody;
    var deltas := Deltas(ids);
    WidthOfU32(deltas);
    var bw := BitLength(MaxOf(deltas));
    var body := Body(lz, BitPack(deltas, bw));
    var header := BlockHeader(|ids|, ids[0], bw, body);
    assert EncodeBlock(lz, ids) == header + body.data;
    FieldsFit(lz, ids, bw);
    if k >= BLOCK_HEADER_SIZE {
      hide EncodeBlock;
      assert data[offset..offset + BLOCK_HEADER_SIZE] == data[offset..][..BLOCK_HEADER_SIZE] == header;
      HeaderFields(data, offset, |ids|, ids[0], bw, body);
    }
    ShortBlock(lz, data, offset);
  }

  lemma ShortBlock(lz: Lz4, data: seq<byte>, offset: nat)
    requires offset + BLOCK_HEADER_SIZE > |data| || offset + BLOCK_HEADER_SIZE + ReadU32(data, offset + 8) > |data|
    ensures DecodeBlock(lz, data, offset).Err?
  {
    hide ReadU16, ReadU32;
  }

  /** A list cut off at `k` bytes decodes exactly when `k` is a block boundary, and then to
      the ids of the blocks before it; anywhere else the cut is reported as an error. */
  lemma TruncationIsDetected(lz: Lz4, ids: seq<DocId>, k: nat)
    requires lz.Lawful() && k <= |Encode(lz, ids)|
    ensures match BoundaryIndex(lz, ids, k)
            case Some(b) => Decode(lz, Encode(lz, ids)[..k]) == Ok(FirstBlocks(ids, b))
            case None => Decode(lz, Encode(lz, ids)[..k]).Err?
  {
    assert [] + Encode(lz, ids)[..k] == Encode(lz, ids)[..k];
    TruncatedFrom(lz, [], ids, k);
  }

  lemma {:induction false} TruncatedFrom(lz: Lz4, prefix: seq<byte>, ids: seq<DocId>, k: nat)
    requires lz.Lawful() && k <= |Encode(lz, ids)|
    ensures var r := DecodeFrom(lz, prefix + Encode(lz, ids)[..k], |prefix|);
      match BoundaryIndex(lz, ids, k)
      case Some(b) => r == Ok(FirstBlocks(ids, b))
      case None => r.Err?
    decreases |ids|
  {
    hide EncodeBlock, DecodeBlock;
    if k == 0 {
      assert prefix + Encode(lz, ids)[..0] == prefix;
    } else {
      var n := Min(|ids|, POSTING_BLOCK_SIZE);
      var block, tail := EncodeBlock(lz, ids[..n]), Encode(lz, ids[n..]);
      var data := prefix + Encode(lz, ids)[..k];
      assert Encode(lz, ids) == block + tail;
      if k < |block| {
        assert data[|prefix|..] == block[..k];
        TruncatedBlock(lz, ids[..n], data, |prefix|, k);
      } else {
        var j := k - |block|;
        TruncatedFrom(lz, prefix + block, ids[n..], j);
        hide Encode;
        assert data == (prefix + block) + tail[..j];
        assert data[|prefix|..|prefix| + |block|] == block;
        BlockSize(lz, ids[..n]);
        DecodeEncodeBlock(lz, ids[..n], data, |prefix|);
        var rest := BoundaryIndex(lz, ids[n..], j);
        if rest.Some? {
          DecodeStep(lz, data, |prefix|, ids[..n], |prefix| + |block|, FirstBlocks(ids[n..], rest.value));
          MoreBlocks(ids, rest.value);
        }
      }
    }
  }

  lemma MoreBlocks(ids: seq<DocId>, b: nat)
    ensures var n := Min(|ids|, POSTING_BLOCK_SIZE); ids[..n] + FirstBlocks(ids[n..], b) == FirstBlocks(ids, b + 1)
  {}

  /** The boundaries are the block starts, and the end. */
  lemma {:induction false} BlockStartsAreBoundaries(lz: Lz4, ids: seq<DocId>, b: nat)
    requires 128 * b < |ids|
    ensures BoundaryIndex(lz, ids, BlockOffset(lz, ids, b)) == Some(b)
    decreases b
  {
    hide EncodeBlock;
    if b > 0 {
      BlockSize(lz, ids[..POSTING_BLOCK_SIZE]);
      BlockStartsAreBoundaries(lz, ids[POSTING_BLOCK_SIZE..], b - 1);
    }
  }

  // --- Size bound and skip-ahead ------------------------------------------------

  lemma BlockCount(m: nat)
    requires m > 0
    ensures (m + 127) / 128 == 1 + (m - Min(m, 128) + 127) / 128
  {}

  /** Encoded length: at most four bytes per id plus one header per block. */
  lemma {:induction false} EncodedSize(lz: Lz4, ids: seq<DocId>)
    ensures |Encode(lz, ids)| <= 4 * |ids| + 14 * ((|ids| + 127) / 128)
    decreases |ids|
  {
    if ids != [] {
      hide EncodeBlock, Body;
      var n := Min(|ids|, POSTING_BLOCK_SIZE);
      BlockSize(lz, ids[..n]);
      EncodedSize(lz, ids[n..]);
      BlockCount(|ids|);
    }
  }

  function BlockMinDocId(header: seq<byte>): Option<DocId>
  {
    if |header| < BLOCK_HEADER_SIZE then None else Some(ReadU32(header, 2))
  }

  /** Where block `k` starts in the encoding. */
  function BlockOffset(lz: Lz4, ids: seq<DocId>, k: nat): nat
    requires k == 0 || POSTING_BLOCK_SIZE * k < |ids|
  {
    if k == 0 then 0
    else |EncodeBlock(lz, ids[..POSTING_BLOCK_SIZE])|
         + BlockOffset(lz, ids[POSTING_BLOCK_SIZE..], k - 1)
  }

  lemma BlockMinimumHere(lz: Lz4, ids: seq<DocId>, data: seq<byte>)
    requires 0 < |ids| <= POSTING_BLOCK_SIZE && EncodeBlock(lz, ids) <= data
    ensures BlockMinDocId(data) == Some(ids[0])
  {
    var bw := BitLength(MaxOf(Deltas(ids)));
    var body := Body(lz, BitPack(Deltas(ids), bw));
    WidthOfU32(Deltas(ids));
    assert EncodeBlock(lz, ids) == BlockHeader(|ids|, ids[0], bw, body) + body.data;
    hide EncodeBlock, BlockHeader, Body;
    HeaderFields(data, 0, |ids|, ids[0], bw, body);
  }

  /** The minimum read from the header of block `k` is the id at position `128 k`. */
  lemma {:induction false} BlockMinimum(lz: Lz4, ids: seq<DocId>, k: nat)
    requires POSTING_BLOCK_SIZE * k < |ids|
    ensures BlockOffset(lz, ids, k) <= |Encode(lz, ids)|
    ensures BlockMinDocId(Encode(lz, ids)[BlockOffset(lz, ids, k)..]) == Some(ids[128 * k])
    decreases k
  {
    hide EncodeBlock, Body;
    var n := Min(|ids|, POSTING_BLOCK_SIZE);
    var first, rest := ids[..n], ids[n..];
    var block := EncodeBlock(lz, first);
    BlockSize(lz, first);
    if k == 0 {
      BlockMinimumHere(lz, first, Encode(lz, ids)[0..]);
    } else {
      BlockMinimum(lz, rest, k - 1);
      assert Encode(lz, ids)[BlockOffset(lz, ids, k)..]
          == Encode(lz, rest)[BlockOffset(lz, rest, k - 1)..];
    }
  }

  /** Block minima of a sorted list are strictly increasing, as skip-ahead needs. */
  lemma BlockMinimaIncrease(lz: Lz4, ids: seq<DocId>, j: nat, k: nat)
    requires StrictlyIncreasing(ids) && j < k && POSTING_BLOCK_SIZE * k < |ids|
    ensures BlockOffset(lz, ids, j) <= |Encode(lz, ids)| && BlockOffset(lz, ids, k) <= |Encode(lz, ids)|
    ensures var lo := BlockMinDocId(Encode(lz, ids)[BlockOffset(lz, ids, j)..]);
            var hi := BlockMinDocId(Encode(lz, ids)[BlockOffset(lz, ids, k)..]);
            lo.Some? && hi.Some? && lo.value < hi.value
  {
    BlockMinimum(lz, ids, j);
    BlockMinimum(lz, ids, k);
  }

  // --- The format, byte by byte -----------------------------------------------------

  /** The bytes of an encoded block: a header of 14 bytes, then the packed deltas, compressed
      when they take at least 32 bytes and compression makes them shorter. */
  lemma BlockLayout(lz: Lz4, ids: seq<DocId>, bw: nat, packed: seq<byte>)
    requires 0 < |ids| <= POSTING_BLOCK_SIZE
    requires bw == BitLength(MaxOf(Deltas(ids))) && FitWidth(Deltas(ids), bw) && packed == BitPack(Deltas(ids), bw)
    ensures var b := EncodeBlock(lz, ids);
      var squeezed := |packed| >= 32 && |lz.compress(packed)| < |packed|;
      var data := if squeezed then lz.compress(packed) else packed;
      && |b| == 14 + |data| && b[14..] == data
      && TwoBytes(b, 0) == |ids| && FourBytes(b, 2) == ids[0]
      && b[6] == bw && b[7] == (if squeezed then 1 else 0)
      && FourBytes(b, 8) == |data| && TwoBytes(b, 12) == (if squeezed then |packed| else 0)
  {
    WidthOfU32(Deltas(ids));
    FieldsFit(lz, ids, bw);
    hide ToLE, LE, BitPack, Deltas, MaxOf, BitLength, TwoBytes, FourBytes, ReadU16, ReadU32;
    var b := EncodeBlock(lz, ids);
    var body := Body(lz, packed);
    var header := BlockHeader(|ids|, ids[0], bw, body);
    assert b == header + body.data;
    hide BlockHeader, EncodeBlock;
    assert b[0..14] == header && b[14..] == body.data;
    HeaderFields(b, 0, |ids|, ids[0], bw, body);
    ReadTwo(b, 0);
    ReadFour(b, 2);
    ReadFour(b, 8);
    ReadTwo(b, 12);
  }

  /** Ids of a block with minimum `minDocId`: each the one before it plus a digit of the packed
      number, modulo 2^32. */
  ghost predicate SummedFrom(ids: seq<DocId>, minDocId: nat, packed: seq<byte>, bw: nat)
  {
    && (ids != [] ==> ids[0] == minDocId)
    && forall i | 0 < i < |ids| :: ids[i] == (ids[i - 1] + PackedDigit(packed, i, bw)) % 0x1_0000_0000
  }

  /** Digit `i` of a number in base 2^bw, or its low 32 bits. */
  function PackedDigit(packed: seq<byte>, i: nat, bw: nat): nat
  {
    Low(Shr(LE(packed), i * bw), Min(bw, 32))
  }

  lemma DigitUnpacked(packed: seq<byte>, n: nat, bw: nat, i: nat)
    requires bw <= 56 && i < n
    ensures BitUnpack(packed, n, bw)[i] == PackedDigit(packed, i, bw)
  {
    UnpackedDigit(packed, n, bw, i);
  }

  lemma {:induction false} AccumulateAt(current: DocId, deltas: seq<u32>, i: nat)
    requires i < |deltas|
    ensures Accumulate(current, deltas)[i] == WrapAdd(if i == 0 then current else Accumulate(current, deltas)[i - 1], deltas[i])
    decreases i
  {
    hide WrapAdd;
    if i > 0 { AccumulateAt(WrapAdd(current, deltas[0]), deltas[1..], i - 1); }
  }

  lemma ReconstructSums(minDocId: DocId, packed: seq<byte>, n: nat, bw: nat)
    requires bw <= 56
    ensures SummedFrom(Reconstruct(minDocId, BitUnpack(packed, n, bw)), minDocId, packed, bw)
  {
    hide BitUnpack, PackedDigit, Accumulate;
    var deltas := BitUnpack(packed, n, bw);
    var ids := Reconstruct(minDocId, deltas);
    forall i | 0 < i < |ids| ensures ids[i] == (ids[i - 1] + PackedDigit(packed, i, bw)) % 0x1_0000_0000 {
      DigitUnpacked(packed, n, bw, i);
      AccumulateAt(minDocId, deltas[1..], i - 1);
    }
  }

  /** Which block a decoded one is: `count` ids summed up from the header's minimum. */
  ghost predicate IsBlock(r: Result<Block>, count: nat, minDocId: nat, packed: seq<byte>, bw: nat, next: nat)
  {
    r.Ok? && r.value.next == next && |r.value.ids| == count && (bw <= 56 ==> SummedFrom(r.value.ids, minDocId, packed, bw))
  }

  /** Decoding a block of any data, error by error. */
  lemma DecodeBlockCases(lz: Lz4, data: seq<byte>, offset: nat)
    ensures var r := DecodeBlock(lz, data, offset);
      if offset + 14 > |data| then r == Err(PostingDecode)
      else
        var start, end := offset + 14, offset + 14 + FourBytes(data, offset + 8);
        if end > |data| then r == Err(PostingDecode)
        else
          var count, minDocId, bw := TwoBytes(data, offset), FourBytes(data, offset + 2), data[offset + 6];
          if data[offset + 7] % 2 == 0 then IsBlock(r, count, minDocId, data[start..end], bw, end)
          else
            match lz.decompress(data[start..end])
            case None => r == Err(Lz4Error)
            case Some(plain) =>
              if |plain| != TwoBytes(data, offset + 12) then r == Err(PostingDecode)
              else IsBlock(r, count, minDocId, plain, bw, end)
  {
    hide LE, BitUnpack, Reconstruct, ReadU16, ReadU32, TwoBytes, FourBytes, SummedFrom;
    if offset + 14 <= |data| {
      ReadTwo(data, offset);
      ReadFour(data, offset + 2);
      ReadFour(data, offset + 8);
      ReadTwo(data, offset + 12);
      var start, end := offset + 14, offset + 14 + FourBytes(data, offset + 8);
      var bw := data[offset + 6];
      if end <= |data| && bw <= 56 {
        ReconstructSums(ReadU32(data, offset + 2), data[start..end], ReadU16(data, offset), bw);
        if lz.decompress(data[start..end]).Some? {
          ReconstructSums(ReadU32(data, offset + 2), lz.decompress(data[start..end]).value, ReadU16(data, offset), bw);
        }
      }
    }
  }
}

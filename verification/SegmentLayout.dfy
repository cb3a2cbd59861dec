/** The segment file byte by byte: where the builder puts each number, and what the reader
    makes of any bytes, error by error. */
module SegmentLayout {
  import opened Bytes
  import opened Types
  import opened Posting
  import opened SegmentFormat
  import opened SegmentRead

  // --- Records ----------------------------------------------------------------------

  lemma TwoAt(h: seq<byte>, a: nat, x: u16)
    requires a + 2 <= |h| && h[a..a + 2] == U16LE(x)
    ensures TwoBytes(h, a) == x
  {
    hide ToLE, LE, TwoBytes, ReadU16;
    FieldU16(h, 0, h, a, x);
    ReadTwo(h, a);
  }

  lemma FourAt(h: seq<byte>, a: nat, x: u32)
    requires a + 4 <= |h| && h[a..a + 4] == U32LE(x)
    ensures FourBytes(h, a) == x
  {
    hide ToLE, LE, FourBytes, ReadU32;
    FieldU32(h, 0, h, a, x);
    ReadFour(h, a);
  }

  lemma EightAt(h: seq<byte>, a: nat, x: u64)
    requires a + 8 <= |h| && h[a..a + 8] == U64LE(x)
    ensures EightBytes(h, a) == x
  {
    hide ToLE, LE, EightBytes, ReadU64;
    FieldU64(h, 0, h, a, x);
    ReadEight(h, a);
  }

  /** A doc-table record. */
  lemma DocRecordLayout(e: DocTableEntry)
    ensures var r := DocRecord(e);
      && |r| == 20 && FourBytes(r, 0) == e.fileOrdinal && TwoBytes(r, 4) == e.rowGroup && TwoBytes(r, 6) == e.pageIndex
      && EightBytes(r, 8) == e.firstRowIndex && FourBytes(r, 16) == e.rowCount
  {
    hide ToLE, U16LE, U32LE, U64LE, TwoBytes, FourBytes, EightBytes;
    var r := DocRecord(e);
    assert r[0..4] == U32LE(e.fileOrdinal) && r[4..6] == U16LE(e.rowGroup) && r[6..8] == U16LE(e.pageIndex);
    assert r[8..16] == U64LE(e.firstRowIndex) && r[16..20] == U32LE(e.rowCount);
    FourAt(r, 0, e.fileOrdinal);
    TwoAt(r, 4, e.rowGroup);
    TwoAt(r, 6, e.pageIndex);
    EightAt(r, 8, e.firstRowIndex);
    FourAt(r, 16, e.rowCount);
  }

  /** A term-info record: where the term's postings start, their length, its frequency. */
  lemma TermInfoLayout(c: Codecs, terms: seq<TermRecord>, i: nat)
    requires i < |terms| && |Flatten(PostingPieces(c, terms)[..i])| < 0x1_0000_0000_0000_0000
    requires |Encode(c.lz, terms[i].ids)| < 0x1_0000_0000
    ensures var r := TermInfoRecord(c, terms, i);
      && |r| == 16 && EightBytes(r, 0) == |Flatten(PostingPieces(c, terms)[..i])|
      && FourBytes(r, 8) == |Encode(c.lz, terms[i].ids)| && FourBytes(r, 12) == terms[i].docFrequency
  {
    hide ToLE, U32LE, U64LE, FourBytes, EightBytes, Encode, PostingPieces;
    var r := TermInfoRecord(c, terms, i);
    var start, length := |Flatten(PostingPieces(c, terms)[..i])|, |Encode(c.lz, terms[i].ids)|;
    assert r[0..8] == U64LE(start) && r[8..12] == U32LE(length) && r[12..16] == U32LE(terms[i].docFrequency);
    EightAt(r, 0, start);
    FourAt(r, 8, length);
    FourAt(r, 12, terms[i].docFrequency);
  }

  /** A file record: where its path starts in the string pool, the path's length, and the
      number of row groups. */
  lemma FileRecordLayout(c: Codecs, files: seq<FileTableEntry>, i: nat)
    requires i < |files| && |Flatten(PathPieces(c, files)[..i])| < 0x1_0000_0000 && |c.utf8.encode(files[i].path)| < 0x1_0000
    ensures var r := FileRecord(c, files, i);
      && |r| == 8 && FourBytes(r, 0) == |Flatten(PathPieces(c, files)[..i])|
      && TwoBytes(r, 4) == |c.utf8.encode(files[i].path)| && TwoBytes(r, 6) == files[i].rowGroupCount
  {
    hide ToLE, U16LE, U32LE, TwoBytes, FourBytes, PathPieces;
    var r := FileRecord(c, files, i);
    var start, length := |Flatten(PathPieces(c, files)[..i])|, |c.utf8.encode(files[i].path)|;
    assert r[0..4] == U32LE(start) && r[4..6] == U16LE(length) && r[6..8] == U16LE(files[i].rowGroupCount);
    FourAt(r, 0, start);
    TwoAt(r, 4, length);
    TwoAt(r, 6, files[i].rowGroupCount);
  }

  lemma StatsLayout(stats: CorpusStats)
    ensures var r := StatsBytes(stats);
      |r| == 16 && EightBytes(r, 0) == stats.totalRows && EightBytes(r, 8) == stats.totalTokens
  {
    hide ToLE, U64LE, EightBytes;
    var r := StatsBytes(stats);
    assert r[0..8] == U64LE(stats.totalRows) && r[8..16] == U64LE(stats.totalTokens);
    EightAt(r, 0, stats.totalRows);
    EightAt(r, 8, stats.totalTokens);
  }

  // --- The edges of the file ------------------------------------------------------------

  lemma HeaderAt(data: seq<byte>)
    requires HeaderBytes() <= data
    ensures data[0..4] == [0x4C, 0x4B, 0x53, 0x52] && TwoBytes(data, 4) == 1 && TwoBytes(data, 6) == 0
  {
    hide ToLE, TwoBytes, U16LE;
    var h := HeaderBytes();
    assert data[..8] == h;
    assert data[0..4] == h[0..4] && data[4..6] == h[4..6] == U16LE(1) && data[6..8] == h[6..8] == U16LE(0);
    TwoAt(data, 4, 1);
    TwoAt(data, 6, 0);
  }

  /** The file starts with the magic bytes `LKSR` and the version, and ends with the checksum
      of everything before it and the magic bytes. */
  lemma FileEdges(c: Codecs, s: Segment)
    ensures var data := SegmentBytes(c, s);
      && |data| >= 64 && data[0..4] == [0x4C, 0x4B, 0x53, 0x52] && TwoBytes(data, 4) == 1 && TwoBytes(data, 6) == 0
      && FourBytes(data, |data| - 8) == c.crc32(data[..|data| - 8])
      && data[|data| - 4..] == [0x4C, 0x4B, 0x53, 0x52]
  {
    hide ToLE, U32LE, TwoBytes, FourBytes, FooterOffsets;
    var data, body := SegmentBytes(c, s), SegmentBody(c, s);
    FlattenPrefix(Sections(c, s), 1);
    FirstSection(c, s);
    hide Sections, Flatten, HeaderBytes;
    var n := |data| - 8;
    assert n == |body| && data[..n] == body && data[n..n + 4] == U32LE(c.crc32(body)) && data[n + 4..] == SEGMENT_MAGIC;
    HeaderAt(data);
    FourAt(data, n, c.crc32(body));
  }

  lemma FirstSection(c: Codecs, s: Segment)
    ensures HeaderBytes() <= Flatten(Sections(c, s))
  {
    var p := Sections(c, s);
    FlattenPrefix(p, 0);
    FlattenPrefix(p, 1);
    assert p[0] == HeaderBytes();
    hide Sections, HeaderBytes;
    assert Flatten(p[..0]) == [];
  }

  // --- Reading any bytes ------------------------------------------------------------------

  /** `parse_doc_table`. */
  lemma DocTableCases(data: seq<byte>, offset: nat)
    ensures var r := ParseDocTable(data, offset);
      if offset + 4 > |data| then r == Err(TooShort(offset + 4, |data|))
      else
        var n := FourBytes(data, offset);
        var end := offset + 4 + 20 * n;
        if end > |data| then r == Err(TooShort(end, |data|))
        else
          && r.Ok? && |r.value| == n
          && forall i | 0 <= i < n ::
               var at := offset + 4 + 20 * i;
               at + 20 <= |data|
               && r.value[i] == DocTableEntry(ReadU32(data, at), ReadU16(data, at + 4), ReadU16(data, at + 6),
                                              ReadU64(data, at + 8), ReadU32(data, at + 16))
  {
    hide LE, ReadU16, ReadU32, ReadU64, FourBytes;
    if offset + 4 <= |data| { ReadFour(data, offset); }
  }

  /** `parse_term_info_table`, which follows the reverse dictionary. */
  lemma TermInfoTableCases(data: seq<byte>, reverse: nat)
    ensures var r := ParseTermInfoTable(data, reverse);
      if reverse + 8 > |data| then r == Err(TooShort(reverse + 8, |data|))
      else
        var start := reverse + 8 + EightBytes(data, reverse);
        if start + 4 > |data| then r == Err(TooShort(start + 4, |data|))
        else
          var n := FourBytes(data, start);
          var end := start + 4 + 16 * n;
          if end > |data| then r == Err(TooShort(end, |data|))
          else
            && r.Ok? && |r.value| == n
            && forall i | 0 <= i < n ::
                 var at := start + 4 + 16 * i;
                 at + 16 <= |data|
                 && r.value[i] == TermInfo(ReadU64(data, at), ReadU32(data, at + 8), ReadU32(data, at + 12))
  {
    hide LE, ReadU32, ReadU64, FourBytes, EightBytes;
    if reverse + 8 <= |data| {
      ReadEight(data, reverse);
      var start := reverse + 8 + ReadU64(data, reverse);
      if start + 4 <= |data| { ReadFour(data, start); }
    }
  }

  /** `parse_fst`. */
  lemma FstCases(c: Codecs, data: seq<byte>, offset: nat)
    ensures var r := ParseFst(c, data, offset);
      if offset + 8 > |data| then r == Err(TooShort(offset + 8, |data|))
      else
        var start, end := offset + 8, offset + 8 + EightBytes(data, offset);
        if end > |data| then r == Err(TooShort(end, |data|))
        else
          match c.fst.read(data[start..end])
          case Some(m) => r == Ok(m)
          case None => r == Err(FstError)
  {
    hide LE, ReadU64, EightBytes;
    if offset + 8 <= |data| { ReadEight(data, offset); }
  }

  /** One record of `parse_file_table`. */
  lemma FileEntryCases(c: Codecs, data: seq<byte>, at: nat, pool: nat)
    requires at + 8 <= |data|
    ensures var r := FileEntryAt(c, data, at, pool);
      var start, end := pool + FourBytes(data, at), pool + FourBytes(data, at) + TwoBytes(data, at + 4);
      if end > |data| then r == Err(TooShort(end, |data|))
      else
        match c.utf8.decode(data[start..end])
        case Some(path) => r == Ok(FileTableEntry(path, ReadU16(data, at + 6)))
        case None => r == Err(PostingDecode)
  {
    hide LE, ReadU16, ReadU32, TwoBytes, FourBytes;
    ReadFour(data, at);
    ReadTwo(data, at + 4);
  }

  lemma {:induction false} FileEntriesCases(c: Codecs, data: seq<byte>, records: nat, pool: nat, n: nat)
    requires records + 8 * n <= |data|
    ensures var r := FileEntries(c, data, records, pool, n);
      && (r.Ok? ==> |r.value| == n && forall i | 0 <= i < n :: FileEntryAt(c, data, records + 8 * i, pool) == Ok(r.value[i]))
      && (r.Err? ==> exists i ::
            && 0 <= i < n && records + 8 * i + 8 <= |data| && FileEntryAt(c, data, records + 8 * i, pool) == Err(r.error)
            && forall j | 0 <= j < i :: FileEntryAt(c, data, records + 8 * j, pool).Ok?)
  {
    hide FileEntryAt;
    if n > 0 {
      FileEntriesCases(c, data, records, pool, n - 1);
      var before := FileEntries(c, data, records, pool, n - 1);
      if before.Ok? && FileEntryAt(c, data, records + 8 * (n - 1), pool).Err? {
        forall j | 0 <= j < n - 1 ensures FileEntryAt(c, data, records + 8 * j, pool).Ok? {
          assert FileEntryAt(c, data, records + 8 * j, pool) == Ok(before.value[j]);
        }
      }
    }
  }

  /** `parse_file_table`: the entries of all records, or the error of the first bad one. */
  lemma FileTableCases(c: Codecs, data: seq<byte>, offset: nat)
    ensures var r := ParseFileTable(c, data, offset);
      if offset + 4 > |data| then r == Err(TooShort(offset + 4, |data|))
      else
        var n := FourBytes(data, offset);
        var pool := offset + 4 + 8 * n;
        if n > 0 && pool > |data| then r == Err(TooShort(pool, |data|))
        else
          && (r.Ok? ==> |r.value| == n && forall i | 0 <= i < n :: FileEntryAt(c, data, offset + 4 + 8 * i, pool) == Ok(r.value[i]))
          && (r.Err? ==> exists i ::
                && 0 <= i < n && offset + 4 + 8 * i + 8 <= |data|
                && FileEntryAt(c, data, offset + 4 + 8 * i, pool) == Err(r.error)
                && forall j | 0 <= j < i :: FileEntryAt(c, data, offset + 4 + 8 * j, pool).Ok?)
  {
    hide LE, ReadU32, FourBytes, FileEntryAt, FileEntries;
    if offset + 4 <= |data| {
      ReadFour(data, offset);
      var n: nat := ReadU32(data, offset);
      if offset + 4 + 8 * n <= |data| { FileEntriesCases(c, data, offset + 4, offset + 4 + 8 * n, n); }
    }
  }

  /** `open` on any bytes: the checks in their order, then the sections at the footer's offsets. */
  lemma OpenCases(c: Codecs, data: seq<byte>)
    ensures var r := Open(c, data);
      if |data| < 56 then r == Err(TooShort(56, |data|))
      else if data[0..4] != [0x4C, 0x4B, 0x53, 0x52] then r == Err(InvalidMagic)
      else if TwoBytes(data, 4) != 1 then r == Err(UnsupportedVersion(ReadU16(data, 4)))
      else if data[|data| - 4..] != [0x4C, 0x4B, 0x53, 0x52] then r == Err(InvalidMagic)
      else if c.crc32(data[..|data| - 8]) != FourBytes(data, |data| - 8) then
        r == Err(ChecksumMismatch(ReadU32(data, |data| - 8), c.crc32(data[..|data| - 8])))
      else
        var f := |data| - 56;
        var forward, reverse := ParseFst(c, data, EightBytes(data, f + 16)), ParseFst(c, data, EightBytes(data, f + 24));
        var infos, docs := ParseTermInfoTable(data, EightBytes(data, f + 24)), ParseDocTable(data, EightBytes(data, f + 8));
        var files, stats := ParseFileTable(c, data, EightBytes(data, f)), ParseCorpusStats(data, EightBytes(data, f + 40));
        if forward.Err? then r == Err(forward.error)
        else if reverse.Err? then r == Err(reverse.error)
        else if infos.Err? then r == Err(infos.error)
        else if docs.Err? then r == Err(docs.error)
        else if files.Err? then r == Err(files.error)
        else if stats.Err? then r == Err(stats.error)
        else
          && r.Ok? && r.value.data == data && r.value.forwardFst == forward.value && r.value.reverseFst == reverse.value
          && r.value.termInfos == infos.value && r.value.docTable == docs.value && r.value.fileTable == files.value
          && r.value.stats == stats.value && r.value.footer.postingOffset == EightBytes(data, f + 32)
  {
    hide LE, ReadU16, ReadU32, ReadU64, TwoBytes, FourBytes, EightBytes, ParseFst, ParseTermInfoTable, ParseDocTable,
         ParseFileTable, ParseCorpusStats;
    if |data| >= 56 {
      var f := |data| - 56;
      ReadTwo(data, 4);
      ReadFour(data, f + 48);
      ReadEight(data, f);
      ReadEight(data, f + 8);
      ReadEight(data, f + 16);
      ReadEight(data, f + 24);
      ReadEight(data, f + 32);
      ReadEight(data, f + 40);
      assert data[f + 52..f + 56] == data[|data| - 4..];
    }
  }

  /** `posting_list` on any reader: an ordinal outside the table, a slice outside the file, or
      what the codec makes of the slice. */
  lemma PostingListCases(c: Codecs, r: SegmentReader, ordinal: u64)
    ensures var ids := PostingList(c, r, ordinal);
      if ordinal >= |r.termInfos| then ids == Err(InvalidTermOrdinal(ordinal))
      else
        var info := r.termInfos[ordinal];
        var start := r.footer.postingOffset + info.postingOffset;
        var end := start + info.postingLength;
        if end > |r.data| then ids == Err(TooShort(end, |r.data|)) else ids == Decode(c.lz, r.data[start..end])
  {
    hide Decode;
  }
}

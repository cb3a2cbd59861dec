/** The segment reader, and the round trip through the file. */
module SegmentRead {
  import opened Bytes
  import opened Types
  import opened Posting
  import opened SegmentFormat

  datatype SegmentReader = SegmentReader(
    data: seq<byte>, footer: SegmentFooter, forwardFst: seq<FstEntry>, reverseFst: seq<FstEntry>,
    termInfos: seq<TermInfo>, docTable: seq<DocTableEntry>, fileTable: seq<FileTableEntry>, stats: CorpusStats)

  // --- Parsing ------------------------------------------------------------------

  function ParseFooter(data: seq<byte>): Result<SegmentFooter>
    requires |data| >= FOOTER_SIZE
  {
    var f := |data| - FOOTER_SIZE;
    if data[f + 52..f + 56] != SEGMENT_MAGIC then Err(InvalidMagic)
    else Ok(SegmentFooter(ReadU64(data, f), ReadU64(data, f + 8), ReadU64(data, f + 16),
                          ReadU64(data, f + 24), ReadU64(data, f + 32), ReadU64(data, f + 40), ReadU32(data, f + 48)))
  }

  function ParseFst(c: Codecs, data: seq<byte>, offset: nat): Result<seq<FstEntry>>
  {
    if offset + 8 > |data| then Err(TooShort(offset + 8, |data|))
    else
      var start, end := offset + 8, offset + 8 + ReadU64(data, offset);
      if end > |data| then Err(TooShort(end, |data|))
      else match c.fst.read(data[start..end])
           case Some(m) => Ok(m)
           case None => Err(FstError)
  }

  function TermInfoAt(data: seq<byte>, base: nat): TermInfo
    requires base + TERM_INFO_SIZE <= |data|
  {
    TermInfo(ReadU64(data, base), ReadU32(data, base + 8), ReadU32(data, base + 12))
  }

  /** The table's position is derived: it follows the reverse dictionary, whose
      length prefix says where that ends. */
  function ParseTermInfoTable(data: seq<byte>, reverseFstOffset: nat): Result<seq<TermInfo>>
  {
    if reverseFstOffset + 8 > |data| then Err(TooShort(reverseFstOffset + 8, |data|))
    else
      var start := reverseFstOffset + 8 + ReadU64(data, reverseFstOffset);
      if start + 4 > |data| then Err(TooShort(start + 4, |data|))
      else
        var n := ReadU32(data, start);
        var end := start + 4 + n * TERM_INFO_SIZE;
        if end > |data| then Err(TooShort(end, |data|))
        else Ok(TermInfosAt(data, start + 4, n))
  }

  function TermInfosAt(data: seq<byte>, start: nat, n: nat): (r: seq<TermInfo>)
    requires start + n * TERM_INFO_SIZE <= |data|
    ensures |r| == n
    ensures forall i | 0 <= i < n :: r[i] == TermInfoAt(data, start + i * TERM_INFO_SIZE)
  {
    seq(n, i requires 0 <= i < n => TermInfoAt(data, start + i * TERM_INFO_SIZE))
  }

  function DocEntryAt(data: seq<byte>, base: nat): DocTableEntry
    requires base + DOC_TABLE_ENTRY_SIZE <= |data|
  {
    DocTableEntry(ReadU32(data, base), ReadU16(data, base + 4), ReadU16(data, base + 6),
                  ReadU64(data, base + 8), ReadU32(data, base + 16))
  }

  function ParseDocTable(data: seq<byte>, offset: nat): Result<seq<DocTableEntry>>
  {
    if offset + 4 > |data| then Err(TooShort(offset + 4, |data|))
    else
      var n := ReadU32(data, offset);
      var end := offset + 4 + n * DOC_TABLE_ENTRY_SIZE;
      if end > |data| then Err(TooShort(end, |data|))
      else Ok(DocEntriesAt(data, offset + 4, n))
  }

  function DocEntriesAt(data: seq<byte>, start: nat, n: nat): (r: seq<DocTableEntry>)
    requires start + n * DOC_TABLE_ENTRY_SIZE <= |data|
    ensures |r| == n
    ensures forall i | 0 <= i < n :: r[i] == DocEntryAt(data, start + i * DOC_TABLE_ENTRY_SIZE)
  {
    seq(n, i requires 0 <= i < n => DocEntryAt(data, start + i * DOC_TABLE_ENTRY_SIZE))
  }

  /** One file record: its path lies in the string pool that follows all records. */
  function FileEntryAt(c: Codecs, data: seq<byte>, base: nat, pool: nat): Result<FileTableEntry>
    requires base + 8 <= |data|
  {
    var start := pool + ReadU32(data, base);
    var end := start + ReadU16(data, base + 4);
    if end > |data| then Err(TooShort(end, |data|))
    else match c.utf8.decode(data[start..end])
         case Some(path) => Ok(FileTableEntry(path, ReadU16(data, base + 6)))
         case None => Err(PostingDecode)
  }

  function FileEntries(c: Codecs, data: seq<byte>, records: nat, pool: nat, n: nat): Result<seq<FileTableEntry>>
    requires records + 8 * n <= |data|
  {
    if n == 0 then Ok([])
    else
      var entries :- FileEntries(c, data, records, pool, n - 1);
      var entry :- FileEntryAt(c, data, records + 8 * (n - 1), pool);
      Ok(entries + [entry])
  }

  function ParseFileTable(c: Codecs, data: seq<byte>, offset: nat): Result<seq<FileTableEntry>>
  {
    if offset + 4 > |data| then Err(TooShort(offset + 4, |data|))
    else
      var n := ReadU32(data, offset);
      if n == 0 then Ok([])
      else
        var end := offset + 4 + n * 8;
        if end > |data| then Err(TooShort(end, |data|))
        else FileEntries(c, data, offset + 4, end, n)
  }

  function ParseCorpusStats(data: seq<byte>, offset: nat): Result<CorpusStats>
  {
    if offset + 16 > |data| then Err(TooShort(offset + 16, |data|))
    else Ok(CorpusStats(ReadU64(data, offset), ReadU64(data, offset + 8)))
  }

  /** `open`. */
  function Open(c: Codecs, data: seq<byte>): Result<SegmentReader>
  {
    if |data| < FOOTER_SIZE then Err(TooShort(FOOTER_SIZE, |data|))
    else if data[0..4] != SEGMENT_MAGIC then Err(InvalidMagic)
    else if ReadU16(data, 4) != SEGMENT_VERSION then Err(UnsupportedVersion(ReadU16(data, 4)))
    else
      var footer :- ParseFooter(data);
      var actual := c.crc32(data[..|data| - 8]);
      if actual != footer.checksum then Err(ChecksumMismatch(footer.checksum, actual))
      else
        var forward :- ParseFst(c, data, footer.forwardFstOffset);
        var reverse :- ParseFst(c, data, footer.reverseFstOffset);
        var infos :- ParseTermInfoTable(data, footer.reverseFstOffset);
        var docs :- ParseDocTable(data, footer.docTableOffset);
        var files :- ParseFileTable(c, data, footer.fileTableOffset);
        var stats :- ParseCorpusStats(data, footer.corpusStatsOffset);
        Ok(SegmentReader(data, footer, forward, reverse, infos, docs, files, stats))
  }

  // --- The parsing loops ------------------------------------------------------------

  method ParseTermInfoTableLoop(data: seq<byte>, reverseFstOffset: nat) returns (r: Result<seq<TermInfo>>)
    ensures r == ParseTermInfoTable(data, reverseFstOffset)
  {
    hide LE, ReadU32, ReadU64;
    if reverseFstOffset + 8 > |data| {
      return Err(TooShort(reverseFstOffset + 8, |data|));
    }
    var start := reverseFstOffset + 8 + ReadU64(data, reverseFstOffset);
    if start + 4 > |data| {
      return Err(TooShort(start + 4, |data|));
    }
    var n: nat := ReadU32(data, start);
    var end := start + 4 + n * TERM_INFO_SIZE;
    if end > |data| {
      return Err(TooShort(end, |data|));
    }
    var infos: seq<TermInfo> := [];
    for i := 0 to n
      invariant infos == TermInfosAt(data, start + 4, n)[..i]
    {
      var base := start + 4 + i * TERM_INFO_SIZE;
      infos := infos + [TermInfo(ReadU64(data, base), ReadU32(data, base + 8), ReadU32(data, base + 12))];
    }
    assert infos == TermInfosAt(data, start + 4, n);
    return Ok(infos);
  }

  method ParseDocTableLoop(data: seq<byte>, offset: nat) returns (r: Result<seq<DocTableEntry>>)
    ensures r == ParseDocTable(data, offset)
  {
    hide LE, ReadU16, ReadU32, ReadU64;
    if offset + 4 > |data| {
      return Err(TooShort(offset + 4, |data|));
    }
    var n: nat := ReadU32(data, offset);
    var end := offset + 4 + n * DOC_TABLE_ENTRY_SIZE;
    if end > |data| {
      return Err(TooShort(end, |data|));
    }
    var entries: seq<DocTableEntry> := [];
    for i := 0 to n
      invariant entries == DocEntriesAt(data, offset + 4, n)[..i]
    {
      var base := offset + 4 + i * DOC_TABLE_ENTRY_SIZE;
      entries := entries + [DocTableEntry(ReadU32(data, base), ReadU16(data, base + 4), ReadU16(data, base + 6),
                                          ReadU64(data, base + 8), ReadU32(data, base + 16))];
    }
    assert entries == DocEntriesAt(data, offset + 4, n);
    return Ok(entries);
  }

  method ParseFileTableLoop(c: Codecs, data: seq<byte>, offset: nat) returns (r: Result<seq<FileTableEntry>>)
    ensures r == ParseFileTable(c, data, offset)
  {
    hide LE, ReadU16, ReadU32;
    if offset + 4 > |data| {
      return Err(TooShort(offset + 4, |data|));
    }
    var n: nat := ReadU32(data, offset);
    if n == 0 {
      return Ok([]);
    }
    var pool := offset + 4 + n * 8;
    if pool > |data| {
      return Err(TooShort(pool, |data|));
    }
    var entries: seq<FileTableEntry> := [];
    for i := 0 to n
      invariant FileEntries(c, data, offset + 4, pool, i) == Ok(entries)
    {
      FirstError(c, data, offset + 4, pool, i + 1, n);
      var base := offset + 4 + i * 8;
      var start := pool + ReadU32(data, base);
      var end := start + ReadU16(data, base + 4);
      if end > |data| {
        return Err(TooShort(end, |data|));
      }
      var path := c.utf8.decode(data[start..end]);
      if path.None? {
        return Err(PostingDecode);
      }
      entries := entries + [FileTableEntry(path.value, ReadU16(data, base + 6))];
    }
    return Ok(entries);
  }

  /** The first bad record decides the error. */
  lemma {:induction false} FirstError(c: Codecs, data: seq<byte>, records: nat, pool: nat, i: nat, n: nat)
    requires i <= n && records + 8 * n <= |data|
    ensures FileEntries(c, data, records, pool, i).Err? ==>
              FileEntries(c, data, records, pool, n) == FileEntries(c, data, records, pool, i)
    decreases n
  {
    hide FileEntryAt;
    if i < n { FirstError(c, data, records, pool, i, n - 1); }
  }

  // --- Lookups ------------------------------------------------------------------------

  /** `Map::get`. */
  function FstGet(m: seq<FstEntry>, key: string): Option<u64>
  {
    if m == [] then None
    else if m[0].key == key then Some(m[0].value)
    else FstGet(m[1..], key)
  }

  function TermOrdinal(r: SegmentReader, term: string): Option<u64>
  {
    FstGet(r.forwardFst, term)
  }

  function TermInfoOf(r: SegmentReader, ordinal: u64): Result<TermInfo>
  {
    if ordinal < |r.termInfos| then Ok(r.termInfos[ordinal]) else Err(InvalidTermOrdinal(ordinal))
  }

  function PostingList(c: Codecs, r: SegmentReader, ordinal: u64): Result<seq<DocId>>
  {
    var info :- TermInfoOf(r, ordinal);
    var start := r.footer.postingOffset + info.postingOffset;
    var end := start + info.postingLength;
    if end > |r.data| then Err(TooShort(end, |r.data|))
    else Decode(c.lz, r.data[start..end])
  }

  function SearchTerm(c: Codecs, r: SegmentReader, term: string): Result<Option<seq<DocId>>>
  {
    match TermOrdinal(r, term)
    case None => Ok(None)
    case Some(ordinal) =>
      var ids :- PostingList(c, r, ordinal);
      Ok(Some(ids))
  }

  /** The entries whose key starts with `prefix`, in key order. */
  function WithPrefix(m: seq<FstEntry>, prefix: string): seq<FstEntry>
  {
    if m == [] then []
    else (if prefix <= m[|m| - 1].key
          then WithPrefix(m[..|m| - 1], prefix) + [m[|m| - 1]]
          else WithPrefix(m[..|m| - 1], prefix))
  }

  /** `suffix_terms`: prefix search on the reversed dictionary, keys reversed back. */
  method SuffixTerms(r: SegmentReader, suffix: string) returns (results: seq<FstEntry>)
    ensures results == Reversed(WithPrefix(r.reverseFst, Reverse(suffix)))
  {
    var stream := WithPrefix(r.reverseFst, Reverse(suffix));
    results := [];
    for i := 0 to |stream|
      invariant results == Reversed(stream)[..i]
    {
      results := results + [FstEntry(Reverse(stream[i].key), stream[i].value)];
    }
  }

  function Reversed(m: seq<FstEntry>): (r: seq<FstEntry>)
    ensures |r| == |m|
  {
    seq(|m|, i requires 0 <= i < |m| => FstEntry(Reverse(m[i].key), m[i].value))
  }

  // --- Round trip -----------------------------------------------------------------------

  /** `record` is what `data` holds at `off`. */
  ghost predicate At(data: seq<byte>, off: nat, record: seq<byte>)
  {
    off + |record| <= |data| && data[off..off + |record|] == record
  }

  lemma AtPart(data: seq<byte>, off: nat, record: seq<byte>, a: nat, part: seq<byte>)
    requires At(data, off, record) && At(record, a, part)
    ensures At(data, off + a, part)
  {
    SubSlice(data, off, record, a, a + |part|);
  }

  lemma AtConcat(data: seq<byte>, off: nat, a: seq<byte>, b: seq<byte>)
    requires At(data, off, a + b)
    ensures At(data, off, a) && At(data, off + |a|, b)
  {
    assert At(a + b, 0, a) && At(a + b, |a|, b);
    AtPart(data, off, a + b, 0, a);
    AtPart(data, off, a + b, |a|, b);
  }

  lemma AtPiece(data: seq<byte>, off: nat, pieces: seq<seq<byte>>, i: nat)
    requires At(data, off, Flatten(pieces)) && i < |pieces|
    ensures At(data, off + |Flatten(pieces[..i])|, pieces[i])
  {
    hide Flatten;
    PieceAt(pieces, i);
    AtPart(data, off, Flatten(pieces), |Flatten(pieces[..i])|, pieces[i]);
  }

  lemma AtFixed(data: seq<byte>, off: nat, pieces: seq<seq<byte>>, w: nat, i: nat)
    requires At(data, off, Flatten(pieces)) && i < |pieces|
    requires forall k | 0 <= k < |pieces| :: |pieces[k]| == w
    ensures i * w >= 0 && At(data, off + i * w, pieces[i])
    ensures |Flatten(pieces)| == |pieces| * w
  {
    hide Flatten;
    FixedWidth(pieces[..i], w);
    FixedWidth(pieces, w);
    AtPiece(data, off, pieces, i);
  }

  lemma ReadAt32(data: seq<byte>, off: nat, x: u32)
    requires At(data, off, U32LE(x))
    ensures off + 4 <= |data| && ReadU32(data, off) == x
  {
    FieldU32(data, off, U32LE(x), 0, x);
  }

  lemma ReadAt64(data: seq<byte>, off: nat, x: u64)
    requires At(data, off, U64LE(x))
    ensures off + 8 <= |data| && ReadU64(data, off) == x
  {
    FieldU64(data, off, U64LE(x), 0, x);
  }

  lemma DocRecordParses(data: seq<byte>, off: nat, e: DocTableEntry)
    requires At(data, off, DocRecord(e))
    ensures off + DOC_TABLE_ENTRY_SIZE <= |data| && DocEntryAt(data, off) == e
  {
    hide ToLE, LE;
    var r := DocRecord(e);
    FieldU32(data, off, r, 0, e.fileOrdinal);
    FieldU16(data, off, r, 4, e.rowGroup);
    FieldU16(data, off, r, 6, e.pageIndex);
    FieldU64(data, off, r, 8, e.firstRowIndex);
    FieldU32(data, off, r, 16, e.rowCount);
  }

  lemma DocTableParses(data: seq<byte>, off: nat, docs: seq<DocTableEntry>)
    requires At(data, off, DocTableBytes(docs)) && |docs| < 0x1_0000_0000
    ensures ParseDocTable(data, off) == Ok(docs)
  {
    hide ToLE, LE, DocRecord, DocEntryAt, Flatten, ReadU32, U32LE;
    var pieces := DocPieces(docs);
    AtConcat(data, off, U32LE(AsU32(|docs|)), Flatten(pieces));
    ReadAt32(data, off, AsU32(|docs|));
    FixedWidth(pieces, DOC_TABLE_ENTRY_SIZE);
    var start := off + 4;
    var parsed := DocEntriesAt(data, start, |docs|);
    forall i | 0 <= i < |docs| ensures parsed[i] == docs[i] {
      AtFixed(data, start, pieces, DOC_TABLE_ENTRY_SIZE, i);
      DocRecordParses(data, start + i * DOC_TABLE_ENTRY_SIZE, docs[i]);
    }
    assert parsed == docs;
  }

  lemma TermInfoRecordParses(data: seq<byte>, off: nat, offset: u64, length: u32, df: u32)
    requires At(data, off, U64LE(offset) + U32LE(length) + U32LE(df))
    ensures off + TERM_INFO_SIZE <= |data| && TermInfoAt(data, off) == TermInfo(offset, length, df)
  {
    hide ToLE, LE;
    var r := U64LE(offset) + U32LE(length) + U32LE(df);
    FieldU64(data, off, r, 0, offset);
    FieldU32(data, off, r, 8, length);
    FieldU32(data, off, r, 12, df);
  }

  function TermInfoFor(c: Codecs, terms: seq<TermRecord>, i: nat): TermInfo
    requires i < |terms|
  {
    TermInfo(AsU64(PostingOffset(c, terms, i)), AsU32(|Encode(c.lz, terms[i].ids)|), terms[i].docFrequency)
  }

  function TermInfosFor(c: Codecs, terms: seq<TermRecord>): (r: seq<TermInfo>)
    ensures |r| == |terms|
  {
    seq(|terms|, i requires 0 <= i < |terms| => TermInfoFor(c, terms, i))
  }

  /** The derived position is right: the table is found behind the reverse dictionary. */
  lemma TermInfoTableParses(c: Codecs, data: seq<byte>, rev: nat, revBytes: seq<byte>, terms: seq<TermRecord>)
    requires |terms| < 0x1_0000_0000 && |revBytes| < 0x1_0000_0000_0000_0000
    requires At(data, rev, LengthPrefixed(revBytes))
    requires At(data, rev + |LengthPrefixed(revBytes)|, TermInfoBytes(c, terms))
    ensures ParseTermInfoTable(data, rev)
         == Ok(TermInfosFor(c, terms))
  {
    hide ToLE, LE, TermInfoRecord, TermInfoAt, TermInfoFor, Flatten, ReadU32, ReadU64, PostingOffset, Encode, U32LE, U64LE;
    AtConcat(data, rev, U64LE(AsU64(|revBytes|)), revBytes);
    ReadAt64(data, rev, AsU64(|revBytes|));
    var pos := rev + 8 + |revBytes|;
    var pieces := TermInfoPieces(c, terms);
    AtConcat(data, pos, U32LE(AsU32(|terms|)), Flatten(pieces));
    ReadAt32(data, pos, AsU32(|terms|));
    FixedWidth(pieces, TERM_INFO_SIZE);
    var start := pos + 4;
    var parsed := TermInfosAt(data, start, |terms|);
    forall i | 0 <= i < |terms| ensures parsed[i] == TermInfoFor(c, terms, i) {
      AtFixed(data, start, pieces, TERM_INFO_SIZE, i);
      TermInfoPiece(c, data, start + i * TERM_INFO_SIZE, terms, i);
    }
    assert parsed == TermInfosFor(c, terms);
  }

  lemma TermInfoPiece(c: Codecs, data: seq<byte>, off: nat, terms: seq<TermRecord>, i: nat)
    requires i < |terms| && At(data, off, TermInfoRecord(c, terms, i))
    ensures off + TERM_INFO_SIZE <= |data| && TermInfoAt(data, off) == TermInfoFor(c, terms, i)
  {
    hide ToLE, LE, TermInfoAt, PostingOffset, Encode, U64LE, U32LE;
    var t := TermInfoFor(c, terms, i);
    TermInfoRecordParses(data, off, t.postingOffset, t.postingLength, t.docFrequency);
  }

  lemma FstParses(c: Codecs, data: seq<byte>, off: nat, m: seq<FstEntry>)
    requires c.Lawful() && FstKeysIncrease(m) && |c.fst.write(m)| < 0x1_0000_0000_0000_0000
    requires At(data, off, LengthPrefixed(c.fst.write(m)))
    ensures ParseFst(c, data, off) == Ok(m)
  {
    hide ToLE, LE, ReadU64, FstKeysIncrease;
    var b := c.fst.write(m);
    AtConcat(data, off, U64LE(AsU64(|b|)), b);
    ReadAt64(data, off, AsU64(|b|));
    assert c.fst.read(b) == Some(m);
  }

  lemma FileRecordParses(c: Codecs, data: seq<byte>, base: nat, pool: nat, files: seq<FileTableEntry>, i: nat)
    requires c.Lawful() && i < |files|
    requires |Flatten(PathPieces(c, files))| < 0x1_0000_0000 && |c.utf8.encode(files[i].path)| < 0x1_0000
    requires At(data, base, FileRecord(c, files, i)) && At(data, pool, Flatten(PathPieces(c, files)))
    ensures base + 8 <= |data| && FileEntryAt(c, data, base, pool) == Ok(files[i])
  {
    hide ToLE, LE, Flatten, PathPieces, ReadU16, ReadU32;
    var paths := PathPieces(c, files);
    var path := c.utf8.encode(files[i].path);
    PieceAt(paths, i);
    AtPiece(data, pool, paths, i);
    assert paths[i] == path by { PathPiece(c, files, i); }
    var r := FileRecord(c, files, i);
    FieldU32(data, base, r, 0, AsU32(|Flatten(paths[..i])|));
    FieldU16(data, base, r, 4, AsU16(|path|));
    FieldU16(data, base, r, 6, files[i].rowGroupCount);
    assert c.utf8.decode(path) == Some(files[i].path);
  }

  lemma PathPiece(c: Codecs, files: seq<FileTableEntry>, i: nat)
    requires i < |files|
    ensures PathPieces(c, files)[i] == c.utf8.encode(files[i].path)
  {}

  lemma {:induction false} FileEntriesParse(c: Codecs, data: seq<byte>, records: nat, pool: nat, files: seq<FileTableEntry>, n: nat)
    requires n <= |files| && records + 8 * n <= |data|
    requires forall i | 0 <= i < n :: FileEntryAt(c, data, records + 8 * i, pool) == Ok(files[i])
    ensures FileEntries(c, data, records, pool, n) == Ok(files[..n])
  {
    hide FileEntryAt;
    if n != 0 {
      FileEntriesParse(c, data, records, pool, files, n - 1);
      assert files[..n] == files[..n - 1] + [files[n - 1]];
    }
  }

  /** Where the parts of the file table lie. */
  lemma FileTableLayout(c: Codecs, data: seq<byte>, off: nat, files: seq<FileTableEntry>)
    requires |files| < 0x1_0000_0000 && At(data, off, FileTableBytes(c, files))
    ensures off + 4 + 8 * |files| <= |data| && ReadU32(data, off) == |files|
    ensures At(data, off + 4, Flatten(FileRecordPieces(c, files)))
    ensures At(data, off + 4 + 8 * |files|, Flatten(PathPieces(c, files)))
  {
    hide ToLE, LE, Flatten, PathPieces, FileRecord, ReadU32;
    var count, records, pool := U32LE(AsU32(|files|)), FileRecordPieces(c, files), Flatten(PathPieces(c, files));
    AtConcat(data, off, count + Flatten(records), pool);
    AtConcat(data, off, count, Flatten(records));
    ReadAt32(data, off, AsU32(|files|));
    FixedWidth(records, 8);
  }

  lemma FileTableParses(c: Codecs, data: seq<byte>, off: nat, files: seq<FileTableEntry>)
    requires c.Lawful() && |files| < 0x1_0000_0000
    requires |Flatten(PathPieces(c, files))| < 0x1_0000_0000
    requires forall i | 0 <= i < |files| :: |c.utf8.encode(files[i].path)| < 0x1_0000
    requires At(data, off, FileTableBytes(c, files))
    ensures ParseFileTable(c, data, off) == Ok(files)
  {
    hide ToLE, LE, Flatten, PathPieces, FileRecord, ReadU32, FileEntryAt, FileTableBytes, At, FileEntries;
    var n, records := |files|, FileRecordPieces(c, files);
    FileTableLayout(c, data, off, files);
    forall i | 0 <= i < n
      ensures off + 4 + 8 * i + 8 <= |data| && FileEntryAt(c, data, off + 4 + 8 * i, off + 4 + n * 8) == Ok(files[i])
    {
      AtFixed(data, off + 4, records, 8, i);
      FileRecordParses(c, data, off + 4 + 8 * i, off + 4 + n * 8, files, i);
    }
    NoEntries(c, data, off + 4, off + 4 + n * 8);
    FileEntriesParse(c, data, off + 4, off + 4 + n * 8, files, n);
    assert files[..n] == files;
  }

  lemma NoEntries(c: Codecs, data: seq<byte>, records: nat, pool: nat)
    requires records <= |data|
    ensures FileEntries(c, data, records, pool, 0) == Ok([])
  {}

  lemma StatsParse(data: seq<byte>, off: nat, stats: CorpusStats)
    requires At(data, off, StatsBytes(stats))
    ensures ParseCorpusStats(data, off) == Ok(stats)
  {
    hide ToLE, LE, ReadU64;
    AtConcat(data, off, U64LE(stats.totalRows), U64LE(stats.totalTokens));
    ReadAt64(data, off, stats.totalRows);
    ReadAt64(data, off + 8, stats.totalTokens);
  }

  /** The footer a segment gets. */
  function FooterOf(c: Codecs, s: Segment): SegmentFooter
  {
    SegmentFooter(AsU64(SectionOffset(c, s, 1)), AsU64(SectionOffset(c, s, 6)), AsU64(SectionOffset(c, s, 3)),
                  AsU64(SectionOffset(c, s, 4)), AsU64(SectionOffset(c, s, 2)), AsU64(SectionOffset(c, s, 7)),
                  c.crc32(SegmentBody(c, s)))
  }

  lemma FooterFields(data: seq<byte>, f: nat, a: u64, b: u64, d: u64, e: u64, g: u64, h: u64, checksum: u32)
    requires |data| == f + FOOTER_SIZE
    requires At(data, f, U64LE(a) + U64LE(b) + U64LE(d) + U64LE(e) + U64LE(g) + U64LE(h))
    requires At(data, f + 48, U32LE(checksum)) && At(data, f + 52, SEGMENT_MAGIC)
    ensures ParseFooter(data) == Ok(SegmentFooter(a, b, d, e, g, h, checksum))
  {
    hide ToLE, LE;
    var r := U64LE(a) + U64LE(b) + U64LE(d) + U64LE(e) + U64LE(g) + U64LE(h);
    FieldU64(data, f, r, 0, a);
    FieldU64(data, f, r, 8, b);
    FieldU64(data, f, r, 16, d);
    FieldU64(data, f, r, 24, e);
    FieldU64(data, f, r, 32, g);
    FieldU64(data, f, r, 40, h);
    ReadAt32(data, f + 48, checksum);
  }

  lemma FooterParses(c: Codecs, s: Segment)
    ensures var data := SegmentBytes(c, s);
      && |data| >= FOOTER_SIZE
      && ParseFooter(data) == Ok(FooterOf(c, s))
      && data[..|data| - 8] == SegmentBody(c, s)
      && At(data, 0, Flatten(Sections(c, s)))
  {
    hide ToLE, LE, Flatten, Sections, SectionOffset, ParseFooter;
    var data, flat, offs := SegmentBytes(c, s), Flatten(Sections(c, s)), FooterOffsets(c, s);
    var body := SegmentBody(c, s);
    var checksum := c.crc32(body);
    assert At(data, 0, data);
    AtConcat(data, 0, body + U32LE(checksum), SEGMENT_MAGIC);
    AtConcat(data, 0, body, U32LE(checksum));
    AtConcat(data, 0, flat, offs);
    var o := FooterOf(c, s);
    FooterFields(data, |flat|, o.fileTableOffset, o.docTableOffset, o.forwardFstOffset, o.reverseFstOffset,
                 o.postingOffset, o.corpusStatsOffset, checksum);
  }
}

/** The segment file as bytes: its sections, in order, and what each holds. */
module SegmentFormat {
  import opened Bytes
  import opened Types
  import opened Sorting
  import opened Posting

  /** The FST library, seen from outside: an ordered map from keys to numbers. */
  datatype FstEntry = FstEntry(key: string, value: u64)

  datatype Fst = Fst(write: seq<FstEntry> -> seq<byte>, read: seq<byte> -> Option<seq<FstEntry>>) {
    ghost predicate Lawful() {
      forall m | FstKeysIncrease(m) :: read(write(m)) == Some(m)
    }
  }

  datatype Utf8 = Utf8(encode: string -> seq<byte>, decode: seq<byte> -> Option<string>) {
    ghost predicate Lawful() {
      forall s :: decode(encode(s)) == Some(s)
    }
  }

  /** The libraries the format is built on. */
  datatype Codecs = Codecs(lz: Lz4, fst: Fst, utf8: Utf8, crc32: seq<byte> -> u32) {
    ghost predicate Lawful() {
      lz.Lawful() && fst.Lawful() && utf8.Lawful()
    }
  }

  predicate FstKeysIncrease(m: seq<FstEntry>)
  {
    forall i, j | 0 <= i < j < |m| :: LexLess(m[i].key, m[j].key)
  }

  /** What the builder holds: terms in order, and the tables. */
  datatype TermRecord = TermRecord(term: string, ids: seq<DocId>, docFrequency: u32)

  datatype Segment = Segment(
    terms: seq<TermRecord>, docTable: seq<DocTableEntry>, fileTable: seq<FileTableEntry>, stats: CorpusStats)

  ghost predicate TermsIncrease(terms: seq<TermRecord>)
  {
    forall i, j | 0 <= i < j < |terms| :: LexLess(terms[i].term, terms[j].term)
  }

  // --- File table -----------------------------------------------------------------

  function PathPieces(c: Codecs, files: seq<FileTableEntry>): (p: seq<seq<byte>>)
    ensures |p| == |files|
  {
    seq(|files|, i requires 0 <= i < |files| => c.utf8.encode(files[i].path))
  }

  function FileRecord(c: Codecs, files: seq<FileTableEntry>, i: nat): (r: seq<byte>)
    requires i < |files|
    ensures |r| == 8
  {
    U32LE(AsU32(|Flatten(PathPieces(c, files)[..i])|))
    + U16LE(AsU16(|c.utf8.encode(files[i].path)|))
    + U16LE(files[i].rowGroupCount)
  }

  function FileRecordPieces(c: Codecs, files: seq<FileTableEntry>): (p: seq<seq<byte>>)
    ensures |p| == |files|
  {
    seq(|files|, i requires 0 <= i < |files| => FileRecord(c, files, i))
  }

  function FileTableBytes(c: Codecs, files: seq<FileTableEntry>): seq<byte>
  {
    U32LE(AsU32(|files|)) + Flatten(FileRecordPieces(c, files)) + Flatten(PathPieces(c, files))
  }

  // --- Postings and their table ------------------------------------------------------

  function PostingPieces(c: Codecs, terms: seq<TermRecord>): (p: seq<seq<byte>>)
    ensures |p| == |terms|
  {
    seq(|terms|, i requires 0 <= i < |terms| => Encode(c.lz, terms[i].ids))
  }

  /** Where term `i`'s postings start within the posting section. */
  function PostingOffset(c: Codecs, terms: seq<TermRecord>, i: nat): nat
    requires i <= |terms|
  {
    |Flatten(PostingPieces(c, terms)[..i])|
  }

  function TermInfoRecord(c: Codecs, terms: seq<TermRecord>, i: nat): (r: seq<byte>)
    requires i < |terms|
    ensures |r| == TERM_INFO_SIZE
  {
    U64LE(AsU64(PostingOffset(c, terms, i))) + U32LE(AsU32(|Encode(c.lz, terms[i].ids)|)) + U32LE(terms[i].docFrequency)
  }

  function TermInfoPieces(c: Codecs, terms: seq<TermRecord>): (p: seq<seq<byte>>)
    ensures |p| == |terms|
  {
    seq(|terms|, i requires 0 <= i < |terms| => TermInfoRecord(c, terms, i))
  }

  function TermInfoBytes(c: Codecs, terms: seq<TermRecord>): seq<byte>
  {
    U32LE(AsU32(|terms|)) + Flatten(TermInfoPieces(c, terms))
  }

  // --- Doc table and statistics --------------------------------------------------------

  function DocRecord(e: DocTableEntry): (r: seq<byte>)
    ensures |r| == DOC_TABLE_ENTRY_SIZE
  {
    U32LE(e.fileOrdinal) + U16LE(e.rowGroup) + U16LE(e.pageIndex) + U64LE(e.firstRowIndex) + U32LE(e.rowCount)
  }

  function DocPieces(docs: seq<DocTableEntry>): (p: seq<seq<byte>>)
    ensures |p| == |docs|
  {
    seq(|docs|, i requires 0 <= i < |docs| => DocRecord(docs[i]))
  }

  function DocTableBytes(docs: seq<DocTableEntry>): seq<byte>
  {
    U32LE(AsU32(|docs|)) + Flatten(DocPieces(docs))
  }

  function StatsBytes(stats: CorpusStats): seq<byte>
  {
    U64LE(stats.totalRows) + U64LE(stats.totalTokens)
  }

  // --- Term dictionaries ---------------------------------------------------------------

  function Reverse(s: string): (r: string)
    ensures |r| == |s|
  {
    seq(|s|, i requires 0 <= i < |s| => s[|s| - 1 - i])
  }

  function ForwardEntries(terms: seq<TermRecord>): (m: seq<FstEntry>)
    ensures |m| == |terms|
  {
    seq(|terms|, i requires 0 <= i < |terms| => FstEntry(terms[i].term, AsU64(i)))
  }

  function ReversedTerms(terms: seq<TermRecord>): (m: seq<FstEntry>)
    ensures |m| == |terms|
  {
    seq(|terms|, i requires 0 <= i < |terms| => FstEntry(Reverse(terms[i].term), AsU64(i)))
  }

  /** The order `Vec<(String, u64)>::sort` uses. */
  predicate EntryLeq(a: FstEntry, b: FstEntry)
  {
    LexLess(a.key, b.key) || (a.key == b.key && a.value <= b.value)
  }

  function ReverseEntries(terms: seq<TermRecord>): seq<FstEntry>
  {
    Sort(ReversedTerms(terms), EntryLeq)
  }

  /** `MapBuilder`: refuses keys that do not strictly increase. */
  function BuildFst(c: Codecs, m: seq<FstEntry>): Result<seq<byte>>
  {
    if FstKeysIncrease(m) then Ok(c.fst.write(m)) else Err(FstError)
  }

  function LengthPrefixed(data: seq<byte>): seq<byte>
  {
    U64LE(AsU64(|data|)) + data
  }

  // --- The file ----------------------------------------------------------------------

  function HeaderBytes(): (h: seq<byte>)
    ensures |h| == 8
  {
    SEGMENT_MAGIC + U16LE(SEGMENT_VERSION) + U16LE(0)
  }

  /** The sections between file start and footer. */
  function Sections(c: Codecs, s: Segment): (p: seq<seq<byte>>)
    ensures |p| == 8
  {
    [ HeaderBytes(),
      FileTableBytes(c, s.fileTable),
      Flatten(PostingPieces(c, s.terms)),
      LengthPrefixed(c.fst.write(ForwardEntries(s.terms))),
      LengthPrefixed(c.fst.write(ReverseEntries(s.terms))),
      TermInfoBytes(c, s.terms),
      DocTableBytes(s.docTable),
      StatsBytes(s.stats) ]
  }

  function SectionOffset(c: Codecs, s: Segment, k: nat): nat
    requires k <= 8
  {
    |Flatten(Sections(c, s)[..k])|
  }

  /** The footer's offsets. The term-info table's offset is not among them. */
  function OffsetBytes(fileTable: nat, docTable: nat, forward: nat, reverse: nat, postings: nat, stats: nat): (r: seq<byte>)
    ensures |r| == 48
  {
    U64LE(AsU64(fileTable)) + U64LE(AsU64(docTable)) + U64LE(AsU64(forward))
    + U64LE(AsU64(reverse)) + U64LE(AsU64(postings)) + U64LE(AsU64(stats))
  }

  function FooterOffsets(c: Codecs, s: Segment): (r: seq<byte>)
    ensures |r| == 48
  {
    OffsetBytes(SectionOffset(c, s, 1), SectionOffset(c, s, 6), SectionOffset(c, s, 3),
                SectionOffset(c, s, 4), SectionOffset(c, s, 2), SectionOffset(c, s, 7))
  }

  /** Everything the checksum covers. */
  function SegmentBody(c: Codecs, s: Segment): seq<byte>
  {
    Flatten(Sections(c, s)) + FooterOffsets(c, s)
  }

  function SegmentBytes(c: Codecs, s: Segment): seq<byte>
  {
    SegmentBody(c, s) + U32LE(c.crc32(SegmentBody(c, s))) + SEGMENT_MAGIC
  }

  /** The segment fits the integer widths of its own fields. */
  ghost predicate Encodable(c: Codecs, s: Segment)
  {
    && |s.fileTable| < 0x1_0000_0000
    && (forall i | 0 <= i < |s.fileTable| :: |c.utf8.encode(s.fileTable[i].path)| < 0x1_0000)
    && |Flatten(PathPieces(c, s.fileTable))| < 0x1_0000_0000
    && |s.terms| < 0x1_0000_0000
    && (forall i | 0 <= i < |s.terms| :: |Encode(c.lz, s.terms[i].ids)| < 0x1_0000_0000)
    && |s.docTable| < 0x1_0000_0000
    && |SegmentBytes(c, s)| < 0x1_0000_0000_0000_0000
  }

  // --- The reversed dictionary -----------------------------------------------------------

  lemma ReverseInvolution(s: string)
    ensures Reverse(Reverse(s)) == s
  {}

  predicate EndsWith(s: string, suffix: string)
  {
    |suffix| <= |s| && s[|s| - |suffix|..] == suffix
  }

  lemma SuffixIsReversedPrefix(s: string, suffix: string)
    ensures Reverse(suffix) <= Reverse(s) <==> EndsWith(s, suffix)
  {
    if |suffix| <= |s| {
      var r, tail := Reverse(s)[..|suffix|], s[|s| - |suffix|..];
      assert r == Reverse(tail);
      ReverseInvolution(tail);
      ReverseInvolution(suffix);
    }
  }

  lemma EntryLeqIsPreorder()
    ensures TotalPreorder(EntryLeq)
  {
    forall x, y ensures EntryLeq(x, y) || EntryLeq(y, x) { LexTotal(x.key, y.key); }
    forall x, y, z | EntryLeq(x, y) && EntryLeq(y, z) ensures EntryLeq(x, z) {
      if LexLess(x.key, y.key) && LexLess(y.key, z.key) { LexTransitive(x.key, y.key, z.key); }
    }
  }

  lemma ReversedDistinct(terms: seq<TermRecord>, i: nat, j: nat)
    requires TermsIncrease(terms) && i < j < |terms|
    ensures Reverse(terms[i].term) != Reverse(terms[j].term)
  {
    ReverseInvolution(terms[i].term);
    ReverseInvolution(terms[j].term);
    LexIrreflexive(terms[i].term);
  }

  /** Reversed terms are distinct, so sorting them gives strictly increasing keys: the
      dictionary builder accepts them, and each keeps its ordinal. */
  lemma ReverseEntriesCorrect(terms: seq<TermRecord>)
    requires TermsIncrease(terms)
    ensures FstKeysIncrease(ReverseEntries(terms))
    ensures forall e :: e in ReverseEntries(terms) <==> e in ReversedTerms(terms)
    ensures |ReverseEntries(terms)| == |terms|
  {
    var m, r := ReversedTerms(terms), ReverseEntries(terms);
    EntryLeqIsPreorder();
    SortCorrect(m, EntryLeq);
    forall i, j | 0 <= i < j < |m| ensures m[i] != m[j] {
      ReversedDistinct(terms, i, j);
    }
    forall i, j | 0 <= i < j < |r| ensures LexLess(r[i].key, r[j].key) {
      assert EntryLeq(r[i], r[j]);
      if r[i].key == r[j].key {
        SameKeySameEntry(terms, r[i], r[j]);
        MultiplicityTwo(r, i, j);
        DistinctMultiplicity(m, r[i]);
      }
    }
  }

  lemma SameKeySameEntry(terms: seq<TermRecord>, a: FstEntry, b: FstEntry)
    requires TermsIncrease(terms) && a in ReversedTerms(terms) && b in ReversedTerms(terms) && a.key == b.key
    ensures a == b
  {
    var m := ReversedTerms(terms);
    var i :| 0 <= i < |m| && m[i] == a;
    var j :| 0 <= j < |m| && m[j] == b;
    if i < j { ReversedDistinct(terms, i, j); }
    if j < i { ReversedDistinct(terms, j, i); }
  }
}

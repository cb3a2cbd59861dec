/** The whole indexing run over a batch of files: inventory, row-group indexes, merge,
    segment. */
module IndexRun {
  import opened Bytes
  import opened Types
  import opened Tokenizer
  import opened ParquetUtil
  import opened Indexer
  import opened BatchIndex
  import opened Posting
  import opened SegmentFormat
  import opened IndexedSegment
  import opened Search

  /** The batch fits the counters of the index and of the segment. */
  ghost predicate TotalsFit(u: Unicode, files: seq<ParquetFile>)
  {
    && RowsBefore(files, |files|, 0) < 0x1_0000_0000
    && TokensBefore(u, files, |files|, 0) < 0x1_0000_0000_0000_0000
  }

  lemma {:induction false} CountAtMostRows(u: Unicode, rows: seq<Option<string>>, t: string)
    ensures CountRows(u, rows, t) <= |rows|
  {
    hide HasToken;
    if rows != [] { CountAtMostRows(u, rows[..|rows| - 1], t); }
  }

  /** A term's frequency never exceeds the number of rows. */
  lemma {:induction false} FrequencyAtMostRows(u: Unicode, files: seq<ParquetFile>, f: nat, g: nat, t: string)
    requires f <= |files| && (if f < |files| then g <= |files[f].groups| else g == 0)
    ensures RowsWithTerm(u, files, f, g, t) <= RowsBefore(files, f, g)
    decreases f, g
  {
    hide CountRows;
    if g > 0 {
      FrequencyAtMostRows(u, files, f, g - 1, t);
      CountAtMostRows(u, files[f].groups[g - 1].rows, t);
    } else if f > 0 {
      FrequencyAtMostRows(u, files, f - 1, |files[f - 1].groups|, t);
    }
  }

  lemma CountersStayInRange(u: Unicode, files: seq<ParquetFile>, index: GroupIndex)
    requires FilesFit(files) && ExactIndex(u, files, index) && TotalsFit(u, files)
    ensures CountersFit(index)
  {
    hide FilesFit, TermsMerged, PagesMerged, RowsWithTerm, ListsIncrease;
    forall t ensures Count(index.termDocFreq, t) < 0x1_0000_0000 {
      FrequencyAtMostRows(u, files, |files|, 0, t);
    }
  }

  /** The segment holds exactly what the files say. */
  ghost predicate IndexOf(c: Codecs, u: Unicode, files: seq<ParquetFile>, built: BuiltSegment)
  {
    exists inv, index, s :: BatchSegment(u, files, inv, index, s) && Encodes(c, s, built)
  }

  /** Indexes a batch of files into a segment that holds exactly what the files say. */
  method RunIndex(c: Codecs, u: Unicode, files: seq<ParquetFile>, read: (nat, nat) -> seq<seq<Option<string>>>)
    returns (built: BuiltSegment)
    requires FilesFit(files) && TotalsFit(u, files) && ReadsRows(files, read)
    ensures IndexOf(c, u, files, built)
  {
    hide FilesFit, ExactIndex, InventoryOf, SegmentFrom, CountersFit, Encodes, TotalsFit, ReadsRows;
    var inventory := BuildPageInventory(files);
    var index := IndexFiles(u, files, inventory, read);
    CountersStayInRange(u, files, index);
    var r := BuildSegment(c, index, inventory);
    ghost var s :| SegmentFrom(inventory, index, s) && Encodes(c, s, r.value);
    built := r.value;
    assert BatchSegment(u, files, inventory, index, s) && Encodes(c, s, built);
  }

  // --- Sizes -----------------------------------------------------------------------------

  /** A strictly increasing list of ids below `n` has at most `n` elements. */
  lemma {:induction false} IncreasingLength(ids: seq<DocId>, n: nat)
    requires StrictlyIncreasing(ids) && forall d | d in ids :: d < n
    ensures |ids| <= n
    decreases |ids|
  {
    if ids != [] {
      var last := ids[|ids| - 1];
      assert last in ids;
      var init := ids[..|ids| - 1];
      forall d: DocId | d in init ensures d < last {
        var i :| 0 <= i < |ids| - 1 && ids[i] == d;
      }
      IncreasingLength(init, last);
    }
  }

  lemma PostingPage(u: Unicode, files: seq<ParquetFile>, inv: PageInventory, index: GroupIndex, s: Segment, i: nat, d: DocId)
    requires BatchSegment(u, files, inv, index, s) && i < |s.terms| && d in s.terms[i].ids
    ensures d < |s.docTable|
  {
    hide ExactIndex, HasToken, DocIdOfRow, FilesFit;
    var q := s.terms[i].term;
    assert HasPosting(s, q, d);
    PostingIffRow(u, files, inv, index, s, q, d);
    var x: RowRef :| ValidRow(files, x) && HasToken(u, RowAt(files, x), q) && DocIdOfRow(files, x) == d;
    RowDocIdBound(files, x);
  }

  /** With at most 858 million pages, no posting list overflows its 32-bit length: the
      codec's size bound makes the length field exact. */
  lemma PostingLengthsFit(c: Codecs, u: Unicode, files: seq<ParquetFile>, inv: PageInventory, index: GroupIndex, s: Segment, i: nat)
    requires BatchSegment(u, files, inv, index, s) && i < |s.terms|
    requires 5 * |s.docTable| + 14 < 0x1_0000_0000
    ensures |Encode(c.lz, s.terms[i].ids)| < 0x1_0000_0000
  {
    hide Encode, BatchSegment, TermsIncrease;
    ListsOfSegmentIncrease(u, files, inv, index, s);
    forall d | d in s.terms[i].ids ensures d < |s.docTable| {
      PostingPage(u, files, inv, index, s, i, d);
    }
    IncreasingLength(s.terms[i].ids, |s.docTable|);
    EncodedSize(c.lz, s.terms[i].ids);
  }

  /** The paths' bytes, in file order. */
  function EncodedPaths(c: Codecs, files: seq<ParquetFile>): seq<seq<byte>>
  {
    seq(|files|, i requires 0 <= i < |files| => c.utf8.encode(files[i].path))
  }

  /** Bounds on the batch under which no length or offset of its segment is cut off. */
  ghost predicate BatchFits(c: Codecs, files: seq<ParquetFile>, built: BuiltSegment)
  {
    && |files| < 0x1_0000_0000
    && (forall i | 0 <= i < |files| :: |c.utf8.encode(files[i].path)| < 0x1_0000)
    && |Flatten(EncodedPaths(c, files))| < 0x1_0000_0000
    && 5 * PagesBefore(files, |files|, 0) + 14 < 0x1_0000_0000
    && built.termCount < 0x1_0000_0000
    && |built.bytes| < 0x1_0000_0000_0000_0000
  }

  lemma SegmentFits(c: Codecs, u: Unicode, files: seq<ParquetFile>, inv: PageInventory, index: GroupIndex, s: Segment,
                    built: BuiltSegment)
    requires BatchSegment(u, files, inv, index, s) && Encodes(c, s, built) && BatchFits(c, files, built)
    ensures Encodable(c, s)
  {
    hide Encode, ExactIndex, FilesFit, SegmentBytes, TermsIncrease, Flatten;
    assert PathPieces(c, s.fileTable) == EncodedPaths(c, files);
    forall i | 0 <= i < |s.terms| ensures |Encode(c.lz, s.terms[i].ids)| < 0x1_0000_0000 {
      PostingLengthsFit(c, u, files, inv, index, s, i);
    }
  }

  /** The segment holds exactly what the files say, and can be read back. */
  ghost predicate ReadableIndexOf(c: Codecs, u: Unicode, files: seq<ParquetFile>, built: BuiltSegment)
  {
    exists inv, index, s :: BatchSegment(u, files, inv, index, s) && Encodes(c, s, built) && Encodable(c, s)
  }

  /** A batch within the bounds gives a segment that can be read back. */
  lemma IndexIsReadable(c: Codecs, u: Unicode, files: seq<ParquetFile>, built: BuiltSegment)
    requires IndexOf(c, u, files, built) && BatchFits(c, files, built)
    ensures ReadableIndexOf(c, u, files, built)
  {
    hide BatchSegment, Encodes, Encodable, BatchFits;
    var inv, index, s :| BatchSegment(u, files, inv, index, s) && Encodes(c, s, built);
    SegmentFits(c, u, files, inv, index, s, built);
  }
}

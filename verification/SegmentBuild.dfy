/** The segment builder: an object whose fields are set by its methods, and whose
    `Build` appends the sections to one buffer. */
module SegmentBuild {
  import opened Bytes
  import opened Types
  import opened Sorting
  import opened Posting
  import opened SegmentFormat

  datatype TermEntry = TermEntry(ids: seq<DocId>, docFrequency: u32)

  /** `terms` lists the entries of the map `m` in key order. */
  ghost predicate InKeyOrder(m: map<string, TermEntry>, terms: seq<TermRecord>)
  {
    && TermsIncrease(terms)
    && (forall i | 0 <= i < |terms| ::
          terms[i].term in m && m[terms[i].term] == TermEntry(terms[i].ids, terms[i].docFrequency))
    && (forall t | t in m :: exists i :: 0 <= i < |terms| && terms[i].term == t)
  }

  /** The bytes are those of the segment with the map's entries in key order. */
  ghost predicate BytesOf(c: Codecs, m: map<string, TermEntry>, docTable: seq<DocTableEntry>, fileTable: seq<FileTableEntry>,
                          stats: CorpusStats, bytes: seq<byte>)
  {
    exists terms :: InKeyOrder(m, terms) && bytes == SegmentBytes(c, Segment(terms, docTable, fileTable, stats))
  }

  class SegmentBuilder {
    var terms: map<string, TermEntry>
    var docTable: seq<DocTableEntry>
    var fileTable: seq<FileTableEntry>
    var corpusStats: CorpusStats

    constructor ()
      ensures terms == map[] && docTable == [] && fileTable == [] && corpusStats == CorpusStats(0, 0)
    {
      terms := map[];
      docTable, fileTable, corpusStats := [], [], CorpusStats(0, 0);
    }

    method AddTerm(term: string, ids: seq<DocId>, docFrequency: u32)
      modifies this`terms
      ensures terms == old(terms)[term := TermEntry(ids, docFrequency)]
    {
      terms := terms[term := TermEntry(ids, docFrequency)];
    }

    method SetDocTable(entries: seq<DocTableEntry>)
      modifies this`docTable
      ensures docTable == entries
    {
      docTable := entries;
    }

    method SetFileTable(entries: seq<FileTableEntry>)
      modifies this`fileTable
      ensures fileTable == entries
    {
      fileTable := entries;
    }

    method SetCorpusStats(stats: CorpusStats)
      modifies this`corpusStats
      ensures corpusStats == stats
    {
      corpusStats := stats;
    }

    /** The ordered map's entries, in key order. */
    method SortedTerms() returns (sorted: seq<TermRecord>)
      ensures InKeyOrder(terms, sorted)
    {
      var keys := SortedKeys(terms.Keys);
      forall t | t in terms ensures t in keys { assert t in terms.Keys; }
      sorted := seq(|keys|, i requires 0 <= i < |keys| && keys[i] in terms reads this =>
                    TermRecord(keys[i], terms[keys[i]].ids, terms[keys[i]].docFrequency));
      assert forall i | 0 <= i < |keys| :: sorted[i].term == keys[i];
      forall t | t in terms ensures exists i :: 0 <= i < |sorted| && sorted[i].term == t {
        var i :| 0 <= i < |keys| && keys[i] == t;
        assert sorted[i].term == t;
      }
    }

    /** `build`: the bytes of the segment whose terms are the map's, in key order. The
        dictionary builders never refuse their keys. */
    method Build(c: Codecs) returns (r: Result<seq<byte>>)
      ensures r.Ok? && BytesOf(c, terms, docTable, fileTable, corpusStats, r.value)
    {
      hide HeaderBytes, FileTableBytes, LengthPrefixed, TermInfoBytes, DocTableBytes, StatsBytes, FooterOffsets, OffsetBytes;
      var sorted := SortedTerms();
      ghost var built := Segment(sorted, docTable, fileTable, corpusStats);
      ghost var sections := Sections(c, built);
      SectionSteps(sections);
      ForwardKeysIncrease(sorted);
      ReverseEntriesCorrect(sorted);

      var buf := HeaderBytes();
      var fileTableOffset := |buf|;
      buf := WriteFileTable(c, fileTable, buf);
      var postingOffset := |buf|;
      var infos;
      buf, infos := WritePostings(c, sorted, buf);
      var forwardOffset := |buf|;
      var forward := BuildFst(c, ForwardEntries(sorted));
      if forward.Err? { return Err(FstError); }
      buf := buf + LengthPrefixed(forward.value);
      var reverseOffset := |buf|;
      var reverse := BuildFst(c, ReverseEntries(sorted));
      if reverse.Err? { return Err(FstError); }
      buf := buf + LengthPrefixed(reverse.value);
      buf := WriteTermInfos(c, sorted, infos, buf);
      var docTableOffset := |buf|;
      buf := WriteDocTable(docTable, buf);
      var statsOffset := |buf|;
      buf := buf + StatsBytes(corpusStats);
      assert sections[..8] == sections;
      buf := buf + OffsetBytes(fileTableOffset, docTableOffset, forwardOffset, reverseOffset, postingOffset, statsOffset);
      assert buf == SegmentBody(c, built) by { OffsetsAre(c, built); }
      var checksum := c.crc32(buf);
      r := Ok(buf + U32LE(checksum) + SEGMENT_MAGIC);
      assert r.value == SegmentBytes(c, built) && InKeyOrder(terms, built.terms);
    }
  }

  lemma OffsetsAre(c: Codecs, s: Segment)
    ensures FooterOffsets(c, s)
         == OffsetBytes(SectionOffset(c, s, 1), SectionOffset(c, s, 6), SectionOffset(c, s, 3),
                        SectionOffset(c, s, 4), SectionOffset(c, s, 2), SectionOffset(c, s, 7))
  {}

  lemma SectionSteps(sections: seq<seq<byte>>)
    requires |sections| == 8
    ensures Flatten(sections[..1]) == sections[0]
    ensures forall k {:trigger sections[k]} | 1 <= k < 8 :: Flatten(sections[..k + 1]) == Flatten(sections[..k]) + sections[k]
  {
    forall k {:trigger sections[k]} | 0 <= k < 8
      ensures Flatten(sections[..k + 1]) == Flatten(sections[..k]) + sections[k]
    {
      FlattenPrefix(sections, k);
    }
    assert Flatten(sections[..0]) == [];
  }

  lemma ForwardKeysIncrease(terms: seq<TermRecord>)
    requires TermsIncrease(terms)
    ensures FstKeysIncrease(ForwardEntries(terms))
  {}

  /** `write_file_table`: records, then the pool their offsets point into. */
  method WriteFileTable(c: Codecs, files: seq<FileTableEntry>, buf: seq<byte>) returns (buf': seq<byte>)
    ensures buf' == buf + FileTableBytes(c, files)
  {
    hide ToLE;
    ghost var paths, records := PathPieces(c, files), FileRecordPieces(c, files);
    var pool: seq<byte> := [];
    var out: seq<byte> := [];
    for i := 0 to |files|
      invariant pool == Flatten(paths[..i])
      invariant out == Flatten(records[..i])
    {
      FlattenPrefix(paths, i);
      FlattenPrefix(records, i);
      var path := c.utf8.encode(files[i].path);
      out := out + (U32LE(AsU32(|pool|)) + U16LE(AsU16(|path|)) + U16LE(files[i].rowGroupCount));
      pool := pool + path;
    }
    assert paths[..|files|] == paths && records[..|files|] == records;
    buf' := buf + (U32LE(AsU32(|files|)) + out + pool);
  }

  datatype PostingSlice = PostingSlice(offset: nat, length: nat)

  /** Appends each term's encoded postings and records where they went. */
  method WritePostings(c: Codecs, terms: seq<TermRecord>, buf: seq<byte>)
    returns (buf': seq<byte>, slices: seq<PostingSlice>)
    ensures buf' == buf + Flatten(PostingPieces(c, terms))
    ensures |slices| == |terms|
    ensures forall i | 0 <= i < |terms| ::
              slices[i] == PostingSlice(PostingOffset(c, terms, i), |Encode(c.lz, terms[i].ids)|)
  {
    hide Encode;
    ghost var pieces := PostingPieces(c, terms);
    var postingOffset := |buf|;
    buf', slices := buf, [];
    for i := 0 to |terms|
      invariant buf' == buf + Flatten(pieces[..i])
      invariant |slices| == i
      invariant forall k | 0 <= k < i ::
        slices[k] == PostingSlice(PostingOffset(c, terms, k), |Encode(c.lz, terms[k].ids)|)
    {
      FlattenPrefix(pieces, i);
      var encoded := EncodeLoop(c.lz, terms[i].ids);
      slices := slices + [PostingSlice(|buf'| - postingOffset, |encoded|)];
      buf' := buf' + encoded;
    }
    assert pieces[..|terms|] == pieces;
  }

  method WriteTermInfos(c: Codecs, terms: seq<TermRecord>, slices: seq<PostingSlice>, buf: seq<byte>)
    returns (buf': seq<byte>)
    requires |slices| == |terms|
    requires forall i | 0 <= i < |terms| ::
               slices[i] == PostingSlice(PostingOffset(c, terms, i), |Encode(c.lz, terms[i].ids)|)
    ensures buf' == buf + TermInfoBytes(c, terms)
  {
    hide Encode, PostingOffset, ToLE;
    ghost var pieces := TermInfoPieces(c, terms);
    var out: seq<byte> := [];
    for i := 0 to |terms|
      invariant out == Flatten(pieces[..i])
    {
      FlattenPrefix(pieces, i);
      out := out + (U64LE(AsU64(slices[i].offset)) + U32LE(AsU32(slices[i].length)) + U32LE(terms[i].docFrequency));
    }
    assert pieces[..|terms|] == pieces;
    buf' := buf + (U32LE(AsU32(|terms|)) + out);
  }

  method WriteDocTable(docs: seq<DocTableEntry>, buf: seq<byte>) returns (buf': seq<byte>)
    ensures buf' == buf + DocTableBytes(docs)
  {
    hide ToLE;
    ghost var pieces := DocPieces(docs);
    var out: seq<byte> := [];
    for i := 0 to |docs|
      invariant out == Flatten(pieces[..i])
    {
      FlattenPrefix(pieces, i);
      var e := docs[i];
      out := out + (U32LE(e.fileOrdinal) + U16LE(e.rowGroup) + U16LE(e.pageIndex)
                    + U64LE(e.firstRowIndex) + U32LE(e.rowCount));
    }
    assert pieces[..|docs|] == pieces;
    buf' := buf + (U32LE(AsU32(|docs|)) + out);
  }
}

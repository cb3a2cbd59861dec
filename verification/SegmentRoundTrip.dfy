/** What opening a built segment recovers. */
module SegmentRoundTrip {
  import opened Bytes
  import opened Types
  import opened Sorting
  import opened Posting
  import opened SegmentFormat
  import opened SegmentRead

  /** The reader gives back everything the builder was told. */
  ghost predicate Recovers(c: Codecs, r: SegmentReader, s: Segment)
  {
    && r.docTable == s.docTable
    && r.fileTable == s.fileTable
    && r.stats == s.stats
    && r.forwardFst == ForwardEntries(s.terms)
    && r.reverseFst == ReverseEntries(s.terms)
    && |r.termInfos| == |s.terms| <= 0x1_0000_0000
    && (forall i: u64 | i < |s.terms| ::
          && TermInfoOf(r, i).Ok? && TermInfoOf(r, i).value.docFrequency == s.terms[i].docFrequency
          && PostingList(c, r, i) == Ok(s.terms[i].ids))
  }

  // --- Where the sections are --------------------------------------------------------

  lemma SectionAt(c: Codecs, s: Segment, k: nat)
    requires k < 8
    ensures At(SegmentBytes(c, s), SectionOffset(c, s, k), Sections(c, s)[k])
    ensures SectionOffset(c, s, k + 1) == SectionOffset(c, s, k) + |Sections(c, s)[k]|
    ensures SectionOffset(c, s, k + 1) <= |SegmentBytes(c, s)|
  {
    FooterParses(c, s);
    hide Flatten, Sections, SegmentBytes;
    AtPiece(SegmentBytes(c, s), 0, Sections(c, s), k);
    FlattenPrefix(Sections(c, s), k);
    FlattenPrefix(Sections(c, s), k + 1);
  }

  lemma HeaderReads(c: Codecs, s: Segment)
    ensures var data := SegmentBytes(c, s);
      |data| >= FOOTER_SIZE && data[0..4] == SEGMENT_MAGIC && ReadU16(data, 4) == SEGMENT_VERSION
  {
    hide ToLE, LE, SegmentBytes, ReadU16;
    var data := SegmentBytes(c, s);
    FooterParses(c, s);
    SectionAt(c, s, 0);
    assert SectionOffset(c, s, 0) == 0 by { SectionZero(c, s); }
    assert Sections(c, s)[0] == HeaderBytes();
    var h := HeaderBytes();
    assert h[0..4] == SEGMENT_MAGIC && h[4..6] == U16LE(SEGMENT_VERSION);
    SubSlice(data, 0, h, 0, 4);
    FieldU16(data, 0, h, 4, SEGMENT_VERSION);
  }

  lemma SectionZero(c: Codecs, s: Segment)
    ensures SectionOffset(c, s, 0) == 0
  {
    hide Sections;
    assert Sections(c, s)[..0] == [];
  }

  lemma FooterOffsetsExact(c: Codecs, s: Segment)
    requires Encodable(c, s)
    ensures var f := FooterOf(c, s);
      && f.fileTableOffset == SectionOffset(c, s, 1)
      && f.postingOffset == SectionOffset(c, s, 2)
      && f.forwardFstOffset == SectionOffset(c, s, 3)
      && f.reverseFstOffset == SectionOffset(c, s, 4)
      && f.docTableOffset == SectionOffset(c, s, 6)
      && f.corpusStatsOffset == SectionOffset(c, s, 7)
  {
    hide SectionOffset, SegmentBody, Encodable, AsU64;
    OffsetFits(c, s, 1);
    OffsetFits(c, s, 2);
    OffsetFits(c, s, 3);
    OffsetFits(c, s, 4);
    OffsetFits(c, s, 6);
    OffsetFits(c, s, 7);
  }

  lemma OffsetFits(c: Codecs, s: Segment, k: nat)
    requires Encodable(c, s) && k < 8
    ensures AsU64(SectionOffset(c, s, k)) == SectionOffset(c, s, k)
  {
    hide SectionOffset, SegmentBytes, Sections, Encodable, At;
    EncodableSize(c, s);
    SectionAt(c, s, k);
  }

  lemma EncodableSize(c: Codecs, s: Segment)
    requires Encodable(c, s)
    ensures |SegmentBytes(c, s)| < 0x1_0000_0000_0000_0000
    ensures forall i | 0 <= i < |s.terms| :: |Encode(c.lz, s.terms[i].ids)| < 0x1_0000_0000
  {
    hide SegmentBytes, PathPieces, Encode, Flatten;
  }

  /** Sections, by name, at the offsets the footer records. */
  lemma NamedSections(c: Codecs, s: Segment)
    requires Encodable(c, s)
    ensures var data, f := SegmentBytes(c, s), FooterOf(c, s);
      && At(data, f.fileTableOffset, FileTableBytes(c, s.fileTable))
      && At(data, f.postingOffset, Flatten(PostingPieces(c, s.terms)))
      && At(data, f.forwardFstOffset, LengthPrefixed(c.fst.write(ForwardEntries(s.terms))))
      && At(data, f.reverseFstOffset, LengthPrefixed(c.fst.write(ReverseEntries(s.terms))))
      && At(data, f.reverseFstOffset + |LengthPrefixed(c.fst.write(ReverseEntries(s.terms)))|, TermInfoBytes(c, s.terms))
      && At(data, f.docTableOffset, DocTableBytes(s.docTable))
      && At(data, f.corpusStatsOffset, StatsBytes(s.stats))
  {
    hide SectionOffset, SegmentBytes, FileTableBytes, Flatten, LengthPrefixed, TermInfoBytes, DocTableBytes, StatsBytes,
         HeaderBytes, ReverseEntries, ForwardEntries, At, FooterOf, Encodable;
    FooterOffsetsExact(c, s);
    SectionAt(c, s, 1);
    SectionAt(c, s, 2);
    SectionAt(c, s, 3);
    SectionAt(c, s, 4);
    SectionAt(c, s, 5);
    SectionAt(c, s, 6);
    SectionAt(c, s, 7);
  }

  // --- Postings -------------------------------------------------------------------------

  /** The term slices tile the posting section: each starts where the previous ends,
      the first at the start, the last ending at the section's end. */
  lemma PostingSlicesTile(c: Codecs, terms: seq<TermRecord>, i: nat)
    requires i < |terms|
    ensures PostingOffset(c, terms, 0) == 0
    ensures PostingOffset(c, terms, i + 1) == PostingOffset(c, terms, i) + |Encode(c.lz, terms[i].ids)|
    ensures PostingOffset(c, terms, i + 1) <= PostingOffset(c, terms, |terms|) == |Flatten(PostingPieces(c, terms))|
  {
    hide Encode;
    var pieces := PostingPieces(c, terms);
    assert pieces[..0] == [];
    assert pieces[..|terms|] == pieces;
    FlattenPrefix(pieces, i);
    FlattenPrefix(pieces, i + 1);
  }

  /** What the reader does with a term-info entry that points at `encoded`. */
  lemma PostingListAt(c: Codecs, r: SegmentReader, i: u64, encoded: seq<byte>, ids: seq<DocId>)
    requires i < |r.termInfos| && r.termInfos[i].postingLength == |encoded|
    requires At(r.data, r.footer.postingOffset + r.termInfos[i].postingOffset, encoded)
    requires Decode(c.lz, encoded) == Ok(ids)
    ensures PostingList(c, r, i) == Ok(ids)
  {
    hide Decode;
  }

  lemma PostingsRead(c: Codecs, r: SegmentReader, s: Segment, i: u64)
    requires c.Lawful() && Encodable(c, s) && i < |s.terms|
    requires r.data == SegmentBytes(c, s) && r.footer == FooterOf(c, s) && r.termInfos == TermInfosFor(c, s.terms)
    ensures PostingList(c, r, i) == Ok(s.terms[i].ids)
  {
    hide *;
    LawfulLz(c);
    RoundTrip(c.lz, s.terms[i].ids);
    var pieces, encoded := PostingPieces(c, s.terms), Encode(c.lz, s.terms[i].ids);
    var start := r.footer.postingOffset;
    NamedSections(c, s);
    EncodableSize(c, s);
    PostingPiece(c, s.terms, i);
    PostingSlicesTile(c, s.terms, i);
    AtPiece(r.data, start, pieces, i);
    InfoExact(c, s.terms, i, |r.data|);
    assert |Flatten(pieces[..i])| == PostingOffset(c, s.terms, i) by { OffsetIs(c, s.terms, i); }
    AtBound(r.data, start + PostingOffset(c, s.terms, i), encoded);
    PostingListAt(c, r, i, encoded, s.terms[i].ids);
  }

  lemma AtBound(data: seq<byte>, off: nat, record: seq<byte>)
    requires At(data, off, record)
    ensures off + |record| <= |data|
  {}

  lemma LawfulLz(c: Codecs)
    requires c.Lawful()
    ensures c.lz.Lawful()
  {}

  lemma PostingPiece(c: Codecs, terms: seq<TermRecord>, i: nat)
    requires i < |terms|
    ensures PostingPieces(c, terms)[i] == Encode(c.lz, terms[i].ids)
    ensures TermInfosFor(c, terms)[i] == TermInfoFor(c, terms, i)
  {
    hide Encode, TermInfoFor;
  }

  lemma OffsetIs(c: Codecs, terms: seq<TermRecord>, i: nat)
    requires i <= |terms|
    ensures |Flatten(PostingPieces(c, terms)[..i])| == PostingOffset(c, terms, i)
  {}

  lemma InfoExact(c: Codecs, terms: seq<TermRecord>, i: nat, size: nat)
    requires i < |terms| && size < 0x1_0000_0000_0000_0000 && |Encode(c.lz, terms[i].ids)| < 0x1_0000_0000
    ensures PostingOffset(c, terms, i) <= size ==>
      TermInfoFor(c, terms, i)
      == TermInfo(PostingOffset(c, terms, i), |Encode(c.lz, terms[i].ids)|, terms[i].docFrequency)
  {
    hide Encode, PostingOffset;
  }

  // --- The theorem --------------------------------------------------------------------------

  lemma SectionsParse(c: Codecs, s: Segment)
    requires c.Lawful() && TermsIncrease(s.terms) && Encodable(c, s)
    ensures var data, f := SegmentBytes(c, s), FooterOf(c, s);
      && ParseFst(c, data, f.forwardFstOffset) == Ok(ForwardEntries(s.terms))
      && ParseFst(c, data, f.reverseFstOffset) == Ok(ReverseEntries(s.terms))
      && ParseTermInfoTable(data, f.reverseFstOffset) == Ok(TermInfosFor(c, s.terms))
      && ParseDocTable(data, f.docTableOffset) == Ok(s.docTable)
      && ParseFileTable(c, data, f.fileTableOffset) == Ok(s.fileTable)
      && ParseCorpusStats(data, f.corpusStatsOffset) == Ok(s.stats)
  {
    hide FooterOf, SegmentBytes, ParseFst, ParseTermInfoTable, ParseDocTable, ParseFileTable, ParseCorpusStats,
         FileTableBytes, Flatten, TermInfoBytes, DocTableBytes, StatsBytes, ReverseEntries, ForwardEntries,
         PathPieces, PostingPieces, TermInfosFor, Encode, FstKeysIncrease;
    var data, f := SegmentBytes(c, s), FooterOf(c, s);
    NamedSections(c, s);
    ForwardIncreases(s.terms);
    ReverseEntriesCorrect(s.terms);
    FstParses(c, data, f.forwardFstOffset, ForwardEntries(s.terms));
    FstParses(c, data, f.reverseFstOffset, ReverseEntries(s.terms));
    TermInfoTableParses(c, data, f.reverseFstOffset, c.fst.write(ReverseEntries(s.terms)), s.terms);
    DocTableParses(data, f.docTableOffset, s.docTable);
    FileTableParses(c, data, f.fileTableOffset, s.fileTable);
    StatsParse(data, f.corpusStatsOffset, s.stats);
  }

  lemma ForwardIncreases(terms: seq<TermRecord>)
    requires TermsIncrease(terms)
    ensures FstKeysIncrease(ForwardEntries(terms))
  {}

  /** Opening the bytes a segment was built into succeeds and recovers the file table,
      the doc table, the statistics, both dictionaries and every posting list. */
  lemma OpenBuilt(c: Codecs, s: Segment)
    requires c.Lawful() && TermsIncrease(s.terms) && Encodable(c, s)
    ensures Open(c, SegmentBytes(c, s)).Ok?
    ensures Recovers(c, Open(c, SegmentBytes(c, s)).value, s)
  {
    hide FooterOf, SegmentBytes, ParseFst, ParseTermInfoTable, ParseDocTable, ParseFileTable, ParseCorpusStats,
         ReverseEntries, ForwardEntries, ParseFooter, PostingList, Encode, Flatten, PathPieces;
    HeaderReads(c, s);
    FooterParses(c, s);
    SectionsParse(c, s);
    assert FooterOf(c, s).checksum == c.crc32(SegmentBody(c, s)) by { ChecksumOf(c, s); }
    var r := Open(c, SegmentBytes(c, s)).value;
    forall i: u64 | i < |s.terms|
      ensures TermInfoOf(r, i).Ok? && TermInfoOf(r, i).value.docFrequency == s.terms[i].docFrequency
      ensures PostingList(c, r, i) == Ok(s.terms[i].ids)
    {
      PostingsRead(c, r, s, i);
    }
  }

  lemma ChecksumOf(c: Codecs, s: Segment)
    ensures FooterOf(c, s).checksum == c.crc32(SegmentBody(c, s))
  {
    hide SegmentBody;
  }

  /** The checksum of the last 56 bytes' footer covers everything before it. */
  lemma ChecksumChecked(c: Codecs, data: seq<byte>)
    requires Open(c, data).Ok?
    ensures |data| >= FOOTER_SIZE && data[0..4] == SEGMENT_MAGIC && ReadU16(data, 4) == SEGMENT_VERSION
    ensures data[|data| - 4..] == SEGMENT_MAGIC && c.crc32(data[..|data| - 8]) == ReadU32(data, |data| - 8)
  {
    hide ParseFst, ParseTermInfoTable, ParseDocTable, ParseFileTable, ParseCorpusStats, ReadU16, ReadU32, ReadU64;
  }

  /** Damage anywhere before the checksum is noticed unless the checksums collide. */
  lemma DamageIsDetected(c: Codecs, s: Segment, damaged: seq<byte>)
    requires c.Lawful() && TermsIncrease(s.terms) && Encodable(c, s)
    requires |damaged| == |SegmentBytes(c, s)| && damaged[|damaged| - 8..] == SegmentBytes(c, s)[|damaged| - 8..]
    requires c.crc32(damaged[..|damaged| - 8]) != c.crc32(SegmentBytes(c, s)[..|damaged| - 8])
    ensures Open(c, damaged).Err?
  {
    hide ToLE, LE, ReadU16, ReadU32, SegmentBytes, Open, Recovers, Encodable, TermsIncrease;
    var data := SegmentBytes(c, s);
    OpenBuilt(c, s);
    ChecksumChecked(c, data);
    if Open(c, damaged).Ok? {
      ChecksumChecked(c, damaged);
      LastField(data, damaged);
    }
  }

  lemma LastField(a: seq<byte>, b: seq<byte>)
    requires |a| == |b| >= 8 && a[|a| - 8..] == b[|b| - 8..]
    ensures ReadU32(a, |a| - 8) == ReadU32(b, |b| - 8)
  {
    assert a[|a| - 8..|a| - 4] == a[|a| - 8..][..4];
    assert b[|b| - 8..|b| - 4] == b[|b| - 8..][..4];
  }

  // --- Lookups on a recovered segment -------------------------------------------------------------

  lemma {:induction false} FstGetFinds(m: seq<FstEntry>, key: string)
    requires FstKeysIncrease(m)
    ensures forall i | 0 <= i < |m| && m[i].key == key :: FstGet(m, key) == Some(m[i].value)
    ensures (forall i | 0 <= i < |m| :: m[i].key != key) ==> FstGet(m, key) == None
  {
    if m != [] {
      FstGetFinds(m[1..], key);
      forall i | 0 <= i < |m| && m[i].key == key ensures FstGet(m, key) == Some(m[i].value) {
        if i > 0 {
          LexIrreflexive(key);
          assert m[1..][i - 1] == m[i];
        }
      }
    }
  }

  /** Searching a recovered segment: a term it was built with yields its posting list and
      frequency, any other term yields none. */
  lemma SearchRecovered(c: Codecs, r: SegmentReader, s: Segment, term: string)
    requires Recovers(c, r, s) && TermsIncrease(s.terms)
    ensures forall i | 0 <= i < |s.terms| && s.terms[i].term == term ::
      TermOrdinal(r, term) == Some(i) && SearchTerm(c, r, term) == Ok(Some(s.terms[i].ids))
    ensures (forall i | 0 <= i < |s.terms| :: s.terms[i].term != term) ==>
      TermOrdinal(r, term) == None && SearchTerm(c, r, term) == Ok(None)
  {
    hide PostingList, TermInfoOf, ReverseEntries, FstGet;
    var m := ForwardEntries(s.terms);
    ForwardIncreases(s.terms);
    FstGetFinds(m, term);
    forall i | 0 <= i < |s.terms| && s.terms[i].term == term
      ensures TermOrdinal(r, term) == Some(i) && SearchTerm(c, r, term) == Ok(Some(s.terms[i].ids))
    {
      assert m[i] == FstEntry(term, i);
    }
  }

  lemma {:induction false} WithPrefixMembers(m: seq<FstEntry>, prefix: string)
    ensures forall e :: e in WithPrefix(m, prefix) <==> e in m && prefix <= e.key
    ensures FstKeysIncrease(m) ==> FstKeysIncrease(WithPrefix(m, prefix))
  {
    if m != [] {
      var rest := m[..|m| - 1];
      WithPrefixMembers(rest, prefix);
      assert m == rest + [m[|m| - 1]];
      if FstKeysIncrease(m) {
        forall e | e in rest ensures LexLess(e.key, m[|m| - 1].key) {
          var i :| 0 <= i < |rest| && rest[i] == e;
        }
        AppendLargest(WithPrefix(rest, prefix), m[|m| - 1]);
      }
    }
  }

  lemma AppendLargest(m: seq<FstEntry>, last: FstEntry)
    requires FstKeysIncrease(m) && forall e | e in m :: LexLess(e.key, last.key)
    ensures FstKeysIncrease(m + [last])
  {
    forall i | 0 <= i < |m| ensures LexLess(m[i].key, last.key) { assert m[i] in m; }
  }

  /** Suffix search on a recovered segment returns exactly the terms that end with the
      suffix, each once, with the ordinals of the forward dictionary. */
  lemma SuffixSearchExact(c: Codecs, r: SegmentReader, s: Segment, suffix: string)
    requires Recovers(c, r, s) && TermsIncrease(s.terms)
    ensures var results := Reversed(WithPrefix(r.reverseFst, Reverse(suffix)));
      && (forall e :: e in results <==>
            exists i :: 0 <= i < |s.terms| && e == FstEntry(s.terms[i].term, i) && EndsWith(s.terms[i].term, suffix))
      && (forall e | e in results :: TermOrdinal(r, e.key) == Some(e.value))
      && (forall i, j | 0 <= i < j < |results| :: results[i] != results[j])
  {
    hide PostingList, TermInfoOf, ReverseEntries;
    var p := Reverse(suffix);
    var hits := WithPrefix(r.reverseFst, p);
    var results := Reversed(hits);
    ReverseEntriesCorrect(s.terms);
    WithPrefixMembers(r.reverseFst, p);
    forall e ensures e in results <==>
      exists i :: 0 <= i < |s.terms| && e == FstEntry(s.terms[i].term, i) && EndsWith(s.terms[i].term, suffix)
    {
      SuffixHit(s.terms, hits, suffix, e);
    }
    forall e | e in results ensures TermOrdinal(r, e.key) == Some(e.value) {
      SearchRecovered(c, r, s, e.key);
    }
    forall i, j | 0 <= i < j < |results| ensures results[i] != results[j] {
      ReverseInvolution(hits[i].key);
      ReverseInvolution(hits[j].key);
      LexIrreflexive(hits[i].key);
    }
  }

  lemma SuffixHit(terms: seq<TermRecord>, hits: seq<FstEntry>, suffix: string, e: FstEntry)
    requires |terms| <= 0x1_0000_0000
    requires forall h :: h in hits <==> h in ReversedTerms(terms) && Reverse(suffix) <= h.key
    ensures e in Reversed(hits)
       <==> exists i :: 0 <= i < |terms| && e == FstEntry(terms[i].term, i) && EndsWith(terms[i].term, suffix)
  {
    var m := ReversedTerms(terms);
    forall i | 0 <= i < |terms| ensures m[i] == FstEntry(Reverse(terms[i].term), i) && m[i] in m {}
    if e in Reversed(hits) {
      var k :| 0 <= k < |hits| && Reversed(hits)[k] == e;
      assert hits[k] in hits;
      var i :| 0 <= i < |m| && m[i] == hits[k];
      ReverseInvolution(terms[i].term);
      SuffixIsReversedPrefix(terms[i].term, suffix);
    }
    forall i | 0 <= i < |terms| && e == FstEntry(terms[i].term, i) && EndsWith(terms[i].term, suffix)
      ensures e in Reversed(hits)
    {
      SuffixIsReversedPrefix(terms[i].term, suffix);
      assert m[i] in hits;
      var k :| 0 <= k < |hits| && hits[k] == m[i];
      ReverseInvolution(terms[i].term);
      assert Reversed(hits)[k] == e;
    }
  }
}

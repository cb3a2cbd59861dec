/** A query over one segment: evaluated, grouped into work items, its candidate pages read
    and verified. It returns exactly the matching rows of the segment's files, each once. */
module SegmentSearch {
  import opened Types
  import opened Sorting
  import opened Tokenizer
  import opened ParquetUtil
  import opened Indexer
  import opened BatchIndex
  import opened Counting
  import opened SegmentFormat
  import opened SegmentRead
  import opened SegmentRoundTrip
  import opened Evaluate
  import opened IndexedSegment
  import opened Verify
  import opened Work
  import opened Search

  /** In the row group of a work item, every matching row lies on one of its pages. */
  lemma ItemCoversMatches(u: Unicode, files: seq<ParquetFile>, inv: PageInventory, index: GroupIndex, s: Segment,
                          queryTerms: seq<string>, op: Operator, candidates: seq<DocId>,
                          k: GroupKey, item: IndexedWorkItem, r: nat)
    requires BatchSegment(u, files, inv, index, s) && queryTerms != []
    requires forall d :: d in candidates <==> PageMatches(s, queryTerms, op, d)
    requires ItemFor(s.fileTable, EntriesOf(s.docTable, candidates), k, item)
    requires ValidRow(files, RowRef(k.file, k.group, r))
    requires RowMatches(u, files[k.file].groups[k.group].rows[r], queryTerms, op)
    ensures Covered(item.entries, r)
  {
    var x := RowRef(k.file, k.group, r);
    assert RowAt(files, x) == files[k.file].groups[k.group].rows[r];
    hide PageMatches, RowMatches, ItemFor, PageEntries;
    MatchingRowIsCovered(u, files, inv, index, s, queryTerms, op, candidates, x);
    CandidateEntries(u, files, inv, index, s, queryTerms, op, candidates);
    ItemEntriesExact(files, s.fileTable, EntriesOf(s.docTable, candidates), k, item);
  }

  /** A matching row's group has a work item. */
  lemma MatchHasItem(u: Unicode, lake: Lake, files: seq<ParquetFile>, inv: PageInventory, index: GroupIndex, s: Segment,
                     queryTerms: seq<string>, op: Operator, candidates: seq<DocId>, keys: seq<GroupKey>, key: RowKey)
    returns (k: nat)
    requires BatchSegment(u, files, inv, index, s) && queryTerms != [] && FilesIn(lake, files)
    requires forall d :: d in candidates <==> PageMatches(s, queryTerms, op, d)
    requires forall g :: g in keys <==> exists e :: e in EntriesOf(s.docTable, candidates) && KeyOf(e) == g
    requires FileOf(files, key.path) && Matches(u, lake, key, queryTerms, op)
    ensures k < |keys| && keys[k].file < |files| && files[keys[k].file].path == key.path && keys[k].group == key.group
  {
    var f :| 0 <= f < |files| && files[f].path == key.path;
    var x := RowRef(f, key.group, key.row);
    assert lake[key.path] == files[f];
    assert ValidRow(files, x) && RowMatches(u, RowAt(files, x), queryTerms, op);
    hide PageMatches, RowMatches, BatchSegment;
    MatchingRowIsCovered(u, files, inv, index, s, queryTerms, op, candidates, x);
    var e :| e in EntriesOf(s.docTable, candidates) && Covers(e, x.row) && e.fileOrdinal == x.file && e.rowGroup == x.group;
    assert KeyOf(e) in keys;
    k :| 0 <= k < |keys| && keys[k] == KeyOf(e);
  }

  /** Keys found through the first `n` work items. */
  ghost predicate FoundBy(u: Unicode, lake: Lake, items: seq<IndexedWorkItem>, n: nat, queryTerms: seq<string>, op: Operator,
                          key: RowKey)
    requires n <= |items|
  {
    && Matches(u, lake, key, queryTerms, op)
    && exists k :: 0 <= k < n && items[k].filePath == key.path && items[k].rgIdx == key.group
  }

  /** Reads and verifies one work item: exactly the matching rows of its row group. */
  method SearchItem(u: Unicode, ilike: Ilike, lake: Lake, item: IndexedWorkItem, queryTerms: seq<string>, op: Operator,
                    ghost files: seq<ParquetFile>, ghost inv: PageInventory, ghost index: GroupIndex, ghost s: Segment,
                    ghost candidates: seq<DocId>, ghost k: GroupKey)
    returns (found: seq<nat>, unit: Unit)
    requires BatchSegment(u, files, inv, index, s) && FilesIn(lake, files) && queryTerms != []
    requires forall d :: d in candidates <==> PageMatches(s, queryTerms, op, d)
    requires ItemFor(s.fileTable, EntriesOf(s.docTable, candidates), k, item)
    requires exists e :: e in EntriesOf(s.docTable, candidates) && KeyOf(e) == k
    ensures item.filePath in lake && item.rgIdx < |lake[item.filePath].groups|
    ensures StrictlyIncreasing(found)
    ensures unit.path == item.filePath && unit.mode.ByIndex?
    ensures KeptOf(u, ilike, unit.mode, unit.rows, queryTerms, op) == KeysOf(item.filePath, item.rgIdx, found)
    ensures var all := lake[item.filePath].groups[item.rgIdx].rows;
      forall row :: row in found <==> 0 <= row < |all| && RowMatches(u, all[row], queryTerms, op)
  {
    BatchParts(u, files, inv, index, s);
    hide BatchSegment, FilesFit, InventoryOf, PageMatches, RowMatches, StrictlyIncreasing, ItemFor, PageEntries, FilesIn, Covered,
         KeptOf;
    ghost var entries := EntriesOf(s.docTable, candidates);
    CandidateEntries(u, files, inv, index, s, queryTerms, op, candidates);
    ItemInOrder(files, inv, entries, k, item);
    ItemGroup(s.fileTable, entries, k, item);
    FileInLake(lake, files, k.file);
    var group := lake[item.filePath].groups[item.rgIdx];
    found, unit := SearchGroup(u, ilike, item.filePath, item.rgIdx, group, item.entries, queryTerms, op);
    forall row: nat | row < |group.rows| && RowMatches(u, group.rows[row], queryTerms, op)
      ensures Covered(item.entries, row)
    {
      ItemCoversMatches(u, files, inv, index, s, queryTerms, op, candidates, k, item, row);
    }
  }

  lemma BatchParts(u: Unicode, files: seq<ParquetFile>, inv: PageInventory, index: GroupIndex, s: Segment)
    requires BatchSegment(u, files, inv, index, s)
    ensures FilesFit(files) && InventoryOf(files, inv) && inv.fileTable == s.fileTable && |s.fileTable| == |files|
    ensures forall f | 0 <= f < |files| :: s.fileTable[f].path == files[f].path
  {
    hide FilesFit, ExactIndex, TermsIncrease, PagesBefore, EntryOf, PagesOf;
  }

  // --- Evaluation over a batch of files ---------------------------------------------------

  /** The query terms some row has, in query order, repetitions included, each with the number
      of rows that have it; nothing when an AND has a term no row has. */
  function QueryFrequencies(u: Unicode, files: seq<ParquetFile>, queryTerms: seq<string>, op: Operator): seq<(string, nat)>
  {
    if op.And? && exists k :: 0 <= k < |queryTerms| && RowsWithTerm(u, files, |files|, 0, queryTerms[k]) == 0 then []
    else PresentTerms(u, files, queryTerms)
  }

  function PresentTerms(u: Unicode, files: seq<ParquetFile>, queryTerms: seq<string>): seq<(string, nat)>
  {
    if queryTerms == [] then []
    else
      var q := queryTerms[|queryTerms| - 1];
      var n := RowsWithTerm(u, files, |files|, 0, q);
      PresentTerms(u, files, queryTerms[..|queryTerms| - 1]) + (if n > 0 then [(q, n)] else [])
  }

  /** The segment has the terms that rows have, with the number of those rows. */
  lemma TermIffRow(u: Unicode, files: seq<ParquetFile>, inv: PageInventory, index: GroupIndex, s: Segment, q: string)
    requires BatchSegment(u, files, inv, index, s)
    ensures HasTerm(s, q) <==> RowsWithTerm(u, files, |files|, 0, q) > 0
    ensures HasTerm(s, q) ==> FrequencyOf(s, q) == RowsWithTerm(u, files, |files|, 0, q)
  {
    hide FilesFit, InventoryOf, ExactIndex, HasToken, RowsWithTerm, TermsIncrease, DocIdOfRow, Count;
    IndexMeaning(u, files, index, q, 0);
    assert HasTerm(s, q) <==> q in index.termDocIds;
    var rows := FrequencyCountsRows(u, files, |files|, 0, q);
    if x: RowRef :| ValidRow(files, x) && HasToken(u, RowAt(files, x), q) { assert x in rows; }
    if rows != [] { assert rows[0] in rows; }
  }

  lemma {:induction false} FrequenciesOfBatch(u: Unicode, files: seq<ParquetFile>, inv: PageInventory, index: GroupIndex, s: Segment,
                                              queryTerms: seq<string>)
    requires BatchSegment(u, files, inv, index, s)
    ensures Frequencies(s, queryTerms) == PresentTerms(u, files, queryTerms)
  {
    hide BatchSegment, HasTerm, FrequencyOf, RowsWithTerm;
    if queryTerms != [] {
      var n := |queryTerms| - 1;
      FrequenciesOfBatch(u, files, inv, index, s, queryTerms[..n]);
      TermIffRow(u, files, inv, index, s, queryTerms[n]);
    }
  }

  lemma EvaluatedFrequencies(u: Unicode, files: seq<ParquetFile>, inv: PageInventory, index: GroupIndex, s: Segment,
                             queryTerms: seq<string>, op: Operator)
    requires BatchSegment(u, files, inv, index, s)
    ensures (if MissesTerm(s, queryTerms, op) then [] else Frequencies(s, queryTerms)) == QueryFrequencies(u, files, queryTerms, op)
  {
    hide BatchSegment, HasTerm, FrequencyOf, RowsWithTerm, Frequencies, PresentTerms;
    FrequenciesOfBatch(u, files, inv, index, s, queryTerms);
    forall k | 0 <= k < |queryTerms|
      ensures HasTerm(s, queryTerms[k]) <==> RowsWithTerm(u, files, |files|, 0, queryTerms[k]) > 0
    {
      TermIffRow(u, files, inv, index, s, queryTerms[k]);
    }
  }

  lemma TotalsOfBatch(u: Unicode, files: seq<ParquetFile>, inv: PageInventory, index: GroupIndex, s: Segment)
    requires BatchSegment(u, files, inv, index, s)
    ensures s.stats.totalRows == RowsBefore(files, |files|, 0) && s.stats.totalTokens == TokensBefore(u, files, |files|, 0)
  {
    hide FilesFit, InventoryOf, TermsIncrease, TermsMerged, PagesMerged, CountsMerged, RowsBefore, TokensBefore;
  }

  /** Evaluates a segment and groups its candidates into work items. Each item carries, for
      scoring, the query's frequencies and the batch's totals. */
  method PlanItems(c: Codecs, u: Unicode, r: SegmentReader, queryTerms: seq<string>, op: Operator,
                   ghost files: seq<ParquetFile>, ghost inv: PageInventory, ghost index: GroupIndex, ghost s: Segment)
    returns (items: seq<IndexedWorkItem>, ghost candidates: seq<DocId>, ghost keys: seq<GroupKey>)
    requires Recovers(c, r, s) && BatchSegment(u, files, inv, index, s)
    ensures forall d :: d in candidates <==> PageMatches(s, queryTerms, op, d)
    ensures ItemsFor(s.fileTable, EntriesOf(s.docTable, candidates), keys, items)
    ensures forall i | 0 <= i < |items| ::
              && TermRows(items[i].termInfos) == QueryFrequencies(u, files, queryTerms, op)
              && items[i].stats.totalRows == RowsBefore(files, |files|, 0)
              && items[i].stats.totalTokens == TokensBefore(u, files, |files|, 0)
  {
    hide Recovers, BatchSegment, PageMatches, StrictlyIncreasing, TermsIncrease, ItemFor, PageEntries, KeysIncrease, EntriesOf,
         TermRows, MissesTerm, Frequencies, QueryFrequencies, RowsBefore, TokensBefore;
    ListsOfSegmentIncrease(u, files, inv, index, s);
    BatchParts(u, files, inv, index, s);
    ReaderTables(c, r, s);
    hide FilesFit, InventoryOf;
    var e := EvaluateRecovered(c, r, s, queryTerms, op);
    EvaluatedFrequencies(u, files, inv, index, s, queryTerms, op);
    TotalsOfBatch(u, files, inv, index, s);
    candidates := e.candidates;
    CandidateEntries(u, files, inv, index, s, queryTerms, op, candidates);
    items := GroupCandidates(r, e.candidates, e.termInfos);
    keys :| ItemsFor(s.fileTable, EntriesOf(s.docTable, candidates), keys, items);
  }

  /** Searches a segment through its index: exactly the matching rows of its files. */
  method SearchSegment(c: Codecs, u: Unicode, ilike: Ilike, r: SegmentReader, lake: Lake, queryTerms: seq<string>, op: Operator,
                       ghost files: seq<ParquetFile>, ghost inv: PageInventory, ghost index: GroupIndex, ghost s: Segment)
    returns (rows: seq<RowKey>, units: seq<Unit>)
    requires Recovers(c, r, s) && BatchSegment(u, files, inv, index, s)
    requires FilesIn(lake, files) && DistinctPaths(files) && queryTerms != []
    ensures NoDuplicates(rows) && rows == AllKept(u, ilike, units, queryTerms, op)
    ensures forall x | x in units :: x.mode.ByIndex?
    ensures forall key :: key in rows <==> FileOf(files, key.path) && Matches(u, lake, key, queryTerms, op)
  {
    hide Recovers, BatchSegment, PageMatches, RowMatches, StrictlyIncreasing, TermsIncrease, ItemFor,
         PageEntries, Matches, QueryFrequencies, RowsBefore, TokensBefore, TermRows, FilesIn, DistinctPaths, FileOf, KeysIncrease, FoundBy, NoDuplicates, EntriesOf, KeptOf, AllKept;
    ListsOfSegmentIncrease(u, files, inv, index, s);
    BatchParts(u, files, inv, index, s);
    ReaderTables(c, r, s);
    hide FilesFit, InventoryOf;
    var items;
    ghost var candidates, keys;
    items, candidates, keys := PlanItems(c, u, r, queryTerms, op, files, inv, index, s);
    rows, units := [], [];
    assert AllKept(u, ilike, [], queryTerms, op) == [] by { NothingKept(u, ilike, queryTerms, op); }
    NothingFound(u, lake, items, queryTerms, op);
    for i := 0 to |items|
      invariant NoDuplicates(rows) && rows == AllKept(u, ilike, units, queryTerms, op)
      invariant forall x | x in units :: x.mode.ByIndex?
      invariant forall key :: key in rows <==> FoundBy(u, lake, items, i, queryTerms, op, key)
    {
      assert keys[i] in keys;
      var found, unit := SearchItem(u, ilike, lake, items[i], queryTerms, op, files, inv, index, s, candidates, keys[i]);
      ItemsApart(files, s.fileTable, EntriesOf(s.docTable, candidates), keys, items, i);
      FoundStep(u, lake, items, i, queryTerms, op, rows, found);
      AllKeptAppend(u, ilike, units, unit, queryTerms, op);
      rows, units := rows + KeysOf(items[i].filePath, items[i].rgIdx, found), units + [unit];
    }
    forall key ensures key in rows <==> FileOf(files, key.path) && Matches(u, lake, key, queryTerms, op) {
      FoundMeans(u, lake, files, inv, index, s, queryTerms, op, candidates, items, keys, key);
    }
  }

  lemma NothingKept(u: Unicode, ilike: Ilike, queryTerms: seq<string>, op: Operator)
    ensures AllKept(u, ilike, [], queryTerms, op) == []
  {}

  lemma ReaderTables(c: Codecs, r: SegmentReader, s: Segment)
    requires Recovers(c, r, s)
    ensures r.docTable == s.docTable && r.fileTable == s.fileTable && r.stats == s.stats
  {
    hide PostingList;
  }

  lemma NothingFound(u: Unicode, lake: Lake, items: seq<IndexedWorkItem>, queryTerms: seq<string>, op: Operator)
    ensures forall key :: !FoundBy(u, lake, items, 0, queryTerms, op, key)
    ensures NoDuplicates<RowKey>([])
  {}

  lemma FileInLake(lake: Lake, files: seq<ParquetFile>, f: nat)
    requires FilesIn(lake, files) && f < |files|
    ensures files[f].path in lake && lake[files[f].path] == files[f]
  {}

  lemma ItemGroup(fileTable: seq<FileTableEntry>, entries: seq<DocTableEntry>, k: GroupKey, item: IndexedWorkItem)
    requires ItemFor(fileTable, entries, k, item)
    ensures item.rgIdx == k.group && k.file < |fileTable| && item.filePath == fileTable[k.file].path
  {}

  /** Different work items read different row groups. */
  lemma ItemsApart(files: seq<ParquetFile>, fileTable: seq<FileTableEntry>, entries: seq<DocTableEntry>,
                   keys: seq<GroupKey>, items: seq<IndexedWorkItem>, i: nat)
    requires |keys| == |items| && i < |items| && KeysIncrease(keys, KeyRank) && DistinctPaths(files)
    requires forall k | 0 <= k < |items| :: ItemFor(fileTable, entries, keys[k], items[k])
    requires |fileTable| == |files| && forall f | 0 <= f < |files| :: fileTable[f].path == files[f].path
    ensures forall k | 0 <= k < i :: items[k].filePath != items[i].filePath || items[k].rgIdx != items[i].rgIdx
  {
    forall k | 0 <= k < i ensures items[k].filePath != items[i].filePath || items[k].rgIdx != items[i].rgIdx {
      ItemGroup(fileTable, entries, keys[k], items[k]);
      ItemGroup(fileTable, entries, keys[i], items[i]);
      assert KeyRank(keys[k]) < KeyRank(keys[i]);
      if keys[k].file == keys[i].file {
        assert keys[k].group != keys[i].group;
      }
    }
  }

  lemma FoundStep(u: Unicode, lake: Lake, items: seq<IndexedWorkItem>, i: nat, queryTerms: seq<string>, op: Operator,
                  rows: seq<RowKey>, found: seq<nat>)
    requires i < |items|
    requires forall key :: key in rows <==> FoundBy(u, lake, items, i, queryTerms, op, key)
    requires NoDuplicates(rows) && StrictlyIncreasing(found)
    requires forall k | 0 <= k < i :: items[k].filePath != items[i].filePath || items[k].rgIdx != items[i].rgIdx
    requires items[i].filePath in lake && items[i].rgIdx < |lake[items[i].filePath].groups|
    requires var all := lake[items[i].filePath].groups[items[i].rgIdx].rows;
      forall row :: row in found <==> 0 <= row < |all| && RowMatches(u, all[row], queryTerms, op)
    ensures var rows' := rows + KeysOf(items[i].filePath, items[i].rgIdx, found);
      && NoDuplicates(rows')
      && forall key :: key in rows' <==> FoundBy(u, lake, items, i + 1, queryTerms, op, key)
  {
    hide RowMatches, StrictlyIncreasing;
    var fresh' := KeysOf(items[i].filePath, items[i].rgIdx, found);
    KeysOfMembers(items[i].filePath, items[i].rgIdx, found);
    forall key ensures key in fresh' <==> Matches(u, lake, key, queryTerms, op)
                                          && items[i].filePath == key.path && items[i].rgIdx == key.group {}
    NoDuplicatesConcat(rows, fresh');
  }

  lemma FoundMeans(u: Unicode, lake: Lake, files: seq<ParquetFile>, inv: PageInventory, index: GroupIndex, s: Segment,
                   queryTerms: seq<string>, op: Operator, candidates: seq<DocId>, items: seq<IndexedWorkItem>,
                   keys: seq<GroupKey>, key: RowKey)
    requires BatchSegment(u, files, inv, index, s) && queryTerms != [] && FilesIn(lake, files)
    requires forall d :: d in candidates <==> PageMatches(s, queryTerms, op, d)
    requires forall g :: g in keys <==> exists e :: e in EntriesOf(s.docTable, candidates) && KeyOf(e) == g
    requires |keys| == |items| && forall k | 0 <= k < |items| ::
               ItemFor(s.fileTable, EntriesOf(s.docTable, candidates), keys[k], items[k])
    ensures FoundBy(u, lake, items, |items|, queryTerms, op, key)
       <==> FileOf(files, key.path) && Matches(u, lake, key, queryTerms, op)
  {
    hide PageMatches, Matches, BatchSegment, FilesIn, ItemFor, FilesFit, InventoryOf;
    BatchParts(u, files, inv, index, s);
    if FoundBy(u, lake, items, |items|, queryTerms, op, key) {
      var k :| 0 <= k < |items| && items[k].filePath == key.path && items[k].rgIdx == key.group;
      ItemGroup(s.fileTable, EntriesOf(s.docTable, candidates), keys[k], items[k]);
    }
    if FileOf(files, key.path) && Matches(u, lake, key, queryTerms, op) {
      var k := MatchHasItem(u, lake, files, inv, index, s, queryTerms, op, candidates, keys, key);
      ItemGroup(s.fileTable, EntriesOf(s.docTable, candidates), keys[k], items[k]);
    }
  }
}

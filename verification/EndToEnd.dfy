/** The query over a whole snapshot: planned segments searched through the index, the
    remaining files scanned. Together they return exactly the rows a full tokenizing
    scan of the snapshot would keep, each once. */
module EndToEnd {
  import opened Bytes
  import opened Types
  import opened Tokenizer
  import opened ParquetUtil
  import opened Indexer
  import opened BatchIndex
  import opened SegmentFormat
  import opened SegmentRead
  import opened SegmentRoundTrip
  import opened IndexedSegment
  import opened Verify
  import opened Work
  import opened Plan
  import opened Search
  import opened SegmentSearch

  // --- The snapshot ---------------------------------------------------------------------------

  /** One committed batch: its files, and what indexing them produced. */
  datatype Batch = Batch(column: string, files: seq<ParquetFile>, inv: PageInventory, index: GroupIndex, segment: Segment,
                         manifestPath: string, segmentPath: string, stats: TermStats)

  function Paths(files: seq<ParquetFile>): (p: seq<string>)
    ensures |p| == |files|
  {
    seq(|files|, i requires 0 <= i < |files| => files[i].path)
  }

  function EntryFor(b: Batch): ManifestEntry { ManifestEntry(b.manifestPath, b.column, b.stats) }

  /** What an indexing run uploads and commits for its batch. */
  ghost predicate Published(c: Codecs, u: Unicode, list: ManifestList, manifests: map<string, Manifest>,
                            blobs: map<string, seq<byte>>, b: Batch)
  {
    && list.dataFiles == Paths(b.files)
    && list.manifests == [EntryFor(b)]
    && b.manifestPath in manifests
    && manifests[b.manifestPath] == Manifest(b.column, [SegmentInfo(b.segmentPath, Paths(b.files))])
    && b.segmentPath in blobs && blobs[b.segmentPath] == SegmentBytes(c, b.segment)
    && BatchSegment(u, b.files, b.inv, b.index, b.segment)
    && Encodable(c, b.segment)
    && Bounds(b.segment, b.stats.minTerm, b.stats.maxTerm)
  }

  /** The snapshot's manifest lists are the committed batches'; manifests have names of
      their own; within the queried column no file is indexed twice. The lake is the queried
      column's: of batches of other columns it says nothing. */
  ghost predicate SnapshotOf(c: Codecs, u: Unicode, lake: Lake, lists: seq<ManifestList>, manifests: map<string, Manifest>,
                             blobs: map<string, seq<byte>>, column: string, batches: seq<Batch>)
  {
    && |lists| == |batches|
    && (forall i | 0 <= i < |batches| :: Published(c, u, lists[i], manifests, blobs, batches[i]))
    && (forall i, j | 0 <= i < j < |batches| :: batches[i].manifestPath != batches[j].manifestPath)
    && (forall i | 0 <= i < |batches| && batches[i].column == column ::
          FilesIn(lake, batches[i].files) && DistinctPaths(batches[i].files))
    && (forall i, j, p | 0 <= i < j < |batches| && batches[i].column == column && batches[j].column == column
                         && FileOf(batches[i].files, p) :: !FileOf(batches[j].files, p))
  }

  /** Batch `b` is one of the column's. */
  ghost predicate OfColumn(batches: seq<Batch>, column: string, b: Batch)
  {
    b in batches && b.column == column
  }

  /** The column's batches that planning does not prune, in snapshot order. */
  function Live(batches: seq<Batch>, column: string, queryTerms: seq<string>, op: Operator): seq<Batch>
  {
    if batches == [] then []
    else
      var b := batches[|batches| - 1];
      Live(batches[..|batches| - 1], column, queryTerms, op)
      + (if b.column == column && !ShouldPrune(b.stats, queryTerms, op) then [b] else [])
  }

  function ColumnBatches(batches: seq<Batch>, column: string): seq<Batch>
  {
    if batches == [] then []
    else
      var b := batches[|batches| - 1];
      ColumnBatches(batches[..|batches| - 1], column) + (if b.column == column then [b] else [])
  }

  lemma {:induction false} ColumnBatchesMembers(batches: seq<Batch>, column: string)
    ensures forall b :: b in ColumnBatches(batches, column) <==> OfColumn(batches, column, b)
  {
    if batches != [] {
      var n := |batches| - 1;
      ColumnBatchesMembers(batches[..n], column);
      assert batches == batches[..n] + [batches[n]];
    }
  }

  lemma {:induction false} LiveMembers(batches: seq<Batch>, column: string, queryTerms: seq<string>, op: Operator)
    ensures forall b :: b in Live(batches, column, queryTerms, op)
                   <==> OfColumn(batches, column, b) && !ShouldPrune(b.stats, queryTerms, op)
  {
    hide ShouldPrune;
    if batches != [] {
      var n := |batches| - 1;
      LiveMembers(batches[..n], column, queryTerms, op);
      assert batches == batches[..n] + [batches[n]];
    }
  }

  function EntriesForBatches(batches: seq<Batch>): (e: seq<ManifestEntry>)
    ensures |e| == |batches|
  {
    seq(|batches|, i requires 0 <= i < |batches| => EntryFor(batches[i]))
  }

  /** The column's manifest entries are those of its batches. */
  lemma {:induction false} EntriesAreBatches(lists: seq<ManifestList>, batches: seq<Batch>, column: string)
    requires |lists| == |batches| && forall i | 0 <= i < |batches| :: lists[i].manifests == [EntryFor(batches[i])]
    ensures ColumnEntries(lists, column) == EntriesForBatches(ColumnBatches(batches, column))
  {
    if batches != [] {
      var n := |batches| - 1;
      EntriesAreBatches(lists[..n], batches[..n], column);
      var one := [EntryFor(batches[n])];
      assert one[..0] == [];
      assert EntriesFor(one, column) == EntriesFor([], column) + (if batches[n].column == column then one else []);
      var before := ColumnBatches(batches[..n], column);
      assert EntriesForBatches(before + [batches[n]]) == EntriesForBatches(before) + one;
    }
  }

  ghost predicate OneSegmentEach(batches: seq<Batch>, manifests: map<string, Manifest>)
  {
    forall b | b in batches ::
      && b.manifestPath in manifests
      && manifests[b.manifestPath].segments == [SegmentInfo(b.segmentPath, Paths(b.files))]
  }

  function SegmentPathsOf(batches: seq<Batch>): (p: seq<string>)
    ensures |p| == |batches|
  {
    seq(|batches|, i requires 0 <= i < |batches| => batches[i].segmentPath)
  }

  lemma NothingSearched(manifests: map<string, Manifest>, pruned: set<string>)
    ensures Searched(EntriesForBatches([]), manifests, pruned) == []
  {}

  lemma SearchedOneMore(before: seq<Batch>, b: Batch, manifests: map<string, Manifest>, pruned: set<string>)
    requires OneSegmentEach([b], manifests)
    ensures Searched(EntriesForBatches(before + [b]), manifests, pruned)
         == Searched(EntriesForBatches(before), manifests, pruned) + (if b.manifestPath in pruned then [] else [b.segmentPath])
  {
    var all := EntriesForBatches(before + [b]);
    assert all[..|before|] == EntriesForBatches(before);
    assert b in [b];
    assert SegmentPaths(manifests[b.manifestPath].segments) == [b.segmentPath];
  }

  /** The planned segments are those of the live batches, in order. */
  lemma {:induction false} SearchedAreLive(batches: seq<Batch>, manifests: map<string, Manifest>, column: string,
                                           queryTerms: seq<string>, op: Operator, pruned: set<string>)
    requires OneSegmentEach(batches, manifests)
    requires forall b | OfColumn(batches, column, b) :: b.manifestPath in pruned <==> ShouldPrune(b.stats, queryTerms, op)
    ensures Searched(EntriesForBatches(ColumnBatches(batches, column)), manifests, pruned)
         == SegmentPathsOf(Live(batches, column, queryTerms, op))
  {
    hide ShouldPrune, Searched, EntriesForBatches;
    if batches == [] {
      NothingSearched(manifests, pruned);
    } else {
      var n := |batches| - 1;
      var b := batches[n];
      assert b in batches && forall x | x in batches[..n] :: x in batches;
      SearchedAreLive(batches[..n], manifests, column, queryTerms, op, pruned);
      var before, live := ColumnBatches(batches[..n], column), Live(batches[..n], column, queryTerms, op);
      if b.column == column {
        assert OfColumn(batches, column, b);
        SearchedOneMore(before, b, manifests, pruned);
        assert SegmentPathsOf(live + [b]) == SegmentPathsOf(live) + [b.segmentPath];
        assert live + [] == live;
      } else {
        assert before + [] == before && live + [] == live;
      }
    }
  }

  /** The column's entries are those of its batches, as sets. */
  lemma EntriesOfBatches(batches: seq<Batch>, column: string)
    ensures var entries := EntriesForBatches(ColumnBatches(batches, column));
      && (forall e | e in entries :: exists b :: OfColumn(batches, column, b) && e == EntryFor(b))
      && (forall b | OfColumn(batches, column, b) :: EntryFor(b) in entries)
  {
    ColumnBatchesMembers(batches, column);
    hide ColumnBatches;
    var cols := ColumnBatches(batches, column);
    var entries := EntriesForBatches(cols);
    forall e | e in entries ensures exists b :: OfColumn(batches, column, b) && e == EntryFor(b) {
      var i :| 0 <= i < |entries| && entries[i] == e;
      assert cols[i] in cols;
    }
    forall b | OfColumn(batches, column, b) ensures EntryFor(b) in entries {
      var i :| 0 <= i < |cols| && cols[i] == b;
      assert entries[i] == EntryFor(b);
    }
  }

  /** What planning a query on the snapshot yields, in terms of its batches. */
  lemma PlanOnSnapshot(c: Codecs, u: Unicode, lake: Lake, lists: seq<ManifestList>, manifests: map<string, Manifest>,
                       blobs: map<string, seq<byte>>, column: string, batches: seq<Batch>, queryTerms: seq<string>, op: Operator)
    requires SnapshotOf(c, u, lake, lists, manifests, blobs, column, batches)
    ensures var entries := ColumnEntries(lists, column);
      && (forall e | e in entries :: e.manifestPath in manifests)
      && Searched(entries, manifests, Prune(entries, queryTerms, op))
         == SegmentPathsOf(Live(batches, column, queryTerms, op))
      && (forall p :: Indexed(entries, manifests, p) <==> exists b :: OfColumn(batches, column, b) && FileOf(b.files, p))
  {
    hide ShouldPrune, BatchSegment, Encodable, Bounds, FilesIn, DistinctPaths, SegmentBytes;
    var entries, cols := ColumnEntries(lists, column), ColumnBatches(batches, column);
    EntriesAreBatches(lists, batches, column);
    assert OneSegmentEach(batches, manifests);
    EntriesOfBatches(batches, column);
    hide SnapshotOf, EntriesForBatches, ColumnBatches, ColumnEntries, OfColumn, Indexed, Live, Searched;
    forall b | OfColumn(batches, column, b)
      ensures b.manifestPath in Prune(entries, queryTerms, op) <==> ShouldPrune(b.stats, queryTerms, op)
    {
      PrunedByOwnStats(batches, column, entries, queryTerms, op, b);
    }
    SearchedAreLive(batches, manifests, column, queryTerms, op, Prune(entries, queryTerms, op));
    forall p ensures Indexed(entries, manifests, p) <==> exists b :: OfColumn(batches, column, b) && FileOf(b.files, p) {
      IndexedMeans(batches, manifests, column, entries, p);
    }
  }

  lemma PrunedByOwnStats(batches: seq<Batch>, column: string, entries: seq<ManifestEntry>, queryTerms: seq<string>, op: Operator,
                         b: Batch)
    requires OfColumn(batches, column, b) && EntryFor(b) in entries
    requires forall e | e in entries :: exists b :: OfColumn(batches, column, b) && e == EntryFor(b)
    requires forall i, j | 0 <= i < j < |batches| :: batches[i].manifestPath != batches[j].manifestPath
    ensures b.manifestPath in Prune(entries, queryTerms, op) <==> ShouldPrune(b.stats, queryTerms, op)
  {
    hide ShouldPrune;
    if ShouldPrune(b.stats, queryTerms, op) {
      assert EntryFor(b).termStats == b.stats;
    }
    if b.manifestPath in Prune(entries, queryTerms, op) {
      var e :| e in entries && ShouldPrune(e.termStats, queryTerms, op) && e.manifestPath == b.manifestPath;
      var b' :| OfColumn(batches, column, b') && e == EntryFor(b');
      var i :| 0 <= i < |batches| && batches[i] == b;
      var j :| 0 <= j < |batches| && batches[j] == b';
    }
  }

  lemma IndexedMeans(batches: seq<Batch>, manifests: map<string, Manifest>, column: string, entries: seq<ManifestEntry>, p: string)
    requires OneSegmentEach(batches, manifests)
    requires forall e | e in entries :: exists b :: OfColumn(batches, column, b) && e == EntryFor(b)
    requires forall b | OfColumn(batches, column, b) :: EntryFor(b) in entries
    ensures Indexed(entries, manifests, p) <==> exists b :: OfColumn(batches, column, b) && FileOf(b.files, p)
  {
    if Indexed(entries, manifests, p) {
      var e, s :| e in entries && e.manifestPath in manifests
                  && s in manifests[e.manifestPath].segments && p in s.parquetFiles;
      var b :| OfColumn(batches, column, b) && e == EntryFor(b);
      PathsMembers(b.files, p);
    }
    if b :| OfColumn(batches, column, b) && FileOf(b.files, p) {
      PathsMembers(b.files, p);
      var s := manifests[b.manifestPath].segments[0];
      assert s in manifests[b.manifestPath].segments && EntryFor(b) in entries && p in s.parquetFiles;
    }
  }

  lemma PathsMembers(files: seq<ParquetFile>, p: string)
    ensures p in Paths(files) <==> FileOf(files, p)
  {
    if FileOf(files, p) {
      var i :| 0 <= i < |files| && files[i].path == p;
      assert Paths(files)[i] == p;
    }
  }

  /** A file with a match is never in a pruned batch. */
  lemma MatchIsLive(u: Unicode, lake: Lake, b: Batch, queryTerms: seq<string>, op: Operator, key: RowKey)
    requires BatchSegment(u, b.files, b.inv, b.index, b.segment) && FilesIn(lake, b.files) && queryTerms != []
    requires Bounds(b.segment, b.stats.minTerm, b.stats.maxTerm)
    requires FileOf(b.files, key.path) && Matches(u, lake, key, queryTerms, op)
    ensures !ShouldPrune(b.stats, queryTerms, op)
  {
    var f :| 0 <= f < |b.files| && b.files[f].path == key.path;
    var x := RowRef(f, key.group, key.row);
    assert lake[key.path] == b.files[f];
    assert ValidRow(b.files, x) && RowMatches(u, RowAt(b.files, x), queryTerms, op);
    hide RowMatches, PageMatches, Bounds, BatchSegment, FilesFit, ShouldPrune, DocIdOfRow;
    MatchingRowIsCandidate(u, b.files, b.inv, b.index, b.segment, queryTerms, op, x);
    ListsOfSegmentIncrease(u, b.files, b.inv, b.index, b.segment);
    if ShouldPrune(b.stats, queryTerms, op) {
      BatchParts(u, b.files, b.inv, b.index, b.segment);
      PrunedHasNoMatch(b.segment, b.stats, queryTerms, op, DocIdOfRow(b.files, x));
    }
  }

  // --- The query ----------------------------------------------------------------------------------

  /** Keys the first `n` batches contribute. */
  ghost predicate FoundIn(u: Unicode, lake: Lake, live: seq<Batch>, n: nat, queryTerms: seq<string>, op: Operator, key: RowKey)
    requires n <= |live|
  {
    Matches(u, lake, key, queryTerms, op) && exists k :: 0 <= k < n && FileOf(live[k].files, key.path)
  }

  /** What the planned segments need. */
  ghost predicate Searchable(c: Codecs, u: Unicode, lake: Lake, blobs: map<string, seq<byte>>, b: Batch)
  {
    && b.segmentPath in blobs && blobs[b.segmentPath] == SegmentBytes(c, b.segment) && Encodable(c, b.segment)
    && BatchSegment(u, b.files, b.inv, b.index, b.segment) && FilesIn(lake, b.files) && DistinctPaths(b.files)
  }

  /** Searches every planned segment. */
  method SearchSegments(c: Codecs, u: Unicode, ilike: Ilike, lake: Lake, blobs: map<string, seq<byte>>, segmentPaths: seq<string>,
                        queryTerms: seq<string>, op: Operator, ghost live: seq<Batch>)
    returns (rows: seq<RowKey>, units: seq<Unit>)
    requires c.Lawful() && queryTerms != [] && segmentPaths == SegmentPathsOf(live)
    requires forall k | 0 <= k < |live| :: Searchable(c, u, lake, blobs, live[k])
    requires forall j, k, p | 0 <= j < k < |live| && FileOf(live[j].files, p) :: !FileOf(live[k].files, p)
    ensures NoDuplicates(rows) && rows == AllKept(u, ilike, units, queryTerms, op)
    ensures forall x | x in units :: x.mode.ByIndex?
    ensures forall key :: key in rows <==> FoundIn(u, lake, live, |live|, queryTerms, op, key)
  {
    hide RowMatches, Matches, FileOf, BatchSegment, Recovers, FilesIn, DistinctPaths, NoDuplicates, Open, SegmentBytes,
         Encodable, TermsIncrease, AllKept;
    rows, units := [], [];
    NothingKept(u, ilike, queryTerms, op);
    assert NoDuplicates<RowKey>([]) by { EmptyDistinct(); }
    for i := 0 to |segmentPaths|
      invariant NoDuplicates(rows) && rows == AllKept(u, ilike, units, queryTerms, op)
      invariant forall x | x in units :: x.mode.ByIndex?
      invariant forall key :: key in rows <==> FoundIn(u, lake, live, i, queryTerms, op, key)
    {
      ghost var b := live[i];
      assert Searchable(c, u, lake, blobs, b);
      ListsOfSegmentIncrease(u, b.files, b.inv, b.index, b.segment);
      OpenBuilt(c, b.segment);
      var reader := Open(c, blobs[segmentPaths[i]]);
      var found, more := SearchSegment(c, u, ilike, reader.value, lake, queryTerms, op, b.files, b.inv, b.index, b.segment);
      NoDuplicatesConcat(rows, found) by { AppendDisjoint(u, lake, live, i, queryTerms, op, rows, found); }
      AllKeptConcat(u, ilike, units, more, queryTerms, op);
      rows, units := rows + found, units + more;
    }
  }

  lemma EmptyDistinct()
    ensures NoDuplicates<RowKey>([])
  {}

  lemma AppendDisjoint(u: Unicode, lake: Lake, live: seq<Batch>, i: nat, queryTerms: seq<string>, op: Operator,
                       rows: seq<RowKey>, found: seq<RowKey>)
    requires i < |live|
    requires forall j, p | 0 <= j < i && FileOf(live[j].files, p) :: !FileOf(live[i].files, p)
    requires forall key :: key in rows <==> FoundIn(u, lake, live, i, queryTerms, op, key)
    requires forall key :: key in found <==> FileOf(live[i].files, key.path) && Matches(u, lake, key, queryTerms, op)
    ensures forall x | x in rows :: x !in found
  {
    hide Matches, FileOf;
  }

  /** What a scan of an unindexed file keeps. */
  predicate Scanned(u: Unicode, ilike: Ilike, lake: Lake, isLarge: string -> bool, key: RowKey, queryTerms: seq<string>, op: Operator)
  {
    IsRow(lake, key)
    && BruteMask(u, ilike, lake[key.path].groups[key.group].rows, isLarge(key.path), queryTerms, op)[key.row]
  }

  /** Scans one file without an index; a file without the column is skipped. */
  method ScanFile(u: Unicode, ilike: Ilike, lake: Lake, isLarge: string -> bool, path: string, queryTerms: seq<string>, op: Operator)
    returns (rows: seq<RowKey>, units: seq<Unit>)
    ensures NoDuplicates(rows) && rows == AllKept(u, ilike, units, queryTerms, op)
    ensures forall x | x in units :: x.path == path && x.mode.ByScan?
    ensures forall key :: key in rows <==> key.path == path && Scanned(u, ilike, lake, isLarge, key, queryTerms, op)
  {
    hide BruteMask, NoDuplicates, StrictlyIncreasing, AllKept, KeptOf;
    rows, units := [], [];
    assert NoDuplicates<RowKey>([]) by { EmptyDistinct(); }
    NothingKept(u, ilike, queryTerms, op);
    if path !in lake { return; }
    var groups := lake[path].groups;
    for g := 0 to |groups|
      invariant NoDuplicates(rows) && rows == AllKept(u, ilike, units, queryTerms, op)
      invariant forall x | x in units :: x.path == path && x.mode.ByScan?
      invariant forall key :: key in rows <==>
        key.path == path && key.group < g && Scanned(u, ilike, lake, isLarge, key, queryTerms, op)
    {
      var found, unit := ScanGroup(u, ilike, path, g, groups[g], isLarge(path), queryTerms, op);
      KeysOfMembers(path, g, found);
      NoDuplicatesConcat(rows, KeysOf(path, g, found));
      AllKeptAppend(u, ilike, units, unit, queryTerms, op);
      rows, units := rows + KeysOf(path, g, found), units + [unit];
    }
  }

  /** Scans every unindexed file. */
  method ScanFiles(u: Unicode, ilike: Ilike, lake: Lake, isLarge: string -> bool, files: set<string>,
                   queryTerms: seq<string>, op: Operator)
    returns (rows: seq<RowKey>, units: seq<Unit>)
    ensures NoDuplicates(rows) && rows == AllKept(u, ilike, units, queryTerms, op)
    ensures forall x | x in units :: x.path in files && x.mode.ByScan?
    ensures forall key :: key in rows <==> key.path in files && Scanned(u, ilike, lake, isLarge, key, queryTerms, op)
  {
    hide Scanned, NoDuplicates, AllKept;
    rows, units := [], [];
    assert NoDuplicates<RowKey>([]) by { EmptyDistinct(); }
    NothingKept(u, ilike, queryTerms, op);
    var rest := files;
    while rest != {}
      invariant rest <= files
      invariant NoDuplicates(rows) && rows == AllKept(u, ilike, units, queryTerms, op)
      invariant forall x | x in units :: x.path in files && x.mode.ByScan?
      invariant forall key :: key in rows <==>
        key.path in files - rest && Scanned(u, ilike, lake, isLarge, key, queryTerms, op)
      decreases |rest|
    {
      var path :| path in rest;
      var found, more := ScanFile(u, ilike, lake, isLarge, path, queryTerms, op);
      NoDuplicatesConcat(rows, found);
      AllKeptConcat(u, ilike, units, more, queryTerms, op);
      rows, units := rows + found, units + more;
      rest := rest - {path};
    }
  }

  /** The brute-force pre-filter is exact for this file. */
  predicate Scannable(lake: Lake, isLarge: string -> bool, path: string)
  {
    && path in lake && !isLarge(path)
    && forall g, r | 0 <= g < |lake[path].groups| && 0 <= r < |lake[path].groups[g].rows|
         && lake[path].groups[g].rows[r].Some? :: IsAscii(lake[path].groups[g].rows[r].value)
  }

  lemma ScannedIsMatch(u: Unicode, ilike: Ilike, lake: Lake, isLarge: string -> bool, key: RowKey, queryTerms: seq<string>, op: Operator)
    requires ilike.Lawful() && queryTerms != []
    ensures Scanned(u, ilike, lake, isLarge, key, queryTerms, op) ==> Matches(u, lake, key, queryTerms, op)
    ensures Scannable(lake, isLarge, key.path) && Matches(u, lake, key, queryTerms, op) ==>
              Scanned(u, ilike, lake, isLarge, key, queryTerms, op)
  {
    hide RowMatches, RowPasses;
    if IsRow(lake, key) {
      var rows := lake[key.path].groups[key.group].rows;
      assert ScanMask(u, rows, queryTerms, op)[key.row] == RowMatches(u, rows[key.row], queryTerms, op);
      if Scannable(lake, isLarge, key.path) {
        BruteForceIsFullScan(u, ilike, rows, false, queryTerms, op);
      }
    }
  }

  /** The answer to a query over a snapshot: no row twice, only matches, and all of them except
      those that a brute-force scan may miss in unindexed files. */
  ghost predicate Answers(u: Unicode, lake: Lake, isLarge: string -> bool, lists: seq<ManifestList>,
                          manifests: map<string, Manifest>, column: string, queryTerms: seq<string>, op: Operator,
                          rows: seq<RowKey>)
  {
    && NoDuplicates(rows)
    && (forall key: RowKey | key in rows :: InSnapshot(lists, key.path) && Matches(u, lake, key, queryTerms, op))
    && (forall key: RowKey | InSnapshot(lists, key.path) && Matches(u, lake, key, queryTerms, op)
          && (Indexed(ColumnEntries(lists, column), manifests, key.path) || Scannable(lake, isLarge, key.path)) ::
          key in rows)
  }

  /** The units read by scanning keep exactly the rows of unindexed files that pass the
      brute-force mask and the predicate. */
  ghost predicate ScansExactly(u: Unicode, ilike: Ilike, lake: Lake, isLarge: string -> bool, lists: seq<ManifestList>,
                               manifests: map<string, Manifest>, column: string, queryTerms: seq<string>, op: Operator,
                               units: seq<Unit>)
  {
    forall key: RowKey :: KeptByScan(u, ilike, units, queryTerms, op, key) <==>
      InSnapshot(lists, key.path) && !Indexed(ColumnEntries(lists, column), manifests, key.path)
      && Scanned(u, ilike, lake, isLarge, key, queryTerms, op)
  }

  ghost predicate KeptByScan(u: Unicode, ilike: Ilike, units: seq<Unit>, queryTerms: seq<string>, op: Operator, key: RowKey)
  {
    exists x :: x in units && x.mode.ByScan? && key in KeptOf(u, ilike, x.mode, x.rows, queryTerms, op)
  }

  /** What the scans of a query keep, in terms of the rows' text: the rows of the snapshot's
      unindexed files whose column is `Utf8`, whose raw text passes `ILIKE` for all query
      terms (or some), and whose tokens have all of them (or some). */
  lemma ScanKeepsIff(u: Unicode, ilike: Ilike, lake: Lake, isLarge: string -> bool, lists: seq<ManifestList>,
                     manifests: map<string, Manifest>, column: string, queryTerms: seq<string>, op: Operator,
                     units: seq<Unit>, key: RowKey)
    requires ScansExactly(u, ilike, lake, isLarge, lists, manifests, column, queryTerms, op, units) && queryTerms != []
    ensures KeptByScan(u, ilike, units, queryTerms, op, key) <==>
              && InSnapshot(lists, key.path) && !Indexed(ColumnEntries(lists, column), manifests, key.path)
              && IsRow(lake, key) && !isLarge(key.path)
              && var row := lake[key.path].groups[key.group].rows[key.row];
                 row.Some? &&
                 match op
                 case And =>
                   && (forall k | 0 <= k < |queryTerms| :: ilike.matches(row.value, queryTerms[k]))
                   && (forall k | 0 <= k < |queryTerms| :: queryTerms[k] in Tokenize(u, row.value))
                 case Or =>
                   && (exists k :: 0 <= k < |queryTerms| && ilike.matches(row.value, queryTerms[k]))
                   && (exists k :: 0 <= k < |queryTerms| && queryTerms[k] in Tokenize(u, row.value))
  {
    hide Tokenize, BruteMask, InSnapshot, Indexed, ColumnEntries, KeptByScan;
    if IsRow(lake, key) {
      BruteKeepsIff(u, ilike, lake[key.path].groups[key.group].rows, isLarge(key.path), queryTerms, op, key.row);
    }
  }

  lemma ScansAreLast(u: Unicode, ilike: Ilike, indexed: seq<Unit>, scanned: seq<Unit>, queryTerms: seq<string>, op: Operator, key: RowKey)
    requires forall x | x in indexed :: x.mode.ByIndex?
    requires forall x | x in scanned :: x.mode.ByScan?
    ensures KeptByScan(u, ilike, indexed + scanned, queryTerms, op, key) <==> key in AllKept(u, ilike, scanned, queryTerms, op)
  {
    hide KeptOf, AllKept;
    AllKeptMembers(u, ilike, scanned, queryTerms, op, key);
  }

  /** A query over the snapshot: no row twice; every row returned is a match; every match
      in an indexed file, and in an unindexed file whose column is plain `Utf8` with ASCII
      text, is returned. The units are the row groups read, in whichever file. */
  method QuerySnapshot(c: Codecs, u: Unicode, ilike: Ilike, lake: Lake, isLarge: string -> bool, lists: seq<ManifestList>,
                       manifests: map<string, Manifest>, blobs: map<string, seq<byte>>, column: string,
                       queryTerms: seq<string>, op: Operator, ghost batches: seq<Batch>)
    returns (rows: seq<RowKey>, units: seq<Unit>)
    requires c.Lawful() && ilike.Lawful() && queryTerms != []
    requires SnapshotOf(c, u, lake, lists, manifests, blobs, column, batches)
    ensures Answers(u, lake, isLarge, lists, manifests, column, queryTerms, op, rows)
    ensures rows == AllKept(u, ilike, units, queryTerms, op)
    ensures forall x | x in units && x.mode.ByScan? ::
              InSnapshot(lists, x.path) && !Indexed(ColumnEntries(lists, column), manifests, x.path)
    ensures ScansExactly(u, ilike, lake, isLarge, lists, manifests, column, queryTerms, op, units)
  {
    hide RowMatches, Matches, Scanned, Scannable, SnapshotOf, NoDuplicates, Searchable, FoundIn, InSnapshot, Indexed, Live,
         ColumnEntries, Prune, Searched, AllKept, KeptByScan;
    PlanOnSnapshot(c, u, lake, lists, manifests, blobs, column, batches, queryTerms, op);
    ghost var live := Live(batches, column, queryTerms, op);
    LiveIsSearchable(c, u, lake, lists, manifests, blobs, column, batches, queryTerms, op);
    var plan := PlanQuery(lists, manifests, column, queryTerms, op);
    var indexed, fromSegments := SearchSegments(c, u, ilike, lake, blobs, plan.value.segmentPaths, queryTerms, op, live);
    var scanned, fromScans := ScanFiles(u, ilike, lake, isLarge, plan.value.unindexedFiles, queryTerms, op);
    forall key: RowKey
      ensures FoundIn(u, lake, live, |live|, queryTerms, op, key)
              <==> Indexed(ColumnEntries(lists, column), manifests, key.path) && Matches(u, lake, key, queryTerms, op)
      ensures Indexed(ColumnEntries(lists, column), manifests, key.path) ==> InSnapshot(lists, key.path)
    {
      IndexedRows(c, u, lake, lists, manifests, blobs, column, batches, queryTerms, op, key);
    }
    forall key: RowKey { ScannedIsMatch(u, ilike, lake, isLarge, key, queryTerms, op); }
    NoDuplicatesConcat(indexed, scanned);
    AllKeptConcat(u, ilike, fromSegments, fromScans, queryTerms, op);
    rows, units := indexed + scanned, fromSegments + fromScans;
    forall key: RowKey { ScansAreLast(u, ilike, fromSegments, fromScans, queryTerms, op, key); }
  }

  /** No two of these batches hold the file `p`. */
  ghost predicate OwnFiles(batches: seq<Batch>, p: string)
  {
    forall j, k | 0 <= j < k < |batches| && FileOf(batches[j].files, p) :: !FileOf(batches[k].files, p)
  }

  lemma {:induction false} LiveOrder(batches: seq<Batch>, column: string, queryTerms: seq<string>, op: Operator, p: string)
    requires forall i, j | 0 <= i < j < |batches| && batches[i].column == column && batches[j].column == column
                           && FileOf(batches[i].files, p) :: !FileOf(batches[j].files, p)
    ensures OwnFiles(Live(batches, column, queryTerms, op), p)
  {
    hide FileOf, ShouldPrune;
    if batches != [] {
      var n := |batches| - 1;
      var before := Live(batches[..n], column, queryTerms, op);
      LiveOrder(batches[..n], column, queryTerms, op, p);
      LiveMembers(batches[..n], column, queryTerms, op);
      forall j | 0 <= j < |before| && FileOf(before[j].files, p) && batches[n].column == column
        ensures !FileOf(batches[n].files, p)
      {
        assert before[j] in before;
        var i :| 0 <= i < n && batches[..n][i] == before[j];
      }
    }
  }

  lemma LiveIsSearchable(c: Codecs, u: Unicode, lake: Lake, lists: seq<ManifestList>, manifests: map<string, Manifest>,
                         blobs: map<string, seq<byte>>, column: string, batches: seq<Batch>, queryTerms: seq<string>, op: Operator)
    requires SnapshotOf(c, u, lake, lists, manifests, blobs, column, batches)
    ensures var live := Live(batches, column, queryTerms, op);
      && (forall k | 0 <= k < |live| :: Searchable(c, u, lake, blobs, live[k]))
      && (forall j, k, p | 0 <= j < k < |live| && FileOf(live[j].files, p) :: !FileOf(live[k].files, p))
  {
    hide FileOf, ShouldPrune, BatchSegment, Encodable, Bounds, FilesIn, DistinctPaths, SegmentBytes, InSnapshot;
    LiveMembers(batches, column, queryTerms, op);
    var live := Live(batches, column, queryTerms, op);
    forall k | 0 <= k < |live| ensures Searchable(c, u, lake, blobs, live[k]) {
      assert live[k] in live;
      var i :| 0 <= i < |batches| && batches[i] == live[k];
    }
    forall j, k, p | 0 <= j < k < |live| && FileOf(live[j].files, p) ensures !FileOf(live[k].files, p) {
      LiveOrder(batches, column, queryTerms, op, p);
      assert OwnFiles(live, p);
    }
  }

  /** A live batch's files are indexed and in the snapshot. */
  lemma FoundIsIndexed(c: Codecs, u: Unicode, lake: Lake, lists: seq<ManifestList>, manifests: map<string, Manifest>,
                       blobs: map<string, seq<byte>>, column: string, batches: seq<Batch>, b: Batch, path: string)
    requires SnapshotOf(c, u, lake, lists, manifests, blobs, column, batches)
    requires OfColumn(batches, column, b) && FileOf(b.files, path)
    ensures InSnapshot(lists, path)
  {
    hide FileOf, BatchSegment, Encodable, Bounds, FilesIn, DistinctPaths, SegmentBytes;
    var i :| 0 <= i < |batches| && batches[i] == b;
    PathsMembers(b.files, path);
    assert lists[i] in lists && path in lists[i].dataFiles;
  }

  /** A match in an indexed file is found through a live batch. */
  lemma MatchIsFound(c: Codecs, u: Unicode, lake: Lake, lists: seq<ManifestList>, manifests: map<string, Manifest>,
                     blobs: map<string, seq<byte>>, column: string, batches: seq<Batch>, queryTerms: seq<string>, op: Operator,
                     b: Batch, key: RowKey)
    requires SnapshotOf(c, u, lake, lists, manifests, blobs, column, batches) && queryTerms != []
    requires OfColumn(batches, column, b) && FileOf(b.files, key.path) && Matches(u, lake, key, queryTerms, op)
    ensures var live := Live(batches, column, queryTerms, op); FoundIn(u, lake, live, |live|, queryTerms, op, key)
  {
    hide FileOf, ShouldPrune, BatchSegment, Encodable, Bounds, FilesIn, DistinctPaths, SegmentBytes, Matches, InSnapshot, Live;
    LiveMembers(batches, column, queryTerms, op);
    var live := Live(batches, column, queryTerms, op);
    var i :| 0 <= i < |batches| && batches[i] == b;
    MatchIsLive(u, lake, b, queryTerms, op, key);
    assert b in live;
    var k :| 0 <= k < |live| && live[k] == b;
  }

  /** Rows found through the index are the matches in indexed files. */
  lemma IndexedRows(c: Codecs, u: Unicode, lake: Lake, lists: seq<ManifestList>, manifests: map<string, Manifest>,
                    blobs: map<string, seq<byte>>, column: string, batches: seq<Batch>, queryTerms: seq<string>, op: Operator,
                    key: RowKey)
    requires SnapshotOf(c, u, lake, lists, manifests, blobs, column, batches) && queryTerms != []
    ensures var live := Live(batches, column, queryTerms, op);
      var indexed := Indexed(ColumnEntries(lists, column), manifests, key.path);
      && (FoundIn(u, lake, live, |live|, queryTerms, op, key) <==> indexed && Matches(u, lake, key, queryTerms, op))
      && (indexed ==> InSnapshot(lists, key.path))
  {
    hide FileOf, SnapshotOf, Matches, Indexed, Live, ColumnEntries, Prune, Searched, InSnapshot;
    PlanOnSnapshot(c, u, lake, lists, manifests, blobs, column, batches, queryTerms, op);
    LiveMembers(batches, column, queryTerms, op);
    var live := Live(batches, column, queryTerms, op);
    if FoundIn(u, lake, live, |live|, queryTerms, op, key) {
      var k :| 0 <= k < |live| && FileOf(live[k].files, key.path);
      assert live[k] in live;
    }
    if b :| OfColumn(batches, column, b) && FileOf(b.files, key.path) {
      FoundIsIndexed(c, u, lake, lists, manifests, blobs, column, batches, b, key.path);
      if Matches(u, lake, key, queryTerms, op) {
        MatchIsFound(c, u, lake, lists, manifests, blobs, column, batches, queryTerms, op, b, key);
      }
    }
  }
}

/** The query path over one indexed batch: candidate pages, row selection, row
    verification. Its result is exactly what a full tokenizing scan would return. */
module Search {
  import opened Types
  import opened Tokenizer
  import opened ParquetUtil
  import opened Indexer
  import opened BatchIndex
  import opened SegmentFormat
  import opened Evaluate
  import opened IndexedSegment
  import opened Verify
  import opened Work

  // --- Picking rows ---------------------------------------------------------------

  function Iota(n: nat): (s: seq<nat>)
    ensures |s| == n
  {
    seq(n, i requires 0 <= i => i)
  }

  lemma {:induction false} PickMembers<T>(xs: seq<T>, mask: seq<bool>)
    requires |xs| == |mask|
    ensures forall x :: x in Pick(xs, mask) <==> exists i :: 0 <= i < |xs| && mask[i] && xs[i] == x
  {
    if xs != [] {
      var n := |xs| - 1;
      PickMembers(xs[..n], mask[..n]);
      forall x ensures x in Pick(xs, mask) <==> exists i :: 0 <= i < |xs| && mask[i] && xs[i] == x {
        if i :| 0 <= i < |xs| && mask[i] && xs[i] == x {
          if i < n { assert xs[..n][i] == x && mask[..n][i]; }
        }
      }
    }
  }

  lemma {:induction false} PickIncreasing(xs: seq<nat>, mask: seq<bool>)
    requires |xs| == |mask| && StrictlyIncreasing(xs)
    ensures StrictlyIncreasing(Pick(xs, mask))
  {
    if xs != [] {
      var n := |xs| - 1;
      PickIncreasing(xs[..n], mask[..n]);
      PickMembers(xs[..n], mask[..n]);
      ConcatIncreasing(Pick(xs[..n], mask[..n]), if mask[n] then [xs[n]] else []);
    }
  }

  /** The rows a selection reads are the rows at the positions it selects. */
  lemma {:induction false} PickAligned<T>(xs: seq<T>, mask: seq<bool>)
    requires |xs| == |mask|
    ensures var at: seq<nat> := Pick(Iota(|xs|), mask);
      && |Pick(xs, mask)| == |at|
      && forall k | 0 <= k < |at| :: at[k] < |xs| && Pick(xs, mask)[k] == xs[at[k]]
  {
    if xs != [] {
      var n := |xs| - 1;
      PickAligned(xs[..n], mask[..n]);
      assert Iota(|xs|)[..n] == Iota(n);
    }
  }

  // --- One row group -----------------------------------------------------------------

  /** The rows of the batch that verification kept. */
  function Kept(positions: seq<nat>, out: Option<Matched>): seq<nat>
    requires out.Some? ==> |out.value.mask| == |positions|
  {
    if out.Some? then Pick(positions, out.value.mask) else []
  }

  /** Reads the selected pages of row group `g` of the file `path` and verifies each row read. */
  method SearchGroup(u: Unicode, ilike: Ilike, path: string, g: nat, group: RowGroup, entries: seq<DocTableEntry>,
                     queryTerms: seq<string>, op: Operator)
    returns (rows: seq<nat>, unit: Unit)
    requires InOrder(entries, |group.rows|)
    ensures StrictlyIncreasing(rows)
    ensures unit.path == path && unit.mode.ByIndex?
    ensures KeptOf(u, ilike, unit.mode, unit.rows, queryTerms, op) == KeysOf(path, g, rows)
    ensures forall r :: r in rows <==>
              0 <= r < |group.rows| && Covered(entries, r) && RowMatches(u, group.rows[r], queryTerms, op)
  {
    hide Expand, RowMatches, Covered, StrictlyIncreasing, Pick;
    var selectors := BuildRowSelection(entries, |group.rows|);
    var flags := Expand(selectors);
    var positions := Pick(Iota(|group.rows|), flags);
    var batch := Pick(group.rows, flags);
    PickAligned(group.rows, flags);
    var out, stats := VerifyRows(u, batch, queryTerms, op, None);
    var mask := Filtered(ScanMask(u, batch, queryTerms, op), None);
    PickAligned(batch, mask);
    rows := Kept(positions, out);
    assert rows == Pick(positions, mask) by {
      if out.None? {
        PickAligned(positions, mask);
      }
    }
    unit := Unit(path, ByIndex, ReadAt(path, g, positions, batch));
    assert mask == ScanMask(u, batch, queryTerms, op);
    KeptAt(u, ilike, ByIndex, path, g, positions, batch, mask, queryTerms, op);
    PickMembers(Iota(|group.rows|), flags);
    PickMembers(positions, mask);
    IotaIncreasing(|group.rows|);
    PickIncreasing(Iota(|group.rows|), flags);
    PickIncreasing(positions, mask);
    forall r ensures r in rows <==>
      0 <= r < |group.rows| && Covered(entries, r) && RowMatches(u, group.rows[r], queryTerms, op)
    {
      SelectedAndKept(u, group.rows, flags, positions, mask, queryTerms, op, r);
    }
  }

  lemma IotaIncreasing(n: nat)
    ensures StrictlyIncreasing(Iota(n))
  {}

  lemma SelectedAndKept(u: Unicode, rows: seq<Option<string>>, flags: seq<bool>, positions: seq<nat>, mask: seq<bool>,
                        queryTerms: seq<string>, op: Operator, r: int)
    requires |flags| == |rows| && |mask| == |positions|
    requires forall x :: x in positions <==> exists i :: 0 <= i < |rows| && flags[i] && Iota(|rows|)[i] == x
    requires forall k | 0 <= k < |positions| :: positions[k] < |rows|
               && mask[k] == RowMatches(u, rows[positions[k]], queryTerms, op)
    ensures (exists k :: 0 <= k < |positions| && mask[k] && positions[k] == r)
       <==> 0 <= r < |rows| && flags[r] && RowMatches(u, rows[r], queryTerms, op)
  {
    hide RowMatches;
    if 0 <= r < |rows| && flags[r] {
      var x: nat := r;
      assert flags[x] && Iota(|rows|)[x] == x;
      assert x in positions;
      var k :| 0 <= k < |positions| && positions[k] == x;
    }
    if k :| 0 <= k < |positions| && mask[k] && positions[k] == r {
      assert r in positions;
    }
  }

  /** Scans a row group without an index. */
  method ScanGroup(u: Unicode, ilike: Ilike, path: string, g: nat, group: RowGroup, isLarge: bool, queryTerms: seq<string>,
                   op: Operator)
    returns (rows: seq<nat>, unit: Unit)
    ensures StrictlyIncreasing(rows)
    ensures unit == Unit(path, ByScan(isLarge), ReadAt(path, g, Iota(|group.rows|), group.rows))
    ensures KeptOf(u, ilike, unit.mode, unit.rows, queryTerms, op) == KeysOf(path, g, rows)
    ensures forall r :: r in rows <==>
              0 <= r < |group.rows| && BruteMask(u, ilike, group.rows, isLarge, queryTerms, op)[r]
  {
    hide BruteMask, StrictlyIncreasing, Pick;
    var out, stats := BruteForceVerifyBatch(u, ilike, group.rows, isLarge, queryTerms, op);
    var positions, mask := Iota(|group.rows|), BruteMask(u, ilike, group.rows, isLarge, queryTerms, op);
    rows := Kept(positions, out);
    PickAligned(group.rows, mask);
    assert rows == Pick(positions, mask);
    unit := Unit(path, ByScan(isLarge), ReadAt(path, g, positions, group.rows));
    KeptAt(u, ilike, unit.mode, path, g, positions, group.rows, mask, queryTerms, op);
    PickMembers(positions, mask);
    IotaIncreasing(|group.rows|);
    PickIncreasing(positions, mask);
    forall r ensures r in rows <==> 0 <= r < |group.rows| && mask[r] {
      if 0 <= r < |group.rows| && mask[r] { assert positions[r] == r; }
    }
  }

  // --- Row keys ---------------------------------------------------------------------------

  /** The files that have the queried column, each with its rows of that column. */
  type Lake = map<string, ParquetFile>

  predicate IsRow(lake: Lake, key: RowKey)
  {
    key.path in lake && key.group < |lake[key.path].groups| && key.row < |lake[key.path].groups[key.group].rows|
  }

  /** What a full tokenizing scan of the lake keeps. */
  predicate Matches(u: Unicode, lake: Lake, key: RowKey, queryTerms: seq<string>, op: Operator)
  {
    IsRow(lake, key) && RowMatches(u, lake[key.path].groups[key.group].rows[key.row], queryTerms, op)
  }

  /** A row matches exactly when the terms the indexer finds in it satisfy the query. */
  lemma MatchesIff(u: Unicode, lake: Lake, key: RowKey, queryTerms: seq<string>, op: Operator)
    ensures Matches(u, lake, key, queryTerms, op) <==>
              && IsRow(lake, key)
              && var row := lake[key.path].groups[key.group].rows[key.row];
                 row.Some? &&
                 match op
                 case And => forall k | 0 <= k < |queryTerms| :: HasToken(u, row, queryTerms[k])
                 case Or => exists k :: 0 <= k < |queryTerms| && HasToken(u, row, queryTerms[k])
    ensures IsRow(lake, key) ==>
              var row := lake[key.path].groups[key.group].rows[key.row];
              forall q :: HasToken(u, row, q) <==> row.Some? && q in Tokenize(u, row.value)
  {
    hide Tokenize;
  }

  ghost predicate NoDuplicates<T>(s: seq<T>)
  {
    forall i, j | 0 <= i < j < |s| :: s[i] != s[j]
  }

  lemma NoDuplicatesConcat<T>(a: seq<T>, b: seq<T>)
    requires NoDuplicates(a) && NoDuplicates(b) && forall x | x in a :: x !in b
    ensures NoDuplicates(a + b)
  {
    var s := a + b;
    forall i, j | 0 <= i < j < |s| ensures s[i] != s[j] {
      if i < |a| <= j { assert a[i] in a && b[j - |a|] in b; }
    }
  }

  lemma KeysOfMembers(path: string, group: nat, rows: seq<nat>)
    requires StrictlyIncreasing(rows)
    ensures forall key :: key in KeysOf(path, group, rows) <==> key.path == path && key.group == group && key.row in rows
    ensures NoDuplicates(KeysOf(path, group, rows))
  {
    var keys := KeysOf(path, group, rows);
    forall key: RowKey | key.path == path && key.group == group && key.row in rows ensures key in keys {
      var i :| 0 <= i < |rows| && rows[i] == key.row;
      assert keys[i] == key;
    }
  }

  // --- The indexed batch --------------------------------------------------------------------

  /** The segment was built from these files. */
  ghost predicate BatchSegment(u: Unicode, files: seq<ParquetFile>, inv: PageInventory, index: GroupIndex, s: Segment)
  {
    FilesFit(files) && InventoryOf(files, inv) && ExactIndex(u, files, index) && SegmentFrom(inv, index, s)
  }

  ghost predicate DistinctPaths(files: seq<ParquetFile>)
  {
    forall i, j | 0 <= i < j < |files| :: files[i].path != files[j].path
  }

  ghost predicate FilesIn(lake: Lake, files: seq<ParquetFile>)
  {
    forall i | 0 <= i < |files| :: files[i].path in lake && lake[files[i].path] == files[i]
  }

  ghost predicate FileOf(files: seq<ParquetFile>, path: string)
  {
    exists i :: 0 <= i < |files| && files[i].path == path
  }

  /** A row with a term puts its page in the term's list, and nothing else does. */
  lemma PostingIffRow(u: Unicode, files: seq<ParquetFile>, inv: PageInventory, index: GroupIndex, s: Segment, q: string, d: DocId)
    requires BatchSegment(u, files, inv, index, s)
    ensures HasPosting(s, q, d)
       <==> exists x: RowRef :: ValidRow(files, x) && HasToken(u, RowAt(files, x), q) && DocIdOfRow(files, x) == d
  {
    hide FilesFit, InventoryOf, ExactIndex, HasToken, DocIdOfRow, TermsIncrease;
    IndexMeaning(u, files, index, q, d);
    if HasPosting(s, q, d) {
      assert d in Postings(index.termDocIds, q);
    }
    if d in Postings(index.termDocIds, q) {
      var i :| 0 <= i < |s.terms| && s.terms[i].term == q;
      assert d in s.terms[i].ids;
    }
  }

  lemma ListsOfSegmentIncrease(u: Unicode, files: seq<ParquetFile>, inv: PageInventory, index: GroupIndex, s: Segment)
    requires BatchSegment(u, files, inv, index, s)
    ensures TermsIncrease(s.terms) && forall i | 0 <= i < |s.terms| :: StrictlyIncreasing(s.terms[i].ids)
  {
    hide FilesFit, InventoryOf, MergedUpTo, TermsIncrease, StrictlyIncreasing;
  }

  /** No page with a matching row is pruned away. */
  lemma MatchingRowIsCandidate(u: Unicode, files: seq<ParquetFile>, inv: PageInventory, index: GroupIndex, s: Segment,
                               queryTerms: seq<string>, op: Operator, x: RowRef)
    requires BatchSegment(u, files, inv, index, s) && queryTerms != []
    requires ValidRow(files, x) && RowMatches(u, RowAt(files, x), queryTerms, op)
    ensures DocIdOfRow(files, x) < |s.docTable|
    ensures DocIdOfRow(files, x) < 0x1_0000_0000 && PageMatches(s, queryTerms, op, DocIdOfRow(files, x))
  {
    RowDocIdBound(files, x);
    var d: DocId := DocIdOfRow(files, x);
    hide FilesFit, InventoryOf, ExactIndex, SegmentFrom, DocIdOfRow, HasPosting, BatchSegment;
    forall q | HasToken(u, RowAt(files, x), q) ensures HasPosting(s, q, d) {
      PostingIffRow(u, files, inv, index, s, q, d);
    }
    match op {
      case And =>
        forall k | 0 <= k < |queryTerms| ensures HasPosting(s, queryTerms[k], d) {
          assert HasToken(u, RowAt(files, x), queryTerms[k]);
        }
      case Or =>
        var k :| 0 <= k < |queryTerms| && queryTerms[k] in Tokenize(u, RowAt(files, x).value);
        assert HasToken(u, RowAt(files, x), queryTerms[k]);
        assert HasPosting(s, queryTerms[k], d);
    }
  }

  /** Every candidate is a page of the batch, with that page's entry. */
  lemma CandidateIsPage(u: Unicode, files: seq<ParquetFile>, inv: PageInventory, index: GroupIndex, s: Segment,
                        queryTerms: seq<string>, op: Operator, d: DocId) returns (p: PageRef)
    requires BatchSegment(u, files, inv, index, s) && PageMatches(s, queryTerms, op, d)
    ensures ValidPage(files, p) && DocIdOf(files, p) == d
    ensures d < |s.docTable| && s.docTable[d] == EntryOf(files, p)
  {
    hide FilesFit, ExactIndex, HasPosting, HasToken;
    var k :| 0 <= k < |queryTerms| && HasPosting(s, queryTerms[k], d);
    PostingIffRow(u, files, inv, index, s, queryTerms[k], d);
    var x: RowRef :| ValidRow(files, x) && HasToken(u, RowAt(files, x), queryTerms[k]) && DocIdOfRow(files, x) == d;
    p := PageHolding(files, x);
    PageHoldingValid(files, x);
  }

  lemma PageHoldingValid(files: seq<ParquetFile>, x: RowRef)
    requires FilesFit(files) && ValidRow(files, x)
    ensures ValidPage(files, PageHolding(files, x))
    ensures DocIdOfRow(files, x) == DocIdOf(files, PageHolding(files, x))
  {
    assert WellPaged(files[x.file].groups[x.group]);
  }

  // --- Page entries ------------------------------------------------------------------------------

  /** The entry of a page, with nothing truncated. */
  lemma EntryExact(files: seq<ParquetFile>, p: PageRef)
    requires FilesFit(files) && ValidPage(files, p)
    ensures var g, e := files[p.file].groups[p.group], EntryOf(files, p);
      && e.fileOrdinal == p.file && e.rowGroup == p.group && e.pageIndex == p.page
      && e.firstRowIndex == g.pageStarts[p.page] && e.rowCount == PageRows(g, p.page)
      && e.firstRowIndex + e.rowCount <= |g.rows|
  {
    var g := files[p.file].groups[p.group];
    assert WellPaged(g) && GroupFits(g);
    assert g.pageStarts[p.page] < |g.rows|;
    assert p.page + 1 < |g.pageStarts| ==> g.pageStarts[p.page] < g.pageStarts[p.page + 1] < |g.rows|;
  }

  /** Pages of one row group do not overlap, and differ in their first row. */
  lemma PagesApart(files: seq<ParquetFile>, p: PageRef, q: PageRef)
    requires FilesFit(files) && ValidPage(files, p) && ValidPage(files, q)
    requires p.file == q.file && p.group == q.group
    ensures EntryOf(files, p).firstRowIndex < EntryOf(files, q).firstRowIndex ==>
              EntryOf(files, p).firstRowIndex + EntryOf(files, p).rowCount <= EntryOf(files, q).firstRowIndex
    ensures EntryOf(files, p).firstRowIndex == EntryOf(files, q).firstRowIndex ==> p == q
  {
    EntryExact(files, p);
    EntryExact(files, q);
    var g := files[p.file].groups[p.group];
    assert WellPaged(g);
    if p.page < q.page {
      assert g.pageStarts[p.page + 1] <= g.pageStarts[q.page];
    } else if q.page < p.page {
      assert g.pageStarts[q.page] < g.pageStarts[p.page];
    }
  }

  /** A row is covered by the entry of the page that holds it. */
  lemma EntryCovers(files: seq<ParquetFile>, x: RowRef)
    requires FilesFit(files) && ValidRow(files, x)
    ensures ValidPage(files, PageHolding(files, x)) && Covers(EntryOf(files, PageHolding(files, x)), x.row)
  {
    var g := files[x.file].groups[x.group];
    PageHoldingValid(files, x);
    EntryExact(files, PageHolding(files, x));
    assert WellPaged(g);
    PageHoldsRow(g, x.row, PageOfRow(g.pageStarts, x.row));
  }

  /** All candidate entries are pages of the batch. */
  ghost predicate PageEntries(files: seq<ParquetFile>, entries: seq<DocTableEntry>)
  {
    forall e | e in entries :: exists p: PageRef :: ValidPage(files, p) && e == EntryOf(files, p)
  }

  lemma CandidateEntries(u: Unicode, files: seq<ParquetFile>, inv: PageInventory, index: GroupIndex, s: Segment,
                         queryTerms: seq<string>, op: Operator, candidates: seq<DocId>)
    requires BatchSegment(u, files, inv, index, s)
    requires forall d :: d in candidates <==> PageMatches(s, queryTerms, op, d)
    ensures PageEntries(files, EntriesOf(s.docTable, candidates))
    ensures forall e | e in EntriesOf(s.docTable, candidates) :: e.fileOrdinal < |s.fileTable|
  {
    hide PageMatches;
    EntriesMembers(s.docTable, candidates);
    forall e | e in EntriesOf(s.docTable, candidates)
      ensures e.fileOrdinal < |s.fileTable| && exists p: PageRef :: ValidPage(files, p) && e == EntryOf(files, p)
    {
      var d :| d in candidates && d < |s.docTable| && s.docTable[d] == e;
      var p := CandidateIsPage(u, files, inv, index, s, queryTerms, op, d);
      EntryExact(files, p);
    }
  }

  /** A work item of the batch: its file and row group exist, and its pages are in order. */
  lemma ItemInOrder(files: seq<ParquetFile>, inv: PageInventory, entries: seq<DocTableEntry>, k: GroupKey, item: IndexedWorkItem)
    requires FilesFit(files) && InventoryOf(files, inv) && PageEntries(files, entries)
    requires ItemFor(inv.fileTable, entries, k, item) && exists e :: e in entries && KeyOf(e) == k
    ensures k.file < |files| && item.filePath == files[k.file].path && k.group < |files[k.file].groups|
    ensures InOrder(item.entries, |files[k.file].groups[k.group].rows|)
  {
    hide FilesFit, EntryOf, PagesBefore;
    var e0 :| e0 in entries && KeyOf(e0) == k;
    var p0: PageRef :| ValidPage(files, p0) && e0 == EntryOf(files, p0);
    EntryExact(files, p0);
    var es := item.entries;
    forall i, j | 0 <= i < j < |es| ensures es[i].firstRowIndex + es[i].rowCount <= es[j].firstRowIndex {
      assert es[i] in es && es[j] in es && FirstRow(es[i]) < FirstRow(es[j]);
      EntriesApart(files, entries, es[i], es[j]);
    }
    forall i | 0 <= i < |es| ensures es[i].firstRowIndex + es[i].rowCount <= |files[k.file].groups[k.group].rows| {
      assert es[i] in es;
      var p: PageRef :| ValidPage(files, p) && es[i] == EntryOf(files, p);
      EntryExact(files, p);
    }
  }

  lemma EntriesApart(files: seq<ParquetFile>, entries: seq<DocTableEntry>, a: DocTableEntry, b: DocTableEntry)
    requires FilesFit(files) && PageEntries(files, entries) && a in entries && b in entries && KeyOf(a) == KeyOf(b)
    ensures a.firstRowIndex < b.firstRowIndex ==> a.firstRowIndex + a.rowCount <= b.firstRowIndex
    ensures a.firstRowIndex == b.firstRowIndex ==> a == b
  {
    hide FilesFit, EntryOf;
    var p: PageRef :| ValidPage(files, p) && a == EntryOf(files, p);
    var q: PageRef :| ValidPage(files, q) && b == EntryOf(files, q);
    EntryExact(files, p);
    EntryExact(files, q);
    PagesApart(files, p, q);
  }

  lemma ItemEntriesExact(files: seq<ParquetFile>, fileTable: seq<FileTableEntry>, entries: seq<DocTableEntry>, k: GroupKey,
                         item: IndexedWorkItem)
    requires FilesFit(files) && PageEntries(files, entries) && ItemFor(fileTable, entries, k, item)
    ensures forall e :: e in item.entries <==> e in entries && KeyOf(e) == k
  {
    hide FilesFit, PageEntries;
    forall a, b | a in entries && b in entries && KeyOf(a) == KeyOf(b) && FirstRow(a) == FirstRow(b) ensures a == b {
      EntriesApart(files, entries, a, b);
    }
    GroupingIsExact(fileTable, entries, k, item);
  }

  /** The group key of a matching row has a work item, whose entries cover the row. */
  lemma MatchingRowIsCovered(u: Unicode, files: seq<ParquetFile>, inv: PageInventory, index: GroupIndex, s: Segment,
                             queryTerms: seq<string>, op: Operator, candidates: seq<DocId>, x: RowRef)
    requires BatchSegment(u, files, inv, index, s) && queryTerms != []
    requires forall d :: d in candidates <==> PageMatches(s, queryTerms, op, d)
    requires ValidRow(files, x) && RowMatches(u, RowAt(files, x), queryTerms, op)
    ensures exists e :: e in EntriesOf(s.docTable, candidates) && Covers(e, x.row)
                        && e.fileOrdinal == x.file && e.rowGroup == x.group
  {
    MatchingRowIsCandidate(u, files, inv, index, s, queryTerms, op, x);
    hide PageMatches, RowMatches, ExactIndex;
    var p := PageHolding(files, x);
    EntryCovers(files, x);
    PageHoldingValid(files, x);
    EntryExact(files, p);
    EntriesMembers(s.docTable, candidates);
    var d: DocId := DocIdOfRow(files, x);
    assert d in candidates;
    assert s.docTable[d] == EntryOf(files, p);
  }
}

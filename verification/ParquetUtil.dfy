/** Parquet page inventory: dense page ids over files, row groups and pages, and
    the row selection that reads a subset of pages. */
module ParquetUtil {
  import opened Bytes
  import opened Types

  /** A row group: its rows (null or text) and the first row of each page. */
  datatype RowGroup = RowGroup(rows: seq<Option<string>>, pageStarts: seq<nat>)

  datatype ParquetFile = ParquetFile(path: string, groups: seq<RowGroup>)

  datatype PageEntry = PageEntry(docId: DocId, firstRowIndex: nat)

  datatype PageInventory = PageInventory(
    docTable: seq<DocTableEntry>, fileTable: seq<FileTableEntry>, pages: seq<seq<seq<PageEntry>>>)

  // --- What Parquet guarantees -------------------------------------------------

  /** Page starts begin at row 0, strictly increase and stay inside the row group. */
  ghost predicate WellPaged(g: RowGroup)
  {
    && (g.rows == [] <==> g.pageStarts == [])
    && (g.pageStarts != [] ==> g.pageStarts[0] == 0)
    && (forall i, j | 0 <= i < j < |g.pageStarts| :: g.pageStarts[i] < g.pageStarts[j])
    && (forall i | 0 <= i < |g.pageStarts| :: g.pageStarts[i] < |g.rows|)
  }

  /** Counts fit the integer casts of the inventory. */
  ghost predicate GroupFits(g: RowGroup)
  {
    |g.rows| < 0x1_0000_0000 && |g.pageStarts| <= 0x1_0000
  }

  ghost predicate FilesFit(files: seq<ParquetFile>)
  {
    && |files| < 0x1_0000_0000
    && PagesBefore(files, |files|, 0) < 0x1_0000_0000
    && (forall f | 0 <= f < |files| :: |files[f].groups| < 0x1_0000)
    && (forall f, g | 0 <= f < |files| && 0 <= g < |files[f].groups| ::
          WellPaged(files[f].groups[g]) && GroupFits(files[f].groups[g]))
  }

  // --- Page ids ------------------------------------------------------------------

  /** The number of pages before row group `g` of file `f`. */
  function PagesBefore(files: seq<ParquetFile>, f: nat, g: nat): nat
    requires f <= |files| && (if f < |files| then g <= |files[f].groups| else g == 0)
    decreases f, g
  {
    if g > 0 then PagesBefore(files, f, g - 1) + |files[f].groups[g - 1].pageStarts|
    else if f > 0 then PagesBefore(files, f - 1, |files[f - 1].groups|)
    else 0
  }

  datatype PageRef = PageRef(file: nat, group: nat, page: nat)

  predicate ValidPage(files: seq<ParquetFile>, p: PageRef)
  {
    p.file < |files| && p.group < |files[p.file].groups| && p.page < |files[p.file].groups[p.group].pageStarts|
  }

  function DocIdOf(files: seq<ParquetFile>, p: PageRef): nat
    requires ValidPage(files, p)
  {
    PagesBefore(files, p.file, p.group) + p.page
  }

  function PageRows(g: RowGroup, page: nat): int
    requires page < |g.pageStarts|
  {
    (if page + 1 < |g.pageStarts| then g.pageStarts[page + 1] else |g.rows|) - g.pageStarts[page]
  }

  function EntryOf(files: seq<ParquetFile>, p: PageRef): DocTableEntry
    requires ValidPage(files, p)
  {
    var g := files[p.file].groups[p.group];
    DocTableEntry(AsU32(p.file), AsU16(p.group), AsU16(p.page),
                  AsU64(g.pageStarts[p.page]), AsU32(PageRows(g, p.page)))
  }

  /** Group positions in reading order. */
  predicate AtOrBefore(f: nat, g: nat, f': nat, g': nat)
  {
    f < f' || (f == f' && g <= g')
  }

  lemma {:induction false} PagesBeforeGrows(files: seq<ParquetFile>, f: nat, g: nat, f': nat, g': nat)
    requires f < |files| && g <= |files[f].groups|
    requires f' <= |files| && (if f' < |files| then g' <= |files[f'].groups| else g' == 0)
    requires AtOrBefore(f, g, f', g')
    ensures PagesBefore(files, f, g) <= PagesBefore(files, f', g')
    decreases f', g'
  {
    if f == f' && g == g' {
    } else if g' > 0 {
      PagesBeforeGrows(files, f, g, f', g' - 1);
    } else {
      PagesBeforeGrows(files, f, g, f' - 1, |files[f' - 1].groups|);
    }
  }

  lemma GroupEnd(files: seq<ParquetFile>, f: nat, g: nat)
    requires f < |files| && g < |files[f].groups|
    ensures PagesBefore(files, f, g + 1) == PagesBefore(files, f, g) + |files[f].groups[g].pageStarts|
  {}

  /** Page ids of different pages differ, and follow reading order. */
  lemma DocIdOrder(files: seq<ParquetFile>, p: PageRef, q: PageRef)
    requires ValidPage(files, p) && ValidPage(files, q)
    ensures p.file < q.file || (p.file == q.file && p.group < q.group) ==> DocIdOf(files, p) < DocIdOf(files, q)
    ensures DocIdOf(files, p) == DocIdOf(files, q) ==> p == q
    ensures DocIdOf(files, p) < PagesBefore(files, |files|, 0)
  {
    GroupEnd(files, p.file, p.group);
    GroupEnd(files, q.file, q.group);
    hide PagesBefore;
    var n := |files[p.file].groups[p.group].pageStarts|;
    assert DocIdOf(files, p) < PagesBefore(files, p.file, p.group) + n == PagesBefore(files, p.file, p.group + 1);
    PagesBeforeGrows(files, p.file, p.group + 1, |files|, 0);
    if AtOrBefore(p.file, p.group + 1, q.file, q.group) {
      PagesBeforeGrows(files, p.file, p.group + 1, q.file, q.group);
    } else if AtOrBefore(q.file, q.group + 1, p.file, p.group) {
      PagesBeforeGrows(files, q.file, q.group + 1, p.file, p.group);
    }
  }

  /** Page ids are dense: every id below the total belongs to a page. */
  lemma {:induction false} DocIdsAreDense(files: seq<ParquetFile>, f: nat, g: nat, d: nat) returns (p: PageRef)
    requires f <= |files| && (if f < |files| then g <= |files[f].groups| else g == 0)
    requires d < PagesBefore(files, f, g)
    ensures ValidPage(files, p) && DocIdOf(files, p) == d
    decreases f, g
  {
    if g > 0 {
      if d < PagesBefore(files, f, g - 1) {
        p := DocIdsAreDense(files, f, g - 1, d);
      } else {
        p := PageRef(f, g - 1, d - PagesBefore(files, f, g - 1));
      }
    } else {
      p := DocIdsAreDense(files, f - 1, |files[f - 1].groups|, d);
    }
  }

  // --- Building the inventory -------------------------------------------------------

  ghost predicate InventoryOf(files: seq<ParquetFile>, inv: PageInventory)
  {
    && |inv.docTable| == PagesBefore(files, |files|, 0)
    && (forall p: PageRef | ValidPage(files, p) ::
          DocIdOf(files, p) < |inv.docTable| && inv.docTable[DocIdOf(files, p)] == EntryOf(files, p))
    && |inv.fileTable| == |files|
    && (forall f | 0 <= f < |files| ::
          inv.fileTable[f] == FileTableEntry(files[f].path, AsU16(|files[f].groups|)))
    && |inv.pages| == |files|
    && (forall f | 0 <= f < |files| :: |inv.pages[f]| == |files[f].groups|)
    && (forall f, g | 0 <= f < |files| && 0 <= g < |files[f].groups| :: PagesOf(files, f, g, inv.pages[f][g]))
  }

  ghost predicate PagesOf(files: seq<ParquetFile>, f: nat, g: nat, pages: seq<PageEntry>)
    requires f < |files| && g < |files[f].groups|
  {
    && |pages| == |files[f].groups[g].pageStarts|
    && forall p | 0 <= p < |pages| ::
         pages[p].docId == PagesBefore(files, f, g) + p && pages[p].firstRowIndex == files[f].groups[g].pageStarts[p]
  }

  /** The doc table rows that exist once row groups before (`f`, `g`) are done. */
  ghost predicate TableUpTo(files: seq<ParquetFile>, f: nat, g: nat, table: seq<DocTableEntry>)
    requires f <= |files| && (if f < |files| then g <= |files[f].groups| else g == 0)
  {
    && |table| == PagesBefore(files, f, g)
    && forall p: PageRef | ValidPage(files, p) && AtOrBefore(p.file, p.group + 1, f, g) ::
         DocIdOf(files, p) < |table| && table[DocIdOf(files, p)] == EntryOf(files, p)
  }

  /** The inner loop of `build_page_inventory`: the pages of one row group. */
  method InventoryGroup(files: seq<ParquetFile>, f: nat, g: nat, docTable: seq<DocTableEntry>)
    returns (docTable': seq<DocTableEntry>, entries: seq<PageEntry>)
    requires FilesFit(files) && f < |files| && g < |files[f].groups|
    requires TableUpTo(files, f, g, docTable)
    ensures TableUpTo(files, f, g + 1, docTable')
    ensures PagesOf(files, f, g, entries)
  {
    var group := files[f].groups[g];
    var starts := group.pageStarts;
    var nextDocId := |docTable|;
    docTable', entries := docTable, [];
    PagesBeforeGrows(files, f, g + 1, |files|, 0);
    for page := 0 to |starts|
      invariant nextDocId == |docTable'| == |docTable| + page
      invariant docTable <= docTable'
      invariant forall p | 0 <= p < page :: docTable'[|docTable| + p] == EntryOf(files, PageRef(f, g, p))
      invariant |entries| == page
      invariant forall p | 0 <= p < page ::
        entries[p].docId == |docTable| + p && entries[p].firstRowIndex == starts[p]
    {
      var firstRow := starts[page];
      var rowCount := AsU32(if page + 1 < |starts| then starts[page + 1] - firstRow else |group.rows| - firstRow);
      var docId: DocId := nextDocId;
      nextDocId := nextDocId + 1;
      docTable' := docTable' + [DocTableEntry(AsU32(f), AsU16(g), AsU16(page), AsU64(firstRow), rowCount)];
      entries := entries + [PageEntry(docId, firstRow)];
    }
    GroupComplete(files, f, g, docTable, docTable');
  }

  /** The table with the pages of one more row group. */
  lemma GroupComplete(files: seq<ParquetFile>, f: nat, g: nat, before: seq<DocTableEntry>, after: seq<DocTableEntry>)
    requires f < |files| && g < |files[f].groups| && TableUpTo(files, f, g, before) && before <= after
    requires |after| == |before| + |files[f].groups[g].pageStarts|
    requires forall p | 0 <= p < |files[f].groups[g].pageStarts| :: after[|before| + p] == EntryOf(files, PageRef(f, g, p))
    ensures TableUpTo(files, f, g + 1, after)
  {
    hide EntryOf;
    forall p: PageRef | ValidPage(files, p) && AtOrBefore(p.file, p.group + 1, f, g + 1)
      ensures DocIdOf(files, p) < |after| && after[DocIdOf(files, p)] == EntryOf(files, p)
    {
      if p.file == f && p.group == g {
        assert p == PageRef(f, g, p.page);
      } else {
        assert AtOrBefore(p.file, p.group + 1, f, g);
        assert after[DocIdOf(files, p)] == before[DocIdOf(files, p)];
      }
    }
  }

  lemma TableNextFile(files: seq<ParquetFile>, f: nat, table: seq<DocTableEntry>)
    requires f < |files| && TableUpTo(files, f, |files[f].groups|, table)
    ensures TableUpTo(files, f + 1, 0, table)
  {
    forall p: PageRef | ValidPage(files, p) && AtOrBefore(p.file, p.group + 1, f + 1, 0)
      ensures AtOrBefore(p.file, p.group + 1, f, |files[f].groups|)
    {}
  }

  /** `build_page_inventory`. */
  method BuildPageInventory(files: seq<ParquetFile>) returns (inv: PageInventory)
    requires FilesFit(files)
    ensures InventoryOf(files, inv)
  {
    var docTable: seq<DocTableEntry> := [];
    var fileTable: seq<FileTableEntry> := [];
    var pagesByFile: seq<seq<seq<PageEntry>>> := [];
    for f := 0 to |files|
      invariant TableUpTo(files, f, 0, docTable)
      invariant |fileTable| == f
      invariant forall k | 0 <= k < f :: fileTable[k] == FileTableEntry(files[k].path, AsU16(|files[k].groups|))
      invariant |pagesByFile| == f
      invariant forall k | 0 <= k < f :: |pagesByFile[k]| == |files[k].groups|
      invariant forall k, g | 0 <= k < f && 0 <= g < |files[k].groups| :: PagesOf(files, k, g, pagesByFile[k][g])
    {
      fileTable := fileTable + [FileTableEntry(files[f].path, AsU16(|files[f].groups|))];
      var groupPages: seq<seq<PageEntry>> := [];
      for g := 0 to |files[f].groups|
        invariant TableUpTo(files, f, g, docTable)
        invariant |groupPages| == g
        invariant forall k | 0 <= k < g :: PagesOf(files, f, k, groupPages[k])
      {
        var entries;
        docTable, entries := InventoryGroup(files, f, g, docTable);
        groupPages := groupPages + [entries];
      }
      TableNextFile(files, f, docTable);
      pagesByFile := pagesByFile + [groupPages];
    }
    inv := PageInventory(docTable, fileTable, pagesByFile);
  }

  // --- Row to page --------------------------------------------------------------------

  /** `partition_point(|p| p.first_row_index <= row)`. */
  function PartitionPoint(starts: seq<nat>, row: int): (n: nat)
    ensures n <= |starts|
  {
    if starts == [] || starts[0] > row then 0 else 1 + PartitionPoint(starts[1..], row)
  }

  /** The page `doc_id_for_row` picks. */
  function PageOfRow(starts: seq<nat>, row: int): (p: nat)
    requires starts != []
    ensures p < |starts|
  {
    if PartitionPoint(starts, row) == 0 then 0 else PartitionPoint(starts, row) - 1
  }

  lemma {:induction false} PartitionPointSplits(starts: seq<nat>, row: int)
    ensures var n := PartitionPoint(starts, row);
      && (forall i | 0 <= i < n :: starts[i] <= row)
      && (n < |starts| ==> starts[n] > row)
  {
    if starts != [] && starts[0] <= row { PartitionPointSplits(starts[1..], row); }
  }

  /** A row lies in the page picked for it, and in no other. */
  lemma PageHoldsRow(g: RowGroup, row: nat, page: nat)
    requires WellPaged(g) && row < |g.rows| && page < |g.pageStarts|
    ensures g.pageStarts != []
    ensures g.pageStarts[page] <= row < g.pageStarts[page] + PageRows(g, page)
       <==> page == PageOfRow(g.pageStarts, row)
  {
    PartitionPointSplits(g.pageStarts, row);
    var p := PageOfRow(g.pageStarts, row);
    assert g.pageStarts[0] <= row;
    if page < p { assert g.pageStarts[page + 1] <= g.pageStarts[p]; }
    if page > p { assert g.pageStarts[p + 1] <= g.pageStarts[page]; }
  }

  // --- Row selection ---------------------------------------------------------------------

  datatype RowSelector = Skip(count: nat) | Select(count: nat)

  function Flags(s: RowSelector): (f: seq<bool>)
    ensures |f| == s.count
  {
    seq(s.count, _ => s.Select?)
  }

  /** The rows a selection reads, one flag per row. */
  function Expand(selectors: seq<RowSelector>): seq<bool>
  {
    if selectors == [] then [] else Flags(selectors[0]) + Expand(selectors[1..])
  }

  lemma {:induction false} ExpandAppend(selectors: seq<RowSelector>, s: RowSelector)
    ensures Expand(selectors + [s]) == Expand(selectors) + Flags(s)
  {
    if selectors == [] {
      assert selectors + [s] == [s];
      assert Expand([s]) == Flags(s) + Expand([]);
    } else {
      assert (selectors + [s])[1..] == selectors[1..] + [s];
      ExpandAppend(selectors[1..], s);
    }
  }

  predicate Covers(e: DocTableEntry, row: int)
  {
    e.firstRowIndex <= row < e.firstRowIndex + e.rowCount
  }

  /** Entries in row order that do not overlap and end by `total`. */
  ghost predicate InOrder(entries: seq<DocTableEntry>, total: nat)
  {
    && (forall i, j | 0 <= i < j < |entries| ::
          entries[i].firstRowIndex + entries[i].rowCount <= entries[j].firstRowIndex)
    && (forall i | 0 <= i < |entries| :: entries[i].firstRowIndex + entries[i].rowCount <= total)
  }

  ghost predicate Covered(entries: seq<DocTableEntry>, row: int)
  {
    exists e :: e in entries && Covers(e, row)
  }

  /** One flag per row, set exactly on the rows of the given pages. */
  ghost predicate FlagsExactly(flags: seq<bool>, entries: seq<DocTableEntry>, n: nat)
  {
    |flags| == n && forall row | 0 <= row < n :: flags[row] <==> Covered(entries, row)
  }

  function AllFlags(n: nat, flag: bool): (f: seq<bool>)
    ensures |f| == n
  {
    seq(n, _ => flag)
  }

  lemma FlagsSkip(flags: seq<bool>, entries: seq<DocTableEntry>, end: nat, gap: nat)
    requires FlagsExactly(flags, entries, end) && InOrder(entries, end)
    ensures FlagsExactly(flags + AllFlags(gap, false), entries, end + gap)
  {}

  lemma FlagsSelect(flags: seq<bool>, entries: seq<DocTableEntry>, e: DocTableEntry)
    requires FlagsExactly(flags, entries, e.firstRowIndex) && InOrder(entries, e.firstRowIndex)
    ensures FlagsExactly(flags + AllFlags(e.rowCount, true), entries + [e], e.firstRowIndex + e.rowCount)
  {
    var all, flags' := entries + [e], flags + AllFlags(e.rowCount, true);
    assert e in all;
    forall row | 0 <= row < |flags'| ensures flags'[row] <==> Covered(all, row) {
      if row >= e.firstRowIndex {
        assert Covers(e, row);
      }
    }
  }

  /** `build_row_selection`. */
  method BuildRowSelection(entries: seq<DocTableEntry>, totalRgRows: nat) returns (selectors: seq<RowSelector>)
    requires InOrder(entries, totalRgRows)
    ensures FlagsExactly(Expand(selectors), entries, totalRgRows)
  {
    hide FlagsExactly, Expand, Flags;
    selectors := [];
    var prevEnd: nat := 0;
    assert FlagsExactly(Expand([]), [], 0) by { NoFlags(); }
    for i := 0 to |entries|
      invariant prevEnd <= totalRgRows && InOrder(entries[..i], prevEnd)
      invariant i < |entries| ==> prevEnd <= entries[i].firstRowIndex
      invariant FlagsExactly(Expand(selectors), entries[..i], prevEnd)
    {
      var e := entries[i];
      var start := e.firstRowIndex;
      FlagsSkip(Expand(selectors), entries[..i], prevEnd, start - prevEnd);
      if start > prevEnd {
        ExpandAppend(selectors, Skip(start - prevEnd));
        SelectorFlags(Skip(start - prevEnd));
        selectors := selectors + [Skip(start - prevEnd)];
      } else {
        assert Expand(selectors) + AllFlags(0, false) == Expand(selectors);
      }
      FlagsSelect(Expand(selectors), entries[..i], e);
      ExpandAppend(selectors, Select(e.rowCount));
      SelectorFlags(Select(e.rowCount));
      selectors := selectors + [Select(e.rowCount)];
      assert entries[..i + 1] == entries[..i] + [e];
      prevEnd := start + e.rowCount;
    }
    assert entries[..|entries|] == entries;
    FlagsSkip(Expand(selectors), entries, prevEnd, totalRgRows - prevEnd);
    if prevEnd < totalRgRows {
      ExpandAppend(selectors, Skip(totalRgRows - prevEnd));
      SelectorFlags(Skip(totalRgRows - prevEnd));
      selectors := selectors + [Skip(totalRgRows - prevEnd)];
    } else {
      assert Expand(selectors) + AllFlags(0, false) == Expand(selectors);
    }
  }

  lemma NoFlags()
    ensures FlagsExactly(Expand([]), [], 0)
  {}

  lemma SelectorFlags(s: RowSelector)
    ensures Flags(s) == AllFlags(s.count, s.Select?)
  {}
}

/** Merging the per-row-group indexes of a batch of files into one. */
module BatchIndex {
  import opened Types
  import opened Sorting
  import opened Tokenizer
  import opened ParquetUtil
  import opened Indexer

  // --- Rows of a batch -----------------------------------------------------------

  datatype RowRef = RowRef(file: nat, group: nat, row: nat)

  predicate ValidRow(files: seq<ParquetFile>, x: RowRef)
  {
    x.file < |files| && x.group < |files[x.file].groups| && x.row < |files[x.file].groups[x.group].rows|
  }

  function RowAt(files: seq<ParquetFile>, x: RowRef): Option<string>
    requires ValidRow(files, x)
  {
    files[x.file].groups[x.group].rows[x.row]
  }

  /** The page that holds a row. */
  function PageHolding(files: seq<ParquetFile>, x: RowRef): PageRef
    requires FilesFit(files) && ValidRow(files, x)
  {
    assert WellPaged(files[x.file].groups[x.group]);
    PageRef(x.file, x.group, PageOfRow(files[x.file].groups[x.group].pageStarts, x.row))
  }

  /** The id of the page that holds a row. */
  function DocIdOfRow(files: seq<ParquetFile>, x: RowRef): nat
    requires FilesFit(files) && ValidRow(files, x)
  {
    DocIdOf(files, PageHolding(files, x))
  }

  ghost predicate InGroupsBefore(x: RowRef, f: nat, g: nat)
  {
    AtOrBefore(x.file, x.group + 1, f, g)
  }

  ghost predicate TermBefore(u: Unicode, files: seq<ParquetFile>, f: nat, g: nat, t: string)
  {
    exists x: RowRef :: ValidRow(files, x) && InGroupsBefore(x, f, g) && HasToken(u, RowAt(files, x), t)
  }

  ghost predicate PageBefore(u: Unicode, files: seq<ParquetFile>, f: nat, g: nat, t: string, d: int)
    requires FilesFit(files)
  {
    exists x: RowRef :: ValidRow(files, x) && InGroupsBefore(x, f, g) && HasToken(u, RowAt(files, x), t)
                        && DocIdOfRow(files, x) == d
  }

  /** Rows with the term in the row groups before (`f`, `g`). */
  function RowsWithTerm(u: Unicode, files: seq<ParquetFile>, f: nat, g: nat, t: string): nat
    requires f <= |files| && (if f < |files| then g <= |files[f].groups| else g == 0)
    decreases f, g
  {
    if g > 0 then RowsWithTerm(u, files, f, g - 1, t) + CountRows(u, files[f].groups[g - 1].rows, t)
    else if f > 0 then RowsWithTerm(u, files, f - 1, |files[f - 1].groups|, t)
    else 0
  }

  function RowsBefore(files: seq<ParquetFile>, f: nat, g: nat): nat
    requires f <= |files| && (if f < |files| then g <= |files[f].groups| else g == 0)
    decreases f, g
  {
    if g > 0 then RowsBefore(files, f, g - 1) + |files[f].groups[g - 1].rows|
    else if f > 0 then RowsBefore(files, f - 1, |files[f - 1].groups|)
    else 0
  }

  function TokensBefore(u: Unicode, files: seq<ParquetFile>, f: nat, g: nat): nat
    requires f <= |files| && (if f < |files| then g <= |files[f].groups| else g == 0)
    decreases f, g
  {
    if g > 0 then TokensBefore(u, files, f, g - 1) + CountTokens(u, files[f].groups[g - 1].rows)
    else if f > 0 then TokensBefore(u, files, f - 1, |files[f - 1].groups|)
    else 0
  }

  // --- The merged index --------------------------------------------------------------

  ghost predicate TermsMerged(u: Unicode, files: seq<ParquetFile>, f: nat, g: nat, ids: map<string, seq<DocId>>)
  {
    forall t :: t in ids <==> TermBefore(u, files, f, g, t)
  }

  ghost predicate PagesMerged(u: Unicode, files: seq<ParquetFile>, f: nat, g: nat, ids: map<string, seq<DocId>>)
    requires FilesFit(files)
  {
    forall t, d: DocId :: d in Postings(ids, t) <==> PageBefore(u, files, f, g, t, d)
  }

  ghost predicate CountsMerged(u: Unicode, files: seq<ParquetFile>, f: nat, g: nat, freq: map<string, nat>)
    requires f <= |files| && (if f < |files| then g <= |files[f].groups| else g == 0)
  {
    forall t :: Count(freq, t) == RowsWithTerm(u, files, f, g, t)
  }

  /** `acc` is the merge of the row groups before (`f`, `g`). */
  ghost predicate MergedUpTo(u: Unicode, files: seq<ParquetFile>, f: nat, g: nat, acc: GroupIndex)
    requires FilesFit(files)
    requires f <= |files| && (if f < |files| then g <= |files[f].groups| else g == 0)
  {
    && TermsMerged(u, files, f, g, acc.termDocIds)
    && acc.termDocIds.Keys == acc.termDocFreq.Keys
    && PagesMerged(u, files, f, g, acc.termDocIds)
    && CountsMerged(u, files, f, g, acc.termDocFreq)
    && acc.totalRows == RowsBefore(files, f, g)
    && acc.totalTokens == TokensBefore(u, files, f, g)
  }

  /** The batch is indexed exactly: each term's list is the strictly increasing list
      of the pages that hold a row with the term, its frequency is the number of those
      rows, and the totals are exact sums. */
  ghost predicate ExactIndex(u: Unicode, files: seq<ParquetFile>, index: GroupIndex)
    requires FilesFit(files)
  {
    && MergedUpTo(u, files, |files|, 0, index)
    && ListsIncrease(index.termDocIds)
  }

  // --- Merging -----------------------------------------------------------------------

  ghost predicate ListsMerged(a: map<string, seq<DocId>>, b: map<string, seq<DocId>>, c: map<string, seq<DocId>>)
  {
    && (forall t :: t in c <==> t in a || t in b)
    && (forall t :: Postings(c, t) == Postings(a, t) + Postings(b, t))
  }

  ghost predicate CountsAdded(a: map<string, nat>, b: map<string, nat>, c: map<string, nat>)
  {
    && (forall t :: t in c <==> t in a || t in b)
    && (forall t :: Count(c, t) == Count(a, t) + Count(b, t))
  }

  ghost predicate MapsMerged(a: GroupIndex, b: GroupIndex, c: GroupIndex)
  {
    && ListsMerged(a.termDocIds, b.termDocIds, c.termDocIds)
    && CountsAdded(a.termDocFreq, b.termDocFreq, c.termDocFreq)
    && c.totalRows == a.totalRows + b.totalRows
    && c.totalTokens == a.totalTokens + b.totalTokens
  }

  method MergeLists(a: map<string, seq<DocId>>, b: map<string, seq<DocId>>) returns (c: map<string, seq<DocId>>)
    ensures ListsMerged(a, b, c)
  {
    c := a;
    var rest := b.Keys;
    while rest != {}
      invariant rest <= b.Keys
      invariant forall t :: t in c <==> t in a || t in b.Keys - rest
      invariant forall t | t in a && (t !in b || t in rest) :: c[t] == a[t]
      invariant forall t | t in b && t !in rest :: c[t] == Postings(a, t) + b[t]
      decreases |rest|
    {
      var t :| t in rest;
      c := c[t := Postings(c, t) + b[t]];
      rest := rest - {t};
    }
    assert forall t | t !in b :: Postings(a, t) + [] == Postings(a, t);
  }

  method AddCounts(a: map<string, nat>, b: map<string, nat>) returns (c: map<string, nat>)
    ensures CountsAdded(a, b, c)
  {
    c := a;
    var rest := b.Keys;
    while rest != {}
      invariant rest <= b.Keys
      invariant forall t :: t in c <==> t in a || t in b.Keys - rest
      invariant forall t | t in a && (t !in b || t in rest) :: c[t] == a[t]
      invariant forall t | t in b && t !in rest :: c[t] == Count(a, t) + b[t]
      decreases |rest|
    {
      var t :| t in rest;
      c := c[t := Count(c, t) + b[t]];
      rest := rest - {t};
    }
  }

  /** The merge loop body: extends each list and adds each frequency. */
  method MergeGroup(a: GroupIndex, b: GroupIndex) returns (c: GroupIndex)
    ensures MapsMerged(a, b, c)
  {
    hide ListsMerged, CountsAdded;
    var ids := MergeLists(a.termDocIds, b.termDocIds);
    var freq := AddCounts(a.termDocFreq, b.termDocFreq);
    c := GroupIndex(ids, freq, a.totalRows + b.totalRows, a.totalTokens + b.totalTokens);
  }

  /** A row group's exact index, in terms of the batch. */
  lemma GroupPages(u: Unicode, files: seq<ParquetFile>, f: nat, g: nat, pages: seq<PageEntry>, ids: map<string, seq<DocId>>,
                   t: string, d: DocId)
    requires FilesFit(files) && f < |files| && g < |files[f].groups| && PagesOf(files, f, g, pages)
    requires var rows := files[f].groups[g].rows;
      (rows != [] ==> pages != []) && PagesExact(u, rows, pages, |rows|, ids)
    ensures d in Postings(ids, t)
       <==> exists x: RowRef :: x.file == f && x.group == g && ValidRow(files, x) && HasToken(u, RowAt(files, x), t)
                                && DocIdOfRow(files, x) == d
  {
    hide HasToken;
    var rows := files[f].groups[g].rows;
    forall r: nat | r < |rows| ensures DocIdOfRow(files, RowRef(f, g, r)) == DocIdForRow(pages, r) {
      DocIdsAgree(files, f, g, pages, r);
    }
    hide DocIdForRow, DocIdOfRow, PagesOf, Postings;
    if d in Postings(ids, t) {
      assert PageHasTerm(u, rows, pages, |rows|, t, d);
      var r :| 0 <= r < |rows| && HasToken(u, rows[r], t) && DocIdForRow(pages, r) == d;
      assert ValidRow(files, RowRef(f, g, r));
    }
    forall x: RowRef | x.file == f && x.group == g && ValidRow(files, x) && HasToken(u, RowAt(files, x), t)
                       && DocIdOfRow(files, x) == d
      ensures d in Postings(ids, t)
    {
      assert x == RowRef(f, g, x.row);
      assert PageHasTerm(u, rows, pages, |rows|, t, d);
    }
  }

  /** The page list's answer for a row is the inventory's. */
  lemma DocIdsAgree(files: seq<ParquetFile>, f: nat, g: nat, pages: seq<PageEntry>, r: nat)
    requires FilesFit(files) && f < |files| && g < |files[f].groups| && PagesOf(files, f, g, pages)
    requires r < |files[f].groups[g].rows|
    ensures pages != [] && DocIdForRow(pages, r) == DocIdOfRow(files, RowRef(f, g, r))
  {
    assert WellPaged(files[f].groups[g]);
    assert Starts(pages) == files[f].groups[g].pageStarts;
  }

  lemma MergeStep(u: Unicode, files: seq<ParquetFile>, f: nat, g: nat, pages: seq<PageEntry>,
                  a: GroupIndex, b: GroupIndex, c: GroupIndex)
    requires FilesFit(files) && f < |files| && g < |files[f].groups| && PagesOf(files, f, g, pages)
    requires var rows := files[f].groups[g].rows;
      && (rows != [] ==> pages != [])
      && ExactGroup(u, rows, pages, |rows|, b.termDocIds, b.termDocFreq)
      && b.totalRows == |rows| && b.totalTokens == CountTokens(u, rows)
    requires MergedUpTo(u, files, f, g, a) && MapsMerged(a, b, c)
    ensures MergedUpTo(u, files, f, g + 1, c)
  {
    hide TermsMerged, PagesMerged, CountsMerged, TermsExact, PagesExact, CountsExact, ListsIncrease;
    assert c.termDocIds.Keys == c.termDocFreq.Keys by {
      forall t ensures t in c.termDocIds <==> t in c.termDocFreq {
        assert t in a.termDocIds.Keys <==> t in a.termDocFreq.Keys;
        assert t in b.termDocIds.Keys <==> t in b.termDocFreq.Keys;
      }
    }
    TermsMergeStep(u, files, f, g, a, b, c);
    PagesMergeStep(u, files, f, g, pages, a, b, c);
    CountsMergeStep(u, files, f, g, a, b, c);
  }

  lemma TermsMergeStep(u: Unicode, files: seq<ParquetFile>, f: nat, g: nat, a: GroupIndex, b: GroupIndex, c: GroupIndex)
    requires f < |files| && g < |files[f].groups|
    requires TermsMerged(u, files, f, g, a.termDocIds) && MapsMerged(a, b, c)
    requires TermsExact(u, files[f].groups[g].rows, |files[f].groups[g].rows|, b.termDocIds)
    ensures TermsMerged(u, files, f, g + 1, c.termDocIds)
  {
    hide HasToken, Postings, Count;
    var rows := files[f].groups[g].rows;
    forall t ensures t in c.termDocIds <==> TermBefore(u, files, f, g + 1, t) {
      if t in a.termDocIds {
        assert TermBefore(u, files, f, g, t);
        var x: RowRef :| ValidRow(files, x) && InGroupsBefore(x, f, g) && HasToken(u, RowAt(files, x), t);
        assert InGroupsBefore(x, f, g + 1);
      } else if t in b.termDocIds {
        var r :| 0 <= r < |rows| && HasToken(u, rows[r], t);
        assert ValidRow(files, RowRef(f, g, r)) && InGroupsBefore(RowRef(f, g, r), f, g + 1);
      } else {
        forall x: RowRef | ValidRow(files, x) && InGroupsBefore(x, f, g + 1)
          ensures !HasToken(u, RowAt(files, x), t)
        {
          if !InGroupsBefore(x, f, g) {
            assert x == RowRef(f, g, x.row) && RowAt(files, x) == rows[x.row];
          }
        }
      }
    }
  }

  lemma PagesMergeStep(u: Unicode, files: seq<ParquetFile>, f: nat, g: nat, pages: seq<PageEntry>,
                       a: GroupIndex, b: GroupIndex, c: GroupIndex)
    requires FilesFit(files) && f < |files| && g < |files[f].groups| && PagesOf(files, f, g, pages)
    requires PagesMerged(u, files, f, g, a.termDocIds) && MapsMerged(a, b, c)
    requires var rows := files[f].groups[g].rows;
      (rows != [] ==> pages != []) && PagesExact(u, rows, pages, |rows|, b.termDocIds)
    ensures PagesMerged(u, files, f, g + 1, c.termDocIds)
  {
    hide HasToken, Postings, Count, DocIdOfRow, FilesFit, PagesExact, PagesOf;
    forall t, d: DocId ensures d in Postings(c.termDocIds, t) <==> PageBefore(u, files, f, g + 1, t, d) {
      GroupPages(u, files, f, g, pages, b.termDocIds, t, d);
      PageBeforeStep(u, files, f, g, t, d);
      assert Postings(c.termDocIds, t) == Postings(a.termDocIds, t) + Postings(b.termDocIds, t);
      assert d in Postings(a.termDocIds, t) <==> PageBefore(u, files, f, g, t, d);
    }
  }

  lemma PageBeforeStep(u: Unicode, files: seq<ParquetFile>, f: nat, g: nat, t: string, d: int)
    requires FilesFit(files)
    ensures PageBefore(u, files, f, g + 1, t, d)
       <==> PageBefore(u, files, f, g, t, d)
            || exists x: RowRef :: x.file == f && x.group == g && ValidRow(files, x) && HasToken(u, RowAt(files, x), t)
                                   && DocIdOfRow(files, x) == d
  {
    hide HasToken, DocIdOfRow, FilesFit;
    forall x: RowRef ensures InGroupsBefore(x, f, g + 1) <==> InGroupsBefore(x, f, g) || (x.file == f && x.group == g) {}
  }

  lemma RowDocIdBound(files: seq<ParquetFile>, x: RowRef)
    requires FilesFit(files) && ValidRow(files, x)
    ensures DocIdOfRow(files, x) < PagesBefore(files, |files|, 0)
  {
    assert WellPaged(files[x.file].groups[x.group]);
    var p := PageHolding(files, x);
    DocIdOrder(files, p, p);
  }

  lemma CountsMergeStep(u: Unicode, files: seq<ParquetFile>, f: nat, g: nat, a: GroupIndex, b: GroupIndex, c: GroupIndex)
    requires f < |files| && g < |files[f].groups|
    requires CountsMerged(u, files, f, g, a.termDocFreq) && MapsMerged(a, b, c)
    requires CountsExact(u, files[f].groups[g].rows, |files[f].groups[g].rows|, b.termDocFreq)
    ensures CountsMerged(u, files, f, g + 1, c.termDocFreq)
  {
    hide CountRows, Count, Postings;
    var rows := files[f].groups[g].rows;
    assert rows[..|rows|] == rows;
  }

  lemma MergeNextFile(u: Unicode, files: seq<ParquetFile>, f: nat, a: GroupIndex)
    requires FilesFit(files) && f < |files| && MergedUpTo(u, files, f, |files[f].groups|, a)
    ensures MergedUpTo(u, files, f + 1, 0, a)
  {
    hide HasToken, DocIdOfRow, FilesFit, Postings, CountRows, Count, CountTokens;
    forall x: RowRef | ValidRow(files, x)
      ensures InGroupsBefore(x, f + 1, 0) <==> InGroupsBefore(x, f, |files[f].groups|)
    {}
    forall t ensures TermBefore(u, files, f + 1, 0, t) <==> TermBefore(u, files, f, |files[f].groups|, t) {}
    forall t, d: DocId ensures PageBefore(u, files, f + 1, 0, t, d) <==> PageBefore(u, files, f, |files[f].groups|, t, d) {}
  }

  // --- Sort, dedup, and the whole batch --------------------------------------------------

  function IdKey(d: DocId): int { d }

  function SortDedupIds(list: seq<DocId>): seq<DocId>
  {
    DedupByKey(SortByKey(list, IdKey), IdKey)
  }

  lemma SortDedupIdsCorrect(list: seq<DocId>)
    ensures StrictlyIncreasing(SortDedupIds(list))
    ensures forall d :: d in SortDedupIds(list) <==> d in list
  {
    SortDedup(list, IdKey);
    var r := SortDedupIds(list);
    forall i, j | 0 <= i < j < |r| ensures r[i] < r[j] {
      assert IdKey(r[i]) < IdKey(r[j]);
    }
    forall d: DocId | d in list ensures d in r {
      assert IdKey(d) in Keys(r, IdKey);
      var y :| y in r && IdKey(y) == IdKey(d);
    }
  }

  /** The final pass over the lists: sort and deduplicate each. */
  method DedupLists(ids: map<string, seq<DocId>>) returns (ids': map<string, seq<DocId>>)
    ensures ids'.Keys == ids.Keys && ListsIncrease(ids')
    ensures forall t, d: DocId :: d in Postings(ids', t) <==> d in Postings(ids, t)
  {
    hide SortDedupIds, StrictlyIncreasing;
    ids' := ids;
    var rest := ids.Keys;
    while rest != {}
      invariant rest <= ids.Keys && ids'.Keys == ids.Keys
      invariant forall t | t in rest :: ids'[t] == ids[t]
      invariant forall t | t in ids && t !in rest :: ids'[t] == SortDedupIds(ids[t])
      decreases |rest|
    {
      var t :| t in rest;
      ids' := ids'[t := SortDedupIds(ids'[t])];
      rest := rest - {t};
    }
    forall t | t in ids { SortDedupIdsCorrect(ids[t]); }
  }

  /** What the Parquet reader returns for each row group: its rows, in batches of any size. */
  ghost predicate ReadsRows(files: seq<ParquetFile>, read: (nat, nat) -> seq<seq<Option<string>>>)
  {
    forall f, g | 0 <= f < |files| && 0 <= g < |files[f].groups| :: Flatten(read(f, g)) == files[f].groups[g].rows
  }

  lemma GroupPagesFor(files: seq<ParquetFile>, f: nat, g: nat, pages: seq<PageEntry>)
    requires FilesFit(files) && f < |files| && g < |files[f].groups| && PagesOf(files, f, g, pages)
    ensures PagesFor(pages, files[f].groups[g].rows)
  {
    var group := files[f].groups[g];
    assert WellPaged(group);
    assert Starts(pages) == group.pageStarts;
    assert RowGroup(group.rows, Starts(pages)) == group;
  }

  lemma NothingMerged(u: Unicode, files: seq<ParquetFile>)
    requires FilesFit(files)
    ensures MergedUpTo(u, files, 0, 0, GroupIndex(map[], map[], 0, 0))
  {
    hide HasToken, DocIdOfRow, FilesFit;
  }

  /** Indexes every row group of a batch of files and merges the results. */
  method IndexFiles(u: Unicode, files: seq<ParquetFile>, inv: PageInventory,
                    read: (nat, nat) -> seq<seq<Option<string>>>) returns (index: GroupIndex)
    requires FilesFit(files) && InventoryOf(files, inv) && ReadsRows(files, read)
    ensures ExactIndex(u, files, index)
  {
    hide FilesFit, MergedUpTo, PagesFor, ExactGroup, MapsMerged;
    index := GroupIndex(map[], map[], 0, 0);
    NothingMerged(u, files);
    for f := 0 to |files|
      invariant MergedUpTo(u, files, f, 0, index)
    {
      for g := 0 to |files[f].groups|
        invariant MergedUpTo(u, files, f, g, index)
      {
        var pages := inv.pages[f][g];
        GroupPagesFor(files, f, g, pages);
        var group := IndexBatches(u, read(f, g), pages);
        var merged := MergeGroup(index, group);
        MergeStep(u, files, f, g, pages, index, group, merged);
        index := merged;
      }
      MergeNextFile(u, files, f, index);
    }
    var ids := DedupLists(index.termDocIds);
    DedupKeepsMerge(u, files, index, ids);
    index := index.(termDocIds := ids);
  }

  lemma DedupKeepsMerge(u: Unicode, files: seq<ParquetFile>, index: GroupIndex, ids: map<string, seq<DocId>>)
    requires FilesFit(files) && MergedUpTo(u, files, |files|, 0, index)
    requires ids.Keys == index.termDocIds.Keys
    requires forall t, d: DocId :: d in Postings(ids, t) <==> d in Postings(index.termDocIds, t)
    ensures MergedUpTo(u, files, |files|, 0, index.(termDocIds := ids))
  {
    hide FilesFit, TermBefore, PageBefore, Postings, CountsMerged;
    forall t ensures t in ids <==> TermBefore(u, files, |files|, 0, t) {
      assert t in ids.Keys <==> t in index.termDocIds.Keys;
    }
  }

  /** The merged index in plain terms: a page is listed under a term exactly when one
      of its rows has the term. */
  lemma IndexMeaning(u: Unicode, files: seq<ParquetFile>, index: GroupIndex, t: string, d: DocId)
    requires FilesFit(files) && ExactIndex(u, files, index)
    ensures d in Postings(index.termDocIds, t)
       <==> exists x: RowRef :: ValidRow(files, x) && HasToken(u, RowAt(files, x), t) && DocIdOfRow(files, x) == d
    ensures t in index.termDocIds <==> exists x: RowRef :: ValidRow(files, x) && HasToken(u, RowAt(files, x), t)
    ensures StrictlyIncreasing(Postings(index.termDocIds, t))
    ensures Count(index.termDocFreq, t) == RowsWithTerm(u, files, |files|, 0, t)
  {
    hide FilesFit, HasToken, DocIdOfRow, StrictlyIncreasing, Count, RowsWithTerm;
    forall x: RowRef | ValidRow(files, x) ensures InGroupsBefore(x, |files|, 0) {}
    assert d in Postings(index.termDocIds, t) <==> PageBefore(u, files, |files|, 0, t, d);
    assert t in index.termDocIds <==> TermBefore(u, files, |files|, 0, t);
    if t !in index.termDocIds { EmptyIncreasing(); }
  }
}

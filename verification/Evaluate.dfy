/** Segment evaluation: postings of the query terms combined, and candidates grouped
    by file and row group. */
module Evaluate {
  import opened Bytes
  import opened Types
  import opened Sorting
  import opened SegmentFormat
  import opened SegmentRead
  import opened BooleanOps

  datatype TermDf = TermDf(term: string, df: u32)

  datatype SegmentEvaluation = SegmentEvaluation(candidates: seq<DocId>, termInfos: seq<TermDf>)

  /** What the dictionary and the postings say about one query term. */
  datatype Hit = Hit(term: string, df: u32, ids: seq<DocId>)

  function Lookup(c: Codecs, r: SegmentReader, term: string): Result<Option<Hit>>
  {
    match TermOrdinal(r, term)
    case None => Ok(None)
    case Some(ordinal) =>
      var info :- TermInfoOf(r, ordinal);
      var ids :- PostingList(c, r, ordinal);
      Ok(Some(Hit(term, info.docFrequency, ids)))
  }

  /** The hits of the query terms in order; `None` when an AND meets a missing term,
      an error when a lookup before that fails. */
  function Lookups(c: Codecs, r: SegmentReader, terms: seq<string>, op: Operator): Result<Option<seq<Hit>>>
  {
    if terms == [] then Ok(Some([]))
    else
      var before :- Lookups(c, r, terms[..|terms| - 1], op);
      if before.None? then Ok(None)
      else
        var hit :- Lookup(c, r, terms[|terms| - 1]);
        match hit
        case Some(h) => Ok(Some(before.value + [h]))
        case None => if op.And? then Ok(None) else Ok(before)
  }

  /** Lookups that end early, end early for every longer query. */
  lemma {:induction false} LookupsStop(c: Codecs, r: SegmentReader, terms: seq<string>, op: Operator, k: nat)
    requires k <= |terms|
    ensures var stop := Lookups(c, r, terms[..k], op);
      stop.Err? || stop == Ok(None) ==> Lookups(c, r, terms, op) == stop
    decreases |terms|
  {
    hide Lookup;
    if k < |terms| {
      LookupsStop(c, r, terms[..|terms| - 1], op, k);
      assert terms[..|terms| - 1][..k] == terms[..k];
    } else {
      assert terms[..k] == terms;
    }
  }

  ghost predicate PostingsIncrease(c: Codecs, r: SegmentReader)
  {
    forall ordinal: u64 :: PostingList(c, r, ordinal).Ok? ==> StrictlyIncreasing(PostingList(c, r, ordinal).value)
  }

  ghost predicate HitsIncrease(hits: seq<Hit>)
  {
    forall h | h in hits :: StrictlyIncreasing(h.ids)
  }

  /** `d` is a page of all hits, or of some hit. */
  ghost predicate Combined(hits: seq<Hit>, op: Operator, d: DocId)
  {
    match op
    case And => hits != [] && forall h | h in hits :: d in h.ids
    case Or => exists h :: h in hits && d in h.ids
  }

  function TermInfos(hits: seq<Hit>): seq<TermDf>
  {
    seq(|hits|, i requires 0 <= i < |hits| => TermDf(hits[i].term, hits[i].df))
  }

  /** `Vec::swap_remove(0)`: the last element takes the first one's place. */
  function SwapRemoveFirst(hits: seq<Hit>): (rest: seq<Hit>)
    requires hits != []
    ensures |rest| == |hits| - 1
    ensures forall h :: h in hits <==> h == hits[0] || h in rest
  {
    if |hits| == 1 then []
    else
      var last := |hits| - 1;
      assert hits == [hits[0]] + hits[1..last] + [hits[last]];
      [hits[last]] + hits[1..last]
  }

  function HitDf(h: Hit): int { h.df }

  /** Sorting by frequency, swap-removing and folding yields the set combination of
      the hits, whatever their order and however often a term repeats. */
  method CombineHits(hits: seq<Hit>, op: Operator) returns (combined: seq<DocId>)
    requires hits != [] && HitsIncrease(hits)
    ensures StrictlyIncreasing(combined)
    ensures forall d :: d in combined <==> Combined(hits, op, d)
  {
    hide StrictlyIncreasing;
    var entries := hits;
    if op.And? {
      KeyLeqIsPreorder(HitDf);
      SortCorrect(hits, KeyLeq(HitDf));
      entries := SortByKey(hits, HitDf);
    }
    assert forall h :: h in entries <==> h in hits;
    var first := entries[0];
    var rest := SwapRemoveFirst(entries);
    assert first in entries;
    combined := first.ids;
    for i := 0 to |rest|
      invariant StrictlyIncreasing(combined)
      invariant forall d :: d in combined <==> Folded(first, rest, op, i, d)
    {
      assert rest[i] in entries;
      forall d ensures Folded(first, rest, op, i + 1, d)
        <==> if op.And? then Folded(first, rest, op, i, d) && d in rest[i].ids
             else Folded(first, rest, op, i, d) || d in rest[i].ids
      {}
      match op {
        case And => combined := Intersect(combined, rest[i].ids);
        case Or => combined := Union(combined, rest[i].ids);
      }
    }
    forall d ensures d in combined <==> Combined(hits, op, d) {
      CombinedIs(hits, op, first, rest, d);
    }
  }

  ghost predicate Folded(first: Hit, rest: seq<Hit>, op: Operator, n: nat, d: DocId)
    requires n <= |rest|
  {
    match op
    case And => d in first.ids && forall k | 0 <= k < n :: d in rest[k].ids
    case Or => d in first.ids || exists k :: 0 <= k < n && d in rest[k].ids
  }

  lemma CombinedIs(hits: seq<Hit>, op: Operator, first: Hit, rest: seq<Hit>, d: DocId)
    requires hits != [] && forall h :: h in hits <==> h == first || h in rest
    ensures Combined(hits, op, d) <==> Folded(first, rest, op, |rest|, d)
  {
    assert first in hits;
    forall k | 0 <= k < |rest| ensures rest[k] in hits { assert rest[k] in rest; }
  }

  /** `evaluate_segment`. */
  method EvaluateSegment(c: Codecs, r: SegmentReader, queryTerms: seq<string>, op: Operator)
    returns (result: Result<SegmentEvaluation>)
    requires PostingsIncrease(c, r)
    ensures match Lookups(c, r, queryTerms, op)
            case Err(e) => result == Err(e)
            case Ok(None) => result == Ok(SegmentEvaluation([], []))
            case Ok(Some(hits)) =>
              && result.Ok?
              && result.value.termInfos == TermInfos(hits)
              && StrictlyIncreasing(result.value.candidates)
              && forall d :: d in result.value.candidates <==> Combined(hits, op, d)
  {
    hide PostingList, TermInfoOf, TermOrdinal, StrictlyIncreasing;
    var entries: seq<Hit> := [];
    var termInfos: seq<TermDf> := [];
    for i := 0 to |queryTerms|
      invariant Lookups(c, r, queryTerms[..i], op) == Ok(Some(entries))
      invariant HitsIncrease(entries)
      invariant termInfos == TermInfos(entries)
    {
      var term := queryTerms[i];
      assert queryTerms[..i + 1][..i] == queryTerms[..i];
      LookupsStop(c, r, queryTerms, op, i + 1);
      match TermOrdinal(r, term) {
        case Some(ordinal) =>
          var info := TermInfoOf(r, ordinal);
          if info.Err? { return Err(info.error); }
          var postings := PostingList(c, r, ordinal);
          if postings.Err? { return Err(postings.error); }
          termInfos := termInfos + [TermDf(term, info.value.docFrequency)];
          entries := entries + [Hit(term, info.value.docFrequency, postings.value)];
        case None =>
          if op.And? {
            return Ok(SegmentEvaluation([], []));
          }
      }
    }
    assert queryTerms[..|queryTerms|] == queryTerms;
    if entries == [] {
      EmptyIncreases();
      return Ok(SegmentEvaluation([], termInfos));
    }
    var combined := CombineHits(entries, op);
    return Ok(SegmentEvaluation(combined, termInfos));
  }

  lemma EmptyIncreases()
    ensures StrictlyIncreasing([])
  {}

  // --- Grouping ----------------------------------------------------------------------

  datatype GroupKey = GroupKey(file: u32, group: u16)

  datatype IndexedWorkItem = IndexedWorkItem(
    filePath: string, rgIdx: u16, entries: seq<DocTableEntry>, termInfos: seq<TermDf>, stats: CorpusStats)

  function KeyOf(e: DocTableEntry): GroupKey { GroupKey(e.fileOrdinal, e.rowGroup) }

  /** The lexicographic order of (file ordinal, row group). */
  function KeyRank(k: GroupKey): int { k.file * 0x1_0000 + k.group }

  function FirstRow(e: DocTableEntry): int { e.firstRowIndex }

  /** The doc table entries of the candidates; ids outside the table are skipped. */
  function EntriesOf(docTable: seq<DocTableEntry>, candidates: seq<DocId>): seq<DocTableEntry>
  {
    if candidates == [] then []
    else
      var d := candidates[|candidates| - 1];
      EntriesOf(docTable, candidates[..|candidates| - 1]) + (if d < |docTable| then [docTable[d]] else [])
  }

  lemma {:induction false} EntriesMembers(docTable: seq<DocTableEntry>, candidates: seq<DocId>)
    ensures forall e :: e in EntriesOf(docTable, candidates)
                   <==> exists d :: d in candidates && d < |docTable| && docTable[d] == e
  {
    if candidates != [] {
      var rest, last := candidates[..|candidates| - 1], candidates[|candidates| - 1];
      EntriesMembers(docTable, rest);
      assert candidates == rest + [last];
    }
  }

  /** The entries of one group, in row order and without duplicates. */
  function RowOrder(entries: seq<DocTableEntry>): seq<DocTableEntry>
  {
    DedupByKey(SortByKey(entries, FirstRow), FirstRow)
  }

  /** `groups` splits `entries` by key. */
  ghost predicate Grouped(entries: seq<DocTableEntry>, groups: map<GroupKey, seq<DocTableEntry>>)
  {
    && (forall k | k in groups :: groups[k] != [])
    && (forall k, e :: (k in groups && e in groups[k]) <==> (e in entries && KeyOf(e) == k))
  }

  lemma GroupedStep(entries: seq<DocTableEntry>, groups: map<GroupKey, seq<DocTableEntry>>, e: DocTableEntry)
    requires Grouped(entries, groups)
    ensures var k := KeyOf(e);
      Grouped(entries + [e], groups[k := (if k in groups then groups[k] else []) + [e]])
  {}

  /** The loop that files each candidate's entry under its key. */
  method CollectGroups(docTable: seq<DocTableEntry>, candidates: seq<DocId>)
    returns (groups: map<GroupKey, seq<DocTableEntry>>)
    ensures Grouped(EntriesOf(docTable, candidates), groups)
  {
    hide Grouped, KeyOf;
    groups := map[];
    assert Grouped([], groups) by { NoGroups(); }
    for i := 0 to |candidates|
      invariant Grouped(EntriesOf(docTable, candidates[..i]), groups)
    {
      var d := candidates[i];
      assert candidates[..i + 1][..i] == candidates[..i];
      ghost var before := EntriesOf(docTable, candidates[..i]);
      if d < |docTable| {
        var e := docTable[d];
        var k := KeyOf(e);
        GroupedStep(before, groups, e);
        groups := groups[k := (if k in groups then groups[k] else []) + [e]];
      } else {
        assert before + [] == before;
      }
    }
    assert candidates[..|candidates|] == candidates;
  }

  lemma NoGroups()
    ensures Grouped([], map[])
  {}

  /** The keys of an ordered map, in order. */
  method OrderedKeys(keys: set<GroupKey>) returns (s: seq<GroupKey>)
    ensures KeysIncrease(s, KeyRank)
    ensures forall k :: k in s <==> k in keys
  {
    var list: seq<GroupKey> := [];
    var rest := keys;
    while rest != {}
      invariant rest <= keys
      invariant forall k :: k in list <==> k in keys - rest
      decreases |rest|
    {
      var k :| k in rest;
      list := list + [k];
      rest := rest - {k};
    }
    s := DedupByKey(SortByKey(list, KeyRank), KeyRank);
    SortDedup(list, KeyRank);
    forall k | k in list ensures k in s {
      assert KeyRank(k) in Keys(s, KeyRank);
      var k' :| k' in s && KeyRank(k') == KeyRank(k);
      assert k' == k;
    }
  }

  /** One work item per group: its entries are the group's pages, in row order, each
      first row once. */
  ghost predicate ItemFor(fileTable: seq<FileTableEntry>, entries: seq<DocTableEntry>, k: GroupKey, item: IndexedWorkItem)
  {
    && k.file < |fileTable| && item.filePath == fileTable[k.file].path
    && item.rgIdx == k.group
    && KeysIncrease(item.entries, FirstRow)
    && (forall e | e in item.entries :: e in entries && KeyOf(e) == k)
    && (forall e | e in entries && KeyOf(e) == k :: FirstRow(e) in Keys(item.entries, FirstRow))
  }

  /** The items are for exactly the row groups `keys` that have an entry, in their order. */
  ghost predicate ItemsFor(fileTable: seq<FileTableEntry>, entries: seq<DocTableEntry>, keys: seq<GroupKey>,
                           items: seq<IndexedWorkItem>)
  {
    && |keys| == |items| && KeysIncrease(keys, KeyRank)
    && (forall k :: k in keys <==> exists e :: e in entries && KeyOf(e) == k)
    && forall i | 0 <= i < |items| :: ItemFor(fileTable, entries, keys[i], items[i])
  }

  /** `group_candidates`: one item per (file, row group) that has a candidate, in order. */
  method GroupCandidates(r: SegmentReader, candidates: seq<DocId>, termInfos: seq<TermDf>) returns (items: seq<IndexedWorkItem>)
    requires forall e | e in EntriesOf(r.docTable, candidates) :: e.fileOrdinal < |r.fileTable|
    ensures exists keys :: ItemsFor(r.fileTable, EntriesOf(r.docTable, candidates), keys, items)
    ensures forall i | 0 <= i < |items| :: items[i].termInfos == termInfos && items[i].stats == r.stats
  {
    ghost var entries := EntriesOf(r.docTable, candidates);
    var groups := CollectGroups(r.docTable, candidates);
    var order := OrderedKeys(groups.Keys);
    GroupKeys(entries, groups);
    items := [];
    for i := 0 to |order|
      invariant |items| == i
      invariant forall k | 0 <= k < i :: ItemFor(r.fileTable, entries, order[k], items[k])
      invariant forall k | 0 <= k < i :: items[k].termInfos == termInfos && items[k].stats == r.stats
    {
      var k := order[i];
      assert k in groups.Keys;
      GroupItem(r.fileTable, entries, groups, k);
      items := items + [IndexedWorkItem(r.fileTable[k.file].path, k.group, RowOrder(groups[k]), termInfos, r.stats)];
      assert ItemFor(r.fileTable, entries, k, items[i]);
    }
    assert ItemsFor(r.fileTable, entries, order, items);
  }

  lemma GroupKeys(entries: seq<DocTableEntry>, groups: map<GroupKey, seq<DocTableEntry>>)
    requires Grouped(entries, groups)
    ensures forall k :: k in groups <==> exists e :: e in entries && KeyOf(e) == k
  {
    forall k | k in groups ensures exists e :: e in entries && KeyOf(e) == k {
      var e := groups[k][0];
      assert e in groups[k];
      assert e in entries && KeyOf(e) == k;
    }
  }

  lemma GroupItem(fileTable: seq<FileTableEntry>, entries: seq<DocTableEntry>, groups: map<GroupKey, seq<DocTableEntry>>,
                  k: GroupKey)
    requires Grouped(entries, groups) && k in groups
    requires forall e | e in entries :: e.fileOrdinal < |fileTable|
    ensures k.file < |fileTable|
    ensures KeysIncrease(RowOrder(groups[k]), FirstRow)
    ensures forall e | e in RowOrder(groups[k]) :: e in entries && KeyOf(e) == k
    ensures forall e | e in entries && KeyOf(e) == k :: FirstRow(e) in Keys(RowOrder(groups[k]), FirstRow)
  {
    SortDedup(groups[k], FirstRow);
    var first := groups[k][0];
    assert first in groups[k];
    assert first in entries && KeyOf(first) == k;
  }

  /** The work items are in the order of files and row groups. */
  lemma ItemOrder(fileTable: seq<FileTableEntry>, entries: seq<DocTableEntry>, keys: seq<GroupKey>, items: seq<IndexedWorkItem>,
                  i: nat, j: nat)
    requires ItemsFor(fileTable, entries, keys, items) && i < j < |keys|
    ensures keys[i].file < keys[j].file || (keys[i].file == keys[j].file && keys[i].group < keys[j].group)
  {
    hide ItemFor;
    assert KeyRank(keys[i]) < KeyRank(keys[j]);
  }

  /** When pages of one row group start at different rows, grouping neither loses nor
      invents a page. */
  lemma GroupingIsExact(fileTable: seq<FileTableEntry>, entries: seq<DocTableEntry>, k: GroupKey, item: IndexedWorkItem)
    requires ItemFor(fileTable, entries, k, item)
    requires forall e, e' | e in entries && e' in entries && KeyOf(e) == KeyOf(e') && FirstRow(e) == FirstRow(e') :: e == e'
    ensures forall e :: e in item.entries <==> e in entries && KeyOf(e) == k
  {
    forall e | e in entries && KeyOf(e) == k ensures e in item.entries {
      var e' :| e' in item.entries && FirstRow(e') == FirstRow(e);
    }
  }
}

/** Batch indexing: per-row-group posting lists, and their merge. */
module Indexer {
  import opened Types
  import opened Tokenizer
  import opened ParquetUtil

  // --- What an index should say -----------------------------------------------

  /** The row is not null and one of its tokens is `t`. */
  predicate HasToken(u: Unicode, row: Option<string>, t: string)
  {
    row.Some? && t in Tokenize(u, row.value)
  }

  function RowTokens(u: Unicode, row: Option<string>): seq<string>
  {
    if row.Some? then Tokenize(u, row.value) else []
  }

  /** The number of rows that contain `t`. */
  function CountRows(u: Unicode, rows: seq<Option<string>>, t: string): nat
  {
    if rows == [] then 0
    else CountRows(u, rows[..|rows| - 1], t) + (if HasToken(u, rows[|rows| - 1], t) then 1 else 0)
  }

  function CountTokens(u: Unicode, rows: seq<Option<string>>): nat
  {
    if rows == [] then 0
    else CountTokens(u, rows[..|rows| - 1]) + |RowTokens(u, rows[|rows| - 1])|
  }

  function Starts(pages: seq<PageEntry>): (s: seq<nat>)
    ensures |s| == |pages|
  {
    seq(|pages|, i requires 0 <= i < |pages| => pages[i].firstRowIndex)
  }

  /** `RowGroupPages::doc_id_for_row`. */
  function DocIdForRow(pages: seq<PageEntry>, row: nat): DocId
    requires pages != []
  {
    pages[PageOfRow(Starts(pages), row)].docId
  }

  ghost predicate PagesFor(pages: seq<PageEntry>, rows: seq<Option<string>>)
  {
    && WellPaged(RowGroup(rows, Starts(pages)))
    && (forall i, j | 0 <= i < j < |pages| :: pages[i].docId < pages[j].docId)
  }

  function Count(freq: map<string, nat>, t: string): nat
  {
    if t in freq then freq[t] else 0
  }

  function Postings(ids: map<string, seq<DocId>>, t: string): seq<DocId>
  {
    if t in ids then ids[t] else []
  }

  datatype GroupIndex = GroupIndex(
    termDocIds: map<string, seq<DocId>>, termDocFreq: map<string, nat>, totalRows: nat, totalTokens: nat)

  ghost predicate TermsExact(u: Unicode, rows: seq<Option<string>>, n: nat, ids: map<string, seq<DocId>>)
    requires n <= |rows|
  {
    forall t :: t in ids <==> exists r :: 0 <= r < n && HasToken(u, rows[r], t)
  }

  ghost predicate ListsIncrease(ids: map<string, seq<DocId>>)
  {
    forall t | t in ids :: StrictlyIncreasing(ids[t])
  }

  ghost predicate PageHasTerm(u: Unicode, rows: seq<Option<string>>, pages: seq<PageEntry>, n: nat, t: string, d: DocId)
    requires n <= |rows| && (rows != [] ==> pages != [])
  {
    exists r :: 0 <= r < n && HasToken(u, rows[r], t) && DocIdForRow(pages, r) == d
  }

  ghost predicate PagesExact(u: Unicode, rows: seq<Option<string>>, pages: seq<PageEntry>, n: nat,
                             ids: map<string, seq<DocId>>)
    requires n <= |rows| && (rows != [] ==> pages != [])
  {
    forall t, d :: d in Postings(ids, t) <==> PageHasTerm(u, rows, pages, n, t, d)
  }

  ghost predicate CountsExact(u: Unicode, rows: seq<Option<string>>, n: nat, freq: map<string, nat>)
    requires n <= |rows|
  {
    forall t :: Count(freq, t) == CountRows(u, rows[..n], t)
  }

  /** The first `n` rows of a row group are indexed exactly: each term's list is the
      strictly increasing list of the pages that hold one of its rows, and its
      frequency is the number of those rows. */
  ghost predicate ExactGroup(u: Unicode, rows: seq<Option<string>>, pages: seq<PageEntry>, n: nat,
                             ids: map<string, seq<DocId>>, freq: map<string, nat>)
    requires n <= |rows| && (rows != [] ==> pages != [])
  {
    && TermsExact(u, rows, n, ids)
    && ids.Keys == freq.Keys
    && ListsIncrease(ids)
    && PagesExact(u, rows, pages, n, ids)
    && CountsExact(u, rows, n, freq)
  }

  // --- index_batches -----------------------------------------------------------

  function PushIf(push: bool, list: seq<DocId>, d: DocId): seq<DocId> { if push then list + [d] else list }

  function Distinct(tokens: seq<string>): set<string> { set t | t in tokens }

  /** `ids'` extends `ids` by page `d` for the given terms where (term, page) is new. */
  ghost predicate PageRecorded(terms: set<string>, d: DocId, ids: map<string, seq<DocId>>, seen: set<(string, DocId)>,
                               ids': map<string, seq<DocId>>, seen': set<(string, DocId)>)
  {
    && (forall t :: t in ids' <==> t in ids || (t in terms && (t, d) !in seen))
    && (forall t :: Postings(ids', t) == PushIf(t in terms && (t, d) !in seen, Postings(ids, t), d))
    && (forall t, e :: (t, e) in seen' <==> (t, e) in seen || (t in terms && e == d))
  }

  /** `freq'` counts one more row for each of the given terms. */
  ghost predicate RowCounted(terms: set<string>, freq: map<string, nat>, freq': map<string, nat>)
  {
    && (forall t :: t in freq' <==> t in freq || t in terms)
    && (forall t :: Count(freq', t) == Count(freq, t) + (if t in terms then 1 else 0))
  }

  lemma PageSeen(terms: set<string>, token: string, d: DocId,
                 ids: map<string, seq<DocId>>, seen: set<(string, DocId)>,
                 ids': map<string, seq<DocId>>, seen': set<(string, DocId)>)
    requires PageRecorded(terms, d, ids, seen, ids', seen') && (token, d) in seen'
    ensures PageRecorded(terms + {token}, d, ids, seen, ids', seen')
  {
    hide Postings;
  }

  lemma PageUnseen(terms: set<string>, token: string, d: DocId,
                   ids: map<string, seq<DocId>>, seen: set<(string, DocId)>,
                   ids': map<string, seq<DocId>>, seen': set<(string, DocId)>)
    requires PageRecorded(terms, d, ids, seen, ids', seen') && (token, d) !in seen'
    ensures PageRecorded(terms + {token}, d, ids, seen,
                         ids'[token := Postings(ids', token) + [d]], seen' + {(token, d)})
  {
    var ids'' := ids'[token := Postings(ids', token) + [d]];
    assert forall t :: Postings(ids'', t) == if t == token then Postings(ids', token) + [d] else Postings(ids', t);
    hide Postings;
  }

  lemma DistinctStep(tokens: seq<string>, i: nat)
    requires i < |tokens|
    ensures Distinct(tokens[..i + 1]) == Distinct(tokens[..i]) + {tokens[i]}
  {
    assert tokens[..i + 1] == tokens[..i] + [tokens[i]];
  }

  lemma RowCountedStep(terms: set<string>, token: string, freq: map<string, nat>, freq': map<string, nat>)
    requires RowCounted(terms, freq, freq') && token !in terms
    ensures RowCounted(terms + {token}, freq, freq'[token := Count(freq', token) + 1])
  {}

  /** The token loop of one row: pushes the row's page once per term not yet seen in
      that page, and counts the row once per term. */
  method IndexRow(tokens: seq<string>, docId: DocId, ids: map<string, seq<DocId>>, freq: map<string, nat>,
                  seen: set<(string, DocId)>)
    returns (ids': map<string, seq<DocId>>, freq': map<string, nat>, seen': set<(string, DocId)>)
    ensures PageRecorded(Distinct(tokens), docId, ids, seen, ids', seen')
    ensures RowCounted(Distinct(tokens), freq, freq')
  {
    ids', freq', seen' := ids, freq, seen;
    var seenInRow: set<string> := {};
    assert PageRecorded({}, docId, ids, seen, ids', seen');
    assert RowCounted({}, freq, freq');
    assert Distinct(tokens[..0]) == {};
    hide PageRecorded, Postings, RowCounted, Count, PushIf, Distinct;
    for i := 0 to |tokens|
      invariant seenInRow == Distinct(tokens[..i])
      invariant PageRecorded(seenInRow, docId, ids, seen, ids', seen')
      invariant RowCounted(seenInRow, freq, freq')
    {
      var token := tokens[i];
      DistinctStep(tokens, i);
      if (token, docId) in seen' {
        PageSeen(seenInRow, token, docId, ids, seen, ids', seen');
      } else {
        PageUnseen(seenInRow, token, docId, ids, seen, ids', seen');
        seen' := seen' + {(token, docId)};
        ids' := ids'[token := Postings(ids', token) + [docId]];
      }
      ghost var terms := seenInRow + {token};
      if token !in seenInRow {
        RowCountedStep(seenInRow, token, freq, freq');
        seenInRow := seenInRow + {token};
        freq' := freq'[token := Count(freq', token) + 1];
      }
      assert seenInRow == terms;
    }
    assert tokens[..|tokens|] == tokens;
  }

  /** The page of a later row is not an earlier page. */
  lemma LaterRowLaterPage(pages: seq<PageEntry>, rows: seq<Option<string>>, r: nat, r': nat)
    requires PagesFor(pages, rows) && r <= r' < |rows|
    ensures pages != [] && DocIdForRow(pages, r) <= DocIdForRow(pages, r')
  {
    var g := RowGroup(rows, Starts(pages));
    PageHoldsRow(g, r, PageOfRow(g.pageStarts, r));
    PageHoldsRow(g, r', PageOfRow(g.pageStarts, r'));
  }

  /** The sequential page pointer stops at the page the binary search would pick. */
  lemma PointerIsPage(pages: seq<PageEntry>, rows: seq<Option<string>>, row: nat, cur: nat)
    requires PagesFor(pages, rows) && row < |rows| && cur < |pages|
    requires pages[cur].firstRowIndex <= row
    requires cur + 1 < |pages| ==> pages[cur + 1].firstRowIndex > row
    ensures cur == PageOfRow(Starts(pages), row)
  {
    PageHoldsRow(RowGroup(rows, Starts(pages)), row, cur);
  }

  /** What indexing row `n` does to the maps. */
  ghost predicate RowAdded(u: Unicode, row: Option<string>, d: DocId,
                           ids: map<string, seq<DocId>>, freq: map<string, nat>,
                           ids': map<string, seq<DocId>>, freq': map<string, nat>)
  {
    && (forall t :: t in ids' <==> t in ids || HasToken(u, row, t))
    && (forall t :: Postings(ids', t) == PushIf(HasToken(u, row, t) && d !in Postings(ids, t), Postings(ids, t), d))
    && (forall t :: t in freq' <==> t in freq || HasToken(u, row, t))
    && (forall t :: Count(freq', t) == Count(freq, t) + (if HasToken(u, row, t) then 1 else 0))
  }

  lemma StillIncreasing(u: Unicode, rows: seq<Option<string>>, pages: seq<PageEntry>, n: nat, t: string,
                        list: seq<DocId>)
    requires n < |rows| && PagesFor(pages, rows) && pages != []
    requires StrictlyIncreasing(list) && DocIdForRow(pages, n) !in list
    requires forall d | d in list :: PageHasTerm(u, rows, pages, n, t, d)
    ensures StrictlyIncreasing(list + [DocIdForRow(pages, n)])
  {
    hide HasToken, DocIdForRow, PagesFor;
    var d := DocIdForRow(pages, n);
    forall e | e in list ensures e < d {
      var r :| 0 <= r < n && HasToken(u, rows[r], t) && DocIdForRow(pages, r) == e;
      LaterRowLaterPage(pages, rows, r, n);
    }
    ConcatIncreasing(list, [d]);
  }

  /** One more row keeps the row-group index exact. */
  lemma ExactGroupStep(u: Unicode, rows: seq<Option<string>>, pages: seq<PageEntry>, n: nat,
                       ids: map<string, seq<DocId>>, freq: map<string, nat>,
                       ids': map<string, seq<DocId>>, freq': map<string, nat>)
    requires n < |rows| && PagesFor(pages, rows) && pages != []
    requires ExactGroup(u, rows, pages, n, ids, freq)
    requires RowAdded(u, rows[n], DocIdForRow(pages, n), ids, freq, ids', freq')
    ensures ExactGroup(u, rows, pages, n + 1, ids', freq')
  {
    hide HasToken, DocIdForRow, PagesFor, TermsExact, ListsIncrease, PagesExact, CountsExact, RowAdded;
    TermsStep(u, rows, n, DocIdForRow(pages, n), ids, freq, ids', freq');
    ListsStep(u, rows, pages, n, ids, freq, ids', freq');
    PagesStep(u, rows, pages, n, ids, freq, ids', freq');
    CountsStep(u, rows, n, DocIdForRow(pages, n), ids, freq, ids', freq');
  }

  lemma TermsStep(u: Unicode, rows: seq<Option<string>>, n: nat, d: DocId,
                  ids: map<string, seq<DocId>>, freq: map<string, nat>,
                  ids': map<string, seq<DocId>>, freq': map<string, nat>)
    requires n < |rows| && TermsExact(u, rows, n, ids) && ids.Keys == freq.Keys
    requires RowAdded(u, rows[n], d, ids, freq, ids', freq')
    ensures TermsExact(u, rows, n + 1, ids') && ids'.Keys == freq'.Keys
  {
    hide HasToken;
    forall t ensures t in ids' <==> t in freq' {
      assert t in ids <==> t in ids.Keys;
      assert t in freq <==> t in freq.Keys;
    }
    forall t ensures t in ids' <==> exists r :: 0 <= r < n + 1 && HasToken(u, rows[r], t) {
      if HasToken(u, rows[n], t) { assert t in ids'; }
    }
  }

  lemma CountsStep(u: Unicode, rows: seq<Option<string>>, n: nat, d: DocId,
                   ids: map<string, seq<DocId>>, freq: map<string, nat>,
                   ids': map<string, seq<DocId>>, freq': map<string, nat>)
    requires n < |rows| && CountsExact(u, rows, n, freq)
    requires RowAdded(u, rows[n], d, ids, freq, ids', freq')
    ensures CountsExact(u, rows, n + 1, freq')
  {
    hide HasToken;
    assert rows[..n + 1][..n] == rows[..n];
  }

  lemma ListsStep(u: Unicode, rows: seq<Option<string>>, pages: seq<PageEntry>, n: nat,
                  ids: map<string, seq<DocId>>, freq: map<string, nat>,
                  ids': map<string, seq<DocId>>, freq': map<string, nat>)
    requires n < |rows| && PagesFor(pages, rows) && pages != []
    requires ListsIncrease(ids) && PagesExact(u, rows, pages, n, ids)
    requires RowAdded(u, rows[n], DocIdForRow(pages, n), ids, freq, ids', freq')
    ensures ListsIncrease(ids')
  {
    hide HasToken, DocIdForRow, PagesFor, PageHasTerm, StrictlyIncreasing;
    forall t | t in ids' ensures StrictlyIncreasing(ids'[t]) {
      assert ids'[t] == Postings(ids', t);
      var list := Postings(ids, t);
      assert StrictlyIncreasing(list) by { if t !in ids { EmptyIncreasing(); } }
      if HasToken(u, rows[n], t) && DocIdForRow(pages, n) !in list {
        StillIncreasing(u, rows, pages, n, t, list);
      }
    }
  }

  lemma PagesStep(u: Unicode, rows: seq<Option<string>>, pages: seq<PageEntry>, n: nat,
                  ids: map<string, seq<DocId>>, freq: map<string, nat>,
                  ids': map<string, seq<DocId>>, freq': map<string, nat>)
    requires n < |rows| && pages != [] && PagesExact(u, rows, pages, n, ids)
    requires RowAdded(u, rows[n], DocIdForRow(pages, n), ids, freq, ids', freq')
    ensures PagesExact(u, rows, pages, n + 1, ids')
  {
    hide HasToken, DocIdForRow, PageHasTerm, Postings, PushIf;
    forall t, d ensures d in Postings(ids', t) <==> PageHasTerm(u, rows, pages, n + 1, t, d) {
      PageHasTermStep(u, rows, pages, n, t, d);
      PushMember(HasToken(u, rows[n], t), Postings(ids, t), DocIdForRow(pages, n), d);
    }
  }

  lemma PushMember(has: bool, list: seq<DocId>, d: DocId, e: DocId)
    ensures e in PushIf(has && d !in list, list, d) <==> e in list || (has && d == e)
  {}

  lemma PageHasTermStep(u: Unicode, rows: seq<Option<string>>, pages: seq<PageEntry>, n: nat, t: string, d: DocId)
    requires n < |rows| && pages != []
    ensures PageHasTerm(u, rows, pages, n + 1, t, d)
       <==> PageHasTerm(u, rows, pages, n, t, d) || (HasToken(u, rows[n], t) && DocIdForRow(pages, n) == d)
  {
    hide HasToken, DocIdForRow;
  }

  lemma EmptyIncreasing()
    ensures StrictlyIncreasing([])
  {}

  /** The variables of the row loop. */
  datatype Progress = Progress(ids: map<string, seq<DocId>>, freq: map<string, nat>, seen: set<(string, DocId)>,
                               totalTokens: nat, row: nat, page: nat)

  /** A (term, page) pair has been seen when the page is in the term's list. */
  ghost predicate SeenAgrees(seen: set<(string, DocId)>, ids: map<string, seq<DocId>>)
  {
    forall t, d :: (t, d) in seen <==> d in Postings(ids, t)
  }

  ghost predicate Consistent(u: Unicode, rows: seq<Option<string>>, pages: seq<PageEntry>, p: Progress)
  {
    && p.row <= |rows| && (rows != [] ==> pages != [])
    && (pages != [] ==> p.page < |pages| && pages[p.page].firstRowIndex <= p.row)
    && ExactGroup(u, rows, pages, p.row, p.ids, p.freq)
    && SeenAgrees(p.seen, p.ids)
    && p.totalTokens == CountTokens(u, rows[..p.row])
  }

  /** The sequential page pointer, which finds the page the binary search would. */
  method AdvancePage(pages: seq<PageEntry>, ghost rows: seq<Option<string>>, row: nat, page: nat) returns (page': nat)
    requires PagesFor(pages, rows) && row < |rows|
    requires page < |pages| && pages[page].firstRowIndex <= row
    ensures page' < |pages| && pages[page'].firstRowIndex <= row
    ensures pages[page'].docId == DocIdForRow(pages, row)
  {
    hide PageOfRow, PagesFor;
    page' := page;
    while page' + 1 < |pages| && pages[page' + 1].firstRowIndex <= row
      invariant page' < |pages| && pages[page'].firstRowIndex <= row
    {
      page' := page' + 1;
    }
    PointerIsPage(pages, rows, row, page');
  }

  /** The body of the row loop. */
  method IndexOneRow(u: Unicode, ghost rows: seq<Option<string>>, row: Option<string>, pages: seq<PageEntry>, p: Progress)
    returns (p': Progress)
    requires Consistent(u, rows, pages, p) && PagesFor(pages, rows)
    requires p.row < |rows| && rows[p.row] == row
    ensures Consistent(u, rows, pages, p') && p'.row == p.row + 1
  {
    hide Tokenize, ExactGroup, HasToken, PagesFor, CountRows, DocIdForRow, RowAdded, PageRecorded, RowCounted, SeenAgrees;
    var page := AdvancePage(pages, rows, p.row, p.page);
    var docId := pages[page].docId;
    var tokens := [];
    var ids', freq', seen' := p.ids, p.freq, p.seen;
    NothingRecorded(docId, p.ids, p.freq, p.seen);
    if row.Some? {
      tokens := TokenizeLoop(u, row.value);
      ids', freq', seen' := IndexRow(tokens, docId, ids', freq', seen');
    }
    assert forall t :: HasToken(u, row, t) <==> t in Distinct(tokens) by { HasTokenOf(u, row); }
    assert row.None? ==> Distinct(tokens) == {};
    RecordedIsAdded(u, row, Distinct(tokens), docId, p.ids, p.freq, p.seen, ids', freq', seen');
    ExactGroupStep(u, rows, pages, p.row, p.ids, p.freq, ids', freq');
    assert rows[..p.row + 1][..p.row] == rows[..p.row];
    p' := Progress(ids', freq', seen', p.totalTokens + |tokens|, p.row + 1, page);
  }

  lemma RecordedIsAdded(u: Unicode, row: Option<string>, terms: set<string>, d: DocId,
                        ids: map<string, seq<DocId>>, freq: map<string, nat>, seen: set<(string, DocId)>,
                        ids': map<string, seq<DocId>>, freq': map<string, nat>, seen': set<(string, DocId)>)
    requires forall t :: HasToken(u, row, t) <==> t in terms
    requires SeenAgrees(seen, ids)
    requires PageRecorded(terms, d, ids, seen, ids', seen') && RowCounted(terms, freq, freq')
    ensures RowAdded(u, row, d, ids, freq, ids', freq')
    ensures SeenAgrees(seen', ids')
  {
    hide HasToken, Postings, Count, PushIf;
    forall t ensures t in ids' <==> t in ids || HasToken(u, row, t) {
      if (t, d) in seen { SeenTermListed(seen, ids, t, d); }
    }
    forall t, e: DocId ensures (t, e) in seen' <==> e in Postings(ids', t) {
      PushMember(HasToken(u, row, t), Postings(ids, t), d, e);
    }
  }

  lemma HasTokenOf(u: Unicode, row: Option<string>)
    ensures forall t :: HasToken(u, row, t) <==> t in Distinct(RowTokens(u, row))
  {
    hide Tokenize;
  }

  lemma SeenTermListed(seen: set<(string, DocId)>, ids: map<string, seq<DocId>>, t: string, d: DocId)
    requires SeenAgrees(seen, ids) && (t, d) in seen
    ensures t in ids
  {}

  lemma NothingRecorded(d: DocId, ids: map<string, seq<DocId>>, freq: map<string, nat>, seen: set<(string, DocId)>)
    ensures PageRecorded({}, d, ids, seen, ids, seen) && RowCounted({}, freq, freq)
  {
    hide Postings, Count;
  }

  lemma ExactGroupStart(u: Unicode, rows: seq<Option<string>>, pages: seq<PageEntry>)
    requires rows != [] ==> pages != []
    ensures ExactGroup(u, rows, pages, 0, map[], map[])
  {
    hide HasToken, DocIdForRow;
  }

  /** `index_batches`. */
  method IndexBatches(u: Unicode, batches: seq<seq<Option<string>>>, pages: seq<PageEntry>)
    returns (result: GroupIndex)
    requires PagesFor(pages, Flatten(batches))
    ensures Flatten(batches) != [] ==> pages != []
    ensures ExactGroup(u, Flatten(batches), pages, |Flatten(batches)|, result.termDocIds, result.termDocFreq)
    ensures result.totalRows == |Flatten(batches)|
    ensures result.totalTokens == CountTokens(u, Flatten(batches))
  {
    hide Consistent, ExactGroup, CountTokens, PagesFor;
    ghost var rows := Flatten(batches);
    var p := Progress(map[], map[], {}, 0, 0, 0);
    ConsistentStart(u, rows, pages);
    for b := 0 to |batches|
      invariant p.row == |Flatten(batches[..b])|
      invariant Consistent(u, rows, pages, p)
    {
      FlattenPrefix(batches, b);
      for row := 0 to |batches[b]|
        invariant p.row == |Flatten(batches[..b])| + row
        invariant Consistent(u, rows, pages, p)
      {
        FlattenAt(batches, b, row);
        p := IndexOneRow(u, rows, batches[b][row], pages, p);
      }
    }
    assert batches[..|batches|] == batches;
    ConsistentEnd(u, rows, pages, p);
    result := GroupIndex(p.ids, p.freq, p.row, p.totalTokens);
  }

  lemma FlattenAt<T>(batches: seq<seq<T>>, b: nat, row: nat)
    requires b < |batches| && row < |batches[b]|
    ensures |Flatten(batches[..b])| + row < |Flatten(batches)|
    ensures Flatten(batches)[|Flatten(batches[..b])| + row] == batches[b][row]
  {
    hide Flatten;
    FlattenPrefix(batches, b);
    FlattenPrefix(batches, b + 1);
  }

  lemma ConsistentStart(u: Unicode, rows: seq<Option<string>>, pages: seq<PageEntry>)
    requires PagesFor(pages, rows)
    ensures Consistent(u, rows, pages, Progress(map[], map[], {}, 0, 0, 0))
  {
    ExactGroupStart(u, rows, pages);
    hide ExactGroup;
  }

  lemma ConsistentEnd(u: Unicode, rows: seq<Option<string>>, pages: seq<PageEntry>, p: Progress)
    requires Consistent(u, rows, pages, p) && p.row == |rows|
    ensures rows != [] ==> pages != []
    ensures ExactGroup(u, rows, pages, |rows|, p.ids, p.freq)
    ensures p.totalTokens == CountTokens(u, rows)
  {
    hide ExactGroup;
    assert rows[..|rows|] == rows;
  }
}

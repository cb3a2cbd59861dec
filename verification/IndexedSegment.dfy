/** From a merged index to a segment file, and what evaluating that segment means. */
module IndexedSegment {
  import opened Bytes
  import opened Types
  import opened Sorting
  import opened ParquetUtil
  import opened Indexer
  import opened SegmentFormat
  import opened SegmentBuild
  import opened SegmentRead
  import opened SegmentRoundTrip
  import opened Evaluate
  import opened Plan

  /** Segment `s` holds exactly the inventory's tables and the index's lists. */
  ghost predicate SegmentFrom(inv: PageInventory, index: GroupIndex, s: Segment)
  {
    && s.docTable == inv.docTable
    && s.fileTable == inv.fileTable
    && TermsIncrease(s.terms)
    && (forall i | 0 <= i < |s.terms| ::
          && s.terms[i].term in index.termDocIds
          && s.terms[i].ids == index.termDocIds[s.terms[i].term]
          && s.terms[i].docFrequency == Count(index.termDocFreq, s.terms[i].term))
    && (forall t | t in index.termDocIds :: exists i :: 0 <= i < |s.terms| && s.terms[i].term == t)
    && s.stats.totalRows == index.totalRows && s.stats.totalTokens == index.totalTokens
  }

  /** The counters stayed within their integer types. */
  ghost predicate CountersFit(index: GroupIndex)
  {
    && (forall t :: Count(index.termDocFreq, t) < 0x1_0000_0000)
    && index.totalRows < 0x1_0000_0000_0000_0000
    && index.totalTokens < 0x1_0000_0000_0000_0000
  }

  datatype BuiltSegment = BuiltSegment(bytes: seq<byte>, minTerm: string, maxTerm: string, termCount: nat)

  /** The smallest and largest term, empty when there is none. */
  ghost predicate Bounds(s: Segment, minTerm: string, maxTerm: string)
  {
    if s.terms == [] then minTerm == "" && maxTerm == ""
    else minTerm == s.terms[0].term && maxTerm == s.terms[|s.terms| - 1].term
  }

  /** What `build_segment` reports of the segment. */
  ghost predicate Encodes(c: Codecs, s: Segment, built: BuiltSegment)
  {
    built.bytes == SegmentBytes(c, s) && built.termCount == |s.terms| && Bounds(s, built.minTerm, built.maxTerm)
  }

  /** The builder's map holds the index's lists and frequencies for the given terms. */
  ghost predicate Fed(m: map<string, TermEntry>, index: GroupIndex, terms: seq<string>)
  {
    && (forall t :: t in m <==> t in terms)
    && (forall t | t in m :: t in index.termDocIds && Count(index.termDocFreq, t) < 0x1_0000_0000
          && m[t] == TermEntry(index.termDocIds[t], Count(index.termDocFreq, t)))
  }

  lemma FedStep(m: map<string, TermEntry>, index: GroupIndex, terms: seq<string>, t: string)
    requires Fed(m, index, terms) && t in index.termDocIds && Count(index.termDocFreq, t) < 0x1_0000_0000
    ensures Fed(m[t := TermEntry(index.termDocIds[t], Count(index.termDocFreq, t))], index, terms + [t])
  {
    hide Count;
  }

  /** `build_segment`: feeds the builder in term order and records the term bounds. */
  method BuildSegment(c: Codecs, index: GroupIndex, inv: PageInventory) returns (r: Result<BuiltSegment>)
    requires CountersFit(index)
    ensures r.Ok? && exists s :: SegmentFrom(inv, index, s) && Encodes(c, s, r.value)
  {
    hide SegmentBytes, Fed, SegmentFrom, Bounds, InKeyOrder, Count;
    var builder := new SegmentBuilder();
    var sorted := SortedKeys(index.termDocIds.Keys);
    var minTerm := if sorted == [] then "" else sorted[0];
    var maxTerm := if sorted == [] then "" else sorted[|sorted| - 1];
    assert Fed(map[], index, sorted[..0]) by { NothingFed(index); }
    for i := 0 to |sorted|
      invariant fresh(builder)
      invariant Fed(builder.terms, index, sorted[..i])
    {
      var term := sorted[i];
      assert sorted[..i + 1] == sorted[..i] + [term];
      assert term in index.termDocIds.Keys;
      FedStep(builder.terms, index, sorted[..i], term);
      builder.AddTerm(term, index.termDocIds[term], Count(index.termDocFreq, term));
    }
    assert sorted[..|sorted|] == sorted;
    builder.SetDocTable(inv.docTable);
    builder.SetFileTable(inv.fileTable);
    builder.SetCorpusStats(CorpusStats(index.totalRows, index.totalTokens));
    var bytes := builder.Build(c);
    ghost var terms :| InKeyOrder(builder.terms, terms)
                       && bytes.value == SegmentBytes(c, Segment(terms, inv.docTable, inv.fileTable, builder.corpusStats));
    ghost var s := Segment(terms, inv.docTable, inv.fileTable, builder.corpusStats);
    BuiltIsFrom(builder.terms, inv, index, sorted, s);
    r := Ok(BuiltSegment(bytes.value, minTerm, maxTerm, |sorted|));
    assert SegmentFrom(inv, index, s) && Encodes(c, s, r.value);
  }

  lemma NothingFed(index: GroupIndex)
    ensures Fed(map[], index, [])
  {}

  lemma BuiltIsFrom(m: map<string, TermEntry>, inv: PageInventory, index: GroupIndex, sorted: seq<string>, s: Segment)
    requires CountersFit(index)
    requires Fed(m, index, sorted) && LexIncreasing(sorted) && forall t :: t in sorted <==> t in index.termDocIds.Keys
    requires InKeyOrder(m, s.terms)
    requires s == Segment(s.terms, inv.docTable, inv.fileTable, CorpusStats(index.totalRows, index.totalTokens))
    ensures SegmentFrom(inv, index, s) && |s.terms| == |sorted|
    ensures Bounds(s, if sorted == [] then "" else sorted[0], if sorted == [] then "" else sorted[|sorted| - 1])
  {
    hide Count, LexLess, Fed, InKeyOrder, TermsIncrease, LexIncreasing;
    forall t ensures t in m <==> t in sorted { FedKeys(m, index, sorted, t); }
    SortedTermsAre(m, s.terms, sorted);
    BuiltTerms(m, index, sorted, s.terms);
    BuiltInOrder(m, s.terms);
  }

  lemma FedKeys(m: map<string, TermEntry>, index: GroupIndex, sorted: seq<string>, t: string)
    requires Fed(m, index, sorted)
    ensures t in m <==> t in sorted
  {}

  lemma BuiltInOrder(m: map<string, TermEntry>, terms: seq<TermRecord>)
    requires InKeyOrder(m, terms)
    ensures TermsIncrease(terms)
  {}

  lemma BuiltTerms(m: map<string, TermEntry>, index: GroupIndex, sorted: seq<string>, terms: seq<TermRecord>)
    requires Fed(m, index, sorted) && InKeyOrder(m, terms) && forall t :: t in sorted <==> t in index.termDocIds.Keys
    ensures forall i | 0 <= i < |terms| ::
              && terms[i].term in index.termDocIds
              && terms[i].ids == index.termDocIds[terms[i].term]
              && terms[i].docFrequency == Count(index.termDocFreq, terms[i].term)
    ensures forall t | t in index.termDocIds :: exists i :: 0 <= i < |terms| && terms[i].term == t
  {
    hide Count, TermsIncrease;
    forall t | t in index.termDocIds ensures exists i :: 0 <= i < |terms| && terms[i].term == t {
      assert t in index.termDocIds.Keys;
      assert t in m;
    }
  }

  /** The builder's order is the order the terms were fed in. */
  lemma SortedTermsAre(m: map<string, TermEntry>, terms: seq<TermRecord>, sorted: seq<string>)
    requires InKeyOrder(m, terms) && LexIncreasing(sorted)
    requires forall t :: t in m <==> t in sorted
    ensures |terms| == |sorted| && forall i | 0 <= i < |terms| :: terms[i].term == sorted[i]
  {
    var names := seq(|terms|, i requires 0 <= i < |terms| => terms[i].term);
    forall x ensures x in names <==> x in sorted {
      if x in m {
        var i :| 0 <= i < |terms| && terms[i].term == x;
        assert names[i] == x;
      }
    }
    LexIncreasingUnique(names, sorted);
    assert forall i | 0 <= i < |terms| :: names[i] == terms[i].term;
  }

  // --- Term bounds and pruning ---------------------------------------------------------

  lemma TermsInRange(s: Segment, stats: TermStats, i: nat)
    requires TermsIncrease(s.terms) && i < |s.terms| && Bounds(s, stats.minTerm, stats.maxTerm)
    ensures InRange(stats, s.terms[i].term)
  {}

  // --- Evaluation of a recovered segment ---------------------------------------------------

  /** Page `d` is listed under query term `q`. */
  ghost predicate HasPosting(s: Segment, q: string, d: DocId)
  {
    exists i :: 0 <= i < |s.terms| && s.terms[i].term == q && d in s.terms[i].ids
  }

  /** The page is listed under all query terms, or under some. */
  ghost predicate PageMatches(s: Segment, queryTerms: seq<string>, op: Operator, d: DocId)
  {
    match op
    case And => queryTerms != [] && forall k | 0 <= k < |queryTerms| :: HasPosting(s, queryTerms[k], d)
    case Or => exists k :: 0 <= k < |queryTerms| && HasPosting(s, queryTerms[k], d)
  }

  /** Lookups on a recovered segment never fail; a term's hit lists exactly its pages. */
  lemma LookupRecovered(c: Codecs, r: SegmentReader, s: Segment, q: string)
    requires Recovers(c, r, s) && TermsIncrease(s.terms)
    ensures Lookup(c, r, q).Ok?
    ensures Lookup(c, r, q).value.None? ==> forall d :: !HasPosting(s, q, d)
    ensures Lookup(c, r, q).value.Some? ==>
              exists i :: 0 <= i < |s.terms| && s.terms[i].term == q
                          && Lookup(c, r, q).value.value == Hit(q, s.terms[i].docFrequency, s.terms[i].ids)
    ensures Lookup(c, r, q).value.Some? ==> forall d :: d in Lookup(c, r, q).value.value.ids <==> HasPosting(s, q, d)
  {
    hide PostingList, TermInfoOf, TermOrdinal, SearchTerm, ReverseEntries, ForwardEntries;
    SearchRecovered(c, r, s, q);
    if i :| 0 <= i < |s.terms| && s.terms[i].term == q {
      assert PostingList(c, r, i) == Ok(s.terms[i].ids);
      forall j | 0 <= j < |s.terms| && s.terms[j].term == q ensures j == i { LexIrreflexive(q); }
    }
  }

  /** The query terms seen so far, on a recovered segment: an AND stops exactly when a
      term is missing; otherwise the hits are those of the terms present. */
  lemma {:induction false} LookupsRecovered(c: Codecs, r: SegmentReader, s: Segment, queryTerms: seq<string>, op: Operator)
    requires Recovers(c, r, s) && TermsIncrease(s.terms)
    ensures Lookups(c, r, queryTerms, op).Ok?
    ensures Lookups(c, r, queryTerms, op).value.None? ==>
              op.And? && exists q :: q in queryTerms && forall d :: !HasPosting(s, q, d)
    ensures Lookups(c, r, queryTerms, op).value.Some? ==>
              HitsAre(c, r, s, queryTerms, op, Lookups(c, r, queryTerms, op).value.value)
  {
    hide Recovers, TermsIncrease, Lookup, HasPosting;
    if queryTerms != [] {
      var n := |queryTerms| - 1;
      LookupsRecovered(c, r, s, queryTerms[..n], op);
      LookupRecovered(c, r, s, queryTerms[n]);
      assert queryTerms == queryTerms[..n] + [queryTerms[n]];
      assert forall q | q in queryTerms[..n] :: q in queryTerms;
      assert queryTerms[n] in queryTerms;
    }
  }

  ghost predicate HitsAre(c: Codecs, r: SegmentReader, s: Segment, queryTerms: seq<string>, op: Operator, hits: seq<Hit>)
  {
    && (forall h | h in hits :: h.term in queryTerms && Lookup(c, r, h.term) == Ok(Some(h)))
    && (forall q | q in queryTerms && Lookup(c, r, q).Ok? && Lookup(c, r, q).value.Some? ::
          Lookup(c, r, q).value.value in hits)
    && (op.And? ==> forall q | q in queryTerms :: Lookup(c, r, q).Ok? && Lookup(c, r, q).value.Some?)
  }

  lemma CombinedMeans(c: Codecs, r: SegmentReader, s: Segment, queryTerms: seq<string>, op: Operator, hits: seq<Hit>, d: DocId)
    requires Recovers(c, r, s) && TermsIncrease(s.terms) && HitsAre(c, r, s, queryTerms, op, hits)
    ensures Combined(hits, op, d) <==> PageMatches(s, queryTerms, op, d)
  {
    hide Recovers, TermsIncrease, Lookup, HasPosting;
    forall k | 0 <= k < |queryTerms| ensures queryTerms[k] in queryTerms { }
    forall q | q in queryTerms { LookupRecovered(c, r, s, q); }
    forall h | h in hits ensures h.term in queryTerms && (d in h.ids <==> HasPosting(s, h.term, d)) {
      LookupRecovered(c, r, s, h.term);
    }
    match op {
      case And =>
        if Combined(hits, op, d) {
          forall k | 0 <= k < |queryTerms| ensures HasPosting(s, queryTerms[k], d) {
            var h := Lookup(c, r, queryTerms[k]).value.value;
            assert h in hits && d in h.ids;
          }
          assert hits[0] in hits;
        }
        if PageMatches(s, queryTerms, op, d) {
          assert Lookup(c, r, queryTerms[0]).value.value in hits;
          forall h | h in hits ensures d in h.ids {
            var k :| 0 <= k < |queryTerms| && queryTerms[k] == h.term;
          }
        }
      case Or =>
        if Combined(hits, op, d) {
          var h :| h in hits && d in h.ids;
          var k :| 0 <= k < |queryTerms| && queryTerms[k] == h.term;
        }
        if PageMatches(s, queryTerms, op, d) {
          var k :| 0 <= k < |queryTerms| && HasPosting(s, queryTerms[k], d);
          assert Lookup(c, r, queryTerms[k]).value.value in hits;
        }
    }
  }

  lemma RecoveredPostingsIncrease(c: Codecs, r: SegmentReader, s: Segment)
    requires Recovers(c, r, s) && forall i | 0 <= i < |s.terms| :: StrictlyIncreasing(s.terms[i].ids)
    ensures PostingsIncrease(c, r)
  {
    hide StrictlyIncreasing;
    forall ordinal: u64 | PostingList(c, r, ordinal).Ok?
      ensures StrictlyIncreasing(PostingList(c, r, ordinal).value)
    {
      assert TermInfoOf(r, ordinal).Ok?;
    }
  }

  /** Evaluating a recovered segment: exactly the pages listed under all query terms (or
      under some), in increasing order, whatever the frequency order, the swap-removal
      and repeated query terms did. */
  method EvaluateRecovered(c: Codecs, r: SegmentReader, ghost s: Segment, queryTerms: seq<string>, op: Operator)
    returns (e: SegmentEvaluation)
    requires Recovers(c, r, s) && TermsIncrease(s.terms)
    requires forall i | 0 <= i < |s.terms| :: StrictlyIncreasing(s.terms[i].ids)
    ensures StrictlyIncreasing(e.candidates)
    ensures forall d :: d in e.candidates <==> PageMatches(s, queryTerms, op, d)
    ensures TermRows(e.termInfos) == if MissesTerm(s, queryTerms, op) then [] else Frequencies(s, queryTerms)
  {
    hide Recovers, TermsIncrease, StrictlyIncreasing, HasPosting, PostingsIncrease, HitsAre, Combined, Lookups, TermRows,
         MissesTerm, Frequencies;
    RecoveredPostingsIncrease(c, r, s);
    LookupsRecovered(c, r, s, queryTerms, op);
    LookupsFrequencies(c, r, s, queryTerms, op);
    var result := EvaluateSegment(c, r, queryTerms, op);
    e := result.value;
    EmptyIncreases();
    NoTermRows();
    LookupsMean(c, r, s, queryTerms, op);
  }

  // --- Frequencies ---------------------------------------------------------------------------

  ghost predicate HasTerm(s: Segment, q: string)
  {
    exists i :: 0 <= i < |s.terms| && s.terms[i].term == q
  }

  /** The frequency recorded for a term of the segment. */
  ghost function FrequencyOf(s: Segment, q: string): nat
    requires HasTerm(s, q)
  {
    var i :| 0 <= i < |s.terms| && s.terms[i].term == q;
    s.terms[i].docFrequency
  }

  /** The query terms the segment has, in query order, repetitions included, each with its
      frequency. */
  ghost function Frequencies(s: Segment, queryTerms: seq<string>): seq<(string, nat)>
  {
    if queryTerms == [] then []
    else
      var q := queryTerms[|queryTerms| - 1];
      Frequencies(s, queryTerms[..|queryTerms| - 1]) + (if HasTerm(s, q) then [(q, FrequencyOf(s, q))] else [])
  }

  /** An AND over a term that the segment does not have. */
  ghost predicate MissesTerm(s: Segment, queryTerms: seq<string>, op: Operator)
  {
    op.And? && exists k :: 0 <= k < |queryTerms| && !HasTerm(s, queryTerms[k])
  }

  function TermRows(infos: seq<TermDf>): (rows: seq<(string, nat)>)
    ensures |rows| == |infos| && forall i | 0 <= i < |infos| :: rows[i] == (infos[i].term, infos[i].df)
  {
    seq(|infos|, i requires 0 <= i < |infos| => (infos[i].term, infos[i].df))
  }

  lemma NoTermRows()
    ensures TermRows([]) == []
  {}

  lemma LookupFrequency(c: Codecs, r: SegmentReader, s: Segment, q: string)
    requires Recovers(c, r, s) && TermsIncrease(s.terms)
    ensures Lookup(c, r, q).Ok? && (Lookup(c, r, q).value.Some? <==> HasTerm(s, q))
    ensures Lookup(c, r, q).value.Some? ==>
              Lookup(c, r, q).value.value.term == q && Lookup(c, r, q).value.value.df == FrequencyOf(s, q)
  {
    hide PostingList, TermInfoOf, TermOrdinal, SearchTerm, ReverseEntries, ForwardEntries;
    SearchRecovered(c, r, s, q);
    if HasTerm(s, q) {
      var i :| 0 <= i < |s.terms| && s.terms[i].term == q;
      assert PostingList(c, r, i) == Ok(s.terms[i].ids);
      forall j | 0 <= j < |s.terms| && s.terms[j].term == q ensures j == i { LexIrreflexive(q); }
    }
  }

  /** The lookups find the query terms the segment has, with their frequencies, in query
      order; an AND stops exactly when one is missing. */
  lemma {:induction false} LookupsFrequencies(c: Codecs, r: SegmentReader, s: Segment, queryTerms: seq<string>, op: Operator)
    requires Recovers(c, r, s) && TermsIncrease(s.terms)
    ensures Lookups(c, r, queryTerms, op).Ok?
    ensures Lookups(c, r, queryTerms, op).value.None? <==> MissesTerm(s, queryTerms, op)
    ensures Lookups(c, r, queryTerms, op).value.Some? ==>
              TermRows(TermInfos(Lookups(c, r, queryTerms, op).value.value)) == Frequencies(s, queryTerms)
  {
    hide Recovers, TermsIncrease, Lookup, HasTerm, FrequencyOf;
    if queryTerms != [] {
      var n := |queryTerms| - 1;
      LookupsFrequencies(c, r, s, queryTerms[..n], op);
      LookupFrequency(c, r, s, queryTerms[n]);
      assert MissesTerm(s, queryTerms, op) <==> MissesTerm(s, queryTerms[..n], op) || (op.And? && !HasTerm(s, queryTerms[n])) by {
        assert forall k | 0 <= k < n :: queryTerms[..n][k] == queryTerms[k];
      }
    }
  }

  lemma LookupsMean(c: Codecs, r: SegmentReader, s: Segment, queryTerms: seq<string>, op: Operator)
    requires Recovers(c, r, s) && TermsIncrease(s.terms)
    ensures match Lookups(c, r, queryTerms, op)
            case Err(_) => false
            case Ok(None) => forall d :: !PageMatches(s, queryTerms, op, d)
            case Ok(Some(hits)) => forall d :: Combined(hits, op, d) <==> PageMatches(s, queryTerms, op, d)
  {
    hide Recovers, TermsIncrease, HasPosting, HitsAre, Combined, Lookups;
    LookupsRecovered(c, r, s, queryTerms, op);
    match Lookups(c, r, queryTerms, op).value {
      case None =>
        var q :| q in queryTerms && forall d :: !HasPosting(s, q, d);
        var k :| 0 <= k < |queryTerms| && queryTerms[k] == q;
      case Some(hits) =>
        forall d ensures Combined(hits, op, d) <==> PageMatches(s, queryTerms, op, d) {
          CombinedMeans(c, r, s, queryTerms, op, hits, d);
        }
    }
  }

  /** Pruning is sound: a pruned segment has no matching page. */
  lemma PrunedHasNoMatch(s: Segment, stats: TermStats, queryTerms: seq<string>, op: Operator, d: DocId)
    requires TermsIncrease(s.terms) && Bounds(s, stats.minTerm, stats.maxTerm)
    requires ShouldPrune(stats, queryTerms, op)
    ensures !PageMatches(s, queryTerms, op, d)
  {
    forall k | 0 <= k < |queryTerms| && !InRange(stats, queryTerms[k]) ensures !HasPosting(s, queryTerms[k], d) {
      forall i | 0 <= i < |s.terms| && s.terms[i].term == queryTerms[k] ensures false {
        TermsInRange(s, stats, i);
      }
    }
  }

  // --- Pruning is exact -------------------------------------------------------------------

  /** Some segment with these bounds has a page that satisfies the query. */
  ghost predicate MayMatch(stats: TermStats, queryTerms: seq<string>, op: Operator)
  {
    exists s: Segment, d: DocId ::
      TermsIncrease(s.terms) && Bounds(s, stats.minTerm, stats.maxTerm) && PageMatches(s, queryTerms, op, d)
  }

  /** The members of a set of strings in increasing order. */
  lemma {:induction false} InOrderOf(terms: set<string>) returns (s: seq<string>)
    ensures LexIncreasing(s) && forall t :: t in s <==> t in terms
    decreases |terms|
  {
    var list := ListOf(terms);
    s := Sort(list, LexLeq);
    LexLeqIsPreorder();
    SortCorrect(list, LexLeq);
    SortDistinct(list);
  }

  lemma {:induction false} ListOf(terms: set<string>) returns (list: seq<string>)
    ensures forall t :: t in list <==> t in terms
    ensures forall i, j | 0 <= i < j < |list| :: list[i] != list[j]
    decreases |terms|
  {
    list := [];
    if terms != {} {
      var t :| t in terms;
      list := ListOf(terms - {t});
      OneMore(list, t);
      list := list + [t];
    }
  }

  /** A segment of one page on which each of the given terms stands. */
  function OnePage(terms: seq<string>): (s: Segment)
    ensures |s.terms| == |terms| && forall i | 0 <= i < |terms| :: s.terms[i] == TermRecord(terms[i], [0], 1)
  {
    Segment(seq(|terms|, i requires 0 <= i < |terms| => TermRecord(terms[i], [0], 1)), [], [], CorpusStats(0, 0))
  }

  lemma ExtremesOf(terms: seq<string>, lo: string, hi: string)
    requires LexIncreasing(terms) && lo in terms && hi in terms
    requires forall t | t in terms :: LexLeq(lo, t) && LexLeq(t, hi)
    ensures terms[0] == lo && terms[|terms| - 1] == hi
  {
    var i :| 0 <= i < |terms| && terms[i] == lo;
    var j :| 0 <= j < |terms| && terms[j] == hi;
    assert terms[0] in terms && terms[|terms| - 1] in terms;
    if i > 0 { LexAsymmetric(terms[0], lo); }
    if j < |terms| - 1 { LexAsymmetric(hi, terms[|terms| - 1]); }
  }

  /** A segment that is not pruned may have a match: one with these bounds and the query's
      terms has. */
  lemma UnprunedMayMatch(stats: TermStats, queryTerms: seq<string>, op: Operator)
    requires queryTerms != [] && stats.minTerm != "" && LexLeq(stats.minTerm, stats.maxTerm)
    requires !ShouldPrune(stats, queryTerms, op)
    ensures MayMatch(stats, queryTerms, op)
  {
    hide LexLess;
    var lo, hi := stats.minTerm, stats.maxTerm;
    var all := {lo, hi} + set t | t in queryTerms && LexLeq(lo, t) && LexLeq(t, hi);
    var terms := InOrderOf(all);
    ExtremesOf(terms, lo, hi);
    var s := OnePage(terms);
    forall k | 0 <= k < |queryTerms| && InRange(stats, queryTerms[k]) ensures HasPosting(s, queryTerms[k], 0) {
      assert queryTerms[k] in all;
      var i :| 0 <= i < |terms| && terms[i] == queryTerms[k];
      assert s.terms[i].term == queryTerms[k] && 0 in s.terms[i].ids;
    }
    assert PageMatches(s, queryTerms, op, 0);
  }

  /** Pruning by the term bounds is exact: a segment is pruned exactly when no segment with
      these bounds has a match. A segment without terms, whose bounds are empty, is not pruned. */
  lemma PruneIsExact(stats: TermStats, queryTerms: seq<string>, op: Operator)
    requires queryTerms != []
    ensures stats.minTerm == "" ==> !ShouldPrune(stats, queryTerms, op)
    ensures stats.minTerm != "" && LexLeq(stats.minTerm, stats.maxTerm) ==>
              (ShouldPrune(stats, queryTerms, op) <==> !MayMatch(stats, queryTerms, op))
  {
    hide LexLess, PageMatches, TermsIncrease, Bounds;
    if stats.minTerm != "" && LexLeq(stats.minTerm, stats.maxTerm) {
      if ShouldPrune(stats, queryTerms, op) {
        forall s: Segment, d: DocId | TermsIncrease(s.terms) && Bounds(s, stats.minTerm, stats.maxTerm)
          ensures !PageMatches(s, queryTerms, op, d)
        {
          PrunedHasNoMatch(s, stats, queryTerms, op, d);
        }
      } else {
        UnprunedMayMatch(stats, queryTerms, op);
      }
    }
  }
}

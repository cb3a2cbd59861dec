/** Query planning: which segments to search, which files to scan without an index. */
module Plan {
  import opened Types
  import opened Sorting

  datatype TermStats = TermStats(minTerm: string, maxTerm: string, termCount: nat)

  datatype ManifestEntry = ManifestEntry(manifestPath: string, indexedColumn: string, termStats: TermStats)

  datatype ManifestList = ManifestList(batchId: string, dataFiles: seq<string>, manifests: seq<ManifestEntry>)

  datatype SegmentInfo = SegmentInfo(segmentPath: string, parquetFiles: seq<string>)

  datatype Manifest = Manifest(indexedColumn: string, segments: seq<SegmentInfo>)

  datatype QueryPlan = QueryPlan(segmentPaths: seq<string>, unindexedFiles: set<string>)

  predicate InRange(stats: TermStats, term: string)
  {
    LexLeq(stats.minTerm, term) && LexLeq(term, stats.maxTerm)
  }

  /** `should_prune_segment`. */
  predicate ShouldPrune(stats: TermStats, queryTerms: seq<string>, op: Operator)
  {
    if stats.minTerm == "" then false
    else
      match op
      case And => exists i :: 0 <= i < |queryTerms| && !InRange(stats, queryTerms[i])
      case Or => forall i | 0 <= i < |queryTerms| :: !InRange(stats, queryTerms[i])
  }

  /** The manifest entries of one column, in snapshot order. */
  function ColumnEntries(lists: seq<ManifestList>, column: string): seq<ManifestEntry>
  {
    if lists == [] then []
    else ColumnEntries(lists[..|lists| - 1], column) + EntriesFor(lists[|lists| - 1].manifests, column)
  }

  function EntriesFor(entries: seq<ManifestEntry>, column: string): seq<ManifestEntry>
  {
    if entries == [] then []
    else
      var last := entries[|entries| - 1];
      EntriesFor(entries[..|entries| - 1], column) + (if last.indexedColumn == column then [last] else [])
  }

  /** A file of the snapshot. */
  ghost predicate InSnapshot(lists: seq<ManifestList>, path: string)
  {
    exists l :: l in lists && path in l.dataFiles
  }

  function Prune(entries: seq<ManifestEntry>, queryTerms: seq<string>, op: Operator): set<string>
  {
    set e | e in entries && ShouldPrune(e.termStats, queryTerms, op) :: e.manifestPath
  }

  /** A file that some manifest of the column indexes, pruned or not. */
  ghost predicate Indexed(entries: seq<ManifestEntry>, manifests: map<string, Manifest>, path: string)
  {
    exists e, s :: e in entries && e.manifestPath in manifests
                   && s in manifests[e.manifestPath].segments && path in s.parquetFiles
  }

  function SegmentPaths(segments: seq<SegmentInfo>): seq<string>
  {
    seq(|segments|, i requires 0 <= i < |segments| => segments[i].segmentPath)
  }

  /** The segments of the manifests that are not pruned, in order. */
  function Searched(entries: seq<ManifestEntry>, manifests: map<string, Manifest>, pruned: set<string>): seq<string>
  {
    if entries == [] then []
    else
      var e := entries[|entries| - 1];
      Searched(entries[..|entries| - 1], manifests, pruned)
      + (if e.manifestPath in manifests && e.manifestPath !in pruned
         then SegmentPaths(manifests[e.manifestPath].segments) else [])
  }

  /** The first pass: all data files, the column's entries, the pruned manifests. */
  method CollectFiles(lists: seq<ManifestList>, column: string, queryTerms: seq<string>, op: Operator)
    returns (allFiles: set<string>, entries: seq<ManifestEntry>, pruned: set<string>)
    ensures forall p :: p in allFiles <==> InSnapshot(lists, p)
    ensures entries == ColumnEntries(lists, column)
    ensures pruned == Prune(entries, queryTerms, op)
  {
    hide ShouldPrune;
    allFiles, entries, pruned := {}, [], {};
    for i := 0 to |lists|
      invariant forall p :: p in allFiles <==> InSnapshot(lists[..i], p)
      invariant entries == ColumnEntries(lists[..i], column)
      invariant pruned == Prune(entries, queryTerms, op)
    {
      var l := lists[i];
      assert lists[..i + 1] == lists[..i] + [l];
      allFiles := allFiles + set p | p in l.dataFiles;
      forall p ensures InSnapshot(lists[..i + 1], p) <==> InSnapshot(lists[..i], p) || p in l.dataFiles {
        assert l in lists[..i + 1];
      }
      ghost var before := entries;
      for j := 0 to |l.manifests|
        invariant entries == before + EntriesFor(l.manifests[..j], column)
        invariant pruned == Prune(entries, queryTerms, op)
      {
        var me := l.manifests[j];
        assert l.manifests[..j + 1][..j] == l.manifests[..j];
        if me.indexedColumn == column {
          PruneAppend(entries, me, queryTerms, op);
          entries := entries + [me];
          if ShouldPrune(me.termStats, queryTerms, op) {
            pruned := pruned + {me.manifestPath};
          }
        }
      }
      assert l.manifests[..|l.manifests|] == l.manifests;
      assert lists[..i + 1][..i] == lists[..i];
    }
    assert lists[..|lists|] == lists;
  }

  lemma PruneAppend(entries: seq<ManifestEntry>, me: ManifestEntry, queryTerms: seq<string>, op: Operator)
    ensures Prune(entries + [me], queryTerms, op)
         == Prune(entries, queryTerms, op) + (if ShouldPrune(me.termStats, queryTerms, op) then {me.manifestPath} else {})
  {
    hide ShouldPrune;
    assert me in entries + [me];
    forall e | e in entries ensures e in entries + [me] {}
  }

  /** `plan_query`: `None` when a manifest cannot be loaded. Files split into those some
      manifest of the column indexes, and those to brute-force; nothing is in both and
      no snapshot file is in neither. */
  method PlanQuery(lists: seq<ManifestList>, manifests: map<string, Manifest>, column: string,
                   queryTerms: seq<string>, op: Operator)
    returns (plan: Option<QueryPlan>)
    ensures var entries := ColumnEntries(lists, column);
      && (plan.None? <==> exists e :: e in entries && e.manifestPath !in manifests)
      && (plan.Some? ==>
            && plan.value.segmentPaths == Searched(entries, manifests, Prune(entries, queryTerms, op))
            && forall p :: p in plan.value.unindexedFiles <==> InSnapshot(lists, p) && !Indexed(entries, manifests, p))
  {
    hide ShouldPrune, Prune, ColumnEntries, InSnapshot, Indexed, Searched;
    var allFiles, entries, pruned := CollectFiles(lists, column, queryTerms, op);
    var indexedFiles: set<string> := {};
    var segmentPaths: seq<string> := [];
    NothingPlanned(manifests, pruned);
    for i := 0 to |entries|
      invariant forall k | 0 <= k < i :: entries[k].manifestPath in manifests
      invariant forall p :: p in indexedFiles <==> Indexed(entries[..i], manifests, p)
      invariant segmentPaths == Searched(entries[..i], manifests, pruned)
    {
      var path := entries[i].manifestPath;
      if path !in manifests {
        return None;
      }
      assert entries[..i + 1] == entries[..i] + [entries[i]];
      SearchedStep(entries[..i], entries[i], manifests, pruned);
      var segments := manifests[path].segments;
      ghost var filesBefore, pathsBefore := indexedFiles, segmentPaths;
      for j := 0 to |segments|
        invariant forall p :: p in indexedFiles <==>
          p in filesBefore || exists k :: 0 <= k < j && p in segments[k].parquetFiles
        invariant segmentPaths == pathsBefore + (if path !in pruned then SegmentPaths(segments)[..j] else [])
      {
        indexedFiles := indexedFiles + set p | p in segments[j].parquetFiles;
        if path !in pruned {
          segmentPaths := segmentPaths + [segments[j].segmentPath];
        }
      }
      forall p ensures p in indexedFiles <==> Indexed(entries[..i + 1], manifests, p) {
        IndexedStep(entries[..i], entries[i], manifests, p);
      }
    }
    assert entries[..|entries|] == entries;
    plan := Some(QueryPlan(segmentPaths, allFiles - indexedFiles));
  }

  lemma NothingPlanned(manifests: map<string, Manifest>, pruned: set<string>)
    ensures Searched([], manifests, pruned) == [] && forall p :: !Indexed([], manifests, p)
  {}

  lemma SearchedStep(entries: seq<ManifestEntry>, e: ManifestEntry, manifests: map<string, Manifest>, pruned: set<string>)
    requires e.manifestPath in manifests
    ensures Searched(entries + [e], manifests, pruned) == Searched(entries, manifests, pruned)
              + (if e.manifestPath !in pruned then SegmentPaths(manifests[e.manifestPath].segments) else [])
  {
    assert (entries + [e])[..|entries|] == entries;
  }

  lemma IndexedStep(entries: seq<ManifestEntry>, e: ManifestEntry, manifests: map<string, Manifest>, p: string)
    requires e.manifestPath in manifests
    ensures var segments := manifests[e.manifestPath].segments;
      Indexed(entries + [e], manifests, p)
      <==> Indexed(entries, manifests, p) || exists k :: 0 <= k < |segments| && p in segments[k].parquetFiles
  {
    var segments := manifests[e.manifestPath].segments;
    assert e in entries + [e];
    if k :| 0 <= k < |segments| && p in segments[k].parquetFiles {
      assert segments[k] in segments;
    }
    if e', s :| e' in entries && e'.manifestPath in manifests
                && s in manifests[e'.manifestPath].segments && p in s.parquetFiles {
      assert e' in entries + [e];
    }
  }
}

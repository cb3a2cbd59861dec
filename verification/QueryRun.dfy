/** A whole collected query: the row groups that planning selects, grouped by file into I/O
    tasks, cut into record batches, verified in the pipeline in any schedule, ranked and
    limited. */
module QueryRun {
  import opened Types
  import opened Sorting
  import opened Tokenizer
  import opened SegmentFormat
  import opened Verify
  import opened Plan
  import opened Search
  import opened Work
  import opened Output
  import opened EndToEnd
  import opened Pipeline
  import opened PipelineSafety
  import opened Rank
  import opened CollectedQuery
  import Cas
  import CommittedSearch

  // --- The I/O tasks -------------------------------------------------------------------------

  /** One task for each indexed file and one for each scanned file. */
  datatype TaskKey = TaskKey(path: string, scan: bool)

  function KeyFor(x: Unit): TaskKey { TaskKey(x.path, x.mode.ByScan?) }

  /** The units of one task, in order. */
  function UnitsOf(units: seq<Unit>, key: TaskKey): seq<Unit>
  {
    if units == [] then []
    else
      var last := units[|units| - 1];
      UnitsOf(units[..|units| - 1], key) + (if KeyFor(last) == key then [last] else [])
  }

  /** The units of all other tasks. */
  function Others(units: seq<Unit>, key: TaskKey): seq<Unit>
  {
    if units == [] then []
    else
      var last := units[|units| - 1];
      Others(units[..|units| - 1], key) + (if KeyFor(last) == key then [] else [last])
  }

  /** The record batches a task sends, each by the rows that verification keeps of it. */
  function BatchesOf(u: Unicode, ilike: Ilike, units: seq<Unit>, cut: Unit -> seq<seq<ReadRow>>, queryTerms: seq<string>,
                     op: Operator): seq<RowBatch>
  {
    if units == [] then []
    else
      var last := units[|units| - 1];
      BatchesOf(u, ilike, units[..|units| - 1], cut, queryTerms, op) + KeptEach(u, ilike, last.mode, cut(last), queryTerms, op)
  }

  /** `keys` lists every task once, in the order the hash map yields them; a task may have
      nothing to read. */
  ghost predicate Lists(keys: seq<TaskKey>, units: seq<Unit>)
  {
    NoDuplicates(keys) && forall x | x in units :: KeyFor(x) in keys
  }

  function Tasks(u: Unicode, ilike: Ilike, units: seq<Unit>, keys: seq<TaskKey>, cut: Unit -> seq<seq<ReadRow>>,
                 queryTerms: seq<string>, op: Operator): (producers: seq<Producer>)
    ensures |producers| == |keys|
  {
    seq(|keys|, i requires 0 <= i < |keys| => Waiting(BatchesOf(u, ilike, UnitsOf(units, keys[i]), cut, queryTerms, op)))
  }

  /** `run_pipeline`, before its first step. */
  function Start(producers: seq<Producer>): System
  {
    System(producers, [], Dispatcher(Polling, [], false, 0, [], []), [], Coalescer(Receiving, [], 0), [], [], Open, [])
  }

  lemma UnitsOfAppend(units: seq<Unit>, x: Unit, key: TaskKey)
    ensures UnitsOf(units + [x], key) == if KeyFor(x) == key then UnitsOf(units, key) + [x] else UnitsOf(units, key)
  {
    assert (units + [x])[..|units|] == units;
  }

  lemma OthersAppend(units: seq<Unit>, x: Unit, key: TaskKey)
    ensures Others(units + [x], key) == if KeyFor(x) == key then Others(units, key) else Others(units, key) + [x]
  {
    assert (units + [x])[..|units|] == units;
  }

  lemma {:induction false} UnitsOfMember(units: seq<Unit>, x: Unit)
    requires x in units
    ensures UnitsOf(units, KeyFor(x)) != []
  {
    var n := |units| - 1;
    if x in units[..n] { UnitsOfMember(units[..n], x); }
  }

  /** The grouping loop of `spawn_io_producers`: a map from each task to its units, in order. */
  method GroupByFile(units: seq<Unit>) returns (groups: map<TaskKey, seq<Unit>>)
    ensures forall key :: key in groups <==> UnitsOf(units, key) != []
    ensures forall key | key in groups :: groups[key] == UnitsOf(units, key)
  {
    groups := map[];
    for i := 0 to |units|
      invariant forall key :: key in groups <==> UnitsOf(units[..i], key) != []
      invariant forall key | key in groups :: groups[key] == UnitsOf(units[..i], key)
    {
      var key := KeyFor(units[i]);
      assert units[..i + 1] == units[..i] + [units[i]];
      forall k { UnitsOfAppend(units[..i], units[i], k); }
      hide UnitsOf;
      groups := groups[key := (if key in groups then groups[key] else []) + [units[i]]];
    }
    assert units[..|units|] == units;
  }

  /** `spawn_io_producers`: one task for each group, in any order. */
  method SpawnTasks(u: Unicode, ilike: Ilike, units: seq<Unit>, cut: Unit -> seq<seq<ReadRow>>, queryTerms: seq<string>,
                    op: Operator)
    returns (producers: seq<Producer>)
    ensures exists keys :: Lists(keys, units) && producers == Tasks(u, ilike, units, keys, cut, queryTerms, op)
  {
    hide BatchesOf, UnitsOf;
    var groups := GroupByFile(units);
    var rest := groups.Keys;
    ghost var keys: seq<TaskKey> := [];
    producers := [];
    while rest != {}
      invariant rest <= groups.Keys
      invariant forall key :: key in keys <==> key in groups.Keys - rest
      invariant NoDuplicates(keys)
      invariant producers == Tasks(u, ilike, units, keys, cut, queryTerms, op)
      decreases |rest|
    {
      var key :| key in rest;
      assert key in groups.Keys && key !in keys;
      producers := producers + [Waiting(BatchesOf(u, ilike, groups[key], cut, queryTerms, op))];
      keys := keys + [key];
      rest := rest - {key};
      assert producers == Tasks(u, ilike, units, keys, cut, queryTerms, op);
    }
    forall x | x in units ensures KeyFor(x) in keys { UnitsOfMember(units, x); }
    assert Lists(keys, units);
  }

  // --- The tasks carry exactly the rows kept ---------------------------------------------------

  lemma {:induction false} FlattenConcat<T>(a: seq<seq<T>>, b: seq<seq<T>>)
    ensures Flatten(a + b) == Flatten(a) + Flatten(b)
    decreases |b|
  {
    if b == [] {
      assert a + b == a;
    } else {
      var n := |b| - 1;
      FlattenConcat(a, b[..n]);
      assert (a + b)[..|a| + n] == a + b[..n] && (a + b)[|a| + n] == b[n];
      assert Flatten(a + b) == Flatten(a + b[..n]) + b[n] && Flatten(b) == Flatten(b[..n]) + b[n];
    }
  }

  lemma {:induction false} BatchesCarry(u: Unicode, ilike: Ilike, units: seq<Unit>, cut: Unit -> seq<seq<ReadRow>>,
                                        queryTerms: seq<string>, op: Operator)
    requires Cuts(cut, units)
    ensures Flatten(BatchesOf(u, ilike, units, cut, queryTerms, op)) == AllKept(u, ilike, units, queryTerms, op)
  {
    hide KeptEach, KeptOf;
    if units != [] {
      var n := |units| - 1;
      BatchesCarry(u, ilike, units[..n], cut, queryTerms, op);
      assert units[n] in units;
      BatchBoundariesDoNotMatter(u, ilike, units[n].mode, cut(units[n]), queryTerms, op);
      FlattenConcat(BatchesOf(u, ilike, units[..n], cut, queryTerms, op),
                    KeptEach(u, ilike, units[n].mode, cut(units[n]), queryTerms, op));
    }
  }

  lemma SplitStep(all: seq<Row>, mine: seq<Row>, others: seq<Row>, kept: seq<Row>)
    requires multiset(all) == multiset(mine) + multiset(others)
    ensures multiset(all + kept) == multiset(mine + kept) + multiset(others)
    ensures multiset(all + kept) == multiset(mine) + multiset(others + kept)
  {}

  lemma SplitAppend(u: Unicode, ilike: Ilike, all: seq<Unit>, mine: seq<Unit>, others: seq<Unit>, x: Unit, queryTerms: seq<string>,
                    op: Operator)
    requires multiset(AllKept(u, ilike, all, queryTerms, op))
          == multiset(AllKept(u, ilike, mine, queryTerms, op)) + multiset(AllKept(u, ilike, others, queryTerms, op))
    ensures multiset(AllKept(u, ilike, all + [x], queryTerms, op))
         == multiset(AllKept(u, ilike, mine + [x], queryTerms, op)) + multiset(AllKept(u, ilike, others, queryTerms, op))
    ensures multiset(AllKept(u, ilike, all + [x], queryTerms, op))
         == multiset(AllKept(u, ilike, mine, queryTerms, op)) + multiset(AllKept(u, ilike, others + [x], queryTerms, op))
  {
    hide *;
    AllKeptAppend(u, ilike, all, x, queryTerms, op);
    AllKeptAppend(u, ilike, mine, x, queryTerms, op);
    AllKeptAppend(u, ilike, others, x, queryTerms, op);
    SplitStep(AllKept(u, ilike, all, queryTerms, op), AllKept(u, ilike, mine, queryTerms, op),
              AllKept(u, ilike, others, queryTerms, op), KeptOf(u, ilike, x.mode, x.rows, queryTerms, op));
  }

  lemma {:induction false} SplitByTask(u: Unicode, ilike: Ilike, units: seq<Unit>, key: TaskKey, queryTerms: seq<string>, op: Operator)
    ensures multiset(AllKept(u, ilike, units, queryTerms, op))
         == multiset(AllKept(u, ilike, UnitsOf(units, key), queryTerms, op)) + multiset(AllKept(u, ilike, Others(units, key), queryTerms, op))
  {
    if units == [] {
      NothingSplit(u, ilike, key, queryTerms, op);
    } else {
      hide *;
      var n := |units| - 1;
      var x, mine, others := units[n], UnitsOf(units[..n], key), Others(units[..n], key);
      assert units == units[..n] + [x];
      SplitByTask(u, ilike, units[..n], key, queryTerms, op);
      SplitAppend(u, ilike, units[..n], mine, others, x, queryTerms, op);
      UnitsOfAppend(units[..n], x, key);
      OthersAppend(units[..n], x, key);
    }
  }

  lemma NothingSplit(u: Unicode, ilike: Ilike, key: TaskKey, queryTerms: seq<string>, op: Operator)
    ensures AllKept(u, ilike, UnitsOf([], key), queryTerms, op) == [] && AllKept(u, ilike, Others([], key), queryTerms, op) == []
    ensures AllKept(u, ilike, [], queryTerms, op) == []
  {}

  lemma {:induction false} OthersMembers(units: seq<Unit>, key: TaskKey)
    ensures forall x :: x in Others(units, key) <==> x in units && KeyFor(x) != key
    ensures forall x | x in UnitsOf(units, key) :: x in units
    ensures forall k | k != key :: UnitsOf(Others(units, key), k) == UnitsOf(units, k)
  {
    if units != [] {
      var n := |units| - 1;
      OthersMembers(units[..n], key);
      assert units == units[..n] + [units[n]];
      forall k | k != key ensures UnitsOf(Others(units, key), k) == UnitsOf(units, k) {
        var before := Others(units[..n], key);
        if KeyFor(units[n]) != key {
          assert (before + [units[n]])[..|before|] == before;
        } else {
          assert before + [] == before;
          assert UnitsOf(units[..n], k) + [] == UnitsOf(units[..n], k);
        }
      }
    }
  }

  /** The rows the tasks bring to the pipeline are exactly the rows kept of the units, however
      the files are ordered and cut into record batches. */
  lemma {:induction false} TasksCarry(u: Unicode, ilike: Ilike, units: seq<Unit>, keys: seq<TaskKey>, cut: Unit -> seq<seq<ReadRow>>,
                                      queryTerms: seq<string>, op: Operator)
    requires Cuts(cut, units) && Lists(keys, units)
    ensures ProducersRows(Tasks(u, ilike, units, keys, cut, queryTerms, op)) == multiset(AllKept(u, ilike, units, queryTerms, op))
    decreases |keys|
  {
    hide BatchesOf, AllKept, UnitsOf, Others, Flatten;
    if keys == [] {
      SomeTask(units, keys);
      NoTasksCarry(u, ilike, cut, queryTerms, op);
    } else {
      var n, last := |keys| - 1, keys[|keys| - 1];
      var rest := Others(units, last);
      OthersMembers(units, last);
      forall x | x in rest ensures KeyFor(x) in keys[..n] {
        var i :| 0 <= i < |keys| && keys[i] == KeyFor(x);
        assert keys[..n][i] == KeyFor(x);
      }
      TasksCarry(u, ilike, rest, keys[..n], cut, queryTerms, op);
      var producers := Tasks(u, ilike, units, keys, cut, queryTerms, op);
      assert producers[..n] == Tasks(u, ilike, rest, keys[..n], cut, queryTerms, op);
      BatchesCarry(u, ilike, UnitsOf(units, last), cut, queryTerms, op);
      SplitByTask(u, ilike, units, last, queryTerms, op);
    }
  }

  lemma SomeTask(units: seq<Unit>, keys: seq<TaskKey>)
    requires Lists(keys, units)
    ensures units != [] ==> keys != []
  {
    if units != [] { assert units[0] in units; }
  }

  lemma NoTasksCarry(u: Unicode, ilike: Ilike, cut: Unit -> seq<seq<ReadRow>>, queryTerms: seq<string>, op: Operator)
    ensures ProducersRows(Tasks(u, ilike, [], [], cut, queryTerms, op)) == multiset(AllKept(u, ilike, [], queryTerms, op))
  {}

  // --- From a table to the pipeline --------------------------------------------------------------

  /** The pipeline starts with tasks for units whose kept rows answer the query. */
  ghost predicate Prepared(u: Unicode, ilike: Ilike, lake: Lake, isLarge: string -> bool, lists: seq<ManifestList>,
                           manifests: map<string, Manifest>, column: string, queryTerms: seq<string>, op: Operator,
                           units: seq<Unit>, cut: Unit -> seq<seq<ReadRow>>, start: System)
  {
    && Answers(u, lake, isLarge, lists, manifests, column, queryTerms, op, AllKept(u, ilike, units, queryTerms, op))
    && ScansExactly(u, ilike, lake, isLarge, lists, manifests, column, queryTerms, op, units)
    && Cuts(cut, units)
    && exists keys :: Lists(keys, units) && start == Start(Tasks(u, ilike, units, keys, cut, queryTerms, op))
  }

  /** `setup_query` and `launch_pipeline`, for a query that sees a metadata path at one moment
      of a run of the commit protocol and reads the objects at any later one. */
  method Launch(c: Codecs, u: Unicode, ilike: Ilike, lake: Lake, isLarge: string -> bool, pointer: string,
                objects: map<string, Cas.Object>, column: string, queryTerms: seq<string>, op: Operator,
                cut: Unit -> seq<seq<ReadRow>>, ghost run: seq<Cas.System>, ghost n: nat, ghost m: nat,
                ghost jobs: map<nat, Batch>)
    returns (units: seq<Unit>, start: System)
    requires c.Lawful() && ilike.Lawful() && queryTerms != [] && forall x :: Flatten(cut(x)) == x.rows
    requires Cas.Run(run) && n <= m < |run| && CommittedSearch.Indexing(c, u, lake, column, run[0], jobs)
    requires CommittedSearch.Seen(run[n], pointer) && objects == run[m].store.objects
    ensures Cas.HasMetadata(objects, pointer)
    ensures var paths := objects[pointer].metadata.manifestLists;
      && (forall i | 0 <= i < |paths| :: Cas.HasList(objects, paths[i]))
      && Prepared(u, ilike, lake, isLarge, CommittedSearch.LoadLists(objects, paths), CommittedSearch.Manifests(objects),
                  column, queryTerms, op, units, cut, start)
  {
    hide Cas.Run, CommittedSearch.Indexing, Answers, AllKept, Tasks, Lists, ScansExactly;
    var planned := CommittedSearch.QueryTable(c, u, ilike, lake, isLarge, pointer, objects, column, queryTerms, op, run, n, m, jobs);
    units := planned.value;
    var producers := SpawnTasks(u, ilike, units, cut, queryTerms, op);
    start := Start(producers);
  }

  /** The pipeline is given exactly the rows that planning and verification select. */
  lemma PreparedRows(u: Unicode, ilike: Ilike, lake: Lake, isLarge: string -> bool, lists: seq<ManifestList>,
                     manifests: map<string, Manifest>, column: string, queryTerms: seq<string>, op: Operator,
                     units: seq<Unit>, cut: Unit -> seq<seq<ReadRow>>, start: System)
    requires Prepared(u, ilike, lake, isLarge, lists, manifests, column, queryTerms, op, units, cut, start)
    ensures AllRows(start) == multiset(AllKept(u, ilike, units, queryTerms, op))
  {
    hide Answers, AllKept, Lists, Tasks, ProducersRows, ScansExactly;
    var keys :| Lists(keys, units) && start == Start(Tasks(u, ilike, units, keys, cut, queryTerms, op));
    TasksCarry(u, ilike, units, keys, cut, queryTerms, op);
  }

  /** No CPU task panics exactly when the query keeps nothing, or: the selected names are free,
      and in the mode that scores indexed rows only, no row of an unindexed file passes the
      brute-force mask and the predicate. */
  lemma PanicsIff(u: Unicode, ilike: Ilike, lake: Lake, isLarge: string -> bool, lists: seq<ManifestList>,
                  manifests: map<string, Manifest>, column: string, queryTerms: seq<string>, op: Operator,
                  units: seq<Unit>, cut: Unit -> seq<seq<ReadRow>>, start: System, mode: ScoreMode, select: seq<string>)
    requires Prepared(u, ilike, lake, isLarge, lists, manifests, column, queryTerms, op, units, cut, start)
    ensures AllRebuild(u, ilike, units, cut, queryTerms, op, mode, column, select)
       <==> AllKept(u, ilike, units, queryTerms, op) == []
            || (NamesFree(column, select)
                && (mode.ScoreIndexed? ==>
                      forall key: RowKey :: !(InSnapshot(lists, key.path)
                        && !Indexed(ColumnEntries(lists, column), manifests, key.path)
                        && Scanned(u, ilike, lake, isLarge, key, queryTerms, op))))
  {
    hide Answers, AllKept, Lists, Tasks, KeptOf, NamesFree, AllRebuild, InSnapshot, Indexed, ColumnEntries, Scanned;
    QueryRebuildsIff(u, ilike, units, cut, queryTerms, op, mode, column, select);
    KeepsSomething(u, ilike, units, queryTerms, op);
    assert (forall key: RowKey :: !KeptByScan(u, ilike, units, queryTerms, op, key))
      <==> forall x | x in units && x.mode.ByScan? :: KeptOf(u, ilike, x.mode, x.rows, queryTerms, op) == []
    by { ScansKeepNothing(u, ilike, units, queryTerms, op); }
    hide KeptByScan;
  }

  lemma KeepsSomething(u: Unicode, ilike: Ilike, units: seq<Unit>, queryTerms: seq<string>, op: Operator)
    ensures AllKept(u, ilike, units, queryTerms, op) == []
       <==> forall x | x in units :: KeptOf(u, ilike, x.mode, x.rows, queryTerms, op) == []
  {
    hide AllKept, KeptOf;
    var all := AllKept(u, ilike, units, queryTerms, op);
    forall key { AllKeptMembers(u, ilike, units, queryTerms, op, key); }
    if all != [] {
      assert all[0] in all && KeptBySome(u, ilike, units, queryTerms, op, all[0]);
    }
    forall x | x in units && KeptOf(u, ilike, x.mode, x.rows, queryTerms, op) != [] ensures all != [] {
      var key := KeptOf(u, ilike, x.mode, x.rows, queryTerms, op)[0];
      assert KeptBySome(u, ilike, units, queryTerms, op, key);
    }
  }

  lemma ScansKeepNothing(u: Unicode, ilike: Ilike, units: seq<Unit>, queryTerms: seq<string>, op: Operator)
    ensures (forall key: RowKey :: !KeptByScan(u, ilike, units, queryTerms, op, key))
       <==> forall x | x in units && x.mode.ByScan? :: KeptOf(u, ilike, x.mode, x.rows, queryTerms, op) == []
  {
    hide KeptOf;
    forall x | x in units && x.mode.ByScan? && KeptOf(u, ilike, x.mode, x.rows, queryTerms, op) != []
      ensures exists key: RowKey :: KeptByScan(u, ilike, units, queryTerms, op, key)
    {
      assert KeptByScan(u, ilike, units, queryTerms, op, KeptOf(u, ilike, x.mode, x.rows, queryTerms, op)[0]);
    }
  }

  // --- The collected answer ------------------------------------------------------------------------

  /** A part of the answer to the query. */
  ghost predicate AnswersPart(u: Unicode, lake: Lake, lists: seq<ManifestList>, queryTerms: seq<string>, op: Operator,
                              rows: seq<RowKey>)
  {
    NoDuplicates(rows) && forall key | key in rows :: InSnapshot(lists, key.path) && Matches(u, lake, key, queryTerms, op)
  }

  /** An unscored collected query over a table: exactly `min(limit, n)` of the `n` rows that
      planning and verification select, each a match and none twice; the whole answer when
      there is no limit. */
  lemma UnscoredAnswer(u: Unicode, ilike: Ilike, lake: Lake, isLarge: string -> bool, lists: seq<ManifestList>,
                       manifests: map<string, Manifest>, column: string, queryTerms: seq<string>, op: Operator,
                       units: seq<Unit>, cut: Unit -> seq<seq<ReadRow>>, select: seq<string>,
                       c: Config, run: seq<System>, sorter: Sorter, score: Row -> Score, limit: Option<nat>)
    requires Drained(c, run) && sorter.Lawful() && c.earlyLimit == EarlyLimit(false, limit)
    requires Prepared(u, ilike, lake, isLarge, lists, manifests, column, queryTerms, op, units, cut, run[0])
    requires AllRebuild(u, ilike, units, cut, queryTerms, op, ScoreNone, column, select)
    ensures var r := Collected(sorter, run[|run| - 1], score, false, limit);
      && AnswersPart(u, lake, lists, queryTerms, op, r)
      && |r| == LimitTo(limit, |AllKept(u, ilike, units, queryTerms, op)|)
      && (limit.None? ==> Answers(u, lake, isLarge, lists, manifests, column, queryTerms, op, r))
  {
    hide Init, Next, AllRows, AllKept, Collected, InSnapshot, Matches, Indexed, Scannable, ColumnEntries, AllRebuild, NoDuplicates, ScansExactly;
    PreparedRows(u, ilike, lake, isLarge, lists, manifests, column, queryTerms, op, units, cut, run[0]);
    AnswerIsExact(AllKept(u, ilike, units, queryTerms, op), c, run, sorter, score, limit);
  }

  /** When every file is indexed or can be scanned exactly, the rows selected are as many as
      the matches of the snapshot. */
  lemma AllMatchesSelected(u: Unicode, lake: Lake, isLarge: string -> bool, lists: seq<ManifestList>,
                           manifests: map<string, Manifest>, column: string, queryTerms: seq<string>, op: Operator,
                           rows: seq<RowKey>, matches: seq<RowKey>)
    requires Answers(u, lake, isLarge, lists, manifests, column, queryTerms, op, rows)
    requires forall p | InSnapshot(lists, p) && p in lake ::
               Indexed(ColumnEntries(lists, column), manifests, p) || Scannable(lake, isLarge, p)
    requires NoDuplicates(matches)
    requires forall key: RowKey :: key in matches <==> InSnapshot(lists, key.path) && Matches(u, lake, key, queryTerms, op)
    ensures multiset(rows) == multiset(matches) && |rows| == |matches|
  {
    hide InSnapshot, Indexed, Scannable, ColumnEntries, RowMatches;
    forall key ensures multiset(rows)[key] == multiset(matches)[key] {
      DistinctMultiplicity(rows, key);
      DistinctMultiplicity(matches, key);
      assert key in multiset(rows) <==> key in rows;
      assert key in multiset(matches) <==> key in matches;
    }
    assert multiset(rows) == multiset(matches);
    assert |multiset(rows)| == |rows| && |multiset(matches)| == |matches|;
  }

  /** `run_query_collected` without scores returns exactly `min(limit, total matches)` rows of
      a table whose files are indexed or can be scanned exactly. */
  lemma UnscoredReturnsExactly(u: Unicode, ilike: Ilike, lake: Lake, isLarge: string -> bool, lists: seq<ManifestList>,
                               manifests: map<string, Manifest>, column: string, queryTerms: seq<string>, op: Operator,
                               units: seq<Unit>, cut: Unit -> seq<seq<ReadRow>>, select: seq<string>,
                               c: Config, run: seq<System>, sorter: Sorter, score: Row -> Score, limit: Option<nat>,
                               matches: seq<RowKey>)
    requires Drained(c, run) && sorter.Lawful() && c.earlyLimit == EarlyLimit(false, limit)
    requires Prepared(u, ilike, lake, isLarge, lists, manifests, column, queryTerms, op, units, cut, run[0])
    requires AllRebuild(u, ilike, units, cut, queryTerms, op, ScoreNone, column, select)
    requires forall p | InSnapshot(lists, p) && p in lake ::
               Indexed(ColumnEntries(lists, column), manifests, p) || Scannable(lake, isLarge, p)
    requires NoDuplicates(matches)
    requires forall key: RowKey :: key in matches <==> InSnapshot(lists, key.path) && Matches(u, lake, key, queryTerms, op)
    ensures var r := Collected(sorter, run[|run| - 1], score, false, limit);
      && |r| == LimitTo(limit, |matches|)
      && NoDuplicates(r) && forall key | key in r :: key in matches
  {
    hide Init, Next, Answers, AllKept, Collected, InSnapshot, Matches, Indexed, Scannable, ColumnEntries, AllRebuild, NoDuplicates, ScansExactly;
    UnscoredAnswer(u, ilike, lake, isLarge, lists, manifests, column, queryTerms, op, units, cut, select, c, run, sorter, score, limit);
    AllMatchesSelected(u, lake, isLarge, lists, manifests, column, queryTerms, op, AllKept(u, ilike, units, queryTerms, op), matches);
  }

  /** A scored collected query in which no CPU task panics: the best `min(limit, n)` of the
      `n` rows that planning and verification select, best first. */
  lemma ScoredIsBest(u: Unicode, ilike: Ilike, lake: Lake, isLarge: string -> bool, lists: seq<ManifestList>,
                     manifests: map<string, Manifest>, column: string, queryTerms: seq<string>, op: Operator,
                     units: seq<Unit>, cut: Unit -> seq<seq<ReadRow>>, mode: ScoreMode, select: seq<string>,
                     c: Config, run: seq<System>, sorter: Sorter, score: Row -> Score, limit: Option<nat>)
    returns (rest: seq<Row>)
    requires !mode.ScoreNone? && AllRebuild(u, ilike, units, cut, queryTerms, op, mode, column, select)
    requires Drained(c, run) && sorter.Lawful() && c.earlyLimit == EarlyLimit(true, limit)
    requires Prepared(u, ilike, lake, isLarge, lists, manifests, column, queryTerms, op, units, cut, run[0])
    ensures var r, all := Collected(sorter, run[|run| - 1], score, true, limit), AllKept(u, ilike, units, queryTerms, op);
      && AnswersPart(u, lake, lists, queryTerms, op, r)
      && |r| == LimitTo(limit, |all|)
      && multiset(r) + multiset(rest) == multiset(all)
      && (forall j, k | 0 <= j < k < |r| && score(r[k]).Some? :: score(r[j]).Some? && score(r[j]).value >= score(r[k]).value)
      && (forall x, k | x in rest && score(x).Some? && 0 <= k < |r| :: score(r[k]).Some? && score(r[k]).value >= score(x).value)
  {
    hide Init, Next, AllRows, AllKept, Collected, InSnapshot, Matches, Indexed, Scannable, ColumnEntries, AllRebuild, NoDuplicates,
         ScansExactly;
    PreparedRows(u, ilike, lake, isLarge, lists, manifests, column, queryTerms, op, units, cut, run[0]);
    rest := BestOfFed(c, run, sorter, score, limit);
    var r := Collected(sorter, run[|run| - 1], score, true, limit);
    assert multiset(r) <= multiset(r) + multiset(rest);
    DistinctFromCounts(r, AllKept(u, ilike, units, queryTerms, op));
  }
}

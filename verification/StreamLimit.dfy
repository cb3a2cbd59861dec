/** When `run_query` without scores keeps to its limit. The stream is not truncated, so it
    does exactly when the early stop cannot overshoot. */
module StreamLimit {
  import opened Types
  import opened Sorting
  import opened Tokenizer
  import opened Verify
  import opened Plan
  import opened Search
  import opened Work
  import opened Output
  import opened EndToEnd
  import opened Pipeline
  import opened PipelineSafety
  import opened Rank
  import opened CollectedQuery
  import opened QueryRun
  import opened Streaming

  // --- The record batches of a query ----------------------------------------------------------------

  lemma {:induction false} FlattenMember<T>(pieces: seq<seq<T>>, piece: seq<T>)
    requires piece in pieces
    ensures |piece| <= |Flatten(pieces)| && forall x | x in piece :: x in Flatten(pieces)
  {
    hide Flatten;
    var i :| 0 <= i < |pieces| && pieces[i] == piece;
    PieceAt(pieces, i);
  }

  /** A record batch of a row group keeps some of the rows kept of the row group. */
  lemma PieceKeeps(u: Unicode, ilike: Ilike, x: Unit, pieces: seq<seq<ReadRow>>, piece: seq<ReadRow>, queryTerms: seq<string>,
                   op: Operator)
    requires Flatten(pieces) == x.rows && piece in pieces
    ensures var all, kept := KeptOf(u, ilike, x.mode, x.rows, queryTerms, op), KeptOf(u, ilike, x.mode, piece, queryTerms, op);
      |kept| <= |all| && forall key | key in kept :: key in all
  {
    hide KeptOf, Flatten;
    BatchBoundariesDoNotMatter(u, ilike, x.mode, pieces, queryTerms, op);
    var i :| 0 <= i < |pieces| && pieces[i] == piece;
    var each := KeptEach(u, ilike, x.mode, pieces, queryTerms, op);
    assert each[i] in each;
    FlattenMember(each, each[i]);
  }

  /** Every record batch that verification may see has the property. */
  ghost predicate EveryPiece(u: Unicode, ilike: Ilike, units: seq<Unit>, cut: Unit -> seq<seq<ReadRow>>, queryTerms: seq<string>,
                             op: Operator, ok: RowBatch -> bool)
  {
    forall x, piece | x in units && piece in cut(x) :: ok(KeptOf(u, ilike, x.mode, piece, queryTerms, op))
  }

  lemma {:induction false} BatchesAre(u: Unicode, ilike: Ilike, units: seq<Unit>, cut: Unit -> seq<seq<ReadRow>>,
                                      queryTerms: seq<string>, op: Operator, ok: RowBatch -> bool)
    requires EveryPiece(u, ilike, units, cut, queryTerms, op, ok)
    ensures forall b | b in BatchesOf(u, ilike, units, cut, queryTerms, op) :: ok(b)
  {
    hide KeptOf;
    if units != [] {
      var n := |units| - 1;
      assert units[n] in units && forall x | x in units[..n] :: x in units;
      BatchesAre(u, ilike, units[..n], cut, queryTerms, op, ok);
      var each := KeptEach(u, ilike, units[n].mode, cut(units[n]), queryTerms, op);
      forall b | b in each ensures ok(b) {
        var i :| 0 <= i < |each| && each[i] == b;
        assert cut(units[n])[i] in cut(units[n]);
      }
    }
  }

  lemma StartBatches(u: Unicode, ilike: Ilike, units: seq<Unit>, keys: seq<TaskKey>, cut: Unit -> seq<seq<ReadRow>>,
                     queryTerms: seq<string>, op: Operator, ok: RowBatch -> bool)
    requires EveryPiece(u, ilike, units, cut, queryTerms, op, ok)
    ensures AllBatches(Start(Tasks(u, ilike, units, keys, cut, queryTerms, op)), ok)
  {
    hide KeptOf, BatchesOf, UnitsOf;
    var producers := Tasks(u, ilike, units, keys, cut, queryTerms, op);
    forall p | p in producers ensures forall b | b in p.batches :: ok(b) {
      var i :| 0 <= i < |producers| && producers[i] == p;
      OthersMembers(units, keys[i]);
      BatchesAre(u, ilike, UnitsOf(units, keys[i]), cut, queryTerms, op, ok);
    }
  }

  // --- Within the limit -------------------------------------------------------------------------------

  /** Every row group that is read keeps at most one row. */
  ghost predicate OneEach(u: Unicode, ilike: Ilike, units: seq<Unit>, queryTerms: seq<string>, op: Operator)
  {
    forall x | x in units :: |KeptOf(u, ilike, x.mode, x.rows, queryTerms, op)| <= 1
  }

  lemma OneEachKeepsLimit(u: Unicode, ilike: Ilike, units: seq<Unit>, keys: seq<TaskKey>, cut: Unit -> seq<seq<ReadRow>>,
                          queryTerms: seq<string>, op: Operator, c: Config, run: seq<System>, n: nat, limit: nat)
    requires Cuts(cut, units) && OneEach(u, ilike, units, queryTerms, op) && limit > 0
    requires Run(c, run) && n < |run| && run[0] == Start(Tasks(u, ilike, units, keys, cut, queryTerms, op))
    requires c.earlyLimit == Some(limit)
    ensures |Flatten(run[n].received)| <= limit
  {
    hide KeptOf, Flatten, Tasks, Init, Next, AllBatches;
    var ok := (b: RowBatch) => |b| <= 1;
    forall x, piece | x in units && piece in cut(x) ensures ok(KeptOf(u, ilike, x.mode, piece, queryTerms, op)) {
      PieceKeeps(u, ilike, x, cut(x), piece, queryTerms, op);
    }
    StartBatches(u, ilike, units, keys, cut, queryTerms, op, ok);
    SameBatches(run[0], ok, (b: RowBatch) => |b| <= 1);
    OvershootBound(c, run, n, limit, 1);
  }

  lemma SameBatches(s: System, ok: RowBatch -> bool, ok': RowBatch -> bool)
    requires AllBatches(s, ok) && forall b :: ok(b) ==> ok'(b)
    ensures AllBatches(s, ok')
  {}

  /** The stream never has more rows than the query keeps. */
  lemma AtMostKept(u: Unicode, ilike: Ilike, units: seq<Unit>, keys: seq<TaskKey>, cut: Unit -> seq<seq<ReadRow>>,
                   queryTerms: seq<string>, op: Operator, c: Config, run: seq<System>, n: nat)
    requires Cuts(cut, units) && Lists(keys, units)
    requires Run(c, run) && n < |run| && run[0] == Start(Tasks(u, ilike, units, keys, cut, queryTerms, op))
    ensures |Flatten(run[n].received)| <= |AllKept(u, ilike, units, queryTerms, op)|
  {
    hide AllKept, Flatten, Tasks, Init, Next, ProducersRows;
    TasksCarry(u, ilike, units, keys, cut, queryTerms, op);
    OnlyMatchesArrive(c, run, n);
    Smaller(multiset(Flatten(run[n].dispatcher.collected)), multiset(AllKept(u, ilike, units, queryTerms, op)));
  }

  // --- Beyond the limit -------------------------------------------------------------------------------

  function Singles<T>(rows: seq<T>): (pieces: seq<seq<T>>)
    ensures |pieces| == |rows|
  {
    seq(|rows|, i requires 0 <= i < |rows| => [rows[i]])
  }

  lemma {:induction false} SinglesFlatten<T>(rows: seq<T>)
    ensures Flatten(Singles(rows)) == rows
  {
    if rows != [] {
      var n := |rows| - 1;
      SinglesFlatten(rows[..n]);
      assert Singles(rows)[..n] == Singles(rows[..n]);
    }
  }

  /** The row group `big` is read as one record batch, all others row by row. */
  function CutAround(big: Unit): Unit -> seq<seq<ReadRow>>
  {
    (x: Unit) => if x == big then [x.rows] else Singles(x.rows)
  }

  lemma CutAroundCuts(big: Unit, units: seq<Unit>)
    ensures Cuts(CutAround(big), units)
  {
    hide Flatten;
    forall x | x in units ensures Flatten(CutAround(big)(x)) == x.rows {
      SinglesFlatten(x.rows);
      FlattenOne(x.rows);
    }
  }

  lemma OneRowKeepsOne(u: Unicode, ilike: Ilike, mode: VerifyMode, row: ReadRow, queryTerms: seq<string>, op: Operator)
    ensures |KeptOf(u, ilike, mode, [row], queryTerms, op)| <= 1
  {
    hide KeepMask;
    var keys, mask := KeysIn([row]), KeepMask(u, ilike, mode, [row], queryTerms, op);
    assert keys[..0] == [] && mask[..0] == [];
    assert Pick(keys[..0], mask[..0]) == [];
  }

  /** No other row group keeps a row that `x` keeps. */
  lemma {:induction false} KeptApart(u: Unicode, ilike: Ilike, units: seq<Unit>, x: Unit, y: Unit, key: RowKey,
                                     queryTerms: seq<string>, op: Operator)
    requires x in units && y in units && x != y
    requires key in KeptOf(u, ilike, x.mode, x.rows, queryTerms, op) && key in KeptOf(u, ilike, y.mode, y.rows, queryTerms, op)
    ensures multiset(AllKept(u, ilike, units, queryTerms, op))[key] >= 2
  {
    hide KeptOf;
    var n := |units| - 1;
    var before, last := AllKept(u, ilike, units[..n], queryTerms, op), units[n];
    assert units == units[..n] + [last];
    var kept := KeptOf(u, ilike, last.mode, last.rows, queryTerms, op);
    assert multiset(before + kept)[key] == multiset(before)[key] + multiset(kept)[key];
    if last != x && last != y {
      KeptApart(u, ilike, units[..n], x, y, key, queryTerms, op);
    } else {
      var other := if last == x then y else x;
      AllKeptMembers(u, ilike, units[..n], queryTerms, op, key);
      assert KeptBySome(u, ilike, units[..n], queryTerms, op, key);
      assert key in multiset(before) && key in multiset(kept);
    }
  }

  /** The rows kept of `big`, or at most one row of another row group. */
  function AroundBig(kept: seq<RowKey>): RowBatch -> bool
    requires kept != []
  {
    (b: RowBatch) => b == kept || (|b| <= 1 && kept[0] !in b)
  }

  lemma PiecesAroundBig(u: Unicode, ilike: Ilike, units: seq<Unit>, big: Unit, queryTerms: seq<string>, op: Operator)
    requires NoDuplicates(AllKept(u, ilike, units, queryTerms, op)) && big in units
    requires KeptOf(u, ilike, big.mode, big.rows, queryTerms, op) != []
    ensures EveryPiece(u, ilike, units, CutAround(big), queryTerms, op,
                       AroundBig(KeptOf(u, ilike, big.mode, big.rows, queryTerms, op)))
  {
    hide KeptOf, AllKept, Singles;
    var kept := KeptOf(u, ilike, big.mode, big.rows, queryTerms, op);
    var cut := CutAround(big);
    CutAroundCuts(big, units);
    forall x, piece | x in units && piece in cut(x) ensures AroundBig(kept)(KeptOf(u, ilike, x.mode, piece, queryTerms, op)) {
      if x != big {
        var i :| 0 <= i < |cut(x)| && cut(x)[i] == piece;
        assert piece == [x.rows[i]] by { SingleAt(x.rows, i); }
        OneRowKeepsOne(u, ilike, x.mode, x.rows[i], queryTerms, op);
        PieceKeeps(u, ilike, x, cut(x), piece, queryTerms, op);
        if kept[0] in KeptOf(u, ilike, x.mode, piece, queryTerms, op) {
          KeptApart(u, ilike, units, big, x, kept[0], queryTerms, op);
          DistinctMultiplicity(AllKept(u, ilike, units, queryTerms, op), kept[0]);
        }
      }
    }
  }

  lemma SingleAt<T>(rows: seq<T>, i: nat)
    requires i < |Singles(rows)|
    ensures i < |rows| && Singles(rows)[i] == [rows[i]]
  {}

  lemma {:induction false} FindTask(tasks: seq<Task>, key: RowKey) returns (j: nat)
    requires TasksRows(tasks)[key] == 1
    ensures j < |tasks| && key in tasks[j].rows
    ensures forall i | 0 <= i < |tasks| && i != j :: key !in tasks[i].rows
  {
    var n := |tasks| - 1;
    if key in tasks[n].rows {
      j := n;
      assert key in multiset(tasks[n].rows);
      forall i | 0 <= i < n ensures key !in tasks[i].rows { NotInTasks(tasks[..n], key, i); }
    } else {
      assert key !in multiset(tasks[n].rows);
      j := FindTask(tasks[..n], key);
      forall i | 0 <= i < |tasks| && i != j ensures key !in tasks[i].rows {
        if i < n { assert tasks[..n][i] == tasks[i]; }
      }
    }
  }

  lemma {:induction false} NotInTasks(tasks: seq<Task>, key: RowKey, i: nat)
    requires TasksRows(tasks)[key] == 0 && i < |tasks|
    ensures key !in tasks[i].rows
  {
    var n := |tasks| - 1;
    if i == n {
      assert key !in multiset(tasks[n].rows);
    } else {
      NotInTasks(tasks[..n], key, i);
    }
  }

  /** Everything is read and waits to be verified. */
  lemma Loaded(c: Config, run: seq<System>) returns (longer: seq<System>)
    requires Run(c, run) && c.permits > 0 && |run| == 1 && ProducersWork(run[0].producers) < c.maxCpu
    ensures Run(c, longer) && longer[0] == run[0] && Collecting(longer[|longer| - 1])
    ensures longer[|longer| - 1].dispatcher.rowsMatched == 0
    ensures TasksRows(longer[|longer| - 1].dispatcher.inFlight) == AllRows(run[0])
  {
    hide Next, ProducersWork, ProducersRows, TasksRows, CountRunning;
    longer := LoadAll(c, run);
    var s := longer[|longer| - 1];
    RunKeeps(c, longer, |longer| - 1);
    StoppedHasNothing(s.producers);
    NothingLeft();
  }

  /** Among tasks whose rows are as `AroundBig` says, one is big. */
  lemma OneIsBig(tasks: seq<Task>, kept: seq<RowKey>, size: nat) returns (j: nat)
    requires kept != [] && |kept| >= size && TasksRows(tasks)[kept[0]] == 1
    requires forall t | t in tasks :: AroundBig(kept)(t.rows)
    ensures OneBig(tasks, j, size)
  {
    hide TasksRows;
    j := FindTask(tasks, kept[0]);
    assert AroundBig(kept)(tasks[j].rows);
    forall i | 0 <= i < |tasks| && i != j ensures |tasks[i].rows| <= 1 {
      assert AroundBig(kept)(tasks[i].rows);
    }
  }

  lemma InitStart(c: Config, producers: seq<Producer>)
    requires forall p | p in producers :: p.Waiting?
    ensures Run(c, [Start(producers)])
  {}

  /** A schedule that sends too much: everything is read first, then single rows are
      verified as long as the limit leaves room, and then all of `big` at once. */
  lemma BigOvershoots(u: Unicode, ilike: Ilike, units: seq<Unit>, keys: seq<TaskKey>, big: Unit, queryTerms: seq<string>,
                      op: Operator, limit: nat)
    returns (c: Config, run: seq<System>)
    requires NoDuplicates(AllKept(u, ilike, units, queryTerms, op)) && Lists(keys, units) && big in units
    requires limit < |AllKept(u, ilike, units, queryTerms, op)|
    requires |KeptOf(u, ilike, big.mode, big.rows, queryTerms, op)| >= if limit == 0 then 1 else 2
    ensures Drained(c, run) && c.earlyLimit == Some(limit)
    ensures run[0] == Start(Tasks(u, ilike, units, keys, CutAround(big), queryTerms, op))
    ensures |Flatten(run[|run| - 1].received)| > limit
  {
    hide KeptOf, AllKept, CutAround, Init, Next, Collecting, ProducersWork, ProducersRows, BatchesOf, TasksRows, Flatten;
    var kept := KeptOf(u, ilike, big.mode, big.rows, queryTerms, op);
    var all := AllKept(u, ilike, units, queryTerms, op);
    var producers := Tasks(u, ilike, units, keys, CutAround(big), queryTerms, op);
    c := Config(1, ProducersWork(producers) + 1, Some(limit));
    InitStart(c, producers);
    CutAroundCuts(big, units);
    TasksCarry(u, ilike, units, keys, CutAround(big), queryTerms, op);
    run := Loaded(c, [Start(producers)]);
    var s := run[|run| - 1];
    PiecesAroundBig(u, ilike, units, big, queryTerms, op);
    StartBatches(u, ilike, units, keys, CutAround(big), queryTerms, op, AroundBig(kept));
    RunBatches(c, run, |run| - 1, AroundBig(kept));
    FirstIsKept(u, ilike, units, big, queryTerms, op);
    DistinctMultiplicity(all, kept[0]);
    var j := OneIsBig(s.dispatcher.inFlight, kept, if limit == 0 then 1 else 2);
    run := Overshoots(c, run, j);
  }

  lemma FirstIsKept(u: Unicode, ilike: Ilike, units: seq<Unit>, x: Unit, queryTerms: seq<string>, op: Operator)
    requires x in units && KeptOf(u, ilike, x.mode, x.rows, queryTerms, op) != []
    ensures KeptOf(u, ilike, x.mode, x.rows, queryTerms, op)[0] in multiset(AllKept(u, ilike, units, queryTerms, op))
  {
    hide KeptOf, AllKept;
    var key := KeptOf(u, ilike, x.mode, x.rows, queryTerms, op)[0];
    AllKeptMembers(u, ilike, units, queryTerms, op, key);
    assert KeptBySome(u, ilike, units, queryTerms, op, key);
  }

  lemma {:induction false} SomeKeys(units: seq<Unit>) returns (keys: seq<TaskKey>)
    ensures Lists(keys, units)
  {
    keys := [];
    if units != [] {
      var n := |units| - 1;
      keys := SomeKeys(units[..n]);
      assert units == units[..n] + [units[n]];
      if KeyFor(units[n]) !in keys { keys := keys + [KeyFor(units[n])]; }
    }
  }

  // --- The exact condition ----------------------------------------------------------------------------

  /** A run that streams the answer to an unscored query over a table to its end; none of its
      CPU tasks panics. */
  ghost predicate Streams(u: Unicode, ilike: Ilike, lake: Lake, isLarge: string -> bool, lists: seq<ManifestList>,
                          manifests: map<string, Manifest>, column: string, queryTerms: seq<string>, op: Operator,
                          units: seq<Unit>, cut: Unit -> seq<seq<ReadRow>>, select: seq<string>, limit: nat,
                          c: Config, run: seq<System>)
  {
    && Drained(c, run) && c.earlyLimit == EarlyLimit(false, Some(limit))
    && Prepared(u, ilike, lake, isLarge, lists, manifests, column, queryTerms, op, units, cut, run[0])
    && AllRebuild(u, ilike, units, cut, queryTerms, op, ScoreNone, column, select)
  }

  /** Whatever the order of the files, the record batches, the permits and threads, and the
      schedule: the consumer gets no more rows than the limit. */
  ghost predicate KeepsLimit(u: Unicode, ilike: Ilike, lake: Lake, isLarge: string -> bool, lists: seq<ManifestList>,
                             manifests: map<string, Manifest>, column: string, queryTerms: seq<string>, op: Operator,
                             units: seq<Unit>, select: seq<string>, limit: nat)
  {
    forall cut: Unit -> seq<seq<ReadRow>>, c: Config, run: seq<System> |
      Streams(u, ilike, lake, isLarge, lists, manifests, column, queryTerms, op, units, cut, select, limit, c, run) ::
      |Flatten(run[|run| - 1].received)| <= limit
  }

  /** One direction: the stream stays within the limit. */
  lemma StreamWithin(u: Unicode, ilike: Ilike, lake: Lake, isLarge: string -> bool, lists: seq<ManifestList>,
                     manifests: map<string, Manifest>, column: string, queryTerms: seq<string>, op: Operator,
                     units: seq<Unit>, cut: Unit -> seq<seq<ReadRow>>, select: seq<string>, limit: nat,
                     c: Config, run: seq<System>)
    requires Streams(u, ilike, lake, isLarge, lists, manifests, column, queryTerms, op, units, cut, select, limit, c, run)
    requires |AllKept(u, ilike, units, queryTerms, op)| <= limit || (limit > 0 && OneEach(u, ilike, units, queryTerms, op))
    ensures |Flatten(run[|run| - 1].received)| <= limit
  {
    hide Answers, ScansExactly, AllKept, Cuts, Lists, Tasks, OneEach, AllRebuild, Flatten, Init, Next;
    var keys :| Lists(keys, units) && run[0] == Start(Tasks(u, ilike, units, keys, cut, queryTerms, op));
    if |AllKept(u, ilike, units, queryTerms, op)| <= limit {
      AtMostKept(u, ilike, units, keys, cut, queryTerms, op, c, run, |run| - 1);
    } else {
      OneEachKeepsLimit(u, ilike, units, keys, cut, queryTerms, op, c, run, |run| - 1, limit);
    }
  }

  lemma BigUnit(u: Unicode, ilike: Ilike, units: seq<Unit>, queryTerms: seq<string>, op: Operator, limit: nat)
    returns (big: Unit)
    requires limit < |AllKept(u, ilike, units, queryTerms, op)| && (limit > 0 ==> !OneEach(u, ilike, units, queryTerms, op))
    ensures big in units && |KeptOf(u, ilike, big.mode, big.rows, queryTerms, op)| >= if limit == 0 then 1 else 2
  {
    hide AllKept, KeptOf;
    if limit == 0 {
      KeepsSomething(u, ilike, units, queryTerms, op);
      big :| big in units && KeptOf(u, ilike, big.mode, big.rows, queryTerms, op) != [];
    } else {
      big :| big in units && |KeptOf(u, ilike, big.mode, big.rows, queryTerms, op)| > 1;
    }
  }

  /** The other: a stream with more rows than the limit. */
  lemma StreamBeyond(u: Unicode, ilike: Ilike, lake: Lake, isLarge: string -> bool, lists: seq<ManifestList>,
                     manifests: map<string, Manifest>, column: string, queryTerms: seq<string>, op: Operator,
                     units: seq<Unit>, select: seq<string>, limit: nat)
    returns (cut: Unit -> seq<seq<ReadRow>>, c: Config, run: seq<System>)
    requires Answers(u, lake, isLarge, lists, manifests, column, queryTerms, op, AllKept(u, ilike, units, queryTerms, op))
    requires ScansExactly(u, ilike, lake, isLarge, lists, manifests, column, queryTerms, op, units)
    requires NamesFree(column, select) && limit < |AllKept(u, ilike, units, queryTerms, op)|
    requires limit > 0 ==> !OneEach(u, ilike, units, queryTerms, op)
    ensures Streams(u, ilike, lake, isLarge, lists, manifests, column, queryTerms, op, units, cut, select, limit, c, run)
    ensures |Flatten(run[|run| - 1].received)| > limit
  {
    hide ScansExactly, AllKept, KeptOf, Tasks, Lists, NamesFree, Flatten, Init, Next, InSnapshot, Matches, Indexed, Scannable,
         ColumnEntries, NoDuplicates, AllRebuild, Cuts, CutAround;
    var big := BigUnit(u, ilike, units, queryTerms, op, limit);
    var keys := SomeKeys(units);
    cut := CutAround(big);
    CutAroundCuts(big, units);
    c, run := BigOvershoots(u, ilike, units, keys, big, queryTerms, op, limit);
    QueryRebuildsIff(u, ilike, units, cut, queryTerms, op, ScoreNone, column, select);
  }

  /** When a selected column takes the name of a result column, a query that keeps a row
      panics. */
  lemma NoStream(u: Unicode, ilike: Ilike, lake: Lake, isLarge: string -> bool, lists: seq<ManifestList>,
                 manifests: map<string, Manifest>, column: string, queryTerms: seq<string>, op: Operator,
                 units: seq<Unit>, cut: Unit -> seq<seq<ReadRow>>, select: seq<string>, limit: nat,
                 c: Config, run: seq<System>)
    requires Streams(u, ilike, lake, isLarge, lists, manifests, column, queryTerms, op, units, cut, select, limit, c, run)
    ensures NamesFree(column, select) || AllKept(u, ilike, units, queryTerms, op) == []
  {
    hide Answers, ScansExactly, AllKept, KeptOf, Cuts, Lists, Tasks, NamesFree, AllRebuild, Drained;
    QueryRebuildsIff(u, ilike, units, cut, queryTerms, op, ScoreNone, column, select);
    KeepsSomething(u, ilike, units, queryTerms, op);
  }

  /** The streaming query keeps to its limit over a table, in every run in which no CPU task
      panics, if and only if it keeps no more rows than the limit, or the limit is not zero
      and every row group that is read keeps at most one row, or some CPU task is bound to
      panic. */
  lemma StreamKeepsLimitIff(u: Unicode, ilike: Ilike, lake: Lake, isLarge: string -> bool, lists: seq<ManifestList>,
                            manifests: map<string, Manifest>, column: string, queryTerms: seq<string>, op: Operator,
                            units: seq<Unit>, select: seq<string>, limit: nat)
    requires Answers(u, lake, isLarge, lists, manifests, column, queryTerms, op, AllKept(u, ilike, units, queryTerms, op))
    requires ScansExactly(u, ilike, lake, isLarge, lists, manifests, column, queryTerms, op, units)
    ensures KeepsLimit(u, ilike, lake, isLarge, lists, manifests, column, queryTerms, op, units, select, limit)
       <==> |AllKept(u, ilike, units, queryTerms, op)| <= limit
            || (limit > 0 && OneEach(u, ilike, units, queryTerms, op))
            || !NamesFree(column, select)
  {
    hide Answers, ScansExactly, AllKept, OneEach, NamesFree, Streams, Flatten;
    var n := |AllKept(u, ilike, units, queryTerms, op)|;
    if n > limit && !(limit > 0 && OneEach(u, ilike, units, queryTerms, op)) && NamesFree(column, select) {
      var cut, c, run := StreamBeyond(u, ilike, lake, isLarge, lists, manifests, column, queryTerms, op, units, select, limit);
      StreamRuns(u, ilike, lake, isLarge, lists, manifests, column, queryTerms, op, units, cut, select, limit, c, run);
    } else {
      forall cut: Unit -> seq<seq<ReadRow>>, c: Config, run: seq<System> |
        Streams(u, ilike, lake, isLarge, lists, manifests, column, queryTerms, op, units, cut, select, limit, c, run)
        ensures run != [] && |Flatten(run[|run| - 1].received)| <= limit
      {
        StreamRuns(u, ilike, lake, isLarge, lists, manifests, column, queryTerms, op, units, cut, select, limit, c, run);
        NoStream(u, ilike, lake, isLarge, lists, manifests, column, queryTerms, op, units, cut, select, limit, c, run);
        StreamWithin(u, ilike, lake, isLarge, lists, manifests, column, queryTerms, op, units, cut, select, limit, c, run);
      }
    }
  }

  lemma StreamRuns(u: Unicode, ilike: Ilike, lake: Lake, isLarge: string -> bool, lists: seq<ManifestList>,
                   manifests: map<string, Manifest>, column: string, queryTerms: seq<string>, op: Operator,
                   units: seq<Unit>, cut: Unit -> seq<seq<ReadRow>>, select: seq<string>, limit: nat,
                   c: Config, run: seq<System>)
    requires Streams(u, ilike, lake, isLarge, lists, manifests, column, queryTerms, op, units, cut, select, limit, c, run)
    ensures run != []
  {
    hide Prepared, AllRebuild, Init, Next;
  }
}

/** `run_query_collected`: the pipeline drained to its end, then ranked and limited. */
module CollectedQuery {
  import opened Types
  import opened Sorting
  import opened Search
  import opened Pipeline
  import opened PipelineSafety
  import opened Rank

  // --- The collected result ---------------------------------------------------------------------

  /** `launch_pipeline`: only an unscored query stops early. */
  function EarlyLimit(withScore: bool, limit: Option<nat>): Option<nat> { if withScore then None else limit }

  /** A run of the pipeline drained to its end. */
  ghost predicate Drained(c: Config, run: seq<System>)
  {
    Run(c, run) && c.permits > 0 && c.maxCpu > 0 && run[|run| - 1].consumer.Finished?
  }

  /** The result of `run_query_collected`. */
  function Collected(sorter: Sorter, s: System, score: Row -> Score, withScore: bool, limit: Option<nat>): seq<Row>
    requires sorter.Lawful()
  {
    Flatten(RankBatches(sorter, s.received, score, withScore, limit))
  }

  lemma PrefixCounts(rows: seq<Row>, n: nat)
    requires n <= |rows|
    ensures multiset(rows[..n]) <= multiset(rows)
  {
    assert rows == rows[..n] + rows[n..];
  }

  /** Without scores: exactly `min(limit, n)` of the `n` matching rows, whatever the
      schedule; all of them when there is no limit. */
  lemma UnscoredIsExact(c: Config, run: seq<System>, sorter: Sorter, score: Row -> Score, limit: Option<nat>)
    requires Drained(c, run) && sorter.Lawful() && c.earlyLimit == EarlyLimit(false, limit)
    ensures var r, all := Collected(sorter, run[|run| - 1], score, false, limit), AllRows(run[0]);
      && |r| == LimitTo(limit, |all|)
      && multiset(r) <= all
      && (limit.None? ==> multiset(r) == all)
  {
    hide Flatten, WellSized, AllRows, RankBatches;
    var s, all := run[|run| - 1], AllRows(run[0]);
    var rows := Flatten(s.received);
    assert Delivered(c, s, all) by { Delivery(c, run); }
    UnscoredKeepsFirst(sorter, s.received, score, limit);
    PrefixCounts(rows, LimitTo(limit, |rows|));
    Smaller(multiset(rows), all);
    assert rows[..|rows|] == rows;
  }

  lemma Smaller(a: multiset<Row>, b: multiset<Row>)
    requires a <= b
    ensures |a| <= |b|
  {
    assert b == a + (b - a);
  }

  /** With scores: the best `min(limit, n)` of all rows the pipeline was given, best first. */
  lemma BestOfFed(c: Config, run: seq<System>, sorter: Sorter, score: Row -> Score, limit: Option<nat>)
    returns (rest: seq<Row>)
    requires Drained(c, run) && sorter.Lawful() && c.earlyLimit == EarlyLimit(true, limit)
    ensures var r, all := Collected(sorter, run[|run| - 1], score, true, limit), AllRows(run[0]);
      && |r| == LimitTo(limit, |all|)
      && multiset(r) + multiset(rest) == all
      && (forall j, k | 0 <= j < k < |r| && score(r[k]).Some? :: score(r[j]).Some? && score(r[j]).value >= score(r[k]).value)
      && (forall x, k | x in rest && score(x).Some? && 0 <= k < |r| :: score(r[k]).Some? && score(r[k]).value >= score(x).value)
  {
    hide Flatten, WellSized, AllRows, RankBatches;
    var s, all := run[|run| - 1], AllRows(run[0]);
    assert Delivered(c, s, all) by { Delivery(c, run); }
    rest := ScoredKeepsBest(sorter, s.received, score, limit);
  }

  lemma DistinctFromCounts(rows: seq<Row>, all: seq<Row>)
    requires multiset(rows) <= multiset(all) && NoDuplicates(all)
    ensures NoDuplicates(rows) && forall x | x in rows :: x in all
  {
    forall i, j | 0 <= i < j < |rows| ensures rows[i] != rows[j] {
      if rows[i] == rows[j] {
        MultiplicityTwo(rows, i, j);
        DistinctMultiplicity(all, rows[i]);
      }
    }
    forall x | x in rows ensures x in all {
      assert x in multiset(rows);
    }
  }

  /** The pipeline's answer in terms of a list of the rows it is given: no row twice, none
      that was not given, the exact number, and all without a limit. */
  lemma AnswerIsExact(rows: seq<Row>, c: Config, run: seq<System>, sorter: Sorter, score: Row -> Score, limit: Option<nat>)
    requires NoDuplicates(rows) && Drained(c, run) && AllRows(run[0]) == multiset(rows)
    requires sorter.Lawful() && c.earlyLimit == EarlyLimit(false, limit)
    ensures var r := Collected(sorter, run[|run| - 1], score, false, limit);
      && NoDuplicates(r)
      && |r| == LimitTo(limit, |rows|)
      && (forall x | x in r :: x in rows)
      && (limit.None? ==> forall x | x in rows :: x in r)
  {
    hide Init, Next, AllRows, NoDuplicates, Collected;
    UnscoredIsExact(c, run, sorter, score, limit);
    var r := Collected(sorter, run[|run| - 1], score, false, limit);
    DistinctFromCounts(r, rows);
    if limit.None? {
      forall x | x in rows ensures x in r { assert x in multiset(r); }
    }
  }
}

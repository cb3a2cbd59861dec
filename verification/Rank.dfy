/** Ranking and limiting: the last stage of a query. Scores are ordered values; a missing
    score sorts last. */
module Rank {
  import opened Types

  type Score = Option<int>

  predicate ScoreLeq(a: Score, b: Score) { a.None? || (b.Some? && a.value <= b.value) }

  /** How many of `n` rows a limit keeps. */
  function LimitTo(limit: Option<nat>, n: nat): (m: nat)
    ensures m <= n && (limit.Some? ==> m <= limit.value)
    ensures m == n || (limit.Some? && m == limit.value)
  {
    if limit.Some? && limit.value < n then limit.value else n
  }

  /** `indices` are positions of a best selection, best first. */
  ghost predicate TopIndices(scores: seq<Score>, limit: Option<nat>, indices: seq<nat>)
  {
    && |indices| == LimitTo(limit, |scores|)
    && (forall k | 0 <= k < |indices| :: indices[k] < |scores|)
    && (forall j, k | 0 <= j < k < |indices| :: indices[j] != indices[k] && ScoreLeq(scores[indices[k]], scores[indices[j]]))
    && (forall i, k | 0 <= i < |scores| && i !in indices && 0 <= k < |indices| :: ScoreLeq(scores[i], scores[indices[k]]))
  }

  /** Arrow's `lexsort_to_indices` on the score column, descending, nulls last; the order of
      equal scores is its own. */
  datatype Sorter = Sorter(indices: (seq<Score>, Option<nat>) -> seq<nat>) {
    ghost predicate Lawful()
    {
      forall scores, limit :: TopIndices(scores, limit, indices(scores, limit))
    }
  }

  function NonEmpty<T(==)>(batches: seq<seq<T>>): seq<seq<T>>
  {
    if batches == [] then []
    else NonEmpty(batches[..|batches| - 1]) + (if batches[|batches| - 1] == [] then [] else [batches[|batches| - 1]])
  }

  lemma {:induction false} NonEmptyFlattens<T>(batches: seq<seq<T>>)
    ensures Flatten(NonEmpty(batches)) == Flatten(batches)
  {
    if batches != [] {
      var n := |batches| - 1;
      NonEmptyFlattens(batches[..n]);
      var before := NonEmpty(batches[..n]);
      if batches[n] == [] {
        assert before + [] == before;
      } else {
        assert (before + [batches[n]])[..|before|] == before;
      }
    }
  }

  /** Arrow's `take`. */
  function Take<T>(rows: seq<T>, indices: seq<nat>): (taken: seq<T>)
    requires forall k | 0 <= k < |indices| :: indices[k] < |rows|
    ensures |taken| == |indices|
  {
    seq(|indices|, k requires 0 <= k < |indices| => rows[indices[k]])
  }

  function Scores<T>(rows: seq<T>, score: T -> Score): (scores: seq<Score>)
    ensures |scores| == |rows|
  {
    seq(|rows|, i requires 0 <= i < |rows| => score(rows[i]))
  }

  /** `rank_batches`. */
  function RankBatches<T(==)>(sorter: Sorter, batches: seq<seq<T>>, score: T -> Score, withScore: bool, limit: Option<nat>): seq<seq<T>>
    requires sorter.Lawful()
  {
    var nonEmpty := NonEmpty(batches);
    if nonEmpty == [] then []
    else
      var combined := Flatten(nonEmpty);
      if combined == [] then []
      else if withScore then
        assert TopIndices(Scores(combined, score), limit, sorter.indices(Scores(combined, score), limit));
        [Take(combined, sorter.indices(Scores(combined, score), limit))]
      else if limit.Some? then [combined[..LimitTo(limit, |combined|)]]
      else [combined]
  }

  lemma FlattenOne<T>(batch: seq<T>)
    ensures Flatten([batch]) == batch && Flatten<T>([]) == []
  {
    assert [batch][..0] == [];
  }

  /** Without scores the result is the first rows, as many as the limit allows. */
  lemma UnscoredKeepsFirst<T>(sorter: Sorter, batches: seq<seq<T>>, score: T -> Score, limit: Option<nat>)
    requires sorter.Lawful()
    ensures var rows := Flatten(batches);
      Flatten(RankBatches(sorter, batches, score, false, limit)) == rows[..LimitTo(limit, |rows|)]
  {
    hide Flatten, TopIndices, NonEmpty;
    NonEmptyFlattens(batches);
    var rows := Flatten(batches);
    FlattenOne(rows[..LimitTo(limit, |rows|)]);
    FlattenOne(rows);
  }

  /** The rows at positions not in `indices`. */
  function Rest<T>(rows: seq<T>, indices: seq<nat>): seq<T>
  {
    if rows == [] then []
    else
      var n := |rows| - 1;
      Rest(rows[..n], indices) + (if n in indices then [] else [rows[n]])
  }

  lemma {:induction false} RestMembers<T>(rows: seq<T>, indices: seq<nat>, x: T)
    requires x in Rest(rows, indices)
    ensures exists i :: 0 <= i < |rows| && i !in indices && rows[i] == x
  {
    var n := |rows| - 1;
    if x in Rest(rows[..n], indices) {
      RestMembers(rows[..n], indices, x);
      var i :| 0 <= i < n && i !in indices && rows[..n][i] == x;
      assert rows[i] == x;
    } else {
      assert rows[n] == x;
    }
  }

  lemma {:induction false} RestIgnores<T>(rows: seq<T>, indices: seq<nat>, p: nat)
    requires p < |indices| && indices[p] >= |rows|
    ensures Rest(rows, indices[..p] + indices[p + 1..]) == Rest(rows, indices)
  {
    if rows != [] {
      var n := |rows| - 1;
      RestIgnores(rows[..n], indices, p);
      assert n in indices <==> n in indices[..p] + indices[p + 1..] by {
        if n in indices {
          var k :| 0 <= k < |indices| && indices[k] == n;
          if k < p { assert indices[..p][k] == n; } else { assert indices[p + 1..][k - p - 1] == n; }
        }
      }
    }
  }

  /** Taking around the position of the last row. */
  lemma TakeAround<T>(rows: seq<T>, indices: seq<nat>, p: nat)
    requires rows != [] && p < |indices| && indices[p] == |rows| - 1
    requires forall k | 0 <= k < |indices| :: indices[k] < |rows|
    requires forall j, k | 0 <= j < k < |indices| :: indices[j] != indices[k]
    ensures var others := indices[..p] + indices[p + 1..];
      && (forall k | 0 <= k < |others| :: others[k] < |rows| - 1)
      && (forall j, k | 0 <= j < k < |others| :: others[j] != others[k])
      && multiset(Take(rows, indices)) == multiset(Take(rows[..|rows| - 1], others)) + multiset{rows[|rows| - 1]}
  {
    var n := |rows| - 1;
    var others := indices[..p] + indices[p + 1..];
    forall k | 0 <= k < |others| ensures others[k] < n {
      if k < p { assert indices[k] != indices[p]; } else { assert indices[k + 1] != indices[p]; }
    }
    var taken := Take(rows[..n], others);
    assert taken == taken[..p] + taken[p..];
    assert Take(rows, indices) == taken[..p] + [rows[n]] + taken[p..];
  }

  lemma Appended<T>(a: seq<T>, x: T)
    ensures multiset(a + [x]) == multiset(a) + multiset{x}
  {}

  lemma Regroup<T>(a: multiset<T>, r: multiset<T>, x: multiset<T>)
    ensures (a + x) + r == (a + r) + x && a + (r + x) == (a + r) + x
  {}

  lemma LastRow<T>(rows: seq<T>, indices: seq<nat>)
    requires rows != []
    ensures var n := |rows| - 1;
      && multiset(rows) == multiset(rows[..n]) + multiset{rows[n]}
      && multiset(Rest(rows, indices))
         == multiset(Rest(rows[..n], indices)) + (if n in indices then multiset{} else multiset{rows[n]})
  {
    var n := |rows| - 1;
    var rest := Rest(rows[..n], indices);
    assert rows[..n] + [rows[n]] == rows;
    Appended(rows[..n], rows[n]);
    assert Rest(rows, indices) == if n in indices then rest else rest + [rows[n]];
    hide Rest;
    Appended(rest, rows[n]);
  }

  lemma TakeFromFront<T>(rows: seq<T>, indices: seq<nat>)
    requires rows != [] && |rows| - 1 !in indices && forall k | 0 <= k < |indices| :: indices[k] < |rows|
    ensures forall k | 0 <= k < |indices| :: indices[k] < |rows| - 1
    ensures Take(rows, indices) == Take(rows[..|rows| - 1], indices)
  {}

  /** Taking distinct positions splits the rows in two. */
  lemma {:induction false} TakeSplits<T>(rows: seq<T>, indices: seq<nat>)
    requires forall k | 0 <= k < |indices| :: indices[k] < |rows|
    requires forall j, k | 0 <= j < k < |indices| :: indices[j] != indices[k]
    ensures multiset(Take(rows, indices)) + multiset(Rest(rows, indices)) == multiset(rows)
    decreases |rows|
  {
    if rows == [] {
      assert indices == [];
    } else {
      hide Take, Rest;
      var n := |rows| - 1;
      LastRow(rows, indices);
      if n in indices {
        var p :| 0 <= p < |indices| && indices[p] == n;
        TakeAround(rows, indices, p);
        RestIgnores(rows[..n], indices, p);
        var others := indices[..p] + indices[p + 1..];
        TakeSplits(rows[..n], others);
        Regroup(multiset(Take(rows[..n], others)), multiset(Rest(rows[..n], indices)), multiset{rows[n]});
      } else {
        TakeFromFront(rows, indices);
        TakeSplits(rows[..n], indices);
        Regroup(multiset(Take(rows, indices)), multiset(Rest(rows[..n], indices)), multiset{rows[n]});
      }
    }
  }

  lemma HigherFirst(a: Score, b: Score)
    requires ScoreLeq(a, b)
    ensures a.Some? ==> b.Some? && b.value >= a.value
  {}

  /** With scores the result is a best selection, best first: what is left out scores no
      higher than anything kept. */
  lemma ScoredKeepsBest<T>(sorter: Sorter, batches: seq<seq<T>>, score: T -> Score, limit: Option<nat>)
    returns (rest: seq<T>)
    requires sorter.Lawful()
    ensures var rows := Flatten(batches);
      var r := Flatten(RankBatches(sorter, batches, score, true, limit));
      && |r| == LimitTo(limit, |rows|)
      && multiset(r) + multiset(rest) == multiset(rows)
      && (forall j, k | 0 <= j < k < |r| && score(r[k]).Some? :: score(r[j]).Some? && score(r[j]).value >= score(r[k]).value)
      && (forall x, k | x in rest && score(x).Some? && 0 <= k < |r| :: score(r[k]).Some? && score(r[k]).value >= score(x).value)
  {
    hide Flatten, NonEmpty, ScoreLeq;
    NonEmptyFlattens(batches);
    var rows := Flatten(batches);
    if rows == [] || NonEmpty(batches) == [] {
      FlattenOne<T>([]);
      rest := [];
    } else {
      var scores := Scores(rows, score);
      var indices := sorter.indices(scores, limit);
      assert TopIndices(scores, limit, indices);
      var r := Take(rows, indices);
      FlattenOne(r);
      TakeSplits(rows, indices);
      rest := Rest(rows, indices);
      forall x, k | x in rest && 0 <= k < |r|
        ensures score(x).Some? ==> score(r[k]).Some? && score(r[k]).value >= score(x).value
      {
        RestMembers(rows, indices, x);
        var i :| 0 <= i < |rows| && i !in indices && rows[i] == x;
        assert ScoreLeq(scores[i], scores[indices[k]]);
        HigherFirst(scores[i], scores[indices[k]]);
      }
      forall j, k | 0 <= j < k < |r|
        ensures score(r[k]).Some? ==> score(r[j]).Some? && score(r[j]).value >= score(r[k]).value
      {
        assert ScoreLeq(scores[indices[k]], scores[indices[j]]);
        HigherFirst(scores[indices[k]], scores[indices[j]]);
      }
    }
  }
}

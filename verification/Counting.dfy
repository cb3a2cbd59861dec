/** What the index's numbers count: its frequencies are numbers of rows, its totals the
    numbers of rows and of tokens. */
module Counting {
  import opened Types
  import opened Tokenizer
  import opened ParquetUtil
  import opened Indexer
  import opened BatchIndex

  ghost predicate AllDifferent<T>(xs: seq<T>)
  {
    forall i, j | 0 <= i < j < |xs| :: xs[i] != xs[j]
  }

  lemma DifferentConcat<T>(a: seq<T>, b: seq<T>)
    requires AllDifferent(a) && AllDifferent(b) && forall x | x in a :: x !in b
    ensures AllDifferent(a + b)
  {
    forall i, j | 0 <= i < j < |a + b| ensures (a + b)[i] != (a + b)[j] {
      if i < |a| <= j { assert a[i] in a && b[j - |a|] in b; }
    }
  }

  /** The first `n` rows of a row group. */
  function RowsOfGroup(f: nat, g: nat, n: nat): (xs: seq<RowRef>)
    ensures |xs| == n && forall i | 0 <= i < n :: xs[i] == RowRef(f, g, i)
  {
    seq(n, i requires 0 <= i < n => RowRef(f, g, i))
  }

  lemma RowsOfGroupMembers(f: nat, g: nat, n: nat)
    ensures AllDifferent(RowsOfGroup(f, g, n))
    ensures forall x :: x in RowsOfGroup(f, g, n) <==> x.file == f && x.group == g && x.row < n
  {
    forall x: RowRef | x.file == f && x.group == g && x.row < n ensures x in RowsOfGroup(f, g, n) {
      assert RowsOfGroup(f, g, n)[x.row] == x;
    }
  }

  /** The rows among the first `n` of a row group that have the term. */
  lemma {:induction false} RowsOfGroupWith(u: Unicode, rows: seq<Option<string>>, f: nat, g: nat, t: string, n: nat)
    returns (xs: seq<RowRef>)
    requires n <= |rows|
    ensures |xs| == CountRows(u, rows[..n], t) && AllDifferent(xs)
    ensures forall x :: x in xs <==> x.file == f && x.group == g && x.row < n && HasToken(u, rows[x.row], t)
  {
    hide HasToken;
    xs := [];
    if n > 0 {
      xs := RowsOfGroupWith(u, rows, f, g, t, n - 1);
      assert rows[..n][..n - 1] == rows[..n - 1];
      if HasToken(u, rows[n - 1], t) { xs := xs + [RowRef(f, g, n - 1)]; }
    }
  }

  lemma GroupStep(files: seq<ParquetFile>, f: nat, g: nat)
    requires f < |files| && 0 < g <= |files[f].groups|
    ensures forall x | ValidRow(files, x) ::
              InGroupsBefore(x, f, g) <==> InGroupsBefore(x, f, g - 1) || (x.file == f && x.group == g - 1)
    ensures forall x | ValidRow(files, x) && InGroupsBefore(x, f, g - 1) :: !(x.file == f && x.group == g - 1)
  {}

  lemma FileStep(files: seq<ParquetFile>, f: nat)
    requires 0 < f <= |files|
    ensures forall x | ValidRow(files, x) :: InGroupsBefore(x, f, 0) <==> InGroupsBefore(x, f - 1, |files[f - 1].groups|)
  {}

  /** A term's frequency is the number of rows that have it. */
  lemma {:induction false} FrequencyCountsRows(u: Unicode, files: seq<ParquetFile>, f: nat, g: nat, t: string)
    returns (xs: seq<RowRef>)
    requires f <= |files| && (if f < |files| then g <= |files[f].groups| else g == 0)
    ensures |xs| == RowsWithTerm(u, files, f, g, t) && AllDifferent(xs)
    ensures forall x :: x in xs <==> ValidRow(files, x) && InGroupsBefore(x, f, g) && HasToken(u, RowAt(files, x), t)
    decreases f, g
  {
    hide HasToken, CountRows, AllDifferent, InGroupsBefore;
    xs := [];
    if g > 0 {
      xs := FrequencyCountsRows(u, files, f, g - 1, t);
      var rows := files[f].groups[g - 1].rows;
      var more := RowsOfGroupWith(u, rows, f, g - 1, t, |rows|);
      assert rows[..|rows|] == rows;
      GroupStep(files, f, g);
      DifferentConcat(xs, more);
      xs := xs + more;
    } else if f > 0 {
      xs := FrequencyCountsRows(u, files, f - 1, |files[f - 1].groups|, t);
      FileStep(files, f);
    } else {
      NoRowBefore(files);
    }
  }

  lemma NoRowBefore(files: seq<ParquetFile>)
    ensures forall x :: !InGroupsBefore(x, 0, 0)
    ensures AllDifferent<RowRef>([])
  {}

  /** The total of rows is the number of rows of the batch. */
  lemma {:induction false} TotalCountsRows(files: seq<ParquetFile>, f: nat, g: nat) returns (xs: seq<RowRef>)
    requires f <= |files| && (if f < |files| then g <= |files[f].groups| else g == 0)
    ensures |xs| == RowsBefore(files, f, g) && AllDifferent(xs)
    ensures forall x :: x in xs <==> ValidRow(files, x) && InGroupsBefore(x, f, g)
    decreases f, g
  {
    hide AllDifferent, InGroupsBefore;
    xs := [];
    if g > 0 {
      xs := TotalCountsRows(files, f, g - 1);
      var n := |files[f].groups[g - 1].rows|;
      RowsOfGroupMembers(f, g - 1, n);
      GroupStep(files, f, g);
      DifferentConcat(xs, RowsOfGroup(f, g - 1, n));
      xs := xs + RowsOfGroup(f, g - 1, n);
    } else if f > 0 {
      xs := TotalCountsRows(files, f - 1, |files[f - 1].groups|);
      FileStep(files, f);
    } else {
      NoRowBefore(files);
    }
  }

  /** The tokens of the rows, row after row. */
  function TokensOf(u: Unicode, rows: seq<Option<string>>): seq<seq<string>>
  {
    seq(|rows|, i requires 0 <= i < |rows| => if rows[i].Some? then Tokenize(u, rows[i].value) else [])
  }

  /** A row group's token count is the length of its rows' token lists, repetitions included. */
  lemma {:induction false} CountTokensIs(u: Unicode, rows: seq<Option<string>>)
    ensures CountTokens(u, rows) == |Flatten(TokensOf(u, rows))|
  {
    hide Tokenize;
    if rows != [] {
      var n := |rows| - 1;
      CountTokensIs(u, rows[..n]);
      assert TokensOf(u, rows)[..n] == TokensOf(u, rows[..n]);
    }
  }

  /** All rows of the groups before (`f`, `g`), in reading order. */
  function TextBefore(files: seq<ParquetFile>, f: nat, g: nat): seq<Option<string>>
    requires f <= |files| && (if f < |files| then g <= |files[f].groups| else g == 0)
    decreases f, g
  {
    if g > 0 then TextBefore(files, f, g - 1) + files[f].groups[g - 1].rows
    else if f > 0 then TextBefore(files, f - 1, |files[f - 1].groups|)
    else []
  }

  lemma {:induction false} CountTokensConcat(u: Unicode, a: seq<Option<string>>, b: seq<Option<string>>)
    ensures CountTokens(u, a + b) == CountTokens(u, a) + CountTokens(u, b)
    decreases |b|
  {
    hide RowTokens;
    if b == [] {
      assert a + b == a;
    } else {
      var n := |b| - 1;
      assert (a + b)[..|a| + n] == a + b[..n];
      CountTokensConcat(u, a, b[..n]);
    }
  }

  /** The total of tokens is the length of all rows' token lists. */
  lemma {:induction false} TotalCountsTokens(u: Unicode, files: seq<ParquetFile>, f: nat, g: nat)
    requires f <= |files| && (if f < |files| then g <= |files[f].groups| else g == 0)
    ensures TokensBefore(u, files, f, g) == |Flatten(TokensOf(u, TextBefore(files, f, g)))|
    decreases f, g
  {
    hide CountTokens, TokensOf, Flatten;
    CountTokensIs(u, TextBefore(files, f, g));
    if g > 0 {
      TotalCountsTokens(u, files, f, g - 1);
      CountTokensIs(u, TextBefore(files, f, g - 1));
      CountTokensConcat(u, TextBefore(files, f, g - 1), files[f].groups[g - 1].rows);
    } else if f > 0 {
      TotalCountsTokens(u, files, f - 1, |files[f - 1].groups|);
      CountTokensIs(u, TextBefore(files, f - 1, |files[f - 1].groups|));
    } else {
      NoTokens(u);
    }
  }

  lemma NoTokens(u: Unicode)
    ensures CountTokens(u, []) == 0
  {}
}

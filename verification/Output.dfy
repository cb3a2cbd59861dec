/** The output batch of a verified record batch: which columns it carries in each score mode,
    and when they fit the query's schema. A batch that does not fit panics in its CPU task. */
module Output {
  import opened Types
  import opened Tokenizer
  import opened Verify
  import opened Work

  datatype ScoreMode = ScoreNone | ScoreIndexed | ScoreAll

  const TEXT_COL: string := "text"
  const SCORE_COL: string := "score"

  function Without(names: seq<string>, name: string): (r: seq<string>)
    ensures forall x :: x in r <==> x in names && x != name
  {
    if names == [] then []
    else Without(names[..|names| - 1], name) + (if names[|names| - 1] == name then [] else [names[|names| - 1]])
  }

  /** The field names of `build_result_schema`. */
  function SchemaFields(column: string, select: seq<string>, withScore: bool): seq<string>
  {
    [TEXT_COL] + Without(select, column) + (if withScore then [SCORE_COL] else [])
  }

  /** The columns a file's projection carries besides the indexed one: `launch_pipeline` takes
      them from the schema, and `resolve_projection` drops the indexed column. */
  function ProjectedNames(column: string, fields: seq<string>): seq<string>
  {
    Without(Without(Without(fields, TEXT_COL), SCORE_COL), column)
  }

  /** The column pushed for field `i` of a batch with `n` matched rows, by its length. A
      builder is empty once it has been finished. */
  function ColumnFor(fields: seq<string>, selected: seq<string>, n: nat, scored: bool, i: nat): Option<nat>
    requires i < |fields|
  {
    if fields[i] == TEXT_COL then Some(if TEXT_COL in fields[..i] then 0 else n)
    else if fields[i] == SCORE_COL then
      if !scored then None else Some(if SCORE_COL in fields[..i] then 0 else n)
    else if fields[i] in selected then Some(n)
    else None
  }

  /** `RecordBatch::try_new`: one column for each field, all of one length. */
  ghost predicate Fits(fields: seq<string>, selected: seq<string>, n: nat, scored: bool)
  {
    exists length :: FitsAt(fields, selected, n, scored, length)
  }

  ghost predicate FitsAt(fields: seq<string>, selected: seq<string>, n: nat, scored: bool, length: nat)
  {
    forall i | 0 <= i < |fields| :: ColumnFor(fields, selected, n, scored, i) == Some(length)
  }

  /** `build_output_batch`: the lengths of the columns, or nothing where it panics. */
  method BuildOutputBatch(fields: seq<string>, selected: seq<string>, n: nat, scored: bool) returns (columns: Option<seq<nat>>)
    requires fields != []
    ensures columns.Some? <==> Fits(fields, selected, n, scored)
    ensures columns.Some? ==> |columns.value| == |fields|
    ensures columns.Some? ==> forall i | 0 <= i < |fields| :: ColumnFor(fields, selected, n, scored, i) == Some(columns.value[i])
  {
    var textBuilder, scoreBuilder := n, if scored then Some(n) else None;
    var pushed: seq<nat> := [];
    ghost var missing: Option<nat> := None;
    for i := 0 to |fields|
      invariant textBuilder == if TEXT_COL in fields[..i] then 0 else n
      invariant scoreBuilder == if !scored then None else Some(if SCORE_COL in fields[..i] then 0 else n)
      invariant missing.None? ==> |pushed| == i
      invariant missing.Some? ==> missing.value < i && |pushed| < i
      invariant missing.Some? ==> ColumnFor(fields, selected, n, scored, missing.value) == None
      invariant missing.None? ==> forall k | 0 <= k < i :: ColumnFor(fields, selected, n, scored, k) == Some(pushed[k])
    {
      assert fields[..i + 1] == fields[..i] + [fields[i]];
      if fields[i] == TEXT_COL {
        pushed, textBuilder := pushed + [textBuilder], 0;
      } else if fields[i] == SCORE_COL {
        if scoreBuilder.Some? {
          pushed, scoreBuilder := pushed + [scoreBuilder.value], Some(0);
        } else {
          missing := if missing.None? then Some(i) else missing;
        }
      } else if fields[i] in selected {
        pushed := pushed + [n];
      } else {
        missing := if missing.None? then Some(i) else missing;
      }
    }
    if |pushed| == |fields| && forall k | 0 <= k < |pushed| :: pushed[k] == pushed[0] {
      assert FitsAt(fields, selected, n, scored, pushed[0]);
      return Some(pushed);
    }
    if missing.None? {
      var k :| 0 <= k < |pushed| && pushed[k] != pushed[0];
      assert ColumnFor(fields, selected, n, scored, k) != ColumnFor(fields, selected, n, scored, 0);
    }
    return None;
  }

  /** Whether verification of such a record batch computes scores. */
  function Scored(score: ScoreMode, mode: VerifyMode): bool
  {
    !score.ScoreNone? && (mode.ByIndex? || score.ScoreAll?)
  }

  /** The output batch for `n` matched rows can be built; with none there is no batch. */
  ghost predicate Rebuilds(score: ScoreMode, column: string, select: seq<string>, mode: VerifyMode, n: nat)
  {
    n == 0 || var fields := SchemaFields(column, select, !score.ScoreNone?);
              Fits(fields, ProjectedNames(column, fields), n, Scored(score, mode))
  }

  /** No selected column, the indexed one aside, is called `text` or `score`. */
  predicate NamesFree(column: string, select: seq<string>)
  {
    forall name | name in select && name != column :: name != "text" && name != "score"
  }

  lemma FieldsAt(column: string, select: seq<string>, withScore: bool)
    ensures var fields, others := SchemaFields(column, select, withScore), Without(select, column);
      && fields[0] == TEXT_COL && fields[..1] == [TEXT_COL]
      && |fields| == 1 + |others| + (if withScore then 1 else 0)
      && (forall i | 1 <= i < 1 + |others| :: fields[i] == others[i - 1])
      && (withScore ==> fields[|fields| - 1] == SCORE_COL)
  {}

  lemma FitsWhenFree(column: string, select: seq<string>, withScore: bool, scored: bool, n: nat)
    requires NamesFree(column, select) && scored == withScore
    ensures var fields := SchemaFields(column, select, withScore); Fits(fields, ProjectedNames(column, fields), n, scored)
  {
    var fields, others := SchemaFields(column, select, withScore), Without(select, column);
    var selected := ProjectedNames(column, fields);
    FieldsAt(column, select, withScore);
    assert TEXT_COL !in others && SCORE_COL !in others;
    hide SchemaFields, Without, TEXT_COL, SCORE_COL, NamesFree;
    forall i | 0 <= i < |fields| ensures ColumnFor(fields, selected, n, scored, i) == Some(n) {
      if 1 <= i < 1 + |others| { assert others[i - 1] in others && fields[i] in fields; }
      if i == 1 + |others| { NoScoreBefore(fields, others, i); }
    }
    assert FitsAt(fields, selected, n, scored, n);
  }

  lemma NoFitWhenUnscored(column: string, select: seq<string>, n: nat)
    requires n > 0
    ensures var fields := SchemaFields(column, select, true); !Fits(fields, ProjectedNames(column, fields), n, false)
  {
    var fields := SchemaFields(column, select, true);
    FieldsAt(column, select, true);
    DoesNotFit(fields, ProjectedNames(column, fields), n, false, |fields| - 1);
  }

  lemma NoFitWhenTaken(column: string, select: seq<string>, scored: bool, n: nat)
    requires n > 0 && !NamesFree(column, select)
    ensures var fields := SchemaFields(column, select, scored); !Fits(fields, ProjectedNames(column, fields), n, scored)
  {
    var fields, others := SchemaFields(column, select, scored), Without(select, column);
    FieldsAt(column, select, scored);
    var name :| name in select && name != column && (name == TEXT_COL || name == SCORE_COL);
    hide *;
    assert name in others by { WithoutKeeps(select, column, name); }
    var i :| 0 <= i < |others| && others[i] == name;
    NoFitWhenTakenAt(fields, ProjectedNames(column, fields), scored, n, i + 1);
  }

  lemma WithoutKeeps(names: seq<string>, name: string, x: string)
    requires x in names && x != name
    ensures x in Without(names, name)
  {}

  lemma NoFitWhenTakenAt(fields: seq<string>, selected: seq<string>, scored: bool, n: nat, i: nat)
    requires n > 0 && 0 < i < |fields| && fields[0] == TEXT_COL && (fields[i] == TEXT_COL || fields[i] == SCORE_COL)
    requires scored ==> i < |fields| - 1 && fields[|fields| - 1] == SCORE_COL
    ensures !Fits(fields, selected, n, scored)
  {
    hide Fits;
    if fields[i] == TEXT_COL {
      SecondColumn(fields, selected, n, scored, 0, i);
    } else if scored {
      SecondColumn(fields, selected, n, scored, i, |fields| - 1);
    } else {
      TextIsNotScore();
      assert fields[..0] == [];
      DoesNotFit(fields, selected, n, scored, i);
    }
  }

  lemma TextIsNotScore()
    ensures TEXT_COL != SCORE_COL
  {}

  /** A builder's second column is empty. */
  lemma SecondColumn(fields: seq<string>, selected: seq<string>, n: nat, scored: bool, i: nat, j: nat)
    requires n > 0 && 0 <= i < j < |fields| && fields[0] == TEXT_COL && fields[i] == fields[j]
    requires fields[i] == TEXT_COL || (fields[i] == SCORE_COL && scored)
    ensures !Fits(fields, selected, n, scored)
  {
    hide Fits;
    TextIsNotScore();
    assert fields[..j][i] == fields[j];
    assert fields[..0] == [];
    DoesNotFit(fields, selected, n, scored, j);
  }

  /** A batch with a match can be rebuilt exactly when the selected names are free and, in
      the mode that scores indexed rows only, it comes from an indexed file. */
  lemma RebuildsIff(score: ScoreMode, column: string, select: seq<string>, mode: VerifyMode, n: nat)
    requires n > 0
    ensures Rebuilds(score, column, select, mode, n)
       <==> NamesFree(column, select) && !(score.ScoreIndexed? && mode.ByScan?)
  {
    hide Fits, SchemaFields, ProjectedNames, NamesFree;
    if score.ScoreIndexed? && mode.ByScan? {
      NoFitWhenUnscored(column, select, n);
    } else if NamesFree(column, select) {
      FitsWhenFree(column, select, !score.ScoreNone?, Scored(score, mode), n);
    } else {
      NoFitWhenTaken(column, select, Scored(score, mode), n);
    }
  }

  lemma DoesNotFit(fields: seq<string>, selected: seq<string>, n: nat, scored: bool, i: nat)
    requires i < |fields| && ColumnFor(fields, selected, n, scored, 0) == Some(n)
    requires ColumnFor(fields, selected, n, scored, i) != Some(n)
    ensures !Fits(fields, selected, n, scored)
  {}

  lemma NoScoreBefore(fields: seq<string>, others: seq<string>, i: nat)
    requires i == 1 + |others| <= |fields| && fields[0] == TEXT_COL && SCORE_COL !in others
    requires forall k | 1 <= k < i :: fields[k] == others[k - 1]
    ensures SCORE_COL !in fields[..i]
  {
    forall k | 0 <= k < i ensures fields[..i][k] != SCORE_COL {
      if k > 0 { assert others[k - 1] in others; }
    }
  }

  // --- A whole query ---------------------------------------------------------------------------

  /** How the readers cut the rows of each unit into record batches. */
  ghost predicate Cuts(cut: Unit -> seq<seq<ReadRow>>, units: seq<Unit>)
  {
    forall x | x in units :: Flatten(cut(x)) == x.rows
  }

  /** No CPU task of the query panics. */
  ghost predicate AllRebuild(u: Unicode, ilike: Ilike, units: seq<Unit>, cut: Unit -> seq<seq<ReadRow>>, queryTerms: seq<string>,
                             op: Operator, score: ScoreMode, column: string, select: seq<string>)
  {
    forall x, b | x in units && b in cut(x) ::
      Rebuilds(score, column, select, x.mode, |KeptOf(u, ilike, x.mode, b, queryTerms, op)|)
  }

  lemma {:induction false} EmptyPieces<T>(pieces: seq<seq<T>>)
    ensures Flatten(pieces) == [] <==> forall p | p in pieces :: p == []
  {
    if pieces != [] {
      var n := |pieces| - 1;
      EmptyPieces(pieces[..n]);
      assert pieces == pieces[..n] + [pieces[n]];
      assert Flatten(pieces) == Flatten(pieces[..n]) + pieces[n];
      assert pieces[n] in pieces && forall p | p in pieces[..n] :: p in pieces;
    }
  }

  /** A unit keeps a row exactly when one of its record batches does. */
  lemma KeepsInSomeBatch(u: Unicode, ilike: Ilike, x: Unit, batches: seq<seq<ReadRow>>, queryTerms: seq<string>, op: Operator)
    requires Flatten(batches) == x.rows
    ensures KeptOf(u, ilike, x.mode, x.rows, queryTerms, op) == []
       <==> forall b | b in batches :: KeptOf(u, ilike, x.mode, b, queryTerms, op) == []
  {
    hide KeptOf;
    var kept := KeptEach(u, ilike, x.mode, batches, queryTerms, op);
    BatchBoundariesDoNotMatter(u, ilike, x.mode, batches, queryTerms, op);
    EmptyPieces(kept);
    forall b | b in batches ensures KeptOf(u, ilike, x.mode, b, queryTerms, op) in kept {
      var i :| 0 <= i < |batches| && batches[i] == b;
      assert kept[i] in kept;
    }
    forall k | k in kept ensures exists b :: b in batches && k == KeptOf(u, ilike, x.mode, b, queryTerms, op) {
      var i :| 0 <= i < |kept| && kept[i] == k;
      assert batches[i] in batches;
    }
  }

  /** No CPU task panics exactly when nothing is kept, or the selected names are free and, in
      the mode that scores indexed rows only, no unindexed file has a row that is kept. */
  lemma QueryRebuildsIff(u: Unicode, ilike: Ilike, units: seq<Unit>, cut: Unit -> seq<seq<ReadRow>>, queryTerms: seq<string>,
                         op: Operator, score: ScoreMode, column: string, select: seq<string>)
    requires Cuts(cut, units)
    ensures AllRebuild(u, ilike, units, cut, queryTerms, op, score, column, select)
       <==> forall x | x in units && KeptOf(u, ilike, x.mode, x.rows, queryTerms, op) != [] ::
              NamesFree(column, select) && !(score.ScoreIndexed? && x.mode.ByScan?)
  {
    hide KeptOf, Rebuilds, NamesFree;
    forall x | x in units
      ensures (forall b | b in cut(x) :: Rebuilds(score, column, select, x.mode, |KeptOf(u, ilike, x.mode, b, queryTerms, op)|))
              <==> (KeptOf(u, ilike, x.mode, x.rows, queryTerms, op) != [] ==>
                      NamesFree(column, select) && !(score.ScoreIndexed? && x.mode.ByScan?))
    {
      UnitRebuildsIff(u, ilike, x, cut(x), queryTerms, op, score, column, select);
    }
  }

  lemma UnitRebuildsIff(u: Unicode, ilike: Ilike, x: Unit, batches: seq<seq<ReadRow>>, queryTerms: seq<string>, op: Operator,
                        score: ScoreMode, column: string, select: seq<string>)
    requires Flatten(batches) == x.rows
    ensures (forall b | b in batches :: Rebuilds(score, column, select, x.mode, |KeptOf(u, ilike, x.mode, b, queryTerms, op)|))
       <==> (KeptOf(u, ilike, x.mode, x.rows, queryTerms, op) != [] ==>
               NamesFree(column, select) && !(score.ScoreIndexed? && x.mode.ByScan?))
  {
    hide KeptOf, NamesFree, Rebuilds;
    KeepsInSomeBatch(u, ilike, x, batches, queryTerms, op);
    forall b | b in batches && KeptOf(u, ilike, x.mode, b, queryTerms, op) != []
      ensures Rebuilds(score, column, select, x.mode, |KeptOf(u, ilike, x.mode, b, queryTerms, op)|)
              <==> NamesFree(column, select) && !(score.ScoreIndexed? && x.mode.ByScan?)
    {
      RebuildsIff(score, column, select, x.mode, |KeptOf(u, ilike, x.mode, b, queryTerms, op)|);
    }
    forall b | b in batches && KeptOf(u, ilike, x.mode, b, queryTerms, op) == []
      ensures Rebuilds(score, column, select, x.mode, |KeptOf(u, ilike, x.mode, b, queryTerms, op)|)
    {
      NoBatch(score, column, select, x.mode);
    }
  }

  lemma NoBatch(score: ScoreMode, column: string, select: seq<string>, mode: VerifyMode)
    ensures Rebuilds(score, column, select, mode, 0)
  {}

  lemma OneLetterMatches(u: Unicode, op: Operator)
    ensures RowMatches(u, Some("a"), ["a"], op)
  {
    assert MaximalRun("a", 0, 1, IsAsciiAlphanumeric);
    assert AsciiLowerAll("a"[0..1]) == "a";
    AsciiTokenIffRun("a", "a");
    assert ["a"][0] == "a";
  }

  lemma OneRowKept(u: Unicode, ilike: Ilike, key: RowKey, op: Operator)
    requires ilike.Lawful()
    ensures KeptOf(u, ilike, ByScan(false), [(key, Some("a"))], ["a"], op) == [key]
  {
    OneLetterMatches(u, op);
    AsciiRowPasses(u, ilike, Some("a"), ["a"], op);
    hide RowMatches, RowPasses;
    var rows := [(key, Some("a"))];
    var mask := KeepMask(u, ilike, ByScan(false), rows, ["a"], op);
    assert Texts(rows)[0] == Some("a") && mask[0];
    assert KeysIn(rows)[..0] == [] && mask[..0] == [] && KeysIn(rows)[0] == key;
    assert Pick(KeysIn(rows), mask) == Pick(KeysIn(rows)[..0], mask[..0]) + [key];
  }

  /** An unindexed file with one matching row, in the mode that scores indexed rows only: its
      CPU task panics, however the row is read. */
  lemma ScoreIndexedPanics(u: Unicode, ilike: Ilike, key: RowKey, op: Operator, column: string, select: seq<string>,
                           cut: Unit -> seq<seq<ReadRow>>)
    requires ilike.Lawful()
    requires Cuts(cut, [Unit(key.path, ByScan(false), [(key, Some("a"))])])
    ensures var x := Unit(key.path, ByScan(false), [(key, Some("a"))]);
      && AllKept(u, ilike, [x], ["a"], op) == [key]
      && !AllRebuild(u, ilike, [x], cut, ["a"], op, ScoreIndexed, column, select)
  {
    hide KeptOf, AllRebuild;
    var x := Unit(key.path, ByScan(false), [(key, Some("a"))]);
    OneRowKept(u, ilike, key, op);
    assert x in [x];
    QueryRebuildsIff(u, ilike, [x], cut, ["a"], op, ScoreIndexed, column, select);
    AllKeptAppend(u, ilike, [], x, ["a"], op);
    assert [] + [x] == [x];
  }
}

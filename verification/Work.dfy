/** What the I/O stage reads and the CPU stage keeps of it: one unit of work for each row
    group that is read, cut into record batches in any way. */
module Work {
  import opened Types
  import opened Tokenizer
  import opened Verify

  datatype RowKey = RowKey(path: string, group: nat, row: nat)

  /** A row as read: where it is, and its text. */
  type ReadRow = (RowKey, Option<string>)

  datatype VerifyMode = ByIndex | ByScan(isLarge: bool)

  /** The rows read of one row group: those on its candidate pages, or all of them. */
  datatype Unit = Unit(path: string, mode: VerifyMode, rows: seq<ReadRow>)

  function KeysIn(rows: seq<ReadRow>): (keys: seq<RowKey>)
    ensures |keys| == |rows|
  {
    seq(|rows|, i requires 0 <= i < |rows| => rows[i].0)
  }

  function Texts(rows: seq<ReadRow>): (texts: seq<Option<string>>)
    ensures |texts| == |rows|
  {
    seq(|rows|, i requires 0 <= i < |rows| => rows[i].1)
  }

  /** What `dispatch_verify` keeps of a record batch. */
  function KeepMask(u: Unicode, ilike: Ilike, mode: VerifyMode, rows: seq<ReadRow>, queryTerms: seq<string>, op: Operator)
    : (m: seq<bool>)
    ensures |m| == |rows|
  {
    match mode
    case ByIndex => ScanMask(u, Texts(rows), queryTerms, op)
    case ByScan(isLarge) => BruteMask(u, ilike, Texts(rows), isLarge, queryTerms, op)
  }

  function KeptOf(u: Unicode, ilike: Ilike, mode: VerifyMode, rows: seq<ReadRow>, queryTerms: seq<string>, op: Operator): seq<RowKey>
  {
    Pick(KeysIn(rows), KeepMask(u, ilike, mode, rows, queryTerms, op))
  }

  function KeptEach(u: Unicode, ilike: Ilike, mode: VerifyMode, batches: seq<seq<ReadRow>>, queryTerms: seq<string>, op: Operator)
    : (kept: seq<seq<RowKey>>)
    ensures |kept| == |batches|
  {
    seq(|batches|, i requires 0 <= i < |batches| => KeptOf(u, ilike, mode, batches[i], queryTerms, op))
  }

  /** The rows the units' verification keeps, unit by unit. */
  function AllKept(u: Unicode, ilike: Ilike, units: seq<Unit>, queryTerms: seq<string>, op: Operator): seq<RowKey>
  {
    if units == [] then []
    else
      var last := units[|units| - 1];
      AllKept(u, ilike, units[..|units| - 1], queryTerms, op) + KeptOf(u, ilike, last.mode, last.rows, queryTerms, op)
  }

  lemma {:induction false} PickConcat<T>(a: seq<T>, m: seq<bool>, b: seq<T>, n: seq<bool>)
    requires |a| == |m| && |b| == |n|
    ensures Pick(a + b, m + n) == Pick(a, m) + Pick(b, n)
    decreases |b|
  {
    if b == [] {
      assert a + b == a && m + n == m;
    } else {
      var k := |b| - 1;
      PickConcat(a, m, b[..k], n[..k]);
      assert (a + b)[..|a| + k] == a + b[..k] && (m + n)[..|a| + k] == m + n[..k];
    }
  }

  lemma KeptConcat(u: Unicode, ilike: Ilike, mode: VerifyMode, a: seq<ReadRow>, b: seq<ReadRow>, queryTerms: seq<string>,
                   op: Operator)
    ensures KeptOf(u, ilike, mode, a + b, queryTerms, op)
         == KeptOf(u, ilike, mode, a, queryTerms, op) + KeptOf(u, ilike, mode, b, queryTerms, op)
  {
    hide RowMatches, RowPasses, Pick;
    var m, n := KeepMask(u, ilike, mode, a, queryTerms, op), KeepMask(u, ilike, mode, b, queryTerms, op);
    assert Texts(a + b) == Texts(a) + Texts(b) && KeysIn(a + b) == KeysIn(a) + KeysIn(b);
    assert KeepMask(u, ilike, mode, a + b, queryTerms, op) == m + n;
    PickConcat(KeysIn(a), m, KeysIn(b), n);
  }

  lemma KeptOfNone(u: Unicode, ilike: Ilike, mode: VerifyMode, queryTerms: seq<string>, op: Operator)
    ensures KeptOf(u, ilike, mode, [], queryTerms, op) == []
  {
    hide KeepMask;
  }

  /** Where the reader cuts a row group into record batches makes no difference to what
      verification keeps, in either mode. */
  lemma {:induction false} BatchBoundariesDoNotMatter(u: Unicode, ilike: Ilike, mode: VerifyMode, batches: seq<seq<ReadRow>>,
                                                      queryTerms: seq<string>, op: Operator)
    ensures Flatten(KeptEach(u, ilike, mode, batches, queryTerms, op))
         == KeptOf(u, ilike, mode, Flatten(batches), queryTerms, op)
  {
    hide KeptOf;
    if batches == [] {
      KeptOfNone(u, ilike, mode, queryTerms, op);
    } else {
      var n := |batches| - 1;
      BatchBoundariesDoNotMatter(u, ilike, mode, batches[..n], queryTerms, op);
      assert KeptEach(u, ilike, mode, batches, queryTerms, op)[..n] == KeptEach(u, ilike, mode, batches[..n], queryTerms, op);
      KeptConcat(u, ilike, mode, Flatten(batches[..n]), batches[n], queryTerms, op);
    }
  }

  lemma AllKeptAppend(u: Unicode, ilike: Ilike, units: seq<Unit>, x: Unit, queryTerms: seq<string>, op: Operator)
    ensures AllKept(u, ilike, units + [x], queryTerms, op)
         == AllKept(u, ilike, units, queryTerms, op) + KeptOf(u, ilike, x.mode, x.rows, queryTerms, op)
  {
    hide KeptOf;
    assert (units + [x])[..|units|] == units;
  }

  lemma {:induction false} AllKeptConcat(u: Unicode, ilike: Ilike, a: seq<Unit>, b: seq<Unit>, queryTerms: seq<string>, op: Operator)
    ensures AllKept(u, ilike, a + b, queryTerms, op)
         == AllKept(u, ilike, a, queryTerms, op) + AllKept(u, ilike, b, queryTerms, op)
    decreases |b|
  {
    hide KeptOf;
    if b == [] {
      assert a + b == a;
    } else {
      var n := |b| - 1;
      AllKeptConcat(u, ilike, a, b[..n], queryTerms, op);
      AllKeptAppend(u, ilike, a + b[..n], b[n], queryTerms, op);
      assert (a + b[..n]) + [b[n]] == a + b;
    }
  }

  /** Verification of some unit keeps the row. */
  ghost predicate KeptBySome(u: Unicode, ilike: Ilike, units: seq<Unit>, queryTerms: seq<string>, op: Operator, key: RowKey)
  {
    exists x :: x in units && key in KeptOf(u, ilike, x.mode, x.rows, queryTerms, op)
  }

  lemma {:induction false} AllKeptMembers(u: Unicode, ilike: Ilike, units: seq<Unit>, queryTerms: seq<string>, op: Operator, key: RowKey)
    ensures key in AllKept(u, ilike, units, queryTerms, op) <==> KeptBySome(u, ilike, units, queryTerms, op, key)
  {
    hide KeptOf;
    if units != [] {
      var n := |units| - 1;
      AllKeptMembers(u, ilike, units[..n], queryTerms, op, key);
      assert units == units[..n] + [units[n]];
      assert units[n] in units && forall x | x in units[..n] :: x in units;
    }
  }

  /** The rows at `positions` of a row group, as read. */
  function ReadAt(path: string, group: nat, positions: seq<nat>, texts: seq<Option<string>>): (rows: seq<ReadRow>)
    requires |positions| == |texts|
    ensures |rows| == |positions|
  {
    seq(|positions|, i requires 0 <= i < |positions| => (RowKey(path, group, positions[i]), texts[i]))
  }

  function KeysOf(path: string, group: nat, rows: seq<nat>): (keys: seq<RowKey>)
    ensures |keys| == |rows|
  {
    seq(|rows|, i requires 0 <= i < |rows| => RowKey(path, group, rows[i]))
  }

  lemma {:induction false} PickKeys(path: string, group: nat, positions: seq<nat>, mask: seq<bool>)
    requires |positions| == |mask|
    ensures Pick(KeysOf(path, group, positions), mask) == KeysOf(path, group, Pick(positions, mask))
  {
    if positions != [] {
      var n := |positions| - 1;
      PickKeys(path, group, positions[..n], mask[..n]);
      assert KeysOf(path, group, positions)[..n] == KeysOf(path, group, positions[..n]);
    }
  }

  /** What verification keeps of the rows read, by position. */
  lemma KeptAt(u: Unicode, ilike: Ilike, mode: VerifyMode, path: string, group: nat, positions: seq<nat>, texts: seq<Option<string>>,
               mask: seq<bool>, queryTerms: seq<string>, op: Operator)
    requires |positions| == |texts| == |mask|
    requires mask == match mode
                     case ByIndex => ScanMask(u, texts, queryTerms, op)
                     case ByScan(isLarge) => BruteMask(u, ilike, texts, isLarge, queryTerms, op)
    ensures KeptOf(u, ilike, mode, ReadAt(path, group, positions, texts), queryTerms, op)
         == KeysOf(path, group, Pick(positions, mask))
  {
    hide ScanMask, BruteMask, Pick;
    var rows := ReadAt(path, group, positions, texts);
    assert Texts(rows) == texts && KeysIn(rows) == KeysOf(path, group, positions);
    PickKeys(path, group, positions, mask);
  }
}

/** Row verification: re-tokenizing rows against the query, with and without the
    substring pre-filter of the brute-force path. */
module Verify {
  import opened Types
  import opened Tokenizer

  /** The boolean query predicate over a row's tokens. */
  predicate Satisfies(tokens: seq<string>, queryTerms: seq<string>, op: Operator)
  {
    match op
    case And => forall i | 0 <= i < |queryTerms| :: queryTerms[i] in tokens
    case Or => exists i :: 0 <= i < |queryTerms| && queryTerms[i] in tokens
  }

  predicate AnyEquals(tokens: seq<string>, q: string)
    ensures AnyEquals(tokens, q) <==> q in tokens
  {
    exists j :: 0 <= j < |tokens| && tokens[j] == q
  }

  /** `matches_predicate`: one term ignores the operator, few terms scan the token list,
      many terms go through a set. All three decide the same predicate. */
  predicate MatchesPredicate(tokens: seq<string>, queryTerms: seq<string>, op: Operator)
    ensures MatchesPredicate(tokens, queryTerms, op) == Satisfies(tokens, queryTerms, op)
  {
    SingleTerm(tokens, queryTerms, op);
    if |queryTerms| == 1 then AnyEquals(tokens, queryTerms[0])
    else if |queryTerms| <= 4 then
      match op
      case And => forall i | 0 <= i < |queryTerms| :: AnyEquals(tokens, queryTerms[i])
      case Or => exists i :: 0 <= i < |queryTerms| && AnyEquals(tokens, queryTerms[i])
    else
      var tokenSet := set t | t in tokens;
      match op
      case And => forall i | 0 <= i < |queryTerms| :: queryTerms[i] in tokenSet
      case Or => exists i :: 0 <= i < |queryTerms| && queryTerms[i] in tokenSet
  }

  lemma SingleTerm(tokens: seq<string>, queryTerms: seq<string>, op: Operator)
    ensures |queryTerms| == 1 ==> (Satisfies(tokens, queryTerms, op) <==> queryTerms[0] in tokens)
  {
    if |queryTerms| == 1 && queryTerms[0] in tokens {
      assert queryTerms[0] in tokens;
    }
  }

  predicate RowMatches(u: Unicode, row: Option<string>, queryTerms: seq<string>, op: Operator)
  {
    row.Some? && Satisfies(Tokenize(u, row.value), queryTerms, op)
  }

  /** One flag per row: what a full tokenizing scan keeps. */
  function ScanMask(u: Unicode, rows: seq<Option<string>>, queryTerms: seq<string>, op: Operator): (m: seq<bool>)
    ensures |m| == |rows|
  {
    seq(|rows|, i requires 0 <= i < |rows| => RowMatches(u, rows[i], queryTerms, op))
  }

  /** The elements a mask keeps, in order. */
  function Pick<T>(xs: seq<T>, mask: seq<bool>): seq<T>
    requires |xs| == |mask|
  {
    if xs == [] then []
    else Pick(xs[..|xs| - 1], mask[..|xs| - 1]) + (if mask[|xs| - 1] then [xs[|xs| - 1]] else [])
  }

  datatype QueryStats = QueryStats(candidatePages: nat, rowsScanned: nat, rowsMatched: nat)

  /** A non-empty output batch: the matched rows' text, and the mask that filters the
      other columns. */
  datatype Matched = Matched(texts: seq<Option<string>>, mask: seq<bool>)

  /** The rows a pre-filter leaves. */
  function Filtered(mask: seq<bool>, preFilter: Option<seq<bool>>): (m: seq<bool>)
    requires preFilter.Some? ==> |preFilter.value| == |mask|
    ensures |m| == |mask|
  {
    seq(|mask|, i requires 0 <= i < |mask| => mask[i] && (preFilter.Some? ==> preFilter.value[i]))
  }

  lemma PickNext<T>(xs: seq<T>, mask: seq<bool>, k: nat)
    requires |xs| == |mask| && k < |xs|
    ensures Pick(xs[..k + 1], mask[..k + 1]) == Pick(xs[..k], mask[..k]) + (if mask[k] then [xs[k]] else [])
  {
    assert xs[..k + 1][..k] == xs[..k] && mask[..k + 1][..k] == mask[..k];
  }

  lemma PickEnds<T>(xs: seq<T>, mask: seq<bool>)
    requires |xs| == |mask|
    ensures Pick(xs[..0], mask[..0]) == [] && Pick(xs[..|xs|], mask[..|xs|]) == Pick(xs, mask)
  {
    assert xs[..|xs|] == xs && mask[..|xs|] == mask;
  }

  /** `verify_rows`. */
  method VerifyRows(u: Unicode, rows: seq<Option<string>>, queryTerms: seq<string>, op: Operator,
                    preFilter: Option<seq<bool>>)
    returns (out: Option<Matched>, stats: QueryStats)
    requires preFilter.Some? ==> |preFilter.value| == |rows|
    ensures var mask := Filtered(ScanMask(u, rows, queryTerms, op), preFilter);
      && stats == QueryStats(0, |rows|, |Pick(rows, mask)|)
      && out == if |Pick(rows, mask)| == 0 then None else Some(Matched(Pick(rows, mask), mask))
  {
    hide Tokenize, Satisfies, Pick;
    ghost var goal := Filtered(ScanMask(u, rows, queryTerms, op), preFilter);
    var mask: seq<bool>, texts: seq<Option<string>> := [], [];
    var scanned, matched := 0, 0;
    PickEnds(rows, goal);
    for row := 0 to |rows|
      invariant mask == goal[..row]
      invariant texts == Pick(rows[..row], goal[..row])
      invariant scanned == row && matched == |texts|
    {
      PickNext(rows, goal, row);
      scanned := scanned + 1;
      var skip := rows[row].None? || (preFilter.Some? && !preFilter.value[row]);
      if skip {
        assert !goal[row];
        mask := mask + [false];
      } else {
        var tokens := TokenizeLoop(u, rows[row].value);
        assert goal[row] == Satisfies(tokens, queryTerms, op);
        if !MatchesPredicate(tokens, queryTerms, op) {
          mask := mask + [false];
        } else {
          mask := mask + [true];
          matched := matched + 1;
          texts := texts + [rows[row]];
        }
      }
    }
    assert goal[..|rows|] == goal;
    stats := QueryStats(0, scanned, matched);
    out := if matched == 0 then None else Some(Matched(texts, mask));
  }

  // --- Brute force --------------------------------------------------------------------

  predicate Contains(s: string, part: string)
  {
    exists i :: 0 <= i <= |s| && part <= s[i..]
  }

  /** `ILIKE '%term%'`, seen from outside: for ASCII text and an alphanumeric ASCII term
      it is case-insensitive containment. */
  datatype Ilike = Ilike(matches: (string, string) -> bool) {
    ghost predicate Lawful() {
      forall text, term | IsAscii(text) && (forall i | 0 <= i < |term| :: IsAsciiAlphanumeric(term[i])) ::
        matches(text, term) == Contains(AsciiLowerAll(text), AsciiLowerAll(term))
    }
  }

  /** The kernel refuses a `LargeUtf8` column, whose type differs from the pattern's. */
  function IlikeMask(ilike: Ilike, rows: seq<Option<string>>, isLarge: bool, term: string): (m: Option<seq<bool>>)
    ensures m.Some? ==> |m.value| == |rows|
  {
    if isLarge then None
    else Some(seq(|rows|, i requires 0 <= i < |rows| => rows[i].Some? && ilike.matches(rows[i].value, term)))
  }

  predicate RowPasses(ilike: Ilike, row: Option<string>, queryTerms: seq<string>, op: Operator)
  {
    row.Some? &&
    match op
    case And => forall i | 0 <= i < |queryTerms| :: ilike.matches(row.value, queryTerms[i])
    case Or => exists i :: 0 <= i < |queryTerms| && ilike.matches(row.value, queryTerms[i])
  }

  function PassMask(ilike: Ilike, rows: seq<Option<string>>, queryTerms: seq<string>, op: Operator): (m: seq<bool>)
    ensures |m| == |rows|
  {
    seq(|rows|, i requires 0 <= i < |rows| => RowPasses(ilike, rows[i], queryTerms, op))
  }

  /** What the brute-force path keeps: nothing when no mask could be computed. */
  function BruteMask(u: Unicode, ilike: Ilike, rows: seq<Option<string>>, isLarge: bool, queryTerms: seq<string>, op: Operator)
    : (m: seq<bool>)
    ensures |m| == |rows|
  {
    if isLarge || queryTerms == [] then seq(|rows|, _ => false)
    else Filtered(ScanMask(u, rows, queryTerms, op), Some(PassMask(ilike, rows, queryTerms, op)))
  }

  /** The fold of the term masks in `brute_force_verify_batch`. */
  method CombineMasks(ilike: Ilike, rows: seq<Option<string>>, queryTerms: seq<string>, op: Operator)
    returns (candidate: seq<bool>)
    requires queryTerms != []
    ensures candidate == PassMask(ilike, rows, queryTerms, op)
  {
    candidate := IlikeMask(ilike, rows, false, queryTerms[0]).value;
    for k := 1 to |queryTerms|
      invariant candidate == PassMask(ilike, rows, queryTerms[..k], op)
    {
      var m := IlikeMask(ilike, rows, false, queryTerms[k]).value;
      ghost var goal := PassMask(ilike, rows, queryTerms[..k + 1], op);
      forall i | 0 <= i < |rows|
        ensures goal[i] == if op.And? then candidate[i] && m[i] else candidate[i] || m[i]
      {
        PassStep(ilike, rows[i], queryTerms, op, k);
      }
      match op {
        case And => candidate := seq(|rows|, i requires 0 <= i < |rows| && |candidate| == |m| == |rows| => candidate[i] && m[i]);
        case Or => candidate := seq(|rows|, i requires 0 <= i < |rows| && |candidate| == |m| == |rows| => candidate[i] || m[i]);
      }
      assert candidate == goal;
    }
    assert queryTerms[..|queryTerms|] == queryTerms;
  }

  lemma PassStep(ilike: Ilike, row: Option<string>, queryTerms: seq<string>, op: Operator, k: nat)
    requires k < |queryTerms|
    ensures RowPasses(ilike, row, queryTerms[..k + 1], op)
         == var one := row.Some? && ilike.matches(row.value, queryTerms[k]);
            if op.And? then RowPasses(ilike, row, queryTerms[..k], op) && one
            else RowPasses(ilike, row, queryTerms[..k], op) || one
  {
    assert forall i | 0 <= i < k :: queryTerms[..k + 1][i] == queryTerms[..k][i];
    assert queryTerms[..k + 1][k] == queryTerms[k];
    if row.Some? && op.Or? && ilike.matches(row.value, queryTerms[k]) {
      assert ilike.matches(row.value, queryTerms[..k + 1][k]);
    }
    if row.Some? && op.Or? && RowPasses(ilike, row, queryTerms[..k], op) {
      var i :| 0 <= i < k && ilike.matches(row.value, queryTerms[..k][i]);
      assert ilike.matches(row.value, queryTerms[..k + 1][i]);
    }
  }

  /** `brute_force_verify_batch`. */
  method BruteForceVerifyBatch(u: Unicode, ilike: Ilike, rows: seq<Option<string>>, isLarge: bool,
                               queryTerms: seq<string>, op: Operator)
    returns (out: Option<Matched>, stats: QueryStats)
    ensures var mask := BruteMask(u, ilike, rows, isLarge, queryTerms, op);
      && stats == QueryStats(0, |rows|, |Pick(rows, mask)|)
      && out == if |Pick(rows, mask)| == 0 then None else Some(Matched(Pick(rows, mask), mask))
  {
    hide RowPasses, RowMatches;
    if isLarge || queryTerms == [] {
      PickNone(rows);
      return None, QueryStats(0, |rows|, 0);
    }
    var candidate := CombineMasks(ilike, rows, queryTerms, op);
    out, stats := VerifyRows(u, rows, queryTerms, op, Some(candidate));
  }

  /** What brute force keeps, whatever the text: of a `Utf8` column the rows whose raw text
      passes `ILIKE` for all query terms (or for some) and whose tokens have all of them
      (or some); of a `LargeUtf8` column nothing. */
  lemma BruteKeepsIff(u: Unicode, ilike: Ilike, rows: seq<Option<string>>, isLarge: bool, queryTerms: seq<string>, op: Operator,
                      i: nat)
    requires i < |rows|
    ensures BruteMask(u, ilike, rows, isLarge, queryTerms, op)[i] <==>
              && !isLarge && queryTerms != [] && rows[i].Some?
              && var text := rows[i].value;
                 match op
                 case And =>
                   && (forall k | 0 <= k < |queryTerms| :: ilike.matches(text, queryTerms[k]))
                   && (forall k | 0 <= k < |queryTerms| :: queryTerms[k] in Tokenize(u, text))
                 case Or =>
                   && (exists k :: 0 <= k < |queryTerms| && ilike.matches(text, queryTerms[k]))
                   && (exists k :: 0 <= k < |queryTerms| && queryTerms[k] in Tokenize(u, text))
  {
    hide Tokenize;
  }

  lemma {:induction false} PickNone<T>(xs: seq<T>)
    ensures Pick(xs, seq(|xs|, _ => false)) == []
  {
    if xs != [] {
      PickNone(xs[..|xs| - 1]);
      assert seq(|xs|, _ => false)[..|xs| - 1] == seq(|xs| - 1, _ => false);
    }
  }

  // --- The pre-filter never drops a match on ASCII rows ------------------------------------

  /** A token of ASCII text is alphanumeric, lower-case, and contained in the lowered text. */
  lemma AsciiTokenContained(text: string, w: string)
    requires w in TokenizeAscii(text)
    ensures forall i | 0 <= i < |w| :: IsAsciiAlphanumeric(w[i])
    ensures AsciiLowerAll(w) == w
    ensures Contains(AsciiLowerAll(text), w)
  {
    AsciiTokenIffRun(text, w);
    var s: nat, e: nat :| MaximalRun(text, s, e, IsAsciiAlphanumeric)
                          && e - s <= MAX_TOKEN_BYTES && w == AsciiLowerAll(text[s..e]);
    assert forall i | 0 <= i < |w| :: w[i] == AsciiLower(text[s + i]);
    assert w <= AsciiLowerAll(text)[s..];
  }

  /** Whatever the tokenizing scan keeps of an ASCII row, the substring masks let through. */
  lemma AsciiRowPasses(u: Unicode, ilike: Ilike, row: Option<string>, queryTerms: seq<string>, op: Operator)
    requires ilike.Lawful() && row.Some? && IsAscii(row.value)
    requires RowMatches(u, row, queryTerms, op)
    ensures RowPasses(ilike, row, queryTerms, op)
  {
    var text := row.value;
    forall i | 0 <= i < |queryTerms| && queryTerms[i] in TokenizeAscii(text)
      ensures ilike.matches(text, queryTerms[i])
    {
      AsciiTokenContained(text, queryTerms[i]);
    }
  }

  /** On ASCII rows the brute-force path keeps exactly what a full scan keeps, if and only
      if the column is `Utf8` or the scan keeps nothing. */
  lemma BruteForceIsFullScan(u: Unicode, ilike: Ilike, rows: seq<Option<string>>, isLarge: bool,
                             queryTerms: seq<string>, op: Operator)
    requires ilike.Lawful() && queryTerms != []
    requires forall i | 0 <= i < |rows| && rows[i].Some? :: IsAscii(rows[i].value)
    ensures BruteMask(u, ilike, rows, isLarge, queryTerms, op) == ScanMask(u, rows, queryTerms, op)
       <==> !isLarge || forall i | 0 <= i < |rows| :: !RowMatches(u, rows[i], queryTerms, op)
  {
    hide RowMatches, RowPasses;
    var brute, scan := BruteMask(u, ilike, rows, isLarge, queryTerms, op), ScanMask(u, rows, queryTerms, op);
    if isLarge {
      if i :| 0 <= i < |rows| && RowMatches(u, rows[i], queryTerms, op) {
        assert scan[i] && !brute[i];
      } else {
        assert scan == brute;
      }
    } else {
      forall i | 0 <= i < |rows| ensures brute[i] == scan[i] {
        if scan[i] {
          assert rows[i].Some? by { MatchingRowIsText(u, rows[i], queryTerms, op); }
          AsciiRowPasses(u, ilike, rows[i], queryTerms, op);
        }
      }
    }
  }

  lemma MatchingRowIsText(u: Unicode, row: Option<string>, queryTerms: seq<string>, op: Operator)
    requires RowMatches(u, row, queryTerms, op)
    ensures row.Some?
  {}

  /** Beyond ASCII the pre-filter can drop a match: `e` followed by a combining acute
      accent tokenizes to one composed letter, which the raw text does not contain. */
  lemma CombiningRowIsDropped(u: Unicode, ilike: Ilike, op: Operator)
    requires u.nfc("e\U{301}") == "\U{E9}" && u.alphanumeric('\U{E9}') && u.lowercase('\U{E9}') == "\U{E9}"
    requires !ilike.matches("e\U{301}", "\U{E9}")
    ensures RowMatches(u, Some("e\U{301}"), ["\U{E9}"], op)
    ensures !RowPasses(ilike, Some("e\U{301}"), ["\U{E9}"], op)
  {
    var text, w, emit := "\U{E9}", "\U{E9}", raw => EmitUnicode(u, raw);
    assert !IsAsciiChar("e\U{301}"[1]);
    RunEndIs(text, 0, 1, u.alphanumeric);
    assert text[0..1] == w;
    assert w[1..] == "";
    assert LowercaseAll(u, w) == w + LowercaseAll(u, w[1..]) == w;
    assert Utf8Len(w) == 2 + Utf8Len(w[1..]);
    assert emit(w) == [w];
    assert TokensFrom(text, 0, u.alphanumeric, emit) == [w] + TokensFrom(text, 1, u.alphanumeric, emit);
    assert w in TokenizeUnicode(u, "e\U{301}");
    assert ["\U{E9}"][0] == w;
  }
}

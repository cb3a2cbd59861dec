/** The `whitespace_lowercase` tokenizer. */
module Tokenizer {
  import opened Types
  import opened Utf8Encoding

  const MAX_TOKEN_BYTES: nat := 256

  /** The Unicode tables, seen from outside. */
  datatype Unicode = Unicode(nfc: string -> string, alphanumeric: char -> bool, lowercase: char -> string) {
    /** What the Unicode standard says about ASCII. */
    ghost predicate AgreesOnAscii() {
      && (forall s | IsAscii(s) :: nfc(s) == s)
      && (forall c | IsAsciiChar(c) :: alphanumeric(c) == IsAsciiAlphanumeric(c))
      && (forall c | IsAsciiChar(c) :: lowercase(c) == [AsciiLower(c)])
    }
  }

  predicate IsAsciiChar(c: char) { c as int < 0x80 }

  predicate IsAscii(s: string) { forall i | 0 <= i < |s| :: IsAsciiChar(s[i]) }

  predicate IsAsciiUpper(c: char) { 'A' <= c <= 'Z' }

  predicate IsAsciiAlphanumeric(c: char) { 'a' <= c <= 'z' || 'A' <= c <= 'Z' || '0' <= c <= '9' }

  function AsciiLower(c: char): char
  {
    if IsAsciiUpper(c) then ((c as int) + 32) as char else c
  }

  function AsciiLowerAll(s: string): (r: string)
    ensures |r| == |s|
  {
    seq(|s|, i requires 0 <= i < |s| => AsciiLower(s[i]))
  }

  /** Length of the UTF-8 encoding. */
  function Utf8Len(s: string): nat
  {
    if s == "" then 0
    else
      var c := s[0] as int;
      (if c < 0x80 then 1 else if c < 0x800 then 2 else if c < 0x1_0000 then 3 else 4) + Utf8Len(s[1..])
  }

  function LowercaseAll(u: Unicode, s: string): string
  {
    if s == "" then "" else u.lowercase(s[0]) + LowercaseAll(u, s[1..])
  }

  // --- Runs of alphanumeric characters -----------------------------------------

  /** The end of the run that starts at `i`. */
  function RunEnd(text: string, i: nat, alnum: char -> bool): (e: nat)
    requires i <= |text|
    ensures i <= e <= |text|
    ensures forall k | i <= k < e :: alnum(text[k])
    ensures e == |text| || !alnum(text[e])
    decreases |text| - i
  {
    if i == |text| || !alnum(text[i]) then i else RunEnd(text, i + 1, alnum)
  }

  /** What the runs from position `i` on emit, in order. */
  function TokensFrom(text: string, i: nat, alnum: char -> bool, emit: string -> seq<string>): seq<string>
    requires i <= |text|
    decreases |text| - i
  {
    if i == |text| then []
    else if !alnum(text[i]) then TokensFrom(text, i + 1, alnum, emit)
    else
      var e := RunEnd(text, i, alnum);
      emit(text[i..e]) + TokensFrom(text, e, alnum, emit)
  }

  ghost predicate MaximalRun(text: string, s: nat, e: nat, alnum: char -> bool)
  {
    && s < e <= |text|
    && (forall k | s <= k < e :: alnum(text[k]))
    && (s == 0 || !alnum(text[s - 1]))
    && (e == |text| || !alnum(text[e]))
  }

  /** The scanner shared by the ASCII and the Unicode path: one pass, remembering
      where the open run started. */
  method ScanLoop(text: string, alnum: char -> bool, emit: string -> seq<string>) returns (tokens: seq<string>)
    ensures tokens == TokensFrom(text, 0, alnum, emit)
  {
    tokens := [];
    var start: Option<nat> := None;
    for i := 0 to |text|
      invariant start.Some? ==> start.value < i && forall k | start.value <= k < i :: alnum(text[k])
      invariant tokens + TokensFrom(text, if start.Some? then start.value else i, alnum, emit)
             == TokensFrom(text, 0, alnum, emit)
    {
      if alnum(text[i]) {
        if start.None? {
          start := Some(i);
        }
      } else if start.Some? {
        var s := start.value;
        RunEndIs(text, s, i, alnum);
        tokens := tokens + emit(text[s..i]);
        start := None;
      }
    }
    if start.Some? {
      var s := start.value;
      RunEndIs(text, s, |text|, alnum);
      assert text[s..|text|] == text[s..];
      tokens := tokens + emit(text[s..]);
    }
  }

  lemma {:induction false} RunEndIs(text: string, s: nat, e: nat, alnum: char -> bool)
    requires s <= e <= |text| && forall k | s <= k < e :: alnum(text[k])
    requires e == |text| || !alnum(text[e])
    ensures RunEnd(text, s, alnum) == e
    decreases e - s
  {
    if s < e { RunEndIs(text, s + 1, e, alnum); }
  }

  /** A token is emitted exactly by a maximal run. */
  lemma {:induction false} TokenIffRun(text: string, i: nat, alnum: char -> bool, emit: string -> seq<string>, w: string)
    requires i <= |text| && (i == 0 || i == |text| || !alnum(text[i - 1]) || !alnum(text[i]))
    ensures w in TokensFrom(text, i, alnum, emit)
       <==> exists s: nat, e: nat :: i <= s && MaximalRun(text, s, e, alnum) && w in emit(text[s..e])
    decreases |text| - i
  {
    if i == |text| {
    } else if !alnum(text[i]) {
      TokenIffRun(text, i + 1, alnum, emit, w);
    } else {
      var e := RunEnd(text, i, alnum);
      TokenIffRun(text, e, alnum, emit, w);
      assert MaximalRun(text, i, e, alnum);
      forall s: nat, e': nat | i <= s && MaximalRun(text, s, e', alnum) && w in emit(text[s..e'])
        ensures w in TokensFrom(text, i, alnum, emit)
      {
        if s == i {
          RunEndIs(text, i, e', alnum);
        } else if s < e {
          assert false;
        }
      }
    }
  }

  // --- The two paths ------------------------------------------------------------

  /** `push_ascii_token`. */
  function EmitAscii(raw: string): seq<string>
  {
    if raw == "" || |raw| > MAX_TOKEN_BYTES then []
    else if forall i | 0 <= i < |raw| :: !IsAsciiUpper(raw[i]) then [raw]
    else [AsciiLowerAll(raw)]
  }

  /** `push_unicode_token`. */
  function EmitUnicode(u: Unicode, raw: string): seq<string>
  {
    var lowered := LowercaseAll(u, raw);
    if lowered != "" && Utf8Len(lowered) <= MAX_TOKEN_BYTES then [lowered] else []
  }

  function TokenizeAscii(text: string): seq<string>
  {
    TokensFrom(text, 0, IsAsciiAlphanumeric, EmitAscii)
  }

  function TokenizeUnicode(u: Unicode, text: string): seq<string>
  {
    TokensFrom(u.nfc(text), 0, u.alphanumeric, raw => EmitUnicode(u, raw))
  }

  function Tokenize(u: Unicode, text: string): seq<string>
  {
    if IsAscii(text) then TokenizeAscii(text) else TokenizeUnicode(u, text)
  }

  /** `tokenize`. */
  method TokenizeLoop(u: Unicode, text: string) returns (tokens: seq<string>)
    ensures tokens == Tokenize(u, text)
  {
    if IsAscii(text) {
      tokens := ScanLoop(text, IsAsciiAlphanumeric, EmitAscii);
    } else {
      tokens := ScanLoop(u.nfc(text), u.alphanumeric, raw => EmitUnicode(u, raw));
    }
  }

  /** The allocation-free case of `push_ascii_token` emits what the other case would. */
  lemma EmitAsciiLowers(raw: string)
    ensures EmitAscii(raw) == if raw == "" || |raw| > MAX_TOKEN_BYTES then [] else [AsciiLowerAll(raw)]
  {
    if forall i | 0 <= i < |raw| :: !IsAsciiUpper(raw[i]) {
      assert AsciiLowerAll(raw) == raw;
    }
  }

  /** The ASCII path emits exactly the lowercased maximal alphanumeric runs of at
      most 256 bytes. */
  lemma AsciiTokenIffRun(text: string, w: string)
    ensures w in TokenizeAscii(text)
       <==> exists s: nat, e: nat :: MaximalRun(text, s, e, IsAsciiAlphanumeric)
                           && e - s <= MAX_TOKEN_BYTES && w == AsciiLowerAll(text[s..e])
  {
    TokenIffRun(text, 0, IsAsciiAlphanumeric, EmitAscii, w);
    forall s: nat, e: nat | MaximalRun(text, s, e, IsAsciiAlphanumeric)
      ensures w in EmitAscii(text[s..e]) <==> e - s <= MAX_TOKEN_BYTES && w == AsciiLowerAll(text[s..e])
    {
      EmitAsciiLowers(text[s..e]);
    }
  }

  // --- The fast path refines the general one ---------------------------------------

  lemma {:induction false} LowercaseAscii(u: Unicode, s: string)
    requires u.AgreesOnAscii() && IsAscii(s)
    ensures LowercaseAll(u, s) == AsciiLowerAll(s)
    ensures Utf8Len(AsciiLowerAll(s)) == |s|
  {
    if s != "" {
      LowercaseAscii(u, s[1..]);
      assert AsciiLowerAll(s) == [AsciiLower(s[0])] + AsciiLowerAll(s[1..]);
      assert AsciiLowerAll(s)[1..] == AsciiLowerAll(s[1..]);
    }
  }

  lemma {:induction false} SameScan(u: Unicode, text: string, i: nat)
    requires u.AgreesOnAscii() && IsAscii(text) && i <= |text|
    ensures TokensFrom(text, i, u.alphanumeric, raw => EmitUnicode(u, raw))
         == TokensFrom(text, i, IsAsciiAlphanumeric, EmitAscii)
    decreases |text| - i
  {
    if i == |text| {
    } else if !IsAsciiAlphanumeric(text[i]) {
      SameScan(u, text, i + 1);
    } else {
      var e := RunEnd(text, i, IsAsciiAlphanumeric);
      RunEndIs(text, i, e, u.alphanumeric);
      SameScan(u, text, e);
      LowercaseAscii(u, text[i..e]);
      EmitAsciiLowers(text[i..e]);
      assert (raw => EmitUnicode(u, raw))(text[i..e]) == EmitAscii(text[i..e]);
    }
  }

  /** On ASCII text the byte-level fast path gives exactly what the Unicode path would. */
  lemma FastPathAgrees(u: Unicode, text: string)
    requires u.AgreesOnAscii() && IsAscii(text)
    ensures TokenizeAscii(text) == TokenizeUnicode(u, text)
  {
    SameScan(u, text, 0);
  }

  // --- What the Unicode path emits -------------------------------------------------

  lemma {:induction false} Utf8LenIs(s: string)
    ensures Utf8Len(s) == |EncodeText(s)|
  {
    if s != "" { Utf8LenIs(s[1..]); }
  }

  /** The lowercase mappings of the characters from `s` to `e`, one after the other. */
  function Lowered(u: Unicode, text: string, s: nat, e: nat): string
    requires s <= e <= |text|
  {
    Flatten(seq(e - s, k requires 0 <= k < e - s => u.lowercase(text[s + k])))
  }

  lemma {:induction false} LowercaseAllIs(u: Unicode, text: string, s: nat, e: nat)
    requires s <= e <= |text|
    ensures LowercaseAll(u, text[s..e]) == Lowered(u, text, s, e)
    decreases e - s
  {
    if s < e {
      LowercaseAllIs(u, text, s + 1, e);
      var pieces := seq(e - s, k requires 0 <= k < e - s => u.lowercase(text[s + k]));
      FlattenHead(pieces);
      assert pieces[1..] == seq(e - s - 1, k requires 0 <= k < e - s - 1 => u.lowercase(text[s + 1 + k]));
      assert text[s..e][1..] == text[s + 1..e];
    }
  }

  /** What one maximal run contributes. */
  lemma RunEmits(u: Unicode, text: string, s: nat, e: nat)
    requires s <= e <= |text|
    ensures var w := Lowered(u, text, s, e);
      EmitUnicode(u, text[s..e]) == if w != "" && |EncodeText(w)| <= 256 then [w] else []
  {
    LowercaseAllIs(u, text, s, e);
    Utf8LenIs(Lowered(u, text, s, e));
  }

  /** The Unicode path emits exactly the lowercased maximal runs of the composed text that
      are not empty and take at most 256 bytes. */
  lemma UnicodeTokenIffRun(u: Unicode, text: string, w: string)
    ensures w in TokenizeUnicode(u, text)
       <==> exists s: nat, e: nat :: MaximalRun(u.nfc(text), s, e, u.alphanumeric)
              && w == Lowered(u, u.nfc(text), s, e) && w != "" && |EncodeText(w)| <= 256
  {
    var emit := raw => EmitUnicode(u, raw);
    TokenIffRun(u.nfc(text), 0, u.alphanumeric, emit, w);
    forall s: nat, e: nat | MaximalRun(u.nfc(text), s, e, u.alphanumeric)
      ensures w in emit(u.nfc(text)[s..e])
              <==> w == Lowered(u, u.nfc(text), s, e) && w != "" && |EncodeText(w)| <= 256
    {
      RunEmits(u, u.nfc(text), s, e);
    }
  }

  // --- Every run once, in order --------------------------------------------------------

  datatype Span = Span(start: nat, end: nat)

  /** `spans` are the maximal runs, in the order of the text. */
  ghost predicate AreRuns(text: string, i: nat, alnum: char -> bool, spans: seq<Span>)
  {
    && (forall j, k | 0 <= j < k < |spans| :: spans[j].end < spans[k].start)
    && (forall x :: x in spans <==> i <= x.start && MaximalRun(text, x.start, x.end, alnum))
  }

  function Emitted(text: string, emit: string -> seq<string>, spans: seq<Span>): seq<string>
    requires forall x | x in spans :: x.start <= x.end <= |text|
  {
    Flatten(seq(|spans|, k requires 0 <= k < |spans| => assert spans[k] in spans; emit(text[spans[k].start..spans[k].end])))
  }

  lemma FirstRun(text: string, i: nat, e: nat, alnum: char -> bool, rest: seq<Span>)
    requires i < |text| && alnum(text[i]) && (i == 0 || !alnum(text[i - 1])) && e == RunEnd(text, i, alnum)
    requires AreRuns(text, e, alnum, rest)
    ensures AreRuns(text, i, alnum, [Span(i, e)] + rest)
  {
    var spans := [Span(i, e)] + rest;
    assert MaximalRun(text, i, e, alnum);
    forall x: Span ensures x in spans <==> i <= x.start && MaximalRun(text, x.start, x.end, alnum) {
      assert x in spans <==> x == Span(i, e) || x in rest;
      assert i < x.start < e ==> alnum(text[x.start - 1]);
      if x.start == i && MaximalRun(text, x.start, x.end, alnum) { RunEndIs(text, i, x.end, alnum); }
    }
    forall k | 0 <= k < |rest| ensures e < rest[k].start { assert rest[k] in rest; }
  }

  lemma NoRunHere(text: string, i: nat, alnum: char -> bool, spans: seq<Span>)
    requires i < |text| && !alnum(text[i]) && AreRuns(text, i + 1, alnum, spans)
    ensures AreRuns(text, i, alnum, spans)
  {}

  lemma EmittedHead(text: string, emit: string -> seq<string>, x: Span, rest: seq<Span>)
    requires x.start <= x.end <= |text| && forall y | y in rest :: y.start <= y.end <= |text|
    ensures Emitted(text, emit, [x] + rest) == emit(text[x.start..x.end]) + Emitted(text, emit, rest)
  {
    var all := [x] + rest;
    assert forall y | y in all :: y.start <= y.end <= |text|;
    var pieces := seq(|all|, k requires 0 <= k < |all| => assert all[k] in all; emit(text[all[k].start..all[k].end]));
    hide Flatten;
    FlattenHead(pieces);
    assert pieces[1..] == seq(|rest|, k requires 0 <= k < |rest| => assert rest[k] in rest; emit(text[rest[k].start..rest[k].end]));
  }

  /** The tokens are what the maximal runs emit, each run once, in the order of the text. */
  lemma {:induction false} TokensInOrder(text: string, i: nat, alnum: char -> bool, emit: string -> seq<string>)
    returns (spans: seq<Span>)
    requires i <= |text| && (i == 0 || i == |text| || !alnum(text[i - 1]) || !alnum(text[i]))
    ensures AreRuns(text, i, alnum, spans) && TokensFrom(text, i, alnum, emit) == Emitted(text, emit, spans)
    decreases |text| - i
  {
    if i == |text| {
      spans := [];
    } else if !alnum(text[i]) {
      spans := TokensInOrder(text, i + 1, alnum, emit);
      NoRunHere(text, i, alnum, spans);
    } else {
      hide AreRuns, Emitted;
      var e := RunEnd(text, i, alnum);
      var rest := TokensInOrder(text, e, alnum, emit);
      FirstRun(text, i, e, alnum, rest);
      SpansInText(text, e, alnum, rest);
      EmittedHead(text, emit, Span(i, e), rest);
      spans := [Span(i, e)] + rest;
    }
  }

  lemma SpansInText(text: string, i: nat, alnum: char -> bool, spans: seq<Span>)
    requires AreRuns(text, i, alnum, spans)
    ensures forall x | x in spans :: x.start <= x.end <= |text|
  {}

  /** The runs of the text that is scanned: as it is when it is ASCII, or else composed. */
  ghost predicate RunsOf(u: Unicode, text: string, spans: seq<Span>)
  {
    if IsAscii(text) then AreRuns(text, 0, IsAsciiAlphanumeric, spans) else AreRuns(u.nfc(text), 0, u.alphanumeric, spans)
  }

  function AsciiToken(text: string, x: Span): seq<string>
    requires x.start <= x.end <= |text|
  {
    if x.end - x.start <= 256 then [AsciiLowerAll(text[x.start..x.end])] else []
  }

  function UnicodeToken(u: Unicode, text: string, x: Span): seq<string>
    requires x.start <= x.end <= |text|
  {
    var w := Lowered(u, text, x.start, x.end);
    if w != "" && |EncodeText(w)| <= 256 then [w] else []
  }

  /** Tokenizing, token by token: one for each maximal run that is short enough, in the order
      of the text, repetitions included. */
  lemma TokenizeInOrder(u: Unicode, text: string) returns (spans: seq<Span>)
    ensures RunsOf(u, text, spans)
    ensures IsAscii(text) ==>
              && (forall k | 0 <= k < |spans| :: spans[k].start <= spans[k].end <= |text|)
              && Tokenize(u, text) == Flatten(seq(|spans|, k requires 0 <= k < |spans| => AsciiToken(text, spans[k])))
    ensures !IsAscii(text) ==>
              && (forall k | 0 <= k < |spans| :: spans[k].start <= spans[k].end <= |u.nfc(text)|)
              && Tokenize(u, text)
                 == Flatten(seq(|spans|, k requires 0 <= k < |spans| => UnicodeToken(u, u.nfc(text), spans[k])))
  {
    hide TokensFrom, AreRuns, Flatten, AsciiLowerAll, Lowered, EmitUnicode, EmitAscii;
    if IsAscii(text) {
      spans := TokensInOrder(text, 0, IsAsciiAlphanumeric, EmitAscii);
      SpansInText(text, 0, IsAsciiAlphanumeric, spans);
      forall k | 0 <= k < |spans| ensures spans[k].start < spans[k].end <= |text| {
        RunIsThere(text, 0, IsAsciiAlphanumeric, spans, k);
      }
      AsciiEmitted(text, spans);
    } else {
      var composed := u.nfc(text);
      spans := TokensInOrder(composed, 0, u.alphanumeric, raw => EmitUnicode(u, raw));
      SpansInText(composed, 0, u.alphanumeric, spans);
      forall k | 0 <= k < |spans| ensures spans[k].start < spans[k].end <= |composed| {
        RunIsThere(composed, 0, u.alphanumeric, spans, k);
      }
      UnicodeEmitted(u, composed, spans);
    }
  }

  lemma RunIsThere(text: string, i: nat, alnum: char -> bool, spans: seq<Span>, k: nat)
    requires AreRuns(text, i, alnum, spans) && k < |spans|
    ensures spans[k].start < spans[k].end <= |text|
  {
    assert spans[k] in spans;
  }

  lemma AsciiEmitted(text: string, spans: seq<Span>)
    requires forall k | 0 <= k < |spans| :: spans[k].start < spans[k].end <= |text|
    ensures Emitted(text, EmitAscii, spans) == Flatten(seq(|spans|, k requires 0 <= k < |spans| => AsciiToken(text, spans[k])))
  {
    forall k | 0 <= k < |spans| ensures EmitAscii(text[spans[k].start..spans[k].end]) == AsciiToken(text, spans[k]) {
      EmitAsciiLowers(text[spans[k].start..spans[k].end]);
    }
    hide AsciiToken, Flatten;
    var emit: string -> seq<string> := EmitAscii;
    var emitted := seq(|spans|, k requires 0 <= k < |spans| => AsciiToken(text, spans[k]));
    assert emitted == seq(|spans|, k requires 0 <= k < |spans| => assert spans[k] in spans; emit(text[spans[k].start..spans[k].end]));
  }

  lemma UnicodeEmitted(u: Unicode, text: string, spans: seq<Span>)
    requires forall k | 0 <= k < |spans| :: spans[k].start < spans[k].end <= |text|
    ensures Emitted(text, raw => EmitUnicode(u, raw), spans)
         == Flatten(seq(|spans|, k requires 0 <= k < |spans| => UnicodeToken(u, text, spans[k])))
  {
    forall k | 0 <= k < |spans| ensures EmitUnicode(u, text[spans[k].start..spans[k].end]) == UnicodeToken(u, text, spans[k]) {
      RunEmits(u, text, spans[k].start, spans[k].end);
    }
    hide EmitUnicode, UnicodeToken, Flatten;
    var emit := raw => EmitUnicode(u, raw);
    var emitted := seq(|spans|, k requires 0 <= k < |spans| => UnicodeToken(u, text, spans[k]));
    assert emitted == seq(|spans|, k requires 0 <= k < |spans| => assert spans[k] in spans; emit(text[spans[k].start..spans[k].end]));
  }

  // --- The ASCII tables ------------------------------------------------------------------

  const UPPER: string := "ABCDEFGHIJKLMNOPQRSTUVWXYZ"
  const LOWER: string := "abcdefghijklmnopqrstuvwxyz"
  const DIGITS: string := "0123456789"

  lemma UpperTable()
    ensures |UPPER| == 26 && forall k | 0 <= k < 26 :: UPPER[k] as int == 65 + k
  {}

  lemma LowerTable()
    ensures |LOWER| == 26 && forall k | 0 <= k < 26 :: LOWER[k] as int == 97 + k
  {}

  lemma DigitTable()
    ensures |DIGITS| == 10 && forall k | 0 <= k < 10 :: DIGITS[k] as int == 48 + k
  {}

  /** A table of `n` consecutive characters holds exactly those. */
  lemma InTable(table: string, first: nat, n: nat, c: char)
    requires |table| == n && forall k | 0 <= k < n :: table[k] as int == first + k
    ensures c in table <==> first <= c as int < first + n
  {
    if first <= c as int < first + n { assert table[c as int - first] == c; }
  }

  /** `u8::is_ascii_alphanumeric` and `u8::to_ascii_lowercase`, character by character. */
  lemma AsciiTables(c: char)
    ensures IsAsciiChar(c) <==> c <= '\U{7F}'
    ensures |UPPER| == |LOWER| == 26 && |DIGITS| == 10
    ensures IsAsciiAlphanumeric(c) <==> c in UPPER || c in LOWER || c in DIGITS
    ensures forall k | 0 <= k < 26 && UPPER[k] == c :: AsciiLower(c) == LOWER[k]
    ensures c !in UPPER ==> AsciiLower(c) == c
  {
    hide UPPER, LOWER, DIGITS;
    UpperTable();
    LowerTable();
    DigitTable();
    InTable(UPPER, 65, 26, c);
    InTable(LOWER, 97, 26, c);
    InTable(DIGITS, 48, 10, c);
  }
}

/** Domain types shared by the segment writer, the reader and the query path. */
module Types {
  import opened Bytes

  type DocId = u32

  datatype Option<+T> = None | Some(value: T)

  datatype SegmentError =
    | InvalidMagic
    | UnsupportedVersion(version: u16)
    | TooShort(need: nat, got: nat)
    | ChecksumMismatch(expected: u32, actual: u32)
    | FstError
    | PostingDecode
    | InvalidTermOrdinal(ordinal: u64)
    | Lz4Error

  datatype Result<+T> = Ok(value: T) | Err(error: SegmentError) {
    predicate IsFailure() { Err? }
    function PropagateFailure<U>(): Result<U>
      requires Err?
    {
      Err(error)
    }
    function Extract(): T
      requires Ok?
    {
      value
    }
  }

  const SEGMENT_MAGIC: seq<byte> := [0x4C, 0x4B, 0x53, 0x52]
  const SEGMENT_VERSION: u16 := 1
  const POSTING_BLOCK_SIZE: nat := 128
  const FOOTER_SIZE: nat := 56
  const BLOCK_HEADER_SIZE: nat := 14
  const DOC_TABLE_ENTRY_SIZE: nat := 20
  const TERM_INFO_SIZE: nat := 16
  const LZ4_COMPRESSED: byte := 1

  datatype FileTableEntry = FileTableEntry(path: string, rowGroupCount: u16)

  datatype DocTableEntry = DocTableEntry(
    fileOrdinal: u32, rowGroup: u16, pageIndex: u16, firstRowIndex: u64, rowCount: u32)

  datatype TermInfo = TermInfo(postingOffset: u64, postingLength: u32, docFrequency: u32)

  datatype CorpusStats = CorpusStats(totalRows: u64, totalTokens: u64)

  datatype SegmentFooter = SegmentFooter(
    fileTableOffset: u64, docTableOffset: u64, forwardFstOffset: u64, reverseFstOffset: u64,
    postingOffset: u64, corpusStatsOffset: u64, checksum: u32)

  datatype Operator = And | Or

  /** Strictly increasing: sorted and without duplicates. */
  ghost predicate StrictlyIncreasing(s: seq<int>)
  {
    forall i, j | 0 <= i < j < |s| :: s[i] < s[j]
  }

  lemma ConcatIncreasing(s: seq<int>, t: seq<int>)
    requires StrictlyIncreasing(s) && StrictlyIncreasing(t)
    requires forall a, b | a in s && b in t :: a < b
    ensures StrictlyIncreasing(s + t)
  {
    var r := s + t;
    forall i, j | 0 <= i < j < |r| ensures r[i] < r[j] {
      if i < |s| <= j {
        assert s[i] in s && t[j - |s|] in t;
      }
    }
  }

  /** Two increasing lists with the same elements are equal. */
  lemma {:induction false} IncreasingUnique(s: seq<int>, t: seq<int>)
    requires StrictlyIncreasing(s) && StrictlyIncreasing(t)
    requires forall x :: x in s <==> x in t
    ensures s == t
    decreases |s|
  {
    assert t != [] ==> t[0] in t;
    if s != [] {
      assert s[0] in s && s[0] in t;
      assert t[0] in s;
      var i :| 0 <= i < |s| && s[i] == t[0];
      var j :| 0 <= j < |t| && t[j] == s[0];
      assert s[0] == t[0];
      forall x ensures x in s[1..] <==> x in t[1..] {
        assert x in s <==> x == s[0] || x in s[1..];
        assert x in t <==> x == t[0] || x in t[1..];
      }
      IncreasingUnique(s[1..], t[1..]);
      assert s == [s[0]] + s[1..] && t == [t[0]] + t[1..];
    }
  }

  // --- Concatenation of pieces -------------------------------------------------

  function Flatten<T>(batches: seq<seq<T>>): seq<T>
  {
    if batches == [] then [] else Flatten(batches[..|batches| - 1]) + batches[|batches| - 1]
  }

  lemma {:induction false} FlattenPrefix<T>(batches: seq<seq<T>>, k: nat)
    requires k <= |batches|
    ensures Flatten(batches[..k]) <= Flatten(batches)
    ensures k < |batches| ==> Flatten(batches[..k + 1]) == Flatten(batches[..k]) + batches[k]
    decreases |batches|
  {
    if k == |batches| {
      assert batches[..k] == batches;
    } else {
      var n := |batches| - 1;
      assert batches[..k] == batches[..n][..k];
      FlattenPrefix(batches[..n], k);
      assert batches[..k + 1][..k] == batches[..k];
    }
  }

  lemma {:induction false} FlattenHead<T>(a: seq<seq<T>>)
    requires a != []
    ensures Flatten(a) == a[0] + Flatten(a[1..])
  {
    var n := |a| - 1;
    assert Flatten(a) == Flatten(a[..n]) + a[n];
    if n == 0 {
      assert a[..0] == [] && a[1..] == [];
    } else {
      FlattenHead(a[..n]);
      var rest := a[1..];
      assert a[..n][1..] == rest[..n - 1] && rest[n - 1] == a[n];
      assert Flatten(rest) == Flatten(rest[..n - 1]) + rest[n - 1];
      hide Flatten;
    }
  }

  /** Each piece is found where the pieces before it end. */
  lemma PieceAt<T>(pieces: seq<seq<T>>, i: nat)
    requires i < |pieces|
    ensures |Flatten(pieces[..i])| + |pieces[i]| <= |Flatten(pieces)|
    ensures Flatten(pieces)[|Flatten(pieces[..i])|..|Flatten(pieces[..i])| + |pieces[i]|] == pieces[i]
  {
    hide Flatten;
    FlattenPrefix(pieces, i);
    FlattenPrefix(pieces, i + 1);
    var whole, upTo := Flatten(pieces), Flatten(pieces[..i + 1]);
    assert whole[..|upTo|] == upTo;
  }

  /** Pieces of one width sit at multiples of it. */
  lemma {:induction false} FixedWidth<T>(pieces: seq<seq<T>>, w: nat)
    requires forall i | 0 <= i < |pieces| :: |pieces[i]| == w
    ensures |Flatten(pieces)| == |pieces| * w
  {
    if pieces != [] {
      FixedWidth(pieces[..|pieces| - 1], w);
      assert |pieces| * w == (|pieces| - 1) * w + w;
    }
  }
}

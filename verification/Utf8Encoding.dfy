/** UTF-8, as far as the tokenizer's size limit and the dictionary's key order depend on it
    (section 3 of RFC 3629). */
module Utf8Encoding {
  import opened Bytes
  import opened Sorting

  function TwoByteForm(c: nat): (b: seq<byte>)
    requires c < 0x800
    ensures |b| == 2
  {
    [0xC0 + c / 0x40, 0x80 + c % 0x40]
  }

  function ThreeByteForm(c: nat): (b: seq<byte>)
    requires c < 0x1_0000
    ensures |b| == 3
  {
    [0xE0 + c / 0x1000, 0x80 + c / 0x40 % 0x40, 0x80 + c % 0x40]
  }

  function FourByteForm(c: nat): (b: seq<byte>)
    requires c < 0x11_0000
    ensures |b| == 4
  {
    [0xF0 + c / 0x4_0000, 0x80 + c / 0x1000 % 0x40, 0x80 + c / 0x40 % 0x40, 0x80 + c % 0x40]
  }

  /** The bytes of one character. */
  function EncodeChar(ch: char): (b: seq<byte>)
    ensures 1 <= |b| <= 4
  {
    var c := ch as int;
    if c < 0x80 then [c]
    else if c < 0x800 then TwoByteForm(c)
    else if c < 0x1_0000 then ThreeByteForm(c)
    else FourByteForm(c)
  }

  function EncodeText(s: string): seq<byte>
  {
    if s == "" then [] else EncodeChar(s[0]) + EncodeText(s[1..])
  }

  /** The order of byte strings. */
  predicate BytesLess(a: seq<byte>, b: seq<byte>)
  {
    if b == [] then false
    else if a == [] then true
    else a[0] < b[0] || (a[0] == b[0] && BytesLess(a[1..], b[1..]))
  }

  lemma {:induction false} SamePrefix(p: seq<byte>, a: seq<byte>, b: seq<byte>)
    ensures BytesLess(p + a, p + b) <==> BytesLess(a, b)
  {
    if p == [] {
      assert p + a == a && p + b == b;
    } else {
      assert (p + a)[1..] == p[1..] + a && (p + b)[1..] == p[1..] + b;
      SamePrefix(p[1..], a, b);
    }
  }

  /** The first byte in which `a` and `b` differ decides. */
  lemma {:induction false} FirstDifference(a: seq<byte>, b: seq<byte>, i: nat)
    requires i < |a| && i < |b| && a[..i] == b[..i] && a[i] < b[i]
    ensures BytesLess(a, b) && !BytesLess(b, a)
  {
    if i > 0 {
      assert a[0] == a[..i][0] && b[0] == b[..i][0];
      assert a[1..][..i - 1] == a[..i][1..] && b[1..][..i - 1] == b[..i][1..];
      FirstDifference(a[1..], b[1..], i - 1);
    }
  }

  /** The six-bit digits of a code point. */
  lemma Digits(c: nat)
    requires c < 0x20_0000
    ensures c == 0x40 * (c / 0x40) + c % 0x40
    ensures c / 0x40 == 0x40 * (c / 0x1000) + c / 0x40 % 0x40
    ensures c / 0x1000 == 0x40 * (c / 0x4_0000) + c / 0x1000 % 0x40
    ensures c / 0x4_0000 < 8
  {}

  /** The leading byte tells the width, and wider characters come later. */
  lemma LeadingByte(c: char, d: char)
    requires c < d && |EncodeChar(c)| != |EncodeChar(d)|
    ensures EncodeChar(c)[0] < EncodeChar(d)[0]
  {
    Digits(c as int);
    Digits(d as int);
  }

  /** The digits above the last, or else the last, are smaller. */
  lemma DigitOrder(c: nat, d: nat)
    requires c < d
    ensures c / 0x40 < d / 0x40 || (c / 0x40 == d / 0x40 && c % 0x40 < d % 0x40)
  {}

  lemma Shifted(c: nat)
    ensures c / 0x40 / 0x40 == c / 0x1000 && c / 0x1000 / 0x40 == c / 0x4_0000
  {}

  /** Comparing the four digits from the top. */
  predicate DigitsLess(c: nat, d: nat)
  {
    || c / 0x4_0000 < d / 0x4_0000
    || (c / 0x4_0000 == d / 0x4_0000
        && (|| c / 0x1000 % 0x40 < d / 0x1000 % 0x40
            || (c / 0x1000 % 0x40 == d / 0x1000 % 0x40
                && (|| c / 0x40 % 0x40 < d / 0x40 % 0x40
                    || (c / 0x40 % 0x40 == d / 0x40 % 0x40 && c % 0x40 < d % 0x40)))))
  }

  lemma DigitsDecide(c: nat, d: nat)
    requires c < d
    ensures DigitsLess(c, d)
    ensures c / 0x40 <= d / 0x40 && c / 0x1000 <= d / 0x1000
  {
    Shifted(c);
    Shifted(d);
    DigitOrder(c, d);
    if c / 0x40 < d / 0x40 {
      DigitOrder(c / 0x40, d / 0x40);
      if c / 0x1000 < d / 0x1000 { DigitOrder(c / 0x1000, d / 0x1000); }
    }
  }

  lemma SameWidth(c: char, d: char) returns (i: nat)
    requires c < d && |EncodeChar(c)| == |EncodeChar(d)|
    ensures var a, b := EncodeChar(c), EncodeChar(d);
      i < |a| && a[..i] == b[..i] && a[i] < b[i]
  {
    hide TwoByteForm, ThreeByteForm, FourByteForm;
    var x: nat, y: nat := c as int, d as int;
    if x < 0x80 {
      i := 0;
    } else if x < 0x800 {
      i := Two(x, y);
    } else if x < 0x1_0000 {
      i := Three(x, y);
    } else {
      i := Four(x, y);
    }
  }

  lemma Two(x: nat, y: nat) returns (i: nat)
    requires x < y < 0x800
    ensures var a, b := TwoByteForm(x), TwoByteForm(y); i < 2 && a[..i] == b[..i] && a[i] < b[i]
  {
    DigitOrder(x, y);
    i := if x / 0x40 < y / 0x40 then 0 else 1;
  }

  lemma Three(x: nat, y: nat) returns (i: nat)
    requires x < y < 0x1_0000
    ensures var a, b := ThreeByteForm(x), ThreeByteForm(y); i < 3 && a[..i] == b[..i] && a[i] < b[i]
  {
    DigitsDecide(x, y);
    assert x / 0x4_0000 == y / 0x4_0000 == 0 && x / 0x1000 % 0x40 == x / 0x1000 && y / 0x1000 % 0x40 == y / 0x1000;
    i := if x / 0x1000 < y / 0x1000 then 0 else if x / 0x40 % 0x40 < y / 0x40 % 0x40 then 1 else 2;
  }

  lemma Four(x: nat, y: nat) returns (i: nat)
    requires x < y < 0x11_0000
    ensures var a, b := FourByteForm(x), FourByteForm(y); i < 4 && a[..i] == b[..i] && a[i] < b[i]
  {
    DigitsDecide(x, y);
    i := if x / 0x4_0000 < y / 0x4_0000 then 0 else if x / 0x1000 % 0x40 < y / 0x1000 % 0x40 then 1
         else if x / 0x40 % 0x40 < y / 0x40 % 0x40 then 2 else 3;
  }

  /** Where the encodings of two characters first differ, the smaller character's byte is the
      smaller. */
  lemma CharOrder(c: char, d: char) returns (i: nat)
    requires c < d
    ensures var a, b := EncodeChar(c), EncodeChar(d);
      i < |a| && i < |b| && a[..i] == b[..i] && a[i] < b[i]
  {
    hide EncodeChar;
    if |EncodeChar(c)| == |EncodeChar(d)| {
      i := SameWidth(c, d);
    } else {
      LeadingByte(c, d);
      i := 0;
    }
  }

  /** Comparing code points compares the encodings byte by byte, which is how the
      dictionaries order their keys. */
  lemma {:induction false} CodePointOrderIsByteOrder(a: string, b: string)
    ensures LexLess(a, b) <==> BytesLess(EncodeText(a), EncodeText(b))
    decreases |a|
  {
    hide EncodeChar;
    if a != "" && b != "" {
      var restA, restB := EncodeText(a[1..]), EncodeText(b[1..]);
      var ca, cb := EncodeChar(a[0]), EncodeChar(b[0]);
      if a[0] == b[0] {
        CodePointOrderIsByteOrder(a[1..], b[1..]);
        SamePrefix(ca, restA, restB);
      } else if a[0] < b[0] {
        var i := CharOrder(a[0], b[0]);
        Extended(ca, restA, cb, restB, i);
      } else {
        var i := CharOrder(b[0], a[0]);
        Extended(cb, restB, ca, restA, i);
      }
    }
  }

  lemma Extended(a: seq<byte>, s: seq<byte>, b: seq<byte>, t: seq<byte>, i: nat)
    requires i < |a| && i < |b| && a[..i] == b[..i] && a[i] < b[i]
    ensures BytesLess(a + s, b + t) && !BytesLess(b + t, a + s)
  {
    assert (a + s)[..i] == a[..i] && (b + t)[..i] == b[..i];
    FirstDifference(a + s, b + t, i);
  }

  /** Bytes per character, by range of code points. */
  lemma CharWidths(ch: char)
    ensures |EncodeChar(ch)| == 1 <==> ch <= '\U{7F}'
    ensures |EncodeChar(ch)| == 2 <==> '\U{80}' <= ch <= '\U{7FF}'
    ensures |EncodeChar(ch)| == 3 <==> '\U{800}' <= ch <= '\U{FFFF}'
    ensures |EncodeChar(ch)| == 4 <==> '\U{10000}' <= ch <= '\U{10FFFF}'
  {}
}

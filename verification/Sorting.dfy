/** Strings in code-point order (the order of their UTF-8 bytes), and the stable
    sort the library calls provide. */
module Sorting {

  // --- Lexicographic order --------------------------------------------------

  predicate LexLess(a: string, b: string)
  {
    if b == "" then false
    else if a == "" then true
    else a[0] < b[0] || (a[0] == b[0] && LexLess(a[1..], b[1..]))
  }

  predicate LexLeq(a: string, b: string) { a == b || LexLess(a, b) }

  lemma {:induction false} LexTotal(a: string, b: string)
    ensures LexLess(a, b) || a == b || LexLess(b, a)
  {
    if a != "" && b != "" && a[0] == b[0] {
      LexTotal(a[1..], b[1..]);
      assert a == [a[0]] + a[1..] && b == [b[0]] + b[1..];
    }
  }

  lemma {:induction false} LexTransitive(a: string, b: string, c: string)
    requires LexLess(a, b) && LexLess(b, c)
    ensures LexLess(a, c)
  {
    if a != "" && a[0] == b[0] == c[0] {
      LexTransitive(a[1..], b[1..], c[1..]);
    }
  }

  lemma {:induction false} LexIrreflexive(a: string)
    ensures !LexLess(a, a)
  {
    if a != "" { LexIrreflexive(a[1..]); }
  }

  ghost predicate LexIncreasing(s: seq<string>)
  {
    forall i, j | 0 <= i < j < |s| :: LexLess(s[i], s[j])
  }

  lemma LexAsymmetric(a: string, b: string)
    requires LexLess(a, b)
    ensures a != b && !LexLess(b, a)
  {
    LexIrreflexive(a);
    if LexLess(b, a) { LexTransitive(a, b, a); }
  }

  /** An increasing list is determined by its elements. */
  lemma {:induction false} LexIncreasingUnique(s: seq<string>, t: seq<string>)
    requires LexIncreasing(s) && LexIncreasing(t)
    requires forall x :: x in s <==> x in t
    ensures s == t
    decreases |s|
  {
    assert t != [] ==> t[0] in t;
    if s != [] {
      assert s[0] in t && t != [];
      assert t[0] in s;
      if s[0] != t[0] {
        var i :| 0 <= i < |s| && s[i] == t[0];
        var j :| 0 <= j < |t| && t[j] == s[0];
        LexAsymmetric(s[0], t[0]);
      }
      forall x ensures x in s[1..] <==> x in t[1..] {
        if x == s[0] {
          LexIrreflexive(x);
        }
        assert x in s <==> x == s[0] || x in s[1..];
        assert x in t <==> x == t[0] || x in t[1..];
      }
      LexIncreasingUnique(s[1..], t[1..]);
      assert s == [s[0]] + s[1..] && t == [t[0]] + t[1..];
    }
  }

  // --- Stable sort ------------------------------------------------------------

  ghost predicate TotalPreorder<T(!new)>(leq: (T, T) -> bool)
  {
    && (forall x, y :: leq(x, y) || leq(y, x))
    && (forall x, y, z :: leq(x, y) && leq(y, z) ==> leq(x, z))
  }

  ghost predicate SortedBy<T>(xs: seq<T>, leq: (T, T) -> bool)
  {
    forall i, j | 0 <= i < j < |xs| :: leq(xs[i], xs[j])
  }

  function Insert<T>(x: T, xs: seq<T>, leq: (T, T) -> bool): seq<T>
  {
    if xs == [] || leq(x, xs[0]) then [x] + xs
    else [xs[0]] + Insert(x, xs[1..], leq)
  }

  function Sort<T>(xs: seq<T>, leq: (T, T) -> bool): seq<T>
  {
    if xs == [] then [] else Insert(xs[0], Sort(xs[1..], leq), leq)
  }

  lemma HeadSorted<T>(x: T, xs: seq<T>, leq: (T, T) -> bool)
    requires SortedBy(xs, leq) && forall i | 0 <= i < |xs| :: leq(x, xs[i])
    ensures SortedBy([x] + xs, leq)
  {}

  lemma BelowAll<T(!new)>(x: T, xs: seq<T>, leq: (T, T) -> bool)
    requires TotalPreorder(leq) && SortedBy(xs, leq) && (xs != [] ==> leq(x, xs[0]))
    ensures forall i | 0 <= i < |xs| :: leq(x, xs[i])
  {
    forall i | 0 <= i < |xs| ensures leq(x, xs[i]) {
      if i > 0 { assert leq(xs[0], xs[i]); }
    }
  }

  lemma {:induction false} InsertSorted<T(!new)>(x: T, xs: seq<T>, leq: (T, T) -> bool)
    requires TotalPreorder(leq) && SortedBy(xs, leq)
    ensures SortedBy(Insert(x, xs, leq), leq)
    ensures multiset(Insert(x, xs, leq)) == multiset{x} + multiset(xs)
  {
    if xs == [] || leq(x, xs[0]) {
      hide SortedBy, TotalPreorder;
      BelowAll(x, xs, leq);
      HeadSorted(x, xs, leq);
    } else {
      var rest := Insert(x, xs[1..], leq);
      InsertSorted(x, xs[1..], leq);
      assert xs == [xs[0]] + xs[1..];
      BelowAll(xs[0], xs[1..], leq);
      forall i | 0 <= i < |rest| ensures leq(xs[0], rest[i]) {
        assert rest[i] in multiset(rest);
        if rest[i] != x {
          assert rest[i] in multiset(xs[1..]);
          assert rest[i] in xs[1..];
        }
      }
      hide SortedBy;
      HeadSorted(xs[0], rest, leq);
    }
  }

  /** The sort orders its input and keeps every element with its multiplicity. */
  lemma {:induction false} SortCorrect<T(!new)>(xs: seq<T>, leq: (T, T) -> bool)
    requires TotalPreorder(leq)
    ensures SortedBy(Sort(xs, leq), leq)
    ensures multiset(Sort(xs, leq)) == multiset(xs)
    ensures |Sort(xs, leq)| == |xs|
    ensures forall x :: x in Sort(xs, leq) <==> x in xs
  {
    if xs != [] {
      SortCorrect(xs[1..], leq);
      InsertSorted(xs[0], Sort(xs[1..], leq), leq);
      assert xs == [xs[0]] + xs[1..];
    }
    SameElements(Sort(xs, leq), xs);
  }

  lemma SameElements<T(!new)>(a: seq<T>, b: seq<T>)
    requires multiset(a) == multiset(b)
    ensures |a| == |b|
    ensures forall x :: x in a <==> x in b
  {
    assert |multiset(a)| == |a| && |multiset(b)| == |b|;
    forall x ensures x in a <==> x in b {
      assert x in a <==> x in multiset(a);
      assert x in b <==> x in multiset(b);
    }
  }

  // --- Sorting and deduplicating by a key --------------------------------------------

  function KeyLeq<T>(key: T -> int): (T, T) -> bool
  {
    (a: T, b: T) => key(a) <= key(b)
  }

  /** `sort_by_key`, which is stable. */
  function SortByKey<T>(xs: seq<T>, key: T -> int): seq<T>
  {
    Sort(xs, KeyLeq(key))
  }

  /** `dedup_by_key`: keeps the first element of each run of equal keys. */
  function DedupByKey<T>(xs: seq<T>, key: T -> int): seq<T>
    decreases |xs|
  {
    if |xs| <= 1 then xs
    else if key(xs[0]) == key(xs[1]) then DedupByKey([xs[0]] + xs[2..], key)
    else [xs[0]] + DedupByKey(xs[1..], key)
  }

  ghost predicate KeysIncrease<T>(xs: seq<T>, key: T -> int)
  {
    forall i, j | 0 <= i < j < |xs| :: key(xs[i]) < key(xs[j])
  }

  ghost function Keys<T>(xs: seq<T>, key: T -> int): set<int>
  {
    set x | x in xs :: key(x)
  }

  lemma {:induction false} DedupSorted<T(!new)>(xs: seq<T>, key: T -> int)
    requires SortedBy(xs, KeyLeq(key))
    ensures KeysIncrease(DedupByKey(xs, key), key)
    ensures forall x | x in DedupByKey(xs, key) :: x in xs
    ensures Keys(DedupByKey(xs, key), key) == Keys(xs, key)
    ensures xs != [] ==> DedupByKey(xs, key) != [] && DedupByKey(xs, key)[0] == xs[0]
    decreases |xs|
  {
    if |xs| > 1 {
      DropSecond(xs, key);
      TailSorted(xs, key);
      hide SortedBy, KeyLeq, KeysIncrease, Keys;
      if key(xs[0]) == key(xs[1]) {
        DedupSorted([xs[0]] + xs[2..], key);
      } else {
        DedupSorted(xs[1..], key);
        KeepFirst(xs, DedupByKey(xs[1..], key), key);
        ConsKey(xs[0], xs[1..], key);
        ConsKey(xs[0], DedupByKey(xs[1..], key), key);
        assert xs == [xs[0]] + xs[1..];
      }
    }
  }

  lemma ConsKey<T>(x: T, xs: seq<T>, key: T -> int)
    ensures Keys([x] + xs, key) == {key(x)} + Keys(xs, key)
  {
    assert x in [x] + xs;
    assert forall y | y in xs :: y in [x] + xs;
  }

  lemma TailSorted<T>(xs: seq<T>, key: T -> int)
    requires xs != [] && SortedBy(xs, KeyLeq(key))
    ensures SortedBy(xs[1..], KeyLeq(key))
  {}

  lemma DropSecond<T>(xs: seq<T>, key: T -> int)
    requires |xs| > 1 && SortedBy(xs, KeyLeq(key))
    ensures SortedBy([xs[0]] + xs[2..], KeyLeq(key))
    ensures forall x | x in [xs[0]] + xs[2..] :: x in xs
    ensures key(xs[0]) == key(xs[1]) ==> Keys([xs[0]] + xs[2..], key) == Keys(xs, key)
  {
    var ys := [xs[0]] + xs[2..];
    assert xs == [xs[0]] + ([xs[1]] + xs[2..]);
    ConsKey(xs[0], [xs[1]] + xs[2..], key);
    ConsKey(xs[1], xs[2..], key);
    ConsKey(xs[0], xs[2..], key);
    forall i, j | 0 <= i < j < |ys| ensures KeyLeq(key)(ys[i], ys[j]) {
      assert ys[j] == xs[j + 1] && ys[i] == xs[if i == 0 then 0 else i + 1];
    }
  }

  lemma KeepFirst<T>(xs: seq<T>, rest: seq<T>, key: T -> int)
    requires |xs| > 1 && SortedBy(xs, KeyLeq(key)) && key(xs[0]) != key(xs[1])
    requires KeysIncrease(rest, key) && rest != [] && rest[0] == xs[1]
    ensures KeysIncrease([xs[0]] + rest, key)
  {
    assert KeyLeq(key)(xs[0], xs[1]);
    assert forall i | 0 < i < |rest| :: key(rest[0]) < key(rest[i]);
  }

  lemma KeyLeqIsPreorder<T(!new)>(key: T -> int)
    ensures TotalPreorder(KeyLeq(key))
  {}

  /** Sorting then deduplicating by a key: strictly increasing keys, every element
      from the input, every key of the input kept. */
  lemma SortDedup<T(!new)>(xs: seq<T>, key: T -> int)
    ensures KeysIncrease(DedupByKey(SortByKey(xs, key), key), key)
    ensures forall x | x in DedupByKey(SortByKey(xs, key), key) :: x in xs
    ensures Keys(DedupByKey(SortByKey(xs, key), key), key) == Keys(xs, key)
  {
    KeyLeqIsPreorder(key);
    SortCorrect(xs, KeyLeq(key));
    DedupSorted(SortByKey(xs, key), key);
  }

  lemma LexLeqIsPreorder()
    ensures TotalPreorder(LexLeq)
  {
    forall x, y ensures LexLeq(x, y) || LexLeq(y, x) { LexTotal(x, y); }
    forall x, y, z | LexLeq(x, y) && LexLeq(y, z) ensures LexLeq(x, z) {
      if x != y && y != z { LexTransitive(x, y, z); }
    }
  }

  /** The keys of an ordered map, in order. */
  method SortedKeys(keys: set<string>) returns (s: seq<string>)
    ensures LexIncreasing(s)
    ensures forall k :: k in s <==> k in keys
  {
    var remaining := keys;
    var list: seq<string> := [];
    while remaining != {}
      invariant remaining <= keys
      invariant forall k :: k in list <==> k in keys - remaining
      invariant forall i, j | 0 <= i < j < |list| :: list[i] != list[j]
      decreases |remaining|
    {
      var k :| k in remaining;
      assert k !in list;
      OneMore(list, k);
      list := list + [k];
      remaining := remaining - {k};
    }
    s := Sort(list, LexLeq);
    LexLeqIsPreorder();
    SortCorrect(list, LexLeq);
    SortDistinct(list);
  }

  lemma OneMore(list: seq<string>, k: string)
    requires (forall i, j | 0 <= i < j < |list| :: list[i] != list[j]) && k !in list
    ensures forall i, j | 0 <= i < j < |list| + 1 :: (list + [k])[i] != (list + [k])[j]
  {}

  lemma SortDistinct(list: seq<string>)
    requires forall i, j | 0 <= i < j < |list| :: list[i] != list[j]
    ensures LexIncreasing(Sort(list, LexLeq))
  {
    LexLeqIsPreorder();
    SortCorrect(list, LexLeq);
    var s := Sort(list, LexLeq);
    forall i, j | 0 <= i < j < |s| ensures LexLess(s[i], s[j]) {
      assert LexLeq(s[i], s[j]);
      if s[i] == s[j] {
        MultiplicityTwo(s, i, j);
        DistinctMultiplicity(list, s[i]);
      }
    }
  }

  lemma MultiplicityTwo<T>(s: seq<T>, i: nat, j: nat)
    requires i < j < |s| && s[i] == s[j]
    ensures multiset(s)[s[i]] >= 2
  {
    assert s == s[..i] + [s[i]] + s[i + 1..j] + [s[j]] + s[j + 1..];
  }

  lemma {:induction false} DistinctMultiplicity<T(!new)>(s: seq<T>, x: T)
    requires forall i, j | 0 <= i < j < |s| :: s[i] != s[j]
    ensures multiset(s)[x] <= 1
  {
    if s != [] {
      DistinctMultiplicity(s[1..], x);
      assert s == [s[0]] + s[1..];
      if x == s[0] {
        assert x !in s[1..];
        assert x !in multiset(s[1..]);
      }
    }
  }
}

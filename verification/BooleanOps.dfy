/** Two-pointer merges of sorted, duplicate-free id lists. */
module BooleanOps {
  import opened Types

  method Intersect(a: seq<DocId>, b: seq<DocId>) returns (result: seq<DocId>)
    requires StrictlyIncreasing(a) && StrictlyIncreasing(b)
    ensures StrictlyIncreasing(result)
    ensures forall d :: d in result <==> d in a && d in b
  {
    result := [];
    var i, j := 0, 0;
    while i < |a| && j < |b|
      invariant 0 <= i <= |a| && 0 <= j <= |b|
      invariant StrictlyIncreasing(result)
      invariant forall d | d in result :: (i < |a| ==> d < a[i]) && (j < |b| ==> d < b[j])
      invariant forall d :: d in result <==> d in a[..i] && d in b[..j]
      invariant i < |a| ==> forall k | 0 <= k < j :: b[k] < a[i]
      invariant j < |b| ==> forall k | 0 <= k < i :: a[k] < b[j]
      decreases |a| + |b| - i - j
    {
      assert a[..i + 1] == a[..i] + [a[i]] && b[..j + 1] == b[..j] + [b[j]];
      if a[i] < b[j] {
        i := i + 1;
      } else if a[i] > b[j] {
        j := j + 1;
      } else {
        ConcatIncreasing(result, [a[i]]);
        result := result + [a[i]];
        i, j := i + 1, j + 1;
      }
    }
    assert a == a[..i] + a[i..] && b == b[..j] + b[j..];
  }

  method Union(a: seq<DocId>, b: seq<DocId>) returns (result: seq<DocId>)
    requires StrictlyIncreasing(a) && StrictlyIncreasing(b)
    ensures StrictlyIncreasing(result)
    ensures forall d :: d in result <==> d in a || d in b
  {
    result := [];
    var i, j := 0, 0;
    while i < |a| && j < |b|
      invariant 0 <= i <= |a| && 0 <= j <= |b|
      invariant StrictlyIncreasing(result)
      invariant forall d | d in result :: (i < |a| ==> d < a[i]) && (j < |b| ==> d < b[j])
      invariant forall d :: d in result <==> d in a[..i] || d in b[..j]
      decreases |a| + |b| - i - j
    {
      assert a[..i + 1] == a[..i] + [a[i]] && b[..j + 1] == b[..j] + [b[j]];
      if a[i] < b[j] {
        ConcatIncreasing(result, [a[i]]);
        result := result + [a[i]];
        i := i + 1;
      } else if a[i] > b[j] {
        ConcatIncreasing(result, [b[j]]);
        result := result + [b[j]];
        j := j + 1;
      } else {
        ConcatIncreasing(result, [a[i]]);
        result := result + [a[i]];
        i, j := i + 1, j + 1;
      }
    }
    assert a == a[..i] + a[i..] && b == b[..j] + b[j..];
    ConcatIncreasing(result, a[i..]);
    result := result + a[i..];
    ConcatIncreasing(result, b[j..]);
    result := result + b[j..];
  }

  method Difference(a: seq<DocId>, b: seq<DocId>) returns (result: seq<DocId>)
    requires StrictlyIncreasing(a) && StrictlyIncreasing(b)
    ensures StrictlyIncreasing(result)
    ensures forall d :: d in result <==> d in a && d !in b
  {
    result := [];
    var i, j := 0, 0;
    while i < |a|
      invariant 0 <= i <= |a| && 0 <= j <= |b|
      invariant StrictlyIncreasing(result)
      invariant forall d | d in result :: i < |a| ==> d < a[i]
      invariant forall d :: d in result <==> d in a[..i] && d !in b
      invariant i < |a| ==> forall k | 0 <= k < j :: b[k] < a[i]
      decreases |a| + |b| - i - j
    {
      assert a[..i + 1] == a[..i] + [a[i]];
      if j >= |b| {
        assert a == a[..i] + a[i..];
        ConcatIncreasing(result, a[i..]);
        result := result + a[i..];
        return;
      }
      if a[i] < b[j] {
        assert a[i] !in b;
        ConcatIncreasing(result, [a[i]]);
        result := result + [a[i]];
        i := i + 1;
      } else if a[i] > b[j] {
        j := j + 1;
      } else {
        i, j := i + 1, j + 1;
      }
    }
    assert a[..i] == a;
  }
}

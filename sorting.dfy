/** `sort.Slice` with a "less" function that compares one numeric field of the rows. Every such
    comparison in the core is "field a > field b" or "field a < field b", so a row's rank is a real key
    (the field, or its negation for a descending order) and the slice ends up ordered by that key. */
module Sorting {
  import opened Common

  /** `s` is in ascending order of `key`. */
  predicate SortedBy<T>(s: seq<T>, key: T -> real) {
    forall i, j :: 0 <= i < j < |s| ==> key(s[i]) <= key(s[j])
  }

  /** The position of a least key among `a[from..]`. */
  method MinIndex<T>(a: array<T>, from: int, key: T -> real) returns (m: int)
    requires 0 <= from < a.Length
    ensures from <= m < a.Length
    ensures forall y :: from <= y < a.Length ==> key(a[m]) <= key(a[y])
  {
    m := from;
    var j := from + 1;
    while j < a.Length
      invariant from <= m < a.Length && from < j <= a.Length
      invariant forall y :: from <= y < j ==> key(a[m]) <= key(a[y])
    {
      if key(a[j]) < key(a[m]) {
        m := j;
      }
      j := j + 1;
    }
  }

  /** Exchanges two elements. */
  method Swap<T>(a: array<T>, i: int, j: int)
    requires 0 <= i < a.Length && 0 <= j < a.Length
    modifies a
    ensures a[i] == old(a[j]) && a[j] == old(a[i])
    ensures forall k :: 0 <= k < a.Length && k != i && k != j ==> a[k] == old(a[k])
    ensures multiset(a[..]) == multiset(old(a[..]))
  {
    a[i], a[j] := a[j], a[i];
    assert a[..] == old(a[..])[i := old(a[j])][j := old(a[i])];
  }

  /** Sorts `a` in place by ascending `key`; its elements are only rearranged. Go's `sort.Slice` is not
      stable, so nothing is promised about the order of rows with equal keys. */
  method SortBy<T>(a: array<T>, key: T -> real)
    modifies a
    ensures SortedBy(a[..], key)
    ensures multiset(a[..]) == multiset(old(a[..]))
  {
    var i := 0;
    while i < a.Length
      invariant 0 <= i <= a.Length
      invariant forall x, y :: 0 <= x < y < i ==> key(a[x]) <= key(a[y])
      invariant forall x, y :: 0 <= x < i <= y < a.Length ==> key(a[x]) <= key(a[y])
      invariant multiset(a[..]) == multiset(old(a[..]))
    {
      var m := MinIndex(a, i, key);
      Swap(a, i, m);
      i := i + 1;
    }
  }

  /** `if len(rows) > limit { rows = rows[:limit] }`: at most `limit` rows, a prefix of the input. Go's
      slice expression panics for a negative limit, which is `None` here. */
  function TruncateToLimit<T>(s: seq<T>, limit: int): (r: Option<seq<T>>)
    ensures r.None? <==> limit < 0
    ensures r.Some? ==> |r.value| == (if |s| <= limit then |s| else limit)
    ensures r.Some? ==> r.value == s[..|r.value|]
  {
    if |s| > limit then (if limit < 0 then None else Some(s[..limit])) else Some(s)
  }

  /** An element that occurs at two positions is counted at least twice. */
  lemma {:induction false} TwiceCounted<T>(s: seq<T>, i: int, j: int)
    requires 0 <= i < j < |s| && s[i] == s[j]
    ensures multiset(s)[s[i]] >= 2
  {
    assert s == s[..j] + [s[j]] + s[j + 1..];
    assert s[..j][i] == s[i];
    assert multiset(s) == multiset(s[..j]) + multiset{s[j]} + multiset(s[j + 1..]);
  }
}

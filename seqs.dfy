/** Array operations the site's TypeScript uses on lists: `filter`, `slice(0, n)`
    and `sort` with a numeric comparator. */
module Seqs {

  /** `a` is obtained from `b` by deleting elements (order is kept). */
  ghost predicate IsSubsequence<T>(a: seq<T>, b: seq<T>)
    decreases |b|
  {
    a == [] || (b != [] && ((a[0] == b[0] && IsSubsequence(a[1..], b[1..])) || IsSubsequence(a, b[1..])))
  }

  /** `s.filter(p)`. */
  function Filter<T(!new)>(s: seq<T>, p: T -> bool): (r: seq<T>)
    ensures |r| <= |s|
    ensures forall x :: x in r <==> x in s && p(x)
    ensures forall i :: 0 <= i < |r| ==> p(r[i])
    ensures multiset(r) <= multiset(s)
    ensures IsSubsequence(r, s)
  {
    if s == [] then []
    else
      assert s == [s[0]] + s[1..];
      if p(s[0]) then [s[0]] + Filter(s[1..], p)
      else Filter(s[1..], p)
  }

  /** Every element that a filter keeps is kept by a weaker filter too, so the
      stronger filter never keeps more elements. */
  lemma {:induction false} FilterStrongerIsShorter<T(!new)>(s: seq<T>, p: T -> bool, q: T -> bool)
    requires forall x :: x in s && q(x) ==> p(x)
    ensures |Filter(s, q)| <= |Filter(s, p)|
  {
    if s != [] {
      FilterStrongerIsShorter(s[1..], p, q);
    }
  }

  /** Filters whose predicates agree on the list keep the same elements. */
  lemma {:induction false} FilterAgree<T(!new)>(s: seq<T>, p: T -> bool, q: T -> bool)
    requires forall i :: 0 <= i < |s| ==> p(s[i]) == q(s[i])
    ensures Filter(s, p) == Filter(s, q)
  {
    if s != [] {
      FilterAgree(s[1..], p, q);
    }
  }

  /** Filtering a concatenation filters each part. */
  lemma {:induction false} FilterConcat<T(!new)>(a: seq<T>, b: seq<T>, p: T -> bool)
    ensures Filter(a + b, p) == Filter(a, p) + Filter(b, p)
  {
    if a == [] {
      assert a + b == b;
    } else {
      assert (a + b)[1..] == a[1..] + b;
      FilterConcat(a[1..], b, p);
    }
  }

  /** A filter whose predicate holds of every element keeps the whole list. */
  lemma {:induction false} FilterAll<T(!new)>(s: seq<T>, p: T -> bool)
    requires forall i :: 0 <= i < |s| ==> p(s[i])
    ensures Filter(s, p) == s
  {
    if s != [] {
      FilterAll(s[1..], p);
    }
  }

  /** The end index JavaScript's `slice(0, end)` uses: a negative end counts from the back. */
  function SliceEnd(len: nat, end: int): (k: nat)
    ensures k <= len
    ensures end >= 0 ==> k == if end < len then end else len
  {
    if end < 0 then (if len + end < 0 then 0 else len + end)
    else if end < len then end
    else len
  }

  /** The filter keeps every copy of an element that satisfies the predicate and
      no copy of one that does not. */
  lemma {:induction false} FilterCount<T(!new)>(s: seq<T>, p: T -> bool)
    ensures forall x :: multiset(Filter(s, p))[x] == if p(x) then multiset(s)[x] else 0
  {
    if s != [] {
      FilterCount(s[1..], p);
      assert s == [s[0]] + s[1..];
    }
  }

  /** The filter is empty exactly when no element satisfies the predicate. */
  lemma FilterEmpty<T(!new)>(s: seq<T>, p: T -> bool)
    ensures |Filter(s, p)| == 0 <==> forall x :: x in s ==> !p(x)
  {
    if |Filter(s, p)| != 0 {
      assert Filter(s, p)[0] in Filter(s, p);
    }
  }

  /** `s.slice(0, end)`. */
  function Take<T>(s: seq<T>, end: int): (r: seq<T>)
    ensures |r| <= |s| && r == s[..|r|]
    ensures |r| == SliceEnd(|s|, end)
    ensures end >= 0 ==> |r| == if end < |s| then end else |s|
  {
    s[..SliceEnd(|s|, end)]
  }

  /** A shorter list never has a longer `slice(0, end)`, for any end. */
  lemma TakeMonotone<T>(a: seq<T>, b: seq<T>, end: int)
    requires |a| <= |b|
    ensures |Take(a, end)| <= |Take(b, end)|
  {
  }

  /** Every list is a subsequence of itself. */
  lemma {:induction false} SubsequenceOfItself<T>(s: seq<T>)
    ensures IsSubsequence(s, s)
  {
    if s != [] {
      SubsequenceOfItself(s[1..]);
    }
  }

  /** A prefix of a subsequence is a subsequence. */
  lemma {:induction false} SubsequencePrefix<T>(a: seq<T>, b: seq<T>, k: nat)
    requires IsSubsequence(a, b) && k <= |a|
    ensures IsSubsequence(a[..k], b)
    decreases |b|
  {
    if k > 0 {
      if a[0] == b[0] && IsSubsequence(a[1..], b[1..]) {
        SubsequencePrefix(a[1..], b[1..], k - 1);
        assert a[..k][1..] == a[1..][..k - 1];
      } else {
        SubsequencePrefix(a, b[1..], k);
      }
    }
  }

  /** The first `end` elements a filter keeps (`s.filter(p).slice(0, end)`) are
      a subsequence of `s`. */
  lemma TakeFilterSubsequence<T(!new)>(s: seq<T>, p: T -> bool, end: int)
    ensures IsSubsequence(Take(Filter(s, p), end), s)
  {
    var f := Filter(s, p);
    SubsequencePrefix(f, s, |Take(f, end)|);
  }

  /** `s` is ordered by non-decreasing `key`. */
  predicate SortedBy<T>(s: seq<T>, key: T -> int) {
    forall i, j :: 0 <= i < j < |s| ==> key(s[i]) <= key(s[j])
  }

  /** Inserts `x` into a sorted list in front of the first element whose key is not
      smaller, so elements with equal keys keep their order of arrival. */
  function InsertBy<T>(x: T, s: seq<T>, key: T -> int): (r: seq<T>)
    requires SortedBy(s, key)
    ensures |r| == |s| + 1
    ensures multiset(r) == multiset(s) + multiset{x}
    ensures forall k :: 0 <= k < |r| ==> r[k] == x || r[k] in s
    ensures SortedBy(r, key)
  {
    if s == [] || key(x) <= key(s[0]) then
      [x] + s
    else
      var rest := InsertBy(x, s[1..], key);
      InsertedTail(x, s, rest, key);
      [s[0]] + rest
  }

  /** Putting the head back in front of a tail with `x` inserted keeps the
      order, the count and the members. */
  lemma InsertedTail<T>(x: T, s: seq<T>, rest: seq<T>, key: T -> int)
    requires s != [] && SortedBy(s, key) && key(s[0]) < key(x)
    requires SortedBy(rest, key) && |rest| == |s|
    requires multiset(rest) == multiset(s[1..]) + multiset{x}
    requires forall k :: 0 <= k < |rest| ==> rest[k] == x || rest[k] in s[1..]
    ensures SortedBy([s[0]] + rest, key)
    ensures multiset([s[0]] + rest) == multiset(s) + multiset{x}
    ensures forall k :: 0 <= k < |rest| + 1 ==> ([s[0]] + rest)[k] == x || ([s[0]] + rest)[k] in s
  {
    InsertedTailMembers(x, s, rest);
    InsertedTailSorted(x, s, rest, key);
  }

  lemma InsertedTailMembers<T>(x: T, s: seq<T>, rest: seq<T>)
    requires s != [] && |rest| == |s|
    requires multiset(rest) == multiset(s[1..]) + multiset{x}
    requires forall k :: 0 <= k < |rest| ==> rest[k] == x || rest[k] in s[1..]
    ensures multiset([s[0]] + rest) == multiset(s) + multiset{x}
    ensures forall k :: 0 <= k < |rest| + 1 ==> ([s[0]] + rest)[k] == x || ([s[0]] + rest)[k] in s
  {
    var r := [s[0]] + rest;
    assert s == [s[0]] + s[1..];
    assert multiset(r) == multiset{s[0]} + multiset(rest);
    forall k | 1 <= k < |r| && r[k] != x
      ensures r[k] in s
    {
      assert r[k] == rest[k - 1] && r[k] in s[1..];
      var m :| 0 <= m < |s[1..]| && s[1..][m] == r[k];
      assert s[m + 1] == r[k];
    }
  }

  lemma InsertedTailSorted<T>(x: T, s: seq<T>, rest: seq<T>, key: T -> int)
    requires s != [] && SortedBy(s, key) && key(s[0]) < key(x)
    requires SortedBy(rest, key)
    requires forall k :: 0 <= k < |rest| ==> rest[k] == x || rest[k] in s[1..]
    ensures SortedBy([s[0]] + rest, key)
  {
    var r := [s[0]] + rest;
    forall i, j | 0 <= i < j < |r| ensures key(r[i]) <= key(r[j]) {
      if i > 0 {
        assert r[i] == rest[i - 1] && r[j] == rest[j - 1];
      } else if r[j] != x {
        var m :| 0 <= m < |s[1..]| && s[1..][m] == r[j];
        assert s[1 + m] == r[j];
      }
    }
  }

  /** `s.sort((a, b) => key(a) - key(b))`: an ordered permutation of `s`. */
  function SortBy<T>(s: seq<T>, key: T -> int): (r: seq<T>)
    ensures |r| == |s|
    ensures multiset(r) == multiset(s)
    ensures SortedBy(r, key)
  {
    if s == [] then []
    else
      assert multiset(s) == multiset{s[0]} + multiset(s[1..]) by {
        assert s == [s[0]] + s[1..];
      }
      InsertBy(s[0], SortBy(s[1..], key), key)
  }

  /** The index of the first element satisfying `p`, or `|s|` when there is none
      (`s.find(p)` and `s.findIndex(p)`). */
  function FirstIndex<T>(s: seq<T>, p: T -> bool): (k: nat)
    ensures k <= |s|
    ensures k < |s| ==> p(s[k])
    ensures forall j :: 0 <= j < k ==> !p(s[j])
  {
    if s == [] then 0 else if p(s[0]) then 0 else 1 + FirstIndex(s[1..], p)
  }

  /** Permutations have the same members. */
  lemma SameMembers<T>(a: seq<T>, b: seq<T>)
    requires multiset(a) == multiset(b)
    ensures forall x :: x in a <==> x in b
  {
    forall x ensures x in a <==> x in b {
      assert x in a <==> x in multiset(a);
      assert x in b <==> x in multiset(b);
    }
  }
}

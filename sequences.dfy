/** Generic sequence operations used by the layout engine: order-preserving
    filtering, sorting by an integer key, mapping and concatenation. */
module Sequences {

  /** The elements of `s` have non-decreasing keys. */
  predicate SortedBy<T>(s: seq<T>, key: T -> int)
  {
    forall i, j :: 0 <= i < j < |s| ==> key(s[i]) <= key(s[j])
  }

  /** `p` is `s` rearranged into non-decreasing key order. */
  predicate IsSortingOf<T(==)>(p: seq<T>, s: seq<T>, key: T -> int)
  {
    multiset(p) == multiset(s) && SortedBy(p, key)
  }

  /** The elements of `s` that satisfy `p`, in their original order. */
  function Filter<T>(s: seq<T>, p: T -> bool): (r: seq<T>)
    ensures |r| <= |s|
    ensures forall i :: 0 <= i < |r| ==> p(r[i])
  {
    if s == [] then []
    else (if p(s[0]) then [s[0]] else []) + Filter(s[1..], p)
  }

  /** Filtering keeps every element satisfying `p` as often as it occurs, and no other. */
  lemma {:induction false} FilterCount<T>(s: seq<T>, p: T -> bool, x: T)
    ensures multiset(Filter(s, p))[x] == if p(x) then multiset(s)[x] else 0
  {
    if s != [] {
      FilterCount(s[1..], p, x);
      assert s == [s[0]] + s[1..];
    }
  }

  lemma FilterMember<T>(s: seq<T>, p: T -> bool, x: T)
    ensures x in Filter(s, p) <==> x in s && p(x)
  {
    FilterCount(s, p, x);
    assert x in Filter(s, p) <==> x in multiset(Filter(s, p));
    assert x in s <==> x in multiset(s);
  }

  /** A filtered sorted sequence is still sorted. */
  lemma {:induction false} FilterSorted<T>(s: seq<T>, p: T -> bool, key: T -> int)
    requires SortedBy(s, key)
    ensures SortedBy(Filter(s, p), key)
  {
    if s != [] {
      FilterSorted(s[1..], p, key);
      var rest := Filter(s[1..], p);
      forall i | 0 <= i < |rest| ensures key(s[0]) <= key(rest[i]) {
        FilterMember(s[1..], p, rest[i]);
        var j :| 0 <= j < |s[1..]| && s[1..][j] == rest[i];
        assert s[j + 1] == rest[i];
      }
    }
  }

  /** Filtering two rearrangements of one multiset gives rearrangements of one multiset. */
  lemma FilterPermutation<T(!new)>(a: seq<T>, b: seq<T>, p: T -> bool)
    requires multiset(a) == multiset(b)
    ensures multiset(Filter(a, p)) == multiset(Filter(b, p))
  {
    forall x ensures multiset(Filter(a, p))[x] == multiset(Filter(b, p))[x] {
      FilterCount(a, p, x);
      FilterCount(b, p, x);
    }
    assert forall x :: multiset(Filter(a, p))[x] == multiset(Filter(b, p))[x];
  }

  /** An element of a rearrangement of a filtered sequence is an element of
      the original that passes the filter. */
  lemma PermutedFilterMember<T>(s: seq<T>, p: T -> bool, t: seq<T>, x: T)
    requires multiset(t) == multiset(Filter(s, p)) && x in t
    ensures exists j :: 0 <= j < |s| && s[j] == x && p(x)
  {
    assert x in multiset(t);
    FilterMember(s, p, x);
    var j :| 0 <= j < |s| && s[j] == x;
  }

  /** An element of the original that passes the filter is in every
      rearrangement of the filtered sequence. */
  lemma PermutedFilterIncludes<T>(s: seq<T>, p: T -> bool, t: seq<T>, j: int)
    requires multiset(t) == multiset(Filter(s, p)) && 0 <= j < |s| && p(s[j])
    ensures s[j] in t
  {
    FilterMember(s, p, s[j]);
    assert s[j] in multiset(t);
  }

  /** An element found at exactly one position occurs once. */
  lemma OccursOnce<T>(s: seq<T>, x: T, k: int)
    requires 0 <= k < |s| && s[k] == x
    requires forall j :: 0 <= j < |s| && s[j] == x ==> j == k
    ensures multiset(s)[x] == 1
  {
    assert s == s[..k] + [x] + s[k + 1..];
    assert x !in s[..k] && x !in s[k + 1..];
  }

  /** Insert `x` into the sorted `s`, before the first element whose key is not smaller. */
  function InsertBy<T(==)>(x: T, s: seq<T>, key: T -> int): (r: seq<T>)
    requires SortedBy(s, key)
    ensures |r| == |s| + 1
    ensures SortedBy(r, key)
    ensures multiset(r) == multiset(s) + multiset{x}
    ensures r[0] == x || (s != [] && r[0] == s[0])
  {
    if s == [] then [x]
    else if key(x) <= key(s[0]) then [x] + s
    else
      assert s == [s[0]] + s[1..];
      [s[0]] + InsertBy(x, s[1..], key)
  }

  /** Insertion sort by an integer key. */
  function SortBy<T(==)>(s: seq<T>, key: T -> int): (r: seq<T>)
    ensures IsSortingOf(r, s, key)
  {
    if s == [] then [] else
    var rest := SortBy(s[1..], key);
    assert s == [s[0]] + s[1..];
    InsertBy(s[0], rest, key)
  }

  /** Apply `f` to each element. */
  function Map<T, U>(s: seq<T>, f: T -> U): (r: seq<U>)
    ensures |r| == |s|
    ensures forall i :: 0 <= i < |s| ==> r[i] == f(s[i])
  {
    seq(|s|, i requires 0 <= i < |s| => f(s[i]))
  }

  /** Concatenation of a sequence of sequences. */
  function Concat<T>(ss: seq<seq<T>>): (r: seq<T>)
  {
    if ss == [] then [] else ss[0] + Concat(ss[1..])
  }

  /** Concatenation distributes over appending. */
  lemma {:induction false} ConcatAppend<T>(a: seq<seq<T>>, b: seq<seq<T>>)
    ensures Concat(a + b) == Concat(a) + Concat(b)
  {
    if a == [] {
      assert a + b == b;
    } else {
      assert (a + b)[1..] == a[1..] + b;
      ConcatAppend(a[1..], b);
    }
  }
  /** Concatenating the images of two sequences joined is joining their concatenations. */
  lemma ConcatMapAppend<T, U>(a: seq<T>, b: seq<T>, f: T -> seq<U>)
    ensures Concat(Map(a + b, f)) == Concat(Map(a, f)) + Concat(Map(b, f))
  {
    assert Map(a + b, f) == Map(a, f) + Map(b, f);
    ConcatAppend(Map(a, f), Map(b, f));
  }

  /** Concatenating the images of one more element appends that element's image. */
  lemma ConcatMapSnoc<T, U>(s: seq<T>, f: T -> seq<U>, k: int)
    requires 0 <= k < |s|
    ensures Concat(Map(s[..k + 1], f)) == Concat(Map(s[..k], f)) + f(s[k])
  {
    assert Map(s[..k + 1], f) == Map(s[..k], f) + [f(s[k])];
    ConcatAppend(Map(s[..k], f), [f(s[k])]);
    assert Concat([f(s[k])]) == f(s[k]) + Concat([]);
  }

}

/**
 * Lists of blogs as the browser pages hold them: the item shape the pages
 * read, the order-preserving filter they apply, and the handler that closes
 * a modal and perhaps asks for a refetch.
 */
module Listing {
  import opened Wrappers
  import Sorting

  datatype CategoryRef = CategoryRef(id: int, name: string)

  /** A user object nested in a blog: only its optional `username` is read. */
  datatype UserRef = UserRef(username: Option<string>)

  /** One blog object in a response. `createdAt` is its `created_at` as the
      number of milliseconds `new Date` gives; `title`, `author` and
      `creator` may be missing from the object. The server's blogs carry
      their owner as `creator` and have no `author`. */
  datatype BlogItem = BlogItem(
    id: int,
    title: Option<string>,
    createdAt: int,
    category: CategoryRef,
    author: Option<UserRef>,
    creator: Option<UserRef>)

  function CreatedAt(b: BlogItem): int {
    b.createdAt
  }

  /** `Array.prototype.filter`. */
  function Filter<T(!new)>(s: seq<T>, keep: T -> bool): (r: seq<T>)
    ensures |r| <= |s|
    ensures forall x :: multiset(r)[x] == if keep(x) then multiset(s)[x] else 0
    ensures forall x :: x in r <==> x in s && keep(x)
  {
    if |s| == 0 then []
    else
      assert s == [s[0]] + s[1..];
      if keep(s[0]) then [s[0]] + Filter(s[1..], keep) else Filter(s[1..], keep)
  }

  /** Filtering works piecewise, so the kept items stay in their order. */
  lemma {:induction false} FilterAppend<T(!new)>(a: seq<T>, b: seq<T>, keep: T -> bool)
    ensures Filter(a + b, keep) == Filter(a, keep) + Filter(b, keep)
  {
    if |a| > 0 {
      assert (a + b)[1..] == a[1..] + b;
      FilterAppend(a[1..], b, keep);
    } else {
      assert a + b == b;
    }
  }

  /** A filter that keeps everything changes nothing. */
  lemma {:induction false} FilterKeepAll<T(!new)>(s: seq<T>, keep: T -> bool)
    requires forall i :: 0 <= i < |s| ==> keep(s[i])
    ensures Filter(s, keep) == s
  {
    if |s| > 0 {
      FilterKeepAll(s[1..], keep);
    }
  }

  /** A filter that keeps nothing leaves nothing. */
  lemma {:induction false} FilterKeepNone<T(!new)>(s: seq<T>, keep: T -> bool)
    requires forall i :: 0 <= i < |s| ==> !keep(s[i])
    ensures Filter(s, keep) == []
  {
    if |s| > 0 {
      FilterKeepNone(s[1..], keep);
    }
  }

  /** A bound on the keys of a list bounds the keys of what a filter keeps. */
  lemma {:induction false} FilterBounded<T(!new)>(s: seq<T>, keep: T -> bool, key: T -> int, bound: int)
    requires forall i :: 0 <= i < |s| ==> key(s[i]) <= bound
    ensures forall k :: 0 <= k < |Filter(s, keep)| ==> key(Filter(s, keep)[k]) <= bound
  {
    if |s| > 0 {
      FilterBounded(s[1..], keep, key, bound);
    }
  }

  /** Filtering a list that is newest first leaves it newest first. */
  lemma {:induction false} FilterKeepsSorted<T(!new)>(s: seq<T>, keep: T -> bool, key: T -> int)
    requires Sorting.SortedDesc(s, key)
    ensures Sorting.SortedDesc(Filter(s, keep), key)
  {
    if |s| > 0 {
      var tail := s[1..];
      FilterKeepsSorted(tail, keep, key);
      if keep(s[0]) {
        FilterBounded(tail, keep, key, key(s[0]));
        Sorting.SortedCons(s[0], Filter(tail, keep), key);
      }
    }
  }

  /** The refetch counter after a modal closes with `flag`: bumped exactly
      when the modal reports a change. */
  function AfterClose(refetches: nat, flag: bool): (r: nat)
    ensures r != refetches <==> flag
    ensures r >= refetches
  {
    if flag then refetches + 1 else refetches
  }
}

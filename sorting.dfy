/** The `$sort` stage: an ordering of documents by an integer rank, ties kept in input
    order (`SortByStable`). */
module Sorting {
  predicate Sorted<T>(s: seq<T>, rank: T -> int) {
    forall i, j :: 0 <= i < j < |s| ==> rank(s[i]) <= rank(s[j])
  }

  lemma SortedTail<T>(s: seq<T>, rank: T -> int)
    requires s != [] && Sorted(s, rank)
    ensures Sorted(s[1..], rank)
    ensures forall x :: x in s[1..] ==> rank(s[0]) <= rank(x)
  {
    var rest := s[1..];
    forall i, j | 0 <= i < j < |rest| ensures rank(rest[i]) <= rank(rest[j]) {
      assert rest[i] == s[i + 1] && rest[j] == s[j + 1];
    }
    forall x | x in rest ensures rank(s[0]) <= rank(x) {
      var j :| 0 <= j < |rest| && rest[j] == x;
      assert s[j + 1] == x;
    }
  }

  /** An element in front of a sorted sequence, ranked no higher than any of it. */
  lemma SortedCons<T>(d: T, s: seq<T>, rank: T -> int)
    requires Sorted(s, rank)
    requires forall x :: x in s ==> rank(d) <= rank(x)
    ensures Sorted([d] + s, rank)
  {
    var r := [d] + s;
    forall i, j | 0 <= i < j < |r| ensures rank(r[i]) <= rank(r[j]) {
      assert r[j] == s[j - 1];
      if i > 0 { assert r[i] == s[i - 1]; }
    }
  }

  /** Insertion of `d` before the first element ranked above it. */
  function Insert<T>(d: T, s: seq<T>, rank: T -> int): (r: seq<T>)
    requires Sorted(s, rank)
    ensures Sorted(r, rank)
    ensures multiset(r) == multiset(s) + multiset{d}
  {
    if s == [] || rank(d) <= rank(s[0]) then
      SortedCons(d, s, rank);
      [d] + s
    else
      assert s == [s[0]] + s[1..];
      SortedTail(s, rank);
      var t := Insert(d, s[1..], rank);
      forall x | x in t ensures rank(s[0]) <= rank(x) {
        assert x in multiset(t);
      }
      SortedCons(s[0], t, rank);
      [s[0]] + t
  }

  /** Insertion sort: a sorted permutation of `s`. */
  function SortBy<T>(s: seq<T>, rank: T -> int): (r: seq<T>)
    ensures Sorted(r, rank)
    ensures multiset(r) == multiset(s)
  {
    if s == [] then []
    else
      assert s == [s[0]] + s[1..];
      Insert(s[0], SortBy(s[1..], rank), rank)
  }

  /** The elements of `s` whose rank is `k`, in the order `s` holds them. */
  function RankedAt<T>(s: seq<T>, rank: T -> int, k: int): seq<T> {
    if s == [] then []
    else (if rank(s[0]) == k then [s[0]] else []) + RankedAt(s[1..], rank, k)
  }

  lemma RankedAtCons<T>(x: T, t: seq<T>, rank: T -> int, k: int)
    ensures RankedAt([x] + t, rank, k) == (if rank(x) == k then [x] else []) + RankedAt(t, rank, k)
  {
    assert ([x] + t)[1..] == t;
  }

  /** Insertion puts `d` in front of every element of its own rank. */
  lemma {:induction false} InsertStable<T>(d: T, s: seq<T>, rank: T -> int, k: int)
    requires Sorted(s, rank)
    ensures RankedAt(Insert(d, s, rank), rank, k)
      == (if rank(d) == k then [d] else []) + RankedAt(s, rank, k)
  {
    if s == [] || rank(d) <= rank(s[0]) {
      assert Insert(d, s, rank) == [d] + s;
      RankedAtCons(d, s, rank, k);
    } else {
      SortedTail(s, rank);
      var t := Insert(d, s[1..], rank);
      assert Insert(d, s, rank) == [s[0]] + t;
      InsertStable(d, s[1..], rank, k);
      RankedAtCons(s[0], t, rank, k);
      assert rank(d) == k ==> rank(s[0]) != k;
    }
  }

  /** Sorting is stable: the elements of any one rank come out in input order. */
  lemma {:induction false} SortByStable<T>(s: seq<T>, rank: T -> int, k: int)
    ensures RankedAt(SortBy(s, rank), rank, k) == RankedAt(s, rank, k)
  {
    if s != [] {
      SortByStable(s[1..], rank, k);
      InsertStable(s[0], SortBy(s[1..], rank), rank, k);
    }
  }

  /** Sorting keeps exactly the elements it was given. */
  lemma SortByMembers<T>(s: seq<T>, rank: T -> int)
    ensures forall x :: x in SortBy(s, rank) <==> x in s
  {
    var r := SortBy(s, rank);
    forall x ensures x in r <==> x in s {
      assert x in r <==> x in multiset(r);
    }
  }
}

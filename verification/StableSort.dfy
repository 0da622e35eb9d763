/** A stable sort by descending rank: JavaScript's `sort` with `b - a`, and Python's
    `sorted` with `reverse=True`, which both keep equal elements in their own order. */
module StableSort {

  function Insert<T>(rank: T -> real, e: T, sorted: seq<T>): (r: seq<T>)
    ensures multiset(r) == multiset{e} + multiset(sorted)
  {
    if sorted == [] || rank(e) >= rank(sorted[0]) then [e] + sorted
    else
      assert sorted == [sorted[0]] + sorted[1..];
      [sorted[0]] + Insert(rank, e, sorted[1..])
  }

  function SortDescending<T>(rank: T -> real, s: seq<T>): (r: seq<T>)
    ensures multiset(r) == multiset(s)
  {
    if s == [] then []
    else
      assert s == [s[0]] + s[1..];
      Insert(rank, s[0], SortDescending(rank, s[1..]))
  }

  ghost predicate Descending<T>(rank: T -> real, s: seq<T>) {
    forall i, j :: 0 <= i < j < |s| ==> rank(s[i]) >= rank(s[j])
  }

  lemma {:induction false} InsertKeepsDescending<T>(rank: T -> real, e: T, sorted: seq<T>)
    requires Descending(rank, sorted)
    ensures Descending(rank, Insert(rank, e, sorted))
  {
    if sorted != [] && rank(e) < rank(sorted[0]) {
      InsertKeepsDescending(rank, e, sorted[1..]);
      var rest := Insert(rank, e, sorted[1..]);
      forall j | 0 <= j < |rest|
        ensures rank(sorted[0]) >= rank(rest[j])
      {
        assert rest[j] in multiset(rest);
      }
    }
  }

  lemma {:induction false} SortIsDescending<T>(rank: T -> real, s: seq<T>)
    ensures Descending(rank, SortDescending(rank, s))
  {
    if s != [] {
      SortIsDescending(rank, s[1..]);
      InsertKeepsDescending(rank, s[0], SortDescending(rank, s[1..]));
    }
  }

  function IfOfRank<T>(rank: T -> real, e: T, r: real): seq<T> {
    if rank(e) == r then [e] else []
  }

  /** The elements of one rank, in their order. */
  function OfRank<T>(rank: T -> real, s: seq<T>, r: real): seq<T> {
    if s == [] then []
    else IfOfRank(rank, s[0], r) + OfRank(rank, s[1..], r)
  }

  lemma OfRankFirst<T>(rank: T -> real, e: T, rest: seq<T>, r: real)
    ensures OfRank(rank, [e] + rest, r) == IfOfRank(rank, e, r) + OfRank(rank, rest, r)
  {
    assert ([e] + rest)[1..] == rest;
  }

  lemma BehindFirst<T>(rank: T -> real, e: T, first: T, tail: seq<T>, rest: seq<T>, r: real)
    requires rank(e) < rank(first) && OfRank(rank, rest, r) == IfOfRank(rank, e, r) + OfRank(rank, tail, r)
    ensures OfRank(rank, [first] + rest, r) == IfOfRank(rank, e, r) + OfRank(rank, [first] + tail, r)
  {
    OfRankFirst(rank, first, rest, r);
    OfRankFirst(rank, first, tail, r);
    OneOfTwo(IfOfRank(rank, first, r), IfOfRank(rank, e, r), OfRank(rank, tail, r));
  }

  lemma {:induction false} InsertIsStable<T>(rank: T -> real, e: T, sorted: seq<T>, r: real)
    ensures OfRank(rank, Insert(rank, e, sorted), r) == IfOfRank(rank, e, r) + OfRank(rank, sorted, r)
  {
    if sorted == [] || rank(e) >= rank(sorted[0]) {
      OfRankFirst(rank, e, sorted, r);
    } else {
      InsertIsStable(rank, e, sorted[1..], r);
      BehindFirst(rank, e, sorted[0], sorted[1..], Insert(rank, e, sorted[1..]), r);
      assert sorted == [sorted[0]] + sorted[1..];
    }
  }

  lemma OneOfTwo<T>(a: seq<T>, b: seq<T>, c: seq<T>)
    requires a == [] || b == []
    ensures a + (b + c) == b + (a + c)
  {
  }

  /** Elements of equal rank keep their order. */
  lemma {:induction false} SortIsStable<T>(rank: T -> real, s: seq<T>, r: real)
    ensures OfRank(rank, SortDescending(rank, s), r) == OfRank(rank, s, r)
  {
    if s != [] {
      SortIsStable(rank, s[1..], r);
      InsertIsStable(rank, s[0], SortDescending(rank, s[1..]), r);
    }
  }

  lemma {:induction false} DescendingIsSorted<T>(rank: T -> real, s: seq<T>)
    requires Descending(rank, s)
    ensures SortDescending(rank, s) == s
  {
    if s != [] {
      DescendingIsSorted(rank, s[1..]);
      assert s == [s[0]] + s[1..];
    }
  }
}

/** The library sort: stable, by a numeric rank, highest rank first. */
module StableSort {

  /** Behind every element of at least its rank. */
  function Insert<T>(s: seq<T>, x: T, rank: T -> real): (r: seq<T>)
    ensures |r| == |s| + 1
    ensures multiset(r) == multiset(s) + multiset{x}
  {
    if s == [] then [x]
    else
      var last := |s| - 1;
      assert s == s[..last] + [s[last]];
      if rank(x) > rank(s[last]) then Insert(s[..last], x, rank) + [s[last]] else s + [x]
  }

  function Sorted<T>(s: seq<T>, rank: T -> real): (r: seq<T>)
    ensures |r| == |s|
    ensures multiset(r) == multiset(s)
  {
    if s == [] then []
    else
      var last := |s| - 1;
      assert s == s[..last] + [s[last]];
      Insert(Sorted(s[..last], rank), s[last], rank)
  }

  predicate Descends<T(!new)>(s: seq<T>, rank: T -> real) {
    forall i, j :: 0 <= i < j < |s| ==> rank(s[i]) >= rank(s[j])
  }

  lemma {:induction false} InsertDescends<T(!new)>(s: seq<T>, x: T, rank: T -> real)
    requires Descends(s, rank)
    ensures Descends(Insert(s, x, rank), rank)
  {
    if s != [] {
      var last := |s| - 1;
      if rank(x) > rank(s[last]) {
        InsertDescends(s[..last], x, rank);
        var front := Insert(s[..last], x, rank);
        forall i | 0 <= i < |front| ensures rank(front[i]) >= rank(s[last]) {
          InsertFrom(s[..last], x, rank, front[i]);
        }
      }
    }
  }

  lemma InsertFrom<T(!new)>(s: seq<T>, x: T, rank: T -> real, y: T)
    requires y in Insert(s, x, rank)
    ensures y in s || y == x
  {
    assert y in multiset(Insert(s, x, rank));
    assert y in multiset(s) + multiset{x};
  }

  lemma {:induction false} SortedDescends<T(!new)>(s: seq<T>, rank: T -> real)
    ensures Descends(Sorted(s, rank), rank)
  {
    if s != [] {
      SortedDescends(s[..|s| - 1], rank);
      InsertDescends(Sorted(s[..|s| - 1], rank), s[|s| - 1], rank);
    }
  }

  lemma SameElements<T(!new)>(s: seq<T>, rank: T -> real, x: T)
    ensures x in Sorted(s, rank) <==> x in s
  {
    assert x in multiset(Sorted(s, rank)) <==> x in multiset(s);
  }

  /** The elements of one rank, in order. */
  function OfRank<T>(s: seq<T>, rank: T -> real, v: real): seq<T> {
    if s == [] then []
    else
      var last := |s| - 1;
      OfRank(s[..last], rank, v) + if rank(s[last]) == v then [s[last]] else []
  }

  lemma OfRankSnoc<T>(s: seq<T>, x: T, rank: T -> real, v: real)
    ensures OfRank(s + [x], rank, v) == OfRank(s, rank, v) + if rank(x) == v then [x] else []
  {
    assert (s + [x])[..|s|] == s;
  }

  lemma {:induction false} InsertStable<T>(s: seq<T>, x: T, rank: T -> real, v: real)
    ensures OfRank(Insert(s, x, rank), rank, v) == OfRank(s, rank, v) + if rank(x) == v then [x] else []
  {
    if s == [] {
      OfRankSnoc([], x, rank, v);
      assert [] + [x] == [x];
    } else {
      var last := |s| - 1;
      if rank(x) > rank(s[last]) {
        InsertStable(s[..last], x, rank, v);
        OfRankSnoc(Insert(s[..last], x, rank), s[last], rank, v);
      } else {
        OfRankSnoc(s, x, rank, v);
      }
    }
  }

  /** The sort is stable: elements of equal rank stay in their order. */
  lemma {:induction false} SortedStable<T>(s: seq<T>, rank: T -> real, v: real)
    ensures OfRank(Sorted(s, rank), rank, v) == OfRank(s, rank, v)
  {
    if s != [] {
      SortedStable(s[..|s| - 1], rank, v);
      InsertStable(Sorted(s[..|s| - 1], rank), s[|s| - 1], rank, v);
    }
  }
}

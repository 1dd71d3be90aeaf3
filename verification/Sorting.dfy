/**
 The stable sort behind every `array.sort(comparator)` of the source.  JavaScript
 fixes the result of a sort by two properties: the keys come out ascending, and
 elements with equal keys keep their order.  `StableSortIsUnique` shows that the two
 determine the result, so the insertion sort below stands for the engine's own.
 */
module Sorting {

  ghost predicate SortedBy<T>(s: seq<T>, rank: T -> real) {
    forall i, j | 0 <= i < j < |s| :: rank(s[i]) <= rank(s[j])
  }

  function InsertByRank<T>(x: T, s: seq<T>, rank: T -> real): seq<T> {
    if s == [] || rank(x) <= rank(s[0]) then [x] + s
    else [s[0]] + InsertByRank(x, s[1..], rank)
  }

  function Sort<T>(s: seq<T>, rank: T -> real): seq<T> {
    if s == [] then [] else InsertByRank(s[0], Sort(s[1..], rank), rank)
  }

  /** Two sequences hold the same elements of each rank, in the same order. */
  ghost predicate SameByRank<T>(a: seq<T>, b: seq<T>, rank: T -> real) {
    forall v: real :: OfRank(a, rank, v) == OfRank(b, rank, v)
  }

  function OfRank<T>(s: seq<T>, rank: T -> real, v: real): seq<T> {
    if s == [] then []
    else if rank(s[0]) == v then [s[0]] + OfRank(s[1..], rank, v)
    else OfRank(s[1..], rank, v)
  }

  lemma {:induction false} InsertPermutes<T>(x: T, s: seq<T>, rank: T -> real)
    ensures multiset(InsertByRank(x, s, rank)) == multiset{x} + multiset(s)
  {
    if s != [] && rank(s[0]) < rank(x) {
      InsertPermutes(x, s[1..], rank);
      assert s == [s[0]] + s[1..];
    }
  }

  lemma {:induction false} InsertKeepsOrder<T>(x: T, s: seq<T>, rank: T -> real)
    requires SortedBy(s, rank)
    ensures SortedBy(InsertByRank(x, s, rank), rank)
  {
    if s != [] && rank(s[0]) < rank(x) {
      InsertKeepsOrder(x, s[1..], rank);
      InsertPermutes(x, s[1..], rank);
      var r := InsertByRank(x, s[1..], rank);
      forall j | 0 <= j < |r| ensures rank(s[0]) <= rank(r[j]) {
        assert r[j] in multiset(r);
        if r[j] != x { assert r[j] in s[1..]; }
      }
    }
  }

  lemma {:induction false} InsertIsStable<T>(x: T, s: seq<T>, rank: T -> real, v: real)
    requires SortedBy(s, rank)
    ensures OfRank(InsertByRank(x, s, rank), rank, v) == OfRank([x] + s, rank, v)
  {
    assert ([x] + s)[1..] == s;
    if s == [] || rank(x) <= rank(s[0]) {
    } else {
      InsertIsStable(x, s[1..], rank, v);
      var tail := InsertByRank(x, s[1..], rank);
      assert ([s[0]] + tail)[1..] == tail;
      assert ([x] + s[1..])[1..] == s[1..];
    }
  }

  /** The result is ordered, a permutation, and stable. */
  lemma {:induction false} SortIsStable<T>(s: seq<T>, rank: T -> real)
    ensures SortedBy(Sort(s, rank), rank)
    ensures multiset(Sort(s, rank)) == multiset(s)
    ensures SameByRank(Sort(s, rank), s, rank)
    ensures |Sort(s, rank)| == |s|
  {
    if s != [] {
      var t := Sort(s[1..], rank);
      SortIsStable(s[1..], rank);
      InsertKeepsOrder(s[0], t, rank);
      InsertPermutes(s[0], t, rank);
      assert s == [s[0]] + s[1..];
      forall v: real ensures OfRank(Sort(s, rank), rank, v) == OfRank(s, rank, v) {
        InsertIsStable(s[0], t, rank, v);
        assert ([s[0]] + t)[1..] == t;
      }
      assert |multiset(Sort(s, rank))| == |multiset(s)|;
    }
  }

  lemma {:induction false} OfRankMember<T>(s: seq<T>, rank: T -> real, x: T)
    requires x in s
    ensures OfRank(s, rank, rank(x)) != []
  {
    if s[0] != x { OfRankMember(s[1..], rank, x); }
  }

  lemma {:induction false} OfRankSound<T>(s: seq<T>, rank: T -> real, v: real)
    requires OfRank(s, rank, v) != []
    ensures exists x :: x in s && rank(x) == v
  {
    if rank(s[0]) != v {
      OfRankSound(s[1..], rank, v);
      var x :| x in s[1..] && rank(x) == v;
      assert x in s;
    }
  }

  lemma HeadsAgree<T>(a: seq<T>, b: seq<T>, rank: T -> real)
    requires SortedBy(a, rank) && SortedBy(b, rank) && SameByRank(a, b, rank)
    requires a != []
    ensures b != [] && rank(b[0]) <= rank(a[0])
  {
    OfRankMember(a, rank, a[0]);
    OfRankSound(b, rank, rank(a[0]));
  }

  /** Order and stability leave a sort no freedom. */
  lemma {:induction false} StableSortIsUnique<T>(a: seq<T>, b: seq<T>, rank: T -> real)
    requires SortedBy(a, rank) && SortedBy(b, rank) && SameByRank(a, b, rank)
    ensures a == b
  {
    if a == [] {
      if b != [] { HeadsAgree(b, a, rank); }
    } else {
      HeadsAgree(a, b, rank);
      HeadsAgree(b, a, rank);
      var v := rank(a[0]);
      assert OfRank(a, rank, v)[0] == a[0] && OfRank(b, rank, v)[0] == b[0];
      forall w: real ensures OfRank(a[1..], rank, w) == OfRank(b[1..], rank, w) {
        assert OfRank(a, rank, w) == OfRank(b, rank, w);
        if w == v {
          assert OfRank(a, rank, w)[1..] == OfRank(a[1..], rank, w);
          assert OfRank(b, rank, w)[1..] == OfRank(b[1..], rank, w);
        }
      }
      StableSortIsUnique(a[1..], b[1..], rank);
      assert a == [a[0]] + a[1..] && b == [b[0]] + b[1..];
    }
  }

  lemma SortOfSorted<T>(s: seq<T>, rank: T -> real)
    requires SortedBy(s, rank)
    ensures Sort(s, rank) == s
  {
    SortIsStable(s, rank);
    StableSortIsUnique(Sort(s, rank), s, rank);
  }

  /** A sort by one key of a sequence ordered by another leaves ties ordered by the other. */
  lemma {:induction false} SortKeepsTieOrder<T>(s: seq<T>, rank: T -> real, other: T -> real)
    requires SortedBy(s, other)
    ensures forall i, j | 0 <= i < j < |Sort(s, rank)| ::
              rank(Sort(s, rank)[i]) == rank(Sort(s, rank)[j]) ==> other(Sort(s, rank)[i]) <= other(Sort(s, rank)[j])
  {
    if s != [] {
      var x, t := s[0], Sort(s[1..], rank);
      SortKeepsTieOrder(s[1..], rank, other);
      SortIsStable(s[1..], rank);
      forall y | y in t ensures other(x) <= other(y) {
        assert y in multiset(t);
        assert y in s[1..];
      }
      InsertKeepsTieOrder(x, t, rank, other);
    }
  }

  lemma {:induction false} InsertKeepsTieOrder<T>(x: T, t: seq<T>, rank: T -> real, other: T -> real)
    requires SortedBy(t, rank) && forall y | y in t :: other(x) <= other(y)
    requires forall i, j | 0 <= i < j < |t| :: rank(t[i]) == rank(t[j]) ==> other(t[i]) <= other(t[j])
    ensures forall i, j | 0 <= i < j < |InsertByRank(x, t, rank)| ::
              rank(InsertByRank(x, t, rank)[i]) == rank(InsertByRank(x, t, rank)[j])
              ==> other(InsertByRank(x, t, rank)[i]) <= other(InsertByRank(x, t, rank)[j])
  {
    if t != [] && rank(t[0]) < rank(x) {
      var u := t[1..];
      assert forall k | 0 <= k < |u| :: u[k] == t[k + 1];
      InsertKeepsTieOrder(x, u, rank, other);
      InsertPermutes(x, u, rank);
      var r := InsertByRank(x, u, rank);
      forall y | y in r && rank(t[0]) == rank(y) ensures other(t[0]) <= other(y) {
        assert y in multiset(r);
        var k :| 0 <= k < |u| && u[k] == y;
        assert y == t[k + 1];
      }
      assert forall i | 0 < i < |[t[0]] + r| :: ([t[0]] + r)[i] == r[i - 1] && r[i - 1] in r;
    }
  }
}

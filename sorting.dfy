/**
 * `Array.prototype.sort` with a comparator, as a stable insertion sort (the standard
 * requires the sort to be stable). `cmp(a, b) > 0` puts `b` before `a`; JavaScript's
 * comparators here return numbers, modelled as `real`.
 */
module Sorting {
  import Seqs

  /** Insert `x` after every leading element that does not compare greater than it. */
  function Insert<T>(x: T, s: seq<T>, cmp: (T, T) -> real): (r: seq<T>)
    ensures |r| == |s| + 1
  {
    if |s| == 0 then [x]
    else if cmp(s[0], x) > 0.0 then [x] + s
    else [s[0]] + Insert(x, s[1..], cmp)
  }

  /** `s.slice().sort(cmp)`: each element, from the left, is inserted into the sorted prefix. */
  function SortBy<T>(s: seq<T>, cmp: (T, T) -> real): (r: seq<T>)
    ensures |r| == |s|
  {
    if |s| == 0 then []
    else Insert(s[|s| - 1], SortBy(s[..|s| - 1], cmp), cmp)
  }

  /** `cmp` is the comparator `(a, b) => key(a) - key(b)`. */
  ghost predicate IsKeyOrder<T(!new)>(cmp: (T, T) -> real, key: T -> real) {
    forall a, b :: cmp(a, b) == key(a) - key(b)
  }

  /** The keys never decrease along `s`. */
  predicate SortedByKey<T>(s: seq<T>, key: T -> real) {
    forall i, j :: 0 <= i < j < |s| ==> key(s[i]) <= key(s[j])
  }

  lemma {:induction false} InsertPermutes<T>(x: T, s: seq<T>, cmp: (T, T) -> real)
    ensures multiset(Insert(x, s, cmp)) == multiset(s) + multiset{x}
  {
    if |s| > 0 && cmp(s[0], x) <= 0.0 {
      InsertPermutes(x, s[1..], cmp);
      assert s == [s[0]] + s[1..];
    }
  }

  /** Sorting only reorders: the result has the same elements, with the same multiplicities. */
  lemma {:induction false} SortByPermutes<T>(s: seq<T>, cmp: (T, T) -> real)
    ensures multiset(SortBy(s, cmp)) == multiset(s)
  {
    if |s| > 0 {
      var p := s[..|s| - 1];
      SortByPermutes(p, cmp);
      InsertPermutes(s[|s| - 1], SortBy(p, cmp), cmp);
      assert s == p + [s[|s| - 1]];
    }
  }

  /** The sorted copy holds exactly the elements of the input. */
  lemma SortByMembers<T>(s: seq<T>, cmp: (T, T) -> real, x: T)
    ensures x in SortBy(s, cmp) <==> x in s
  {
    SortByPermutes(s, cmp);
    assert x in SortBy(s, cmp) <==> x in multiset(SortBy(s, cmp));
    assert x in s <==> x in multiset(s);
  }

  lemma {:induction false} InsertSorted<T(!new)>(x: T, s: seq<T>, cmp: (T, T) -> real, key: T -> real)
    requires IsKeyOrder(cmp, key) && SortedByKey(s, key)
    ensures SortedByKey(Insert(x, s, cmp), key)
  {
    if |s| > 0 && cmp(s[0], x) <= 0.0 {
      var tail := s[1..];
      SortedTail(s, key);
      InsertSorted(x, tail, cmp, key);
      var rest := Insert(x, tail, cmp);
      InsertPermutes(x, tail, cmp);
      var r := [s[0]] + rest;
      forall i, j | 0 <= i < j < |r| ensures key(r[i]) <= key(r[j]) {
        if i == 0 {
          assert r[j] in multiset(tail) + multiset{x} by {
            assert rest[j - 1] in multiset(rest);
          }
          if r[j] == x {
          } else {
            assert r[j] in tail;
            var k :| 0 <= k < |tail| && tail[k] == r[j];
            assert s[k + 1] == r[j];
          }
        } else {
          assert r[i] == rest[i - 1] && r[j] == rest[j - 1];
        }
      }
    }
  }

  /** With a key comparator the result is in ascending order of the key. */
  lemma {:induction false} SortBySorted<T(!new)>(s: seq<T>, cmp: (T, T) -> real, key: T -> real)
    requires IsKeyOrder(cmp, key)
    ensures SortedByKey(SortBy(s, cmp), key)
  {
    if |s| > 0 {
      SortBySorted(s[..|s| - 1], cmp, key);
      InsertSorted(s[|s| - 1], SortBy(s[..|s| - 1], cmp), cmp, key);
    }
  }

  /** `x => key(x) === v`: the elements that tie at key `v`. */
  function KeyIs<T>(key: T -> real, v: real): T -> bool {
    (x: T) => key(x) == v
  }

  /** The tail of a sorted sequence is sorted. */
  lemma SortedTail<T>(t: seq<T>, key: T -> real)
    requires |t| > 0 && SortedByKey(t, key)
    ensures SortedByKey(t[1..], key)
  {
    var tail := t[1..];
    forall i, j | 0 <= i < j < |tail| ensures key(tail[i]) <= key(tail[j]) {
      assert tail[i] == t[i + 1] && tail[j] == t[j + 1];
    }
  }

  /** Nothing in a sorted `t` ties with an `x` whose key is below the first one. */
  lemma TiesAfter<T>(t: seq<T>, key: T -> real, v: real, same: T -> bool)
    requires |t| > 0 && SortedByKey(t, key) && key(t[0]) > v
    requires forall y :: same(y) == (key(y) == v)
    ensures Seqs.Filter(t, same) == []
  {
    forall i | 0 <= i < |t| ensures !same(t[i]) {
      assert i == 0 || key(t[0]) <= key(t[i]);
    }
    Seqs.FilterNone(t, same);
  }

  /** Inserting in front of a sequence with no ties of `x` keeps the ties in order. */
  lemma InsertFrontStable<T>(x: T, t: seq<T>, cmp: (T, T) -> real, same: T -> bool)
    requires |t| == 0 || cmp(t[0], x) > 0.0
    requires same(x) ==> Seqs.Filter(t, same) == []
    ensures Seqs.Filter(Insert(x, t, cmp), same) == Seqs.Filter(t, same) + (if same(x) then [x] else [])
  {
    assert Insert(x, t, cmp) == [x] + t;
    Seqs.FilterCons(x, t, same);
  }

  /** Passing over the head of `t` keeps the ties in order when inserting into the tail does. */
  lemma InsertPastStable<T>(x: T, t: seq<T>, cmp: (T, T) -> real, same: T -> bool, last: seq<T>)
    requires |t| > 0 && !(cmp(t[0], x) > 0.0)
    requires Seqs.Filter(Insert(x, t[1..], cmp), same) == Seqs.Filter(t[1..], same) + last
    ensures Seqs.Filter(Insert(x, t, cmp), same) == Seqs.Filter(t, same) + last
  {
    var w := Insert(x, t, cmp);
    assert w[0] == t[0] && w[1..] == Insert(x, t[1..], cmp);
    Seqs.AppendRegroup(Seqs.Filter(w, same), Seqs.Filter(w[1..], same), if same(t[0]) then [t[0]] else [], Seqs.Filter(t[1..], same), last);
  }

  /** Inserting `x` into a sorted sequence puts it after every element that ties with it. */
  lemma {:induction false} InsertStable<T(!new)>(x: T, t: seq<T>, cmp: (T, T) -> real, key: T -> real, v: real, same: T -> bool)
    requires IsKeyOrder(cmp, key) && SortedByKey(t, key)
    requires forall y :: same(y) == (key(y) == v)
    ensures Seqs.Filter(Insert(x, t, cmp), same) == Seqs.Filter(t, same) + (if same(x) then [x] else [])
  {
    if |t| == 0 || cmp(t[0], x) > 0.0 {
      if |t| > 0 && same(x) {
        assert cmp(t[0], x) == key(t[0]) - key(x);
        TiesAfter(t, key, v, same);
      }
      InsertFrontStable(x, t, cmp, same);
    } else {
      SortedTail(t, key);
      InsertStable(x, t[1..], cmp, key, v, same);
      InsertPastStable(x, t, cmp, same, if same(x) then [x] else []);
    }
  }

  /**
   * The sort is stable: the elements that tie at any key come out in their input
   * order, with their multiplicities.
   */
  lemma {:induction false} SortByStable<T(!new)>(s: seq<T>, cmp: (T, T) -> real, key: T -> real, v: real, same: T -> bool)
    requires IsKeyOrder(cmp, key)
    requires forall y :: same(y) == (key(y) == v)
    ensures Seqs.Filter(SortBy(s, cmp), same) == Seqs.Filter(s, same)
  {
    if |s| > 0 {
      var p := s[..|s| - 1];
      var x := s[|s| - 1];
      var sp := SortBy(p, cmp);
      assert SortBy(s, cmp) == Insert(x, sp, cmp);
      var last := if same(x) then [x] else [];
      SortByStable(p, cmp, key, v, same);
      SortBySorted(p, cmp, key);
      InsertStable(x, sp, cmp, key, v, same);
      assert Seqs.Filter(SortBy(s, cmp), same) == Seqs.Filter(p, same) + last;
      assert s == p + [x];
      Seqs.FilterAppend(p, [x], same);
      assert Seqs.Filter([x], same) == last + Seqs.Filter([x][1..], same);
    }
  }

  /** `s.slice().sort((a, b) => key(a) - key(b))`: ascending by `key`. */
  function SortAscending<T>(s: seq<T>, key: T -> real): seq<T> {
    SortBy(s, (a, b) => key(a) - key(b))
  }

  /** `s.slice().sort((a, b) => key(b) - key(a))`: descending by `key`. */
  function SortDescending<T>(s: seq<T>, key: T -> real): seq<T> {
    SortBy(s, (a, b) => key(b) - key(a))
  }

  /** The ascending sort is a permutation of its input in ascending key order. */
  lemma SortAscendingSpec<T(!new)>(s: seq<T>, key: T -> real)
    ensures var r := SortAscending(s, key);
      multiset(r) == multiset(s) && forall i, j :: 0 <= i < j < |r| ==> key(r[i]) <= key(r[j])
  {
    SortByPermutes(s, (a, b) => key(a) - key(b));
    SortBySorted(s, (a, b) => key(a) - key(b), key);
  }

  /** The descending sort is a permutation of its input in descending key order. */
  lemma SortDescendingSpec<T(!new)>(s: seq<T>, key: T -> real)
    ensures var r := SortDescending(s, key);
      multiset(r) == multiset(s) && forall i, j :: 0 <= i < j < |r| ==> key(r[i]) >= key(r[j])
  {
    var neg := (x: T) => -key(x);
    SortByPermutes(s, (a, b) => key(b) - key(a));
    assert IsKeyOrder((a, b) => key(b) - key(a), neg);
    SortBySorted(s, (a, b) => key(b) - key(a), neg);
  }

  /** The ascending sort keeps the input order among the elements with equal keys. */
  lemma SortAscendingStable<T(!new)>(s: seq<T>, key: T -> real, v: real)
    ensures Seqs.Filter(SortAscending(s, key), KeyIs(key, v)) == Seqs.Filter(s, KeyIs(key, v))
  {
    SortByStable(s, (a, b) => key(a) - key(b), key, v, KeyIs(key, v));
  }

  /** The descending sort keeps the input order among the elements with equal keys. */
  lemma SortDescendingStable<T(!new)>(s: seq<T>, key: T -> real, v: real)
    ensures Seqs.Filter(SortDescending(s, key), KeyIs(key, v)) == Seqs.Filter(s, KeyIs(key, v))
  {
    var neg := (x: T) => -key(x);
    assert IsKeyOrder((a, b) => key(b) - key(a), neg);
    SortByStable(s, (a, b) => key(b) - key(a), neg, -v, KeyIs(key, v));
  }
}

/** Generic sequence helpers shared by the collection updates of the app: filter, count, prefix. */
module Seqs {
  import opened Wrappers

  /** `s.filter(keep)`: the elements that satisfy `keep`, in their original order. */
  function Filter<T>(s: seq<T>, keep: T -> bool): (r: seq<T>)
    ensures |r| <= |s|
    ensures forall i :: 0 <= i < |r| ==> r[i] in s && keep(r[i])
    ensures forall i :: 0 <= i < |s| && keep(s[i]) ==> s[i] in r
  {
    if |s| == 0 then []
    else (if keep(s[0]) then [s[0]] else []) + Filter(s[1..], keep)
  }

  /** Number of elements of `s` that satisfy `p`. */
  function CountWhere<T>(s: seq<T>, p: T -> bool): (n: nat)
    ensures n <= |s|
  {
    if |s| == 0 then 0
    else (if p(s[0]) then 1 else 0) + CountWhere(s[1..], p)
  }

  /** Counting over a concatenation adds the counts of the parts. */
  lemma {:induction false} CountWhereAppend<T>(a: seq<T>, b: seq<T>, p: T -> bool)
    ensures CountWhere(a + b, p) == CountWhere(a, p) + CountWhere(b, p)
  {
    if |a| > 0 {
      assert (a + b)[1..] == a[1..] + b;
      CountWhereAppend(a[1..], b, p);
    } else {
      assert a + b == b;
    }
  }

  /** `r` can be obtained from `s` by deleting elements (order is kept). */
  predicate IsSubseq<T(==)>(r: seq<T>, s: seq<T>)
    decreases |s|
  {
    |r| == 0 || (|s| > 0 && if r[0] == s[0] then IsSubseq(r[1..], s[1..]) else IsSubseq(r, s[1..]))
  }

  lemma {:induction false} FilterCount<T>(s: seq<T>, keep: T -> bool)
    ensures |Filter(s, keep)| == CountWhere(s, keep)
  {
    if |s| > 0 {
      FilterCount(s[1..], keep);
    }
  }

  /** Filtering by the negation of `drop` leaves all but the elements `drop` counts. */
  lemma {:induction false} FilterDropsCount<T>(s: seq<T>, keep: T -> bool, drop: T -> bool)
    requires forall x :: keep(x) == !drop(x)
    ensures |Filter(s, keep)| == |s| - CountWhere(s, drop)
  {
    if |s| > 0 {
      FilterDropsCount(s[1..], keep, drop);
    }
  }

  /** Nothing is kept when no element satisfies `keep`. */
  lemma {:induction false} FilterNone<T>(s: seq<T>, keep: T -> bool)
    requires forall i :: 0 <= i < |s| ==> !keep(s[i])
    ensures Filter(s, keep) == []
  {
    if |s| > 0 {
      FilterNone(s[1..], keep);
    }
  }

  /** A common prefix and a common suffix carry an equation across a regrouping. */
  lemma AppendRegroup<T>(whole: seq<T>, part: seq<T>, head: seq<T>, mid: seq<T>, last: seq<T>)
    requires whole == head + part && part == mid + last
    ensures whole == (head + mid) + last
  {
  }

  /** Filtering `[x] + t`: `x` when it is kept, then what `t` keeps. */
  lemma FilterCons<T>(x: T, t: seq<T>, keep: T -> bool)
    ensures Filter([x] + t, keep) == (if keep(x) then [x] else []) + Filter(t, keep)
  {
    assert ([x] + t)[1..] == t;
  }

  /** Filtering a concatenation filters each part. */
  lemma {:induction false} FilterAppend<T>(a: seq<T>, b: seq<T>, keep: T -> bool)
    ensures Filter(a + b, keep) == Filter(a, keep) + Filter(b, keep)
  {
    if |a| > 0 {
      assert (a + b)[1..] == a[1..] + b;
      FilterAppend(a[1..], b, keep);
    } else {
      assert a + b == b;
    }
  }

  lemma {:induction false} SubseqOfTail<T>(r: seq<T>, s: seq<T>)
    requires |s| > 0 && IsSubseq(r, s[1..])
    ensures IsSubseq(r, s)
    decreases |s|, 0
  {
    if |r| > 0 && r[0] == s[0] {
      SubseqDropHead(r, s[1..]);
    }
  }

  lemma {:induction false} SubseqDropHead<T>(r: seq<T>, t: seq<T>)
    requires |r| > 0 && IsSubseq(r, t)
    ensures IsSubseq(r[1..], t)
    decreases |t|, 1
  {
    if r[0] == t[0] {
      SubseqOfTail(r[1..], t);
    } else {
      SubseqDropHead(r, t[1..]);
      SubseqOfTail(r[1..], t);
    }
  }

  lemma {:induction false} FilterIsSubseq<T>(s: seq<T>, keep: T -> bool)
    ensures IsSubseq(Filter(s, keep), s)
  {
    if |s| > 0 {
      FilterIsSubseq(s[1..], keep);
      var r := Filter(s, keep);
      if keep(s[0]) {
        assert r[0] == s[0] && r[1..] == Filter(s[1..], keep);
      } else {
        assert r == Filter(s[1..], keep);
        SubseqOfTail(r, s);
      }
    }
  }

  /** A filter that keeps every element gives back the whole sequence. */
  lemma {:induction false} FilterKeepsAll<T>(s: seq<T>, keep: T -> bool)
    requires forall i :: 0 <= i < |s| ==> keep(s[i])
    ensures Filter(s, keep) == s
  {
    if |s| > 0 {
      FilterKeepsAll(s[1..], keep);
    }
  }

  /** An element survives the filter exactly when it is in `s` and satisfies `keep`. */
  lemma FilterMembers<T>(s: seq<T>, keep: T -> bool, x: T)
    ensures x in Filter(s, keep) <==> x in s && keep(x)
  {
    if x in Filter(s, keep) {
      var r := Filter(s, keep);
      var i :| 0 <= i < |r| && r[i] == x;
    }
  }

  /** No value occurs twice in `s`. */
  predicate NoDuplicates<T(==)>(s: seq<T>) {
    forall i, j :: 0 <= i < j < |s| ==> s[i] != s[j]
  }

  /** Past its head, a duplicate-free list is still free of duplicates and does not hold its head. */
  lemma TailNoDuplicates<T>(s: seq<T>)
    requires |s| > 0 && NoDuplicates(s)
    ensures NoDuplicates(s[1..]) && s[0] !in s[1..]
  {
    var tail := s[1..];
    forall i, j | 0 <= i < j < |tail| ensures tail[i] != tail[j] {
      assert tail[i] == s[i + 1] && tail[j] == s[j + 1];
    }
    forall k | 0 <= k < |tail| ensures tail[k] != s[0] {
      assert tail[k] == s[k + 1];
    }
  }

  /** Putting an absent value in front of a duplicate-free list keeps it free of duplicates. */
  lemma ConsNoDuplicates<T>(x: T, t: seq<T>)
    requires x !in t && NoDuplicates(t)
    ensures NoDuplicates([x] + t)
  {
    var r := [x] + t;
    forall i, j | 0 <= i < j < |r| ensures r[i] != r[j] {
      if i == 0 {
        assert r[j] == t[j - 1];
      } else {
        assert r[i] == t[i - 1] && r[j] == t[j - 1];
      }
    }
  }

  /** Filtering a duplicate-free sequence leaves it duplicate-free. */
  lemma {:induction false} FilterNoDuplicates<T>(s: seq<T>, keep: T -> bool)
    requires NoDuplicates(s)
    ensures NoDuplicates(Filter(s, keep))
  {
    if |s| > 0 {
      var tail := s[1..];
      TailNoDuplicates(s);
      FilterNoDuplicates(tail, keep);
      var t := Filter(tail, keep);
      if keep(s[0]) {
        FilterMembers(tail, keep, s[0]);
        assert Filter(s, keep) == [s[0]] + t;
        ConsNoDuplicates(s[0], t);
      } else {
        assert Filter(s, keep) == t;
      }
    }
  }

  /** `s.map(f)`. */
  function Map<T, U>(s: seq<T>, f: T -> U): (r: seq<U>)
    ensures |r| == |s| && forall i :: 0 <= i < |s| ==> r[i] == f(s[i])
  {
    seq(|s|, i requires 0 <= i < |s| => f(s[i]))
  }

  /**
   * `s.filter(p).map(f)`: one output per element satisfying `p`, namely its image, and
   * nothing else.
   */
  lemma {:induction false} MapFilterSpec<T, U>(s: seq<T>, p: T -> bool, f: T -> U)
    ensures var r := Map(Filter(s, p), f);
      && |r| == CountWhere(s, p)
      && (forall i :: 0 <= i < |s| && p(s[i]) ==> f(s[i]) in r)
      && (forall i :: 0 <= i < |r| ==> exists j :: 0 <= j < |s| && p(s[j]) && r[i] == f(s[j]))
  {
    var kept := Filter(s, p);
    var r := Map(kept, f);
    FilterCount(s, p);
    forall i | 0 <= i < |s| && p(s[i]) ensures f(s[i]) in r {
      var k :| 0 <= k < |kept| && kept[k] == s[i];
      assert r[k] == f(s[i]);
    }
    forall i | 0 <= i < |r| ensures exists j :: 0 <= j < |s| && p(s[j]) && r[i] == f(s[j]) {
      var j :| 0 <= j < |s| && s[j] == kept[i];
      assert r[i] == f(s[j]);
    }
  }

  /** `s.filter(p).map(f)` keeps the order: it is the image of a subsequence of `s`. */
  lemma {:induction false} MapFilterOrder<T, U>(s: seq<T>, p: T -> bool, f: T -> U)
    ensures var r := Map(Filter(s, p), f);
      exists kept: seq<T> :: IsSubseq(kept, s) && |kept| == |r| &&
        forall i :: 0 <= i < |r| ==> p(kept[i]) && r[i] == f(kept[i])
  {
    var kept := Filter(s, p);
    FilterIsSubseq(s, p);
    var r := Map(kept, f);
    assert forall i :: 0 <= i < |r| ==> p(kept[i]) && r[i] == f(kept[i]);
  }

  /** `s.slice(0, n)`: the first `n` elements, or all of them when there are fewer. */
  function Take<T>(s: seq<T>, n: nat): (r: seq<T>)
    ensures |r| == if |s| < n then |s| else n
    ensures r <= s
  {
    if |s| <= n then s else s[..n]
  }

  /** `s.findIndex(matches)`, `None` standing for -1: the first position whose element matches. */
  function FindIndex<T>(s: seq<T>, matches: T -> bool): (r: Option<nat>)
    ensures r.Some? ==> r.value < |s| && matches(s[r.value]) && forall k :: 0 <= k < r.value ==> !matches(s[k])
    ensures r.None? ==> forall k :: 0 <= k < |s| ==> !matches(s[k])
  {
    if |s| == 0 then None
    else if matches(s[0]) then Some(0)
    else match FindIndex(s[1..], matches)
      case None => None
      case Some(k) => Some(k + 1)
  }

  /** Position of the first occurrence of `x` in `s`. */
  function FirstIndex<T(==)>(s: seq<T>, x: T): (k: nat)
    requires x in s
    ensures k < |s| && s[k] == x && x !in s[..k]
  {
    if s[0] == x then 0
    else
      var k := FirstIndex(s[1..], x);
      assert s[1..][..k] == s[1..k + 1];
      k + 1
  }

  /**
   * The first occurrence of each element, in the order of those first occurrences: an
   * element is kept exactly when it does not occur earlier in `s`.
   */
  function Dedup<T(==)>(s: seq<T>): seq<T> {
    if |s| == 0 then []
    else
      var p := s[..|s| - 1];
      Dedup(p) + (if s[|s| - 1] in p then [] else [s[|s| - 1]])
  }

  /** Adding one element at the end adds it to the de-duplication when it is new. */
  lemma DedupSnoc<T>(s: seq<T>, x: T)
    ensures Dedup(s + [x]) == Dedup(s) + (if x in s then [] else [x])
  {
    assert (s + [x])[..|s|] == s;
  }

  /** De-duplication keeps exactly the elements of the input. */
  lemma {:induction false} DedupMembers<T>(s: seq<T>, x: T)
    ensures x in Dedup(s) <==> x in s
  {
    if |s| > 0 {
      var p := s[..|s| - 1];
      DedupMembers(p, x);
      assert s == p + [s[|s| - 1]];
    }
  }

  /** De-duplication leaves no element twice. */
  lemma {:induction false} DedupNoDuplicates<T>(s: seq<T>)
    ensures NoDuplicates(Dedup(s))
  {
    if |s| > 0 {
      var p := s[..|s| - 1];
      var x := s[|s| - 1];
      DedupNoDuplicates(p);
      DedupMembers(p, x);
      var r := Dedup(s);
      var q := Dedup(p);
      forall i, j | 0 <= i < j < |r| ensures r[i] != r[j] {
        if j == |q| {
          assert r[j] == x && r[i] == q[i];
          assert q[i] in q;
        } else {
          assert r[i] == q[i] && r[j] == q[j];
        }
      }
    }
  }

  /** Every element of `r` occurs in `s`, and earlier elements of `r` occur first earlier in `s`. */
  predicate InFirstOccurrenceOrder<T(==)>(r: seq<T>, s: seq<T>) {
    forall i, j :: 0 <= i < j < |r| ==> FirstBefore(r, s, i, j)
  }

  /** `r[i]` and `r[j]` both occur in `s`, and `r[i]` occurs first. */
  predicate FirstBefore<T(==)>(r: seq<T>, s: seq<T>, i: nat, j: nat) {
    i < |r| && j < |r| && r[i] in s && r[j] in s && FirstIndex(s, r[i]) < FirstIndex(s, r[j])
  }

  lemma {:induction false} DedupFirstOccurrenceOrder<T>(s: seq<T>)
    ensures InFirstOccurrenceOrder(Dedup(s), s)
  {
    if |s| > 0 {
      var p := s[..|s| - 1];
      var x := s[|s| - 1];
      assert s == p + [x];
      DedupFirstOccurrenceOrder(p);
      DedupOrderStep(p, x);
    }
  }

  lemma {:induction false} DedupOrderStep<T>(p: seq<T>, x: T)
    requires InFirstOccurrenceOrder(Dedup(p), p)
    ensures InFirstOccurrenceOrder(Dedup(p + [x]), p + [x])
  {
    var s := p + [x];
    var r := Dedup(s);
    forall i, j | 0 <= i < j < |r| ensures FirstBefore(r, s, i, j) {
      DedupOrderPair(p, x, i, j);
    }
  }

  lemma {:induction false} DedupOrderPair<T>(p: seq<T>, x: T, i: nat, j: nat)
    requires InFirstOccurrenceOrder(Dedup(p), p)
    requires i < j < |Dedup(p + [x])|
    ensures FirstBefore(Dedup(p + [x]), p + [x], i, j)
  {
    var s := p + [x];
    assert s[..|s| - 1] == p;
    var q := Dedup(p);
    var r := Dedup(s);
    assert r == q + (if x in p then [] else [x]);
    assert r[i] == q[i];
    assert FirstBefore(q, p, i, j) || j == |q|;
    DedupMembers(p, r[i]);
    FirstIndexExtend(p, x, r[i]);
    if j == |q| {
      assert r[j] == x && x !in p;
      FirstIndexNew(p, x);
    } else {
      assert r[j] == q[j];
      DedupMembers(p, r[j]);
      FirstIndexExtend(p, x, r[j]);
    }
  }

  lemma FirstIndexExtend<T>(p: seq<T>, x: T, y: T)
    requires y in p
    ensures y in p + [x] && FirstIndex(p + [x], y) == FirstIndex(p, y)
  {
    var k := FirstIndex(p, y);
    assert (p + [x])[..k] == p[..k];
    FirstIndexUnique(p + [x], y, k);
  }

  /** The first occurrence is the only position holding `x` with no `x` before it. */
  lemma FirstIndexUnique<T>(s: seq<T>, x: T, k: nat)
    requires k < |s| && s[k] == x && x !in s[..k]
    ensures FirstIndex(s, x) == k
  {
    var m := FirstIndex(s, x);
    var pre := s[..k];
    var pre' := s[..m];
    assert forall i :: 0 <= i < k ==> pre[i] == s[i];
    assert forall i :: 0 <= i < m ==> pre'[i] == s[i];
  }

  lemma FirstIndexNew<T>(p: seq<T>, x: T)
    requires x !in p
    ensures FirstIndex(p + [x], x) == |p|
  {
    assert (p + [x])[..|p|] == p;
    FirstIndexUnique(p + [x], x, |p|);
  }
}

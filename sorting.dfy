/** Python's `sorted`/`list.sort` is stable. A stable sort by a key is the same as a
    sort of the positions 0..n-1 under the strict total order "key first, then
    position"; this module sorts positions that way, by insertion. */
module Sorting {

  /** `less` is a strict total order on the positions below `n`. */
  ghost predicate StrictTotalOrder(n: nat, less: (nat, nat) -> bool)
  {
    && (forall i: nat :: i < n ==> !less(i, i))
    && (forall i: nat, j: nat :: i < n && j < n && i != j ==> less(i, j) || less(j, i))
    && (forall i: nat, j: nat, k: nat :: i < n && j < n && k < n && less(i, j) && less(j, k) ==> less(i, k))
  }

  /** Every earlier position of `r` is `less` than every later one. */
  ghost predicate SortedBy(r: seq<nat>, less: (nat, nat) -> bool)
  {
    forall a, b :: 0 <= a < b < |r| ==> less(r[a], r[b])
  }

  predicate Below(r: seq<nat>, n: nat)
  {
    forall k :: 0 <= k < |r| ==> r[k] < n
  }

  /** Puts `x` in front of the first element it is `less` than. */
  function Insert(r: seq<nat>, x: nat, less: (nat, nat) -> bool): seq<nat>
  {
    if r == [] then [x]
    else if less(x, r[0]) then [x] + r
    else [r[0]] + Insert(r[1..], x, less)
  }

  /** Inserting adds `x` and loses nothing. */
  lemma {:induction false} InsertPermutes(r: seq<nat>, x: nat, less: (nat, nat) -> bool)
    ensures multiset(Insert(r, x, less)) == multiset(r) + multiset{x}
    ensures |Insert(r, x, less)| == |r| + 1
  {
    if r != [] && !less(x, r[0]) {
      InsertPermutes(r[1..], x, less);
      assert r == [r[0]] + r[1..];
    }
  }

  lemma InsertMembers(r: seq<nat>, x: nat, less: (nat, nat) -> bool)
    ensures forall y :: y in Insert(r, x, less) <==> y == x || y in r
  {
    var r' := Insert(r, x, less);
    InsertPermutes(r, x, less);
    forall y ensures y in r' <==> y == x || y in r {
      assert y in r' <==> y in multiset(r');
      assert y in r <==> y in multiset(r);
    }
  }

  /** Inserting a new position into a sorted sequence keeps it sorted. */
  lemma {:induction false} InsertSorted(r: seq<nat>, x: nat, n: nat, less: (nat, nat) -> bool)
    requires StrictTotalOrder(n, less)
    requires x < n && Below(r, n) && x !in r
    requires SortedBy(r, less)
    ensures SortedBy(Insert(r, x, less), less)
  {
    if r == [] {
    } else if less(x, r[0]) {
      forall b | 0 <= b < |r| ensures less(x, r[b]) {
        if b > 0 { assert less(r[0], r[b]); }
      }
    } else {
      var rest := Insert(r[1..], x, less);
      assert r == [r[0]] + r[1..];
      InsertSorted(r[1..], x, n, less);
      InsertMembers(r[1..], x, less);
      assert less(r[0], x) by { assert r[0] != x; }
      forall b | 0 <= b < |rest| ensures less(r[0], rest[b]) {
        if rest[b] != x {
          assert rest[b] in r[1..];
          var c :| 0 <= c < |r[1..]| && r[1..][c] == rest[b];
          assert less(r[0], r[c + 1]);
        }
      }
      assert Insert(r, x, less) == [r[0]] + rest;
    }
  }

  /** Inserting position `x` into the positions below `x` gives the positions
      up to `x`. */
  lemma InsertNext(r0: seq<nat>, x: nat, less: (nat, nat) -> bool)
    requires Below(r0, x)
    requires forall i :: 0 <= i < x ==> i in r0
    ensures |Insert(r0, x, less)| == |r0| + 1
    ensures Below(Insert(r0, x, less), x + 1)
    ensures forall i :: 0 <= i <= x ==> i in Insert(r0, x, less)
  {
    var r := Insert(r0, x, less);
    InsertPermutes(r0, x, less);
    forall i | 0 <= i <= x ensures i in r {
      if i < x {
        assert i in r0;
        assert i in multiset(r0);
      }
      assert i in multiset(r);
    }
    forall k | 0 <= k < |r| ensures r[k] < x + 1 {
      assert r[k] in multiset(r);
      if r[k] != x {
        assert r[k] in multiset(r0);
        assert r[k] in r0;
      }
    }
  }

  /** The positions below `m` (`m <= n`), sorted by `less`. */
  function SortPrefix(m: nat, n: nat, less: (nat, nat) -> bool): (r: seq<nat>)
    requires m <= n && StrictTotalOrder(n, less)
    ensures |r| == m && Below(r, m)
    ensures forall i :: 0 <= i < m ==> i in r
  {
    if m == 0 then []
    else
      var r0 := SortPrefix(m - 1, n, less);
      InsertNext(r0, m - 1, less);
      Insert(r0, m - 1, less)
  }

  /** Each prefix sort is sorted. */
  lemma {:induction false} SortPrefixSorted(m: nat, n: nat, less: (nat, nat) -> bool)
    requires m <= n && StrictTotalOrder(n, less)
    ensures SortedBy(SortPrefix(m, n, less), less)
  {
    if m > 0 {
      SortPrefixSorted(m - 1, n, less);
      InsertSorted(SortPrefix(m - 1, n, less), m - 1, n, less);
    }
  }

  /** All positions below `n`, each once, sorted by `less`. */
  function SortIndices(n: nat, less: (nat, nat) -> bool): (r: seq<nat>)
    requires StrictTotalOrder(n, less)
    ensures |r| == n && Below(r, n)
    ensures forall i :: 0 <= i < n ==> i in r
  {
    SortPrefix(n, n, less)
  }

  /** The positions come out sorted. */
  lemma SortIndicesSorted(n: nat, less: (nat, nat) -> bool)
    requires StrictTotalOrder(n, less)
    ensures SortedBy(SortIndices(n, less), less)
  {
    SortPrefixSorted(n, n, less);
  }

  /** The first element of a sorted sequence is below every other element. */
  lemma FirstIsLeast(r: seq<nat>, y: nat, less: (nat, nat) -> bool)
    requires SortedBy(r, less) && y in r
    ensures y == r[0] || less(r[0], y)
  {
    var a :| 0 <= a < |r| && r[a] == y;
    if a > 0 {
      assert less(r[0], r[a]);
    }
  }

  /** Two sequences sorted by the same strict total order with the same elements are
      equal: the sorted order is unique, so any stable sort by the same key yields
      exactly `SortIndices`. */
  lemma {:induction false} SortedUnique(r1: seq<nat>, r2: seq<nat>, n: nat, less: (nat, nat) -> bool)
    requires StrictTotalOrder(n, less)
    requires Below(r1, n) && Below(r2, n)
    requires SortedBy(r1, less) && SortedBy(r2, less)
    requires forall i :: i in r1 <==> i in r2
    ensures r1 == r2
    decreases |r1|
  {
    assert r1 != [] <==> r2 != [] by {
      if r1 != [] { assert r1[0] in r2; }
      if r2 != [] { assert r2[0] in r1; }
    }
    if r1 != [] {
      assert r1[0] == r2[0] by {
        FirstIsLeast(r1, r2[0], less);
        FirstIsLeast(r2, r1[0], less);
      }
      forall i ensures i in r1[1..] <==> i in r2[1..] {
        if i in r1[1..] {
          var a :| 1 <= a < |r1| && r1[a] == i;
          assert less(r1[0], i);
          assert i in r2;
        }
        if i in r2[1..] {
          var b :| 1 <= b < |r2| && r2[b] == i;
          assert less(r2[0], i);
          assert i in r1;
        }
      }
      SortedUnique(r1[1..], r2[1..], n, less);
      assert r1 == [r1[0]] + r1[1..] && r2 == [r2[0]] + r2[1..];
    }
  }

  /** A sorted sequence of positions repeats none of them: sorting positions permutes them. */
  lemma SortedDistinct(r: seq<nat>, n: nat, less: (nat, nat) -> bool)
    requires StrictTotalOrder(n, less) && Below(r, n) && SortedBy(r, less)
    ensures forall a, b :: 0 <= a < b < |r| ==> r[a] != r[b]
  {
    forall a, b | 0 <= a < b < |r| ensures r[a] != r[b] {
      assert less(r[a], r[b]) && !less(r[a], r[a]);
    }
  }

  /** The items of `xs` in the order `order` lists their positions. */
  function Reorder<T>(xs: seq<T>, order: seq<nat>): (r: seq<T>)
    requires Below(order, |xs|)
  {
    seq(|order|, k requires 0 <= k < |order| => xs[order[k]])
  }
}

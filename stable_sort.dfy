/** The contract of the runtime's `Array.prototype.sort` with a numeric
    comparator, as the viewer uses it: a stable sort. The comparator
    `(a, b) => rank(a) - rank(b)` is represented by the integer `rank`; a
    descending comparator is the rank `x => -key(x)`. The sort is specified by
    a stable insertion sort. */
module StableSort {

  /** Every element has a rank no greater than its successor's. */
  ghost predicate SortedBy<T>(s: seq<T>, rank: T -> int) {
    |s| <= 1 || (rank(s[0]) <= rank(s[1]) && SortedBy(s[1..], rank))
  }

  /** The elements of rank `k`, in the order in which they occur in `s`. */
  function WithRank<T>(s: seq<T>, rank: T -> int, k: int): seq<T> {
    if s == [] then []
    else (if rank(s[0]) == k then [s[0]] else []) + WithRank(s[1..], rank, k)
  }

  /** Inserts `x` in front of the first element of strictly greater rank, so
      after every element it ties with. */
  function Insert<T>(x: T, r: seq<T>, rank: T -> int): (q: seq<T>)
    ensures |q| == |r| + 1
  {
    if r == [] then [x]
    else if rank(x) < rank(r[0]) then [x] + r
    else [r[0]] + Insert(x, r[1..], rank)
  }

  /** Insertion adds `x` and loses nothing. */
  lemma {:induction false} InsertMultiset<T>(x: T, r: seq<T>, rank: T -> int)
    ensures multiset(Insert(x, r, rank)) == multiset(r) + multiset{x}
  {
    if r != [] && rank(x) >= rank(r[0]) {
      InsertMultiset(x, r[1..], rank);
      assert r == [r[0]] + r[1..];
    }
  }

  /** Insertion into a sorted list keeps it sorted. */
  lemma {:induction false} InsertSorted<T>(x: T, r: seq<T>, rank: T -> int)
    requires SortedBy(r, rank)
    ensures SortedBy(Insert(x, r, rank), rank)
    ensures Insert(x, r, rank)[0] == x || (r != [] && Insert(x, r, rank)[0] == r[0])
  {
    if r != [] && rank(x) >= rank(r[0]) {
      var q0 := Insert(x, r[1..], rank);
      InsertSorted(x, r[1..], rank);
      assert ([r[0]] + q0)[1..] == q0;
    }
  }

  /** Sorting by successive insertion of the elements in list order. */
  function SortBy<T>(s: seq<T>, rank: T -> int): (r: seq<T>)
    ensures |r| == |s|
    ensures multiset(r) == multiset(s)
    ensures SortedBy(r, rank)
  {
    if s == [] then []
    else
      var init := SortBy(s[..|s| - 1], rank);
      InsertMultiset(s[|s| - 1], init, rank);
      InsertSorted(s[|s| - 1], init, rank);
      assert s == s[..|s| - 1] + [s[|s| - 1]];
      Insert(s[|s| - 1], init, rank)
  }

  /** Sortedness between any two positions, not only neighbours. */
  lemma {:induction false} SortedByPairs<T>(s: seq<T>, rank: T -> int, i: int, j: int)
    requires SortedBy(s, rank)
    requires 0 <= i <= j < |s|
    ensures rank(s[i]) <= rank(s[j])
    decreases j
  {
    if i < j {
      SortedByTail(s, rank, j - 1);
      SortedByPairs(s, rank, i, j - 1);
    }
  }

  lemma {:induction false} SortedByTail<T>(s: seq<T>, rank: T -> int, i: int)
    requires SortedBy(s, rank)
    requires 0 <= i < |s| - 1
    ensures rank(s[i]) <= rank(s[i + 1])
  {
    if i > 0 {
      SortedByTail(s[1..], rank, i - 1);
    }
  }

  lemma {:induction false} WithRankAppend<T>(a: seq<T>, b: seq<T>, rank: T -> int, k: int)
    ensures WithRank(a + b, rank, k) == WithRank(a, rank, k) + WithRank(b, rank, k)
  {
    if a == [] {
      assert a + b == b;
    } else {
      var head := if rank(a[0]) == k then [a[0]] else [];
      assert a + b == [a[0]] + (a[1..] + b);
      WithRankCons(a[0], a[1..] + b, rank, k);
      WithRankAppend(a[1..], b, rank, k);
      Assoc(head, WithRank(a[1..], rank, k), WithRank(b, rank, k));
    }
  }

  /** The first step of WithRank, for a list written as `[x] + r`. */
  lemma WithRankCons<T>(x: T, r: seq<T>, rank: T -> int, k: int)
    ensures WithRank([x] + r, rank, k) == (if rank(x) == k then [x] else []) + WithRank(r, rank, k)
  {
    assert ([x] + r)[0] == x;
    assert ([x] + r)[1..] == r;
  }

  lemma Assoc<T>(a: seq<T>, b: seq<T>, c: seq<T>)
    ensures a + (b + c) == (a + b) + c
  {
  }

  lemma {:induction false} WithRankAbove<T>(r: seq<T>, rank: T -> int, k: int)
    requires SortedBy(r, rank)
    requires r != [] ==> rank(r[0]) > k
    ensures WithRank(r, rank, k) == []
  {
    if r != [] {
      WithRankAbove(r[1..], rank, k);
    }
  }

  /** Inserting into a sorted list puts `x` after every element of its own rank. */
  lemma {:induction false} InsertWithRank<T>(x: T, r: seq<T>, rank: T -> int, k: int)
    requires SortedBy(r, rank)
    ensures WithRank(Insert(x, r, rank), rank, k)
         == WithRank(r, rank, k) + (if rank(x) == k then [x] else [])
  {
    if r == [] || rank(x) < rank(r[0]) {
      InsertFront(x, r, rank, k);
    } else {
      InsertWithRank(x, r[1..], rank, k);
      InsertPast(x, r, rank, k);
    }
  }

  /** `x` goes in front: the elements of its rank in `r`, if any, would rank
      below it, so there are none. */
  lemma InsertFront<T>(x: T, r: seq<T>, rank: T -> int, k: int)
    requires SortedBy(r, rank)
    requires r == [] || rank(x) < rank(r[0])
    ensures WithRank(Insert(x, r, rank), rank, k)
         == WithRank(r, rank, k) + (if rank(x) == k then [x] else [])
  {
    var hx := if rank(x) == k then [x] else [];
    assert Insert(x, r, rank) == [x] + r;
    WithRankCons(x, r, rank, k);
    if rank(x) == k {
      WithRankAbove(r, rank, k);
      assert hx + [] == [] + hx;
    } else {
      assert [] + WithRank(r, rank, k) == WithRank(r, rank, k) + [];
    }
  }

  /** `x` goes past the head of `r`. */
  lemma InsertPast<T>(x: T, r: seq<T>, rank: T -> int, k: int)
    requires r != [] && rank(x) >= rank(r[0]) && SortedBy(r, rank)
    requires WithRank(Insert(x, r[1..], rank), rank, k)
          == WithRank(r[1..], rank, k) + (if rank(x) == k then [x] else [])
    ensures WithRank(Insert(x, r, rank), rank, k)
         == WithRank(r, rank, k) + (if rank(x) == k then [x] else [])
  {
    var hx := if rank(x) == k then [x] else [];
    var q0 := Insert(x, r[1..], rank);
    assert Insert(x, r, rank) == [r[0]] + q0;
    WithRankCons(r[0], q0, rank, k);
    assert r == [r[0]] + r[1..];
    WithRankCons(r[0], r[1..], rank, k);
    Assoc(if rank(r[0]) == k then [r[0]] else [], WithRank(r[1..], rank, k), hx);
  }

  /** Stability: the elements of any one rank keep their relative order. */
  lemma {:induction false} SortByStable<T>(s: seq<T>, rank: T -> int, k: int)
    ensures WithRank(SortBy(s, rank), rank, k) == WithRank(s, rank, k)
  {
    if s != [] {
      var init := s[..|s| - 1];
      SortByStable(init, rank, k);
      StableStep(s, SortBy(init, rank), rank, k);
    }
  }

  /** Inserting the last element into the sorted rest keeps stability. */
  lemma StableStep<T>(s: seq<T>, sorted: seq<T>, rank: T -> int, k: int)
    requires s != [] && sorted == SortBy(s[..|s| - 1], rank)
    requires WithRank(sorted, rank, k) == WithRank(s[..|s| - 1], rank, k)
    ensures WithRank(SortBy(s, rank), rank, k) == WithRank(s, rank, k)
  {
    assert SortBy(s, rank) == Insert(s[|s| - 1], sorted, rank);
    InsertWithRank(s[|s| - 1], sorted, rank, k);
    WithRankSnoc(s, rank, k);
  }

  /** The last step of WithRank, for a list read from its end. */
  lemma WithRankSnoc<T>(s: seq<T>, rank: T -> int, k: int)
    requires s != []
    ensures WithRank(s, rank, k)
         == WithRank(s[..|s| - 1], rank, k) + (if rank(s[|s| - 1]) == k then [s[|s| - 1]] else [])
  {
    var init, x := s[..|s| - 1], s[|s| - 1];
    assert s == init + [x];
    WithRankAppend(init, [x], rank, k);
    assert [x] == [x] + [];
    WithRankCons(x, [], rank, k);
    var hx := if rank(x) == k then [x] else [];
    assert hx + [] == hx;
  }
}

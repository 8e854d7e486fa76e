/** Sorted sequences and their order statistics, counted rather than indexed. */
module OrderStatistics {

  ghost predicate Sorted(s: seq<int>) {
    forall i, j :: 0 <= i < j < |s| ==> s[i] <= s[j]
  }

  /** x put into s behind every element that is not larger. */
  function Insert(s: seq<int>, x: int): (r: seq<int>)
    ensures |r| == |s| + 1
  {
    if s == [] || s[|s| - 1] <= x then s + [x]
    else Insert(s[..|s| - 1], x) + [s[|s| - 1]]
  }

  function Sort(s: seq<int>): (r: seq<int>)
    ensures |r| == |s|
  {
    if s == [] then [] else Insert(Sort(s[..|s| - 1]), s[|s| - 1])
  }

  /** How many elements of s are smaller than v. */
  function Below(s: seq<int>, v: int): (n: nat)
    ensures n <= |s|
  {
    if s == [] then 0 else Below(s[..|s| - 1], v) + if s[|s| - 1] < v then 1 else 0
  }

  function Negatives(s: seq<int>): nat {
    Below(s, 0)
  }

  function Positives(s: seq<int>): nat {
    |s| - Below(s, 1)
  }

  /** How many elements of s lie in lo..hi. */
  function Within(s: seq<int>, lo: int, hi: int): int {
    Below(s, hi + 1) - Below(s, lo)
  }

  /** What std::sort promises, and that it determines the result. */
  lemma {:induction false} SortIsSortedPermutation(s: seq<int>)
    ensures Sorted(Sort(s)) && multiset(Sort(s)) == multiset(s)
  {
    if s != [] {
      var front, last := s[..|s| - 1], s[|s| - 1];
      SortIsSortedPermutation(front);
      InsertKeepsSorted(Sort(front), last);
      InsertAddsOne(Sort(front), last);
      assert s == front + [last];
    }
  }

  lemma {:induction false} InsertKeepsSorted(s: seq<int>, x: int)
    requires Sorted(s)
    ensures Sorted(Insert(s, x))
  {
    if s != [] && s[|s| - 1] > x {
      InsertKeepsSorted(s[..|s| - 1], x);
      InsertStaysBelow(s[..|s| - 1], x, s[|s| - 1]);
    }
  }

  lemma {:induction false} InsertStaysBelow(s: seq<int>, x: int, bound: int)
    requires x <= bound && forall i :: 0 <= i < |s| ==> s[i] <= bound
    ensures forall i :: 0 <= i <= |s| ==> Insert(s, x)[i] <= bound
  {
    if s != [] && s[|s| - 1] > x {
      InsertStaysBelow(s[..|s| - 1], x, bound);
    }
  }

  lemma {:induction false} InsertAddsOne(s: seq<int>, x: int)
    ensures multiset(Insert(s, x)) == multiset(s) + multiset{x}
  {
    if s != [] && s[|s| - 1] > x {
      InsertAddsOne(s[..|s| - 1], x);
      assert s == s[..|s| - 1] + [s[|s| - 1]];
    }
  }

  lemma {:induction false} BelowInsert(s: seq<int>, x: int, v: int)
    ensures Below(Insert(s, x), v) == Below(s, v) + if x < v then 1 else 0
  {
    if s == [] || s[|s| - 1] <= x {
      assert (s + [x])[..|s|] == s;
    } else {
      BelowInsert(s[..|s| - 1], x, v);
      assert Insert(s, x)[..|s|] == Insert(s[..|s| - 1], x);
    }
  }

  lemma {:induction false} BelowSort(s: seq<int>, v: int)
    ensures Below(Sort(s), v) == Below(s, v)
  {
    if s != [] {
      BelowSort(s[..|s| - 1], v);
      BelowInsert(Sort(s[..|s| - 1]), s[|s| - 1], v);
    }
  }

  /** In a sorted sequence the elements smaller than v are the first Below(s, v) ones. */
  lemma {:induction false} SortedSplitsAt(s: seq<int>, v: int, k: nat)
    requires Sorted(s) && k < |s|
    ensures s[k] < v <==> k < Below(s, v)
  {
    var front, last := s[..|s| - 1], s[|s| - 1];
    if last < v {
      AllBelow(front, v);
    } else if k < |front| {
      SortedSplitsAt(front, v, k);
    }
  }

  lemma {:induction false} AllBelow(s: seq<int>, v: int)
    requires forall i :: 0 <= i < |s| ==> s[i] < v
    ensures Below(s, v) == |s|
  {
    if s != [] {
      AllBelow(s[..|s| - 1], v);
    }
  }

  /** The k-th smallest element in terms of s alone: it is below v exactly when more than k
      elements are. Letting v range over all integers, this fixes the element. */
  lemma {:induction false} OrderStatistic(s: seq<int>, k: nat, v: int)
    requires k < |s|
    ensures Sort(s)[k] < v <==> k < Below(s, v)
  {
    SortIsSortedPermutation(s);
    SortedSplitsAt(Sort(s), v, k);
    BelowSort(s, v);
  }

  /** Sorting again after one more arrival, as the buffer does, sorts all arrivals. */
  lemma {:induction false} SortAfterSort(s: seq<int>, x: int)
    ensures Sort(Sort(s) + [x]) == Sort(s + [x])
  {
    SortIsSortedPermutation(s);
    SortOfSorted(Sort(s));
    assert (Sort(s) + [x])[..|s|] == Sort(s);
    assert (s + [x])[..|s|] == s;
  }

  lemma {:induction false} SortOfSorted(s: seq<int>)
    requires Sorted(s)
    ensures Sort(s) == s
  {
    if s != [] {
      var front, last := s[..|s| - 1], s[|s| - 1];
      SortOfSorted(front);
      InsertAtEnd(front, last);
    }
  }

  lemma {:induction false} InsertAtEnd(s: seq<int>, x: int)
    requires s == [] || s[|s| - 1] <= x
    ensures Insert(s, x) == s + [x]
  {
  }

  lemma {:induction false} BelowMonotone(s: seq<int>, v: int, w: int)
    requires v <= w
    ensures Below(s, v) <= Below(s, w)
  {
    if s != [] {
      BelowMonotone(s[..|s| - 1], v, w);
    }
  }

  lemma {:induction false} BelowFull(s: seq<int>, v: int)
    ensures Below(s, v) == |s| <==> forall i :: 0 <= i < |s| ==> s[i] < v
  {
    if s != [] {
      BelowFull(s[..|s| - 1], v);
    }
  }

  lemma {:induction false} BelowEmpty(s: seq<int>, v: int)
    ensures Below(s, v) == 0 <==> forall i :: 0 <= i < |s| ==> s[i] >= v
  {
    if s != [] {
      BelowEmpty(s[..|s| - 1], v);
    }
  }

  // ---- The counts, as numbers of positions

  lemma {:induction false} NegativesCounted(s: seq<int>)
    ensures Negatives(s) == |set i: nat | i < |s| && s[i] < 0|
  {
    if s != [] {
      var front, last := s[..|s| - 1], s[|s| - 1];
      NegativesCounted(front);
      OneMore(set i: nat | i < |front| && front[i] < 0, set i: nat | i < |s| && s[i] < 0, |front|, last < 0);
    }
  }

  lemma {:induction false} PositivesCounted(s: seq<int>)
    ensures Positives(s) == |set i: nat | i < |s| && s[i] > 0|
  {
    if s != [] {
      var front, last := s[..|s| - 1], s[|s| - 1];
      PositivesCounted(front);
      OneMore(set i: nat | i < |front| && front[i] > 0, set i: nat | i < |s| && s[i] > 0, |front|, last > 0);
    }
  }

  lemma {:induction false} BelowCounted(s: seq<int>, v: int)
    ensures Below(s, v) == |set i: nat | i < |s| && s[i] < v|
  {
    if s != [] {
      var front, last := s[..|s| - 1], s[|s| - 1];
      BelowCounted(front, v);
      OneMore(set i: nat | i < |front| && front[i] < v, set i: nat | i < |s| && s[i] < v, |front|, last < v);
    }
  }

  lemma {:induction false} WithinCounted(s: seq<int>, lo: int, hi: int)
    requires lo <= hi + 1
    ensures Within(s, lo, hi) == |set i: nat | i < |s| && lo <= s[i] <= hi|
  {
    hide Within;
    WithinLast(s, lo, hi);
    if s != [] {
      var front, last := s[..|s| - 1], s[|s| - 1];
      WithinCounted(front, lo, hi);
      OneMore(set i: nat | i < |front| && lo <= front[i] <= hi, set i: nat | i < |s| && lo <= s[i] <= hi,
              |front|, lo <= last <= hi);
    }
  }

  lemma {:induction false} WithinLast(s: seq<int>, lo: int, hi: int)
    requires lo <= hi + 1
    ensures Within(s, lo, hi) ==
      if s == [] then 0 else Within(s[..|s| - 1], lo, hi) + if lo <= s[|s| - 1] <= hi then 1 else 0
  {
  }

  lemma {:induction false} OneMore(a: set<nat>, b: set<nat>, x: nat, more: bool)
    requires x !in a && b == if more then a + {x} else a
    ensures |b| == |a| + if more then 1 else 0
  {
  }
}

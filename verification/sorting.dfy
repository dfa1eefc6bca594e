/** Ascending sort of card values, standing in for Python's `sorted(hand, key=...)`,
    and the fact that a sorted sequence is determined by its multiset. */
module Sorting {

  predicate Sorted(s: seq<int>) {
    forall i, j :: 0 <= i < j < |s| ==> s[i] <= s[j]
  }

  predicate StrictlyIncreasing(s: seq<int>) {
    forall i, j :: 0 <= i < j < |s| ==> s[i] < s[j]
  }

  /** The first element of a sorted sequence is its least element, and what
      follows it is sorted too. */
  lemma HeadIsLeast(s: seq<int>)
    requires Sorted(s) && |s| > 0
    ensures forall x :: x in multiset(s) ==> s[0] <= x
    ensures Sorted(s[1..])
  {
    forall x | x in multiset(s) ensures s[0] <= x {
      assert x in s;
    }
    forall i, j | 0 <= i < j < |s| - 1 ensures s[1..][i] <= s[1..][j] {
      assert s[1..][i] == s[i + 1] && s[1..][j] == s[j + 1];
    }
  }

  /** Putting a lower bound in front of a sorted sequence keeps it sorted. */
  lemma ConsSorted(x: int, s: seq<int>)
    requires Sorted(s)
    requires forall y :: y in multiset(s) ==> x <= y
    ensures Sorted([x] + s)
  {
    forall i, j | 0 <= i < j < |s| + 1 ensures ([x] + s)[i] <= ([x] + s)[j] {
      if i > 0 {
        assert ([x] + s)[i] == s[i - 1] && ([x] + s)[j] == s[j - 1];
      } else {
        assert ([x] + s)[j] == s[j - 1];
        assert s[j - 1] in multiset(s);
      }
    }
  }

  /** Inserts `x` before the first element not below it. */
  function Insert(x: int, s: seq<int>): (r: seq<int>)
    ensures |r| == |s| + 1
  {
    if |s| == 0 then [x]
    else if x <= s[0] then [x] + s
    else [s[0]] + Insert(x, s[1..])
  }

  /** Inserting into a sorted sequence keeps it sorted and adds exactly `x`. */
  lemma {:induction false} InsertSorted(x: int, s: seq<int>)
    requires Sorted(s)
    ensures Sorted(Insert(x, s))
    ensures multiset(Insert(x, s)) == multiset(s) + multiset{x}
  {
    if |s| == 0 {
    } else if x <= s[0] {
      HeadIsLeast(s);
      ConsSorted(x, s);
    } else {
      assert s == [s[0]] + s[1..];
      HeadIsLeast(s);
      InsertSorted(x, s[1..]);
      ConsSorted(s[0], Insert(x, s[1..]));
    }
  }

  /** Insertion sort. */
  function Sort(s: seq<int>): (r: seq<int>)
    ensures |r| == |s|
  {
    if |s| == 0 then [] else Insert(s[0], Sort(s[1..]))
  }

  /** `Sort` returns a sorted permutation of its input. */
  lemma {:induction false} SortSorts(s: seq<int>)
    ensures Sorted(Sort(s))
    ensures multiset(Sort(s)) == multiset(s)
  {
    if |s| > 0 {
      assert s == [s[0]] + s[1..];
      SortSorts(s[1..]);
      InsertSorted(s[0], Sort(s[1..]));
    }
  }

  /** Two sorted sequences with the same elements are the same sequence,
      so `Sort` is the only possible outcome of sorting. */
  lemma {:induction false} SortedUnique(a: seq<int>, b: seq<int>)
    requires Sorted(a) && Sorted(b)
    requires multiset(a) == multiset(b)
    ensures a == b
  {
    if |a| == 0 {
      assert |multiset(b)| == 0;
    } else {
      assert |b| == |multiset(b)| == |multiset(a)| == |a|;
      HeadIsLeast(a);
      HeadIsLeast(b);
      assert a[0] in multiset(a) && b[0] in multiset(b);
      assert a[0] == b[0];
      assert a == [a[0]] + a[1..];
      assert b == [b[0]] + b[1..];
      assert multiset(a) == multiset{a[0]} + multiset(a[1..]);
      assert multiset(b) == multiset{b[0]} + multiset(b[1..]);
      assert forall x :: multiset(a[1..])[x] == multiset(b[1..])[x] by {
        forall x ensures multiset(a[1..])[x] == multiset(b[1..])[x] {
          assert multiset(a)[x] == multiset{a[0]}[x] + multiset(a[1..])[x];
          assert multiset(b)[x] == multiset{b[0]}[x] + multiset(b[1..])[x];
        }
      }
      assert multiset(a[1..]) == multiset(b[1..]);
      SortedUnique(a[1..], b[1..]);
    }
  }

  /** A strictly increasing sequence holds every element at most once. */
  lemma {:induction false} StrictlyIncreasingNoRepeats(s: seq<int>, x: int)
    requires StrictlyIncreasing(s)
    ensures multiset(s)[x] <= 1
  {
    if |s| > 0 {
      assert s == [s[0]] + s[1..];
      StrictlyIncreasingNoRepeats(s[1..], x);
      if x == s[0] {
        assert x !in s[1..];
      }
    }
  }
}

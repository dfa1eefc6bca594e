/** The rank classifiers of `GameManager`: predicates over a set of cards that
    decide flush, straight, straight flush, n-of-a-kind, full house and two
    pairs. They are defined for any number of cards, as in the source; the
    facts that need exactly five cards say so. */
module Classifiers {
  import opened Cards
  import opened Sorting

  /** The face values of `h`, position by position. */
  function Values(h: seq<Card>): (r: seq<int>)
    ensures |r| == |h|
    ensures forall i :: 0 <= i < |h| ==> r[i] == h[i].v
  {
    seq(|h|, i requires 0 <= i < |h| => h[i].v)
  }

  lemma ValuesAppend(x: seq<Card>, y: seq<Card>)
    ensures Values(x + y) == Values(x) + Values(y)
  {
  }

  /** How many cards of `h` carry face value `x`. */
  function CountOf(h: seq<Card>, x: int): (n: nat) {
    multiset(Values(h))[x]
  }

  /** The values of the value table in the order `VALUE.values()` lists them. */
  function TableValues(): (t: seq<int>) {
    Run(2, 13)
  }

  /** The table lists 2..14, each once, ascending. */
  lemma TableValuesAscending()
    ensures StrictlyIncreasing(TableValues())
    ensures forall x :: x in TableValues() <==> 2 <= x <= 14
  {
    var r := TableValues();
    RunAscending(2, 13);
    forall x | 2 <= x <= 14 ensures x in r {
      assert r[x - 2] == x;
    }
  }

  /** The candidates of `cands`, in their order, that occur exactly `count`
      times in `vals`. */
  function IdenticalAmong(vals: seq<int>, count: int, cands: seq<int>): (r: seq<int>)
    decreases |cands|
  {
    if |cands| == 0 then []
    else (if multiset(vals)[cands[0]] == count then [cands[0]] else []) + IdenticalAmong(vals, count, cands[1..])
  }

  /** `IdenticalAmong` keeps exactly the candidates with that multiplicity. */
  lemma {:induction false} IdenticalAmongMembers(vals: seq<int>, count: int, cands: seq<int>)
    ensures forall x :: x in IdenticalAmong(vals, count, cands) <==> x in cands && multiset(vals)[x] == count
    decreases |cands|
  {
    if |cands| > 0 {
      IdenticalAmongMembers(vals, count, cands[1..]);
      assert cands == [cands[0]] + cands[1..];
    }
  }

  /** Filtering keeps the order of strictly increasing candidates. */
  lemma {:induction false} IdenticalAmongAscending(vals: seq<int>, count: int, cands: seq<int>)
    requires StrictlyIncreasing(cands)
    ensures StrictlyIncreasing(IdenticalAmong(vals, count, cands))
    decreases |cands|
  {
    if |cands| > 0 {
      var tail := cands[1..];
      assert StrictlyIncreasing(tail) by {
        forall i, j | 0 <= i < j < |tail| ensures tail[i] < tail[j] {
          assert tail[i] == cands[i + 1] && tail[j] == cands[j + 1];
        }
      }
      IdenticalAmongAscending(vals, count, tail);
      IdenticalAmongMembers(vals, count, tail);
      var rest := IdenticalAmong(vals, count, tail);
      forall k | 0 <= k < |rest| ensures cands[0] < rest[k] {
        assert rest[k] in rest;
        var m :| 0 <= m < |tail| && tail[m] == rest[k];
        assert tail[m] == cands[m + 1];
      }
    }
  }

  /** `is_identical(hand, count)`: the face values 2..14, ascending, that occur
      in `h` exactly `count` times (exactly: four of a kind is not a pair). */
  function Identical(h: seq<Card>, count: int): (r: seq<int>) {
    IdenticalAmong(Values(h), count, TableValues())
  }

  /** `is_identical` lists exactly the values 2..14 that occur `count` times. */
  lemma IdenticalMembers(h: seq<Card>, count: int)
    ensures forall x :: x in Identical(h, count) <==> 2 <= x <= 14 && CountOf(h, x) == count
  {
    IdenticalAmongMembers(Values(h), count, TableValues());
    TableValuesAscending();
  }

  /** `is_identical` lists its values in strictly ascending order, so each once. */
  lemma IdenticalAscending(h: seq<Card>, count: int)
    ensures StrictlyIncreasing(Identical(h, count))
  {
    TableValuesAscending();
    IdenticalAmongAscending(Values(h), count, TableValues());
  }

  /** The truth value of the list `is_identical(hand, count)` returns: some value
      occurs exactly `count` times. */
  predicate HasKind(h: seq<Card>, count: int) {
    |Identical(h, count)| > 0
  }

  /** `is_identical(hand, count)` is truthy exactly when some value occurs
      `count` times. */
  lemma HasKindIff(h: seq<Card>, count: int)
    ensures HasKind(h, count) <==> exists x :: 2 <= x <= 14 && CountOf(h, x) == count
  {
    IdenticalMembers(h, count);
    var r := Identical(h, count);
    if |r| > 0 {
      var x := r[0];
      assert x in r;
      assert 2 <= x <= 14 && CountOf(h, x) == count;
    } else {
      forall x | 2 <= x <= 14 ensures CountOf(h, x) != count {
        assert x !in r;
      }
    }
  }

  /** `is_flush`: every card has the suit of the first card. */
  predicate IsFlush(h: seq<Card>) {
    forall i :: 0 <= i < |h| ==> h[i].s == h[0].s
  }

  /** The loop of `is_straight`: every value is one above the value before it. */
  predicate StepsOfOne(s: seq<int>)
    decreases |s|
  {
    |s| < 2 || (s[1] - s[0] == 1 && StepsOfOne(s[1..]))
  }

  /** The straight test of the source on already sorted values. */
  predicate SortedIsStraight(s: seq<int>) {
    s == [2, 3, 4, 5, 14] || StepsOfOne(s)
  }

  /** `is_straight`: sort by value, then accept the wheel A-2-3-4-5 or a run of
      values each one above the previous. */
  predicate IsStraight(h: seq<Card>) {
    SortedIsStraight(Sort(Values(h)))
  }

  /** `is_straight_flush`. */
  predicate IsStraightFlush(h: seq<Card>) {
    IsStraight(h) && IsFlush(h)
  }

  /** `is_full_house`: a pair and three of a kind whose first values differ. */
  predicate IsFullHouse(h: seq<Card>) {
    var pairs := Identical(h, 2);
    var threes := Identical(h, 3);
    |pairs| >= 1 && |threes| >= 1 && pairs[0] != threes[0]
  }

  /** `is_two_pairs`: at least two values occur exactly twice. */
  predicate IsTwoPairs(h: seq<Card>) {
    |Identical(h, 2)| >= 2
  }

  // ---------------------------------------------------------------------
  // Independent characterisations

  /** `n` consecutive values starting at `lo`. */
  function Run(lo: int, n: nat): (r: seq<int>)
    ensures |r| == n
    ensures forall i :: 0 <= i < n ==> r[i] == lo + i
  {
    seq(n, i requires 0 <= i < n => lo + i)
  }

  lemma RunAscending(lo: int, n: nat)
    ensures StrictlyIncreasing(Run(lo, n))
  {
  }

  /** Values each one above the previous form a run from the first. */
  lemma {:induction false} StepsOfOneIsRun(s: seq<int>)
    requires |s| > 0 && StepsOfOne(s)
    ensures s == Run(s[0], |s|)
    decreases |s|
  {
    if |s| > 1 {
      StepsOfOneIsRun(s[1..]);
      forall k | 0 <= k < |s| ensures s[k] == s[0] + k {
        if k > 0 {
          assert s[k] == s[1..][k - 1];
        }
      }
    }
  }

  /** A run passes the loop of `is_straight`. */
  lemma {:induction false} RunStepsOfOne(lo: int, n: nat)
    ensures StepsOfOne(Run(lo, n))
    decreases n
  {
    if n >= 2 {
      assert Run(lo, n)[1..] == Run(lo + 1, n - 1);
      RunStepsOfOne(lo + 1, n - 1);
    }
  }

  /** `is_straight` holds exactly when the values are, as a multiset, the wheel
      {2,3,4,5,14} or some run of consecutive values. */
  lemma StraightIff(h: seq<Card>)
    ensures IsStraight(h) <==>
              multiset(Values(h)) == multiset([2, 3, 4, 5, 14]) ||
              exists lo :: multiset(Values(h)) == multiset(Run(lo, |h|))
  {
    if IsStraight(h) {
      var lo := StraightIsWheelOrRun(h);
      assert multiset(Values(h)) == multiset([2, 3, 4, 5, 14]) ||
             multiset(Values(h)) == multiset(Run(lo, |h|));
    }
    if multiset(Values(h)) == multiset([2, 3, 4, 5, 14]) {
      WheelIsStraight(h);
    }
    if exists lo :: multiset(Values(h)) == multiset(Run(lo, |h|)) {
      var lo :| multiset(Values(h)) == multiset(Run(lo, |h|));
      RunIsStraight(h, lo);
    }
  }

  lemma StraightIsWheelOrRun(h: seq<Card>) returns (lo: int)
    requires IsStraight(h)
    ensures multiset(Values(h)) == multiset([2, 3, 4, 5, 14]) ||
            multiset(Values(h)) == multiset(Run(lo, |h|))
  {
    var s := Sort(Values(h));
    SortSorts(Values(h));
    lo := 0;
    if s != [2, 3, 4, 5, 14] && |s| > 0 {
      StepsOfOneIsRun(s);
      lo := s[0];
    }
  }

  lemma WheelIsStraight(h: seq<Card>)
    requires multiset(Values(h)) == multiset([2, 3, 4, 5, 14])
    ensures IsStraight(h)
  {
    WheelSorted();
    SortSorts(Values(h));
    SortedUnique(Sort(Values(h)), [2, 3, 4, 5, 14]);
  }

  lemma WheelSorted()
    ensures StrictlyIncreasing([2, 3, 4, 5, 14]) && Sorted([2, 3, 4, 5, 14])
  {
    var w := [2, 3, 4, 5, 14];
    forall i, j | 0 <= i < j < 5 ensures w[i] < w[j] {
      assert w[i] <= w[j - 1] + 10;
    }
  }

  lemma RunIsStraight(h: seq<Card>, lo: int)
    requires multiset(Values(h)) == multiset(Run(lo, |h|))
    ensures IsStraight(h)
  {
    var s := Sort(Values(h));
    var run := Run(lo, |h|);
    SortSorts(Values(h));
    RunAscending(lo, |h|);
    assert Sorted(run);
    SortedUnique(s, run);
    RunStepsOfOne(lo, |h|);
  }

  /** A straight never repeats a face value. */
  lemma StraightHasDistinctValues(h: seq<Card>, x: int)
    requires IsStraight(h)
    ensures CountOf(h, x) <= 1
  {
    var s := Sort(Values(h));
    SortSorts(Values(h));
    if s == [2, 3, 4, 5, 14] {
      WheelSorted();
    } else if |s| > 0 {
      StepsOfOneIsRun(s);
      RunAscending(s[0], |s|);
    }
    assert StrictlyIncreasing(s);
    StrictlyIncreasingNoRepeats(s, x);
  }

  /** Two cards of one value anywhere in the hand rule out a straight. */
  lemma RepeatedValueNotStraight(h: seq<Card>, i: int, j: int)
    requires 0 <= i < j < |h| && h[i].v == h[j].v
    ensures !IsStraight(h)
  {
    var vals := Values(h);
    assert vals == vals[..j] + vals[j..];
    assert vals[i] in vals[..j];
    assert vals[j] in vals[j..];
    assert CountOf(h, h[i].v) >= 2;
    if IsStraight(h) {
      StraightHasDistinctValues(h, h[i].v);
    }
  }

  /** `is_flush` compares every card with the first; equivalently all suits agree. */
  lemma FlushIff(h: seq<Card>)
    ensures IsFlush(h) <==> forall i, j :: 0 <= i < |h| && 0 <= j < |h| ==> h[i].s == h[j].s
  {
  }

  /** `is_straight_flush` holds exactly when the values are the wheel or a run
      and all cards share one suit. */
  lemma StraightFlushIff(h: seq<Card>)
    ensures IsStraightFlush(h) <==>
              (multiset(Values(h)) == multiset([2, 3, 4, 5, 14]) ||
               exists lo :: multiset(Values(h)) == multiset(Run(lo, |h|))) &&
              forall i, j :: 0 <= i < |h| && 0 <= j < |h| ==> h[i].s == h[j].s
  {
    StraightIff(h);
    FlushIff(h);
  }

  /** The results of `is_identical` for different counts never share a value. */
  lemma IdenticalDisjoint(h: seq<Card>, c1: int, c2: int, x: int)
    requires c1 != c2
    ensures !(x in Identical(h, c1) && x in Identical(h, c2))
  {
    IdenticalMembers(h, c1);
    IdenticalMembers(h, c2);
  }

  lemma {:induction false} CountPairBound(vals: seq<int>, a: int, b: int)
    requires a != b
    ensures multiset(vals)[a] + multiset(vals)[b] <= |vals|
  {
    if |vals| > 0 {
      assert vals == [vals[0]] + vals[1..];
      CountPairBound(vals[1..], a, b);
    }
  }

  /** In five cards, four of a kind leaves no pair and no three of a kind. */
  lemma FourOfAKindExcludesOthers(h: seq<Card>)
    requires |h| == 5 && |Identical(h, 4)| > 0
    ensures Identical(h, 2) == [] && Identical(h, 3) == []
  {
    IdenticalMembers(h, 2);
    IdenticalMembers(h, 3);
    IdenticalMembers(h, 4);
    var a := Identical(h, 4)[0];
    assert a in Identical(h, 4);
    forall x | x != a ensures CountOf(h, x) <= 1 {
      CountPairBound(Values(h), a, x);
    }
    NoMemberIsEmpty(Identical(h, 2));
    NoMemberIsEmpty(Identical(h, 3));
  }

  lemma NoMemberIsEmpty(r: seq<int>)
    requires forall x :: x !in r
    ensures r == []
  {
    assert multiset(r) == multiset{} by {
      forall x ensures multiset(r)[x] == 0 {
        assert x !in r;
      }
    }
    assert |r| == |multiset(r)|;
  }

  /** A straight has no pair, three or four of a kind. */
  lemma StraightExcludesKinds(h: seq<Card>, c: int)
    requires IsStraight(h) && c >= 2
    ensures Identical(h, c) == []
  {
    IdenticalMembers(h, c);
    forall x ensures x !in Identical(h, c) {
      StraightHasDistinctValues(h, x);
    }
    NoMemberIsEmpty(Identical(h, c));
  }

  /** `is_full_house` holds exactly when some value occurs three times and some
      value occurs twice; the source's check that the two differ always passes. */
  lemma FullHouseIff(h: seq<Card>)
    ensures IsFullHouse(h) <==>
              (exists a :: 2 <= a <= 14 && CountOf(h, a) == 3) &&
              (exists b :: 2 <= b <= 14 && CountOf(h, b) == 2)
    ensures |Identical(h, 2)| >= 1 && |Identical(h, 3)| >= 1 ==>
              Identical(h, 2)[0] != Identical(h, 3)[0]
  {
    var pairs := Identical(h, 2);
    var threes := Identical(h, 3);
    IdenticalMembers(h, 2);
    IdenticalMembers(h, 3);
    if |pairs| >= 1 && |threes| >= 1 {
      assert pairs[0] in pairs && threes[0] in threes;
    }
    if exists a :: 2 <= a <= 14 && CountOf(h, a) == 3 {
      var a :| 2 <= a <= 14 && CountOf(h, a) == 3;
      assert a in threes;
    }
    if exists b :: 2 <= b <= 14 && CountOf(h, b) == 2 {
      var b :| 2 <= b <= 14 && CountOf(h, b) == 2;
      assert b in pairs;
    }
  }

  /** `is_two_pairs` holds exactly when two different values each occur twice. */
  lemma TwoPairsIff(h: seq<Card>)
    ensures IsTwoPairs(h) <==>
              exists a, b :: 2 <= a < b <= 14 && CountOf(h, a) == 2 && CountOf(h, b) == 2
  {
    var pairs := Identical(h, 2);
    IdenticalMembers(h, 2);
    if |pairs| >= 2 {
      IdenticalAscending(h, 2);
      var a, b := pairs[0], pairs[1];
      assert a in pairs && b in pairs && a < b;
    }
    if exists a, b :: 2 <= a < b <= 14 && CountOf(h, a) == 2 && CountOf(h, b) == 2 {
      var a, b :| 2 <= a < b <= 14 && CountOf(h, a) == 2 && CountOf(h, b) == 2;
      DistinctMembers(pairs, a, b);
    }
  }

  /** A sequence holding two different values has at least two elements. */
  lemma DistinctMembers(s: seq<int>, a: int, b: int)
    requires a in s && b in s && a != b
    ensures |s| >= 2
  {
    var i :| 0 <= i < |s| && s[i] == a;
    var j :| 0 <= j < |s| && s[j] == b;
    assert i != j;
  }

  // ---------------------------------------------------------------------
  // Only the cards matter, not their order

  lemma {:induction false} ValuesPermutation(a: seq<Card>, b: seq<Card>)
    requires multiset(a) == multiset(b)
    ensures multiset(Values(a)) == multiset(Values(b))
    decreases |a|
  {
    if |a| == 0 {
      assert |multiset(b)| == 0;
    } else {
      assert a[0] in multiset(b);
      var j :| 0 <= j < |b| && b[j] == a[0];
      var rest := b[..j] + b[j + 1..];
      assert b == b[..j] + [b[j]] + b[j + 1..];
      assert a == [a[0]] + a[1..];
      assert multiset(a[1..]) == multiset(rest) by {
        forall x ensures multiset(a[1..])[x] == multiset(rest)[x] {
          assert multiset(a)[x] == multiset{a[0]}[x] + multiset(a[1..])[x];
          assert multiset(b)[x] == multiset(b[..j])[x] + multiset{b[j]}[x] + multiset(b[j + 1..])[x];
        }
      }
      ValuesPermutation(a[1..], rest);
      ValuesAppend([a[0]], a[1..]);
      ValuesAppend(b[..j] + [b[j]], b[j + 1..]);
      ValuesAppend(b[..j], [b[j]]);
      ValuesAppend(b[..j], b[j + 1..]);
    }
  }

  lemma {:induction false} IdenticalAmongPermutation(va: seq<int>, vb: seq<int>, count: int, cands: seq<int>)
    requires multiset(va) == multiset(vb)
    ensures IdenticalAmong(va, count, cands) == IdenticalAmong(vb, count, cands)
    decreases |cands|
  {
    if |cands| > 0 {
      IdenticalAmongPermutation(va, vb, count, cands[1..]);
    }
  }

  /** Every classifier gives the same answer for any reordering of the cards. */
  lemma ClassifiersPermutationInvariant(a: seq<Card>, b: seq<Card>)
    requires multiset(a) == multiset(b)
    ensures IsFlush(a) == IsFlush(b)
    ensures IsStraight(a) == IsStraight(b)
    ensures forall c :: Identical(a, c) == Identical(b, c)
  {
    ValuesPermutation(a, b);
    SortSorts(Values(a));
    SortSorts(Values(b));
    SortedUnique(Sort(Values(a)), Sort(Values(b)));
    forall c ensures Identical(a, c) == Identical(b, c) {
      IdenticalAmongPermutation(Values(a), Values(b), c, TableValues());
    }
    if IsFlush(a) {
      FlushPermutation(a, b);
    }
    if IsFlush(b) {
      FlushPermutation(b, a);
    }
  }

  lemma FlushPermutation(a: seq<Card>, b: seq<Card>)
    requires multiset(a) == multiset(b) && IsFlush(a)
    ensures IsFlush(b)
  {
    if |b| > 0 {
      forall j | 0 <= j < |b| ensures b[j].s == a[0].s {
        assert b[j] in multiset(a);
      }
    }
  }
}

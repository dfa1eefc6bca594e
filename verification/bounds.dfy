/** Upper bounds on what the cardsets of one deal can reach. A pattern that
    keeps `n` hand cards builds its cardset from those `n` cards and the first
    `5 - n` deck cards, so every value and every suit occurs in the cardset at
    most as often as it does there; each category needs certain values or
    suits often enough, and where the deal cannot supply them the category is
    out of reach. */
module Bounds {
  import opened Cards
  import opened Classifiers
  import opened Generator
  import opened Evaluator

  /** The suits of `h`, position by position. */
  function Suits(h: seq<Card>): (r: seq<int>)
    ensures |r| == |h|
    ensures forall i :: 0 <= i < |h| ==> r[i] == h[i].s
  {
    seq(|h|, i requires 0 <= i < |h| => h[i].s)
  }

  lemma SuitsAppend(x: seq<Card>, y: seq<Card>)
    ensures Suits(x + y) == Suits(x) + Suits(y)
  {
  }

  /** The hand cards pattern `mask` keeps, in the order the cardset holds them. */
  function Kept(hand: seq<Card>, mask: seq<bool>): (r: seq<Card>)
    requires |hand| == 5 && |mask| == 5
    ensures |r| <= 5
  {
    Pick(hand, KeptFrom(mask, 4))
  }

  /** How many cards of `h` carry suit `x`. */
  function SuitCount(h: seq<Card>, x: int): (n: nat) {
    multiset(Suits(h))[x]
  }

  /** 1 when `b` holds, else 0. */
  function Ind(b: bool): (n: nat) {
    if b then 1 else 0
  }

  /** How many of the first `m` of five cards carry value `x`, card by card. */
  function ValueAmongFirst(h: seq<Card>, m: int, x: int): (n: nat)
    requires |h| >= 5
  {
    Ind(0 < m && h[0].v == x) + Ind(1 < m && h[1].v == x) + Ind(2 < m && h[2].v == x) +
    Ind(3 < m && h[3].v == x) + Ind(4 < m && h[4].v == x)
  }

  /** How many of the first `m` of five cards carry suit `x`, card by card. */
  function SuitAmongFirst(h: seq<Card>, m: int, x: int): (n: nat)
    requires |h| >= 5
  {
    Ind(0 < m && h[0].s == x) + Ind(1 < m && h[1].s == x) + Ind(2 < m && h[2].s == x) +
    Ind(3 < m && h[3].s == x) + Ind(4 < m && h[4].s == x)
  }

  /** The kept cards among `hand[..p + 1]` hold value `x` at most as often as
      those hand cards do. */
  lemma {:induction false} KeptValueFromHand(hand: seq<Card>, mask: seq<bool>, p: int, x: int)
    requires |hand| == 5 && |mask| == 5 && -1 <= p < 5
    ensures CountOf(Pick(hand, KeptFrom(mask, p)), x) <= ValueAmongFirst(hand, p + 1, x)
    decreases p
  {
    if p >= 0 {
      KeptValueFromHand(hand, mask, p - 1, x);
      var rest := Pick(hand, KeptFrom(mask, p - 1));
      var here := Opt(mask[p], hand[p]);
      PickKeptStep(hand, mask, p);
      ValuesAppend(here, rest);
      assert CountOf(here, x) <= Ind(hand[p].v == x);
    }
  }

  /** The kept cards among `hand[..p + 1]` hold suit `x` at most as often as
      those hand cards do. */
  lemma {:induction false} KeptSuitFromHand(hand: seq<Card>, mask: seq<bool>, p: int, x: int)
    requires |hand| == 5 && |mask| == 5 && -1 <= p < 5
    ensures SuitCount(Pick(hand, KeptFrom(mask, p)), x) <= SuitAmongFirst(hand, p + 1, x)
    decreases p
  {
    if p >= 0 {
      KeptSuitFromHand(hand, mask, p - 1, x);
      var rest := Pick(hand, KeptFrom(mask, p - 1));
      var here := Opt(mask[p], hand[p]);
      PickKeptStep(hand, mask, p);
      SuitsAppend(here, rest);
      assert SuitCount(here, x) <= Ind(hand[p].s == x);
    }
  }

  /** The multiplicities of a prefix of at most five cards, card by card. */
  lemma {:induction false} PrefixCounts(h: seq<Card>, m: int, x: int)
    requires 0 <= m <= 5 <= |h|
    ensures CountOf(h[..m], x) == ValueAmongFirst(h, m, x)
    ensures SuitCount(h[..m], x) == SuitAmongFirst(h, m, x)
    decreases m
  {
    if m > 0 {
      PrefixCounts(h, m - 1, x);
      assert h[..m] == h[..m - 1] + [h[m - 1]];
      ValuesAppend(h[..m - 1], [h[m - 1]]);
      SuitsAppend(h[..m - 1], [h[m - 1]]);
    }
  }

  /** A cardset is its kept hand cards followed by the first deck cards. */
  lemma CardsetSplit(hand: seq<Card>, deck: seq<Card>, mask: seq<bool>)
    requires |hand| == 5 && |deck| >= 5 && |mask| == 5
    ensures Cardset(hand, deck, mask) == Kept(hand, mask) + deck[..5 - |Kept(hand, mask)|]
  {
  }

  /** How often value `x` occurs in a cardset: among the kept cards, which
      hold it at most as often as the hand and at most once per kept card,
      plus among the `5 - n` drawn deck cards. */
  lemma CardsetValueCount(hand: seq<Card>, deck: seq<Card>, mask: seq<bool>, x: int)
    requires |hand| == 5 && |deck| >= 5 && |mask| == 5
    ensures var kept := Kept(hand, mask);
            CountOf(Cardset(hand, deck, mask), x) == CountOf(kept, x) + ValueAmongFirst(deck, 5 - |kept|, x) &&
            CountOf(kept, x) <= ValueAmongFirst(hand, 5, x) &&
            CountOf(kept, x) <= |kept|
  {
    var kept := Kept(hand, mask);
    var drawn := deck[..5 - |kept|];
    CardsetSplit(hand, deck, mask);
    ValuesAppend(kept, drawn);
    PrefixCounts(deck, 5 - |kept|, x);
    KeptValueFromHand(hand, mask, 4, x);
    CountPairBound(Values(kept), x, x + 1);
  }

  /** How often suit `x` occurs in a cardset, as for values. */
  lemma CardsetSuitCount(hand: seq<Card>, deck: seq<Card>, mask: seq<bool>, x: int)
    requires |hand| == 5 && |deck| >= 5 && |mask| == 5
    ensures var kept := Kept(hand, mask);
            SuitCount(Cardset(hand, deck, mask), x) == SuitCount(kept, x) + SuitAmongFirst(deck, 5 - |kept|, x) &&
            SuitCount(kept, x) <= SuitAmongFirst(hand, 5, x) &&
            SuitCount(kept, x) <= |kept|
  {
    var kept := Kept(hand, mask);
    var drawn := deck[..5 - |kept|];
    CardsetSplit(hand, deck, mask);
    SuitsAppend(kept, drawn);
    PrefixCounts(deck, 5 - |kept|, x);
    KeptSuitFromHand(hand, mask, 4, x);
    CountPairBound(Suits(kept), x, x + 1);
  }

  /** Two different values together occur among the kept cards at most once
      per kept card. */
  lemma KeptPairBound(hand: seq<Card>, mask: seq<bool>, a: int, b: int)
    requires |hand| == 5 && |mask| == 5 && a != b
    ensures CountOf(Kept(hand, mask), a) + CountOf(Kept(hand, mask), b) <= |Kept(hand, mask)|
  {
    CountPairBound(Values(Kept(hand, mask)), a, b);
  }

  /** Four different values together occur at most once per element. */
  lemma {:induction false} CountFourBound(vals: seq<int>, a: int, b: int, c: int, d: int)
    requires a != b && a != c && a != d && b != c && b != d && c != d
    ensures multiset(vals)[a] + multiset(vals)[b] + multiset(vals)[c] + multiset(vals)[d] <= |vals|
  {
    if |vals| > 0 {
      assert vals == [vals[0]] + vals[1..];
      CountFourBound(vals[1..], a, b, c, d);
    }
  }

  /** Four different values together occur among the kept cards at most once
      per kept card. */
  lemma KeptFourBound(hand: seq<Card>, mask: seq<bool>, a: int, b: int, c: int, d: int)
    requires |hand| == 5 && |mask| == 5
    requires a != b && a != c && a != d && b != c && b != d && c != d
    ensures var kept := Kept(hand, mask);
            CountOf(kept, a) + CountOf(kept, b) + CountOf(kept, c) + CountOf(kept, d) <= |kept|
  {
    CountFourBound(Values(Kept(hand, mask)), a, b, c, d);
  }

  // ---------------------------------------------------------------------
  // What each category needs

  /** A five-card flush holds one suit five times. */
  lemma FlushNeedsFive(c: seq<Card>)
    requires |c| == 5 && IsFlush(c)
    ensures SuitCount(c, c[0].s) == 5
  {
    var s := c[0].s;
    assert Suits(c) == [s, s, s, s, s];
  }

  /** All five values of the wheel occur in `c`. */
  predicate WheelPresent(c: seq<Card>) {
    CountOf(c, 2) > 0 && CountOf(c, 3) > 0 && CountOf(c, 4) > 0 && CountOf(c, 5) > 0 && CountOf(c, 14) > 0
  }

  /** All five values `lo`..`lo + 4` occur in `c`. */
  predicate RunPresent(c: seq<Card>, lo: int) {
    CountOf(c, lo) > 0 && CountOf(c, lo + 1) > 0 && CountOf(c, lo + 2) > 0 &&
    CountOf(c, lo + 3) > 0 && CountOf(c, lo + 4) > 0
  }

  /** A straight holds every value of the wheel or of a run of five. */
  lemma StraightNeedsValues(c: seq<Card>)
    requires |c| == 5 && IsStraight(c)
    ensures WheelPresent(c) || exists lo :: RunPresent(c, lo)
  {
    StraightIff(c);
    if multiset(Values(c)) == multiset([2, 3, 4, 5, 14]) {
      WheelCounts();
    } else {
      var lo :| multiset(Values(c)) == multiset(Run(lo, 5));
      RunCounts(lo);
      assert RunPresent(c, lo);
    }
  }

  lemma WheelCounts()
    ensures var m := multiset([2, 3, 4, 5, 14]);
            m[2] > 0 && m[3] > 0 && m[4] > 0 && m[5] > 0 && m[14] > 0
  {
  }

  lemma RunCounts(lo: int)
    ensures var m := multiset(Run(lo, 5));
            m[lo] > 0 && m[lo + 1] > 0 && m[lo + 2] > 0 && m[lo + 3] > 0 && m[lo + 4] > 0
  {
    assert Run(lo, 5) == [lo, lo + 1, lo + 2, lo + 3, lo + 4];
  }

  /** In a flush, every value present is carried by a dealt card of the
      flush's suit. */
  lemma FlushCardDealt(hand: seq<Card>, deck: seq<Card>, mask: seq<bool>, x: int)
    requires |hand| == 5 && |deck| >= 5 && |mask| == 5
    requires IsFlush(Cardset(hand, deck, mask)) && CountOf(Cardset(hand, deck, mask), x) > 0
    ensures 2 <= x <= 14 && Card(x, Cardset(hand, deck, mask)[0].s) in hand + deck[..5]
  {
    var c := Cardset(hand, deck, mask);
    assert x in Values(c);
    var j :| 0 <= j < 5 && Values(c)[j] == x;
    CardsetPositions(hand, deck, mask);
    assert c[j] == Card(x, c[0].s);
  }

  // ---------------------------------------------------------------------
  // Categories out of reach

  /** With no value more than `m` times, no larger kind, no full house when
      `m` is below three, and no two pairs when `m` is below two. */
  lemma KindsAtMost(c: seq<Card>, m: int)
    requires forall x :: 2 <= x <= 14 ==> CountOf(c, x) <= m
    ensures m < 4 ==> !HasKind(c, 4)
    ensures m < 3 ==> !HasKind(c, 3) && !IsFullHouse(c)
    ensures m < 2 ==> !HasKind(c, 2) && !IsTwoPairs(c)
  {
    HasKindIff(c, 4);
    HasKindIff(c, 3);
    HasKindIff(c, 2);
    FullHouseIff(c);
    TwoPairsIff(c);
  }

  /** With only value `a` occurring more than once, no full house and no
      two pairs. */
  lemma OneValueRepeated(c: seq<Card>, a: int)
    requires forall x :: 2 <= x <= 14 && x != a ==> CountOf(c, x) <= 1
    ensures !IsFullHouse(c) && !IsTwoPairs(c)
  {
    FullHouseIff(c);
    TwoPairsIff(c);
  }

  /** Without one value three times and another twice, no full house. */
  lemma NoFullHouse(c: seq<Card>)
    requires forall a, b :: a != b ==> !(CountOf(c, a) == 3 && CountOf(c, b) == 2)
    ensures !IsFullHouse(c)
  {
    FullHouseIff(c);
  }

  /** Without two values twice each, no two pairs. */
  lemma NoTwoPairs(c: seq<Card>)
    requires forall a, b :: a < b ==> !(CountOf(c, a) == 2 && CountOf(c, b) == 2)
    ensures !IsTwoPairs(c)
  {
    TwoPairsIff(c);
  }

  /** With no suit five times, no flush and no straight flush. */
  lemma NoFlush(c: seq<Card>)
    requires |c| == 5
    requires forall x :: 1 <= x <= 4 ==> SuitCount(c, x) < 5
    ensures !IsFlush(c) && !IsStraightFlush(c)
  {
    if IsFlush(c) {
      FlushNeedsFive(c);
    }
  }

  /** Without all values of the wheel or of a run of five, no straight. */
  lemma NoStraight(c: seq<Card>)
    requires |c| == 5
    requires !WheelPresent(c) && forall lo :: !RunPresent(c, lo)
    ensures !IsStraight(c)
  {
    if IsStraight(c) {
      StraightNeedsValues(c);
    }
  }

  /** Only the values of cards occur. */
  lemma ValueRange(c: seq<Card>, x: int)
    ensures CountOf(c, x) > 0 ==> 2 <= x <= 14
  {
    if CountOf(c, x) > 0 {
      assert x in Values(c);
    }
  }

  /** Three missing values no more than five apart, the first low enough to
      break the wheel and the last high enough to break the run up to the ace,
      leave no straight. */
  lemma NoStraightBetween(c: seq<Card>, g1: int, g2: int, g3: int)
    requires |c| == 5
    requires CountOf(c, g1) == 0 && CountOf(c, g2) == 0 && CountOf(c, g3) == 0
    requires 2 <= g1 <= 5 && g1 < g2 <= g1 + 5 && g2 < g3 <= g2 + 5 && 10 <= g3
    ensures !IsStraight(c)
  {
    forall lo ensures !RunPresent(c, lo) {
      if lo < 2 {
        ValueRange(c, lo);
      } else if 10 < lo {
        ValueRange(c, lo + 4);
      }
    }
    NoStraight(c);
  }

  // ---------------------------------------------------------------------
  // From a bound per cardset to a bound on the answer

  /** When no category above `k` accepts the cards, they score at most `k`. */
  lemma ScoreAtMost(c: seq<Card>, k: int)
    requires 0 <= k <= 8
    requires k < 8 ==> !IsStraightFlush(c)
    requires k < 7 ==> !HasKind(c, 4)
    requires k < 6 ==> !IsFullHouse(c)
    requires k < 5 ==> !IsFlush(c)
    requires k < 4 ==> !IsStraight(c)
    requires k < 3 ==> !HasKind(c, 3)
    requires k < 2 ==> !IsTwoPairs(c)
    requires k < 1 ==> !HasKind(c, 2)
    ensures Score(c) <= k
  {
    ScoreIsStrongest(c);
  }

  /** When every pattern's cardset scores at most `k`, so does the answer. */
  lemma BestAtMost(hand: seq<Card>, deck: seq<Card>, k: int)
    requires |hand| == 5 && |deck| >= 5 && 0 <= k
    requires forall i :: 1 <= i <= 32 ==> Score(Cardset(hand, deck, Mask(i))) <= k
    ensures BestScore(hand, deck) <= k
  {
    var sets := Cardsets(hand, deck);
    forall i | 0 <= i < 32 ensures Scores(sets)[i] <= k {
      assert sets[i] == Cardset(hand, deck, Mask(i + 1));
    }
    MaxOfAtMost(Scores(sets), k);
  }

}

/** The nine deals listed in the header of `poker.py`, with the answer printed
    for each. For every deal with a category, one pattern's cardset is shown to
    reach that category; the multiplicities of values and suits the deal can
    supply show that no cardset of any pattern goes further, so the selector
    prints exactly the listed answer. */
module Examples {
  import opened Cards
  import opened Sorting
  import opened Classifiers
  import opened Generator
  import opened Evaluator
  import opened Bounds

  // ---------------------------------------------------------------------
  // The patterns the deals use, for any hand and deck

  /** The cardset of a mask whose kept positions are known. */
  lemma KeptCards(hand: seq<Card>, deck: seq<Card>, mask: seq<bool>, idx: seq<int>)
    requires |hand| == 5 && |deck| >= 5 && |mask| == 5
    requires KeptFrom(mask, 4) == idx
    ensures Cardset(hand, deck, mask) == Pick(hand, idx) + deck[..5 - |idx|]
  {
    var r := Cardset(hand, deck, mask);
    assert r == r[..|idx|] + r[|idx|..];
  }

  lemma Keeps1()
    ensures KeptFrom(Mask(1), 4) == []
  {
    assert Mask(1) == [false, false, false, false, false];
  }

  lemma Pattern1(hand: seq<Card>, deck: seq<Card>)
    requires |hand| == 5 && |deck| >= 5
    ensures Cardset(hand, deck, Mask(1)) == deck[..5]
  {
    Keeps1();
  }

  lemma Keeps5()
    ensures KeptFrom(Mask(5), 4) == [2]
  {
    assert Mask(5) == [false, false, true, false, false];
  }

  lemma Pattern5(hand: seq<Card>, deck: seq<Card>)
    requires |hand| == 5 && |deck| >= 5
    ensures Cardset(hand, deck, Mask(5)) == [hand[2], deck[0], deck[1], deck[2], deck[3]]
  {
    Keeps5();
    KeptCards(hand, deck, Mask(5), [2]);
  }

  lemma Keeps9()
    ensures KeptFrom(Mask(9), 4) == [1]
  {
    assert Mask(9) == [false, true, false, false, false];
  }

  lemma Pattern9(hand: seq<Card>, deck: seq<Card>)
    requires |hand| == 5 && |deck| >= 5
    ensures Cardset(hand, deck, Mask(9)) == [hand[1], deck[0], deck[1], deck[2], deck[3]]
  {
    Keeps9();
    KeptCards(hand, deck, Mask(9), [1]);
  }

  lemma Keeps16()
    ensures KeptFrom(Mask(16), 4) == [4, 3, 2]
  {
    assert Mask(16) == [false, false, true, true, true];
  }

  lemma Pattern16(hand: seq<Card>, deck: seq<Card>)
    requires |hand| == 5 && |deck| >= 5
    ensures Cardset(hand, deck, Mask(16)) == [hand[4], hand[3], hand[2], deck[0], deck[1]]
  {
    Keeps16();
    KeptCards(hand, deck, Mask(16), [4, 3, 2]);
  }

  lemma Keeps22()
    ensures KeptFrom(Mask(22), 4) == [4, 2, 0]
  {
    assert Mask(22) == [true, false, true, false, true];
  }

  lemma Pattern22(hand: seq<Card>, deck: seq<Card>)
    requires |hand| == 5 && |deck| >= 5
    ensures Cardset(hand, deck, Mask(22)) == [hand[4], hand[2], hand[0], deck[0], deck[1]]
  {
    Keeps22();
    KeptCards(hand, deck, Mask(22), [4, 2, 0]);
  }

  lemma Keeps25()
    ensures KeptFrom(Mask(25), 4) == [1, 0]
  {
    assert Mask(25) == [true, true, false, false, false];
  }

  lemma Pattern25(hand: seq<Card>, deck: seq<Card>)
    requires |hand| == 5 && |deck| >= 5
    ensures Cardset(hand, deck, Mask(25)) == [hand[1], hand[0], deck[0], deck[1], deck[2]]
  {
    Keeps25();
    KeptCards(hand, deck, Mask(25), [1, 0]);
  }

  lemma Keeps27()
    ensures KeptFrom(Mask(27), 4) == [3, 1, 0]
  {
    assert Mask(27) == [true, true, false, true, false];
  }

  lemma Pattern27(hand: seq<Card>, deck: seq<Card>)
    requires |hand| == 5 && |deck| >= 5
    ensures Cardset(hand, deck, Mask(27)) == [hand[3], hand[1], hand[0], deck[0], deck[1]]
  {
    Keeps27();
    KeptCards(hand, deck, Mask(27), [3, 1, 0]);
  }

  lemma Keeps32()
    ensures KeptFrom(Mask(32), 4) == [4, 3, 2, 1, 0]
  {
    assert Mask(32) == [true, true, true, true, true];
  }

  lemma Pattern32(hand: seq<Card>, deck: seq<Card>)
    requires |hand| == 5 && |deck| >= 5
    ensures Cardset(hand, deck, Mask(32)) == [hand[4], hand[3], hand[2], hand[1], hand[0]]
  {
    Keeps32();
    KeptCards(hand, deck, Mask(32), [4, 3, 2, 1, 0]);
  }

  // ---------------------------------------------------------------------
  // Reading a category off the face values, for any cards

  lemma KindFromValues(c: seq<Card>, vals: seq<int>, x: int, n: int)
    requires Values(c) == vals && 2 <= x <= 14 && multiset(vals)[x] == n
    ensures HasKind(c, n)
  {
    assert CountOf(c, x) == n;
    HasKindIff(c, n);
  }

  lemma TwoPairsFromValues(c: seq<Card>, vals: seq<int>, a: int, b: int)
    requires Values(c) == vals && 2 <= a < b <= 14
    requires multiset(vals)[a] == 2 && multiset(vals)[b] == 2
    ensures IsTwoPairs(c)
  {
    assert CountOf(c, a) == 2 && CountOf(c, b) == 2;
    TwoPairsIff(c);
  }

  lemma FullHouseFromValues(c: seq<Card>, vals: seq<int>, a: int, b: int)
    requires Values(c) == vals && 2 <= a <= 14 && 2 <= b <= 14
    requires multiset(vals)[a] == 3 && multiset(vals)[b] == 2
    ensures IsFullHouse(c)
  {
    assert CountOf(c, a) == 3 && CountOf(c, b) == 2;
    FullHouseIff(c);
  }

  // ---------------------------------------------------------------------
  // Hand: TH JH QC QD QS  Deck: QH KH AH 2S 6S  Best hand: straight-flush

  const SF_HAND: seq<Card> := [Card(10, 3), Card(11, 3), Card(12, 1), Card(12, 2), Card(12, 4)]
  const SF_DECK: seq<Card> := [Card(12, 3), Card(13, 3), Card(14, 3), Card(2, 4), Card(6, 4)]

  /** Keeping TH and JH draws QH KH AH. */
  lemma StraightFlushCards()
    ensures Cardset(SF_HAND, SF_DECK, Mask(25)) == [Card(11, 3), Card(10, 3), Card(12, 3), Card(13, 3), Card(14, 3)]
  {
    Pattern25(SF_HAND, SF_DECK);
  }

  /** The values ten to ace, in the order the cardset holds them, sort to a run. */
  lemma RoyalRun()
    ensures SortedIsStraight(Sort([11, 10, 12, 13, 14]))
  {
    assert Sort([11, 10, 12, 13, 14]) == [10, 11, 12, 13, 14];
    assert StepsOfOne([10, 11, 12, 13, 14]);
  }

  /** JH TH QH KH AH is a straight flush. */
  lemma RoyalFlush()
    ensures IsStraightFlush([Card(11, 3), Card(10, 3), Card(12, 3), Card(13, 3), Card(14, 3)])
  {
    var c := [Card(11, 3), Card(10, 3), Card(12, 3), Card(13, 3), Card(14, 3)];
    assert Values(c) == [11, 10, 12, 13, 14];
    RoyalRun();
  }

  lemma StraightFlushCategory()
    ensures IsStraightFlush(Cardset(SF_HAND, SF_DECK, Mask(25)))
  {
    StraightFlushCards();
    RoyalFlush();
  }

  /** Nothing beats a straight flush. */
  lemma StraightFlushExact()
    ensures BestScore(SF_HAND, SF_DECK) == 8
  {
    StraightFlushCategory();
    CategoryReached(SF_HAND, SF_DECK, 25, 8);
  }

  lemma StraightFlushText()
    ensures Answer(8) == "Best hand: straight-flush"
  {
  }

  lemma StraightFlushDeal()
    ensures BestHand(SF_HAND, SF_DECK) == "Best hand: straight-flush"
  {
    StraightFlushExact();
    BestHandIs(SF_HAND, SF_DECK, 8);
    StraightFlushText();
  }

  // ---------------------------------------------------------------------
  // Hand: 2H 2S 3H 3S 3C  Deck: 2D 3D 6C 9C TH  Best hand: four-of-a-kind

  const FK_HAND: seq<Card> := [Card(2, 3), Card(2, 4), Card(3, 3), Card(3, 4), Card(3, 1)]
  const FK_DECK: seq<Card> := [Card(2, 2), Card(3, 2), Card(6, 1), Card(9, 1), Card(10, 3)]

  /** Keeping the three threes draws 2D 3D. */
  lemma FourOfAKindValues()
    ensures Values(Cardset(FK_HAND, FK_DECK, Mask(16))) == [3, 3, 3, 2, 3]
  {
    Pattern16(FK_HAND, FK_DECK);
  }

  lemma FourOfAKindReached()
    ensures BestScore(FK_HAND, FK_DECK) >= 7
  {
    FourOfAKindValues();
    KindFromValues(Cardset(FK_HAND, FK_DECK, Mask(16)), [3, 3, 3, 2, 3], 3, 4);
    CategoryReached(FK_HAND, FK_DECK, 16, 7);
  }

  /** No suit is dealt more than three times. */
  lemma FourOfAKindSuitCount(mask: seq<bool>, x: int)
    requires |mask| == 5
    ensures SuitCount(Cardset(FK_HAND, FK_DECK, mask), x) <= 3
  {
    CardsetSuitCount(FK_HAND, FK_DECK, mask, x);
  }

  /** Five cards with no suit more than three times are no straight flush. */
  lemma FourOfAKindLimit(c: seq<Card>)
    requires |c| == 5 && forall x :: SuitCount(c, x) <= 3
    ensures Score(c) <= 7
  {
    NoFlush(c);
    ScoreAtMost(c, 7);
  }

  lemma FourOfAKindCeiling(mask: seq<bool>)
    requires |mask| == 5
    ensures Score(Cardset(FK_HAND, FK_DECK, mask)) <= 7
  {
    var c := Cardset(FK_HAND, FK_DECK, mask);
    forall x ensures SuitCount(c, x) <= 3 {
      FourOfAKindSuitCount(mask, x);
    }
    FourOfAKindLimit(c);
  }

  lemma FourOfAKindExact()
    ensures BestScore(FK_HAND, FK_DECK) == 7
  {
    FourOfAKindReached();
    forall i | 1 <= i <= 32 ensures Score(Cardset(FK_HAND, FK_DECK, Mask(i))) <= 7 {
      FourOfAKindCeiling(Mask(i));
    }
    BestAtMost(FK_HAND, FK_DECK, 7);
  }

  lemma FourOfAKindText()
    ensures Answer(7) == "Best hand: four-of-a-kind"
  {
  }

  lemma FourOfAKindDeal()
    ensures BestHand(FK_HAND, FK_DECK) == "Best hand: four-of-a-kind"
  {
    FourOfAKindExact();
    BestHandIs(FK_HAND, FK_DECK, 7);
    FourOfAKindText();
  }

  // ---------------------------------------------------------------------
  // Hand: 2H 2S 3H 3S 3C  Deck: 2D 9C 3D 6C TH  Best hand: full-house

  const FH_DECK: seq<Card> := [Card(2, 2), Card(9, 1), Card(3, 2), Card(6, 1), Card(10, 3)]

  /** Keeping the whole hand: three threes and two twos. */
  lemma FullHouseValues()
    ensures Values(Cardset(FK_HAND, FH_DECK, Mask(32))) == [3, 3, 3, 2, 2]
  {
    Pattern32(FK_HAND, FH_DECK);
  }

  lemma FullHouseReached()
    ensures BestScore(FK_HAND, FH_DECK) >= 6
  {
    FullHouseValues();
    FullHouseFromValues(Cardset(FK_HAND, FH_DECK, Mask(32)), [3, 3, 3, 2, 2], 3, 2);
    CategoryReached(FK_HAND, FH_DECK, 32, 6);
  }

  /** Four threes are dealt, but 3D is the third deck card: drawing it leaves
      room for at most two kept threes. */
  lemma FullHouseValueCount(mask: seq<bool>, x: int)
    requires |mask| == 5
    ensures CountOf(Cardset(FK_HAND, FH_DECK, mask), x) <= 3
  {
    CardsetValueCount(FK_HAND, FH_DECK, mask, x);
  }

  /** No suit is dealt more than three times. */
  lemma FullHouseSuitCount(mask: seq<bool>, x: int)
    requires |mask| == 5
    ensures SuitCount(Cardset(FK_HAND, FH_DECK, mask), x) <= 3
  {
    CardsetSuitCount(FK_HAND, FH_DECK, mask, x);
  }

  /** Five cards with no value four times and no suit more than three times
      score at most a full house. */
  lemma FullHouseLimit(c: seq<Card>)
    requires |c| == 5
    requires forall x :: CountOf(c, x) <= 3
    requires forall x :: SuitCount(c, x) <= 3
    ensures Score(c) <= 6
  {
    KindsAtMost(c, 3);
    NoFlush(c);
    ScoreAtMost(c, 6);
  }

  lemma FullHouseCeiling(mask: seq<bool>)
    requires |mask| == 5
    ensures Score(Cardset(FK_HAND, FH_DECK, mask)) <= 6
  {
    var c := Cardset(FK_HAND, FH_DECK, mask);
    forall x ensures CountOf(c, x) <= 3 {
      FullHouseValueCount(mask, x);
    }
    forall x ensures SuitCount(c, x) <= 3 {
      FullHouseSuitCount(mask, x);
    }
    FullHouseLimit(c);
  }

  lemma FullHouseExact()
    ensures BestScore(FK_HAND, FH_DECK) == 6
  {
    FullHouseReached();
    forall i | 1 <= i <= 32 ensures Score(Cardset(FK_HAND, FH_DECK, Mask(i))) <= 6 {
      FullHouseCeiling(Mask(i));
    }
    BestAtMost(FK_HAND, FH_DECK, 6);
  }

  lemma FullHouseText()
    ensures Answer(6) == "Best hand: full-house"
  {
  }

  lemma FullHouseDeal()
    ensures BestHand(FK_HAND, FH_DECK) == "Best hand: full-house"
  {
    FullHouseExact();
    BestHandIs(FK_HAND, FH_DECK, 6);
    FullHouseText();
  }

  // ---------------------------------------------------------------------
  // Hand: 2H AD 5H AC 7H  Deck: AH 6H 9H 4H 3C  Best hand: flush

  const FL_HAND: seq<Card> := [Card(2, 3), Card(14, 2), Card(5, 3), Card(14, 1), Card(7, 3)]
  const FL_DECK: seq<Card> := [Card(14, 3), Card(6, 3), Card(9, 3), Card(4, 3), Card(3, 1)]

  /** Keeping the three hearts draws AH 6H. */
  lemma FlushCategory()
    ensures IsFlush(Cardset(FL_HAND, FL_DECK, Mask(22)))
  {
    Pattern22(FL_HAND, FL_DECK);
  }

  lemma FlushReached()
    ensures BestScore(FL_HAND, FL_DECK) >= 5
  {
    FlushCategory();
    CategoryReached(FL_HAND, FL_DECK, 22, 5);
  }

  /** Only the ace is dealt more than once, three times. */
  lemma FlushValueCount(mask: seq<bool>, x: int)
    requires |mask| == 5
    ensures CountOf(Cardset(FL_HAND, FL_DECK, mask), x) <= 3
    ensures x != 14 ==> CountOf(Cardset(FL_HAND, FL_DECK, mask), x) <= 1
  {
    CardsetValueCount(FL_HAND, FL_DECK, mask, x);
  }

  /** Only hearts are dealt more than twice. */
  lemma FlushSuitCount(mask: seq<bool>, x: int)
    requires |mask| == 5
    ensures x != 3 ==> SuitCount(Cardset(FL_HAND, FL_DECK, mask), x) <= 2
  {
    CardsetSuitCount(FL_HAND, FL_DECK, mask, x);
  }

  /** A flush here is a flush of hearts, the only suit dealt five times. */
  lemma FlushSuit(mask: seq<bool>)
    requires |mask| == 5
    ensures var c := Cardset(FL_HAND, FL_DECK, mask);
            IsFlush(c) ==> c[0].s == 3
  {
    var c := Cardset(FL_HAND, FL_DECK, mask);
    if IsFlush(c) {
      FlushNeedsFive(c);
      FlushSuitCount(mask, c[0].s);
    }
  }

  /** The hearts dealt are 2, 4, 5, 6, 7, 9 and the ace. */
  lemma HeartsDealt(x: Value)
    ensures Card(x, 3) in FL_HAND + FL_DECK[..5] ==> x == 2 || 4 <= x <= 7 || x == 9 || x == 14
  {
  }

  /** So the values of a flush here are among the hearts dealt. */
  lemma FlushHeartValue(mask: seq<bool>, x: int)
    requires |mask| == 5
    ensures var c := Cardset(FL_HAND, FL_DECK, mask);
            IsFlush(c) && CountOf(c, x) > 0 ==> x == 2 || 4 <= x <= 7 || x == 9 || x == 14
  {
    var c := Cardset(FL_HAND, FL_DECK, mask);
    if IsFlush(c) && CountOf(c, x) > 0 {
      FlushSuit(mask);
      FlushCardDealt(FL_HAND, FL_DECK, mask, x);
      HeartsDealt(x);
    }
  }

  /** The hearts dealt hold no run and no wheel: three, eight and ten are
      missing. */
  lemma FlushNoStraightFlush(c: seq<Card>)
    requires |c| == 5
    requires IsFlush(c) ==> CountOf(c, 3) == 0 && CountOf(c, 8) == 0 && CountOf(c, 10) == 0
    ensures !IsStraightFlush(c)
  {
    if IsFlush(c) {
      NoStraightBetween(c, 3, 8, 10);
    }
  }

  /** Five cards with only one value repeated, at most three times, and no
      straight flush score at most a flush. */
  lemma FlushLimit(c: seq<Card>)
    requires |c| == 5 && !IsStraightFlush(c)
    requires forall x :: CountOf(c, x) <= 3 && (x != 14 ==> CountOf(c, x) <= 1)
    ensures Score(c) <= 5
  {
    KindsAtMost(c, 3);
    OneValueRepeated(c, 14);
    ScoreAtMost(c, 5);
  }

  lemma FlushCeiling(mask: seq<bool>)
    requires |mask| == 5
    ensures Score(Cardset(FL_HAND, FL_DECK, mask)) <= 5
  {
    var c := Cardset(FL_HAND, FL_DECK, mask);
    forall x ensures CountOf(c, x) <= 3 && (x != 14 ==> CountOf(c, x) <= 1) {
      FlushValueCount(mask, x);
    }
    FlushHeartValue(mask, 3);
    FlushHeartValue(mask, 8);
    FlushHeartValue(mask, 10);
    FlushNoStraightFlush(c);
    FlushLimit(c);
  }

  lemma FlushExact()
    ensures BestScore(FL_HAND, FL_DECK) == 5
  {
    FlushReached();
    forall i | 1 <= i <= 32 ensures Score(Cardset(FL_HAND, FL_DECK, Mask(i))) <= 5 {
      FlushCeiling(Mask(i));
    }
    BestAtMost(FL_HAND, FL_DECK, 5);
  }

  lemma FlushText()
    ensures Answer(5) == "Best hand: flush"
  {
  }

  lemma FlushDeal()
    ensures BestHand(FL_HAND, FL_DECK) == "Best hand: flush"
  {
    FlushExact();
    BestHandIs(FL_HAND, FL_DECK, 5);
    FlushText();
  }

  // ---------------------------------------------------------------------
  // Hand: AC 2D 9C 3S KD  Deck: 5S 4D KS AS 4C  Best hand: straight

  const ST_HAND: seq<Card> := [Card(14, 1), Card(2, 2), Card(9, 1), Card(3, 4), Card(13, 2)]
  const ST_DECK: seq<Card> := [Card(5, 4), Card(4, 2), Card(13, 4), Card(14, 4), Card(4, 1)]

  /** Keeping AC 2D 3S draws 5S 4D. */
  lemma StraightValues()
    ensures Values(Cardset(ST_HAND, ST_DECK, Mask(27))) == [3, 2, 14, 5, 4]
  {
    Pattern27(ST_HAND, ST_DECK);
  }

  /** The values sort to the wheel. */
  lemma StraightCategory()
    ensures IsStraight(Cardset(ST_HAND, ST_DECK, Mask(27)))
  {
    StraightValues();
    assert Sort([3, 2, 14, 5, 4]) == [2, 3, 4, 5, 14];
  }

  lemma StraightReached()
    ensures BestScore(ST_HAND, ST_DECK) >= 4
  {
    StraightCategory();
    CategoryReached(ST_HAND, ST_DECK, 27, 4);
  }

  /** No value is dealt more than twice. */
  lemma StraightValueCount(mask: seq<bool>, x: int)
    requires |mask| == 5
    ensures CountOf(Cardset(ST_HAND, ST_DECK, mask), x) <= 2
  {
    CardsetValueCount(ST_HAND, ST_DECK, mask, x);
  }

  /** No suit is dealt more than four times. */
  lemma StraightSuitCount(mask: seq<bool>, x: int)
    requires |mask| == 5
    ensures SuitCount(Cardset(ST_HAND, ST_DECK, mask), x) <= 4
  {
    CardsetSuitCount(ST_HAND, ST_DECK, mask, x);
  }

  /** Five cards with no three of a kind and no five of a suit score at most
      a straight. */
  lemma StraightLimit(c: seq<Card>)
    requires |c| == 5
    requires forall x :: CountOf(c, x) <= 2
    requires forall x :: SuitCount(c, x) <= 4
    ensures Score(c) <= 4
  {
    KindsAtMost(c, 2);
    NoFlush(c);
    ScoreAtMost(c, 4);
  }

  lemma StraightCeiling(mask: seq<bool>)
    requires |mask| == 5
    ensures Score(Cardset(ST_HAND, ST_DECK, mask)) <= 4
  {
    var c := Cardset(ST_HAND, ST_DECK, mask);
    forall x ensures CountOf(c, x) <= 2 {
      StraightValueCount(mask, x);
    }
    forall x ensures SuitCount(c, x) <= 4 {
      StraightSuitCount(mask, x);
    }
    StraightLimit(c);
  }

  lemma StraightExact()
    ensures BestScore(ST_HAND, ST_DECK) == 4
  {
    StraightReached();
    forall i | 1 <= i <= 32 ensures Score(Cardset(ST_HAND, ST_DECK, Mask(i))) <= 4 {
      StraightCeiling(Mask(i));
    }
    BestAtMost(ST_HAND, ST_DECK, 4);
  }

  lemma StraightText()
    ensures Answer(4) == "Best hand: straight"
  {
  }

  lemma StraightDeal()
    ensures BestHand(ST_HAND, ST_DECK) == "Best hand: straight"
  {
    StraightExact();
    BestHandIs(ST_HAND, ST_DECK, 4);
    StraightText();
  }

  // ---------------------------------------------------------------------
  // Hand: KS AH 2H 3C 4H  Deck: KC 2C TC 2D AS  Best hand: three-of-a-kind

  const TK_HAND: seq<Card> := [Card(13, 4), Card(14, 3), Card(2, 3), Card(3, 1), Card(4, 3)]
  const TK_DECK: seq<Card> := [Card(13, 1), Card(2, 1), Card(10, 1), Card(2, 2), Card(14, 4)]

  /** Keeping 2H draws KC 2C TC 2D. */
  lemma ThreeOfAKindValues()
    ensures Values(Cardset(TK_HAND, TK_DECK, Mask(5))) == [2, 13, 2, 10, 2]
  {
    Pattern5(TK_HAND, TK_DECK);
  }

  lemma ThreeOfAKindReached()
    ensures BestScore(TK_HAND, TK_DECK) >= 3
  {
    ThreeOfAKindValues();
    KindFromValues(Cardset(TK_HAND, TK_DECK, Mask(5)), [2, 13, 2, 10, 2], 2, 3);
    CategoryReached(TK_HAND, TK_DECK, 5, 3);
  }

  /** No value is dealt four times, and neither five nor any of 6..9 nor
      jack or queen is dealt. */
  lemma ThreeOfAKindValueCount(mask: seq<bool>, x: int)
    requires |mask| == 5
    ensures var c := Cardset(TK_HAND, TK_DECK, mask);
            CountOf(c, x) <= 3 && (CountOf(c, x) > 0 ==> 2 <= x <= 4 || x == 10 || x == 13 || x == 14)
  {
    CardsetValueCount(TK_HAND, TK_DECK, mask, x);
  }

  /** No suit is dealt more than four times. */
  lemma ThreeOfAKindSuitCount(mask: seq<bool>, x: int)
    requires |mask| == 5
    ensures SuitCount(Cardset(TK_HAND, TK_DECK, mask), x) <= 4
  {
    CardsetSuitCount(TK_HAND, TK_DECK, mask, x);
  }

  /** Three twos need 2H kept and 2D, the fourth deck card, drawn: that keeps
      2H alone and draws KC 2C TC 2D, which hold no pair besides. */
  lemma ThreeOfAKindPairCounts(mask: seq<bool>, a: int, b: int)
    requires |mask| == 5 && a != b
    ensures var c := Cardset(TK_HAND, TK_DECK, mask);
            !(CountOf(c, a) == 3 && CountOf(c, b) == 2)
  {
    CardsetValueCount(TK_HAND, TK_DECK, mask, a);
    CardsetValueCount(TK_HAND, TK_DECK, mask, b);
    KeptPairBound(TK_HAND, mask, a, b);
  }

  /** So no cardset is a full house. */
  lemma ThreeOfAKindNoFullHouse(mask: seq<bool>)
    requires |mask| == 5
    ensures !IsFullHouse(Cardset(TK_HAND, TK_DECK, mask))
  {
    var c := Cardset(TK_HAND, TK_DECK, mask);
    forall a, b | a != b ensures !(CountOf(c, a) == 3 && CountOf(c, b) == 2) {
      ThreeOfAKindPairCounts(mask, a, b);
    }
    NoFullHouse(c);
  }

  /** Five cards with no four of a kind, no five of a suit, no full house and
      no five, nine or jack, so no straight, score at most three of a kind. */
  lemma ThreeOfAKindLimit(c: seq<Card>)
    requires |c| == 5 && !IsFullHouse(c)
    requires forall x :: CountOf(c, x) <= 3
    requires CountOf(c, 5) == 0 && CountOf(c, 9) == 0 && CountOf(c, 11) == 0
    requires forall x :: SuitCount(c, x) <= 4
    ensures Score(c) <= 3
  {
    KindsAtMost(c, 3);
    NoFlush(c);
    NoStraightBetween(c, 5, 9, 11);
    ScoreAtMost(c, 3);
  }

  /** What every cardset of this deal satisfies. */
  lemma ThreeOfAKindShape(mask: seq<bool>)
    requires |mask| == 5
    ensures var c := Cardset(TK_HAND, TK_DECK, mask);
            && !IsFullHouse(c)
            && (forall x :: CountOf(c, x) <= 3)
            && CountOf(c, 5) == 0 && CountOf(c, 9) == 0 && CountOf(c, 11) == 0
            && (forall x :: SuitCount(c, x) <= 4)
  {
    var c := Cardset(TK_HAND, TK_DECK, mask);
    ThreeOfAKindNoFullHouse(mask);
    forall x ensures CountOf(c, x) <= 3 {
      ThreeOfAKindValueCount(mask, x);
    }
    ThreeOfAKindValueCount(mask, 5);
    ThreeOfAKindValueCount(mask, 9);
    ThreeOfAKindValueCount(mask, 11);
    forall x ensures SuitCount(c, x) <= 4 {
      ThreeOfAKindSuitCount(mask, x);
    }
  }

  lemma ThreeOfAKindCeiling(mask: seq<bool>)
    requires |mask| == 5
    ensures Score(Cardset(TK_HAND, TK_DECK, mask)) <= 3
  {
    ThreeOfAKindShape(mask);
    ThreeOfAKindLimit(Cardset(TK_HAND, TK_DECK, mask));
  }

  lemma ThreeOfAKindExact()
    ensures BestScore(TK_HAND, TK_DECK) == 3
  {
    ThreeOfAKindReached();
    forall i | 1 <= i <= 32 ensures Score(Cardset(TK_HAND, TK_DECK, Mask(i))) <= 3 {
      ThreeOfAKindCeiling(Mask(i));
    }
    BestAtMost(TK_HAND, TK_DECK, 3);
  }

  lemma ThreeOfAKindText()
    ensures Answer(3) == "Best hand: three-of-a-kind"
  {
  }

  lemma ThreeOfAKindDeal()
    ensures BestHand(TK_HAND, TK_DECK) == "Best hand: three-of-a-kind"
  {
    ThreeOfAKindExact();
    BestHandIs(TK_HAND, TK_DECK, 3);
    ThreeOfAKindText();
  }

  // ---------------------------------------------------------------------
  // Hand: AH 2C 9S AD 3C  Deck: QH KS JS JD KD  Best hand: two-pairs

  const TP_HAND: seq<Card> := [Card(14, 3), Card(2, 1), Card(9, 4), Card(14, 2), Card(3, 1)]
  const TP_DECK: seq<Card> := [Card(12, 3), Card(13, 4), Card(11, 4), Card(11, 2), Card(13, 2)]

  /** Replacing the whole hand draws QH KS JS JD KD: jacks and kings. */
  lemma TwoPairsValues()
    ensures Values(Cardset(TP_HAND, TP_DECK, Mask(1))) == [12, 13, 11, 11, 13]
  {
    Pattern1(TP_HAND, TP_DECK);
  }

  lemma TwoPairsReached()
    ensures BestScore(TP_HAND, TP_DECK) >= 2
  {
    TwoPairsValues();
    TwoPairsFromValues(Cardset(TP_HAND, TP_DECK, Mask(1)), [12, 13, 11, 11, 13], 11, 13);
    CategoryReached(TP_HAND, TP_DECK, 1, 2);
  }

  /** No value is dealt more than twice, and neither four to eight nor ten
      is dealt. */
  lemma TwoPairsValueCount(mask: seq<bool>, x: int)
    requires |mask| == 5
    ensures var c := Cardset(TP_HAND, TP_DECK, mask);
            CountOf(c, x) <= 2 && (CountOf(c, x) > 0 ==> x == 2 || x == 3 || x == 9 || 11 <= x <= 14)
  {
    CardsetValueCount(TP_HAND, TP_DECK, mask, x);
  }

  /** No suit is dealt more than three times. */
  lemma TwoPairsSuitCount(mask: seq<bool>, x: int)
    requires |mask| == 5
    ensures SuitCount(Cardset(TP_HAND, TP_DECK, mask), x) <= 3
  {
    CardsetSuitCount(TP_HAND, TP_DECK, mask, x);
  }

  /** Five cards with no three of a kind, no five of a suit and no four,
      eight or ten, so no straight, score at most two pairs. */
  lemma TwoPairsLimit(c: seq<Card>)
    requires |c| == 5
    requires forall x :: CountOf(c, x) <= 2
    requires CountOf(c, 4) == 0 && CountOf(c, 8) == 0 && CountOf(c, 10) == 0
    requires forall x :: SuitCount(c, x) <= 3
    ensures Score(c) <= 2
  {
    KindsAtMost(c, 2);
    NoFlush(c);
    NoStraightBetween(c, 4, 8, 10);
    ScoreAtMost(c, 2);
  }

  lemma TwoPairsCeiling(mask: seq<bool>)
    requires |mask| == 5
    ensures Score(Cardset(TP_HAND, TP_DECK, mask)) <= 2
  {
    var c := Cardset(TP_HAND, TP_DECK, mask);
    forall x ensures CountOf(c, x) <= 2 {
      TwoPairsValueCount(mask, x);
    }
    TwoPairsValueCount(mask, 4);
    TwoPairsValueCount(mask, 8);
    TwoPairsValueCount(mask, 10);
    forall x ensures SuitCount(c, x) <= 3 {
      TwoPairsSuitCount(mask, x);
    }
    TwoPairsLimit(c);
  }

  lemma TwoPairsExact()
    ensures BestScore(TP_HAND, TP_DECK) == 2
  {
    TwoPairsReached();
    forall i | 1 <= i <= 32 ensures Score(Cardset(TP_HAND, TP_DECK, Mask(i))) <= 2 {
      TwoPairsCeiling(Mask(i));
    }
    BestAtMost(TP_HAND, TP_DECK, 2);
  }

  lemma TwoPairsText()
    ensures Answer(2) == "Best hand: two-pairs"
  {
  }

  lemma TwoPairsDeal()
    ensures BestHand(TP_HAND, TP_DECK) == "Best hand: two-pairs"
  {
    TwoPairsExact();
    BestHandIs(TP_HAND, TP_DECK, 2);
    TwoPairsText();
  }

  // ---------------------------------------------------------------------
  // Hand: 6C 9C 8C 2D 7C  Deck: 2H TC 4C 9S AH  Best hand: one-pairs

  const OP_HAND: seq<Card> := [Card(6, 1), Card(9, 1), Card(8, 1), Card(2, 2), Card(7, 1)]
  const OP_DECK: seq<Card> := [Card(2, 3), Card(10, 1), Card(4, 1), Card(9, 4), Card(14, 3)]

  /** Keeping 9C draws 2H TC 4C 9S. */
  lemma OnePairValues()
    ensures Values(Cardset(OP_HAND, OP_DECK, Mask(9))) == [9, 2, 10, 4, 9]
  {
    Pattern9(OP_HAND, OP_DECK);
  }

  lemma OnePairReached()
    ensures BestScore(OP_HAND, OP_DECK) >= 1
  {
    OnePairValues();
    KindFromValues(Cardset(OP_HAND, OP_DECK, Mask(9)), [9, 2, 10, 4, 9], 9, 2);
    CategoryReached(OP_HAND, OP_DECK, 9, 1);
  }

  /** No value is dealt more than twice, and neither three, five nor jack to
      king is dealt. */
  lemma OnePairValueCount(mask: seq<bool>, x: int)
    requires |mask| == 5
    ensures var c := Cardset(OP_HAND, OP_DECK, mask);
            CountOf(c, x) <= 2 && (CountOf(c, x) > 0 ==> x == 2 || x == 4 || 6 <= x <= 10 || x == 14)
  {
    CardsetValueCount(OP_HAND, OP_DECK, mask, x);
  }

  /** Six clubs are dealt, but TC and 4C are the second and third deck cards:
      no pattern gets five of them. */
  lemma OnePairSuitCount(mask: seq<bool>, x: int)
    requires |mask| == 5
    ensures SuitCount(Cardset(OP_HAND, OP_DECK, mask), x) <= 4
  {
    CardsetSuitCount(OP_HAND, OP_DECK, mask, x);
  }

  /** A second pair of nines needs 9S, the fourth deck card, so only 9C can
      be kept, and the twos then hold only 2H. */
  lemma OnePairPairCounts(mask: seq<bool>, a: int, b: int)
    requires |mask| == 5 && a < b
    ensures var c := Cardset(OP_HAND, OP_DECK, mask);
            !(CountOf(c, a) == 2 && CountOf(c, b) == 2)
  {
    CardsetValueCount(OP_HAND, OP_DECK, mask, a);
    CardsetValueCount(OP_HAND, OP_DECK, mask, b);
    KeptPairBound(OP_HAND, mask, a, b);
  }

  /** Six to ten needs 6C 7C 8C kept and TC, the second deck card, drawn, so
      at most three cards kept, and then the nine can come from neither. */
  lemma OnePairNoRun(mask: seq<bool>)
    requires |mask| == 5
    ensures !RunPresent(Cardset(OP_HAND, OP_DECK, mask), 6)
  {
    var c := Cardset(OP_HAND, OP_DECK, mask);
    if RunPresent(c, 6) {
      CardsetValueCount(OP_HAND, OP_DECK, mask, 6);
      CardsetValueCount(OP_HAND, OP_DECK, mask, 7);
      CardsetValueCount(OP_HAND, OP_DECK, mask, 8);
      CardsetValueCount(OP_HAND, OP_DECK, mask, 9);
      CardsetValueCount(OP_HAND, OP_DECK, mask, 10);
      KeptFourBound(OP_HAND, mask, 6, 7, 8, 9);
    }
  }

  /** So no cardset holds two pairs. */
  lemma OnePairNoTwoPairs(mask: seq<bool>)
    requires |mask| == 5
    ensures !IsTwoPairs(Cardset(OP_HAND, OP_DECK, mask))
  {
    var c := Cardset(OP_HAND, OP_DECK, mask);
    forall a, b | a < b ensures !(CountOf(c, a) == 2 && CountOf(c, b) == 2) {
      OnePairPairCounts(mask, a, b);
    }
    NoTwoPairs(c);
  }

  /** Without three, five and jack, the only run left is six to ten. */
  lemma OnePairNoStraight(c: seq<Card>)
    requires |c| == 5 && !RunPresent(c, 6)
    requires CountOf(c, 3) == 0 && CountOf(c, 5) == 0 && CountOf(c, 11) == 0
    ensures !IsStraight(c)
  {
    forall lo ensures !RunPresent(c, lo) {
      if lo < 2 {
        ValueRange(c, lo);
      } else if lo <= 3 {
        assert CountOf(c, 3) == 0;
      } else if lo <= 5 {
        assert CountOf(c, 5) == 0;
      } else if 6 < lo <= 10 {
        assert CountOf(c, 11) == 0;
      } else if 10 < lo {
        ValueRange(c, lo + 4);
      }
    }
    NoStraight(c);
  }

  /** Five cards with no three of a kind, no five of a suit, no two pairs and
      no straight score at most one pair. */
  lemma OnePairLimit(c: seq<Card>)
    requires |c| == 5 && !IsTwoPairs(c) && !IsStraight(c)
    requires forall x :: CountOf(c, x) <= 2
    requires forall x :: SuitCount(c, x) <= 4
    ensures Score(c) <= 1
  {
    KindsAtMost(c, 2);
    NoFlush(c);
    ScoreAtMost(c, 1);
  }

  lemma OnePairCeiling(mask: seq<bool>)
    requires |mask| == 5
    ensures Score(Cardset(OP_HAND, OP_DECK, mask)) <= 1
  {
    var c := Cardset(OP_HAND, OP_DECK, mask);
    forall x ensures CountOf(c, x) <= 2 {
      OnePairValueCount(mask, x);
    }
    OnePairValueCount(mask, 3);
    OnePairValueCount(mask, 5);
    OnePairValueCount(mask, 11);
    forall x ensures SuitCount(c, x) <= 4 {
      OnePairSuitCount(mask, x);
    }
    OnePairNoTwoPairs(mask);
    OnePairNoRun(mask);
    OnePairNoStraight(c);
    OnePairLimit(c);
  }

  lemma OnePairExact()
    ensures BestScore(OP_HAND, OP_DECK) == 1
  {
    OnePairReached();
    forall i | 1 <= i <= 32 ensures Score(Cardset(OP_HAND, OP_DECK, Mask(i))) <= 1 {
      OnePairCeiling(Mask(i));
    }
    BestAtMost(OP_HAND, OP_DECK, 1);
  }

  lemma OnePairText()
    ensures Answer(1) == "Best hand: one-pairs"
  {
  }

  lemma OnePairDeal()
    ensures BestHand(OP_HAND, OP_DECK) == "Best hand: one-pairs"
  {
    OnePairExact();
    BestHandIs(OP_HAND, OP_DECK, 1);
    OnePairText();
  }

  // ---------------------------------------------------------------------
  // Hand: 3D 5S 2H QD TD  Deck: 6S KH 9H AD QH  Best hand: highest-card

  const HC_HAND: seq<Card> := [Card(3, 2), Card(5, 4), Card(2, 3), Card(12, 2), Card(10, 2)]
  const HC_DECK: seq<Card> := [Card(6, 4), Card(13, 3), Card(9, 3), Card(14, 2), Card(12, 3)]

  /** The queens are QD in the hand and QH, the last deck card, drawn only
      when nothing is kept; every other value is dealt once, and neither four,
      seven, eight nor jack is dealt. */
  lemma HighestCardValueCount(mask: seq<bool>, x: int)
    requires |mask| == 5
    ensures var c := Cardset(HC_HAND, HC_DECK, mask);
            CountOf(c, x) <= 1 && (CountOf(c, x) > 0 ==> 2 <= x <= 3 || 5 <= x <= 6 || 9 <= x <= 10 || 12 <= x <= 14)
  {
    CardsetValueCount(HC_HAND, HC_DECK, mask, x);
  }

  /** Four diamonds and four hearts are dealt, no suit five times. */
  lemma HighestCardSuitCount(mask: seq<bool>, x: int)
    requires |mask| == 5
    ensures SuitCount(Cardset(HC_HAND, HC_DECK, mask), x) <= 4
  {
    CardsetSuitCount(HC_HAND, HC_DECK, mask, x);
  }

  /** Five cards with five different values, no five of a suit and no four,
      seven or jack, so no straight, match no category. */
  lemma HighestCardLimit(c: seq<Card>)
    requires |c| == 5
    requires forall x :: CountOf(c, x) <= 1
    requires CountOf(c, 4) == 0 && CountOf(c, 7) == 0 && CountOf(c, 11) == 0
    requires forall x :: SuitCount(c, x) <= 4
    ensures Score(c) == 0
  {
    KindsAtMost(c, 1);
    NoFlush(c);
    NoStraightBetween(c, 4, 7, 11);
    ScoreAtMost(c, 0);
  }

  lemma HighestCardCeiling(mask: seq<bool>)
    requires |mask| == 5
    ensures Score(Cardset(HC_HAND, HC_DECK, mask)) == 0
  {
    var c := Cardset(HC_HAND, HC_DECK, mask);
    forall x ensures CountOf(c, x) <= 1 {
      HighestCardValueCount(mask, x);
    }
    HighestCardValueCount(mask, 4);
    HighestCardValueCount(mask, 7);
    HighestCardValueCount(mask, 11);
    forall x ensures SuitCount(c, x) <= 4 {
      HighestCardSuitCount(mask, x);
    }
    HighestCardLimit(c);
  }

  lemma HighestCardExact()
    ensures BestScore(HC_HAND, HC_DECK) == 0
  {
    forall i | 1 <= i <= 32 ensures Score(Cardset(HC_HAND, HC_DECK, Mask(i))) <= 0 {
      HighestCardCeiling(Mask(i));
    }
    BestAtMost(HC_HAND, HC_DECK, 0);
  }

  lemma HighestCardAnswer()
    ensures Answer(0) == "Best hand: highest-card"
  {
  }

  lemma HighestCardDeal()
    ensures BestHand(HC_HAND, HC_DECK) == "Best hand: highest-card"
  {
    HighestCardExact();
    BestHandIs(HC_HAND, HC_DECK, 0);
    HighestCardAnswer();
  }
}

/** The best-hand selector `GameManager.get_best_hand`: every cardset is scored
    by the strongest category (8 = straight-flush .. 1 = one pair) whose
    classifier accepts it, and the label of the best score over all 32
    cardsets is reported, or "highest-card" when nothing matched. */
module Evaluator {
  import opened Cards
  import opened Classifiers
  import opened Generator

  /** Entry `k` (1..8) of the `combinations` table: does the classifier of
      category `k` accept `cards`? A list-valued classifier accepts when the
      list is non-empty; a `None` result rejects. */
  predicate Holds(k: int, cards: seq<Card>) {
    if k == 8 then IsStraightFlush(cards)
    else if k == 7 then HasKind(cards, 4)
    else if k == 6 then IsFullHouse(cards)
    else if k == 5 then IsFlush(cards)
    else if k == 4 then IsStraight(cards)
    else if k == 3 then HasKind(cards, 3)
    else if k == 2 then IsTwoPairs(cards)
    else if k == 1 then HasKind(cards, 2)
    else false
  }

  /** The verdict of every table entry on `cards`, indexed by key; index 0
      stands for no category. */
  function Verdicts(cards: seq<Card>): (v: seq<bool>)
    ensures |v| == 9 && !v[0]
  {
    seq(9, k requires 0 <= k < 9 => Holds(k, cards))
  }

  /** The label of category `k` in the `combinations` table. */
  function CategoryName(k: int): (name: string)
    requires 1 <= k <= 8
    ensures name != "highest-card"
  {
    if k == 8 then "straight-flush"
    else if k == 7 then "four-of-a-kind"
    else if k == 6 then "full-house"
    else if k == 5 then "flush"
    else if k == 4 then "straight"
    else if k == 3 then "three-of-a-kind"
    else if k == 2 then "two-pairs"
    else "one-pairs"
  }

  /** The first index among `k`, `k - 1`, .., 1 whose verdict is true, or 0. */
  function StrongestFrom(v: seq<bool>, k: int): (r: int)
    requires 0 <= k < |v|
    ensures 0 <= r <= k
    ensures r > 0 ==> v[r]
    ensures forall j :: r < j <= k ==> !v[j]
    decreases k
  {
    if k == 0 then 0
    else if v[k] then k
    else StrongestFrom(v, k - 1)
  }

  /** The score of one cardset: its strongest category, 0 if none. */
  function Score(cards: seq<Card>): (r: int)
    ensures 0 <= r <= 8
  {
    StrongestFrom(Verdicts(cards), 8)
  }

  /** Entry `k` of the verdicts is the classifier of category `k`. */
  lemma VerdictIs(cards: seq<Card>, k: int)
    requires 0 <= k < 9
    ensures Verdicts(cards)[k] == Holds(k, cards)
  {
  }

  /** The score is a category that accepts the cards, and no stronger one does. */
  lemma ScoreIsStrongest(cards: seq<Card>)
    ensures Score(cards) > 0 ==> Holds(Score(cards), cards)
    ensures forall j :: Score(cards) < j <= 8 ==> !Holds(j, cards)
  {
    var r := Score(cards);
    VerdictIs(cards, r);
    forall j | r < j <= 8 ensures !Holds(j, cards) {
      VerdictIs(cards, j);
    }
  }

  /** The largest of some scores, 0 for none (the best starts at 0). */
  function MaxOf(xs: seq<int>): (r: int)
    ensures 0 <= r
  {
    if |xs| == 0 then 0
    else
      var best := MaxOf(xs[..|xs| - 1]);
      if best < xs[|xs| - 1] then xs[|xs| - 1] else best
  }

  /** `MaxOf` bounds every element and is 0 or one of them. */
  lemma {:induction false} MaxOfBounds(xs: seq<int>)
    ensures forall i :: 0 <= i < |xs| ==> xs[i] <= MaxOf(xs)
    ensures MaxOf(xs) == 0 || exists i :: 0 <= i < |xs| && xs[i] == MaxOf(xs)
  {
    if |xs| > 0 {
      var init := xs[..|xs| - 1];
      MaxOfBounds(init);
      assert forall i :: 0 <= i < |init| ==> init[i] == xs[i];
    }
  }

  /** A common bound of non-negative elements bounds their maximum. */
  lemma MaxOfAtMost(xs: seq<int>, b: int)
    requires 0 <= b
    requires forall i :: 0 <= i < |xs| ==> xs[i] <= b
    ensures MaxOf(xs) <= b
  {
    MaxOfBounds(xs);
  }

  /** The score of each cardset. */
  function Scores(sets: seq<seq<Card>>): (r: seq<int>)
    ensures |r| == |sets|
    ensures forall i :: 0 <= i < |sets| ==> r[i] == Score(sets[i]) && 0 <= r[i] <= 8
  {
    seq(|sets|, i requires 0 <= i < |sets| => Score(sets[i]))
  }

  /** The best score over a list of cardsets, 0 for none. */
  function BestOf(sets: seq<seq<Card>>): (r: int)
    ensures 0 <= r <= 8
  {
    MaxOfAtMost(Scores(sets), 8);
    MaxOf(Scores(sets))
  }

  /** The best score over all 32 cardsets of a deal. */
  function BestScore(hand: seq<Card>, deck: seq<Card>): (r: int)
    requires |hand| == 5 && |deck| >= 5
    ensures 0 <= r <= 8
  {
    BestOf(Cardsets(hand, deck))
  }

  /** The text reported for a best score. */
  function Answer(best: int): (text: string)
    requires 0 <= best <= 8
  {
    if best == 0 then "Best hand: highest-card" else "Best hand: " + CategoryName(best)
  }

  /** The text `get_best_hand` returns for a hand and a deck. */
  function BestHand(hand: seq<Card>, deck: seq<Card>): (text: string)
    requires |hand| == 5 && |deck| >= 5
  {
    Answer(BestScore(hand, deck))
  }

  /** The text follows from the best category alone. */
  lemma BestHandIs(hand: seq<Card>, deck: seq<Card>, k: int)
    requires |hand| == 5 && |deck| >= 5 && 0 <= k <= 8
    requires BestScore(hand, deck) == k
    ensures BestHand(hand, deck) == Answer(k)
  {
  }

  /** The inner loop of `get_best_hand` over the `combinations` table, keys
      8 down to 1, given each entry's verdict on the cardset: take the first
      key whose classifier accepts and that beats `before`, then stop. */
  method RankVerdicts(v: seq<bool>, before: int) returns (best: int)
    requires |v| == 9 && 0 <= before
    ensures best == (if before < StrongestFrom(v, 8) then StrongestFrom(v, 8) else before)
  {
    best := before;
    var k := 8;
    while k >= 1
      invariant 0 <= k <= 8
      invariant best == before
      invariant forall j :: k < j <= 8 ==> !(v[j] && before < j)
    {
      if v[k] && best < k {
        best := k;
        break;
      }
      k := k - 1;
    }
  }

  /** One pass of the inner loop on a cardset: the best so far rises to the
      cardset's score when that is higher. */
  method RankCardset(cards: seq<Card>, before: int) returns (best: int)
    requires 0 <= before
    ensures best == (if before < Score(cards) then Score(cards) else before)
  {
    best := RankVerdicts(Verdicts(cards), before);
  }

  /** Extending a sequence by one element extends its maximum accordingly. */
  lemma MaxOfSnoc(xs: seq<int>, n: int)
    requires 0 <= n < |xs|
    ensures MaxOf(xs[..n + 1]) == (if MaxOf(xs[..n]) < xs[n] then xs[n] else MaxOf(xs[..n]))
  {
    assert xs[..n + 1][..n] == xs[..n];
  }

  /** `get_best_hand` as written, over the cardsets `get_cardsets` stored:
      rank every cardset in turn, keeping the best category found so far,
      then label it. */
  method GetBestHand(sets: seq<seq<Card>>) returns (best: int, text: string)
    ensures best == BestOf(sets)
    ensures text == Answer(best)
  {
    ghost var scores := Scores(sets);
    best := 0;
    var n := 0;
    while n < |sets|
      invariant 0 <= n <= |sets|
      invariant best == MaxOf(scores[..n])
    {
      best := RankCardset(sets[n], best);
      MaxOfSnoc(scores, n);
      n := n + 1;
    }
    assert scores[..n] == scores;
    assert best == BestOf(sets);
    if best == 0 {
      text := "Best hand: highest-card";
    } else {
      text := "Best hand: " + CategoryName(best);
    }
  }

  // ---------------------------------------------------------------------
  // What the selector promises

  /** A cardset scores 0 exactly when no category accepts it. */
  lemma ScoreZeroIff(cards: seq<Card>)
    ensures Score(cards) == 0 <==> forall k :: 1 <= k <= 8 ==> !Holds(k, cards)
  {
    ScoreIsStrongest(cards);
  }

  /** The maximum of non-negative numbers is 0 exactly when all of them are. */
  lemma MaxOfZeroIff(xs: seq<int>)
    requires forall i :: 0 <= i < |xs| ==> 0 <= xs[i]
    ensures MaxOf(xs) == 0 <==> forall i :: 0 <= i < |xs| ==> xs[i] == 0
  {
    MaxOfBounds(xs);
  }

  /** The text names "highest-card" exactly when the best score is 0. */
  lemma HighestCardText(hand: seq<Card>, deck: seq<Card>)
    requires |hand| == 5 && |deck| >= 5
    ensures BestHand(hand, deck) == "Best hand: highest-card" <==> BestScore(hand, deck) == 0
  {
    var best := BestScore(hand, deck);
    if best != 0 {
      CategoryTextNotHighest(best);
    }
  }

  /** No category label makes the text of a highest-card answer. */
  lemma CategoryTextNotHighest(k: int)
    requires 1 <= k <= 8
    ensures "Best hand: " + CategoryName(k) != "Best hand: highest-card"
  {
    assert ("Best hand: " + CategoryName(k))[11..] == CategoryName(k);
    assert "Best hand: highest-card"[11..] == "highest-card";
  }

  /** The answer is "highest-card" exactly when no category accepts any cardset. */
  lemma HighestCardIff(hand: seq<Card>, deck: seq<Card>)
    requires |hand| == 5 && |deck| >= 5
    ensures BestHand(hand, deck) == "Best hand: highest-card" <==>
              forall i, k :: 0 <= i < 32 && 1 <= k <= 8 ==> !Holds(k, Cardsets(hand, deck)[i])
  {
    HighestCardText(hand, deck);
    var sets := Cardsets(hand, deck);
    var scores := Scores(sets);
    MaxOfZeroIff(scores);
    forall i | 0 <= i < 32
      ensures scores[i] == 0 <==> forall k :: 1 <= k <= 8 ==> !Holds(k, sets[i])
    {
      ScoreZeroIff(sets[i]);
    }
  }

  /** Distinct categories have distinct labels, so the label names the score. */
  lemma CategoryNamesDistinct(j: int, k: int)
    requires 1 <= j <= 8 && 1 <= k <= 8 && j != k
    ensures CategoryName(j) != CategoryName(k)
  {
  }

  /** Reordering the cards never changes their score. */
  lemma ScorePermutationInvariant(a: seq<Card>, b: seq<Card>)
    requires multiset(a) == multiset(b)
    ensures Score(a) == Score(b)
  {
    forall k | 0 <= k < 9 ensures Verdicts(a)[k] == Verdicts(b)[k] {
      HoldsPermutationInvariant(a, b, k);
    }
    assert Verdicts(a) == Verdicts(b);
  }

  /** Reordering the cards never changes what one table entry says. */
  lemma HoldsPermutationInvariant(a: seq<Card>, b: seq<Card>, k: int)
    requires multiset(a) == multiset(b)
    ensures Holds(k, a) == Holds(k, b)
  {
    ClassifiersPermutationInvariant(a, b);
    if k == 8 {
      assert IsStraightFlush(a) == IsStraightFlush(b);
    } else if k == 7 {
      assert Identical(a, 4) == Identical(b, 4);
    } else if k == 6 {
      assert Identical(a, 2) == Identical(b, 2);
      assert Identical(a, 3) == Identical(b, 3);
    } else if k == 3 {
      assert Identical(a, 3) == Identical(b, 3);
    } else if k == 2 || k == 1 {
      assert Identical(a, 2) == Identical(b, 2);
    }
  }

  lemma ReverseMultiset<T>(s: seq<T>)
    ensures multiset(Reverse(s)) == multiset(s)
    decreases |s|
  {
    if |s| > 0 {
      var r := Reverse(s);
      assert r == Reverse(s[1..]) + [s[0]];
      ReverseMultiset(s[1..]);
      assert s == [s[0]] + s[1..];
    }
  }

  /** The best score is a category that accepts one of the cardsets, and no
      stronger category accepts any of them. */
  lemma BestOfIsStrongest(sets: seq<seq<Card>>)
    ensures BestOf(sets) > 0 ==> exists i :: 0 <= i < |sets| && Holds(BestOf(sets), sets[i])
    ensures forall i, k :: 0 <= i < |sets| && BestOf(sets) < k <= 8 ==> !Holds(k, sets[i])
  {
    var scores := Scores(sets);
    var best := BestOf(sets);
    MaxOfBounds(scores);
    if best > 0 {
      var i :| 0 <= i < |scores| && scores[i] == best;
      ScoreIsStrongest(sets[i]);
    }
    forall i, k | 0 <= i < |sets| && best < k <= 8 ensures !Holds(k, sets[i]) {
      ScoreIsStrongest(sets[i]);
    }
  }

  /** A category that accepts the cardset of any pattern bounds the answer
      from below. */
  lemma CategoryReached(hand: seq<Card>, deck: seq<Card>, i: int, k: int)
    requires |hand| == 5 && |deck| >= 5 && 1 <= i <= 32 && 1 <= k <= 8
    requires Holds(k, Cardset(hand, deck, Mask(i)))
    ensures BestScore(hand, deck) >= k
  {
    var sets := Cardsets(hand, deck);
    ScoreIsStrongest(sets[i - 1]);
    MaxOfBounds(Scores(sets));
    assert Scores(sets)[i - 1] == Score(sets[i - 1]);
  }

  /** Keeping the whole hand is one of the patterns, so the answer is never
      weaker than the hand as dealt. */
  lemma BestAtLeastHand(hand: seq<Card>, deck: seq<Card>)
    requires |hand| == 5 && |deck| >= 5
    ensures BestScore(hand, deck) >= Score(hand)
  {
    MaxOfBounds(Scores(Cardsets(hand, deck)));
    assert Scores(Cardsets(hand, deck))[31] == Score(Cardsets(hand, deck)[31]);
    LastPatternIsReversedHand(hand, deck);
    ReverseMultiset(hand);
    ScorePermutationInvariant(Reverse(hand), hand);
  }
}

/** The cardset generator `GameManager.get_cardsets`: 32 keep/replace patterns
    over the five hand positions. Pattern `i` (1..32) keeps some hand cards,
    appended from `hand[4]` down to `hand[0]`, and fills the remaining slots
    with `deck[0]`, `deck[1]`, ... in that order. */
module Generator {
  import opened Cards

  /** Which hand positions pattern `i` keeps: `Mask(i)[p]` holds when `hand[p]`
      is kept (the five conditions at lines 145-154, listed by position). */
  function Mask(i: int): (m: seq<bool>)
    ensures |m| == 5
  {
    [i > 16, (8 <= i < 16) || i > 24, i % 8 > 4 || i % 8 == 0, i % 4 == 0 || i % 4 == 3, i % 2 == 0]
  }

  /** The positions `p`..0 set in `mask`, highest position first. */
  function KeptFrom(mask: seq<bool>, p: int): (r: seq<int>)
    requires -1 <= p < |mask|
    ensures |r| <= p + 1
    ensures forall k :: 0 <= k < |r| ==> 0 <= r[k] <= p
    decreases p
  {
    if p < 0 then []
    else (if mask[p] then [p] else []) + KeptFrom(mask, p - 1)
  }

  /** `KeptFrom` lists exactly the set positions, each once, highest first. */
  lemma {:induction false} KeptFromExact(mask: seq<bool>, p: int)
    requires -1 <= p < |mask|
    ensures forall j, k :: 0 <= j < k < |KeptFrom(mask, p)| ==> KeptFrom(mask, p)[j] > KeptFrom(mask, p)[k]
    ensures forall x :: x in KeptFrom(mask, p) <==> 0 <= x <= p && mask[x]
    decreases p
  {
    if p >= 0 {
      KeptFromExact(mask, p - 1);
    }
  }

  /** The hand cards at the given positions, in that order. */
  function Pick(hand: seq<Card>, idx: seq<int>): (r: seq<Card>)
    requires forall k :: 0 <= k < |idx| ==> 0 <= idx[k] < |hand|
    ensures |r| == |idx|
    ensures forall j :: 0 <= j < |idx| ==> r[j] == hand[idx[j]]
  {
    seq(|idx|, j requires 0 <= j < |idx| => hand[idx[j]])
  }

  /** The cardset for keep-mask `mask`: the kept hand cards from `hand[4]` down
      to `hand[0]`, then as many deck cards as needed, from `deck[0]` on. */
  function Cardset(hand: seq<Card>, deck: seq<Card>, mask: seq<bool>): (r: seq<Card>)
    requires |hand| == 5 && |deck| >= 5 && |mask| == 5
    ensures |r| == 5
    ensures var idx := KeptFrom(mask, 4);
              r[..|idx|] == Pick(hand, idx) && r[|idx|..] == deck[..5 - |idx|]
  {
    var idx := KeptFrom(mask, 4);
    Pick(hand, idx) + deck[..5 - |idx|]
  }

  /** `get_cardsets`: the 32 cardsets, pattern 1 first. */
  function Cardsets(hand: seq<Card>, deck: seq<Card>): (r: seq<seq<Card>>)
    requires |hand| == 5 && |deck| >= 5
    ensures |r| == 32
    ensures forall k :: 0 <= k < 32 ==> r[k] == Cardset(hand, deck, Mask(k + 1))
  {
    seq(32, k requires 0 <= k < 32 => Cardset(hand, deck, Mask(k + 1)))
  }

  // ---------------------------------------------------------------------
  // The 32 patterns are the 32 subsets of the hand positions

  /** Reads a five-position mask as a binary number, position 0 as the high bit. */
  function MaskValue(m: seq<bool>): (n: nat)
    requires |m| == 5
    ensures n < 32
  {
    (if m[0] then 16 else 0) + (if m[1] then 8 else 0) + (if m[2] then 4 else 0) +
    (if m[3] then 2 else 0) + (if m[4] then 1 else 0)
  }

  /** Exchanges 8 and 16, fixes every other pattern number. */
  function Swap(i: int): (j: int) {
    if i == 8 then 16 else if i == 16 then 8 else i
  }

  /** Pattern `i` keeps the positions of the binary digits of `i - 1`, except
      that patterns 8 and 16 are exchanged. */
  lemma PatternIsSwappedBinary(i: int)
    requires 1 <= i <= 32
    ensures MaskValue(Mask(i)) == Swap(i) - 1
  {
  }

  /** No two patterns keep the same positions. */
  lemma PatternsDistinct(i: int, j: int)
    requires 1 <= i <= 32 && 1 <= j <= 32 && i != j
    ensures Mask(i) != Mask(j)
  {
    PatternIsSwappedBinary(i);
    PatternIsSwappedBinary(j);
  }

  /** Every choice of positions to keep is made by some pattern. */
  lemma PatternsCover(m: seq<bool>)
    requires |m| == 5
    ensures exists i :: 1 <= i <= 32 && Mask(i) == m
  {
    var i := Swap(MaskValue(m) + 1);
    assert Mask(i) == m;
  }

  // ---------------------------------------------------------------------
  // What the cardsets contain

  function Reverse<T>(s: seq<T>): (r: seq<T>)
    ensures |r| == |s|
    ensures forall k :: 0 <= k < |s| ==> r[k] == s[|s| - 1 - k]
  {
    seq(|s|, k requires 0 <= k < |s| => s[|s| - 1 - k])
  }

  /** Pattern 1 replaces every hand card: it is the first five deck cards. */
  lemma FirstPatternIsDeck(hand: seq<Card>, deck: seq<Card>)
    requires |hand| == 5 && |deck| >= 5
    ensures Cardsets(hand, deck)[0] == deck[..5]
  {
    var none := [false, false, false, false, false];
    assert Mask(1) == none;
    assert KeptFrom(none, 4) == [];
  }

  /** Pattern 32 keeps every hand card: it is the hand, last card first. */
  lemma LastPatternIsReversedHand(hand: seq<Card>, deck: seq<Card>)
    requires |hand| == 5 && |deck| >= 5
    ensures Cardsets(hand, deck)[31] == Reverse(hand)
  {
    var all := [true, true, true, true, true];
    assert Mask(32) == all;
    assert KeptFrom(all, 4) == [4, 3, 2, 1, 0];
    var r := Cardset(hand, deck, all);
    assert r == Pick(hand, [4, 3, 2, 1, 0]) + deck[..0];
    forall k | 0 <= k < 5 ensures r[k] == Reverse(hand)[k] {
    }
  }

  /** No card occurs twice. */
  predicate NoDuplicates<T(==)>(s: seq<T>) {
    forall j, k :: 0 <= j < |s| && 0 <= k < |s| && j != k ==> s[j] != s[k]
  }

  /** Where each card of a cardset sits in the deal `hand + deck[..5]`. */
  lemma CardsetPositions(hand: seq<Card>, deck: seq<Card>, mask: seq<bool>)
    requires |hand| == 5 && |deck| >= 5 && |mask| == 5
    ensures forall j :: 0 <= j < 5 ==> Cardset(hand, deck, mask)[j] == (hand + deck[..5])[DealPosition(mask, j)]
  {
    var r := Cardset(hand, deck, mask);
    var idx := KeptFrom(mask, 4);
    var n := |idx|;
    var deal := hand + deck[..5];
    forall j | 0 <= j < n ensures r[j] == deal[idx[j]] {
      assert r[..n][j] == r[j];
    }
    forall j | n <= j < 5 ensures r[j] == deal[5 + j - n] {
      assert r[n..][j - n] == r[j];
    }
  }

  /** A cardset is drawn from the hand and the first five deck cards. */
  lemma CardsetDrawsFromDeal(hand: seq<Card>, deck: seq<Card>, mask: seq<bool>)
    requires |hand| == 5 && |deck| >= 5 && |mask| == 5
    ensures forall c :: c in Cardset(hand, deck, mask) ==> c in hand || c in deck[..5]
  {
    var r := Cardset(hand, deck, mask);
    var deal := hand + deck[..5];
    CardsetPositions(hand, deck, mask);
    forall c | c in r ensures c in hand || c in deck[..5] {
      var j :| 0 <= j < 5 && r[j] == c;
      var at := DealPosition(mask, j);
      if at < 5 {
        assert c == hand[at];
      } else {
        assert c == deck[..5][at - 5];
      }
    }
  }

  /** When the ten cards of the deal are all different, no cardset repeats a card. */
  lemma CardsetNoRepeats(hand: seq<Card>, deck: seq<Card>, mask: seq<bool>)
    requires |hand| == 5 && |deck| >= 5 && |mask| == 5
    requires NoDuplicates(hand + deck[..5])
    ensures NoDuplicates(Cardset(hand, deck, mask))
  {
    var r := Cardset(hand, deck, mask);
    var deal := hand + deck[..5];
    CardsetPositions(hand, deck, mask);
    forall a, b | 0 <= a < 5 && 0 <= b < 5 && a != b ensures r[a] != r[b] {
      DealPositionsDistinct(mask, a, b);
      assert r[a] == deal[DealPosition(mask, a)] && r[b] == deal[DealPosition(mask, b)];
    }
  }

  /** Different places of a cardset come from different places of the deal. */
  lemma DealPositionsDistinct(mask: seq<bool>, a: int, b: int)
    requires |mask| == 5 && 0 <= a < 5 && 0 <= b < 5 && a != b
    ensures DealPosition(mask, a) != DealPosition(mask, b)
  {
    KeptFromExact(mask, 4);
  }

  /** The position in `hand + deck[..5]` of card `j` of the cardset for `mask`. */
  function DealPosition(mask: seq<bool>, j: int): (at: int)
    requires |mask| == 5 && 0 <= j < 5
    ensures 0 <= at < 10
  {
    var idx := KeptFrom(mask, 4);
    if j < |idx| then idx[j] else 5 + j - |idx|
  }

  /** Every one of the 32 cardsets is drawn from the deal without repeats. */
  lemma CardsetsDrawFromDeal(hand: seq<Card>, deck: seq<Card>)
    requires |hand| == 5 && |deck| >= 5
    ensures forall k, c :: 0 <= k < 32 && c in Cardsets(hand, deck)[k] ==> c in hand || c in deck[..5]
    ensures NoDuplicates(hand + deck[..5]) ==>
              forall k :: 0 <= k < 32 ==> NoDuplicates(Cardsets(hand, deck)[k])
  {
    var sets := Cardsets(hand, deck);
    forall k | 0 <= k < 32
      ensures forall c :: c in sets[k] ==> c in hand || c in deck[..5]
      ensures NoDuplicates(hand + deck[..5]) ==> NoDuplicates(sets[k])
    {
      CardsetDrawsFromDeal(hand, deck, Mask(k + 1));
      if NoDuplicates(hand + deck[..5]) {
        CardsetNoRepeats(hand, deck, Mask(k + 1));
      }
    }
  }

  // ---------------------------------------------------------------------
  // The generator as written: appends, then a reversed deck copy popped from the end

  /** Lines 155-157: copy the deck reversed, then pop from the end until five
      cards are held; the pops yield `deck[0]`, `deck[1]`, ... */
  method FillFromDeck(kept: seq<Card>, deck: seq<Card>) returns (cards: seq<Card>)
    requires |kept| <= 5 && |deck| >= 5 - |kept|
    ensures |cards| == 5
    ensures cards[..|kept|] == kept
    ensures cards[|kept|..] == deck[..5 - |kept|]
  {
    var pool := Reverse(deck);
    cards := kept;
    while |cards| < 5
      invariant |kept| <= |cards| <= 5
      invariant cards == kept + deck[..|cards| - |kept|]
      invariant pool == Reverse(deck[|cards| - |kept|..])
    {
      var taken := |cards| - |kept|;
      assert pool[|pool| - 1] == deck[taken];
      cards := cards + [pool[|pool| - 1]];
      pool := pool[..|pool| - 1];
    }
  }

  /** The one-element list holding `x` when `b` holds, otherwise empty. */
  function Opt<T>(b: bool, x: T): (r: seq<T>)
    ensures |r| == (if b then 1 else 0)
  {
    if b then [x] else []
  }

  lemma PickAppend(hand: seq<Card>, a: seq<int>, b: seq<int>)
    requires forall k :: 0 <= k < |a| ==> 0 <= a[k] < |hand|
    requires forall k :: 0 <= k < |b| ==> 0 <= b[k] < |hand|
    ensures Pick(hand, a + b) == Pick(hand, a) + Pick(hand, b)
  {
  }

  /** One step of `KeptFrom`, read through `Pick`. */
  lemma PickKeptStep(hand: seq<Card>, mask: seq<bool>, p: int)
    requires |hand| == 5 && |mask| == 5 && 0 <= p < 5
    ensures Pick(hand, KeptFrom(mask, p)) == Opt(mask[p], hand[p]) + Pick(hand, KeptFrom(mask, p - 1))
  {
    PickAppend(hand, Opt(mask[p], p), KeptFrom(mask, p - 1));
    assert Pick(hand, Opt(mask[p], p)) == Opt(mask[p], hand[p]);
  }

  /** Regrouping five concatenated lists. */
  lemma Regroup<T>(a: seq<T>, b: seq<T>, c: seq<T>, d: seq<T>, e: seq<T>)
    ensures a + b + c + d + e == a + (b + (c + (d + e)))
  {
  }

  /** The hand cards of the positions `p`..0 set in `mask`, highest first,
      one position at a time. */
  function KeptCardsDown(hand: seq<Card>, mask: seq<bool>, p: int): (cards: seq<Card>)
    requires |hand| == 5 && |mask| == 5 && -1 <= p < 5
    decreases p
  {
    if p < 0 then [] else Opt(mask[p], hand[p]) + KeptCardsDown(hand, mask, p - 1)
  }

  lemma {:induction false} PickKeptDown(hand: seq<Card>, mask: seq<bool>, p: int)
    requires |hand| == 5 && |mask| == 5 && -1 <= p < 5
    ensures Pick(hand, KeptFrom(mask, p)) == KeptCardsDown(hand, mask, p)
    decreases p
  {
    if p >= 0 {
      PickKeptStep(hand, mask, p);
      PickKeptDown(hand, mask, p - 1);
    }
  }

  /** The kept cards are the hand cards of the set positions, taken from
      position 4 down to position 0. */
  lemma PickKept(hand: seq<Card>, mask: seq<bool>)
    requires |hand| == 5 && |mask| == 5
    ensures Pick(hand, KeptFrom(mask, 4)) ==
              Opt(mask[4], hand[4]) + Opt(mask[3], hand[3]) + Opt(mask[2], hand[2]) +
              Opt(mask[1], hand[1]) + Opt(mask[0], hand[0])
  {
    var o4, o3, o2, o1, o0 := Opt(mask[4], hand[4]), Opt(mask[3], hand[3]), Opt(mask[2], hand[2]),
                              Opt(mask[1], hand[1]), Opt(mask[0], hand[0]);
    PickKeptDown(hand, mask, 4);
    assert KeptCardsDown(hand, mask, 0) == o0;
    Regroup(o4, o3, o2, o1, o0);
  }

  /** The five conditional appends of lines 145-154, in source order. */
  method KeepCards(hand: seq<Card>, i: int) returns (cards: seq<Card>)
    requires |hand| == 5 && 1 <= i <= 32
    ensures cards == Pick(hand, KeptFrom(Mask(i), 4))
  {
    ghost var m := Mask(i);
    cards := [];
    if i % 2 == 0 {
      cards := cards + [hand[4]];
    }
    assert cards == Opt(m[4], hand[4]);
    if i % 4 == 0 || i % 4 == 3 {
      cards := cards + [hand[3]];
    }
    assert cards == Opt(m[4], hand[4]) + Opt(m[3], hand[3]);
    if i % 8 > 4 || i % 8 == 0 {
      cards := cards + [hand[2]];
    }
    assert cards == Opt(m[4], hand[4]) + Opt(m[3], hand[3]) + Opt(m[2], hand[2]);
    if (8 <= i < 16) || i > 24 {
      cards := cards + [hand[1]];
    }
    assert cards == Opt(m[4], hand[4]) + Opt(m[3], hand[3]) + Opt(m[2], hand[2]) + Opt(m[1], hand[1]);
    if i > 16 {
      cards := cards + [hand[0]];
    }
    PickKept(hand, m);
  }

  /** `get_cardsets` as written (lines 142-159): for `i` from 1 to 32, append
      the kept hand cards, `hand[4]` first, then fill from a reversed copy of
      the deck. It builds exactly the 32 cardsets. */
  method GetCardsets(hand: seq<Card>, deck: seq<Card>) returns (cardset: seq<seq<Card>>)
    requires |hand| == 5 && |deck| >= 5
    ensures cardset == Cardsets(hand, deck)
  {
    cardset := [];
    var i := 1;
    while i < 33
      invariant 1 <= i <= 33
      invariant |cardset| == i - 1
      invariant forall k :: 0 <= k < i - 1 ==> cardset[k] == Cardset(hand, deck, Mask(k + 1))
    {
      var cards := KeepCards(hand, i);
      cards := FillFromDeck(cards, deck);
      assert cards == Cardset(hand, deck, Mask(i)) by {
        assert cards == cards[..|KeptFrom(Mask(i), 4)|] + cards[|KeptFrom(Mask(i), 4)|..];
      }
      cardset := cardset + [cards];
      i := i + 1;
    }
  }
}

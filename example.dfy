/**
 * The worked example of the puzzle: five hands and their bids, whose
 * rank-weighted bids add up to 5905 once J is a wildcard.
 */
module Example {
  import opened Cards
  import opened Sorting
  import opened Classifier
  import opened Ordering
  import opened Ranking

  /** The example's lines, each a hand and its bid. */
  const EXAMPLE: seq<(Cards, int)> :=
    [("32T3K", 765), ("T55J5", 684), ("KK677", 28), ("KTJJT", 220), ("QQQJA", 483)]

  /**
   * The category of any arrangement of the cards of a bag m, from the number c
   * of cards of each non-joker label in m: it is that of the partition g whose
   * parts occur as often as the nonzero counts do.
   */
  lemma {:induction false} CategoryFromCounts(h: Cards, m: multiset<Card>, c: seq<int>, g: seq<int>, cat: int)
    requires multiset(h) == m && |c| == 12
    requires forall i :: 0 <= i < 12 ==> m[NON_JOKERS[i]] == c[i]
    requires IsPartition(g, 5 - m[JOKER])
    requires forall x :: x > 0 ==> multiset(c)[x] == multiset(g)[x]
    requires DocCategory(WithJokers(g, m[JOKER])) == cat
    ensures Category(h) == cat
  {
    GroupsAsCounts(h, NON_JOKERS, c);
    assert multiset(NonZero(c)) == multiset(g) by {
      forall x ensures multiset(NonZero(c))[x] == multiset(g)[x] {
        if x > 0 {
          NonZeroMultiplicity(c, x);
        } else {
          if x in NonZero(c) {
            NonZeroPositive(c, x);
          }
          assert x !in g;
        }
      }
    }
    SortDescUnique(NonZero(c), g);
  }

  /** How many cards of each non-joker label 32T3K holds. */
  lemma {:induction false} BagOf32T3K()
    ensures forall i :: 0 <= i < 12 ==> multiset{'3', '2', 'T', '3', 'K'}[NON_JOKERS[i]] == [0, 1, 0, 1, 0, 0, 0, 0, 0, 0, 2, 1][i]
  {
    forall i | 0 <= i < 12 ensures multiset{'3', '2', 'T', '3', 'K'}[NON_JOKERS[i]] == [0, 1, 0, 1, 0, 0, 0, 0, 0, 0, 2, 1][i] {
      assert NON_JOKERS == ['A', 'K', 'Q', 'T', '9', '8', '7', '6', '5', '4', '3', '2'];
      // one case per label: with i fixed, the lookup of that label in the multiset display is evaluated
      if i == 0 { }
      else if i == 1 { }
      else if i == 2 { }
      else if i == 3 { }
      else if i == 4 { }
      else if i == 5 { }
      else if i == 6 { }
      else if i == 7 { }
      else if i == 8 { }
      else if i == 9 { }
      else if i == 10 { }
      else if i == 11 { }
    }
  }

  /** The nonzero counts of 32T3K are the parts of [2, 1, 1, 1]. */
  lemma {:induction false} PartsOf32T3K(x: int)
    requires x > 0
    ensures multiset([0, 1, 0, 1, 0, 0, 0, 0, 0, 0, 2, 1])[x] == multiset([2, 1, 1, 1])[x]
  {
  }

  /** The shape of 32T3K and its category once its 0 joker(s) join the largest group. */
  lemma {:induction false} ShapeOf32T3K()
    ensures IsPartition([2, 1, 1, 1], 5) && DocCategory(WithJokers([2, 1, 1, 1], 0)) == 5
  {
  }

  /** Any arrangement of 32T3K is one pair. */
  lemma {:induction false} CategoryOf32T3K(h: Cards)
    requires multiset(h) == multiset{'3', '2', 'T', '3', 'K'}
    ensures Category(h) == 5
  {
    BagOf32T3K();
    forall x | x > 0 ensures multiset([0, 1, 0, 1, 0, 0, 0, 0, 0, 0, 2, 1])[x] == multiset([2, 1, 1, 1])[x] {
      PartsOf32T3K(x);
    }
    ShapeOf32T3K();
    CategoryFromCounts(h, multiset{'3', '2', 'T', '3', 'K'}, [0, 1, 0, 1, 0, 0, 0, 0, 0, 0, 2, 1], [2, 1, 1, 1], 5);
  }

  /** How many cards of each non-joker label T55J5 holds. */
  lemma {:induction false} BagOfT55J5()
    ensures forall i :: 0 <= i < 12 ==> multiset{'T', '5', '5', 'J', '5'}[NON_JOKERS[i]] == [0, 0, 0, 1, 0, 0, 0, 0, 3, 0, 0, 0][i]
  {
    forall i | 0 <= i < 12 ensures multiset{'T', '5', '5', 'J', '5'}[NON_JOKERS[i]] == [0, 0, 0, 1, 0, 0, 0, 0, 3, 0, 0, 0][i] {
      assert NON_JOKERS == ['A', 'K', 'Q', 'T', '9', '8', '7', '6', '5', '4', '3', '2'];
      // one case per label: with i fixed, the lookup of that label in the multiset display is evaluated
      if i == 0 { }
      else if i == 1 { }
      else if i == 2 { }
      else if i == 3 { }
      else if i == 4 { }
      else if i == 5 { }
      else if i == 6 { }
      else if i == 7 { }
      else if i == 8 { }
      else if i == 9 { }
      else if i == 10 { }
      else if i == 11 { }
    }
  }

  /** The nonzero counts of T55J5 are the parts of [3, 1]. */
  lemma {:induction false} PartsOfT55J5(x: int)
    requires x > 0
    ensures multiset([0, 0, 0, 1, 0, 0, 0, 0, 3, 0, 0, 0])[x] == multiset([3, 1])[x]
  {
  }

  /** The shape of T55J5 and its category once its 1 joker(s) join the largest group. */
  lemma {:induction false} ShapeOfT55J5()
    ensures IsPartition([3, 1], 4) && DocCategory(WithJokers([3, 1], 1)) == 1
  {
  }

  /** Any arrangement of T55J5 is three fives and a joker: four of a kind. */
  lemma {:induction false} CategoryOfT55J5(h: Cards)
    requires multiset(h) == multiset{'T', '5', '5', 'J', '5'}
    ensures Category(h) == 1
  {
    BagOfT55J5();
    forall x | x > 0 ensures multiset([0, 0, 0, 1, 0, 0, 0, 0, 3, 0, 0, 0])[x] == multiset([3, 1])[x] {
      PartsOfT55J5(x);
    }
    ShapeOfT55J5();
    CategoryFromCounts(h, multiset{'T', '5', '5', 'J', '5'}, [0, 0, 0, 1, 0, 0, 0, 0, 3, 0, 0, 0], [3, 1], 1);
  }

  /** How many cards of each non-joker label KK677 holds. */
  lemma {:induction false} BagOfKK677()
    ensures forall i :: 0 <= i < 12 ==> multiset{'K', 'K', '6', '7', '7'}[NON_JOKERS[i]] == [0, 2, 0, 0, 0, 0, 2, 1, 0, 0, 0, 0][i]
  {
    forall i | 0 <= i < 12 ensures multiset{'K', 'K', '6', '7', '7'}[NON_JOKERS[i]] == [0, 2, 0, 0, 0, 0, 2, 1, 0, 0, 0, 0][i] {
      assert NON_JOKERS == ['A', 'K', 'Q', 'T', '9', '8', '7', '6', '5', '4', '3', '2'];
      // one case per label: with i fixed, the lookup of that label in the multiset display is evaluated
      if i == 0 { }
      else if i == 1 { }
      else if i == 2 { }
      else if i == 3 { }
      else if i == 4 { }
      else if i == 5 { }
      else if i == 6 { }
      else if i == 7 { }
      else if i == 8 { }
      else if i == 9 { }
      else if i == 10 { }
      else if i == 11 { }
    }
  }

  /** The nonzero counts of KK677 are the parts of [2, 2, 1]. */
  lemma {:induction false} PartsOfKK677(x: int)
    requires x > 0
    ensures multiset([0, 2, 0, 0, 0, 0, 2, 1, 0, 0, 0, 0])[x] == multiset([2, 2, 1])[x]
  {
  }

  /** The shape of KK677 and its category once its 0 joker(s) join the largest group. */
  lemma {:induction false} ShapeOfKK677()
    ensures IsPartition([2, 2, 1], 5) && DocCategory(WithJokers([2, 2, 1], 0)) == 4
  {
  }

  /** Any arrangement of KK677 is two pair. */
  lemma {:induction false} CategoryOfKK677(h: Cards)
    requires multiset(h) == multiset{'K', 'K', '6', '7', '7'}
    ensures Category(h) == 4
  {
    BagOfKK677();
    forall x | x > 0 ensures multiset([0, 2, 0, 0, 0, 0, 2, 1, 0, 0, 0, 0])[x] == multiset([2, 2, 1])[x] {
      PartsOfKK677(x);
    }
    ShapeOfKK677();
    CategoryFromCounts(h, multiset{'K', 'K', '6', '7', '7'}, [0, 2, 0, 0, 0, 0, 2, 1, 0, 0, 0, 0], [2, 2, 1], 4);
  }

  /** How many cards of each non-joker label KTJJT holds. */
  lemma {:induction false} BagOfKTJJT()
    ensures forall i :: 0 <= i < 12 ==> multiset{'K', 'T', 'J', 'J', 'T'}[NON_JOKERS[i]] == [0, 1, 0, 2, 0, 0, 0, 0, 0, 0, 0, 0][i]
  {
    forall i | 0 <= i < 12 ensures multiset{'K', 'T', 'J', 'J', 'T'}[NON_JOKERS[i]] == [0, 1, 0, 2, 0, 0, 0, 0, 0, 0, 0, 0][i] {
      assert NON_JOKERS == ['A', 'K', 'Q', 'T', '9', '8', '7', '6', '5', '4', '3', '2'];
      // one case per label: with i fixed, the lookup of that label in the multiset display is evaluated
      if i == 0 { }
      else if i == 1 { }
      else if i == 2 { }
      else if i == 3 { }
      else if i == 4 { }
      else if i == 5 { }
      else if i == 6 { }
      else if i == 7 { }
      else if i == 8 { }
      else if i == 9 { }
      else if i == 10 { }
      else if i == 11 { }
    }
  }

  /** The nonzero counts of KTJJT are the parts of [2, 1]. */
  lemma {:induction false} PartsOfKTJJT(x: int)
    requires x > 0
    ensures multiset([0, 1, 0, 2, 0, 0, 0, 0, 0, 0, 0, 0])[x] == multiset([2, 1])[x]
  {
  }

  /** The shape of KTJJT and its category once its 2 joker(s) join the largest group. */
  lemma {:induction false} ShapeOfKTJJT()
    ensures IsPartition([2, 1], 3) && DocCategory(WithJokers([2, 1], 2)) == 1
  {
  }

  /** Any arrangement of KTJJT is a pair of tens and two jokers: four of a kind. */
  lemma {:induction false} CategoryOfKTJJT(h: Cards)
    requires multiset(h) == multiset{'K', 'T', 'J', 'J', 'T'}
    ensures Category(h) == 1
  {
    BagOfKTJJT();
    forall x | x > 0 ensures multiset([0, 1, 0, 2, 0, 0, 0, 0, 0, 0, 0, 0])[x] == multiset([2, 1])[x] {
      PartsOfKTJJT(x);
    }
    ShapeOfKTJJT();
    CategoryFromCounts(h, multiset{'K', 'T', 'J', 'J', 'T'}, [0, 1, 0, 2, 0, 0, 0, 0, 0, 0, 0, 0], [2, 1], 1);
  }

  /** How many cards of each non-joker label QQQJA holds. */
  lemma {:induction false} BagOfQQQJA()
    ensures forall i :: 0 <= i < 12 ==> multiset{'Q', 'Q', 'Q', 'J', 'A'}[NON_JOKERS[i]] == [1, 0, 3, 0, 0, 0, 0, 0, 0, 0, 0, 0][i]
  {
    forall i | 0 <= i < 12 ensures multiset{'Q', 'Q', 'Q', 'J', 'A'}[NON_JOKERS[i]] == [1, 0, 3, 0, 0, 0, 0, 0, 0, 0, 0, 0][i] {
      assert NON_JOKERS == ['A', 'K', 'Q', 'T', '9', '8', '7', '6', '5', '4', '3', '2'];
      // one case per label: with i fixed, the lookup of that label in the multiset display is evaluated
      if i == 0 { }
      else if i == 1 { }
      else if i == 2 { }
      else if i == 3 { }
      else if i == 4 { }
      else if i == 5 { }
      else if i == 6 { }
      else if i == 7 { }
      else if i == 8 { }
      else if i == 9 { }
      else if i == 10 { }
      else if i == 11 { }
    }
  }

  /** The nonzero counts of QQQJA are the parts of [3, 1]. */
  lemma {:induction false} PartsOfQQQJA(x: int)
    requires x > 0
    ensures multiset([1, 0, 3, 0, 0, 0, 0, 0, 0, 0, 0, 0])[x] == multiset([3, 1])[x]
  {
  }

  /** The shape of QQQJA and its category once its 1 joker(s) join the largest group. */
  lemma {:induction false} ShapeOfQQQJA()
    ensures IsPartition([3, 1], 4) && DocCategory(WithJokers([3, 1], 1)) == 1
  {
  }

  /** Any arrangement of QQQJA is three queens and a joker: four of a kind. */
  lemma {:induction false} CategoryOfQQQJA(h: Cards)
    requires multiset(h) == multiset{'Q', 'Q', 'Q', 'J', 'A'}
    ensures Category(h) == 1
  {
    BagOfQQQJA();
    forall x | x > 0 ensures multiset([1, 0, 3, 0, 0, 0, 0, 0, 0, 0, 0, 0])[x] == multiset([3, 1])[x] {
      PartsOfQQQJA(x);
    }
    ShapeOfQQQJA();
    CategoryFromCounts(h, multiset{'Q', 'Q', 'Q', 'J', 'A'}, [1, 0, 3, 0, 0, 0, 0, 0, 0, 0, 0, 0], [3, 1], 1);
  }

  /** The example's hands are one pair, four of a kind, two pair, four and four of a kind. */
  lemma {:induction false} ExampleStrengths(input: seq<(Cards, int)>)
    requires |input| == 5
    requires multiset(input[0].0) == multiset{'3', '2', 'T', '3', 'K'}
    requires multiset(input[1].0) == multiset{'T', '5', '5', 'J', '5'}
    requires multiset(input[2].0) == multiset{'K', 'K', '6', '7', '7'}
    requires multiset(input[3].0) == multiset{'K', 'T', 'J', 'J', 'T'}
    requires multiset(input[4].0) == multiset{'Q', 'Q', 'Q', 'J', 'A'}
    ensures Classify(input)[0].strength == 5 && Classify(input)[1].strength == 1
    ensures Classify(input)[2].strength == 4 && Classify(input)[3].strength == 1
    ensures Classify(input)[4].strength == 1
    ensures forall k :: 0 <= k < 5 ==> Classify(input)[k].cards == input[k].0 && Classify(input)[k].bid == input[k].1
  {
    var hands := Classify(input);
    assert |hands| == 5 && forall k :: 0 <= k < 5 ==> hands[k] == Classified(input[k]);
    CategoryOf32T3K(input[0].0);
    CategoryOfT55J5(input[1].0);
    CategoryOfKK677(input[2].0);
    CategoryOfKTJJT(input[3].0);
    CategoryOfQQQJA(input[4].0);
  }

  /** The example's hands, weakest first. */
  function ExampleRanked(hands: seq<Hand>): seq<Hand>
    requires |hands| == 5
  {
    [hands[0], hands[2], hands[1], hands[4], hands[3]]
  }

  /** Hands of a larger category number come first. */
  lemma {:induction false} ExampleStrongerLast(hands: seq<Hand>)
    requires |hands| == 5
    requires hands[0].strength == 5 && hands[1].strength == 1 && hands[2].strength == 4
    requires hands[3].strength == 1 && hands[4].strength == 1
    ensures Precedes(hands[0], hands[2]) && Precedes(hands[0], hands[1])
    ensures Precedes(hands[0], hands[4]) && Precedes(hands[0], hands[3])
    ensures Precedes(hands[2], hands[1]) && Precedes(hands[2], hands[4]) && Precedes(hands[2], hands[3])
  {
    StrengthDecides(hands[0], hands[2]);
    StrengthDecides(hands[0], hands[1]);
    StrengthDecides(hands[0], hands[4]);
    StrengthDecides(hands[0], hands[3]);
    StrengthDecides(hands[2], hands[1]);
    StrengthDecides(hands[2], hands[4]);
    StrengthDecides(hands[2], hands[3]);
  }

  /** The three four-of-a-kind hands are told apart by their first cards T, Q and K. */
  lemma {:induction false} ExampleTiesByFirstCard(p: Hand, q: Hand, r: Hand)
    requires p.strength == q.strength == r.strength
    requires p.cards[0] == 'T' && q.cards[0] == 'Q' && r.cards[0] == 'K'
    ensures Precedes(p, q) && Precedes(p, r) && Precedes(q, r)
  {
    RanksOfFirstCards();
    FirstDifferenceDecides(p, q, 0);
    FirstDifferenceDecides(p, r, 0);
    FirstDifferenceDecides(q, r, 0);
  }

  /** With the example's categories and first cards, ExampleRanked is in the order of the less function. */
  lemma {:induction false} ExampleRankedSorted(hands: seq<Hand>)
    requires |hands| == 5
    requires hands[0].strength == 5
    requires hands[1].strength == 1 && hands[1].cards[0] == 'T'
    requires hands[2].strength == 4
    requires hands[3].strength == 1 && hands[3].cards[0] == 'K'
    requires hands[4].strength == 1 && hands[4].cards[0] == 'Q'
    ensures SortedBy(ExampleRanked(hands), Precedes)
  {
    ExampleStrongerLast(hands);
    ExampleTiesByFirstCard(hands[1], hands[4], hands[3]);
    SortedFive(hands[0], hands[2], hands[1], hands[4], hands[3], Precedes);
  }

  /** Five elements are sorted once each of the ten pairs is in order. */
  lemma {:induction false} SortedFive<T>(a: T, b: T, c: T, d: T, e: T, le: (T, T) -> bool)
    requires le(a, b) && le(a, c) && le(a, d) && le(a, e)
    requires le(b, c) && le(b, d) && le(b, e)
    requires le(c, d) && le(c, e) && le(d, e)
    ensures SortedBy([a, b, c, d, e], le)
  {
  }

  /** The example's hands hold five different multisets of cards, so no two hold the same cards. */
  lemma {:induction false} ExampleCardsDistinct(hands: seq<Hand>)
    requires |hands| == 5
    requires multiset(hands[0].cards) == multiset{'3', '2', 'T', '3', 'K'}
    requires multiset(hands[1].cards) == multiset{'T', '5', '5', 'J', '5'}
    requires multiset(hands[2].cards) == multiset{'K', 'K', '6', '7', '7'}
    requires multiset(hands[3].cards) == multiset{'K', 'T', 'J', 'J', 'T'}
    requires multiset(hands[4].cards) == multiset{'Q', 'Q', 'Q', 'J', 'A'}
    ensures hands[0].cards != hands[1].cards && hands[0].cards != hands[2].cards
    ensures hands[0].cards != hands[3].cards && hands[0].cards != hands[4].cards
    ensures hands[1].cards != hands[2].cards && hands[1].cards != hands[3].cards
    ensures hands[1].cards != hands[4].cards && hands[2].cards != hands[3].cards
    ensures hands[2].cards != hands[4].cards && hands[3].cards != hands[4].cards
  {
    ExampleBagsDiffer();
  }

  /** The example's five hands hold different cards. */
  lemma {:induction false} ExampleBagsDiffer()
    ensures multiset{'3', '2', 'T', '3', 'K'} != multiset{'T', '5', '5', 'J', '5'}
    ensures multiset{'3', '2', 'T', '3', 'K'} != multiset{'K', 'K', '6', '7', '7'}
    ensures multiset{'3', '2', 'T', '3', 'K'} != multiset{'K', 'T', 'J', 'J', 'T'}
    ensures multiset{'3', '2', 'T', '3', 'K'} != multiset{'Q', 'Q', 'Q', 'J', 'A'}
    ensures multiset{'T', '5', '5', 'J', '5'} != multiset{'K', 'K', '6', '7', '7'}
    ensures multiset{'T', '5', '5', 'J', '5'} != multiset{'K', 'T', 'J', 'J', 'T'}
    ensures multiset{'T', '5', '5', 'J', '5'} != multiset{'Q', 'Q', 'Q', 'J', 'A'}
    ensures multiset{'K', 'K', '6', '7', '7'} != multiset{'K', 'T', 'J', 'J', 'T'}
    ensures multiset{'K', 'K', '6', '7', '7'} != multiset{'Q', 'Q', 'Q', 'J', 'A'}
    ensures multiset{'K', 'T', 'J', 'J', 'T'} != multiset{'Q', 'Q', 'Q', 'J', 'A'}
  {
  }

  /** ExampleRanked rearranges the hands. */
  lemma {:induction false} ExampleRankedPermutation(hands: seq<Hand>)
    requires |hands| == 5
    ensures multiset(ExampleRanked(hands)) == multiset(hands)
  {
    Rearranged(hands);
  }

  lemma {:induction false} Rearranged<T>(s: seq<T>)
    requires |s| == 5
    ensures multiset([s[0], s[2], s[1], s[4], s[3]]) == multiset(s)
  {
    assert s == [s[0]] + [s[1], s[2]] + [s[3], s[4]];
    assert [s[0], s[2], s[1], s[4], s[3]] == [s[0]] + [s[2], s[1]] + [s[4], s[3]];
    SwappedPair(s[1], s[2]);
    SwappedPair(s[3], s[4]);
  }

  lemma {:induction false} SwappedPair<T>(x: T, y: T)
    ensures multiset([x, y]) == multiset([y, x])
  {
  }

  /** Among five hands with pairwise different cards, no two hold the same cards. */
  lemma {:induction false} FiveDistinctCards(a: Hand, b: Hand, c: Hand, d: Hand, e: Hand)
    requires a.cards != b.cards && a.cards != c.cards && a.cards != d.cards && a.cards != e.cards
    requires b.cards != c.cards && b.cards != d.cards && b.cards != e.cards
    requires c.cards != d.cards && c.cards != e.cards && d.cards != e.cards
    ensures DistinctCards([a, b, c, d, e])
  {
  }

  /**
   * Five hands with the example's categories, bids and first cards: every
   * weakest-first ordering of them is ExampleRanked, and its rank-weighted
   * bids add up to 5905.
   */
  lemma {:induction false} ExampleOrder(hands: seq<Hand>, ranked: seq<Hand>)
    requires |hands| == 5
    requires hands[0].strength == 5 && hands[0].bid == 765
    requires hands[1].strength == 1 && hands[1].bid == 684 && hands[1].cards[0] == 'T'
    requires hands[2].strength == 4 && hands[2].bid == 28
    requires hands[3].strength == 1 && hands[3].bid == 220 && hands[3].cards[0] == 'K'
    requires hands[4].strength == 1 && hands[4].bid == 483 && hands[4].cards[0] == 'Q'
    requires multiset(hands[0].cards) == multiset{'3', '2', 'T', '3', 'K'}
    requires multiset(hands[1].cards) == multiset{'T', '5', '5', 'J', '5'}
    requires multiset(hands[2].cards) == multiset{'K', 'K', '6', '7', '7'}
    requires multiset(hands[3].cards) == multiset{'K', 'T', 'J', 'J', 'T'}
    requires multiset(hands[4].cards) == multiset{'Q', 'Q', 'Q', 'J', 'A'}
    requires SortedBy(ranked, Precedes) && multiset(ranked) == multiset(hands)
    ensures ranked == ExampleRanked(hands)
    ensures Winnings(ranked) == 5905
  {
    ExampleRankedSorted(hands);
    ExampleCardsDistinct(hands);
    FiveDistinctCards(hands[0], hands[2], hands[1], hands[4], hands[3]);
    ExampleRankedPermutation(hands);
    DistinctCardsPermutation(ExampleRanked(hands), ranked);
    WinningsDetermined(ranked, ExampleRanked(hands));
    WinningsOfFive(ranked);
  }

  /** Rearranging hands keeps their cards distinct. */
  lemma {:induction false} DistinctCardsPermutation(s: seq<Hand>, t: seq<Hand>)
    requires DistinctCards(s) && multiset(s) == multiset(t)
    ensures DistinctCards(t)
  {
    forall x | x in t ensures x in s {
      assert x in multiset(t);
    }
  }

  /** The places in the label table of the first cards that break the example's ties. */
  lemma {:induction false} RanksOfFirstCards()
    ensures Rank('K') == 1 && Rank('Q') == 2 && Rank('T') == 3
  {
    LabelsDistinct();
    assert LABELS[1] == 'K' && LABELS[2] == 'Q' && LABELS[3] == 'T';
  }

  /** The rank-weighted sum of five bids, written out. */
  lemma {:induction false} WinningsOfFive(s: seq<Hand>)
    requires |s| == 5
    ensures Winnings(s) == s[0].bid + 2 * s[1].bid + 3 * s[2].bid + 4 * s[3].bid + 5 * s[4].bid
  {
    assert Winnings(s[..1]) == s[0].bid by {
      assert s[..1][..0] == [];
    }
    assert Winnings(s[..2]) == Winnings(s[..1]) + 2 * s[1].bid by {
      assert s[..2][..1] == s[..1];
    }
    assert Winnings(s[..3]) == Winnings(s[..2]) + 3 * s[2].bid by {
      assert s[..3][..2] == s[..2];
    }
    assert Winnings(s[..4]) == Winnings(s[..3]) + 4 * s[3].bid by {
      assert s[..4][..3] == s[..3];
    }
    assert s[..5] == s;
  }

  /**
   * main on any lines holding the example's hands and bids (the cards of each
   * hand in any order, the three four-of-a-kind hands keeping their first
   * card) sums to 5905, whichever way the sort breaks ties.
   */
  lemma {:induction false} ExampleWinnings(input: seq<(Cards, int)>, ranked: seq<Hand>)
    requires |input| == 5
    requires multiset(input[0].0) == multiset{'3', '2', 'T', '3', 'K'} && input[0].1 == 765
    requires multiset(input[1].0) == multiset{'T', '5', '5', 'J', '5'} && input[1].0[0] == 'T' && input[1].1 == 684
    requires multiset(input[2].0) == multiset{'K', 'K', '6', '7', '7'} && input[2].1 == 28
    requires multiset(input[3].0) == multiset{'K', 'T', 'J', 'J', 'T'} && input[3].0[0] == 'K' && input[3].1 == 220
    requires multiset(input[4].0) == multiset{'Q', 'Q', 'Q', 'J', 'A'} && input[4].0[0] == 'Q' && input[4].1 == 483
    requires SortedBy(ranked, Precedes) && multiset(ranked) == multiset(Classify(input))
    ensures Winnings(ranked) == 5905
  {
    ExampleStrengths(input);
    ExampleOrder(Classify(input), ranked);
  }

  /** The example's lines hold the example's hands and bids. */
  lemma {:induction false} ExampleLines()
    ensures |EXAMPLE| == 5
    ensures multiset(EXAMPLE[0].0) == multiset{'3', '2', 'T', '3', 'K'} && EXAMPLE[0].1 == 765
    ensures multiset(EXAMPLE[1].0) == multiset{'T', '5', '5', 'J', '5'} && EXAMPLE[1].0[0] == 'T' && EXAMPLE[1].1 == 684
    ensures multiset(EXAMPLE[2].0) == multiset{'K', 'K', '6', '7', '7'} && EXAMPLE[2].1 == 28
    ensures multiset(EXAMPLE[3].0) == multiset{'K', 'T', 'J', 'J', 'T'} && EXAMPLE[3].0[0] == 'K' && EXAMPLE[3].1 == 220
    ensures multiset(EXAMPLE[4].0) == multiset{'Q', 'Q', 'Q', 'J', 'A'} && EXAMPLE[4].0[0] == 'Q' && EXAMPLE[4].1 == 483
  {
  }

  /** main on the example's lines prints the sum 5905. */
  method ExampleTotal() returns (sum: int)
    ensures sum == 5905
  {
    ExampleLines();
    ghost var ranked;
    sum, ranked := Solve(EXAMPLE);
    ExampleWinnings(EXAMPLE, ranked);
  }
}

/**
 * Classifying a hand of five cards into one of the categories 0 (five of a
 * kind) to 6 (high card), with J always a wildcard.
 */
module Classifier {
  import opened Cards
  import opened Sorting

  /** The categories of the doc comment of getStrength, one per shape of label groups, largest group first. */
  function DocCategory(g: seq<int>): int
  {
    if g == [5] then 0              // five of a kind
    else if g == [4, 1] then 1      // four of a kind
    else if g == [3, 2] then 2      // full house
    else if g == [3, 1, 1] then 3   // three of a kind
    else if g == [2, 2, 1] then 4   // two pair
    else if g == [2, 1, 1, 1] then 5    // one pair
    else if g == [1, 1, 1, 1, 1] then 6 // high card
    else 7                          // other
  }

  /** Group sizes, largest first, of n cards. */
  predicate IsPartition(g: seq<int>, n: int)
  {
    SortedBy(g, AtLeast) && (forall k :: 0 <= k < |g| ==> g[k] > 0) && Sum(g) == n
  }

  /** The groups g once every joker joins the largest one; jokers alone form one group. */
  function WithJokers(g: seq<int>, jokers: int): seq<int>
  {
    if g == [] then [jokers] else [g[0] + jokers] + g[1..]
  }

  /**
   * What getStrength returns for h: the doc-comment category of the hand after
   * all of its jokers are added to the largest group of the other labels.
   */
  function Category(h: Cards): int
  {
    DocCategory(WithJokers(SortDesc(Groups(h)), Count(h, JOKER)))
  }

  /** The category of h if J were an ordinary label. */
  function PlainCategory(h: Cards): int
  {
    DocCategory(SortDesc(AllGroups(h)))
  }

  /**
   * The ladder of getCardStrength on the largest group and the list of groups;
   * 99 when the largest group is not between 2 and 5.
   */
  function Ladder(count: int, counters: seq<int>): int
  {
    if count == 5 then 0
    else if count == 4 then 1
    else if count == 3 then (if 2 in counters then 2 else 3)
    else if count == 2 then (if multiset(counters)[2] > 1 then 4 else 5)
    else 99
  }

  /** The switch that upgrades the ladder's category by one or two jokers. */
  function JokerUpgrade(str: int, jokerCount: int): int
  {
    if str == 1 then 0
    else if str == 2 then (if jokerCount == 1 then 1 else 0)
    else if str == 3 then (if jokerCount == 1 then 1 else 0)
    else if str == 4 then 2
    else if str == 5 then (if jokerCount == 1 then 3 else 1)
    else if jokerCount == 2 then 3
    else 5
  }

  /** getCardStrength: the ladder, counting the groups of two with a loop. */
  method GetCardStrength(count: int, counters: array<int>) returns (str: int)
    ensures str == Ladder(count, counters[..])
  {
    if count == 5 {
      return 0;
    }
    if count == 4 {
      return 1;
    }
    if count == 3 {
      if 2 in counters[..] {
        return 2;
      }
      return 3;
    }
    if count == 2 {
      var found := 0;
      for k := 0 to counters.Length
        invariant found == multiset(counters[..k])[2]
      {
        assert counters[..k + 1] == counters[..k] + [counters[k]];
        if counters[k] == 2 {
          found := found + 1;
        }
      }
      assert counters[..counters.Length] == counters[..];
      if found > 1 {
        return 4;
      }
      return 5;
    }
    return 99;
  }

  /** The counting loop of getStrength: the number of jokers, and the count of every other label that occurs. */
  method CountLabels(h: Cards) returns (jokerCount: int, cardCount: map<Card, int>)
    ensures jokerCount == Count(h, JOKER)
    ensures forall c :: c in cardCount <==> c != JOKER && Count(h, c) > 0
    ensures forall c :: c in cardCount ==> cardCount[c] == Count(h, c)
  {
    jokerCount, cardCount := 0, map[];
    for i := 0 to |h|
      invariant jokerCount == Count(h[..i], JOKER)
      invariant forall c :: c in cardCount <==> c != JOKER && Count(h[..i], c) > 0
      invariant forall c :: c in cardCount ==> cardCount[c] == Count(h[..i], c)
    {
      PrefixStep(h, i);
      CountSnoc(h[..i], h[i]);
      var c := h[i];
      if c == JOKER {
        jokerCount := jokerCount + 1;
      } else {
        cardCount := cardCount[c := (if c in cardCount then cardCount[c] else 0) + 1];
      }
    }
    assert h[..|h|] == h;
  }

  /**
   * The counters slice of getStrength: the counts of the map, largest first.
   * The map is read in label order; any order gives the same sorted counters.
   */
  method SortedCounters(h: Cards, cardCount: map<Card, int>) returns (counters: array<int>)
    requires forall c :: c in cardCount <==> c != JOKER && Count(h, c) > 0
    requires forall c :: c in cardCount ==> cardCount[c] == Count(h, c)
    ensures fresh(counters)
    ensures counters[..] == SortDesc(Groups(h))
  {
    var groups: seq<int> := [];
    for k := 0 to |NON_JOKERS|
      invariant groups == GroupsOver(h, NON_JOKERS[..k])
    {
      GroupsStep(h, k);
      var l := NON_JOKERS[k];
      if l in cardCount {
        groups := groups + [cardCount[l]];
      }
    }
    PrefixStep(NON_JOKERS, |NON_JOKERS|);
    counters := new int[|groups|](i requires 0 <= i < |groups| => groups[i]);
    assert counters[..] == groups;
    SortDescending(counters);
    SortDescUnique(groups, counters[..]);
  }

  /** The final loop of getStrength: does some label occur more than once? */
  method HasRepeatedLabel(cardCount: map<Card, int>) returns (repeated: bool)
    ensures repeated <==> exists c :: c in cardCount && cardCount[c] > 1
  {
    for k := 0 to |LABELS|
      invariant forall c: Card :: c in LABELS[..k] && c in cardCount ==> cardCount[c] <= 1
    {
      var l: Card := LABELS[k];
      assert LABELS[..k + 1] == LABELS[..k] + [l];
      if l in cardCount && cardCount[l] > 1 {
        return true;
      }
    }
    assert LABELS[..|LABELS|] == LABELS;
    return false;
  }

  /** getStrength: counts the labels, keeping the jokers apart, sorts the group sizes and decides. */
  method GetStrength(h: Cards) returns (str: int)
    ensures str == Category(h)
    ensures 0 <= str <= 6
  {
    CategoryRange(h);
    var jokerCount, cardCount := CountLabels(h);
    if jokerCount > 3 {
      FourOrFiveJokers(h);
      return 0;
    }
    var counters := SortedCounters(h, cardCount);

    if jokerCount == 3 {
      ThreeJokerCategory(h);
      if counters[0] == 2 {
        return 0;
      }
      return 1;
    }
    if jokerCount == 0 {
      NoJokerCategory(h);
    } else {
      FewJokersCategory(h);
    }
    str := GetCardStrength(counters[0], counters);
    if str < 6 && jokerCount == 0 {
      return str;
    }
    if jokerCount > 0 {
      return JokerUpgrade(str, jokerCount);
    }
    NoRepeatedLabel(h, cardCount);
    var repeated := HasRepeatedLabel(cardCount);
    if repeated {
      return 7;
    }
    return 6;
  }

  /** With three jokers the category follows from the largest other group alone. */
  lemma {:induction false} ThreeJokerCategory(h: Cards)
    requires Count(h, JOKER) == 3
    ensures SortDesc(Groups(h)) != []
    ensures Category(h) == if SortDesc(Groups(h))[0] == 2 then 0 else 1
  {
    HandPartition(h);
    ThreeJokerRule(SortDesc(Groups(h)));
  }

  /** Without jokers the ladder decides, and its 99 means five different labels. */
  lemma {:induction false} NoJokerCategory(h: Cards)
    requires Count(h, JOKER) == 0
    ensures SortDesc(Groups(h)) != []
    ensures var g := SortDesc(Groups(h));
      Ladder(g[0], g) < 6 ==> Category(h) == Ladder(g[0], g)
    ensures var g := SortDesc(Groups(h));
      Ladder(g[0], g) >= 6 ==> Category(h) == 6 && g == [1, 1, 1, 1, 1]
  {
    var g := SortDesc(Groups(h));
    HandPartition(h);
    LadderMatchesTable(g);
    assert WithJokers(g, 0) == g;
  }

  /** With one or two jokers the switch upgrades the ladder's category. */
  lemma {:induction false} FewJokersCategory(h: Cards)
    requires 1 <= Count(h, JOKER) <= 2
    ensures SortDesc(Groups(h)) != []
    ensures var g := SortDesc(Groups(h));
      Category(h) == JokerUpgrade(Ladder(g[0], g), Count(h, JOKER))
  {
    HandPartition(h);
    JokerUpgradeMatchesTable(SortDesc(Groups(h)), Count(h, JOKER));
  }

  /** Five cards whose largest group is a single card have no label twice. */
  lemma {:induction false} NoRepeatedLabel(h: Cards, cardCount: map<Card, int>)
    requires forall c :: c in cardCount ==> cardCount[c] == Count(h, c) && Count(h, c) > 0
    requires forall c :: c in cardCount ==> c != JOKER
    requires SortDesc(Groups(h)) == [1, 1, 1, 1, 1]
    ensures !exists c :: c in cardCount && cardCount[c] > 1
  {
    LabelsSplit();
    forall c | c in cardCount ensures cardCount[c] <= 1 {
      assert c in NON_JOKERS by {
        assert LABELS[Rank(c)] == c;
      }
      GroupOfLabel(h, NON_JOKERS, c);
      assert Count(h, c) in multiset(SortDesc(Groups(h)));
    }
  }

  lemma {:induction false} SumAtLeastLength(g: seq<int>)
    requires forall k :: 0 <= k < |g| ==> g[k] > 0
    ensures Sum(g) >= |g|
  {
    if g != [] {
      SumAtLeastLength(g[1..]);
    }
  }

  /** The ways to split up to five cards into groups, largest first. */
  lemma {:induction false} PartitionShapes(g: seq<int>, n: int)
    requires IsPartition(g, n) && n <= 5
    ensures n == 0 ==> g == []
    ensures n == 1 ==> g == [1]
    ensures n == 2 ==> g == [2] || g == [1, 1]
    ensures n == 3 ==> g == [3] || g == [2, 1] || g == [1, 1, 1]
    ensures n == 4 ==> g == [4] || g == [3, 1] || g == [2, 2] || g == [2, 1, 1] || g == [1, 1, 1, 1]
    ensures n == 5 ==> (g == [5] || g == [4, 1] || g == [3, 2] || g == [3, 1, 1]
                        || g == [2, 2, 1] || g == [2, 1, 1, 1] || g == [1, 1, 1, 1, 1])
    ensures 0 <= n
  {
    SumAtLeastLength(g);
    if n == 1 {
      PartitionsOfOne(g);
    } else if n == 2 {
      PartitionsOfTwo(g);
    } else if n == 3 {
      PartitionsOfThree(g);
    } else if n == 4 {
      PartitionsOfFour(g);
    } else if n == 5 {
      PartitionsOfFive(g);
    }
  }

  /** A partition of n > 0 splits into its largest group and a partition of the rest into no larger groups. */
  lemma {:induction false} PartitionHead(g: seq<int>, n: int)
    requires IsPartition(g, n) && n > 0
    ensures g != [] && 1 <= g[0] <= n && g == [g[0]] + g[1..]
    ensures IsPartition(g[1..], n - g[0]) && (g[1..] != [] ==> g[1..][0] <= g[0])
    ensures g[0] == n ==> g[1..] == []
  {
    SumAtLeastLength(g);
    var tail := g[1..];
    assert g == [g[0]] + tail;
    SortedTail(g, AtLeast);
    SumAtLeastLength(tail);
    if tail != [] {
      assert AtLeast(g[0], g[1]);
    }
  }

  /** The partitions of 1, largest group first. */
  lemma {:induction false} PartitionsOfOne(g: seq<int>)
    requires IsPartition(g, 1)
    ensures g == [1]
  {
    PartitionHead(g, 1);
  }

  /** The partitions of 2, largest group first. */
  lemma {:induction false} PartitionsOfTwo(g: seq<int>)
    requires IsPartition(g, 2)
    ensures g == [2] || g == [1, 1]
  {
    PartitionHead(g, 2);
    if g[0] == 1 {
      PartitionsOfOne(g[1..]);
    }
  }

  /** The partitions of 3, largest group first. */
  lemma {:induction false} PartitionsOfThree(g: seq<int>)
    requires IsPartition(g, 3)
    ensures g == [3] || g == [2, 1] || g == [1, 1, 1]
  {
    PartitionHead(g, 3);
    if g[0] == 2 {
      PartitionsOfOne(g[1..]);
    } else if g[0] == 1 {
      PartitionsOfTwo(g[1..]);
    }
  }

  /** The partitions of 4, largest group first. */
  lemma {:induction false} PartitionsOfFour(g: seq<int>)
    requires IsPartition(g, 4)
    ensures g == [4] || g == [3, 1] || g == [2, 2] || g == [2, 1, 1] || g == [1, 1, 1, 1]
  {
    PartitionHead(g, 4);
    if g[0] == 3 {
      PartitionsOfOne(g[1..]);
    } else if g[0] == 2 {
      PartitionsOfTwo(g[1..]);
    } else if g[0] == 1 {
      PartitionsOfThree(g[1..]);
    }
  }

  /** The partitions of 5, largest group first. */
  lemma {:induction false} PartitionsOfFive(g: seq<int>)
    requires IsPartition(g, 5)
    ensures g == [5] || g == [4, 1] || g == [3, 2] || g == [3, 1, 1] || g == [2, 2, 1] || g == [2, 1, 1, 1] || g == [1, 1, 1, 1, 1]
  {
    PartitionHead(g, 5);
    if g[0] == 4 {
      PartitionsOfOne(g[1..]);
    } else if g[0] == 3 {
      PartitionsOfTwo(g[1..]);
    } else if g[0] == 2 {
      PartitionsOfThree(g[1..]);
    } else if g[0] == 1 {
      PartitionsOfFour(g[1..]);
    }
  }

  /** For five cards without jokers the ladder gives the doc-comment category, or 99 for five distinct labels. */
  lemma {:induction false} LadderMatchesTable(g: seq<int>)
    requires IsPartition(g, 5)
    ensures g != []
    ensures Ladder(g[0], g) < 6 ==> Ladder(g[0], g) == DocCategory(g)
    ensures Ladder(g[0], g) >= 6 ==> Ladder(g[0], g) == 99 && g == [1, 1, 1, 1, 1] && DocCategory(g) == 6
  {
    PartitionsOfFive(g);
    if g == [5] {
      LadderRow5();
    } else if g == [4, 1] {
      LadderRow41();
    } else if g == [3, 2] {
      LadderRow32();
    } else if g == [3, 1, 1] {
      LadderRow311();
    } else if g == [2, 2, 1] {
      LadderRow221();
    } else if g == [2, 1, 1, 1] {
      LadderRow2111();
    } else {
      LadderRow11111();
    }
  }

  lemma {:induction false} LadderRow5()
    ensures Ladder(5, [5]) == DocCategory([5])
  {
  }

  lemma {:induction false} LadderRow41()
    ensures Ladder(4, [4, 1]) == DocCategory([4, 1])
  {
  }

  lemma {:induction false} LadderRow32()
    ensures Ladder(3, [3, 2]) == DocCategory([3, 2])
  {
    assert 2 in [3, 2];
  }

  lemma {:induction false} LadderRow311()
    ensures Ladder(3, [3, 1, 1]) == DocCategory([3, 1, 1])
  {
    assert 2 !in [3, 1, 1];
  }

  lemma {:induction false} LadderRow221()
    ensures Ladder(2, [2, 2, 1]) == DocCategory([2, 2, 1])
  {
    assert multiset([2, 2, 1])[2] == 2;
  }

  lemma {:induction false} LadderRow2111()
    ensures Ladder(2, [2, 1, 1, 1]) == DocCategory([2, 1, 1, 1])
  {
    assert multiset([2, 1, 1, 1])[2] == 1;
  }

  lemma {:induction false} LadderRow11111()
    ensures Ladder(1, [1, 1, 1, 1, 1]) == 99 && DocCategory([1, 1, 1, 1, 1]) == 6
  {
  }

  /** One or two jokers upgrade the ladder's category to that of the groups with the jokers joining the largest. */
  lemma {:induction false} JokerUpgradeMatchesTable(g: seq<int>, jokers: int)
    requires 1 <= jokers <= 2 && IsPartition(g, 5 - jokers)
    ensures g != []
    ensures JokerUpgrade(Ladder(g[0], g), jokers) == DocCategory(WithJokers(g, jokers))
  {
    if jokers == 1 {
      PartitionsOfFour(g);
      OneJoker(g);
    } else {
      PartitionsOfThree(g);
      TwoJokers(g);
    }
  }

  lemma {:induction false} OneJoker(g: seq<int>)
    requires g == [4] || g == [3, 1] || g == [2, 2] || g == [2, 1, 1] || g == [1, 1, 1, 1]
    ensures JokerUpgrade(Ladder(g[0], g), 1) == DocCategory(WithJokers(g, 1))
  {
    if g == [4] {
      JokerRow4J1();
    }
    else if g == [3, 1] {
      JokerRow31J1();
    }
    else if g == [2, 2] {
      JokerRow22J1();
    }
    else if g == [2, 1, 1] {
      JokerRow211J1();
    }
    else if g == [1, 1, 1, 1] {
      JokerRow1111J1();
    }
  }

  lemma {:induction false} TwoJokers(g: seq<int>)
    requires g == [3] || g == [2, 1] || g == [1, 1, 1]
    ensures JokerUpgrade(Ladder(g[0], g), 2) == DocCategory(WithJokers(g, 2))
  {
    if g == [3] {
      JokerRow3J2();
    }
    else if g == [2, 1] {
      JokerRow21J2();
    }
    else if g == [1, 1, 1] {
      JokerRow111J2();
    }
  }

  lemma {:induction false} JokerRow4J1()
    ensures JokerUpgrade(Ladder(4, [4]), 1) == DocCategory(WithJokers([4], 1))
  {
    assert WithJokers([4], 1) == [5];
  }

  lemma {:induction false} JokerRow31J1()
    ensures JokerUpgrade(Ladder(3, [3, 1]), 1) == DocCategory(WithJokers([3, 1], 1))
  {
    assert 2 !in [3, 1];
    assert WithJokers([3, 1], 1) == [4, 1];
  }

  lemma {:induction false} JokerRow22J1()
    ensures JokerUpgrade(Ladder(2, [2, 2]), 1) == DocCategory(WithJokers([2, 2], 1))
  {
    assert multiset([2, 2])[2] == 2;
    assert WithJokers([2, 2], 1) == [3, 2];
  }

  lemma {:induction false} JokerRow211J1()
    ensures JokerUpgrade(Ladder(2, [2, 1, 1]), 1) == DocCategory(WithJokers([2, 1, 1], 1))
  {
    assert multiset([2, 1, 1])[2] == 1;
    assert WithJokers([2, 1, 1], 1) == [3, 1, 1];
  }

  lemma {:induction false} JokerRow1111J1()
    ensures JokerUpgrade(Ladder(1, [1, 1, 1, 1]), 1) == DocCategory(WithJokers([1, 1, 1, 1], 1))
  {
    assert WithJokers([1, 1, 1, 1], 1) == [2, 1, 1, 1];
  }

  lemma {:induction false} JokerRow3J2()
    ensures JokerUpgrade(Ladder(3, [3]), 2) == DocCategory(WithJokers([3], 2))
  {
    assert 2 !in [3];
    assert WithJokers([3], 2) == [5];
  }

  lemma {:induction false} JokerRow21J2()
    ensures JokerUpgrade(Ladder(2, [2, 1]), 2) == DocCategory(WithJokers([2, 1], 2))
  {
    assert multiset([2, 1])[2] == 1;
    assert WithJokers([2, 1], 2) == [4, 1];
  }

  lemma {:induction false} JokerRow111J2()
    ensures JokerUpgrade(Ladder(1, [1, 1, 1]), 2) == DocCategory(WithJokers([1, 1, 1], 2))
  {
    assert WithJokers([1, 1, 1], 2) == [3, 1, 1];
  }

  /** Three jokers make five of a kind with a pair, four of a kind with two distinct labels. */
  lemma {:induction false} ThreeJokerRule(g: seq<int>)
    requires IsPartition(g, 2)
    ensures g != []
    ensures DocCategory(WithJokers(g, 3)) == if g[0] == 2 then 0 else 1
  {
    PartitionsOfTwo(g);
  }

  /** Four or five jokers always make five of a kind. */
  lemma {:induction false} ManyJokersRule(g: seq<int>, jokers: int)
    requires 4 <= jokers <= 5 && IsPartition(g, 5 - jokers)
    ensures DocCategory(WithJokers(g, jokers)) == 0
  {
    PartitionShapes(g, 5 - jokers);
  }

  lemma {:induction false} SumInsert(x: int, s: seq<int>)
    ensures Sum(Insert(x, s)) == x + Sum(s)
  {
    if s != [] && x < s[0] {
      SumInsert(x, s[1..]);
    }
  }

  lemma {:induction false} SumSortDesc(s: seq<int>)
    ensures Sum(SortDesc(s)) == Sum(s)
  {
    if s != [] {
      SumSortDesc(s[1..]);
      SumInsert(s[0], SortDesc(s[1..]));
    }
  }

  /** The sorted non-joker groups of a hand are a partition of its non-joker cards. */
  lemma {:induction false} HandPartition(h: Cards)
    ensures IsPartition(SortDesc(Groups(h)), 5 - Count(h, JOKER))
  {
    var g := SortDesc(Groups(h));
    forall k | 0 <= k < |g| ensures g[k] > 0 {
      assert g[k] in multiset(Groups(h));
    }
    SumSortDesc(Groups(h));
    GroupsSum(h);
  }

  /** Every hand falls in one of the categories 0 to 6; 7 and 99 never come out. */
  lemma {:induction false} CategoryRange(h: Cards)
    ensures 0 <= Category(h) <= 6
  {
    var j := Count(h, JOKER);
    if j >= 4 {
      FourOrFiveJokers(h);
    } else if j == 3 {
      ThreeJokerCategory(h);
    } else if j >= 1 {
      FewJokersCategory(h);
    } else {
      NoJokerCategory(h);
    }
  }

  /** Four or five jokers are five of a kind, JJJJJ included. */
  lemma {:induction false} FourOrFiveJokers(h: Cards)
    requires Count(h, JOKER) >= 4
    ensures Category(h) == 0
  {
    HandPartition(h);
    ManyJokersRule(SortDesc(Groups(h)), Count(h, JOKER));
  }

  /** The sorted groups hold a group of x cards exactly when some non-joker label occurs x times. */
  lemma {:induction false} GroupSizeOccurs(h: Cards, x: int)
    requires x > 0
    ensures x in SortDesc(Groups(h)) <==> exists c :: c != JOKER && Count(h, c) == x
  {
    var g := SortDesc(Groups(h));
    assert x in g <==> x in multiset(g);
    LabelsSplit();
    if x in Groups(h) {
      LabelOfGroup(h, NON_JOKERS, x);
    }
    if c :| c != JOKER && Count(h, c) == x {
      assert c in NON_JOKERS;
      GroupOfLabel(h, NON_JOKERS, c);
    }
  }

  /** With three jokers the hand is five of a kind when its two other cards are alike, four of a kind otherwise. */
  lemma {:induction false} ThreeJokers(h: Cards)
    requires Count(h, JOKER) == 3
    ensures Category(h) == 0 <==> exists c :: c != JOKER && Count(h, c) == 2
    ensures Category(h) == 1 <==> !exists c :: c != JOKER && Count(h, c) == 2
  {
    var g := SortDesc(Groups(h));
    HandPartition(h);
    ThreeJokerRule(g);
    PartitionsOfTwo(g);
    GroupSizeOccurs(h, 2);
  }

  /** Without jokers the category is the doc-comment category of the hand's own label groups. */
  lemma {:induction false} NoJokers(h: Cards)
    requires Count(h, JOKER) == 0
    ensures Category(h) == PlainCategory(h)
  {
    var g := SortDesc(Groups(h));
    assert g != [] by {
      HandPartition(h);
      PartitionHead(g, 5);
    }
    assert WithJokers(g, 0) == g;
    AllGroupsSplit(h);
    assert AllGroups(h) == Groups(h);
  }

  /** The category depends only on which cards the hand holds, not on their order. */
  lemma {:induction false} CategoryPermutationInvariant(h1: Cards, h2: Cards)
    requires multiset(h1) == multiset(h2)
    ensures Category(h1) == Category(h2)
  {
    GroupsOverPermutation(h1, h2, NON_JOKERS);
  }

  /** Jokers as wildcards never give a worse category than jokers as an ordinary label. */
  lemma {:induction false} JokersNeverHurt(h: Cards)
    ensures Category(h) <= PlainCategory(h)
  {
    var g, j := SortDesc(Groups(h)), Count(h, JOKER);
    if j == 0 {
      NoJokers(h);
    } else {
      HandPartition(h);
      AllGroupsSplit(h);
      var p := Insert(j, g);
      InsertSorted(j, g);
      assert multiset(AllGroups(h)) == multiset(Groups(h)) + multiset{j};
      SortDescUnique(AllGroups(h), p);
      JokerGroupNeverHurts(g, j);
    }
  }

  /** Joining the largest group beats forming a group of their own, whatever the other groups. */
  lemma {:induction false} JokerGroupNeverHurts(g: seq<int>, jokers: int)
    requires 1 <= jokers <= 5 && IsPartition(g, 5 - jokers)
    ensures DocCategory(WithJokers(g, jokers)) <= DocCategory(Insert(jokers, g))
  {
    PartitionShapes(g, 5 - jokers);
    if jokers == 1 {
      OneJokerGroup(g);
    } else if jokers == 2 {
      TwoJokerGroup(g);
    } else if jokers == 3 {
      if g == [2] {
        assert Insert(3, g) == [3, 2];
      } else {
        assert Insert(3, g) == [3, 1, 1];
      }
    } else if jokers == 4 {
      assert Insert(4, g) == [4, 1];
    } else {
      assert Insert(5, g) == [5];
    }
  }

  lemma {:induction false} OneJokerGroup(g: seq<int>)
    requires g == [4] || g == [3, 1] || g == [2, 2] || g == [2, 1, 1] || g == [1, 1, 1, 1]
    ensures DocCategory(WithJokers(g, 1)) <= DocCategory(Insert(1, g))
  {
    if g == [4] {
      assert Insert(1, g) == [4, 1];
    } else if g == [3, 1] {
      assert Insert(1, g) == [3, 1, 1] by {
        assert Insert(1, g[1..]) == [1, 1];
      }
    } else if g == [2, 2] {
      assert Insert(1, g) == [2, 2, 1] by {
        assert Insert(1, g[1..]) == [2, 1] by {
          assert g[1..][1..] == [];
        }
      }
    } else if g == [2, 1, 1] {
      assert Insert(1, g) == [2, 1, 1, 1] by {
        assert Insert(1, g[1..]) == [1, 1, 1];
      }
    } else {
      assert Insert(1, g) == [1, 1, 1, 1, 1];
    }
  }

  lemma {:induction false} TwoJokerGroup(g: seq<int>)
    requires g == [3] || g == [2, 1] || g == [1, 1, 1]
    ensures DocCategory(WithJokers(g, 2)) <= DocCategory(Insert(2, g))
  {
    if g == [3] {
      assert Insert(2, g) == [3, 2] by {
        assert g[1..] == [];
      }
    } else if g == [2, 1] {
      assert Insert(2, g) == [2, 2, 1];
    } else {
      assert Insert(2, g) == [2, 1, 1, 1];
    }
  }
}

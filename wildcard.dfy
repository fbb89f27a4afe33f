/**
 * The jokers as wildcards: adding every joker to the largest group is the
 * best use of them, so no way of filling in the jokers with other labels
 * beats the category getStrength gives, and some way of filling them in
 * reaches it.
 */
module Wildcard {
  import opened Cards
  import opened Sorting
  import opened Classifier

  /** The largest group of a shape, largest first; 0 when there is no group. */
  function Top(g: seq<int>): int
  {
    if g == [] then 0 else g[0]
  }

  /** The second largest group of a shape, largest first; 0 when there is none. */
  function Second(g: seq<int>): int
  {
    if |g| < 2 then 0 else g[1]
  }

  /** The category of a shape of five cards as its two largest groups decide it. */
  function TopTwoCategory(top: int, second: int): int
  {
    if top >= 5 then 0
    else if top == 4 then 1
    else if top == 3 then (if second == 2 then 2 else 3)
    else if top == 2 then (if second == 2 then 4 else 5)
    else 6
  }

  /** On five cards the two largest groups decide the doc-comment category. */
  lemma {:induction false} DocByTopTwo(p: seq<int>)
    requires IsPartition(p, 5)
    ensures DocCategory(p) == TopTwoCategory(Top(p), Second(p))
    ensures 1 <= Top(p) && 0 <= Second(p) <= Top(p) && Top(p) + Second(p) <= 5
  {
    PartitionsOfFive(p);
  }

  /**
   * A shape of five cards with a larger largest group, or the same one and a
   * second group at least as large, is in a category at least as good.
   */
  lemma {:induction false} TopTwoMonotone(p: seq<int>, q: seq<int>)
    requires IsPartition(p, 5) && IsPartition(q, 5)
    requires Top(p) > Top(q) || (Top(p) == Top(q) && Second(p) >= Second(q))
    ensures DocCategory(p) <= DocCategory(q)
  {
    DocByTopTwo(p);
    DocByTopTwo(q);
  }

  /** The jokers joining the largest group of the other cards make a shape of five cards. */
  lemma {:induction false} JoinedShape(g: seq<int>, j: int)
    requires 0 <= j <= 5 && IsPartition(g, 5 - j)
    ensures IsPartition(WithJokers(g, j), 5)
    ensures Top(WithJokers(g, j)) == Top(g) + j && Second(WithJokers(g, j)) == Second(g)
  {
    var p := WithJokers(g, j);
    if g == [] {
      assert p == [j] && Sum(g) == 0;
      assert Sum(p) == j + Sum(p[1..]);
    } else {
      assert p[1..] == g[1..];
      assert Sum(g) == g[0] + Sum(g[1..]);
      assert Sum(p) == p[0] + Sum(p[1..]);
      forall a, b | 0 <= a < b < |p| ensures AtLeast(p[a], p[b]) {
        assert AtLeast(g[a], g[b]);
      }
    }
  }

  /**
   * q is the shape p with one group of a cards grown by one, or with a new
   * group of one card when a is 0: q is never more than one card ahead of p at
   * the top, it is ahead only when the largest group grew, and then its second
   * group is that of p.
   */
  lemma {:induction false} GrownShape(p: seq<int>, q: seq<int>, a: int)
    requires SortedBy(p, AtLeast) && SortedBy(q, AtLeast) && forall k :: 0 <= k < |p| ==> p[k] > 0
    requires a == 0 || a in p
    requires multiset(q) + (if a > 0 then multiset{a} else multiset{}) == multiset(p) + multiset{a + 1}
    ensures Top(q) <= Top(p) + 1
    ensures Top(q) == Top(p) + 1 ==> Second(q) == Second(p)
    ensures a == Top(p) ==> Top(q) == Top(p) + 1
  {
    GrownTop(p, q, a);
    if Top(q) == Top(p) + 1 {
      GrownSecond(p, q, a);
    }
  }

  /** The largest element of a largest-first sequence is its first. */
  lemma {:induction false} FirstIsLargest(s: seq<int>, v: int)
    requires SortedBy(s, AtLeast) && v in multiset(s)
    ensures s != [] && v <= s[0]
  {
    var i :| 0 <= i < |s| && s[i] == v;
    assert i == 0 || AtLeast(s[0], s[i]);
  }

  /** Every element of the grown shape other than the grown group was already an element. */
  lemma {:induction false} GrownMember(p: seq<int>, q: seq<int>, a: int, v: int)
    requires multiset(q) + (if a > 0 then multiset{a} else multiset{}) == multiset(p) + multiset{a + 1}
    ensures v in multiset(q) && v != a + 1 ==> v in multiset(p)
    ensures a + 1 in multiset(q)
  {
    var grown: multiset<int> := if a > 0 then multiset{a} else multiset{};
    assert (multiset(q) + grown)[v] == (multiset(p) + multiset{a + 1})[v];
    assert (multiset(q) + grown)[a + 1] == (multiset(p) + multiset{a + 1})[a + 1];
  }

  /** The largest group grows by at most one, exactly when the grown group was a largest one. */
  lemma {:induction false} GrownTop(p: seq<int>, q: seq<int>, a: int)
    requires SortedBy(p, AtLeast) && SortedBy(q, AtLeast) && forall k :: 0 <= k < |p| ==> p[k] > 0
    requires a == 0 || a in p
    requires multiset(q) + (if a > 0 then multiset{a} else multiset{}) == multiset(p) + multiset{a + 1}
    ensures q != [] && Top(q) <= Top(p) + 1
    ensures Top(q) == Top(p) + 1 ==> q[0] == a + 1 && a == Top(p)
    ensures a == Top(p) ==> Top(q) == Top(p) + 1
  {
    GrownMember(p, q, a, a + 1);
    FirstIsLargest(q, a + 1);
    GrownMember(p, q, a, q[0]);
    if a > 0 {
      FirstIsLargest(p, a);
    }
    assert q[0] in multiset(q);
    if q[0] != a + 1 {
      FirstIsLargest(p, q[0]);
    }
  }

  /** When the largest group grew, the other groups are those of p. */
  lemma {:induction false} GrownSecond(p: seq<int>, q: seq<int>, a: int)
    requires SortedBy(p, AtLeast) && SortedBy(q, AtLeast)
    requires q != [] && q[0] == a + 1 && a == Top(p) && a >= 0 && (a == 0 ==> p == [])
    requires multiset(q) + (if a > 0 then multiset{a} else multiset{}) == multiset(p) + multiset{a + 1}
    ensures Second(q) == Second(p)
  {
    if p == [] {
      assert (if a > 0 then multiset{a} else multiset{}) == multiset{} && multiset(p) == multiset{};
      assert multiset(q) + multiset{} == multiset(q) && multiset{} + multiset{1} == multiset{1};
      assert multiset(q) == multiset{1};
      assert |q| == |multiset(q)| == 1;
    } else {
      assert (if a > 0 then multiset{a} else multiset{}) == multiset{a};
      GrownTails(p, q, a);
    }
  }

  /** A grown largest group leaves the rest of the shape as it was. */
  lemma {:induction false} GrownTails(p: seq<int>, q: seq<int>, a: int)
    requires SortedBy(p, AtLeast) && SortedBy(q, AtLeast)
    requires p != [] && q != [] && q[0] == a + 1 && p[0] == a
    requires multiset(q) + multiset{a} == multiset(p) + multiset{a + 1}
    ensures q[1..] == p[1..]
  {
    TailMultiset(q);
    TailMultiset(p);
    assert multiset(q) == multiset(q[1..]) + multiset{a + 1};
    assert multiset(p) == multiset(p[1..]) + multiset{a};
    assert multiset(q[1..]) + (multiset{a + 1} + multiset{a}) == multiset(q) + multiset{a};
    assert multiset(p[1..]) + (multiset{a + 1} + multiset{a}) == multiset(p) + multiset{a + 1};
    MultisetCancel(multiset(q[1..]), multiset(p[1..]), multiset{a + 1} + multiset{a});
    SortedTail(p, AtLeast);
    SortedTail(q, AtLeast);
    SortDescUnique(p[1..], q[1..]);
    SortDescUnique(p[1..], p[1..]);
  }

  lemma {:induction false} MultisetCancel<T>(x: multiset<T>, y: multiset<T>, z: multiset<T>)
    requires x + z == y + z
    ensures x == y
  {
    assert x == (x + z) - z && y == (y + z) - z;
  }

  /**
   * p and q are the other cards' groups before and after one joker is filled
   * in with a label that has a cards: the jokers joining the largest group do
   * at least as well before, and exactly as well when a is the largest group.
   */
  /**
   * p and q are the groups before and after one of j jokers is filled in
   * with a label that had a cards (a group of a becomes one of a + 1).
   */
  predicate ShapeGrown(p: seq<int>, q: seq<int>, a: int, j: int)
  {
    && 1 <= j <= 5 && IsPartition(p, 5 - j) && IsPartition(q, 5 - (j - 1))
    && (a == 0 || a in p)
    && multiset(q) + (if a > 0 then multiset{a} else multiset{}) == multiset(p) + multiset{a + 1}
  }

  lemma {:induction false} ShapeStep(p: seq<int>, q: seq<int>, a: int, j: int)
    requires ShapeGrown(p, q, a, j)
    ensures DocCategory(WithJokers(p, j)) <= DocCategory(WithJokers(q, j - 1))
    ensures a == Top(p) ==>
      DocCategory(WithJokers(p, j)) == DocCategory(WithJokers(q, j - 1)) && a + 1 == Top(q)
  {
    GrownShape(p, q, a);
    JoinedShape(p, j);
    JoinedShape(q, j - 1);
    TopTwoMonotone(WithJokers(p, j), WithJokers(q, j - 1));
    if a == Top(p) {
      TopTwoMonotone(WithJokers(q, j - 1), WithJokers(p, j));
    }
  }

  /** Two hands whose counts agree on every label of ls have the same groups over ls. */
  lemma {:induction false} GroupsOverAgree(h1: seq<Card>, h2: seq<Card>, ls: seq<Card>)
    requires forall c :: c in ls ==> Count(h1, c) == Count(h2, c)
    ensures GroupsOver(h1, ls) == GroupsOver(h2, ls)
  {
    if ls != [] {
      var init := ls[..|ls| - 1];
      assert forall c :: c in init ==> c in ls;
      GroupsOverAgree(h1, h2, init);
      assert ls[|ls| - 1] in ls;
    }
  }

  /**
   * One more card labelled x and no other change among the labels of ls grows
   * the group of x by one, or adds a group of one when x did not occur.
   */
  lemma {:induction false} GroupsGrown(h: seq<Card>, h2: seq<Card>, x: Card, ls: seq<Card>)
    requires Distinct(ls) && x in ls
    requires forall c :: c in ls && c != x ==> Count(h2, c) == Count(h, c)
    requires Count(h2, x) == Count(h, x) + 1
    ensures multiset(GroupsOver(h2, ls)) + (if Count(h, x) > 0 then multiset{Count(h, x)} else multiset{})
         == multiset(GroupsOver(h, ls)) + multiset{Count(h, x) + 1}
  {
    var init, last := ls[..|ls| - 1], ls[|ls| - 1];
    DistinctInit(ls);
    assert ls == init + [last];
    if last == x {
      assert forall c :: c in init ==> c in ls && c != x;
      GroupsOverAgree(h2, h, init);
      GrownAtLast(h, h2, ls);
    } else {
      assert x in init;
      assert forall c :: c in init ==> c in ls;
      assert last in ls;
      GroupsGrown(h, h2, x, init);
      GrownBeforeLast(h, h2, x, ls);
    }
  }

  /** The step of GroupsGrown where x is the last label of ls. */
  lemma {:induction false} GrownAtLast(h: seq<Card>, h2: seq<Card>, ls: seq<Card>)
    requires ls != [] && GroupsOver(h2, ls[..|ls| - 1]) == GroupsOver(h, ls[..|ls| - 1])
    requires Count(h2, ls[|ls| - 1]) == Count(h, ls[|ls| - 1]) + 1
    ensures var a := Count(h, ls[|ls| - 1]);
      multiset(GroupsOver(h2, ls)) + (if a > 0 then multiset{a} else multiset{})
        == multiset(GroupsOver(h, ls)) + multiset{a + 1}
  {
    var a := Count(h, ls[|ls| - 1]);
    var grown: multiset<int> := if a > 0 then multiset{a} else multiset{};
    GroupsSnoc(h, ls);
    GroupsSnoc(h2, ls);
    SwapLast(multiset(GroupsOver(h, ls[..|ls| - 1])), multiset{a + 1}, grown);
  }

  /** The step of GroupsGrown where x comes before the last label of ls. */
  lemma {:induction false} GrownBeforeLast(h: seq<Card>, h2: seq<Card>, x: Card, ls: seq<Card>)
    requires ls != [] && Count(h2, ls[|ls| - 1]) == Count(h, ls[|ls| - 1])
    requires var a := Count(h, x);
      multiset(GroupsOver(h2, ls[..|ls| - 1])) + (if a > 0 then multiset{a} else multiset{})
        == multiset(GroupsOver(h, ls[..|ls| - 1])) + multiset{a + 1}
    ensures var a := Count(h, x);
      multiset(GroupsOver(h2, ls)) + (if a > 0 then multiset{a} else multiset{})
        == multiset(GroupsOver(h, ls)) + multiset{a + 1}
  {
    var a, b := Count(h, x), Count(h, ls[|ls| - 1]);
    GroupsSnoc(h, ls);
    GroupsSnoc(h2, ls);
    AddToBoth(multiset(GroupsOver(h2, ls[..|ls| - 1])), multiset(GroupsOver(h, ls[..|ls| - 1])),
      if b > 0 then multiset{b} else multiset{}, if a > 0 then multiset{a} else multiset{}, multiset{a + 1});
  }

  /** The groups over ls are those over all labels of ls but the last, and the last label's count if it occurs. */
  lemma {:induction false} GroupsSnoc(h: seq<Card>, ls: seq<Card>)
    requires ls != []
    ensures multiset(GroupsOver(h, ls)) == multiset(GroupsOver(h, ls[..|ls| - 1]))
      + (if Count(h, ls[|ls| - 1]) > 0 then multiset{Count(h, ls[|ls| - 1])} else multiset{})
  {
    var b := Count(h, ls[|ls| - 1]);
    var tail := if b > 0 then [b] else [];
    assert multiset(GroupsOver(h, ls[..|ls| - 1]) + tail) == multiset(GroupsOver(h, ls[..|ls| - 1])) + multiset(tail);
  }

  lemma {:induction false} SwapLast<T>(g: multiset<T>, x: multiset<T>, y: multiset<T>)
    ensures g + x + y == g + y + x
  {
  }

  lemma {:induction false} AddToBoth<T>(g2: multiset<T>, g: multiset<T>, t: multiset<T>, x: multiset<T>, y: multiset<T>)
    requires g2 + x == g + y
    ensures g2 + t + x == g + t + y
  {
    assert g2 + t + x == (g2 + x) + t;
    assert g + t + y == (g + y) + t;
  }

  /** Dropping the last of distinct labels leaves distinct labels that do not include it. */
  lemma {:induction false} DistinctInit(ls: seq<Card>)
    requires Distinct(ls) && ls != []
    ensures Distinct(ls[..|ls| - 1]) && ls[|ls| - 1] !in ls[..|ls| - 1]
  {
    var init := ls[..|ls| - 1];
    forall a, b | 0 <= a < b < |init| ensures init[a] != init[b] {
      assert init[a] == ls[a] && init[b] == ls[b];
    }
    forall a | 0 <= a < |init| ensures init[a] != ls[|ls| - 1] {
      assert init[a] == ls[a];
    }
  }

  /** Changing one slot of a sequence takes out the old element and puts in the new one. */
  lemma {:induction false} UpdateMultiset<T>(s: seq<T>, i: int, v: T)
    requires 0 <= i < |s|
    ensures multiset(s[i := v]) == multiset(s) - multiset{s[i]} + multiset{v}
  {
    assert s == s[..i] + [s[i]] + s[i + 1..];
    assert s[i := v] == s[..i] + [v] + s[i + 1..];
  }

  /**
   * Filling in one joker with the label x never gives a better category than
   * keeping the joker, and gives the same category when x is a label of the
   * largest group (any label, when there are only jokers).
   */
  lemma {:induction false} JokerReplaced(h: Cards, h2: Cards, x: Card)
    requires x != JOKER && Count(h, JOKER) > 0
    requires multiset(h2) == multiset(h) - multiset{JOKER} + multiset{x}
    ensures Category(h) <= Category(h2)
    ensures Count(h, x) == Top(SortDesc(Groups(h))) ==>
      Category(h2) == Category(h) && Count(h2, x) == Top(SortDesc(Groups(h2)))
  {
    GrownGroups(h, h2, x);
    CategoryStep(h, h2, x);
  }

  /** JokerReplaced once the groups of the two hands are known to be related by ShapeGrown. */
  lemma {:induction false} CategoryStep(h: Cards, h2: Cards, x: Card)
    requires Count(h2, JOKER) == Count(h, JOKER) - 1 && Count(h2, x) == Count(h, x) + 1
    requires ShapeGrown(SortDesc(Groups(h)), SortDesc(Groups(h2)), Count(h, x), Count(h, JOKER))
    ensures Category(h) <= Category(h2)
    ensures Count(h, x) == Top(SortDesc(Groups(h))) ==>
      Category(h2) == Category(h) && Count(h2, x) == Top(SortDesc(Groups(h2)))
  {
    ShapeStep(SortDesc(Groups(h)), SortDesc(Groups(h2)), Count(h, x), Count(h, JOKER));
  }

  lemma {:induction false} ReplacedCounts(h: Cards, h2: Cards, x: Card)
    requires x != JOKER && Count(h, JOKER) > 0
    requires multiset(h2) == multiset(h) - multiset{JOKER} + multiset{x}
    ensures Count(h2, JOKER) == Count(h, JOKER) - 1 && Count(h2, x) == Count(h, x) + 1
    ensures forall c :: c != x && c != JOKER ==> Count(h2, c) == Count(h, c)
  {
  }

  /** The groups of h2, one joker of h filled in with x, sorted, against those of h. */
  lemma {:induction false} GrownGroups(h: Cards, h2: Cards, x: Card)
    requires x != JOKER && Count(h, JOKER) > 0
    requires multiset(h2) == multiset(h) - multiset{JOKER} + multiset{x}
    ensures Count(h2, JOKER) == Count(h, JOKER) - 1 && Count(h2, x) == Count(h, x) + 1
    ensures ShapeGrown(SortDesc(Groups(h)), SortDesc(Groups(h2)), Count(h, x), Count(h, JOKER))
  {
    ReplacedCounts(h, h2, x);
    HandPartition(h);
    HandPartition(h2);
    SumAtLeastLength(SortDesc(Groups(h)));
    LabelsSplit();
    NonJokersDistinct();
    assert x in NON_JOKERS;
    assert forall c :: c in NON_JOKERS ==> c != JOKER;
    GroupsGrown(h, h2, x, NON_JOKERS);
    if Count(h, x) > 0 {
      GroupOfLabel(h, NON_JOKERS, x);
      assert Count(h, x) in multiset(SortDesc(Groups(h)));
    }
  }

  /** h2 fills in every joker of h with a label that is not a joker and keeps every other card. */
  predicate FillsJokers(h: Cards, h2: Cards)
  {
    forall i :: 0 <= i < 5 ==> (h[i] != JOKER ==> h2[i] == h[i]) && (h[i] == JOKER ==> h2[i] != JOKER)
  }

  /** The hand with the jokers of the first k slots of h filled in as in h2. */
  function FilledUpTo(h: Cards, h2: Cards, k: int): Cards
    requires 0 <= k <= 5
  {
    h2[..k] + h[k..]
  }

  /** h2 is h with one of its jokers filled in with the label y. */
  predicate OneJokerFilled(h: Cards, h2: Cards, y: Card)
  {
    y != JOKER && Count(h, JOKER) > 0 && multiset(h2) == multiset(h) - multiset{JOKER} + multiset{y}
  }

  /** Filling in slot k, if it holds a joker, is one JokerReplaced step. */
  lemma {:induction false} FillStep(h: Cards, h2: Cards, k: int)
    requires FillsJokers(h, h2) && 0 <= k < 5
    ensures h[k] != JOKER ==> FilledUpTo(h, h2, k + 1) == FilledUpTo(h, h2, k)
    ensures h[k] == JOKER ==> OneJokerFilled(FilledUpTo(h, h2, k), FilledUpTo(h, h2, k + 1), h2[k])
  {
    var m, m2 := FilledUpTo(h, h2, k), FilledUpTo(h, h2, k + 1);
    assert m[k] == h[k];
    assert m2 == m[k := h2[k]];
    UpdateMultiset(m, k, h2[k]);
    assert m[k] in multiset(m);
  }

  /** Filling in the jokers of the first k slots never improves the category. */
  lemma {:induction false} FillPrefix(h: Cards, h2: Cards, k: int)
    requires FillsJokers(h, h2) && 0 <= k <= 5
    ensures Category(h) <= Category(FilledUpTo(h, h2, k))
  {
    if k == 0 {
      assert FilledUpTo(h, h2, 0) == h;
    } else {
      FillPrefix(h, h2, k - 1);
      FillStep(h, h2, k - 1);
      if h[k - 1] == JOKER {
        JokerReplaced(FilledUpTo(h, h2, k - 1), FilledUpTo(h, h2, k), h2[k - 1]);
      }
    }
  }

  /** A hand in which every joker is filled in with another label has no jokers. */
  lemma {:induction false} FilledHasNoJokers(h: Cards, h2: Cards)
    requires FillsJokers(h, h2)
    ensures Count(h2, JOKER) == 0
  {
    assert JOKER !in h2 by {
      forall i | 0 <= i < 5 ensures h2[i] != JOKER {
      }
    }
  }

  /**
   * No way of filling in the jokers with other labels gives a better category
   * than getStrength's, with J counted as an ordinary label in the filled-in hand.
   */
  lemma {:induction false} WildcardsBest(h: Cards, h2: Cards)
    requires FillsJokers(h, h2)
    ensures Category(h) <= PlainCategory(h2)
  {
    FillPrefix(h, h2, 5);
    assert FilledUpTo(h, h2, 5) == h2;
    FilledHasNoJokers(h, h2);
    NoJokers(h2);
  }

  /** m is in category c, and x is a label of its largest group (any label when m is all jokers). */
  predicate KeepsBest(m: Cards, x: Card, c: int)
  {
    Category(m) == c && Count(m, x) == Top(SortDesc(Groups(m)))
  }

  /**
   * Filling in the jokers with x, a label of the largest group, keeps the
   * category of the first k slots' filling at that of h.
   */
  lemma {:induction false} FillBestPrefix(h: Cards, h2: Cards, x: Card, k: int)
    requires FillsJokers(h, h2) && 0 <= k <= 5 && x != JOKER
    requires forall i :: 0 <= i < 5 && h[i] == JOKER ==> h2[i] == x
    requires KeepsBest(h, x, Category(h))
    ensures KeepsBest(FilledUpTo(h, h2, k), x, Category(h))
  {
    if k == 0 {
      assert FilledUpTo(h, h2, 0) == h;
    } else {
      FillBestPrefix(h, h2, x, k - 1);
      BestSlot(h, h2, x, k - 1);
      FillBestStep(FilledUpTo(h, h2, k - 1), FilledUpTo(h, h2, k), x, Category(h));
    }
  }

  /** Slot k of FillBestPrefix is left alone or has its joker filled in with x. */
  lemma {:induction false} BestSlot(h: Cards, h2: Cards, x: Card, k: int)
    requires FillsJokers(h, h2) && 0 <= k < 5 && x != JOKER
    requires forall i :: 0 <= i < 5 && h[i] == JOKER ==> h2[i] == x
    ensures var m, m2 := FilledUpTo(h, h2, k), FilledUpTo(h, h2, k + 1); m2 == m || OneJokerFilled(m, m2, x)
  {
    FillStep(h, h2, k);
    if h[k] == JOKER {
      assert h2[k] == x;
    }
  }

  /** One slot of FillBestPrefix: it is left alone or its joker becomes x. */
  lemma {:induction false} FillBestStep(m: Cards, m2: Cards, x: Card, c: int)
    requires x != JOKER && KeepsBest(m, x, c)
    requires m2 == m || OneJokerFilled(m, m2, x)
    ensures KeepsBest(m2, x, c)
  {
    if m2 != m {
      JokerReplaced(m, m2, x);
    }
  }

  /** Some label, not a joker, occurs as often as the largest group of h says. */
  lemma {:induction false} LargestGroupLabel(h: Cards) returns (x: Card)
    ensures x != JOKER && Count(h, x) == Top(SortDesc(Groups(h)))
  {
    var g := SortDesc(Groups(h));
    if g == [] {
      x := 'A';
      if Count(h, x) > 0 {
        GroupSizeOccurs(h, Count(h, x));
      }
    } else {
      HandPartition(h);
      assert g[0] in g;
      GroupSizeOccurs(h, g[0]);
      x :| x != JOKER && Count(h, x) == g[0];
    }
  }

  /** h with every joker filled in with x. */
  function FillWith(h: Cards, x: Card): (h2: Cards)
    requires x != JOKER
    ensures FillsJokers(h, h2)
    ensures forall i :: 0 <= i < 5 && h[i] == JOKER ==> h2[i] == x
  {
    seq(5, i requires 0 <= i < 5 => if h[i] == JOKER then x else h[i])
  }

  /**
   * Filling in every joker with a label of the largest group, any label when
   * there are only jokers, reaches getStrength's category.
   */
  lemma {:induction false} FillLargestGroup(h: Cards, x: Card)
    requires x != JOKER && Count(h, x) == Top(SortDesc(Groups(h)))
    ensures PlainCategory(FillWith(h, x)) == Category(h)
  {
    var h2 := FillWith(h, x);
    assert KeepsBest(h, x, Category(h));
    FillBestPrefix(h, h2, x, 5);
    assert FilledUpTo(h, h2, 5) == h2;
    FilledHasNoJokers(h, h2);
    NoJokers(h2);
  }

  /** Some way of filling in the jokers with other labels reaches getStrength's category. */
  lemma {:induction false} WildcardsAttained(h: Cards)
    ensures exists h2: Cards :: FillsJokers(h, h2) && PlainCategory(h2) == Category(h)
  {
    var x := LargestGroupLabel(h);
    FillLargestGroup(h, x);
    assert FillsJokers(h, FillWith(h, x));
  }
}

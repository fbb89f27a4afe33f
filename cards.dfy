/** Card labels, hands of five cards, and the label groups of a hand. */
module Cards {

  /** The comparator's label table, strongest first; the joker J is the weakest label. */
  const LABELS: seq<char> := "AKQT98765432J"

  type Card = c: char | c in LABELS witness 'A'

  /** A hand always holds exactly five labelled cards. */
  type Cards = s: seq<Card> | |s| == 5 witness ['A', 'A', 'A', 'A', 'A']

  /** J is always a wildcard. */
  const JOKER: Card := 'J'

  /** Every label except the joker, in table order. */
  const NON_JOKERS: seq<Card> := "AKQT98765432"

  /** slices.Index: the first position of c in s, or -1 when c does not occur. */
  function IndexOf(s: seq<char>, c: char): (i: int)
    ensures c in s ==> 0 <= i < |s| && s[i] == c && c !in s[..i]
    ensures c !in s ==> i == -1
  {
    if s == [] then -1
    else if s[0] == c then 0
    else
      var k := IndexOf(s[1..], c);
      if k == -1 then -1
      else assert s[..k + 1] == [s[0]] + s[1..][..k]; k + 1
  }

  /** The position of a card in the label table: 0 for A, the strongest, up to 12 for J. */
  function Rank(c: Card): (r: nat)
    ensures r < |LABELS| && LABELS[r] == c
  {
    IndexOf(LABELS, c)
  }

  /** The number of cards of h labelled c. */
  function Count(h: seq<Card>, c: Card): nat
  {
    multiset(h)[c]
  }

  /** One more card adds one to the count of its own label and changes no other count. */
  lemma {:induction false} CountSnoc(h: seq<Card>, x: Card)
    ensures forall c :: Count(h + [x], c) == Count(h, c) + (if c == x then 1 else 0)
  {
    assert multiset(h + [x]) == multiset(h) + multiset{x};
  }

  /** The number of cards of h whose label is one of ls. */
  function CountIn(h: seq<Card>, ls: seq<Card>): nat
  {
    if h == [] then 0 else (if h[0] in ls then 1 else 0) + CountIn(h[1..], ls)
  }

  function Sum(s: seq<int>): int
  {
    if s == [] then 0 else s[0] + Sum(s[1..])
  }

  predicate Distinct(ls: seq<Card>)
  {
    forall i, j :: 0 <= i < j < |ls| ==> ls[i] != ls[j]
  }

  /**
   * The group sizes of h: for each label of ls, in the order of ls, the number of
   * cards of h carrying it, leaving out the labels that do not occur.
   */
  function GroupsOver(h: seq<Card>, ls: seq<Card>): (g: seq<int>)
    ensures forall k :: 0 <= k < |g| ==> g[k] > 0
  {
    if ls == [] then []
    else
      var last := ls[|ls| - 1];
      GroupsOver(h, ls[..|ls| - 1]) + (if Count(h, last) > 0 then [Count(h, last)] else [])
  }

  /** The group sizes of the non-joker cards of h, in label order. */
  function Groups(h: seq<Card>): seq<int>
  {
    GroupsOver(h, NON_JOKERS)
  }

  /** The group sizes of h when J is treated as an ordinary label. */
  function AllGroups(h: seq<Card>): seq<int>
  {
    GroupsOver(h, LABELS)
  }

  lemma {:induction false} SumAppend(s: seq<int>, t: seq<int>)
    ensures Sum(s + t) == Sum(s) + Sum(t)
  {
    if s == [] {
      assert s + t == t;
    } else {
      assert (s + t)[1..] == s[1..] + t;
      SumAppend(s[1..], t);
    }
  }

  /** Counting the cards in ls + [l] adds the cards labelled l, when l is not already in ls. */
  lemma {:induction false} CountInAppend(h: seq<Card>, ls: seq<Card>, l: Card)
    requires l !in ls
    ensures CountIn(h, ls + [l]) == CountIn(h, ls) + Count(h, l)
  {
    if h != [] {
      assert h == [h[0]] + h[1..];
      assert multiset(h) == multiset{h[0]} + multiset(h[1..]);
      CountInAppend(h[1..], ls, l);
    }
  }

  /** Every card carries one of the thirteen labels. */
  lemma {:induction false} CountInLabels(h: seq<Card>)
    ensures CountIn(h, NON_JOKERS + [JOKER]) == |h|
  {
    if h != [] {
      LabelsSplit();
      CountInLabels(h[1..]);
    }
  }

  /** The group sizes over distinct labels add up to the number of cards with those labels. */
  lemma {:induction false} SumGroupsOver(h: seq<Card>, ls: seq<Card>)
    requires Distinct(ls)
    ensures Sum(GroupsOver(h, ls)) == CountIn(h, ls)
  {
    if ls == [] {
      EmptyCountIn(h, ls);
    } else {
      var init, last := ls[..|ls| - 1], ls[|ls| - 1];
      assert ls == init + [last];
      assert last !in init by {
        forall i | 0 <= i < |init| ensures init[i] != last {
          assert init[i] == ls[i];
        }
      }
      SumGroupsOver(h, init);
      SumAppend(GroupsOver(h, init), if Count(h, last) > 0 then [Count(h, last)] else []);
      CountInAppend(h, init, last);
    }
  }

  /** CountIn recurses on the hand, so even no labels at all need an induction on h. */
  lemma {:induction false} EmptyCountIn(h: seq<Card>, ls: seq<Card>)
    requires ls == []
    ensures CountIn(h, ls) == 0
  {
    if h != [] {
      EmptyCountIn(h[1..], ls);
    }
  }

  /** No label appears twice in the table. */
  lemma {:induction false} LabelsDistinct()
    ensures Distinct(LABELS)
  {
    forall i, j | 0 <= i < j < |LABELS| ensures LABELS[i] != LABELS[j] {
      assert LABELS == ['A', 'K', 'Q', 'T', '9', '8', '7', '6', '5', '4', '3', '2', 'J'];
    }
  }

  /** The table is the non-joker labels followed by the joker. */
  lemma {:induction false} LabelsSplit()
    ensures LABELS == NON_JOKERS + [JOKER] && JOKER !in NON_JOKERS
  {
  }

  lemma {:induction false} NonJokersDistinct()
    ensures Distinct(NON_JOKERS)
  {
    LabelsDistinct();
    assert NON_JOKERS == LABELS[..12];
  }

  /** The non-joker groups of a hand account for all of its cards but the jokers. */
  lemma {:induction false} GroupsSum(h: seq<Card>)
    ensures Sum(Groups(h)) == |h| - Count(h, JOKER)
  {
    NonJokersDistinct();
    SumGroupsOver(h, NON_JOKERS);
    NonJokerCount(h);
  }

  /** Every card that is not a joker carries a non-joker label. */
  lemma {:induction false} NonJokerCount(h: seq<Card>)
    ensures CountIn(h, NON_JOKERS) == |h| - Count(h, JOKER)
  {
    CountInAppend(h, NON_JOKERS, JOKER);
    CountInLabels(h);
  }

  /** Treating J as ordinary adds its group, if any, after the others. */
  lemma {:induction false} AllGroupsSplit(h: seq<Card>)
    ensures AllGroups(h) == Groups(h) + (if Count(h, JOKER) > 0 then [Count(h, JOKER)] else [])
  {
    LabelsSplit();
    assert LABELS[..|LABELS| - 1] == NON_JOKERS;
  }

  /** Every label of ls that occurs in h contributes its count as a group. */
  lemma {:induction false} GroupOfLabel(h: seq<Card>, ls: seq<Card>, l: Card)
    requires l in ls && Count(h, l) > 0
    ensures Count(h, l) in GroupsOver(h, ls)
  {
    var init, last := ls[..|ls| - 1], ls[|ls| - 1];
    assert ls == init + [last];
    if l != last {
      GroupOfLabel(h, init, l);
    }
  }

  /** Every group is the count of some label of ls. */
  lemma {:induction false} LabelOfGroup(h: seq<Card>, ls: seq<Card>, x: int)
    requires x in GroupsOver(h, ls)
    ensures exists l :: l in ls && Count(h, l) == x
  {
    var init, last := ls[..|ls| - 1], ls[|ls| - 1];
    assert ls == init + [last];
    if x in GroupsOver(h, init) {
      LabelOfGroup(h, init, x);
      var l :| l in init && Count(h, l) == x;
      assert l in ls;
    } else {
      assert Count(h, last) == x;
    }
  }

  /** Group sizes depend only on which cards a hand holds, not on their order. */
  lemma {:induction false} GroupsOverPermutation(h1: seq<Card>, h2: seq<Card>, ls: seq<Card>)
    requires multiset(h1) == multiset(h2)
    ensures GroupsOver(h1, ls) == GroupsOver(h2, ls)
  {
    if ls != [] {
      GroupsOverPermutation(h1, h2, ls[..|ls| - 1]);
      assert Count(h1, ls[|ls| - 1]) == Count(h2, ls[|ls| - 1]);
    }
  }

  /** The positive entries of c, in order. */
  function NonZero(c: seq<int>): seq<int>
  {
    if c == [] then [] else (if c[0] > 0 then [c[0]] else []) + NonZero(c[1..])
  }

  lemma {:induction false} NonZeroSnoc(c: seq<int>, x: int)
    ensures NonZero(c + [x]) == NonZero(c) + (if x > 0 then [x] else [])
  {
    if c != [] {
      assert (c + [x])[1..] == c[1..] + [x];
      NonZeroSnoc(c[1..], x);
    } else {
      assert c + [x] == [x];
    }
  }

  /** The positive entries of c are the nonzero ones: a count x > 0 occurs as often as in c. */
  lemma {:induction false} NonZeroMultiplicity(c: seq<int>, x: int)
    requires x > 0
    ensures multiset(NonZero(c))[x] == multiset(c)[x]
  {
    if c != [] {
      assert c == [c[0]] + c[1..];
      NonZeroMultiplicity(c[1..], x);
    }
  }

  lemma {:induction false} NonZeroPositive(c: seq<int>, x: int)
    requires x in NonZero(c)
    ensures x > 0
  {
    if c != [] && !(c[0] > 0 && x == c[0]) {
      NonZeroPositive(c[1..], x);
    }
  }

  /** Given the number of cards of each label of ls, the groups are the nonzero ones among them. */
  lemma {:induction false} GroupsAsCounts(h: seq<Card>, ls: seq<Card>, c: seq<int>)
    requires |c| == |ls| && forall i :: 0 <= i < |ls| ==> multiset(h)[ls[i]] == c[i]
    ensures GroupsOver(h, ls) == NonZero(c)
  {
    if ls != [] {
      var n := |ls| - 1;
      GroupsAsCounts(h, ls[..n], c[..n]);
      assert c == c[..n] + [c[n]];
      NonZeroSnoc(c[..n], c[n]);
    }
  }

  /**
   * Walking the table one label at a time: a label that does not occur in h
   * adds no group, one that does adds its count.
   */
  lemma {:induction false} GroupsStep(h: seq<Card>, k: int)
    requires 0 <= k < |NON_JOKERS|
    ensures Count(h, NON_JOKERS[k]) == 0 ==> GroupsOver(h, NON_JOKERS[..k + 1]) == GroupsOver(h, NON_JOKERS[..k])
    ensures Count(h, NON_JOKERS[k]) > 0 ==>
      GroupsOver(h, NON_JOKERS[..k + 1]) == GroupsOver(h, NON_JOKERS[..k]) + [Count(h, NON_JOKERS[k])]
  {
    PrefixStep(NON_JOKERS, k);
    assert NON_JOKERS[..k + 1][..k] == NON_JOKERS[..k];
  }

  /** Growing a prefix by one element; the prefix of full length is the whole sequence. */
  lemma {:induction false} PrefixStep<T>(s: seq<T>, i: int)
    requires 0 <= i <= |s|
    ensures i < |s| ==> s[..i + 1] == s[..i] + [s[i]]
    ensures i == |s| ==> s[..i] == s
  {
  }
}

/**
 * Hands with their bids, and the less function handed to the sort: weaker
 * hands come first, by category and then card by card.
 */
module Ordering {
  import opened Cards

  /** A hand as the program stores it: its cards, its bid and its computed category. */
  datatype Hand = Hand(cards: Cards, bid: int, strength: int)

  /** The first position at which two different card sequences of the same length differ. */
  function FirstDiff(a: seq<Card>, b: seq<Card>): (k: nat)
    requires |a| == |b| && a != b
    ensures k < |a| && a[..k] == b[..k] && a[k] != b[k]
  {
    if a[0] != b[0] then 0
    else
      assert a == [a[0]] + a[1..] && b == [b[0]] + b[1..];
      var k := FirstDiff(a[1..], b[1..]);
      assert a[..k + 1] == [a[0]] + a[1..][..k] && b[..k + 1] == [b[0]] + b[1..][..k];
      k + 1
  }

  /**
   * The order of value: p1 may stand before p2 when p1 is weaker or equally
   * strong. A larger category number is weaker; within a category the first
   * differing card decides, the card further down the label table being weaker.
   */
  predicate Precedes(p1: Hand, p2: Hand)
  {
    if p1.strength != p2.strength then p1.strength > p2.strength
    else if p1.cards == p2.cards then true
    else
      var k := FirstDiff(p1.cards, p2.cards);
      Rank(p1.cards[k]) > Rank(p2.cards[k])
  }

  /** value: the less closure that orders the hands, with its card-by-card loop. */
  method Value(p1: Hand, p2: Hand) returns (less: bool)
    ensures less == Precedes(p1, p2)
  {
    if p1.strength < p2.strength {
      return false;
    }
    if p1.strength > p2.strength {
      return true;
    }
    for i := 0 to 5
      invariant p1.cards[..i] == p2.cards[..i]
    {
      if p1.cards[i] == p2.cards[i] {
        assert p1.cards[..i + 1] == p2.cards[..i + 1] by {
          assert p1.cards[..i + 1] == p1.cards[..i] + [p1.cards[i]];
          assert p2.cards[..i + 1] == p2.cards[..i] + [p2.cards[i]];
        }
        continue;
      }
      FirstDiffAt(p1.cards, p2.cards, i);
      if Rank(p1.cards[i]) < Rank(p2.cards[i]) {
        return false;
      }
      RankInjective(p1.cards[i], p2.cards[i]);
      return true;
    }
    assert p1.cards == p1.cards[..5] && p2.cards == p2.cards[..5];
    return true;
  }

  /** Any position where the sequences first differ is the one FirstDiff finds. */
  lemma {:induction false} FirstDiffAt(a: seq<Card>, b: seq<Card>, i: nat)
    requires |a| == |b| && i < |a| && a[..i] == b[..i] && a[i] != b[i]
    ensures a != b && FirstDiff(a, b) == i
  {
    assert a != b;
    var k := FirstDiff(a, b);
    if k < i {
      PrefixShorter(a, b, k, i);
    } else if k > i {
      PrefixShorter(a, b, i, k);
    }
  }

  /** Different labels have different places in the table. */
  lemma {:induction false} RankInjective(c: Card, d: Card)
    requires c != d
    ensures Rank(c) != Rank(d)
  {
  }

  /** A larger category number comes first whatever the cards; a smaller one never does. */
  lemma {:induction false} StrengthDecides(p1: Hand, p2: Hand)
    requires p1.strength != p2.strength
    ensures Precedes(p1, p2) <==> p1.strength > p2.strength
  {
  }

  /**
   * Within a category, the first differing card decides: p1 comes first exactly
   * when its card there is the weaker one.
   */
  lemma {:induction false} FirstDifferenceDecides(p1: Hand, p2: Hand, i: nat)
    requires p1.strength == p2.strength
    requires i < 5 && p1.cards[..i] == p2.cards[..i] && p1.cards[i] != p2.cards[i]
    ensures Precedes(p1, p2) <==> Rank(p1.cards[i]) > Rank(p2.cards[i])
  {
    FirstDiffAt(p1.cards, p2.cards, i);
  }

  /** Hands with the same category and the same cards each come before the other. */
  lemma {:induction false} IdenticalCards(p1: Hand, p2: Hand)
    requires p1.strength == p2.strength && p1.cards == p2.cards
    ensures Precedes(p1, p2) && Precedes(p2, p1)
  {
  }

  /** Any two hands are ordered one way or the other. */
  lemma {:induction false} PrecedesTotal(p1: Hand, p2: Hand)
    ensures Precedes(p1, p2) || Precedes(p2, p1)
  {
    if p1.strength == p2.strength && p1.cards != p2.cards {
      var k := FirstDiff(p1.cards, p2.cards);
      FirstDiffAt(p2.cards, p1.cards, k);
      RankInjective(p1.cards[k], p2.cards[k]);
    }
  }

  /** Both ways round only for hands with the same category and the same cards. */
  lemma {:induction false} PrecedesAntisymmetric(p1: Hand, p2: Hand)
    requires Precedes(p1, p2) && Precedes(p2, p1)
    ensures p1.strength == p2.strength && p1.cards == p2.cards
  {
    if p1.strength == p2.strength && p1.cards != p2.cards {
      var k := FirstDiff(p1.cards, p2.cards);
      FirstDiffAt(p2.cards, p1.cards, k);
    }
  }

  /** The order is transitive, so sorting by it is meaningful. */
  lemma {:induction false} PrecedesTransitive(p1: Hand, p2: Hand, p3: Hand)
    requires Precedes(p1, p2) && Precedes(p2, p3)
    ensures Precedes(p1, p3)
  {
    if p1.strength == p2.strength == p3.strength && p1.cards != p2.cards && p2.cards != p3.cards {
      CardOrderTransitive(p1.cards, p2.cards, p3.cards);
    }
  }

  /** Card by card, weaker than weaker is weaker. */
  lemma {:induction false} CardOrderTransitive(a: Cards, b: Cards, c: Cards)
    requires a != b && Rank(a[FirstDiff(a, b)]) > Rank(b[FirstDiff(a, b)])
    requires b != c && Rank(b[FirstDiff(b, c)]) > Rank(c[FirstDiff(b, c)])
    ensures a != c && Rank(a[FirstDiff(a, c)]) > Rank(c[FirstDiff(a, c)])
  {
    var i, j := FirstDiff(a, b), FirstDiff(b, c);
    if i < j {
      PrefixShorter(b, c, i, j);
      FirstDiffAt(a, c, i);
    } else if j < i {
      PrefixShorter(a, b, j, i);
      FirstDiffAt(a, c, j);
    } else {
      FirstDiffAt(a, c, i);
    }
  }

  /** Sequences agreeing on a prefix agree on every shorter prefix and on each position in it. */
  lemma {:induction false} PrefixShorter<T>(a: seq<T>, b: seq<T>, i: nat, j: nat)
    requires i < j <= |a| && j <= |b| && a[..j] == b[..j]
    ensures a[..i] == b[..i] && a[i] == b[i]
  {
    assert a[i] == a[..j][i] && b[i] == b[..j][i];
    assert a[..i] == a[..j][..i] && b[..i] == b[..j][..i];
  }
}

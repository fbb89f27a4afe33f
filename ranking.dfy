/**
 * Ranking the hands: the sort adapter that orders the slice of hands in place,
 * weakest first, and the rank-weighted sum of the bids.
 */
module Ranking {
  import opened Cards
  import opened Sorting
  import opened Classifier
  import opened Ordering

  /** handSorter: the slice of hands, sorted through Len, Less and Swap. */
  class HandSorter {
    const hands: array<Hand>

    constructor (hands: array<Hand>)
      ensures this.hands == hands
    {
      this.hands := hands;
    }

    method Len() returns (n: int)
      ensures n == hands.Length
    {
      return hands.Length;
    }

    /** Less asks the less closure about two slots of the slice. */
    method Less(i: int, j: int) returns (less: bool)
      requires 0 <= i < hands.Length && 0 <= j < hands.Length
      ensures less == Precedes(hands[i], hands[j])
    {
      less := Value(hands[i], hands[j]);
    }

    method Swap(i: int, j: int)
      requires 0 <= i < hands.Length && 0 <= j < hands.Length
      modifies hands
      ensures hands[..] == old(hands[..])[i := old(hands[j])][j := old(hands[i])]
      ensures multiset(hands[..]) == old(multiset(hands[..]))
    {
      Sorting.Swap(hands, i, j);
    }

    /**
     * sort.Sort on the adapter, as an insertion sort that moves each hand left
     * while Less says it should stand before its neighbour. The slice changes
     * only through Swap, so it ends a permutation of what it was, weakest first.
     */
    method Sort()
      modifies hands
      ensures SortedBy(hands[..], Precedes)
      ensures multiset(hands[..]) == old(multiset(hands[..]))
    {
      var n := Len();
      for i := 0 to n
        invariant forall p, q :: 0 <= p < q < i ==> Precedes(hands[p], hands[q])
        invariant multiset(hands[..]) == old(multiset(hands[..]))
      {
        var j := i;
        while j > 0
          invariant 0 <= j <= i
          invariant forall p, q :: 0 <= p < q <= i && p != j && q != j ==> Precedes(hands[p], hands[q])
          invariant forall q :: j < q <= i ==> Precedes(hands[j], hands[q])
          invariant multiset(hands[..]) == old(multiset(hands[..]))
        {
          var less := Less(j, j - 1);
          if !less {
            PrecedesTotal(hands[j], hands[j - 1]);
            break;
          }
          Swap(j, j - 1);
          j := j - 1;
        }
        forall p | 0 <= p < j ensures Precedes(hands[p], hands[j]) {
          if p < j - 1 {
            PrecedesTransitive(hands[p], hands[j - 1], hands[j]);
          }
        }
      }
    }
  }

  /** By(value).Sort(hands): sorts the slice in place, weakest hand first. */
  method SortHands(hands: array<Hand>)
    modifies hands
    ensures SortedBy(hands[..], Precedes)
    ensures multiset(hands[..]) == old(multiset(hands[..]))
  {
    var sorter := new HandSorter(hands);
    sorter.Sort();
  }

  /** The sum of each bid times the rank of its hand, 1 for the first (weakest) hand. */
  function Winnings(ranked: seq<Hand>): int
  {
    if ranked == [] then 0
    else Winnings(ranked[..|ranked| - 1]) + ranked[|ranked| - 1].bid * |ranked|
  }

  /** The summation loop of main. */
  method TotalWinnings(hands: array<Hand>) returns (sum: int)
    ensures sum == Winnings(hands[..])
  {
    sum := 0;
    for i := 0 to hands.Length
      invariant sum == Winnings(hands[..i])
    {
      assert hands[..i + 1][..i] == hands[..i];
      sum := sum + hands[i].bid * (i + 1);
    }
    assert hands[..hands.Length] == hands[..];
  }

  /** The hands main builds from the parsed lines, each with its category. */
  function Classify(input: seq<(Cards, int)>): seq<Hand>
  {
    seq(|input|, i requires 0 <= i < |input| => Classified(input[i]))
  }

  /** The hand main builds from one parsed line. */
  function Classified(line: (Cards, int)): Hand
  {
    Hand(line.0, line.1, Category(line.0))
  }

  /** The loop of main that appends a hand, with its category, per parsed line. */
  method ClassifyAll(input: seq<(Cards, int)>) returns (hands: seq<Hand>)
    ensures hands == Classify(input)
    ensures |hands| == |input|
    ensures forall i :: 0 <= i < |input| ==>
      hands[i].cards == input[i].0 && hands[i].bid == input[i].1 && hands[i].strength == Category(input[i].0)
  {
    hands := [];
    ghost var classified := Classify(input);
    for i := 0 to |input|
      invariant hands == classified[..i]
    {
      var strength := GetStrength(input[i].0);
      var hand := Hand(input[i].0, input[i].1, strength);
      assert classified[i] == hand;
      PrefixStep(classified, i);
      hands := hands + [hand];
    }
    PrefixStep(classified, |input|);
  }


  /**
   * main without its I/O: classifies every parsed line, sorts the hands
   * weakest first and returns the rank-weighted sum of the bids.
   */
  method Solve(input: seq<(Cards, int)>) returns (sum: int, ghost ranked: seq<Hand>)
    ensures SortedBy(ranked, Precedes)
    ensures multiset(ranked) == multiset(Classify(input))
    ensures sum == Winnings(ranked)
  {
    var classified := ClassifyAll(input);
    var hands := new Hand[|classified|](i requires 0 <= i < |classified| => classified[i]);
    assert hands[..] == classified;
    SortHands(hands);
    ranked := hands[..];
    sum := TotalWinnings(hands);
  }

  /** No two different hands of s hold the same cards. */
  predicate DistinctCards(s: seq<Hand>)
  {
    forall x, y :: x in s && y in s && x.cards == y.cards ==> x == y
  }

  /**
   * When no two hands hold the same cards, the sum does not depend on how the
   * sort breaks ties: every weakest-first ordering of the hands is the same.
   */
  lemma {:induction false} WinningsDetermined(s: seq<Hand>, t: seq<Hand>)
    requires SortedBy(s, Precedes) && SortedBy(t, Precedes)
    requires multiset(s) == multiset(t) && DistinctCards(s)
    ensures s == t && Winnings(s) == Winnings(t)
  {
    forall x, y | x in s && y in s && Precedes(x, y) && Precedes(y, x) ensures x == y {
      PrecedesAntisymmetric(x, y);
    }
    SortedUnique(s, t, Precedes);
  }
}

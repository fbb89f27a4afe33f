/**
 * Orders on sequences, and the in-place array steps the library sort is
 * made of: swapping two slots, and sorting integers largest first.
 */
module Sorting {

  /** Every element may stand before every later one. */
  predicate SortedBy<T>(s: seq<T>, le: (T, T) -> bool)
  {
    forall i, j :: 0 <= i < j < |s| ==> le(s[i], s[j])
  }

  /** The order sort.Reverse(sort.IntSlice(...)) sorts by: larger numbers first. */
  predicate AtLeast(x: int, y: int)
  {
    x >= y
  }

  /**
   * Two orderings of the same elements that are both sorted are equal, when the
   * order never puts two different elements of the sequence on the same footing.
   */
  lemma {:induction false} SortedUnique<T>(s: seq<T>, t: seq<T>, le: (T, T) -> bool)
    requires multiset(s) == multiset(t)
    requires SortedBy(s, le) && SortedBy(t, le)
    requires forall x, y :: x in s && y in s && le(x, y) && le(y, x) ==> x == y
    ensures s == t
  {
    if s != [] {
      SortedHeads(s, t, le);
      TailMultiset(s);
      TailMultiset(t);
      SortedTail(s, le);
      SortedTail(t, le);
      TailAntisymmetric(s, le);
      SortedUnique(s[1..], t[1..], le);
      SameHeadAndTail(s, t);
    }
  }

  /** What holds of every two elements of s holds of every two elements of its tail. */
  lemma {:induction false} TailAntisymmetric<T>(s: seq<T>, le: (T, T) -> bool)
    requires s != []
    requires forall x, y :: x in s && y in s && le(x, y) && le(y, x) ==> x == y
    ensures forall x, y :: x in s[1..] && y in s[1..] && le(x, y) && le(y, x) ==> x == y
  {
    forall x, y | x in s[1..] && y in s[1..] && le(x, y) && le(y, x) ensures x == y {
      assert x in s && y in s;
    }
  }

  lemma {:induction false} SameHeadAndTail<T>(s: seq<T>, t: seq<T>)
    requires s != [] && t != [] && s[0] == t[0] && s[1..] == t[1..]
    ensures s == t
  {
    assert s == [s[0]] + s[1..] && t == [t[0]] + t[1..];
  }

  /** Dropping the first element drops one occurrence of it. */
  lemma {:induction false} TailMultiset<T>(s: seq<T>)
    requires s != []
    ensures multiset(s[1..]) == multiset(s) - multiset{s[0]}
  {
    assert s == [s[0]] + s[1..];
  }

  /** Two sorted orderings of the same elements start with the same element. */
  lemma {:induction false} SortedHeads<T>(s: seq<T>, t: seq<T>, le: (T, T) -> bool)
    requires s != [] && multiset(s) == multiset(t)
    requires SortedBy(s, le) && SortedBy(t, le)
    requires forall x, y :: x in s && y in s && le(x, y) && le(y, x) ==> x == y
    ensures t != [] && s[0] == t[0]
  {
    assert |t| == |multiset(t)| == |s|;
    assert t[0] in multiset(s) && s[0] in multiset(t);
    var i :| 0 <= i < |s| && s[i] == t[0];
    var j :| 0 <= j < |t| && t[j] == s[0];
    if i > 0 && j > 0 {
      assert le(s[0], s[i]) && le(t[0], t[j]);
      assert t[0] in s;
    }
  }

  /** Puts x into a largest-first sequence, before the first element smaller than x. */
  function Insert(x: int, s: seq<int>): seq<int>
  {
    if s == [] || x >= s[0] then [x] + s else [s[0]] + Insert(x, s[1..])
  }

  lemma {:induction false} InsertSorted(x: int, s: seq<int>)
    requires SortedBy(s, AtLeast)
    ensures SortedBy(Insert(x, s), AtLeast) && multiset(Insert(x, s)) == multiset(s) + multiset{x}
  {
    if s == [] || x >= s[0] {
      assert multiset([x] + s) == multiset{x} + multiset(s);
      forall k | 0 <= k < |s| ensures x >= s[k] {
        assert k == 0 || AtLeast(s[0], s[k]);
      }
      ConsSorted(x, s);
    } else {
      var tail := s[1..];
      var rest := Insert(x, tail);
      SortedTail(s, AtLeast);
      InsertSorted(x, tail);
      assert s == [s[0]] + tail;
      assert multiset(s) == multiset{s[0]} + multiset(tail);
      forall k | 0 <= k < |[x] + tail| ensures s[0] >= ([x] + tail)[k] {
        assert k == 0 || AtLeast(s[0], s[k]);
      }
      assert multiset([x] + tail) == multiset(rest);
      BoundPermutation(s[0], [x] + tail, rest);
      ConsSorted(s[0], rest);
      assert multiset([s[0]] + rest) == multiset{s[0]} + multiset(rest);
    }
  }

  /** The tail of a sorted sequence is sorted. */
  lemma {:induction false} SortedTail<T>(s: seq<T>, le: (T, T) -> bool)
    requires s != [] && SortedBy(s, le)
    ensures SortedBy(s[1..], le)
  {
    var t := s[1..];
    forall i, j | 0 <= i < j < |t| ensures le(t[i], t[j]) {
      assert t[i] == s[i + 1] && t[j] == s[j + 1];
    }
  }

  /** A bound on every element of t bounds every element of a rearrangement of t. */
  lemma {:induction false} BoundPermutation(y: int, t: seq<int>, u: seq<int>)
    requires multiset(t) == multiset(u) && forall k :: 0 <= k < |t| ==> y >= t[k]
    ensures forall k :: 0 <= k < |u| ==> y >= u[k]
  {
    forall k | 0 <= k < |u| ensures y >= u[k] {
      assert u[k] in multiset(t);
    }
  }

  /** An element at least as large as all of a largest-first sequence can go in front of it. */
  lemma {:induction false} ConsSorted(x: int, t: seq<int>)
    requires SortedBy(t, AtLeast) && forall k :: 0 <= k < |t| ==> x >= t[k]
    ensures SortedBy([x] + t, AtLeast)
  {
    var r := [x] + t;
    forall i, j | 0 <= i < j < |r| ensures AtLeast(r[i], r[j]) {
      assert r[j] == t[j - 1];
      if i > 0 {
        assert r[i] == t[i - 1];
      }
    }
  }

  /** The elements of s, largest first. */
  function SortDesc(s: seq<int>): (r: seq<int>)
    ensures SortedBy(r, AtLeast) && multiset(r) == multiset(s)
  {
    if s == [] then [] else
      assert s == [s[0]] + s[1..];
      InsertSorted(s[0], SortDesc(s[1..]));
      Insert(s[0], SortDesc(s[1..]))
  }

  /** Any sorted arrangement of the elements of s is SortDesc(s), whatever their order in s. */
  lemma {:induction false} SortDescUnique(s: seq<int>, t: seq<int>)
    requires SortedBy(t, AtLeast) && multiset(t) == multiset(s)
    ensures t == SortDesc(s)
  {
    SortedUnique(t, SortDesc(s), AtLeast);
  }

  /** Exchanges two slots of an array and leaves the rest alone. */
  method Swap<T>(a: array<T>, i: int, j: int)
    requires 0 <= i < a.Length && 0 <= j < a.Length
    modifies a
    ensures a[..] == old(a[..])[i := old(a[j])][j := old(a[i])]
    ensures multiset(a[..]) == old(multiset(a[..]))
  {
    a[i], a[j] := a[j], a[i];
  }

  /**
   * sort.Sort(sort.Reverse(sort.IntSlice(a))): insertion sort, moving each
   * element left past the smaller ones.
   */
  method SortDescending(a: array<int>)
    modifies a
    ensures SortedBy(a[..], AtLeast)
    ensures multiset(a[..]) == old(multiset(a[..]))
  {
    for i := 0 to a.Length
      invariant forall p, q :: 0 <= p < q < i ==> a[p] >= a[q]
      invariant multiset(a[..]) == old(multiset(a[..]))
    {
      var j := i;
      while j > 0 && a[j] > a[j - 1]
        invariant 0 <= j <= i
        invariant forall p, q :: 0 <= p < q <= i && p != j && q != j ==> a[p] >= a[q]
        invariant forall q :: j < q <= i ==> a[j] > a[q]
        invariant multiset(a[..]) == old(multiset(a[..]))
      {
        Swap(a, j, j - 1);
        j := j - 1;
      }
    }
  }
}

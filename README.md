# Camel Cards with jokers, in Dafny

A model of the hand-ranking program in `main.go`. The program reads lines of
five cards and a bid. It classifies each hand into a category, from 0 (five of
a kind) to 6 (high card), with `J` always a wildcard. It sorts the hands
weakest first, by category and then card by card, and sums each bid times the
rank of its hand.

The model has one module per part of the program:

- `Cards`: the label table `AKQT98765432J`, hands of exactly five labelled
  cards, the per-label counts of a hand, and its groups (the counts that are
  not zero).
- `Sorting`: sortedness under an order, the largest-first insertion
  `Insert`/`SortDesc` that specifies the sort of the counters slice, and the
  in-place array steps: `Swap` and `SortDescending`.
- `Classifier`: `getCardStrength` and `getStrength` as methods with their
  loops. `GetCardStrength` is proved equal to the function `Ladder`, the
  ladder of `if`s in `getCardStrength`. `GetStrength` is proved to return
  `Category`, a closed form: the category of the doc comment of `getStrength`
  (the function `DocCategory`) for the sorted group sizes, after every joker
  joins the largest group. The lemmas `LadderMatchesTable` and
  `JokerUpgradeMatchesTable` connect `Ladder`, and the joker `switch` (the
  function `JokerUpgrade`), to `DocCategory`.
- `Wildcard`: J as a true wildcard. No way of filling in the jokers with
  other labels gives a better category than `getStrength`'s, and filling them
  all in with a label of the largest group gives exactly that category.
- `Ordering`: the `Hand` record and the `value` closure. `value` is a method
  with its card-by-card loop, proved equal to the predicate `Precedes`.
  `Precedes` is shown to be total and transitive, and antisymmetric up to
  equal cards.
- `Ranking`: the `handSorter` adapter as a class over the array of hands,
  `By(value).Sort`, the summation loop, and `main` without its I/O.
- `Example`: the five example hands, proved to sum to 5905.

## Model

| member | source | states |
|---|---|---|
| Cards.IndexOf | main.go:200 | `slices.Index`: the first position of the label when it occurs, -1 exactly when it does not |
| Cards.Rank | main.go:192-200 | the position of a card in the value table `A K Q T 9 8 7 6 5 4 3 2 J`; every card has one |
| Cards.CountSnoc | main.go:98-104 | counting one more card adds one to its own label's count and leaves every other count alone |
| Cards.GroupsSum | main.go:97-104 | the counts of the non-joker labels add up to the number of cards that are not jokers |
| Cards.AllGroupsSplit | main.go:98-103 | counting `J` like any other label adds its count, if any, after the non-joker groups |
| Cards.GroupOfLabel | main.go:110-112 | every label that occurs contributes its count to the counters |
| Cards.LabelOfGroup | main.go:110-112 | every counter is the count of some label |
| Cards.GroupsOverPermutation | main.go:97-112 | the counters depend only on the multiset of cards, not on their order |
| Cards.GroupsAsCounts | main.go:110-112 | given the count of each label, the counters are the nonzero counts in label order |
| Sorting.SortedUnique | main.go:113 | two sorted orderings of the same elements are equal, when the order never ties two different elements |
| Sorting.InsertSorted | main.go:113 | inserting into a largest-first sequence keeps it largest first and adds exactly that element |
| Sorting.SortDesc | main.go:113 | the result is largest first and a permutation of the input |
| Sorting.SortDescUnique | main.go:113 | any largest-first arrangement of the counts is `SortDesc` of them, so the map's iteration order cannot matter |
| Sorting.Swap | main.go:43-45 | exchanges two slots of an array, leaves every other slot as it was, and keeps the multiset |
| Sorting.SortDescending | main.go:113 | `sort.Sort(sort.Reverse(sort.IntSlice(...)))` in place: the array ends largest first and a permutation of what it was |
| Classifier.GetCardStrength | main.go:52-83 | returns `Ladder(count, counters)`, the ladder: largest group 5 gives 0, 4 gives 1, 3 gives 2 with a pair and 3 without, 2 gives 4 with two pairs and 5 with one, anything else 99; its `found` loop counts the 2s |
| Classifier.CountLabels | main.go:96-104 | the counting loop gives the number of jokers, and a map holding exactly the other labels that occur, each with its count |
| Classifier.SortedCounters | main.go:106-113 | the counters slice is a fresh array holding the counts of the map, largest first |
| Classifier.HasRepeatedLabel | main.go:155-161 | the loop over every key of the map gives true exactly when some key of the map has a count above one |
| Classifier.GetStrength | main.go:85-162 | `getStrength` returns `Category(h)`, which always lies in 0..6; on the way it returns 0 for four or more jokers, the three-joker rule, `Ladder` without jokers, and `JokerUpgrade` of the ladder value with one or two |
| Classifier.ThreeJokerCategory | main.go:115-120 | with three jokers the category is 0 when the largest other group is 2, and 1 otherwise |
| Classifier.NoJokerCategory | main.go:121-161 | without jokers a ladder value below 6 is the category; 99 happens only for five different labels, which is high card |
| Classifier.FewJokersCategory | main.go:121-152 | with one or two jokers the switch applied to the ladder value gives the category |
| Classifier.NoRepeatedLabel | main.go:155-161 | five different labels leave no key of the map with a count above one, so the final loop returns 6 |
| Classifier.HandPartition | main.go:97-113 | the sorted counters are positive, largest first, and add up to the number of non-joker cards |
| Classifier.PartitionShapes | main.go:86-95 | the shapes that up to five cards can form, largest group first; for five, exactly the seven shapes of the doc comment |
| Classifier.LadderMatchesTable | main.go:52-83 | on every shape of five cards, a ladder value below 6 is the doc-comment category; otherwise the ladder gives 99 and the shape is high card |
| Classifier.JokerUpgradeMatchesTable | main.go:126-152 | on every shape of the non-joker cards, the switch gives the doc-comment category of the shape once one or two jokers join the largest group |
| Classifier.OneJoker | main.go:126-152 | the switch is right for each of the five shapes of four non-joker cards |
| Classifier.TwoJokers | main.go:126-152 | the switch is right for each of the three shapes of three non-joker cards |
| Classifier.ThreeJokerRule | main.go:115-120 | three jokers with a pair make five of a kind, and with two different cards four of a kind |
| Classifier.ManyJokersRule | main.go:107-109 | four or five jokers make five of a kind whatever the other card |
| Classifier.SumSortDesc | main.go:113 | sorting the counters keeps their sum |
| Classifier.FourOrFiveJokers | main.go:107-109 | any hand with four or five jokers, `JJJJJ` included, is category 0 |
| Classifier.CategoryRange | main.go:86-95 | every hand is in a category from 0 to 6; 7 and 99 never come out |
| Classifier.GroupSizeOccurs | main.go:110-120 | the sorted counters hold x exactly when some non-joker label occurs x times |
| Classifier.ThreeJokers | main.go:115-120 | with three jokers: category 0 if and only if the two other cards are equal, 1 if and only if they differ |
| Classifier.NoJokers | main.go:121-161 | without jokers the category is the doc-comment category of the hand's own label groups |
| Classifier.CategoryPermutationInvariant | main.go:97-113 | two hands holding the same cards in any order are in the same category |
| Classifier.JokersNeverHurt | main.go:126-152 | wildcard jokers never give a worse category than `J` counted as an ordinary label |
| Classifier.JokerGroupNeverHurts | main.go:126-152 | jokers joining the largest group never do worse than a group of their own, on every shape |
| Wildcard.DocByTopTwo | main.go:86-95 | on five cards, the doc-comment category depends only on the largest and the second largest group |
| Wildcard.TopTwoMonotone | main.go:86-95 | a shape of five cards with a larger largest group, or the same one and a second group at least as large, is in a category at least as good |
| Wildcard.JoinedShape | main.go:115-152 | the jokers joining the largest group of the other cards make a shape of five cards whose largest group has grown by the jokers |
| Wildcard.GrownShape | main.go:97-113 | one more card of a label grows the largest group by at most one; if it does grow, the second group stays; and it grows when the label's group was the largest |
| Wildcard.ShapeStep | main.go:115-152 | moving one joker onto a label never does better than keeping it as a joker, and does equally well when the label's group was the largest |
| Wildcard.GroupsGrown | main.go:97-112 | one more card labelled x changes the counters only by growing the group of x by one, or adding a group of one |
| Wildcard.GrownGroups | main.go:97-113 | filling in one joker with x takes one from the joker count, grows the group of x, and keeps both hands' counters shapes of their non-joker cards |
| Wildcard.JokerReplaced | main.go:85-162 | filling in one joker with a label never gives a better category; a label of the largest group gives the same category and stays the largest group |
| Wildcard.FillPrefix | main.go:85-162 | filling in the jokers of the first k slots never improves the category |
| Wildcard.WildcardsBest | main.go:85-162 | for every hand that fills in each joker with a non-joker label and keeps every other card, `getStrength`'s category is at least as good as that hand's category with J counted as an ordinary label |
| Wildcard.FillBestPrefix | main.go:85-162 | filling with a label of the largest group keeps the category, slot by slot, and that label's group stays the largest |
| Wildcard.LargestGroupLabel | main.go:110-113 | some label other than J occurs as often as the largest counter (any label when every card is a joker) |
| Wildcard.FillWith | main.go:85-162 | the hand with every joker replaced by x and every other card kept is a filling of the jokers |
| Wildcard.FillLargestGroup | main.go:85-162 | filling every joker with a label of the largest group, any label for `JJJJJ`, gives exactly `getStrength`'s category |
| Wildcard.WildcardsAttained | main.go:85-162 | some filling of the jokers reaches `getStrength`'s category, so together with `WildcardsBest` it is the best a wildcard can do |
| Ordering.FirstDiff | main.go:195-199 | the first position where two different hands differ: they agree before it and differ at it |
| Ordering.Value | main.go:184-206 | the `value` closure, with its loop and early returns, answers exactly `Precedes` |
| Ordering.FirstDiffAt | main.go:195-204 | the position where the loop stops is the first difference |
| Ordering.RankInjective | main.go:200 | different labels have different indices in the value table |
| Ordering.StrengthDecides | main.go:185-190 | with different categories, the hand with the larger category number comes first, and only that one |
| Ordering.FirstDifferenceDecides | main.go:192-204 | with equal categories, the first differing card decides: the hand whose card is further down the table comes first, if and only if |
| Ordering.IdenticalCards | main.go:205 | equal categories and equal cards: each hand comes before the other |
| Ordering.PrecedesTotal | main.go:184-206 | any two hands are ordered one way or the other |
| Ordering.PrecedesAntisymmetric | main.go:184-206 | both ways round only for hands with the same category and the same cards |
| Ordering.PrecedesTransitive | main.go:184-206 | the order is transitive |
| Ordering.CardOrderTransitive | main.go:195-204 | card by card, a hand weaker than a weaker hand is weaker |
| Ranking.HandSorter.constructor | main.go:24-27 | the sorter wraps the given slice of hands |
| Ranking.HandSorter.Len | main.go:38-40 | the length of the slice |
| Ranking.HandSorter.Less | main.go:48-50 | calls the closure on the two slots: `Precedes` of those hands |
| Ranking.HandSorter.Swap | main.go:43-45 | exchanges two slots and nothing else, keeping the multiset of hands |
| Ranking.HandSorter.Sort | main.go:23-29 | sorting through `Len`, `Less` and `Swap` leaves the slice sorted weakest first and a permutation of what it was |
| Ranking.SortHands | main.go:207 | `By(value).Sort(hands)`: the hands end sorted weakest first, and a permutation of what they were |
| Ranking.TotalWinnings | main.go:209-213 | the loop's sum is the sum of bid times (position + 1) over the sorted slice |
| Ranking.ClassifyAll | main.go:171-182 | the loop of `main` builds one hand per line, in order, keeping the line's cards and bid, with `getStrength`'s category of the cards; the function `Classify` is the specification it meets, and the rest of the model uses it |
| Ranking.Solve | main.go:171-213 | `main` without I/O: the ranked hands are sorted, a permutation of the classified lines, and the sum is their rank-weighted bids |
| Ranking.WinningsDetermined | main.go:207-213 | when no two hands hold the same cards, every weakest-first ordering is the same, and so is the sum |
| Example.CategoryFromCounts | main.go:97-113 | the category of a hand follows from how many cards of each label it holds |
| Example.CategoryOf32T3K | main.go:85-162 | `32T3K`, in any order, is one pair (5) |
| Example.CategoryOfT55J5 | main.go:85-162 | `T55J5`, in any order, is four of a kind (1) |
| Example.CategoryOfKK677 | main.go:85-162 | `KK677`, in any order, is two pair (4) |
| Example.CategoryOfKTJJT | main.go:85-162 | `KTJJT`, in any order, is four of a kind (1) |
| Example.CategoryOfQQQJA | main.go:85-162 | `QQQJA`, in any order, is four of a kind (1) |
| Example.ExampleStrengths | main.go:171-182 | the hands built from the example's lines have categories 5, 1, 4, 1, 1 and keep their cards and bids |
| Example.ExampleRankedSorted | main.go:184-206 | ordered by the closure, the example runs 32T3K, KK677, T55J5, QQQJA, KTJJT |
| Example.ExampleCardsDistinct | main.go:207 | no two example hands hold the same cards, so the unstable sort has no tie to break |
| Example.ExampleOrder | main.go:207-213 | every weakest-first ordering of the example's hands is that one, and its sum is 5905 |
| Example.WinningsOfFive | main.go:209-213 | the rank-weighted sum of five bids, written out |
| Example.ExampleWinnings | main.go:171-213 | the example's lines, classified, sorted and summed, give 5905 |
| Example.ExampleTotal | main.go:171-213 | `main` on the example's lines computes the sum 5905 |

## Left out

- Opening the file, scanning its lines and printing (main.go:165-170, 172-176, 211, 214) are I/O. The lines come in as a sequence of pairs of cards and bid.
- Splitting a line into fields and the bid's `strconv.Atoi` (main.go:175-178) are parsing, which the model leaves out. Here a bid is always the number given. In the program, the parse error is ignored. A bid that is not a number becomes 0. A number outside Go's `int` range is clamped to the nearest bound of `int`.
- A line with fewer than two fields makes `fields[1]` (main.go:176) index out of range, and the program panics. The model takes its lines already split, so it has no such case.
- Labels outside `AKQT98765432J`, and hands that do not have five cards, are excluded by the types `Card` and `Cards`. Go's `slices.Index` would return -1 for an unknown label.
- Cards are modelled as characters; the program stores them as one-letter strings.
- The category is a plain `int`. Values above 6 are proved never to arise.
- The per-hand line printed by the summation loop (main.go:211) is left out. The loop itself is modelled.
- HandSorter.Sort: runs an insertion sort built only from `Len`, `Less` and `Swap`. It does not model the pattern-defeating quicksort inside Go's `sort.Sort`. Only what `sort.Sort` promises is proved: sorted under `Less`, and a permutation of the input. That permutation is kept because the slice changes only through `Swap`.
- Sorting.SortDescending: the same applies. It is an insertion sort standing in for the library sort of the counters slice.
- Go's map iteration order (main.go:110, 156) is random. The model reads the map in the fixed order of the label table. `SortDescUnique` shows that this order is irrelevant to the sorted counters. `HasRepeatedLabel`'s answer does not depend on the order either.
- `By` is a function type whose `Sort` method wraps the closure; the model passes no closure. `HandSorter.Less` calls `Value`, which models `value`, directly.
- TotalWinnings: does not model Go's 64-bit `int` overflow of the sum or of `bid * (i + 1)`; integers are unbounded.
- The order the program sorts by is not strict: `value` returns true for two hands with the same category and the same cards (main.go:205). The model follows the code, so `Precedes` is a total preorder. Sortedness is stated as "every hand may stand before every later one". A strict order and a stable sort would be needed to fix the order of such duplicates. The program has neither, so for duplicate hands with different bids the sum depends on the library sort. `WinningsDetermined` therefore requires that no two hands hold the same cards.
- ExampleWinnings: requires only the cards of each example hand as a multiset, plus the first card of the three four-of-a-kind hands, which is what breaks their ties. `ExampleTotal` applies it to the example's lines as written.

/**
  Items in order of rank, each rank in the order of the input: what sorting by (rank, index) gives.
 */
module Priorities {
  /** The items of one rank, in order. */
  function OfRank<T>(items: seq<T>, rank: T -> nat, r: nat): seq<T> {
    if items == [] then []
    else
      var last := items[|items| - 1];
      OfRank(items[..|items| - 1], rank, r) + if rank(last) == r then [last] else []
  }

  /** The items of ranks below n, by rank. */
  function Ranked<T>(items: seq<T>, rank: T -> nat, n: nat): seq<T> {
    if n == 0 then [] else Ranked(items, rank, n - 1) + OfRank(items, rank, n - 1)
  }

  /** What comes before the i-th item. */
  function Ahead<T>(items: seq<T>, rank: T -> nat, i: nat): seq<T>
    requires i < |items|
  {
    Ranked(items, rank, rank(items[i])) + OfRank(items[..i], rank, rank(items[i]))
  }

  lemma {:induction false} OfRankPlace<T>(items: seq<T>, rank: T -> nat, i: nat)
    requires i < |items|
    ensures OfRank(items[..i], rank, rank(items[i])) + [items[i]] <= OfRank(items, rank, rank(items[i]))
  {
    var last := |items| - 1;
    if i < last {
      OfRankPlace(items[..last], rank, i);
      assert items[..last][..i] == items[..i];
    }
  }

  lemma {:induction false} RankedGrows<T>(items: seq<T>, rank: T -> nat, r: nat, n: nat)
    requires r < n
    ensures Ranked(items, rank, r) + OfRank(items, rank, r) <= Ranked(items, rank, n)
  {
    if r < n - 1 {
      RankedGrows(items, rank, r, n - 1);
    }
  }

  /** Each item has its place, after those of smaller rank and the earlier ones of its own. */
  lemma Place<T>(items: seq<T>, rank: T -> nat, n: nat, i: nat)
    requires i < |items| && rank(items[i]) < n
    ensures var ranked, k := Ranked(items, rank, n), |Ahead(items, rank, i)|;
            k < |ranked| && ranked[k] == items[i] && ranked[..k] == Ahead(items, rank, i)
  {
    var r := rank(items[i]);
    OfRankPlace(items, rank, i);
    RankedGrows(items, rank, r, n);
    InsidePrefix(Ranked(items, rank, r), OfRank(items[..i], rank, r), items[i], OfRank(items, rank, r), Ranked(items, rank, n));
  }

  lemma {:induction false} OfRankSource<T>(items: seq<T>, rank: T -> nat, r: nat, k: nat) returns (i: nat)
    requires k < |OfRank(items, rank, r)|
    ensures i < |items| && rank(items[i]) == r && |OfRank(items[..i], rank, r)| == k
  {
    var last := |items| - 1;
    if k < |OfRank(items[..last], rank, r)| {
      i := OfRankSource(items[..last], rank, r, k);
      assert items[..last][..i] == items[..i];
    } else {
      i := last;
    }
  }

  /** Each place has its item. */
  lemma {:induction false} PlaceOf<T>(items: seq<T>, rank: T -> nat, n: nat, k: nat) returns (i: nat)
    requires k < |Ranked(items, rank, n)|
    ensures i < |items| && rank(items[i]) < n && |Ahead(items, rank, i)| == k
  {
    var before := |Ranked(items, rank, n - 1)|;
    if k < before {
      i := PlaceOf(items, rank, n - 1, k);
    } else {
      i := OfRankSource(items, rank, n - 1, k - before);
    }
  }

  lemma InsidePrefix<T>(left: seq<T>, part: seq<T>, x: T, right: seq<T>, whole: seq<T>)
    requires part + [x] <= right && left + right <= whole
    ensures var k := |left + part|; k < |whole| && whole[k] == x && whole[..k] == left + part
  {
  }

  /** The items of ranks below r in the order of the input: everything of lower priority left out. */
  function Above<T>(items: seq<T>, rank: T -> nat, r: nat): seq<T> {
    if items == [] then []
    else
      var last := items[|items| - 1];
      Above(items[..|items| - 1], rank, r) + if rank(last) < r then [last] else []
  }

  lemma {:induction false} OfRankAppend<T>(items: seq<T>, x: T, rank: T -> nat, r: nat)
    ensures OfRank(items + [x], rank, r) == OfRank(items, rank, r) + if rank(x) == r then [x] else []
  {
  }

  lemma {:induction false} AboveOfRank<T>(items: seq<T>, rank: T -> nat, r: nat, k: nat)
    requires k < r
    ensures OfRank(Above(items, rank, r), rank, k) == OfRank(items, rank, k)
  {
    if items != [] {
      var init, last := items[..|items| - 1], items[|items| - 1];
      AboveOfRank(init, rank, r, k);
      if rank(last) < r {
        OfRankAppend(Above(init, rank, r), last, rank, k);
      } else {
        assert Above(init, rank, r) + [] == Above(init, rank, r);
        assert OfRank(init, rank, k) + [] == OfRank(init, rank, k);
      }
    }
  }

  lemma {:induction false} SameRanks<T>(items: seq<T>, other: seq<T>, rank: T -> nat, r: nat, n: nat)
    requires n <= r && forall k: nat | k < r :: OfRank(other, rank, k) == OfRank(items, rank, k)
    ensures Ranked(other, rank, n) == Ranked(items, rank, n)
  {
    if n > 0 {
      SameRanks(items, other, rank, r, n - 1);
    }
  }

  /** Leaving out lower priorities leaves the order of the others. */
  lemma AboveRanked<T>(items: seq<T>, rank: T -> nat, r: nat, n: nat)
    requires n <= r
    ensures Ranked(Above(items, rank, r), rank, n) == Ranked(items, rank, n)
  {
    forall k: nat | k < r ensures OfRank(Above(items, rank, r), rank, k) == OfRank(items, rank, k) {
      AboveOfRank(items, rank, r, k);
    }
    SameRanks(items, Above(items, rank, r), rank, r, n);
  }

  /** Where an item is when lower priorities are left out. */
  function Index<T>(items: seq<T>, rank: T -> nat, r: nat, i: nat): nat
    requires i <= |items|
  {
    |Above(items[..i], rank, r)|
  }

  lemma {:induction false} AbovePrefix<T>(items: seq<T>, rank: T -> nat, r: nat, i: nat)
    requires i < |items| && rank(items[i]) < r
    ensures Above(items[..i], rank, r) + [items[i]] <= Above(items, rank, r)
  {
    var last := |items| - 1;
    if i < last {
      AbovePrefix(items[..last], rank, r, i);
      assert items[..last][..i] == items[..i];
    }
  }

  /** What comes before an item does not depend on lower priorities. */
  lemma AheadAbove<T>(items: seq<T>, rank: T -> nat, r: nat, i: nat)
    requires i < |items| && rank(items[i]) < r
    ensures var above, j := Above(items, rank, r), Index(items, rank, r, i);
            j < |above| && above[j] == items[i] && Ahead(above, rank, j) == Ahead(items, rank, i)
  {
    var above, j, k := Above(items, rank, r), Index(items, rank, r, i), rank(items[i]);
    AbovePrefix(items, rank, r, i);
    AboveRanked(items, rank, r, k);
    AboveOfRank(items[..i], rank, r, k);
    assert above[..j] == Above(items[..i], rank, r);
  }

  // ---- adding up ----

  function Sum<T>(items: seq<T>, weight: T -> nat): nat {
    if items == [] then 0 else Sum(items[..|items| - 1], weight) + weight(items[|items| - 1])
  }

  lemma {:induction false} SumConcat<T>(left: seq<T>, right: seq<T>, weight: T -> nat)
    ensures Sum(left + right, weight) == Sum(left, weight) + Sum(right, weight)
  {
    if right == [] {
      assert left + right == left;
    } else {
      SumConcat(left, right[..|right| - 1], weight);
      assert (left + right)[..|left + right| - 1] == left + right[..|right| - 1];
    }
  }

  lemma {:induction false} SumRanked<T>(items: seq<T>, rank: T -> nat, n: nat, weight: T -> nat)
    ensures Sum(Ranked(items, rank, n), weight) == Sum(Above(items, rank, n), weight)
    decreases n
  {
    if n == 0 {
      NothingAbove(items, rank);
    } else {
      var m := n - 1;
      SumRanked(items, rank, m, weight);
      SumOneMore(items, rank, m, weight);
    }
  }

  lemma SumOneMore<T>(items: seq<T>, rank: T -> nat, m: nat, weight: T -> nat)
    requires Sum(Ranked(items, rank, m), weight) == Sum(Above(items, rank, m), weight)
    ensures Sum(Ranked(items, rank, m + 1), weight) == Sum(Above(items, rank, m + 1), weight)
  {
    SumConcat(Ranked(items, rank, m), OfRank(items, rank, m), weight);
    SumSplit(items, rank, m, weight);
  }

  lemma {:induction false} NothingAbove<T>(items: seq<T>, rank: T -> nat)
    ensures Above(items, rank, 0) == []
  {
    if items != [] {
      NothingAbove(items[..|items| - 1], rank);
    }
  }

  lemma {:induction false} SumSplit<T>(items: seq<T>, rank: T -> nat, r: nat, weight: T -> nat)
    ensures Sum(Above(items, rank, r + 1), weight) == Sum(Above(items, rank, r), weight) + Sum(OfRank(items, rank, r), weight)
  {
    if items != [] {
      var init, last := items[..|items| - 1], items[|items| - 1];
      SumSplit(init, rank, r, weight);
      SumConcat(Above(init, rank, r + 1), if rank(last) < r + 1 then [last] else [], weight);
      SumConcat(Above(init, rank, r), if rank(last) < r then [last] else [], weight);
      SumConcat(OfRank(init, rank, r), if rank(last) == r then [last] else [], weight);
    }
  }

  lemma {:induction false} AllAbove<T>(items: seq<T>, rank: T -> nat, n: nat)
    requires forall i | 0 <= i < |items| :: rank(items[i]) < n
    ensures Above(items, rank, n) == items
  {
    if items != [] {
      AllAbove(items[..|items| - 1], rank, n);
    }
  }

  /** Ranking rearranges: every sum over the items stays the same. */
  lemma RankedSum<T>(items: seq<T>, rank: T -> nat, n: nat, weight: T -> nat)
    requires forall i | 0 <= i < |items| :: rank(items[i]) < n
    ensures Sum(Ranked(items, rank, n), weight) == Sum(items, weight)
  {
    SumRanked(items, rank, n, weight);
    AllAbove(items, rank, n);
  }

  // ---- adding up by position ----

  function SumAt(n: nat, weight: nat -> nat): nat {
    if n == 0 then 0 else SumAt(n - 1, weight) + weight(n - 1)
  }

  lemma {:induction false} SumAtAdds(n: nat, f: nat -> nat, g: nat -> nat, h: nat -> nat)
    requires forall i: nat | i < n :: h(i) == f(i) + g(i)
    ensures SumAt(n, h) == SumAt(n, f) + SumAt(n, g)
  {
    if n > 0 {
      SumAtAdds(n - 1, f, g, h);
    }
  }

  lemma {:induction false} SumAtNothing(n: nat, f: nat -> nat)
    requires forall i: nat | i < n :: f(i) == 0
    ensures SumAt(n, f) == 0
  {
    if n > 0 {
      SumAtNothing(n - 1, f);
    }
  }

  function WeightIf(weight: nat -> nat, i: nat, counts: bool): nat { if counts then weight(i) else 0 }

  /** The weight of an item of one rank, or of ranks below one; nothing for other items. */
  function Only<T>(items: seq<T>, rank: T -> nat, r: nat, weight: nat -> nat): nat -> nat {
    (i: nat) => WeightIf(weight, i, i < |items| && rank(items[i]) == r)
  }

  function Below<T>(items: seq<T>, rank: T -> nat, r: nat, weight: nat -> nat): nat -> nat {
    (i: nat) => WeightIf(weight, i, i < |items| && rank(items[i]) < r)
  }

  lemma OneRankMore<T>(items: seq<T>, rank: T -> nat, r: nat, weight: nat -> nat)
    ensures SumAt(|items|, Below(items, rank, r + 1, weight))
         == SumAt(|items|, Below(items, rank, r, weight)) + SumAt(|items|, Only(items, rank, r, weight))
  {
    SumAtAdds(|items|, Below(items, rank, r, weight), Only(items, rank, r, weight), Below(items, rank, r + 1, weight));
  }

  lemma AllBelow<T>(items: seq<T>, rank: T -> nat, n: nat, weight: nat -> nat)
    requires forall i | 0 <= i < |items| :: rank(items[i]) < n
    ensures SumAt(|items|, Below(items, rank, n, weight)) == SumAt(|items|, weight)
  {
    SumAtAdds(|items|, (i: nat) => 0, weight, Below(items, rank, n, weight));
    SumAtNothing(|items|, (i: nat) => 0);
  }

  /** Processing the i-th item in order of rank adds its weight to a measure. */
  ghost predicate AddsAt<T>(items: seq<T>, rank: T -> nat, measure: seq<T> -> nat, weight: nat -> nat, i: nat)
    requires i < |items|
  {
    measure(Ahead(items, rank, i) + [items[i]]) == measure(Ahead(items, rank, i)) + weight(i)
  }

  ghost predicate Grows<T>(items: seq<T>, rank: T -> nat, measure: seq<T> -> nat, weight: nat -> nat) {
    measure([]) == 0 && forall i: nat | i < |items| :: AddsAt(items, rank, measure, weight, i)
  }

  /** The items of ranks below r, and of rank r those among the first n. */
  function UpTo<T>(items: seq<T>, rank: T -> nat, r: nat, n: nat): seq<T>
    requires n <= |items|
  {
    Ranked(items, rank, r) + OfRank(items[..n], rank, r)
  }

  lemma UpToNext<T>(items: seq<T>, rank: T -> nat, r: nat, n: nat)
    requires n < |items|
    ensures if rank(items[n]) == r
            then UpTo(items, rank, r, n) == Ahead(items, rank, n) && UpTo(items, rank, r, n + 1) == Ahead(items, rank, n) + [items[n]]
            else UpTo(items, rank, r, n + 1) == UpTo(items, rank, r, n)
  {
    assert items[..n + 1] == items[..n] + [items[n]];
    OfRankAppend(items[..n], items[n], rank, r);
  }

  /** Going through one rank adds the weights of that rank. */
  lemma {:induction false} RankAdds<T>(items: seq<T>, rank: T -> nat, measure: seq<T> -> nat, weight: nat -> nat, r: nat, n: nat)
    requires Grows(items, rank, measure, weight) && n <= |items|
    ensures measure(UpTo(items, rank, r, n)) == measure(Ranked(items, rank, r)) + SumAt(n, Only(items, rank, r, weight))
  {
    if n == 0 {
      assert UpTo(items, rank, r, 0) == Ranked(items, rank, r);
    } else {
      RankAdds(items, rank, measure, weight, r, n - 1);
      UpToNext(items, rank, r, n - 1);
      assert AddsAt(items, rank, measure, weight, n - 1);
    }
  }

  lemma {:induction false} RanksAdd<T>(items: seq<T>, rank: T -> nat, measure: seq<T> -> nat, weight: nat -> nat, r: nat)
    requires Grows(items, rank, measure, weight)
    ensures measure(Ranked(items, rank, r)) == SumAt(|items|, Below(items, rank, r, weight))
  {
    if r == 0 {
      SumAtNothing(|items|, Below(items, rank, 0, weight));
    } else {
      RanksAdd(items, rank, measure, weight, r - 1);
      RankAdds(items, rank, measure, weight, r - 1, |items|);
      assert items[..|items|] == items;
      assert UpTo(items, rank, r - 1, |items|) == Ranked(items, rank, r);
      OneRankMore(items, rank, r - 1, weight);
    }
  }

  /** In the end it is the sum of the weights, whatever order the items came in. */
  lemma MeasureIsSum<T>(items: seq<T>, rank: T -> nat, measure: seq<T> -> nat, weight: nat -> nat, n: nat)
    requires Grows(items, rank, measure, weight) && forall i | 0 <= i < |items| :: rank(items[i]) < n
    ensures measure(Ranked(items, rank, n)) == SumAt(|items|, weight)
  {
    RanksAdd(items, rank, measure, weight, n);
    AllBelow(items, rank, n, weight);
  }

  /** The weights of what comes before an item: of smaller ranks, and earlier of its own. */
  function AheadSum<T>(items: seq<T>, rank: T -> nat, weight: nat -> nat, i: nat): nat
    requires i < |items|
  {
    SumAt(|items|, Below(items, rank, rank(items[i]), weight)) + SumAt(i, Only(items, rank, rank(items[i]), weight))
  }

  /** What the measure is when the turn of an item comes. */
  lemma AheadIsSum<T>(items: seq<T>, rank: T -> nat, measure: seq<T> -> nat, weight: nat -> nat, i: nat)
    requires Grows(items, rank, measure, weight) && i < |items|
    ensures measure(Ahead(items, rank, i)) == AheadSum(items, rank, weight, i)
  {
    RanksAdd(items, rank, measure, weight, rank(items[i]));
    RankAdds(items, rank, measure, weight, rank(items[i]), i);
    assert UpTo(items, rank, rank(items[i]), i) == Ahead(items, rank, i);
  }
}

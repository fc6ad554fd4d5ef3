/** Sorting as a stable insertion, one element at a time, by any total order. */
module Sorting {
  /** x after everything in a sorted sequence that is not after it. */
  function Inserted<T>(sorted: seq<T>, x: T, notAfter: (T, T) -> bool): (r: seq<T>)
    ensures |r| == |sorted| + 1
  {
    if sorted == [] || notAfter(sorted[|sorted| - 1], x) then sorted + [x]
    else Inserted(sorted[..|sorted| - 1], x, notAfter) + [sorted[|sorted| - 1]]
  }

  ghost predicate Ordered<T>(items: seq<T>, notAfter: (T, T) -> bool) {
    forall i, j | 0 <= i < j < |items| :: notAfter(items[i], items[j])
  }

  ghost predicate TotalOrder<T(!new)>(notAfter: (T, T) -> bool) {
    && (forall a, b :: notAfter(a, b) || notAfter(b, a))
    && (forall a, b, c :: notAfter(a, b) && notAfter(b, c) ==> notAfter(a, c))
  }

  lemma {:induction false} InsertedBefore<T>(sorted: seq<T>, x: T, y: T, notAfter: (T, T) -> bool)
    requires notAfter(x, y) && forall i | 0 <= i < |sorted| :: notAfter(sorted[i], y)
    ensures forall i | 0 <= i < |sorted| + 1 :: notAfter(Inserted(sorted, x, notAfter)[i], y)
  {
    if sorted != [] && !notAfter(sorted[|sorted| - 1], x) {
      InsertedBefore(sorted[..|sorted| - 1], x, y, notAfter);
    }
  }

  lemma {:induction false} InsertedOrdered<T(!new)>(sorted: seq<T>, x: T, notAfter: (T, T) -> bool)
    requires TotalOrder(notAfter) && Ordered(sorted, notAfter)
    ensures Ordered(Inserted(sorted, x, notAfter), notAfter)
  {
    if sorted != [] {
      var init, last := sorted[..|sorted| - 1], sorted[|sorted| - 1];
      if notAfter(last, x) {
        forall i | 0 <= i < |sorted| ensures notAfter(sorted[i], x) {
          assert i == |sorted| - 1 || notAfter(sorted[i], last);
        }
      } else {
        InsertedOrdered(init, x, notAfter);
        InsertedBefore(init, x, last, notAfter);
      }
    }
  }

  lemma {:induction false} InsertedMembers<T>(sorted: seq<T>, x: T, notAfter: (T, T) -> bool)
    ensures forall k | 0 <= k < |sorted| + 1 ::
              Inserted(sorted, x, notAfter)[k] == x || Inserted(sorted, x, notAfter)[k] in sorted
  {
    if sorted != [] && !notAfter(sorted[|sorted| - 1], x) {
      InsertedMembers(sorted[..|sorted| - 1], x, notAfter);
    }
  }
}

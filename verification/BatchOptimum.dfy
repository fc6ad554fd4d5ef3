/**
  The best that any batching can do, in closed form, and how far the greedy plan may be from it: less
  than twice as many batches, and for every size as many as that allows.
 */
module BatchOptimum {
  import opened Counting
  import opened Results
  import opened Sorting
  import opened BatchModel
  import opened BatchTheorems

  /** As many batches as the size cap asks for, and as the domain cap asks for the largest domain. */
  function Optimum(items: seq<Cluster>, caps: Caps): nat
    requires Usable(caps)
  {
    var bySize, byDomain := CeilDiv(|items|, caps.size), Tallest(items, items, caps.perDomain);
    if bySize > byDomain then bySize else byDomain
  }

  /** Some way to put the clusters into batches within the caps. */
  ghost predicate Batching(batches: seq<seq<Cluster>>, items: seq<Cluster>, caps: Caps) {
    && WithinCaps(batches, caps) && Clusters(batches) == |items|
    && forall key :: Spread(batches, key) == Tally(items, key)
  }

  // ---- no batching has fewer ----

  lemma {:induction false} FewGroups(k: nat, n: nat, a: nat)
    requires n > 0
    ensures a <= Span(k, n) <==> CeilDiv(a, n) <= k
  {
    if a > n {
      if k > 0 {
        FewGroups(k - 1, n, a - n);
      }
    } else if k > 0 {
      SpanPositive(k, n);
    }
  }

  lemma SpanPositive(k: nat, n: nat)
    requires k > 0
    ensures Span(k, n) >= n
  {
  }

  lemma {:induction false} TallestLeast(all: seq<Cluster>, some: seq<Cluster>, perDomain: nat, k: nat)
    requires perDomain > 0 && forall domain :: Tally(all, Domain(domain)) <= Span(k, perDomain)
    ensures Tallest(all, some, perDomain) <= k
  {
    if some != [] {
      TallestLeast(all, some[1..], perDomain, k);
      FewGroups(k, perDomain, Tally(all, Domain(some[0].domain)));
    }
  }

  lemma TallestMost(items: seq<Cluster>, perDomain: nat, k: nat, domain: Name)
    requires perDomain > 0 && Tallest(items, items, perDomain) <= k
    ensures Tally(items, Domain(domain)) <= Span(k, perDomain)
  {
    if Tally(items, Domain(domain)) > 0 {
      var i := SomeMember(items, domain);
      TallestBounds(items, items, perDomain, i);
      FewGroups(k, perDomain, Tally(items, Domain(domain)));
    }
  }

  /** k batches have room for the clusters, by number and by domain, exactly if k is at least the optimum. */
  lemma OptimumIs(items: seq<Cluster>, caps: Caps, k: nat)
    requires Usable(caps)
    ensures Optimum(items, caps) <= k <==>
              |items| <= Span(k, caps.size) && forall domain :: Tally(items, Domain(domain)) <= Span(k, caps.perDomain)
  {
    FewGroups(k, caps.size, |items|);
    if Tallest(items, items, caps.perDomain) <= k {
      forall domain ensures Tally(items, Domain(domain)) <= Span(k, caps.perDomain) {
        TallestMost(items, caps.perDomain, k, domain);
      }
    }
    if forall domain :: Tally(items, Domain(domain)) <= Span(k, caps.perDomain) {
      TallestLeast(items, items, caps.perDomain, k);
    }
  }

  lemma OptimumNeeded(items: seq<Cluster>, caps: Caps, other: seq<seq<Cluster>>)
    requires Usable(caps) && Batching(other, items, caps)
    ensures |other| >= Optimum(items, caps)
  {
    BatchingHolds(other, caps, 0);
    forall domain ensures Tally(items, Domain(domain)) <= Span(|other|, caps.perDomain) {
      BatchingHolds(other, caps, domain);
      assert Spread(other, Domain(domain)) == Tally(items, Domain(domain));
    }
    OptimumIs(items, caps, |other|);
  }

  // ---- dealing the clusters out, domain by domain, reaches it ----

  /** Every k-th cluster from the b-th on. */
  function Hand(items: seq<Cluster>, k: nat, b: nat): seq<Cluster>
    requires k > 0
  {
    if items == [] then []
    else Hand(items[..|items| - 1], k, b) + if (|items| - 1) % k == b then [items[|items| - 1]] else []
  }

  /** The hands from the b-th on. */
  function Deal(items: seq<Cluster>, k: nat, b: nat): (hands: seq<seq<Cluster>>)
    requires 0 < k && b <= k
    ensures |hands| == k - b && forall i | 0 <= i < |hands| :: hands[i] == Hand(items, k, b + i)
    decreases k - b
  {
    if b == k then [] else [Hand(items, k, b)] + Deal(items, k, b + 1)
  }

  /** What is counted by a key at positions dealt to the hands from the b-th on. */
  function Rest(items: seq<Cluster>, k: nat, b: nat, key: Key): nat
    requires k > 0
  {
    if items == [] then 0
    else
      Rest(items[..|items| - 1], k, b, key)
      + if (|items| - 1) % k >= b && Matches(items[|items| - 1], key) then 1 else 0
  }

  lemma HandNext(items: seq<Cluster>, k: nat, b: nat, key: Key)
    requires k > 0 && items != []
    ensures var init, last := items[..|items| - 1], items[|items| - 1];
            Tally(Hand(items, k, b), key)
              == Tally(Hand(init, k, b), key) + if |init| % k == b && Matches(last, key) then 1 else 0
  {
    var init, last := items[..|items| - 1], items[|items| - 1];
    TallyAppend(Hand(init, k, b), last, key);
    assert Hand(init, k, b) + [] == Hand(init, k, b);
  }

  lemma {:induction false} RestSplits(items: seq<Cluster>, k: nat, b: nat, key: Key)
    requires k > 0
    ensures Rest(items, k, b, key) == Tally(Hand(items, k, b), key) + Rest(items, k, b + 1, key)
  {
    if items != [] {
      RestSplits(items[..|items| - 1], k, b, key);
      HandNext(items, k, b, key);
    }
  }

  lemma {:induction false} RestBounds(items: seq<Cluster>, k: nat, key: Key)
    requires k > 0
    ensures Rest(items, k, 0, key) == Tally(items, key) && Rest(items, k, k, key) == 0
  {
    if items != [] {
      RestBounds(items[..|items| - 1], k, key);
    }
  }

  lemma {:induction false} DealSpread(items: seq<Cluster>, k: nat, b: nat, key: Key)
    requires 0 < k && b <= k
    ensures Spread(Deal(items, k, b), key) == Rest(items, k, b, key)
    decreases k - b
  {
    if b == k {
      RestBounds(items, k, key);
    } else {
      DealSpread(items, k, b + 1, key);
      RestSplits(items, k, b, key);
      assert Deal(items, k, b)[1..] == Deal(items, k, b + 1);
    }
  }

  /** Of n positions from one on, those dealt to hand b. */
  function Hits(from: nat, n: nat, k: nat, b: nat): (h: nat)
    requires k > 0
    ensures h <= n
  {
    if n == 0 then 0 else Hits(from, n - 1, k, b) + if (from + n - 1) % k == b then 1 else 0
  }

  lemma {:induction false} HitsAdd(from: nat, n: nat, m: nat, k: nat, b: nat)
    requires k > 0
    ensures Hits(from, n + m, k, b) == Hits(from, n, k, b) + Hits(from + n, m, k, b)
  {
    if m > 0 {
      HitsAdd(from, n, m - 1, k, b);
    }
  }

  lemma ModDiffers(x: nat, t: nat, k: nat)
    requires 0 < t < k && t <= x
    ensures (x - t) % k != x % k
  {
    var q, r := x / k, x % k;
    if t <= r {
      DivUnique(x - t, k, q, r - t);
    } else {
      MulOneLess(q, k);
      DivUnique(x - t, k, q - 1, r + k - t);
    }
  }

  lemma MulOneLess(q: nat, k: nat)
    ensures q * k == (q - 1) * k + k
  {
  }

  lemma {:induction false} NoHits(from: nat, n: nat, k: nat, x: nat)
    requires k > 0 && from + n <= x < from + k
    ensures Hits(from, n, k, x % k) == 0
  {
    if n > 0 {
      NoHits(from, n - 1, k, x);
      ModDiffers(x, x - (from + n - 1), k);
    }
  }

  /** Among k positions in a row, each hand gets one at most. */
  lemma {:induction false} OneHit(from: nat, n: nat, k: nat, b: nat)
    requires 0 < k && n <= k
    ensures Hits(from, n, k, b) <= 1
  {
    if n > 0 {
      OneHit(from, n - 1, k, b);
      if (from + n - 1) % k == b {
        NoHits(from, n - 1, k, from + n - 1);
      }
    }
  }

  lemma {:induction false} FewHits(from: nat, n: nat, k: nat, b: nat, c: nat)
    requires 0 < k && n <= Span(c, k)
    ensures Hits(from, n, k, b) <= c
    decreases c
  {
    if n <= k {
      OneHit(from, n, k, b);
    } else {
      HitsAdd(from, k, n - k, k, b);
      OneHit(from, k, k, b);
      FewHits(from + k, n - k, k, b, c - 1);
    }
  }

  lemma {:induction false} HandSize(items: seq<Cluster>, k: nat, b: nat)
    requires k > 0
    ensures |Hand(items, k, b)| == Hits(0, |items|, k, b)
  {
    if items != [] {
      HandSize(items[..|items| - 1], k, b);
    }
  }

  /** Clusters of smaller domains. */
  function Smaller(items: seq<Cluster>, domain: Name): nat {
    if items == [] then 0 else Smaller(items[..|items| - 1], domain) + if items[|items| - 1].domain < domain then 1 else 0
  }

  predicate ByDomain(items: seq<Cluster>) {
    forall i, j | 0 <= i < j < |items| :: items[i].domain <= items[j].domain
  }

  lemma {:induction false} NoneYet(items: seq<Cluster>, domain: Name)
    requires forall i | 0 <= i < |items| :: items[i].domain < domain
    ensures Tally(items, Domain(domain)) == 0
  {
    if items != [] {
      NoneYet(items[..|items| - 1], domain);
    }
  }

  lemma {:induction false} NoneLarger(items: seq<Cluster>, domain: Name)
    requires forall i | 0 <= i < |items| :: items[i].domain <= domain
    ensures Smaller(items, domain) + Tally(items, Domain(domain)) == |items|
  {
    if items != [] {
      NoneLarger(items[..|items| - 1], domain);
    }
  }

  lemma HitsNext(from: nat, n: nat, k: nat, b: nat, at: nat)
    requires k > 0 && at == from + n
    ensures Hits(from, n + 1, k, b) == Hits(from, n, k, b) + if at % k == b then 1 else 0
  {
  }

  /** The clusters of a domain stand in a row, so a hand gets of them what it gets of as many positions. */
  lemma {:induction false} HandDomain(items: seq<Cluster>, k: nat, b: nat, domain: Name)
    requires k > 0 && ByDomain(items)
    ensures Tally(Hand(items, k, b), Domain(domain))
         == Hits(Smaller(items, domain), Tally(items, Domain(domain)), k, b)
  {
    if items != [] {
      var init, last := items[..|items| - 1], items[|items| - 1];
      HandDomain(init, k, b, domain);
      HandNext(items, k, b, Domain(domain));
      if last.domain < domain {
        NoneYet(init, domain);
      } else if last.domain == domain {
        NoneLarger(init, domain);
        HitsNext(Smaller(init, domain), Tally(init, Domain(domain)), k, b, |init|);
      }
    }
  }

  lemma HandWithin(items: seq<Cluster>, caps: Caps, k: nat, b: nat, domain: Name)
    requires Usable(caps) && ByDomain(items) && 0 < k && Optimum(items, caps) <= k
    ensures |Hand(items, k, b)| <= caps.size && Tally(Hand(items, k, b), Domain(domain)) <= caps.perDomain
  {
    OptimumIs(items, caps, k);
    SpanIsProduct(k, caps.size);
    SpanIsProduct(caps.size, k);
    SpanIsProduct(k, caps.perDomain);
    SpanIsProduct(caps.perDomain, k);
    HandSize(items, k, b);
    FewHits(0, |items|, k, b, caps.size);
    HandDomain(items, k, b, domain);
    FewHits(Smaller(items, domain), Tally(items, Domain(domain)), k, b, caps.perDomain);
  }

  /** Hands from the b-th on have what is left of all positions. */
  function Left(n: nat, k: nat, b: nat): nat
    requires k > 0
  {
    if n == 0 then 0 else Left(n - 1, k, b) + if (n - 1) % k >= b then 1 else 0
  }

  lemma {:induction false} LeftSplits(items: seq<Cluster>, k: nat, b: nat)
    requires k > 0
    ensures Left(|items|, k, b) == |Hand(items, k, b)| + Left(|items|, k, b + 1)
  {
    if items != [] {
      LeftSplits(items[..|items| - 1], k, b);
    }
  }

  lemma {:induction false} LeftBounds(n: nat, k: nat)
    requires k > 0
    ensures Left(n, k, 0) == n && Left(n, k, k) == 0
  {
    if n > 0 {
      LeftBounds(n - 1, k);
    }
  }

  lemma {:induction false} DealClusters(items: seq<Cluster>, k: nat, b: nat)
    requires 0 < k && b <= k
    ensures Clusters(Deal(items, k, b)) == Left(|items|, k, b)
    decreases k - b
  {
    if b == k {
      LeftBounds(|items|, k);
    } else {
      DealClusters(items, k, b + 1);
      LeftSplits(items, k, b);
      assert Deal(items, k, b)[1..] == Deal(items, k, b + 1);
    }
  }

  lemma DealIsBatching(items: seq<Cluster>, caps: Caps, k: nat)
    requires Usable(caps) && ByDomain(items) && 0 < k && Optimum(items, caps) <= k
    ensures Batching(Deal(items, k, 0), items, caps)
  {
    var hands := Deal(items, k, 0);
    forall i, domain | 0 <= i < |hands|
      ensures |hands[i]| <= caps.size && Tally(hands[i], Domain(domain)) <= caps.perDomain
    {
      HandWithin(items, caps, k, i, domain);
    }
    DealClusters(items, k, 0);
    LeftBounds(|items|, k);
    forall key ensures Spread(hands, key) == Tally(items, key) {
      DealSpread(items, k, 0, key);
      RestBounds(items, k, key);
    }
  }

  lemma SortedByDomain(items: seq<Cluster>)
    ensures ByDomain(Sorted(items)) && forall key :: Tally(Sorted(items), key) == Tally(items, key)
  {
    SortedOrdered(items);
    forall key ensures Tally(Sorted(items), key) == Tally(items, key) {
      SortedTally(items, key);
    }
  }

  /** Exactly the numbers from the optimum on are numbers of batches that do. */
  lemma OptimumExact(items: seq<Cluster>, caps: Caps, k: nat)
    requires Usable(caps)
    ensures (exists other :: |other| == k && Batching(other, items, caps)) <==> k >= Optimum(items, caps)
  {
    if other :| |other| == k && Batching(other, items, caps) {
      OptimumNeeded(items, caps, other);
    }
    if k >= Optimum(items, caps) {
      var other := SomeBatching(items, caps, k);
    }
  }

  lemma SomeBatching(items: seq<Cluster>, caps: Caps, k: nat) returns (other: seq<seq<Cluster>>)
    requires Usable(caps) && k >= Optimum(items, caps)
    ensures |other| == k && Batching(other, items, caps)
  {
    OptimumIs(items, caps, k);
    if k == 0 {
      other := [];
      assert items == [];
    } else {
      var sorted := Sorted(items);
      SortedByDomain(items);
      OptimumIs(sorted, caps, k);
      DealIsBatching(sorted, caps, k);
      other := Deal(sorted, k, 0);
      assert forall key :: Spread(other, key) == Tally(sorted, key) == Tally(items, key);
    }
  }

  // ---- the plan ----

  function Contents(batches: seq<Batch>): (r: seq<seq<Cluster>>)
    ensures |r| == |batches| && forall i | 0 <= i < |r| :: r[i] == batches[i].clusters
  {
    if batches == [] then [] else [batches[0].clusters] + Contents(batches[1..])
  }

  lemma {:induction false} ContentsAre(batches: seq<Batch>, key: Key)
    ensures Spread(Contents(batches), key) == Total(batches, key) && Clusters(Contents(batches)) == Size(batches)
  {
    if batches != [] {
      ContentsAre(batches[1..], key);
      assert Contents(batches)[1..] == Contents(batches[1..]);
    }
  }

  lemma PlanIsBatching(ring: Name, items: seq<Cluster>, caps: Caps, batches: seq<Batch>)
    requires Usable(caps) && PlanRing(ring, 1, items, caps) == Ok(batches)
    ensures Batching(Contents(batches), items, caps)
  {
    RingPlanned(ring, 1, items, caps);
    forall i | 0 <= i < |batches|
      ensures |batches[i].clusters| <= caps.size && forall name :: Tally(batches[i].clusters, Domain(name)) <= caps.perDomain
    {
      assert Sound(batches[i], ring, 1 + i, caps);
    }
    ContentsAre(batches, Domain(0));
    RingKeeps(ring, 1, items, caps, batches, Domain(0));
    forall key ensures Spread(Contents(batches), key) == Tally(items, key) {
      ContentsAre(batches, key);
      RingKeeps(ring, 1, items, caps, batches, key);
    }
  }

  /** The plan has at least as many batches as the best, and less than twice as many. */
  lemma PlanWithinTwice(eligible: seq<Cluster>, ring: Name, caps: Caps)
    requires Usable(caps) && RingPlan(eligible, ring, caps).Ok?
    ensures var batches, best := RingPlan(eligible, ring, caps).value, Optimum(OfRing(eligible, ring), caps);
            best <= |batches| <= 2 * best && (batches != [] ==> |batches| < 2 * best)
  {
    var items := OfRing(eligible, ring);
    var other := SomeBatching(items, caps, Optimum(items, caps));
    assert forall domain :: Spread(other, Domain(domain)) == Tally(items, Domain(domain));
    RingTwiceTheBest(eligible, ring, caps, other);
    AtLeastBest(ring, items, caps, RingPlan(eligible, ring, caps).value);
  }

  lemma AtLeastBest(ring: Name, items: seq<Cluster>, caps: Caps, batches: seq<Batch>)
    requires Usable(caps) && PlanRing(ring, 1, Sorted(items), caps) == Ok(batches)
    ensures Optimum(items, caps) <= |batches|
  {
    PlanIsBatching(ring, Sorted(items), caps, batches);
    OptimumNeeded(Sorted(items), caps, Contents(batches));
    SortedByDomain(items);
    OptimumIs(items, caps, |batches|);
    OptimumIs(Sorted(items), caps, |batches|);
  }

  // ---- plans that have as many ----

  /** Clusters of one domain each, none of it a given one. */
  predicate Singles(items: seq<Cluster>, domain: Name) {
    && (forall i, j | 0 <= i < j < |items| :: items[i].domain != items[j].domain)
    && (forall i | 0 <= i < |items| :: items[i].domain != domain)
  }

  predicate AllOf(items: seq<Cluster>, domain: Name) {
    forall i | 0 <= i < |items| :: items[i].domain == domain
  }

  lemma {:induction false} NoneOf(items: seq<Cluster>, domain: Name)
    requires forall i | 0 <= i < |items| :: items[i].domain != domain
    ensures Tally(items, Domain(domain)) == 0
  {
    if items != [] {
      NoneOf(items[..|items| - 1], domain);
    }
  }

  lemma {:induction false} OneOf(items: seq<Cluster>, other: Name, domain: Name)
    requires Singles(items, other)
    ensures Tally(items, Domain(domain)) <= 1
  {
    if items != [] {
      OneOf(items[..|items| - 1], other, domain);
      if items[|items| - 1].domain == domain {
        NoneOf(items[..|items| - 1], domain);
      }
    }
  }

  lemma {:induction false} ScanSingles(items: seq<Cluster>, other: Name, m: nat)
    requires Singles(items, other) && |items| <= m
    ensures Scan(items, Caps(m, 1)) == Split(items, [])
  {
    if items != [] {
      var init, last := items[..|items| - 1], items[|items| - 1];
      ScanSingles(init, other, m);
      NoneOf(init, last.domain);
      assert init + [last] == items;
    }
  }

  lemma {:induction false} ScanFull(items: seq<Cluster>, more: seq<Cluster>, other: Name, m: nat)
    requires Singles(items, other) && |items| == m
    ensures Scan(items + more, Caps(m, 1)) == Split(items, more)
  {
    if more == [] {
      assert items + more == items;
      ScanSingles(items, other, m);
    } else {
      var init, last := more[..|more| - 1], more[|more| - 1];
      ScanFull(items, init, other, m);
      assert items + more == (items + init) + [last] && init + [last] == more;
      ScanAppend(items + init, last, Caps(m, 1));
    }
  }

  lemma OneTally(c: Cluster, domain: Name)
    requires c.domain == domain
    ensures Tally([c], Domain(domain)) == 1
  {
    assert [c][..0] == [] && Tally([], Domain(domain)) == 0;
  }

  /** A second cluster of a domain is deferred. */
  lemma PlaceSame(first: Cluster, deferred: seq<Cluster>, c: Cluster, m: nat)
    requires first.domain == c.domain
    ensures Place(Split([first], deferred), c, Caps(m, 1)) == Split([first], deferred + [c])
  {
    OneTally(first, c.domain);
  }

  lemma {:induction false} ScanSame(first: Cluster, more: seq<Cluster>, m: nat)
    requires m > 0 && AllOf(more, first.domain)
    ensures Scan([first] + more, Caps(m, 1)) == Split([first], more)
  {
    if more == [] {
      assert [first] + more == [first] && [] + [first] == [first];
      ScanAppend([], first, Caps(m, 1));
    } else {
      var init, last := more[..|more| - 1], more[|more| - 1];
      assert ([first] + init) + [last] == [first] + more && init + [last] == more;
      ScanSame(first, init, m);
      ScanAppend([first] + init, last, Caps(m, 1));
      PlaceSame(first, init, last, m);
    }
  }

  function OneEach(ring: Name, number: nat, items: seq<Cluster>): (r: seq<Batch>)
    ensures |r| == |items|
    decreases |items|
  {
    if items == [] then [] else [Batch(ring, number, [items[0]])] + OneEach(ring, number + 1, items[1..])
  }

  /** Clusters of one domain go one by one. */
  lemma {:induction false} SameRounds(ring: Name, number: nat, items: seq<Cluster>, domain: Name, m: nat)
    requires m > 0 && AllOf(items, domain)
    ensures PlanRing(ring, number, items, Caps(m, 1)) == Ok(OneEach(ring, number, items))
    decreases |items|
  {
    if items != [] {
      assert [items[0]] + items[1..] == items;
      ScanSame(items[0], items[1..], m);
      SameRounds(ring, number + 1, items[1..], domain, m);
    }
  }

  /** A batch of singles is full. */
  lemma FullRound(ring: Name, number: nat, singles: seq<Cluster>, more: seq<Cluster>, domain: Name, m: nat)
    requires m > 0 && Singles(singles, domain) && |singles| == m
    ensures PlanRing(ring, number, singles + more, Caps(m, 1))
         == Then([Batch(ring, number, singles)], PlanRing(ring, number + 1, more, Caps(m, 1)))
  {
    ScanFull(singles, more, domain, m);
  }

  /** t full batches of singles come first. */
  lemma {:induction false} Rounds(ring: Name, number: nat, singles: seq<Cluster>, more: seq<Cluster>, domain: Name, t: nat, m: nat)
    requires m > 0 && Singles(singles, domain) && |singles| == Span(t, m) && AllOf(more, domain)
    ensures var r := PlanRing(ring, number, singles + more, Caps(m, 1)); r.Ok? && |r.value| == t + |more|
    decreases t
  {
    if t == 0 {
      assert singles + more == more;
      SameRounds(ring, number, more, domain, m);
    } else {
      var first, rest := singles[..m], singles[m..];
      assert singles + more == first + (rest + more);
      FullRound(ring, number, first, rest + more, domain, m);
      Rounds(ring, number + 1, rest, more, domain, t - 1, m);
    }
  }

  function SinglesOf(ring: Name, n: nat): seq<Cluster> { seq(n, i => Cluster(i, ring, i)) }
  function SamesOf(ring: Name, n: nat, m: nat): seq<Cluster> { seq(m, i => Cluster(n + i, ring, n)) }

  lemma {:induction false} AlreadySorted(items: seq<Cluster>)
    requires Ordered(items, NotAfter)
    ensures Sorted(items) == items
  {
    if items != [] {
      AlreadySorted(items[..|items| - 1]);
      assert items[..|items| - 1] + [items[|items| - 1]] == items;
    }
  }

  lemma {:induction false} AllOfRing(items: seq<Cluster>, ring: Name)
    requires forall i | 0 <= i < |items| :: items[i].ring == ring
    ensures OfRing(items, ring) == items
  {
    if items != [] {
      AllOfRing(items[..|items| - 1], ring);
      assert items[..|items| - 1] + [items[|items| - 1]] == items;
    }
  }

  lemma {:induction false} SpanOne(m: nat)
    ensures Span(m, 1) == m
  {
    if m > 0 {
      SpanOne(m - 1);
    }
  }

  lemma FamilyOptimum(singles: seq<Cluster>, more: seq<Cluster>, domain: Name, m: nat)
    requires m > 0 && Singles(singles, domain) && AllOf(more, domain) && |singles| == Span(m - 1, m) && |more| == m
    ensures Optimum(singles + more, Caps(m, 1)) <= m
  {
    SpanOne(m);
    forall name ensures Tally(singles + more, Domain(name)) <= m {
      TallyConcat(singles, more, Domain(name));
      if name == domain {
        NoneOf(singles, name);
      } else {
        OneOf(singles, domain, name);
        NoneOf(more, name);
      }
    }
    OptimumIs(singles + more, Caps(m, 1), m);
  }

  predicate Family(ring: Name, n: nat, m: nat, singles: seq<Cluster>, more: seq<Cluster>) {
    singles == SinglesOf(ring, n) && more == SamesOf(ring, n, m)
  }

  lemma FamilyParts(ring: Name, n: nat, m: nat, singles: seq<Cluster>, more: seq<Cluster>)
    requires Family(ring, n, m, singles, more)
    ensures Singles(singles, n) && AllOf(more, n) && |singles| == n && |more| == m
  {
  }

  lemma FamilyInOrder(ring: Name, n: nat, m: nat, singles: seq<Cluster>, more: seq<Cluster>, items: seq<Cluster>)
    requires Family(ring, n, m, singles, more) && items == singles + more
    ensures OfRing(items, ring) == items && Sorted(items) == items
  {
    AllOfRing(items, ring);
    AlreadySorted(items);
  }

  lemma FamilyPlan(ring: Name, n: nat, m: nat, singles: seq<Cluster>, more: seq<Cluster>)
    requires Family(ring, n, m, singles, more) && m > 0 && n == Span(m - 1, m)
    ensures var r := RingPlan(singles + more, ring, Caps(m, 1)); r.Ok? && |r.value| == 2 * m - 1
  {
    FamilyParts(ring, n, m, singles, more);
    FamilyInOrder(ring, n, m, singles, more, singles + more);
    Rounds(ring, 1, singles, more, n, m - 1, m);
  }

  /** For every m there is a ring for which m batches would do and the plan has 2 m - 1, so the factor of
      two cannot be improved. */
  lemma TwiceIsTight(ring: Name, m: nat) returns (items: seq<Cluster>)
    requires m > 0
    ensures RingPlan(items, ring, Caps(m, 1)).Ok? && |RingPlan(items, ring, Caps(m, 1)).value| == 2 * m - 1
    ensures OfRing(items, ring) == items && Optimum(items, Caps(m, 1)) == m
  {
    var n := Span(m - 1, m);
    var singles, more := SinglesOf(ring, n), SamesOf(ring, n, m);
    items := singles + more;
    FamilyParts(ring, n, m, singles, more);
    FamilyInOrder(ring, n, m, singles, more, items);
    FamilyPlan(ring, n, m, singles, more);
    FamilyOptimum(singles, more, n, m);
    PlanWithinTwice(items, ring, Caps(m, 1));
  }

  // ---- the smallest case ----

  lemma TwoEach(ring: Name, number: nat, c: Cluster, d: Cluster)
    ensures OneEach(ring, number, [c, d]) == [Batch(ring, number, [c]), Batch(ring, number + 1, [d])]
  {
    assert [c, d][1..] == [d] && [d][1..] == [];
    assert OneEach(ring, number + 1, [d]) == [Batch(ring, number + 1, [d])] + OneEach(ring, number + 2, []);
  }

  lemma FullThenSame(ring: Name, number: nat, singles: seq<Cluster>, more: seq<Cluster>, domain: Name, m: nat)
    requires m > 0 && Singles(singles, domain) && |singles| == m && AllOf(more, domain)
    ensures PlanRing(ring, number, singles + more, Caps(m, 1))
         == Ok([Batch(ring, number, singles)] + OneEach(ring, number + 1, more))
  {
    FullRound(ring, number, singles, more, domain, m);
    SameRounds(ring, number + 1, more, domain, m);
  }

  lemma TallyPair(x: Cluster, y: Cluster, key: Key)
    ensures Tally([x, y], key) == (if Matches(x, key) then 1 else 0) + if Matches(y, key) then 1 else 0
  {
    assert [x, y][..1] == [x] && [x][..0] == [];
    assert Tally([x], key) == if Matches(x, key) then 1 else 0;
  }

  lemma SpreadPairs(a: Cluster, b: Cluster, c: Cluster, d: Cluster, key: Key)
    ensures Spread([[a, c], [b, d]], key) == Tally([a, b] + [c, d], key)
  {
    TallyPair(a, c, key);
    TallyPair(b, d, key);
    TallyPair(a, b, key);
    TallyPair(c, d, key);
    TallyConcat([a, b], [c, d], key);
    assert [[a, c], [b, d]][1..] == [[b, d]] && [[b, d]][1..] == [];
    assert Spread([[b, d]], key) == Tally([b, d], key);
  }

  lemma PairsWithinCaps(a: Cluster, b: Cluster, c: Cluster, d: Cluster)
    requires a.domain != c.domain && b.domain != d.domain
    ensures WithinCaps([[a, c], [b, d]], Caps(2, 1)) && Clusters([[a, c], [b, d]]) == 4
  {
    forall name ensures Tally([a, c], Domain(name)) <= 1 && Tally([b, d], Domain(name)) <= 1 {
      TallyPair(a, c, Domain(name));
      TallyPair(b, d, Domain(name));
    }
    assert [[a, c], [b, d]][1..] == [[b, d]] && [[b, d]][1..] == [];
    assert Clusters([[b, d]]) == 2;
  }

  /** The plan is not always the best one: of two domains with one cluster and one with two, batches of
      two without a shared domain take three rounds, where two within the caps hold the same. */
  lemma NotAlwaysBest(ring: Name, a: Cluster, b: Cluster, c: Cluster, d: Cluster, items: seq<Cluster>, other: seq<seq<Cluster>>, caps: Caps)
    requires a.domain < b.domain < c.domain == d.domain
    requires items == [a, b] + [c, d] && other == [[a, c], [b, d]] && caps == Caps(2, 1)
    ensures PlanRing(ring, 1, items, caps) == Ok([Batch(ring, 1, [a, b]), Batch(ring, 2, [c]), Batch(ring, 3, [d])])
    ensures Batching(other, items, caps)
  {
    FullThenSame(ring, 1, [a, b], [c, d], d.domain, 2);
    TwoEach(ring, 2, c, d);
    assert [Batch(ring, 1, [a, b])] + [Batch(ring, 2, [c]), Batch(ring, 3, [d])]
        == [Batch(ring, 1, [a, b]), Batch(ring, 2, [c]), Batch(ring, 3, [d])];
    PairsWithinCaps(a, b, c, d);
    forall key ensures Spread(other, key) == Tally(items, key) {
      SpreadPairs(a, b, c, d, key);
    }
  }
}

/**
  What a plan guarantees: every eligible cluster once, both caps, ring order, and never more than twice
  the batches of the best possible plan.
 */
module BatchTheorems {
  import opened Counting
  import opened Results
  import opened BatchModel

  function Total(batches: seq<Batch>, key: Key): nat {
    if batches == [] then 0 else Tally(batches[0].clusters, key) + Total(batches[1..], key)
  }

  function Size(batches: seq<Batch>): nat {
    if batches == [] then 0 else |batches[0].clusters| + Size(batches[1..])
  }

  predicate Usable(caps: Caps) { caps.size >= 1 && caps.perDomain >= 1 }

  // ---- one pass ----

  lemma {:induction false} ScanKeeps(remaining: seq<Cluster>, caps: Caps, key: Key)
    ensures var split := Scan(remaining, caps);
            Tally(split.selected, key) + Tally(split.deferred, key) == Tally(remaining, key)
  {
    if remaining != [] {
      var before, c := Scan(remaining[..|remaining| - 1], caps), remaining[|remaining| - 1];
      ScanKeeps(remaining[..|remaining| - 1], caps, key);
      TallyAppend(before.selected, c, key);
      TallyAppend(before.deferred, c, key);
    }
  }

  /** A selection respects both caps. */
  lemma {:induction false} ScanCaps(remaining: seq<Cluster>, caps: Caps, domain: Name)
    requires Usable(caps)
    ensures var selected := Scan(remaining, caps).selected;
            |selected| <= caps.size && Tally(selected, Domain(domain)) <= caps.perDomain
  {
    if remaining != [] {
      ScanCaps(remaining[..|remaining| - 1], caps, domain);
      TallyAppend(Scan(remaining[..|remaining| - 1], caps).selected, remaining[|remaining| - 1], Domain(domain));
    }
  }

  /** A selection is as large as the caps allow: what is left behind would not fit any more. */
  lemma {:induction false} ScanMaximal(remaining: seq<Cluster>, caps: Caps, domain: Name)
    requires Usable(caps)
    ensures var split := Scan(remaining, caps);
            Tally(split.deferred, Domain(domain)) > 0 && |split.selected| < caps.size ==>
              Tally(split.selected, Domain(domain)) == caps.perDomain
  {
    if remaining != [] {
      var before, c := Scan(remaining[..|remaining| - 1], caps), remaining[|remaining| - 1];
      ScanMaximal(remaining[..|remaining| - 1], caps, domain);
      ScanCaps(remaining[..|remaining| - 1], caps, domain);
      TallyAppend(before.selected, c, Domain(domain));
      TallyAppend(before.deferred, c, Domain(domain));
    }
  }

  /** With usable caps the first cluster is always selected, and with others none is. */
  lemma {:induction false} ScanStarts(remaining: seq<Cluster>, caps: Caps)
    requires remaining != []
    ensures Scan(remaining, caps).selected != [] <==> Usable(caps)
  {
    if |remaining| > 1 {
      ScanStarts(remaining[..|remaining| - 1], caps);
    }
  }

  // ---- one ring ----

  /** Not empty, and within the caps. */
  ghost predicate Sound(batch: Batch, ring: Name, number: nat, caps: Caps) {
    && batch.ring == ring && batch.number == number
    && 1 <= |batch.clusters| <= caps.size
    && forall name :: Tally(batch.clusters, Domain(name)) <= caps.perDomain
  }

  /** Sound batches of a ring, numbered from a number on. */
  ghost predicate WellFormed(ring: Name, number: nat, batches: seq<Batch>, caps: Caps) {
    forall i | 0 <= i < |batches| :: Sound(batches[i], ring, number + i, caps)
  }

  lemma ScanSound(ring: Name, number: nat, remaining: seq<Cluster>, caps: Caps)
    requires Usable(caps) && remaining != []
    ensures Sound(Batch(ring, number, Scan(remaining, caps).selected), ring, number, caps)
  {
  }

  /** The planner can always make progress: the error branch is reached only with a cap that is not
      positive, and then by every ring that has clusters. */
  lemma {:induction false} RingPlanned(ring: Name, number: nat, remaining: seq<Cluster>, caps: Caps)
    ensures PlanRing(ring, number, remaining, caps).Ok? <==> remaining == [] || Usable(caps)
    ensures var r := PlanRing(ring, number, remaining, caps);
            if r.Err? then r.error == InputError else WellFormed(ring, number, r.value, caps)
    decreases |remaining|
  {
    if remaining != [] {
      ScanStarts(remaining, caps);
      if Usable(caps) {
        ScanSound(ring, number, remaining, caps);
        RingPlanned(ring, number + 1, Scan(remaining, caps).deferred, caps);
      }
    }
  }

  /** A ring's batches hold exactly its clusters. */
  lemma {:induction false} RingKeeps(ring: Name, number: nat, remaining: seq<Cluster>, caps: Caps, batches: seq<Batch>, key: Key)
    requires PlanRing(ring, number, remaining, caps) == Ok(batches)
    ensures Total(batches, key) == Tally(remaining, key) && Size(batches) == |remaining|
    decreases |remaining|
  {
    if remaining != [] {
      ScanKeeps(remaining, caps, key);
      RingKeeps(ring, number + 1, Scan(remaining, caps).deferred, caps, batches[1..], key);
    }
  }

  function Full(batches: seq<Batch>, caps: Caps): (n: nat)
    ensures n <= |batches|
  {
    if batches == [] then 0 else Full(batches[1..], caps) + if |batches[0].clusters| == caps.size then 1 else 0
  }

  lemma {:induction false} FullBatches(batches: seq<Batch>, caps: Caps)
    requires caps.size >= 0
    ensures Span(Full(batches, caps), caps.size) <= Size(batches)
  {
    if batches != [] {
      FullBatches(batches[1..], caps);
    }
  }

  /** Batches that are not full. */
  function Short(batches: seq<Batch>, caps: Caps): nat { |batches| - Full(batches, caps) }

  /** A batch that is not full takes all it may from every domain of which something remains. */
  lemma ShortTakes(remaining: seq<Cluster>, caps: Caps, domain: Name)
    requires Usable(caps)
    ensures var split := Scan(remaining, caps);
            var left := Tally(split.deferred, Domain(domain));
            && |split.selected| <= caps.size && left <= Tally(remaining, Domain(domain))
            && (|split.selected| < caps.size && left > 0 ==> left + caps.perDomain == Tally(remaining, Domain(domain)))
  {
    ScanCaps(remaining, caps, domain);
    ScanKeeps(remaining, caps, Domain(domain));
    ScanMaximal(remaining, caps, domain);
  }

  lemma ShortGrows(batches: seq<Batch>, caps: Caps, left: nat, before: nat)
    requires Usable(caps) && batches != [] && |batches[0].clusters| <= caps.size
    requires Short(batches[1..], caps) > 0 && left > Span(Short(batches[1..], caps) - 1, caps.perDomain)
    requires before >= left && (|batches[0].clusters| < caps.size ==> before == left + caps.perDomain)
    ensures before > Span(Short(batches, caps) - 1, caps.perDomain)
  {
  }

  /** If k batches are not full, some domain has more clusters than k - 1 batches may take from it. */
  lemma {:induction false} Partial(ring: Name, number: nat, remaining: seq<Cluster>, caps: Caps, batches: seq<Batch>)
    returns (domain: Name)
    requires Usable(caps) && PlanRing(ring, number, remaining, caps) == Ok(batches)
    ensures Short(batches, caps) > 0 ==>
              Tally(remaining, Domain(domain)) > Span(Short(batches, caps) - 1, caps.perDomain)
    decreases |remaining|
  {
    if remaining == [] {
      return 0;
    }
    var split := Scan(remaining, caps);
    domain := Partial(ring, number + 1, split.deferred, caps, batches[1..]);
    if Short(batches[1..], caps) == 0 {
      domain := remaining[0].domain;
      TallyPositive(remaining, 0, Domain(domain));
    } else {
      ShortTakes(remaining, caps, domain);
      ShortGrows(batches, caps, Tally(split.deferred, Domain(domain)), Tally(remaining, Domain(domain)));
    }
  }

  /** The most batches any one domain needs. */
  function Tallest(all: seq<Cluster>, some: seq<Cluster>, perDomain: nat): nat
    requires perDomain > 0
  {
    if some == [] then 0
    else
      var rest := Tallest(all, some[1..], perDomain);
      var here := CeilDiv(Tally(all, Domain(some[0].domain)), perDomain);
      if here > rest then here else rest
  }

  lemma {:induction false} TallestBounds(all: seq<Cluster>, some: seq<Cluster>, perDomain: nat, i: nat)
    requires perDomain > 0 && i < |some|
    ensures CeilDiv(Tally(all, Domain(some[i].domain)), perDomain) <= Tallest(all, some, perDomain)
  {
    if i > 0 {
      TallestBounds(all, some[1..], perDomain, i - 1);
    }
  }

  lemma {:induction false} MoreGroups(k: nat, n: nat, a: nat)
    requires n > 0 && a > Span(k, n)
    ensures CeilDiv(a, n) >= k + 1
  {
    if k > 0 {
      MoreGroups(k - 1, n, a - n);
    }
  }

  lemma {:induction false} SomeMember(items: seq<Cluster>, domain: Name) returns (i: nat)
    requires Tally(items, Domain(domain)) > 0
    ensures i < |items| && items[i].domain == domain
  {
    i := |items| - 1;
    if items[i].domain != domain {
      i := SomeMember(items[..|items| - 1], domain);
    }
  }

  lemma ShortBound(ring: Name, number: nat, remaining: seq<Cluster>, caps: Caps, batches: seq<Batch>)
    requires Usable(caps) && PlanRing(ring, number, remaining, caps) == Ok(batches)
    ensures Short(batches, caps) <= Tallest(remaining, remaining, caps.perDomain)
  {
    var domain := Partial(ring, number, remaining, caps, batches);
    if Short(batches, caps) > 0 {
      MoreGroups(Short(batches, caps) - 1, caps.perDomain, Tally(remaining, Domain(domain)));
      var i := SomeMember(remaining, domain);
      TallestBounds(remaining, remaining, caps.perDomain, i);
    }
  }

  /** A ring of n clusters gets at most n / size full batches, and no more others than the largest
      number of batches any single failure domain needs by itself. */
  lemma RingBound(ring: Name, number: nat, remaining: seq<Cluster>, caps: Caps, batches: seq<Batch>)
    requires Usable(caps) && PlanRing(ring, number, remaining, caps) == Ok(batches)
    ensures |batches| <= |remaining| / caps.size + Tallest(remaining, remaining, caps.perDomain)
  {
    RingKeeps(ring, number, remaining, caps, batches, Domain(0));
    FullBatches(batches, caps);
    FitsInto(Full(batches, caps), caps.size, |remaining|);
    ShortBound(ring, number, remaining, caps, batches);
  }

  lemma FitsInto(k: nat, n: nat, a: nat)
    requires n > 0 && Span(k, n) <= a
    ensures k <= a / n
  {
    QuotRem(a, n);
    if Quot(a, n) < k {
      SpanGrows(Quot(a, n), k, n);
    }
  }

  // ---- any other way to batch the same clusters ----

  function Clusters(batching: seq<seq<Cluster>>): nat {
    if batching == [] then 0 else |batching[0]| + Clusters(batching[1..])
  }

  function Spread(batching: seq<seq<Cluster>>, key: Key): nat {
    if batching == [] then 0 else Tally(batching[0], key) + Spread(batching[1..], key)
  }

  ghost predicate WithinCaps(batching: seq<seq<Cluster>>, caps: Caps) {
    forall i | 0 <= i < |batching| ::
      |batching[i]| <= caps.size && forall name :: Tally(batching[i], Domain(name)) <= caps.perDomain
  }

  lemma {:induction false} BatchingHolds(batching: seq<seq<Cluster>>, caps: Caps, domain: Name)
    requires Usable(caps) && WithinCaps(batching, caps)
    ensures Clusters(batching) <= Span(|batching|, caps.size)
    ensures Spread(batching, Domain(domain)) <= Span(|batching|, caps.perDomain)
  {
    if batching != [] {
      BatchingHolds(batching[1..], caps, domain);
      assert Tally(batching[0], Domain(domain)) <= caps.perDomain;
    }
  }

  lemma SpanOrder(k: nat, l: nat, n: nat)
    requires n > 0 && Span(k, n) <= Span(l, n)
    ensures k <= l
  {
  }

  lemma SpanOrderStrict(k: nat, l: nat, n: nat)
    requires n > 0 && Span(k, n) < Span(l, n)
    ensures k < l
  {
  }

  lemma ShortBeatsNobody(short: nat, other: seq<seq<Cluster>>, caps: Caps, domain: Name)
    requires Usable(caps) && WithinCaps(other, caps)
    requires short > 0 ==> Spread(other, Domain(domain)) > Span(short - 1, caps.perDomain)
    ensures short <= |other|
  {
    BatchingHolds(other, caps, domain);
    if short > 0 {
      SpanOrderStrict(short - 1, |other|, caps.perDomain);
    }
  }

  lemma {:induction false} NoneEmpty(ring: Name, number: nat, batches: seq<Batch>, caps: Caps)
    requires caps.size >= 0 && WellFormed(ring, number, batches, caps)
    ensures Span(Full(batches, caps), caps.size) + Short(batches, caps) <= Size(batches)
    decreases |batches|
  {
    if batches != [] {
      assert Sound(batches[0], ring, number, caps);
      forall i | 0 <= i < |batches[1..]| ensures Sound(batches[1..][i], ring, number + 1 + i, caps) {
        assert Sound(batches[i + 1], ring, number + (i + 1), caps);
      }
      NoneEmpty(ring, number + 1, batches[1..], caps);
    }
  }

  lemma LessThanTwice(full: nat, short: nat, n: nat, k: nat, size: nat)
    requires size > 0 && short <= k && Span(full, size) + short <= n <= Span(k, size)
    ensures full + short <= 2 * k && (full + short > 0 ==> full + short < 2 * k)
  {
    if short == 0 {
      SpanOrder(full, k, size);
    } else {
      SpanOrderStrict(full, k, size);
    }
  }

  /** Within a factor of two of the best: any batching of the ring's clusters that respects the caps has
      more than half as many batches as the plan. */
  lemma TwiceTheBest(ring: Name, number: nat, remaining: seq<Cluster>, caps: Caps, batches: seq<Batch>, other: seq<seq<Cluster>>)
    requires Usable(caps) && PlanRing(ring, number, remaining, caps) == Ok(batches)
    requires WithinCaps(other, caps) && Clusters(other) == |remaining|
    requires forall domain :: Spread(other, Domain(domain)) == Tally(remaining, Domain(domain))
    ensures |batches| <= 2 * |other| && (batches != [] ==> |batches| < 2 * |other|)
  {
    RingPlanned(ring, number, remaining, caps);
    NoneEmpty(ring, number, batches, caps);
    RingKeeps(ring, number, remaining, caps, batches, Domain(0));
    BatchingHolds(other, caps, 0);
    var domain := Partial(ring, number, remaining, caps, batches);
    assert Spread(other, Domain(domain)) == Tally(remaining, Domain(domain));
    ShortBeatsNobody(Short(batches, caps), other, caps, domain);
    LessThanTwice(Full(batches, caps), Short(batches, caps), |remaining|, |other|, caps.size);
  }

  /** The same for a ring of the fleet. */
  lemma RingTwiceTheBest(eligible: seq<Cluster>, ring: Name, caps: Caps, other: seq<seq<Cluster>>)
    requires Usable(caps) && RingPlan(eligible, ring, caps).Ok?
    requires WithinCaps(other, caps) && Clusters(other) == |OfRing(eligible, ring)|
    requires forall domain :: Spread(other, Domain(domain)) == Tally(OfRing(eligible, ring), Domain(domain))
    ensures var batches := RingPlan(eligible, ring, caps).value;
            |batches| <= 2 * |other| && (batches != [] ==> |batches| < 2 * |other|)
  {
    var clusters := OfRing(eligible, ring);
    forall domain ensures Spread(other, Domain(domain)) == Tally(Sorted(clusters), Domain(domain)) {
      SortedTally(clusters, Domain(domain));
    }
    TwiceTheBest(ring, 1, Sorted(clusters), caps, RingPlan(eligible, ring, caps).value, other);
  }

  /** One of the two caps does not bind: no domain has more than a batch may take of it, or all clusters
      fit one batch by number. */
  ghost predicate OneCapOnly(remaining: seq<Cluster>, caps: Caps) {
    (forall domain :: Tally(remaining, Domain(domain)) <= caps.perDomain) || |remaining| <= caps.size
  }

  /** Then at most one batch is not full, or none is. */
  lemma OneCapShape(ring: Name, number: nat, remaining: seq<Cluster>, caps: Caps, batches: seq<Batch>)
    requires Usable(caps) && PlanRing(ring, number, remaining, caps) == Ok(batches) && OneCapOnly(remaining, caps)
    ensures Short(batches, caps) <= 1 || Full(batches, caps) == 0
    ensures Span(Full(batches, caps), caps.size) + Short(batches, caps) <= |remaining|
  {
    RingPlanned(ring, number, remaining, caps);
    NoneEmpty(ring, number, batches, caps);
    RingKeeps(ring, number, remaining, caps, batches, Domain(0));
    if |remaining| > caps.size {
      var domain := Partial(ring, number, remaining, caps, batches);
      assert Tally(remaining, Domain(domain)) <= caps.perDomain;
    }
  }

  lemma FullAndOneFit(full: nat, short: nat, n: nat, k: nat, size: nat)
    requires size > 0 && short <= 1 && Span(full, size) + short <= n <= Span(k, size)
    ensures full + short <= k
  {
    if short == 0 {
      SpanOrder(full, k, size);
    } else {
      SpanOrderStrict(full, k, size);
    }
  }

  lemma FewShort(batches: seq<Batch>, n: nat, caps: Caps, other: seq<seq<Cluster>>)
    requires Usable(caps) && Short(batches, caps) <= 1 && Span(Full(batches, caps), caps.size) + Short(batches, caps) <= n
    requires WithinCaps(other, caps) && Clusters(other) == n
    ensures |batches| <= |other|
  {
    BatchingHolds(other, caps, 0);
    FullAndOneFit(Full(batches, caps), Short(batches, caps), n, |other|, caps.size);
  }

  lemma {:induction false} NoneFull(ring: Name, number: nat, remaining: seq<Cluster>, caps: Caps, batches: seq<Batch>, other: seq<seq<Cluster>>)
    requires Usable(caps) && PlanRing(ring, number, remaining, caps) == Ok(batches) && Full(batches, caps) == 0
    requires WithinCaps(other, caps)
    requires forall domain :: Spread(other, Domain(domain)) == Tally(remaining, Domain(domain))
    ensures |batches| <= |other|
  {
    var domain := Partial(ring, number, remaining, caps, batches);
    assert Spread(other, Domain(domain)) == Tally(remaining, Domain(domain));
    ShortBeatsNobody(Short(batches, caps), other, caps, domain);
  }

  /** The plan is the best one if only one of the caps binds. */
  lemma BestWithOneCap(ring: Name, number: nat, remaining: seq<Cluster>, caps: Caps, batches: seq<Batch>, other: seq<seq<Cluster>>)
    requires Usable(caps) && PlanRing(ring, number, remaining, caps) == Ok(batches) && OneCapOnly(remaining, caps)
    requires WithinCaps(other, caps) && Clusters(other) == |remaining|
    requires forall domain :: Spread(other, Domain(domain)) == Tally(remaining, Domain(domain))
    ensures |batches| <= |other|
  {
    OneCapShape(ring, number, remaining, caps, batches);
    if Full(batches, caps) == 0 {
      NoneFull(ring, number, remaining, caps, batches, other);
    } else {
      FewShort(batches, |remaining|, caps, other);
    }
  }

  /** The same for a ring of the fleet. */
  lemma RingBestWithOneCap(eligible: seq<Cluster>, ring: Name, caps: Caps, other: seq<seq<Cluster>>)
    requires Usable(caps) && RingPlan(eligible, ring, caps).Ok? && OneCapOnly(OfRing(eligible, ring), caps)
    requires WithinCaps(other, caps) && Clusters(other) == |OfRing(eligible, ring)|
    requires forall domain :: Spread(other, Domain(domain)) == Tally(OfRing(eligible, ring), Domain(domain))
    ensures |RingPlan(eligible, ring, caps).value| <= |other|
  {
    var clusters := OfRing(eligible, ring);
    forall domain ensures Tally(Sorted(clusters), Domain(domain)) == Tally(clusters, Domain(domain)) {
      SortedTally(clusters, Domain(domain));
    }
    BestWithOneCap(ring, 1, Sorted(clusters), caps, RingPlan(eligible, ring, caps).value, other);
  }

  lemma ScanAppend(remaining: seq<Cluster>, c: Cluster, caps: Caps)
    ensures Scan(remaining + [c], caps) == Place(Scan(remaining, caps), c, caps)
  {
  }

  // ---- the whole plan ----

  predicate Known(eligible: seq<Cluster>, ringOrder: seq<Name>) {
    forall i | 0 <= i < |eligible| :: eligible[i].ring in ringOrder
  }

  predicate Distinct(names: seq<Name>) {
    forall i, j | 0 <= i < j < |names| :: names[i] != names[j]
  }

  /** A ring's clusters are the eligible ones that name it. */
  lemma {:induction false} RingHas(eligible: seq<Cluster>, ring: Name, c: Cluster)
    ensures Tally(OfRing(eligible, ring), Same(c)) == if c.ring == ring then Tally(eligible, Same(c)) else 0
  {
    if eligible != [] {
      var init, last := eligible[..|eligible| - 1], eligible[|eligible| - 1];
      RingHas(init, ring, c);
      if last.ring == ring {
        TallyAppend(OfRing(init, ring), last, Same(c));
      } else {
        assert OfRing(init, ring) + [] == OfRing(init, ring);
      }
    }
  }

  lemma {:induction false} TotalConcat(left: seq<Batch>, right: seq<Batch>, key: Key)
    ensures Total(left + right, key) == Total(left, key) + Total(right, key)
  {
    if left == [] {
      assert left + right == right;
    } else {
      TotalConcat(left[1..], right, key);
      assert (left + right)[1..] == left[1..] + right;
    }
  }

  /** The batches of one ring hold the eligible clusters of that ring. */
  lemma RingPlanKeeps(eligible: seq<Cluster>, ring: Name, caps: Caps, c: Cluster)
    requires RingPlan(eligible, ring, caps).Ok?
    ensures Total(RingPlan(eligible, ring, caps).value, Same(c))
         == if c.ring == ring then Tally(eligible, Same(c)) else 0
  {
    var clusters := OfRing(eligible, ring);
    RingKeeps(ring, 1, Sorted(clusters), caps, RingPlan(eligible, ring, caps).value, Same(c));
    SortedTally(clusters, Same(c));
    RingHas(eligible, ring, c);
  }

  /** How often a cluster appears in plans joined together. */
  lemma {:induction false} JoinKeeps(plans: seq<Result<seq<Batch>>>, ringOrder: seq<Name>, c: Cluster, n: nat)
    requires |plans| == |ringOrder| && Join(plans).Ok? && Distinct(ringOrder)
    requires forall i | 0 <= i < |plans| :: plans[i].Ok? ==>
               Total(plans[i].value, Same(c)) == if c.ring == ringOrder[i] then n else 0
    ensures Total(Join(plans).value, Same(c)) == if c.ring in ringOrder then n else 0
  {
    if plans != [] {
      var last := |plans| - 1;
      JoinKeeps(plans[..last], ringOrder[..last], c, n);
      TotalConcat(Join(plans[..last]).value, plans[last].value, Same(c));
      assert c.ring in ringOrder <==> c.ring in ringOrder[..last] || c.ring == ringOrder[last];
    }
  }

  lemma {:induction false} NobodyLost(eligible: seq<Cluster>, c: Cluster, ringOrder: seq<Name>)
    requires Known(eligible, ringOrder) && Tally(eligible, Same(c)) > 0
    ensures c.ring in ringOrder
  {
    if eligible[|eligible| - 1] != c {
      NobodyLost(eligible[..|eligible| - 1], c, ringOrder);
    }
  }

  /** The plan is a partition of the eligible clusters, if every ring is known and listed once. */
  lemma ExactPartition(eligible: seq<Cluster>, ringOrder: seq<Name>, caps: Caps, c: Cluster)
    requires Plan(eligible, ringOrder, caps).Ok? && Distinct(ringOrder) && Known(eligible, ringOrder)
    ensures Total(Plan(eligible, ringOrder, caps).value, Same(c)) == Tally(eligible, Same(c))
  {
    var plans := RingPlans(eligible, ringOrder, caps);
    forall i | 0 <= i < |plans| && plans[i].Ok?
      ensures Total(plans[i].value, Same(c)) == if c.ring == ringOrder[i] then Tally(eligible, Same(c)) else 0
    {
      RingPlanKeeps(eligible, ringOrder[i], caps, c);
    }
    JoinKeeps(plans, ringOrder, c, Tally(eligible, Same(c)));
    if Tally(eligible, Same(c)) > 0 {
      NobodyLost(eligible, c, ringOrder);
    }
  }

  lemma {:induction false} JoinErrors(plans: seq<Result<seq<Batch>>>)
    ensures Join(plans).Ok? <==> forall i | 0 <= i < |plans| :: plans[i].Ok?
    ensures Join(plans).Err? ==> exists i | 0 <= i < |plans| :: plans[i] == Join(plans)
  {
    if plans != [] {
      JoinErrors(plans[..|plans| - 1]);
    }
  }

  lemma RingPlanOk(eligible: seq<Cluster>, ring: Name, caps: Caps)
    ensures RingPlan(eligible, ring, caps).Ok? <==> Usable(caps) || OfRing(eligible, ring) == []
    ensures RingPlan(eligible, ring, caps).Err? ==> RingPlan(eligible, ring, caps).error == InputError
    ensures RingPlan(eligible, ring, caps).Ok? ==> WellFormed(ring, 1, RingPlan(eligible, ring, caps).value, caps)
  {
    RingPlanned(ring, 1, Sorted(OfRing(eligible, ring)), caps);
  }

  /** Planning fails exactly if a ring with clusters meets a cap that is not positive. */
  lemma PlanErrors(eligible: seq<Cluster>, ringOrder: seq<Name>, caps: Caps)
    ensures Plan(eligible, ringOrder, caps).Ok? <==>
              Usable(caps) || forall i | 0 <= i < |ringOrder| :: OfRing(eligible, ringOrder[i]) == []
    ensures Plan(eligible, ringOrder, caps).Err? ==> Plan(eligible, ringOrder, caps).error == InputError
  {
    var plans := RingPlans(eligible, ringOrder, caps);
    JoinErrors(plans);
    forall i | 0 <= i < |plans|
      ensures plans[i].Ok? <==> Usable(caps) || OfRing(eligible, ringOrder[i]) == []
      ensures plans[i].Err? ==> plans[i].error == InputError
    {
      RingPlanOk(eligible, ringOrder[i], caps);
    }
  }

  lemma {:induction false} JoinSlice(plans: seq<Result<seq<Batch>>>, i: nat) returns (from: nat, to: nat)
    requires Join(plans).Ok? && i < |plans|
    ensures from <= to <= |Join(plans).value|
    ensures plans[i] == Ok(Join(plans).value[from..to])
    ensures Join(plans[..i]) == Ok(Join(plans).value[..from])
  {
    var init, last := plans[..|plans| - 1], plans[|plans| - 1];
    var before := Join(init).value;
    if i == |plans| - 1 {
      from, to := |before|, |before| + |last.value|;
      assert (before + last.value)[from..to] == last.value;
    } else {
      from, to := JoinSlice(init, i);
      assert init[..i] == plans[..i];
      assert (before + last.value)[from..to] == before[from..to];
    }
    assert (before + last.value)[..from] == before[..from];
  }

  /** The plan goes ring by ring in the given order; within a ring the batches are numbered from one,
      none is empty and all are within the caps. */
  lemma RingByRing(eligible: seq<Cluster>, ringOrder: seq<Name>, caps: Caps, i: nat) returns (from: nat, to: nat)
    requires Plan(eligible, ringOrder, caps).Ok? && i < |ringOrder|
    ensures from <= to <= |Plan(eligible, ringOrder, caps).value|
    ensures WellFormed(ringOrder[i], 1, Plan(eligible, ringOrder, caps).value[from..to], caps)
    ensures RingPlan(eligible, ringOrder[i], caps) == Ok(Plan(eligible, ringOrder, caps).value[from..to])
    ensures Plan(eligible, ringOrder[..i], caps) == Ok(Plan(eligible, ringOrder, caps).value[..from])
  {
    var plans := RingPlans(eligible, ringOrder, caps);
    from, to := JoinSlice(plans, i);
    RingPlanOk(eligible, ringOrder[i], caps);
    assert RingPlans(eligible, ringOrder[..i], caps) == plans[..i];
  }
}

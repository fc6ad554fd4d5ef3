/** The planner's loops, proved to compute the plan of BatchModel. */
module BatchPlanner {
  import opened Results
  import opened BatchModel

  /** counts[name] of a dictionary that starts at zero. */
  function At(counts: map<Name, nat>, name: Name): nat {
    if name in counts then counts[name] else 0
  }

  /** by_ring.get(ring, []). */
  function Listed(byRing: map<Name, seq<Cluster>>, ring: Name): seq<Cluster> {
    if ring in byRing then byRing[ring] else []
  }

  /** The inner loop: one pass over what remains of a ring. */
  method SelectBatch(remaining: seq<Cluster>, caps: Caps) returns (selected: seq<Cluster>, deferred: seq<Cluster>)
    ensures Split(selected, deferred) == Scan(remaining, caps)
  {
    selected, deferred := [], [];
    var counts: map<Name, nat> := map[];
    for i := 0 to |remaining|
      invariant Split(selected, deferred) == Scan(remaining[..i], caps)
      invariant forall name :: At(counts, name) == Tally(selected, Domain(name))
    {
      var item := remaining[i];
      assert remaining[..i + 1][..i] == remaining[..i];
      if |selected| >= caps.size {
        deferred := deferred + [item];
      } else if At(counts, item.domain) >= caps.perDomain {
        deferred := deferred + [item];
      } else {
        forall name ensures Tally(selected + [item], Domain(name))
                         == Tally(selected, Domain(name)) + if item.domain == name then 1 else 0 {
          TallyAppend(selected, item, Domain(name));
        }
        selected := selected + [item];
        counts := counts[item.domain := At(counts, item.domain) + 1];
      }
    }
    assert remaining[..|remaining|] == remaining;
  }

  /** The loop over the batches of a ring. */
  method PlanOneRing(ring: Name, clusters: seq<Cluster>, caps: Caps) returns (r: Result<seq<Batch>>)
    ensures r == PlanRing(ring, 1, clusters, caps)
  {
    var remaining, number, planned := clusters, 1, [];
    ThenNothing(PlanRing(ring, 1, clusters, caps));
    while remaining != []
      invariant number >= 1
      invariant PlanRing(ring, 1, clusters, caps) == Then(planned, PlanRing(ring, number, remaining, caps))
      decreases |remaining|
    {
      var selected, deferred := SelectBatch(remaining, caps);
      if selected == [] {
        return Err(InputError);
      }
      ThenThen(planned, [Batch(ring, number, selected)], PlanRing(ring, number + 1, deferred, caps));
      planned := planned + [Batch(ring, number, selected)];
      number := number + 1;
      remaining := deferred;
    }
    assert planned + [] == planned;
    return Ok(planned);
  }

  /** The loop that groups the eligible clusters. */
  method GroupByRing(eligible: seq<Cluster>) returns (byRing: map<Name, seq<Cluster>>)
    ensures forall ring :: Listed(byRing, ring) == OfRing(eligible, ring)
  {
    byRing := map[];
    for i := 0 to |eligible|
      invariant forall ring :: Listed(byRing, ring) == OfRing(eligible[..i], ring)
    {
      var item := eligible[i];
      assert eligible[..i + 1][..i] == eligible[..i];
      byRing := byRing[item.ring := Listed(byRing, item.ring) + [item]];
    }
    assert eligible[..|eligible|] == eligible;
  }

  method CreateBatches(eligible: seq<Cluster>, ringOrder: seq<Name>, maxBatchSize: int, maxPerFailureDomain: int)
    returns (r: Result<seq<Batch>>)
    ensures r == Plan(eligible, ringOrder, Caps(maxBatchSize, maxPerFailureDomain))
  {
    var caps := Caps(maxBatchSize, maxPerFailureDomain);
    var byRing := GroupByRing(eligible);
    ghost var plans := RingPlans(eligible, ringOrder, caps);
    var planned := [];
    for i := 0 to |ringOrder|
      invariant Join(plans[..i]) == Ok(planned)
    {
      var batches := PlanOneRing(ringOrder[i], Sorted(Listed(byRing, ringOrder[i])), caps);
      assert batches == plans[i];
      if batches.Err? {
        JoinFails(plans, i);
        return batches;
      }
      JoinNext(plans, i, planned);
      planned := planned + batches.value;
    }
    assert plans[..|plans|] == plans;
    return Ok(planned);
  }
}

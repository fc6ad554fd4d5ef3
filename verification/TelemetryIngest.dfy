/** The loops of ingest, proved to decide as TelemetryModel says. */
module TelemetryIngest {
  import opened Priorities
  import opened Reports
  import opened Results
  import opened TelemetryModel

  datatype Report = Report(
    decisions: seq<Decision<Verdict>>, acceptedUnits: nat, droppedUnits: nat,
    acceptedItems: nat, droppedItems: nat, maxAcceptedAge: nat)

  /** The tests on one item, one early continue after the other. */
  method Judge(p: Pipeline, item: Item, accepted: nat, dropped: nat, tenants: map<Name, nat>) returns (v: Verdict)
    ensures v == Decide(p, Usage(accepted, dropped, tenants), item)
  {
    var reason := CardinalityReason(p, item);
    if reason.Some? {
      return reason.value;
    }
    var usedByTenant := if item.tenant in tenants then tenants[item.tenant] else 0;
    if usedByTenant + item.size > p.perTenant {
      return TENANT_QUOTA;
    }
    if accepted + item.size > p.capacity {
      return QUEUE_FULL;
    }
    return ACCEPTED;
  }

  /** The loop over the items in order of priority. */
  method Process(p: Pipeline, ordered: seq<Item>)
    returns (decisions: seq<Decision<Verdict>>, accepted: nat, dropped: nat, ages: seq<nat>)
    ensures decisions == Decisions(p, ordered)
    ensures accepted == UsageAfter(p, ordered).accepted && dropped == UsageAfter(p, ordered).dropped
    ensures ages == AcceptedAges(p, ordered)
  {
    decisions, accepted, dropped, ages := [], 0, 0, [];
    var tenants: map<Name, nat> := map[];
    for i := 0 to |ordered|
      invariant decisions == Decisions(p, ordered[..i])
      invariant Usage(accepted, dropped, tenants) == UsageAfter(p, ordered[..i])
      invariant ages == AcceptedAges(p, ordered[..i])
    {
      assert ordered[..i + 1][..i] == ordered[..i];
      var item := ordered[i];
      var verdict := Judge(p, item, accepted, dropped, tenants);
      decisions := decisions + [Decision(item.id, verdict)];
      if verdict.ACCEPTED? {
        accepted := accepted + item.size;
        tenants := tenants[item.tenant := (if item.tenant in tenants then tenants[item.tenant] else 0) + item.size];
        ages := ages + [item.age];
      } else {
        dropped := dropped + item.size;
      }
    }
    assert ordered[..|ordered|] == ordered;
  }

  /** max(ages, default=0) */
  method MaxAge(ages: seq<nat>) returns (oldest: nat)
    ensures oldest == Oldest(ages)
    ensures forall k | 0 <= k < |ages| :: ages[k] <= oldest
    ensures if ages == [] then oldest == 0 else oldest in ages
  {
    oldest := 0;
    for i := 0 to |ages|
      invariant oldest == Oldest(ages[..i])
      invariant forall k | 0 <= k < i :: ages[k] <= oldest
      invariant if i == 0 then oldest == 0 else oldest in ages[..i]
    {
      assert ages[..i + 1][..i] == ages[..i] && ages[..i + 1][i] == ages[i];
      if ages[i] > oldest {
        oldest := ages[i];
      } else {
        assert i == 0 || oldest in ages[..i + 1][..i];
      }
    }
    assert ages[..|ages|] == ages;
  }

  /** The dictionary has an entry for every item. */
  lemma EveryoneDecided(p: Pipeline, items: seq<Item>, i: nat)
    requires i < |items|
    ensures Verdicts(p, items, items[i]).Some?
  {
    Place(items, RankOf, 3, i);
    var k := |Ahead(items, RankOf, i)|;
    DecisionsAt(p, InOrder(items), k);
    LookupFinds(Decisions(p, InOrder(items)), k);
  }

  /** The decisions in the order of the items, and how many are to accept. */
  method Stable(p: Pipeline, items: seq<Item>, decisions: seq<Decision<Verdict>>)
    returns (stable: seq<Decision<Verdict>>, accepted: nat)
    requires decisions == Decisions(p, InOrder(items))
    ensures |stable| == |items| && accepted == AcceptedItems(stable)
    ensures forall i | 0 <= i < |items| :: Some(stable[i]) == Verdicts(p, items, items[i])
  {
    var byId := ById(decisions);
    stable, accepted := [], 0;
    for i := 0 to |items|
      invariant |stable| == i && accepted == AcceptedItems(stable)
      invariant forall j | 0 <= j < i :: Some(stable[j]) == Verdicts(p, items, items[j])
    {
      EveryoneDecided(p, items, i);
      assert Lookup(decisions, items[i].id).Some?;
      var decision := byId[items[i].id];
      assert (stable + [decision])[..i] == stable;
      stable := stable + [decision];
      accepted := accepted + if decision.verdict.ACCEPTED? then 1 else 0;
    }
  }

  /** The report, in the order of the items. */
  method Ingest(p: Pipeline, items: seq<Item>) returns (report: Report)
    ensures |report.decisions| == |items|
    ensures forall i | 0 <= i < |items| :: Some(report.decisions[i]) == Verdicts(p, items, items[i])
    ensures report.acceptedUnits == UsageAfter(p, InOrder(items)).accepted
    ensures report.droppedUnits == UsageAfter(p, InOrder(items)).dropped
    ensures report.acceptedItems == AcceptedItems(report.decisions)
    ensures report.acceptedItems + report.droppedItems == |items|
    ensures report.maxAcceptedAge == Oldest(AcceptedAges(p, InOrder(items)))
  {
    var decisions, accepted, dropped, ages := Process(p, InOrder(items));
    var stable, acceptedItems := Stable(p, items, decisions);
    var oldest := MaxAge(ages);
    return Report(stable, accepted, dropped, acceptedItems, |items| - acceptedItems, oldest);
  }
}

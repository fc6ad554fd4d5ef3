/** The loops of admit, proved to decide as AdmissionModel says. */
module AdmissionController {
  import opened Priorities
  import opened Reports
  import opened Results
  import opened AdmissionModel

  datatype Report = Report(
    decisions: seq<Decision<Verdict>>, admittedCritical: nat, admittedOptional: nat,
    rejectedCritical: nat, rejectedOptional: nat, consumed: nat)

  /** The tests on one request, one early continue after the other. */
  method Judge(c: Controller, request: Request, consumed: nat, critical: nat, tenants: map<Name, nat>)
    returns (v: Verdict)
    ensures v == Decide(c, Usage(consumed, critical, tenants), request)
  {
    var used := if request.tenant in tenants then tenants[request.tenant] else 0;
    if used + request.units > c.perTenant {
      return TENANT_LIMIT;
    }
    var remaining := c.capacity - consumed;
    if request.units > remaining {
      return CAPACITY_EXHAUSTED;
    }
    if !request.critical {
      var unusedReserve := Max(0, c.reserve - critical);
      var ceiling := c.capacity - unusedReserve;
      if consumed + request.units > ceiling {
        return CRITICAL_RESERVE;
      }
    }
    return ADMITTED;
  }

  /** The loop over the requests in order of priority. */
  method Process(c: Controller, ordered: seq<Request>) returns (decisions: seq<Decision<Verdict>>, consumed: nat)
    ensures decisions == Decisions(c, ordered)
    ensures consumed == UsageAfter(c, ordered).consumed
  {
    decisions, consumed := [], 0;
    var critical: nat, tenants: map<Name, nat> := 0, map[];
    for i := 0 to |ordered|
      invariant decisions == Decisions(c, ordered[..i])
      invariant Usage(consumed, critical, tenants) == UsageAfter(c, ordered[..i])
    {
      assert ordered[..i + 1][..i] == ordered[..i];
      var request := ordered[i];
      var verdict := Judge(c, request, consumed, critical, tenants);
      decisions := decisions + [Decision(request.id, verdict)];
      if verdict.ADMITTED? {
        consumed := consumed + request.units;
        critical := critical + if request.critical then request.units else 0;
        tenants := tenants[request.tenant := (if request.tenant in tenants then tenants[request.tenant] else 0) + request.units];
      }
    }
    assert ordered[..|ordered|] == ordered;
  }

  /** The decisions in the order of the requests. */
  method Stable(c: Controller, requests: seq<Request>, decisions: seq<Decision<Verdict>>) returns (stable: seq<Decision<Verdict>>)
    requires decisions == Decisions(c, InOrder(requests))
    ensures |stable| == |requests|
    ensures forall i | 0 <= i < |requests| :: Some(stable[i]) == Verdicts(c, requests, requests[i])
  {
    var byId := ById(decisions);
    stable := [];
    for i := 0 to |requests|
      invariant |stable| == i
      invariant forall j | 0 <= j < i :: Some(stable[j]) == Verdicts(c, requests, requests[j])
    {
      EveryoneDecided(c, requests, i);
      assert Lookup(decisions, requests[i].id).Some?;
      stable := stable + [byId[requests[i].id]];
    }
  }

  /** The report, in the order of the requests. */
  method Admit(c: Controller, requests: seq<Request>) returns (report: Report)
    ensures |report.decisions| == |requests|
    ensures forall i | 0 <= i < |requests| :: Some(report.decisions[i]) == Verdicts(c, requests, requests[i])
    ensures report.consumed == UsageAfter(c, InOrder(requests)).consumed
    ensures report.admittedCritical == Tally(requests, report.decisions, true, true)
    ensures report.admittedOptional == Tally(requests, report.decisions, false, true)
    ensures report.rejectedCritical == Tally(requests, report.decisions, true, false)
    ensures report.rejectedOptional == Tally(requests, report.decisions, false, false)
  {
    var decisions, consumed := Process(c, InOrder(requests));
    var stable := Stable(c, requests, decisions);
    var ac := CountOf(requests, stable, true, true);
    var ao := CountOf(requests, stable, false, true);
    var rc := CountOf(requests, stable, true, false);
    var ro := CountOf(requests, stable, false, false);
    return Report(stable, ac, ao, rc, ro, consumed);
  }

  method CountOf(requests: seq<Request>, decisions: seq<Decision<Verdict>>, critical: bool, admitted: bool) returns (n: nat)
    requires |requests| == |decisions|
    ensures n == Tally(requests, decisions, critical, admitted)
  {
    n := 0;
    for i := 0 to |requests|
      invariant n == Tally(requests[..i], decisions[..i], critical, admitted)
    {
      assert requests[..i + 1][..i] == requests[..i] && decisions[..i + 1][..i] == decisions[..i];
      if requests[i].critical == critical && decisions[i].verdict.ADMITTED? == admitted {
        n := n + 1;
      }
    }
    assert requests[..|requests|] == requests && decisions[..|decisions|] == decisions;
  }

  /** The dictionary has an entry for every request. */
  lemma EveryoneDecided(c: Controller, requests: seq<Request>, i: nat)
    requires i < |requests|
    ensures Verdicts(c, requests, requests[i]).Some?
  {
    Place(requests, RankOf, 2, i);
    var k := |Ahead(requests, RankOf, i)|;
    DecisionsAt(c, InOrder(requests), k);
    LookupFinds(Decisions(c, InOrder(requests)), k);
  }
}

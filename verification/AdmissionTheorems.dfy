/**
  What admission guarantees, whatever is requested: optional requests cannot disturb critical ones, no
  limit is exceeded, and nothing is rejected that would have fitted in the end. The report shows of each
  request the decision made on it, or, if another with its id was processed later, on the last of those.
 */
module AdmissionTheorems {
  import opened Priorities
  import opened Reports
  import opened Results
  import opened AdmissionModel

  // ---- the decision on a request ----

  lemma RanksAreBelowTwo(requests: seq<Request>)
    ensures forall i | 0 <= i < |requests| :: RankOf(requests[i]) < 2
  {
  }

  /** What is decided on a request, by the usage of those of higher priority and the earlier ones of its own. */
  function Own(c: Controller, requests: seq<Request>, i: nat): Verdict
    requires i < |requests|
  {
    Decide(c, UsageAfter(c, Ahead(requests, RankOf, i)), requests[i])
  }

  /** When a request is processed. */
  function Turn(requests: seq<Request>, i: nat): nat
    requires i < |requests|
  {
    |Ahead(requests, RankOf, i)|
  }

  lemma OwnAt(c: Controller, requests: seq<Request>, i: nat)
    requires i < |requests|
    ensures Turn(requests, i) < |InOrder(requests)| && InOrder(requests)[Turn(requests, i)] == requests[i]
    ensures Decisions(c, InOrder(requests))[Turn(requests, i)] == Decision(requests[i].id, Own(c, requests, i))
    ensures DecisionAt(c, InOrder(requests), Turn(requests, i)).verdict == Own(c, requests, i)
  {
    Place(requests, RankOf, 2, i);
    DecisionsAt(c, InOrder(requests), Turn(requests, i));
  }

  /** The report shows the decision made on the request with that id whose turn was last. */
  lemma DecidedByAhead(c: Controller, requests: seq<Request>, i: nat) returns (j: nat)
    requires i < |requests|
    ensures j < |requests| && requests[j].id == requests[i].id
    ensures Verdicts(c, requests, requests[i]) == Some(Decision(requests[i].id, Own(c, requests, j)))
    ensures forall m | 0 <= m < |requests| && requests[m].id == requests[i].id :: Turn(requests, m) <= Turn(requests, j)
    ensures DistinctIds(requests, IdOf) ==> j == i
  {
    var ordered := InOrder(requests);
    var decisions := Decisions(c, ordered);
    OwnAt(c, requests, i);
    LookupFinds(decisions, Turn(requests, i));
    var k := LookupLast(decisions, requests[i].id);
    j := PlaceOf(requests, RankOf, 2, k);
    OwnAt(c, requests, j);
    forall m | 0 <= m < |requests| && requests[m].id == requests[i].id ensures Turn(requests, m) <= k {
      OwnAt(c, requests, m);
    }
    assert IdOf(requests[i]) == IdOf(requests[j]);
  }

  /** Optional requests do not disturb critical ones: each critical request is decided on as if only the
      critical requests had been made. */
  lemma CriticalUndisturbed(c: Controller, requests: seq<Request>, i: nat)
    requires i < |requests| && requests[i].critical
    ensures var critical, j := Above(requests, RankOf, 1), Index(requests, RankOf, 1, i);
            && j < |critical| && critical[j] == requests[i]
            && Own(c, critical, j) == Own(c, requests, i)
  {
    AheadAbove(requests, RankOf, 1, i);
  }

  /** With distinct ids, the report on the critical requests alone shows the same of each. */
  lemma CriticalReported(c: Controller, requests: seq<Request>, i: nat)
    requires DistinctIds(requests, IdOf) && i < |requests| && requests[i].critical
    ensures Verdicts(c, Above(requests, RankOf, 1), requests[i]) == Verdicts(c, requests, requests[i])
  {
    CriticalUndisturbed(c, requests, i);
    AboveDistinct(requests, RankOf, 1, IdOf);
    var own := DecidedByAhead(c, requests, i);
    var alone := DecidedByAhead(c, Above(requests, RankOf, 1), Index(requests, RankOf, 1, i));
  }

  // ---- limits ----

  predicate CriticalFirst(requests: seq<Request>) {
    forall i, j | 0 <= i < j < |requests| && requests[j].critical :: requests[i].critical
  }

  lemma {:induction false} OfRankIs(requests: seq<Request>, r: nat)
    ensures forall k | 0 <= k < |OfRank(requests, RankOf, r)| :: RankOf(OfRank(requests, RankOf, r)[k]) == r
  {
    if requests != [] {
      OfRankIs(requests[..|requests| - 1], r);
    }
  }

  lemma OrderIsCriticalFirst(requests: seq<Request>)
    ensures CriticalFirst(InOrder(requests))
  {
    var first, second := OfRank(requests, RankOf, 0), OfRank(requests, RankOf, 1);
    OfRankIs(requests, 0);
    OfRankIs(requests, 1);
    assert Ranked(requests, RankOf, 1) == [] + first;
    assert InOrder(requests) == ([] + first) + second;
  }

  lemma {:induction false} OnlyCritical(c: Controller, requests: seq<Request>)
    requires forall i | 0 <= i < |requests| :: requests[i].critical
    ensures UsageAfter(c, requests).consumed == UsageAfter(c, requests).critical
  {
    if requests != [] {
      OnlyCritical(c, requests[..|requests| - 1]);
    }
  }

  /** The limits, on usage: for everything, for a tenant, and for what is optional. */
  predicate WithinLimits(c: Controller, u: Usage, tenant: Name) {
    && u.critical <= u.consumed <= c.capacity
    && u.Tenant(tenant) <= c.perTenant
    && u.consumed - u.critical <= c.capacity - Max(c.reserve, u.critical)
  }

  lemma {:induction false} LimitsKept(c: Controller, requests: seq<Request>, tenant: Name)
    requires c.Valid() && CriticalFirst(requests)
    ensures WithinLimits(c, UsageAfter(c, requests), tenant)
  {
    if requests != [] {
      var init := requests[..|requests| - 1];
      LimitsKept(c, init, tenant);
      if requests[|requests| - 1].critical {
        OnlyCritical(c, init);
      }
    }
  }

  // ---- what usage stands for ----

  datatype Part = WHOLE | CRITICAL_PART | TENANT_PART(name: Name)

  predicate In(r: Request, part: Part) {
    match part
    case WHOLE => true
    case CRITICAL_PART => r.critical
    case TENANT_PART(name) => r.tenant == name
  }

  function UsedBy(u: Usage, part: Part): nat {
    match part
    case WHOLE => u.consumed
    case CRITICAL_PART => u.critical
    case TENANT_PART(name) => u.Tenant(name)
  }

  /** Units of a request that counts towards a part, if it is admitted. */
  function UnitsAt(c: Controller, requests: seq<Request>, part: Part, i: nat): nat {
    if i < |requests| && In(requests[i], part) && Own(c, requests, i).ADMITTED? then requests[i].units else 0
  }

  function AdmittedUnits(c: Controller, requests: seq<Request>, part: Part): nat -> nat {
    (i: nat) => UnitsAt(c, requests, part, i)
  }

  lemma UsedMore(c: Controller, u: Usage, r: Request, v: Verdict, part: Part)
    ensures UsedBy(Used(u, r, v), part) == UsedBy(u, part) + if v.ADMITTED? && In(r, part) then r.units else 0
  {
  }

  lemma UsageAppend(c: Controller, requests: seq<Request>, r: Request, part: Part)
    ensures UsedBy(UsageAfter(c, requests + [r]), part) == UsedBy(UsageAfter(c, requests), part)
          + if Decide(c, UsageAfter(c, requests), r).ADMITTED? && In(r, part) then r.units else 0
  {
    UsedMore(c, UsageAfter(c, requests), r, Decide(c, UsageAfter(c, requests), r), part);
  }

  function Total(c: Controller, requests: seq<Request>, part: Part): nat {
    SumAt(|requests|, AdmittedUnits(c, requests, part))
  }

  function UsedOf(c: Controller, part: Part): seq<Request> -> nat {
    (requests: seq<Request>) => UsedBy(UsageAfter(c, requests), part)
  }

  lemma UsedGrows(c: Controller, requests: seq<Request>, part: Part)
    ensures Grows(requests, RankOf, UsedOf(c, part), AdmittedUnits(c, requests, part))
  {
    forall i: nat | i < |requests|
      ensures AddsAt(requests, RankOf, UsedOf(c, part), AdmittedUnits(c, requests, part), i)
    {
      UsageAppend(c, Ahead(requests, RankOf, i), requests[i], part);
    }
  }

  /** Usage is the sum of the units of the requests admitted, whatever order they came in. */
  lemma UsageIsSum(c: Controller, requests: seq<Request>, part: Part)
    ensures UsedBy(UsageAfter(c, InOrder(requests)), part) == Total(c, requests, part)
  {
    UsedGrows(c, requests, part);
    RanksAreBelowTwo(requests);
    MeasureIsSum(requests, RankOf, UsedOf(c, part), AdmittedUnits(c, requests, part), 2);
  }

  /** Units of a part admitted before a request's turn. */
  function TotalAhead(c: Controller, requests: seq<Request>, part: Part, i: nat): nat
    requires i < |requests|
  {
    AheadSum(requests, RankOf, AdmittedUnits(c, requests, part), i)
  }

  /** Each request meets the first limit that it would exceed on top of what has been admitted before it:
      its tenant's, the capacity, and for an optional one what the unused reserve leaves. */
  lemma ReasonExact(c: Controller, requests: seq<Request>, i: nat)
    requires i < |requests|
    ensures var r := requests[i];
            var all, critical, tenant := TotalAhead(c, requests, WHOLE, i), TotalAhead(c, requests, CRITICAL_PART, i),
                                         TotalAhead(c, requests, TENANT_PART(r.tenant), i);
            var unused := if c.reserve > critical then c.reserve - critical else 0;
            Own(c, requests, i) == if tenant + r.units > c.perTenant then TENANT_LIMIT
                                   else if all + r.units > c.capacity then CAPACITY_EXHAUSTED
                                   else if !r.critical && all + r.units + unused > c.capacity then CRITICAL_RESERVE
                                   else ADMITTED
  {
    AheadUsed(c, requests, WHOLE, i);
    AheadUsed(c, requests, CRITICAL_PART, i);
    AheadUsed(c, requests, TENANT_PART(requests[i].tenant), i);
  }

  lemma AheadUsed(c: Controller, requests: seq<Request>, part: Part, i: nat)
    requires i < |requests|
    ensures UsedBy(UsageAfter(c, Ahead(requests, RankOf, i)), part) == TotalAhead(c, requests, part, i)
  {
    UsedGrows(c, requests, part);
    AheadIsSum(requests, RankOf, UsedOf(c, part), AdmittedUnits(c, requests, part), i);
  }

  /** A controller is refused exactly for a capacity or tenant limit that is not positive, or a reserve that
      is negative or more than the capacity. */
  lemma RefusedExactly(capacity: int, reserve: int, perTenant: int)
    ensures Create(capacity, reserve, perTenant)
         == if capacity <= 0 || reserve < 0 || reserve > capacity || perTenant <= 0 then Err(ValueError)
            else Ok(Controller(capacity, reserve, perTenant))
  {
  }

  /** Positions at which requests of a kind meet with a kind of decision. */
  function Positions(requests: seq<Request>, decisions: seq<Decision<Verdict>>, critical: bool, admitted: bool): set<int>
    requires |requests| == |decisions|
  {
    set i | 0 <= i < |requests| && requests[i].critical == critical && (decisions[i].verdict == ADMITTED) == admitted
  }

  lemma PositionsNext(requests: seq<Request>, decisions: seq<Decision<Verdict>>, critical: bool, admitted: bool)
    requires |requests| == |decisions| > 0
    ensures var last := |requests| - 1;
            Positions(requests, decisions, critical, admitted)
              == Positions(requests[..last], decisions[..last], critical, admitted)
               + if requests[last].critical == critical && (decisions[last].verdict == ADMITTED) == admitted then {last} else {}
  {
    var last := |requests| - 1;
    assert forall i | 0 <= i < last :: requests[..last][i] == requests[i] && decisions[..last][i] == decisions[i];
  }

  /** The four counts of a report are numbers of requests. */
  lemma {:induction false} CountsAreNumbers(requests: seq<Request>, decisions: seq<Decision<Verdict>>, critical: bool, admitted: bool)
    requires |requests| == |decisions|
    ensures Tally(requests, decisions, critical, admitted) == |Positions(requests, decisions, critical, admitted)|
  {
    if requests != [] {
      var last := |requests| - 1;
      CountsAreNumbers(requests[..last], decisions[..last], critical, admitted);
      PositionsNext(requests, decisions, critical, admitted);
    }
  }

  /** No limit is exceeded by the requests admitted: the capacity, a tenant's limit, and for optional
      requests the capacity that critical ones leave or have reserved. */
  lemma LimitsHold(c: Controller, requests: seq<Request>, tenant: Name)
    requires c.Valid()
    ensures var all, critical := Total(c, requests, WHOLE), Total(c, requests, CRITICAL_PART);
            && all <= c.capacity
            && Total(c, requests, TENANT_PART(tenant)) <= c.perTenant
            && all - critical <= c.capacity - Max(c.reserve, critical)
  {
    OrderIsCriticalFirst(requests);
    LimitsKept(c, InOrder(requests), tenant);
    UsageIsSum(c, requests, WHOLE);
    UsageIsSum(c, requests, CRITICAL_PART);
    UsageIsSum(c, requests, TENANT_PART(tenant));
  }

  // ---- maximality ----

  lemma {:induction false} UsageGrows(c: Controller, requests: seq<Request>, k: nat, part: Part)
    requires k <= |requests|
    ensures UsedBy(UsageAfter(c, requests[..k]), part) <= UsedBy(UsageAfter(c, requests), part)
    ensures part == CRITICAL_PART && (forall j | k <= j < |requests| :: !requests[j].critical) ==>
              UsedBy(UsageAfter(c, requests[..k]), part) == UsedBy(UsageAfter(c, requests), part)
  {
    var last := |requests| - 1;
    if k <= last {
      assert requests[..last][..k] == requests[..k];
      UsageGrows(c, requests[..last], k, part);
    } else {
      assert requests[..k] == requests;
    }
  }

  lemma StillRejected(c: Controller, u: Usage, v: Usage, r: Request)
    requires Decide(c, u, r) != ADMITTED
    requires u.consumed <= v.consumed && u.Tenant(r.tenant) <= v.Tenant(r.tenant)
    requires !r.critical ==> u.critical == v.critical
    ensures Decide(c, v, r) != ADMITTED
  {
  }

  lemma StillRejectedAt(c: Controller, ordered: seq<Request>, k: nat)
    requires k < |ordered| && CriticalFirst(ordered) && DecisionAt(c, ordered, k).verdict != ADMITTED
    ensures Decide(c, UsageAfter(c, ordered), ordered[k]) != ADMITTED
  {
    UsageGrows(c, ordered, k, WHOLE);
    UsageGrows(c, ordered, k, TENANT_PART(ordered[k].tenant));
    UsageGrows(c, ordered, k, CRITICAL_PART);
    StillRejected(c, UsageAfter(c, ordered[..k]), UsageAfter(c, ordered), ordered[k]);
  }

  /** A request rejected would be rejected after all the others, too. */
  lemma RejectedInTheEnd(c: Controller, requests: seq<Request>, i: nat)
    requires i < |requests| && Own(c, requests, i) != ADMITTED
    ensures Decide(c, UsageAfter(c, InOrder(requests)), requests[i]) != ADMITTED
  {
    OwnAt(c, requests, i);
    OrderIsCriticalFirst(requests);
    StillRejectedAt(c, InOrder(requests), Turn(requests, i));
  }

  /** A request on top of all, critical and tenant's units exceeds a limit. */
  predicate Exceeds(c: Controller, all: nat, critical: nat, tenant: nat, r: Request) {
    || tenant + r.units > c.perTenant
    || all + r.units > c.capacity
    || (!r.critical && all + r.units > c.capacity - Max(0, c.reserve - critical))
  }

  lemma RejectedExceeds(c: Controller, u: Usage, r: Request)
    requires Decide(c, u, r) != ADMITTED
    ensures Exceeds(c, UsedBy(u, WHOLE), UsedBy(u, CRITICAL_PART), UsedBy(u, TENANT_PART(r.tenant)), r)
  {
  }

  /** Nothing is rejected that would fit: added to all the requests admitted, a rejected request would
      exceed its tenant's limit, the capacity, or, if it is optional, what the reserve leaves. */
  lemma Maximal(c: Controller, requests: seq<Request>, i: nat)
    requires i < |requests| && Own(c, requests, i) != ADMITTED
    ensures Exceeds(c, Total(c, requests, WHOLE), Total(c, requests, CRITICAL_PART),
                    Total(c, requests, TENANT_PART(requests[i].tenant)), requests[i])
  {
    RejectedInTheEnd(c, requests, i);
    RejectedExceeds(c, UsageAfter(c, InOrder(requests)), requests[i]);
    UsageIsSum(c, requests, WHOLE);
    UsageIsSum(c, requests, CRITICAL_PART);
    UsageIsSum(c, requests, TENANT_PART(requests[i].tenant));
  }
}

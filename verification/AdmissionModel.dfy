/**
  Admission control: critical requests before optional ones, under a limit for the whole, a limit for
  each tenant, and a reserve that optional requests may not use up.
 */
module AdmissionModel {
  import opened Priorities
  import opened Reports
  import opened Results

  /** A request asks for at least one unit; its constructor refuses anything else. */
  type Units = n: int | n > 0 witness 1

  datatype Request = Request(id: Name, tenant: Name, critical: bool, units: Units)

  datatype Controller = Controller(capacity: int, reserve: int, perTenant: int) {
    predicate Valid() { capacity > 0 && 0 <= reserve <= capacity && perTenant > 0 }
  }

  function Create(capacity: int, reserve: int, perTenant: int): Result<Controller> {
    var c := Controller(capacity, reserve, perTenant);
    if c.Valid() then Ok(c) else Err(ValueError)
  }

  function IdOf(r: Request): Name { r.id }

  function RankOf(r: Request): nat { if r.critical then 0 else 1 }

  datatype Verdict = ADMITTED | TENANT_LIMIT | CAPACITY_EXHAUSTED | CRITICAL_RESERVE

  datatype Usage = Usage(consumed: nat, critical: nat, tenants: map<Name, nat>) {
    function Tenant(name: Name): nat { if name in tenants then tenants[name] else 0 }
  }

  function Max(a: int, b: int): int { if a > b then a else b }

  function Decide(c: Controller, u: Usage, r: Request): Verdict {
    if u.Tenant(r.tenant) + r.units > c.perTenant then TENANT_LIMIT
    else if r.units > c.capacity - u.consumed then CAPACITY_EXHAUSTED
    else if !r.critical && u.consumed + r.units > c.capacity - Max(0, c.reserve - u.critical) then CRITICAL_RESERVE
    else ADMITTED
  }

  function Used(u: Usage, r: Request, v: Verdict): Usage {
    if v.ADMITTED? then
      Usage(u.consumed + r.units, u.critical + (if r.critical then r.units else 0),
            u.tenants[r.tenant := u.Tenant(r.tenant) + r.units])
    else u
  }

  /** Usage after requests in the order they are processed. */
  function UsageAfter(c: Controller, requests: seq<Request>): Usage {
    if requests == [] then Usage(0, 0, map[])
    else
      var before, last := UsageAfter(c, requests[..|requests| - 1]), requests[|requests| - 1];
      Used(before, last, Decide(c, before, last))
  }

  /** The decision on the k-th request processed. */
  function DecisionAt(c: Controller, requests: seq<Request>, k: nat): Decision<Verdict>
    requires k < |requests|
  {
    Decision(requests[k].id, Decide(c, UsageAfter(c, requests[..k]), requests[k]))
  }

  function Decisions(c: Controller, requests: seq<Request>): (r: seq<Decision<Verdict>>)
    ensures |r| == |requests|
  {
    if requests == [] then []
    else Decisions(c, requests[..|requests| - 1]) + [DecisionAt(c, requests, |requests| - 1)]
  }

  lemma {:induction false} DecisionsAt(c: Controller, requests: seq<Request>, k: nat)
    requires k < |requests|
    ensures Decisions(c, requests)[k] == DecisionAt(c, requests, k)
  {
    var last := |requests| - 1;
    if k < last {
      DecisionsAt(c, requests[..last], k);
      assert requests[..last][..k] == requests[..k];
    }
  }

  function InOrder(requests: seq<Request>): seq<Request> { Ranked(requests, RankOf, 2) }

  /** What becomes of a request. */
  function Verdicts(c: Controller, requests: seq<Request>, r: Request): Option<Decision<Verdict>> {
    Lookup(Decisions(c, InOrder(requests)), r.id)
  }

  /** How many requests of a kind meet with a kind of decision. */
  function Tally(requests: seq<Request>, decisions: seq<Decision<Verdict>>, critical: bool, admitted: bool): nat
    requires |requests| == |decisions|
  {
    if requests == [] then 0
    else
      var last := |requests| - 1;
      Tally(requests[..last], decisions[..last], critical, admitted)
      + if requests[last].critical == critical && decisions[last].verdict.ADMITTED? == admitted then 1 else 0
  }
}

/**
  A telemetry pipeline: signals are taken in by priority under a capacity and a quota for each tenant,
  and metrics that would multiply series are turned away first.
 */
module TelemetryModel {
  import opened Priorities
  import opened Reports
  import opened Results

  datatype Signal = METRIC | LOG | TRACE | SYNTHETIC

  datatype Priority = CRITICAL | NORMAL | DEBUG

  /** An item has a size of at least one unit; its constructor refuses anything else. */
  type Units = n: int | n > 0 witness 1

  datatype Item = Item(
    id: Name, tenant: Name, signal: Signal, priority: Priority, size: Units,
    attributes: map<string, string>, age: nat)

  datatype Pipeline = Pipeline(capacity: int, perTenant: int, labelLimit: int) {
    predicate Valid() { capacity > 0 && perTenant > 0 && labelLimit > 0 }
  }

  function Create(capacity: int, perTenant: int, labelLimit: int): Result<Pipeline> {
    var p := Pipeline(capacity, perTenant, labelLimit);
    if p.Valid() then Ok(p) else Err(ValueError)
  }

  const FORBIDDEN_LABELS: set<string> :=
    {"user_id", "request_id", "trace_id", "timestamp", "raw_url", "error_message"}

  function IdOf(i: Item): Name { i.id }

  function RankOf(i: Item): nat {
    match i.priority
    case CRITICAL => 0
    case NORMAL => 1
    case DEBUG => 2
  }

  datatype Verdict = ACCEPTED | FORBIDDEN_LABEL | LABEL_VALUE_TOO_LONG | TENANT_QUOTA | QUEUE_FULL

  /** _cardinality_reason */
  function CardinalityReason(p: Pipeline, item: Item): Option<Verdict> {
    if !item.signal.METRIC? then None
    else if exists name | name in item.attributes :: name in FORBIDDEN_LABELS then Some(FORBIDDEN_LABEL)
    else if exists name | name in item.attributes :: |item.attributes[name]| > p.labelLimit then
      Some(LABEL_VALUE_TOO_LONG)
    else None
  }

  datatype Usage = Usage(accepted: nat, dropped: nat, tenants: map<Name, nat>) {
    function Tenant(name: Name): nat { if name in tenants then tenants[name] else 0 }
  }

  /** Whether an item of acceptable cardinality fits. */
  function Fit(p: Pipeline, u: Usage, item: Item): Verdict {
    if u.Tenant(item.tenant) + item.size > p.perTenant then TENANT_QUOTA
    else if u.accepted + item.size > p.capacity then QUEUE_FULL
    else ACCEPTED
  }

  function Decide(p: Pipeline, u: Usage, item: Item): Verdict {
    var reason := CardinalityReason(p, item);
    if reason.Some? then reason.value else Fit(p, u, item)
  }

  function Taken(u: Usage, item: Item, v: Verdict): Usage {
    if v.ACCEPTED? then
      u.(accepted := u.accepted + item.size, tenants := u.tenants[item.tenant := u.Tenant(item.tenant) + item.size])
    else u.(dropped := u.dropped + item.size)
  }

  /** Usage after items in the order they are processed. */
  function UsageAfter(p: Pipeline, items: seq<Item>): Usage {
    if items == [] then Usage(0, 0, map[])
    else
      var before, last := UsageAfter(p, items[..|items| - 1]), items[|items| - 1];
      Taken(before, last, Decide(p, before, last))
  }

  /** The decision on the k-th item processed. */
  function DecisionAt(p: Pipeline, items: seq<Item>, k: nat): Decision<Verdict>
    requires k < |items|
  {
    Decision(items[k].id, Decide(p, UsageAfter(p, items[..k]), items[k]))
  }

  function Decisions(p: Pipeline, items: seq<Item>): (r: seq<Decision<Verdict>>)
    ensures |r| == |items|
  {
    if items == [] then []
    else Decisions(p, items[..|items| - 1]) + [DecisionAt(p, items, |items| - 1)]
  }

  lemma {:induction false} DecisionsAt(p: Pipeline, items: seq<Item>, k: nat)
    requires k < |items|
    ensures Decisions(p, items)[k] == DecisionAt(p, items, k)
  {
    var last := |items| - 1;
    if k < last {
      DecisionsAt(p, items[..last], k);
      assert items[..last][..k] == items[..k];
    }
  }

  /** The ages of the items accepted, in the order they are processed. */
  function AcceptedAges(p: Pipeline, items: seq<Item>): seq<nat> {
    if items == [] then []
    else
      var last := |items| - 1;
      AcceptedAges(p, items[..last]) + if DecisionAt(p, items, last).verdict.ACCEPTED? then [items[last].age] else []
  }

  /** The greatest of some ages, or zero. */
  function Oldest(ages: seq<nat>): nat {
    if ages == [] then 0
    else
      var before, last := Oldest(ages[..|ages| - 1]), ages[|ages| - 1];
      if last > before then last else before
  }

  function InOrder(items: seq<Item>): seq<Item> { Ranked(items, RankOf, 3) }

  /** What becomes of an item. */
  function Verdicts(p: Pipeline, items: seq<Item>, item: Item): Option<Decision<Verdict>> {
    Lookup(Decisions(p, InOrder(items)), item.id)
  }

  function AcceptedItems(decisions: seq<Decision<Verdict>>): (n: nat)
    ensures n <= |decisions|
  {
    if decisions == [] then 0
    else AcceptedItems(decisions[..|decisions| - 1]) + if decisions[|decisions| - 1].verdict.ACCEPTED? then 1 else 0
  }
}

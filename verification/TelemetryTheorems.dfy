/**
  What ingestion guarantees, whatever comes in: lower priorities cannot disturb higher ones, every unit
  is accounted for, no limit is exceeded, and nothing is dropped that would have fitted in the end. The
  report shows of each item the decision made on it, or, if another with its id was processed later, on
  the last of those.
 */
module TelemetryTheorems {
  import opened Priorities
  import opened Reports
  import opened Results
  import opened TelemetryModel

  lemma RanksAreBelowThree(items: seq<Item>)
    ensures forall i | 0 <= i < |items| :: RankOf(items[i]) < 3
  {
  }

  /** What is decided on an item, by the usage of those of higher priority and the earlier ones of its own. */
  function Own(p: Pipeline, items: seq<Item>, i: nat): Verdict
    requires i < |items|
  {
    Decide(p, UsageAfter(p, Ahead(items, RankOf, i)), items[i])
  }

  /** When an item is processed. */
  function Turn(items: seq<Item>, i: nat): nat
    requires i < |items|
  {
    |Ahead(items, RankOf, i)|
  }

  lemma OwnAt(p: Pipeline, items: seq<Item>, i: nat)
    requires i < |items|
    ensures Turn(items, i) < |InOrder(items)| && InOrder(items)[Turn(items, i)] == items[i]
    ensures Decisions(p, InOrder(items))[Turn(items, i)] == Decision(items[i].id, Own(p, items, i))
    ensures DecisionAt(p, InOrder(items), Turn(items, i)).verdict == Own(p, items, i)
  {
    Place(items, RankOf, 3, i);
    DecisionsAt(p, InOrder(items), Turn(items, i));
  }

  /** The report shows the decision made on the item with that id whose turn was last. */
  lemma DecidedByAhead(p: Pipeline, items: seq<Item>, i: nat) returns (j: nat)
    requires i < |items|
    ensures j < |items| && items[j].id == items[i].id
    ensures Verdicts(p, items, items[i]) == Some(Decision(items[i].id, Own(p, items, j)))
    ensures forall m | 0 <= m < |items| && items[m].id == items[i].id :: Turn(items, m) <= Turn(items, j)
    ensures DistinctIds(items, IdOf) ==> j == i
  {
    var ordered := InOrder(items);
    var decisions := Decisions(p, ordered);
    OwnAt(p, items, i);
    LookupFinds(decisions, Turn(items, i));
    var k := LookupLast(decisions, items[i].id);
    j := PlaceOf(items, RankOf, 3, k);
    OwnAt(p, items, j);
    forall m | 0 <= m < |items| && items[m].id == items[i].id ensures Turn(items, m) <= k {
      OwnAt(p, items, m);
    }
    assert IdOf(items[i]) == IdOf(items[j]);
  }

  /** Lower priorities do not disturb higher ones: for any rank, each item of a higher one is decided on
      as if all items of that rank and below had been left out. */
  lemma HigherUndisturbed(p: Pipeline, items: seq<Item>, r: nat, i: nat)
    requires i < |items| && RankOf(items[i]) < r
    ensures var higher, j := Above(items, RankOf, r), Index(items, RankOf, r, i);
            && j < |higher| && higher[j] == items[i]
            && Own(p, higher, j) == Own(p, items, i)
  {
    AheadAbove(items, RankOf, r, i);
  }

  /** With distinct ids, the report without lower priorities shows the same of each item. */
  lemma HigherReported(p: Pipeline, items: seq<Item>, r: nat, i: nat)
    requires DistinctIds(items, IdOf) && i < |items| && RankOf(items[i]) < r
    ensures Verdicts(p, Above(items, RankOf, r), items[i]) == Verdicts(p, items, items[i])
  {
    HigherUndisturbed(p, items, r, i);
    AboveDistinct(items, RankOf, r, IdOf);
    var own := DecidedByAhead(p, items, i);
    var alone := DecidedByAhead(p, Above(items, RankOf, r), Index(items, RankOf, r, i));
  }

  // ---- what usage stands for ----

  datatype Part = WHOLE | TENANT_PART(name: Name) | DROPPED

  function UsedBy(u: Usage, part: Part): nat {
    match part
    case WHOLE => u.accepted
    case TENANT_PART(name) => u.Tenant(name)
    case DROPPED => u.dropped
  }

  predicate CountsFor(item: Item, v: Verdict, part: Part) {
    match part
    case WHOLE => v.ACCEPTED?
    case TENANT_PART(name) => v.ACCEPTED? && item.tenant == name
    case DROPPED => !v.ACCEPTED?
  }

  /** Units of an item that counts towards a part. */
  function UnitsAt(p: Pipeline, items: seq<Item>, part: Part, i: nat): nat {
    if i < |items| && CountsFor(items[i], Own(p, items, i), part) then items[i].size else 0
  }

  function UnitsOf(p: Pipeline, items: seq<Item>, part: Part): nat -> nat {
    (i: nat) => UnitsAt(p, items, part, i)
  }

  function Total(p: Pipeline, items: seq<Item>, part: Part): nat {
    SumAt(|items|, UnitsOf(p, items, part))
  }

  lemma UsedMore(u: Usage, item: Item, v: Verdict, part: Part)
    ensures UsedBy(Taken(u, item, v), part) == UsedBy(u, part) + if CountsFor(item, v, part) then item.size else 0
  {
  }

  lemma UsageAppend(p: Pipeline, items: seq<Item>, item: Item, part: Part)
    ensures UsedBy(UsageAfter(p, items + [item]), part) == UsedBy(UsageAfter(p, items), part)
          + if CountsFor(item, Decide(p, UsageAfter(p, items), item), part) then item.size else 0
  {
    UsedMore(UsageAfter(p, items), item, Decide(p, UsageAfter(p, items), item), part);
  }

  function UsedOf(p: Pipeline, part: Part): seq<Item> -> nat {
    (items: seq<Item>) => UsedBy(UsageAfter(p, items), part)
  }

  lemma UsedGrows(p: Pipeline, items: seq<Item>, part: Part)
    ensures Grows(items, RankOf, UsedOf(p, part), UnitsOf(p, items, part))
  {
    forall i: nat | i < |items| ensures AddsAt(items, RankOf, UsedOf(p, part), UnitsOf(p, items, part), i) {
      UsageAppend(p, Ahead(items, RankOf, i), items[i], part);
    }
  }

  /** Usage is the sum of the units of the items it stands for, whatever order they came in. */
  lemma UsageIsSum(p: Pipeline, items: seq<Item>, part: Part)
    ensures UsedBy(UsageAfter(p, InOrder(items)), part) == Total(p, items, part)
  {
    UsedGrows(p, items, part);
    RanksAreBelowThree(items);
    MeasureIsSum(items, RankOf, UsedOf(p, part), UnitsOf(p, items, part), 3);
  }

  // ---- reasons ----

  /** Units of a part taken in before an item's turn. */
  function TotalAhead(p: Pipeline, items: seq<Item>, part: Part, i: nat): nat
    requires i < |items|
  {
    AheadSum(items, RankOf, UnitsOf(p, items, part), i)
  }

  lemma AheadUsed(p: Pipeline, items: seq<Item>, part: Part, i: nat)
    requires i < |items|
    ensures UsedBy(UsageAfter(p, Ahead(items, RankOf, i)), part) == TotalAhead(p, items, part, i)
  {
    UsedGrows(p, items, part);
    AheadIsSum(items, RankOf, UsedOf(p, part), UnitsOf(p, items, part), i);
  }

  /** Labels that would multiply series. */
  predicate Multiplies(name: string) {
    || name == "user_id" || name == "request_id" || name == "trace_id" || name == "timestamp"
    || name == "raw_url" || name == "error_message"
  }

  predicate ForbiddenLabel(item: Item) {
    exists name :: name in item.attributes && Multiplies(name)
  }

  predicate LongLabel(p: Pipeline, item: Item) {
    exists name :: name in item.attributes && |item.attributes[name]| > p.labelLimit
  }

  lemma LabelsExact(p: Pipeline, item: Item)
    ensures CardinalityReason(p, item)
         == if item.signal != METRIC then None
            else if ForbiddenLabel(item) then Some(FORBIDDEN_LABEL)
            else if LongLabel(p, item) then Some(LABEL_VALUE_TOO_LONG) else None
  {
    forall name ensures name in FORBIDDEN_LABELS <==> Multiplies(name) {
    }
  }

  /** Each item meets the first objection there is: for a metric a forbidden label, then one that is too long;
      then its tenant's quota, and the capacity, on top of what has been taken in before its turn. */
  lemma ReasonExact(p: Pipeline, items: seq<Item>, i: nat)
    requires i < |items|
    ensures var item := items[i];
            var all, tenant := TotalAhead(p, items, WHOLE, i), TotalAhead(p, items, TENANT_PART(item.tenant), i);
            Own(p, items, i) == if item.signal == METRIC && ForbiddenLabel(item) then FORBIDDEN_LABEL
                                else if item.signal == METRIC && LongLabel(p, item) then LABEL_VALUE_TOO_LONG
                                else if tenant + item.size > p.perTenant then TENANT_QUOTA
                                else if all + item.size > p.capacity then QUEUE_FULL
                                else ACCEPTED
  {
    LabelsExact(p, items[i]);
    AheadUsed(p, items, WHOLE, i);
    AheadUsed(p, items, TENANT_PART(items[i].tenant), i);
  }

  /** Critical before normal before debug. */
  lemma PriorityOrder(a: Item, b: Item)
    ensures RankOf(a) < RankOf(b) <==> (a.priority == CRITICAL && b.priority != CRITICAL) || (a.priority == NORMAL && b.priority == DEBUG)
    ensures RankOf(a) == RankOf(b) <==> a.priority == b.priority
  {
  }

  /** A pipeline is refused exactly for a limit that is not positive. */
  lemma RefusedExactly(capacity: int, perTenant: int, labelLimit: int)
    ensures Create(capacity, perTenant, labelLimit)
         == if capacity <= 0 || perTenant <= 0 || labelLimit <= 0 then Err(ValueError)
            else Ok(Pipeline(capacity, perTenant, labelLimit))
  {
  }

  // ---- what the report adds up ----

  predicate AcceptedAt(p: Pipeline, ordered: seq<Item>, k: nat, age: nat) {
    k < |ordered| && DecisionAt(p, ordered, k).verdict == ACCEPTED && ordered[k].age == age
  }

  lemma {:induction false} AgesAre(p: Pipeline, ordered: seq<Item>, age: nat)
    ensures age in AcceptedAges(p, ordered) <==> exists k: nat :: AcceptedAt(p, ordered, k, age)
  {
    if ordered != [] {
      var last := |ordered| - 1;
      AgesAre(p, ordered[..last], age);
      forall k: nat | k < last ensures AcceptedAt(p, ordered[..last], k, age) <==> AcceptedAt(p, ordered, k, age) {
        assert ordered[..last][..k] == ordered[..k];
      }
      assert AcceptedAt(p, ordered, last, age) <==> DecisionAt(p, ordered, last).verdict == ACCEPTED && ordered[last].age == age;
    }
  }

  lemma {:induction false} OldestBounds(ages: seq<nat>, k: nat)
    requires k < |ages|
    ensures ages[k] <= Oldest(ages)
  {
    if k < |ages| - 1 {
      OldestBounds(ages[..|ages| - 1], k);
    }
  }

  lemma {:induction false} OldestIsOne(ages: seq<nat>) returns (k: nat)
    ensures if ages == [] then Oldest(ages) == 0 else k < |ages| && ages[k] == Oldest(ages)
  {
    k := 0;
    if ages != [] {
      k := OldestIsOne(ages[..|ages| - 1]);
      if |ages| == 1 || ages[|ages| - 1] > Oldest(ages[..|ages| - 1]) {
        k := |ages| - 1;
      }
    }
  }

  /** The greatest age reported is that of an item accepted, and no item accepted is older; zero if none is. */
  lemma OldestAccepted(p: Pipeline, items: seq<Item>)
    ensures var oldest := Oldest(AcceptedAges(p, InOrder(items)));
            && (forall i | 0 <= i < |items| && Own(p, items, i) == ACCEPTED :: items[i].age <= oldest)
            && (oldest == 0 || exists i :: 0 <= i < |items| && Own(p, items, i) == ACCEPTED && items[i].age == oldest)
  {
    var ordered := InOrder(items);
    var ages := AcceptedAges(p, ordered);
    forall i | 0 <= i < |items| && Own(p, items, i) == ACCEPTED ensures items[i].age <= Oldest(ages) {
      OwnAt(p, items, i);
      AgesAre(p, ordered, items[i].age);
      assert AcceptedAt(p, ordered, Turn(items, i), items[i].age);
      var k: nat :| k < |ages| && ages[k] == items[i].age;
      OldestBounds(ages, k);
    }
    var l := OldestIsOne(ages);
    if ages != [] {
      AgesAre(p, ordered, Oldest(ages));
      var k: nat :| AcceptedAt(p, ordered, k, Oldest(ages));
      var i := PlaceOf(items, RankOf, 3, k);
      OwnAt(p, items, i);
    }
  }

  function AcceptedPositions(decisions: seq<Decision<Verdict>>): set<int> {
    set i | 0 <= i < |decisions| && decisions[i].verdict == ACCEPTED
  }

  /** The count of items accepted is their number. */
  lemma {:induction false} AcceptedIsNumber(decisions: seq<Decision<Verdict>>)
    ensures AcceptedItems(decisions) == |AcceptedPositions(decisions)|
  {
    if decisions != [] {
      var last := |decisions| - 1;
      AcceptedIsNumber(decisions[..last]);
      assert AcceptedPositions(decisions)
          == AcceptedPositions(decisions[..last]) + if decisions[last].verdict == ACCEPTED then {last} else {};
    }
  }

  // ---- accounting and limits ----

  function SizeOf(item: Item): nat { item.size }

  lemma {:induction false} UnitsKept(p: Pipeline, items: seq<Item>)
    ensures UsageAfter(p, items).accepted + UsageAfter(p, items).dropped == Sum(items, SizeOf)
  {
    if items != [] {
      UnitsKept(p, items[..|items| - 1]);
    }
  }

  /** Every unit that comes in is reported as accepted or as dropped. */
  lemma NothingUnaccounted(p: Pipeline, items: seq<Item>)
    ensures var u := UsageAfter(p, InOrder(items)); u.accepted + u.dropped == Sum(items, SizeOf)
  {
    UnitsKept(p, InOrder(items));
    RanksAreBelowThree(items);
    RankedSum(items, RankOf, 3, SizeOf);
  }

  lemma {:induction false} LimitsKept(p: Pipeline, items: seq<Item>, tenant: Name)
    requires p.Valid()
    ensures UsageAfter(p, items).accepted <= p.capacity && UsageAfter(p, items).Tenant(tenant) <= p.perTenant
  {
    if items != [] {
      LimitsKept(p, items[..|items| - 1], tenant);
    }
  }

  /** The items accepted exceed neither the capacity nor any tenant's quota. */
  lemma LimitsHold(p: Pipeline, items: seq<Item>, tenant: Name)
    requires p.Valid()
    ensures Total(p, items, WHOLE) <= p.capacity && Total(p, items, TENANT_PART(tenant)) <= p.perTenant
  {
    LimitsKept(p, InOrder(items), tenant);
    UsageIsSum(p, items, WHOLE);
    UsageIsSum(p, items, TENANT_PART(tenant));
  }

  lemma {:induction false} UsageGrows(p: Pipeline, items: seq<Item>, k: nat, part: Part)
    requires k <= |items|
    ensures UsedBy(UsageAfter(p, items[..k]), part) <= UsedBy(UsageAfter(p, items), part)
  {
    var last := |items| - 1;
    if k <= last {
      assert items[..last][..k] == items[..k];
      UsageGrows(p, items[..last], k, part);
    } else {
      assert items[..k] == items;
    }
  }

  /** An item on top of all accepted units and its tenant's exceeds a limit. */
  predicate Exceeds(p: Pipeline, all: nat, tenant: nat, item: Item) {
    tenant + item.size > p.perTenant || all + item.size > p.capacity
  }

  predicate ForSpace(v: Verdict) {
    v.TENANT_QUOTA? || v.QUEUE_FULL?
  }

  lemma DroppedExceeds(p: Pipeline, ordered: seq<Item>, k: nat)
    requires k < |ordered| && ForSpace(DecisionAt(p, ordered, k).verdict)
    ensures var u := UsageAfter(p, ordered);
            Exceeds(p, UsedBy(u, WHOLE), UsedBy(u, TENANT_PART(ordered[k].tenant)), ordered[k])
  {
    UsageGrows(p, ordered, k, WHOLE);
    UsageGrows(p, ordered, k, TENANT_PART(ordered[k].tenant));
  }

  /** What is dropped for want of space does not fit beside everything that was accepted, either. */
  lemma Maximal(p: Pipeline, items: seq<Item>, i: nat)
    requires i < |items| && ForSpace(Own(p, items, i))
    ensures Exceeds(p, Total(p, items, WHOLE), Total(p, items, TENANT_PART(items[i].tenant)), items[i])
  {
    OwnAt(p, items, i);
    DroppedExceeds(p, InOrder(items), Turn(items, i));
    UsageIsSum(p, items, WHOLE);
    UsageIsSum(p, items, TENANT_PART(items[i].tenant));
  }

  predicate TurnedAway(v: Verdict) {
    v.FORBIDDEN_LABEL? || v.LABEL_VALUE_TOO_LONG?
  }

  /** A metric with a forbidden label or one that is too long. */
  predicate BadLabels(p: Pipeline, item: Item) {
    item.signal.METRIC? &&
    exists name | name in item.attributes :: name in FORBIDDEN_LABELS || |item.attributes[name]| > p.labelLimit
  }

  /** The report turns an item away for its labels exactly if they are bad on the last item processed with
      its id, whatever else is ingested: on the item itself if ids are distinct. */
  lemma LabelsDecide(p: Pipeline, items: seq<Item>, i: nat) returns (j: nat)
    requires i < |items|
    ensures j < |items| && items[j].id == items[i].id && (DistinctIds(items, IdOf) ==> j == i)
    ensures forall m | 0 <= m < |items| && items[m].id == items[i].id :: Turn(items, m) <= Turn(items, j)
    ensures Verdicts(p, items, items[i]).Some?
    ensures TurnedAway(Verdicts(p, items, items[i]).value.verdict) <==> BadLabels(p, items[j])
  {
    j := DecidedByAhead(p, items, i);
  }
}

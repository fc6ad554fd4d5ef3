/**
  Rollout batches for a fleet of clusters: ring by ring, greedily, under a cap on the size of a batch
  and a cap on the clusters a batch takes from one failure domain.
 */
module BatchModel {
  import opened Results
  import opened Sorting

  /** Names are compared and ordered, nothing else: an integer stands for a string. */
  type Name = int

  /** An eligible cluster. */
  datatype Cluster = Cluster(id: Name, ring: Name, domain: Name)

  datatype Batch = Batch(ring: Name, number: nat, clusters: seq<Cluster>)

  datatype Caps = Caps(size: int, perDomain: int)

  // ---- counting clusters ----

  /** What clusters are counted by. */
  datatype Key = Domain(name: Name) | Same(cluster: Cluster)

  predicate Matches(c: Cluster, key: Key) {
    match key
    case Domain(name) => c.domain == name
    case Same(cluster) => c == cluster
  }

  function Tally(items: seq<Cluster>, key: Key): (n: nat)
    ensures n <= |items|
  {
    if items == [] then 0
    else Tally(items[..|items| - 1], key) + if Matches(items[|items| - 1], key) then 1 else 0
  }

  lemma TallyAppend(items: seq<Cluster>, c: Cluster, key: Key)
    ensures Tally(items + [c], key) == Tally(items, key) + if Matches(c, key) then 1 else 0
  {
  }

  lemma {:induction false} TallyPositive(items: seq<Cluster>, i: nat, key: Key)
    requires i < |items| && Matches(items[i], key)
    ensures Tally(items, key) > 0
  {
    if i < |items| - 1 {
      TallyPositive(items[..|items| - 1], i, key);
    }
  }

  lemma {:induction false} TallyConcat(left: seq<Cluster>, right: seq<Cluster>, key: Key)
    ensures Tally(left + right, key) == Tally(left, key) + Tally(right, key)
  {
    if right == [] {
      assert left + right == left;
    } else {
      var last := |right| - 1;
      TallyConcat(left, right[..last], key);
      assert (left + right)[..|left + right| - 1] == left + right[..last];
    }
  }

  // ---- one batch ----

  datatype Split = Split(selected: seq<Cluster>, deferred: seq<Cluster>)

  predicate Fits(selected: seq<Cluster>, c: Cluster, caps: Caps) {
    |selected| < caps.size && Tally(selected, Domain(c.domain)) < caps.perDomain
  }

  function Place(split: Split, c: Cluster, caps: Caps): Split {
    if Fits(split.selected, c, caps) then split.(selected := split.selected + [c])
    else split.(deferred := split.deferred + [c])
  }

  /** One pass over the remaining clusters: those selected for the batch, and the others. */
  function Scan(remaining: seq<Cluster>, caps: Caps): (split: Split)
    ensures |split.selected| + |split.deferred| == |remaining|
  {
    if remaining == [] then Split([], [])
    else Place(Scan(remaining[..|remaining| - 1], caps), remaining[|remaining| - 1], caps)
  }

  // ---- one ring ----

  /** Batches followed by the rest of a plan, if there is one. */
  function Then(planned: seq<Batch>, rest: Result<seq<Batch>>): Result<seq<Batch>> {
    if rest.Err? then rest else Ok(planned + rest.value)
  }

  lemma ThenThen(planned: seq<Batch>, next: seq<Batch>, rest: Result<seq<Batch>>)
    ensures Then(planned, Then(next, rest)) == Then(planned + next, rest)
  {
    if rest.Ok? {
      assert planned + (next + rest.value) == (planned + next) + rest.value;
    }
  }

  lemma ThenNothing(rest: Result<seq<Batch>>)
    ensures Then([], rest) == rest
  {
    if rest.Ok? {
      assert [] + rest.value == rest.value;
    }
  }

  function PlanRing(ring: Name, number: nat, remaining: seq<Cluster>, caps: Caps): Result<seq<Batch>>
    decreases |remaining|
  {
    if remaining == [] then Ok([])
    else
      var split := Scan(remaining, caps);
      if split.selected == [] then Err(InputError)
      else Then([Batch(ring, number, split.selected)], PlanRing(ring, number + 1, split.deferred, caps))
  }

  function OfRing(eligible: seq<Cluster>, ring: Name): seq<Cluster> {
    if eligible == [] then []
    else
      var last := eligible[|eligible| - 1];
      OfRing(eligible[..|eligible| - 1], ring) + if last.ring == ring then [last] else []
  }

  /** Order by failure domain, then by cluster id. */
  predicate NotAfter(a: Cluster, b: Cluster) {
    a.domain < b.domain || (a.domain == b.domain && a.id <= b.id)
  }

  function Sorted(items: seq<Cluster>): (r: seq<Cluster>)
    ensures |r| == |items|
  {
    if items == [] then [] else Inserted(Sorted(items[..|items| - 1]), items[|items| - 1], NotAfter)
  }

  lemma ByDomainAndId()
    ensures TotalOrder(NotAfter)
  {
  }

  lemma {:induction false} SortedOrdered(items: seq<Cluster>)
    ensures Ordered(Sorted(items), NotAfter)
  {
    if items != [] {
      SortedOrdered(items[..|items| - 1]);
      ByDomainAndId();
      InsertedOrdered(Sorted(items[..|items| - 1]), items[|items| - 1], NotAfter);
    }
  }

  /** That is: by failure domain, and within one by cluster id. */
  lemma SortedByDomainAndId(items: seq<Cluster>, i: nat, j: nat)
    requires i < j < |items|
    ensures var a, b := Sorted(items)[i], Sorted(items)[j];
            a.domain < b.domain || (a.domain == b.domain && a.id <= b.id)
  {
    SortedOrdered(items);
  }

  lemma {:induction false} InsertedTally(sorted: seq<Cluster>, c: Cluster, key: Key)
    ensures Tally(Inserted(sorted, c, NotAfter), key) == Tally(sorted, key) + if Matches(c, key) then 1 else 0
  {
    if sorted == [] || NotAfter(sorted[|sorted| - 1], c) {
      TallyAppend(sorted, c, key);
    } else {
      InsertedTally(sorted[..|sorted| - 1], c, key);
      TallyAppend(Inserted(sorted[..|sorted| - 1], c, NotAfter), sorted[|sorted| - 1], key);
    }
  }

  /** Sorting keeps what there is. */
  lemma {:induction false} SortedTally(items: seq<Cluster>, key: Key)
    ensures Tally(Sorted(items), key) == Tally(items, key)
  {
    if items != [] {
      SortedTally(items[..|items| - 1], key);
      InsertedTally(Sorted(items[..|items| - 1]), items[|items| - 1], key);
    }
  }

  // ---- the whole plan ----

  function RingPlan(eligible: seq<Cluster>, ring: Name, caps: Caps): Result<seq<Batch>> {
    PlanRing(ring, 1, Sorted(OfRing(eligible, ring)), caps)
  }

  /** Plans one after the other; the first that fails decides. */
  function Join(plans: seq<Result<seq<Batch>>>): Result<seq<Batch>> {
    if plans == [] then Ok([])
    else
      var before := Join(plans[..|plans| - 1]);
      if before.Err? then before else Then(before.value, plans[|plans| - 1])
  }

  lemma JoinNext(plans: seq<Result<seq<Batch>>>, i: nat, planned: seq<Batch>)
    requires i < |plans| && Join(plans[..i]) == Ok(planned) && plans[i].Ok?
    ensures Join(plans[..i + 1]) == Ok(planned + plans[i].value)
  {
    assert plans[..i + 1][..i] == plans[..i];
  }

  lemma {:induction false} JoinFails(plans: seq<Result<seq<Batch>>>, i: nat)
    requires i < |plans| && Join(plans[..i]).Ok? && plans[i].Err?
    ensures Join(plans) == plans[i]
  {
    if i < |plans| - 1 {
      assert plans[..|plans| - 1][..i] == plans[..i];
      JoinFails(plans[..|plans| - 1], i);
    }
  }

  function RingPlans(eligible: seq<Cluster>, ringOrder: seq<Name>, caps: Caps): (plans: seq<Result<seq<Batch>>>)
    ensures |plans| == |ringOrder|
  {
    seq(|ringOrder|, i requires 0 <= i < |ringOrder| => RingPlan(eligible, ringOrder[i], caps))
  }

  function Plan(eligible: seq<Cluster>, ringOrder: seq<Name>, caps: Caps): Result<seq<Batch>> {
    Join(RingPlans(eligible, ringOrder, caps))
  }
}

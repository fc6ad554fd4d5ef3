/**
  What stops or holds back a cycle, on the fleet and the policy alone: refused inputs, the circuit
  breaker, and the gate for replacements.
 */
module RepairBreaker {
  import opened Results
  import opened RepairModel
  import opened RepairTheorems
  import opened RepairSelection

  // ---- refused inputs ----

  /** A cycle is refused exactly for a policy out of range, an empty fleet, a name used twice, a node without
      capacity, or storage fenced off where traffic is not. */
  lemma RefusedExactly(fleet: seq<Node>, p: Policy, disabled: bool)
    ensures Evaluate(fleet, p, disabled) == Err(ValueError) <==>
            || p.maxCluster <= 0 || p.maxZone <= 0
            || p.minCapacity <= 0.0 || p.minCapacity > 100.0 || p.systemicImage <= 0.0 || p.systemicImage > 100.0
            || p.systemicZones <= 0 || p.restartLimit < 0
            || |fleet| == 0
            || (exists i, j :: SameName(fleet, i, j))
            || (exists i :: 0 <= i < |fleet|
                  && (fleet[i].capacity <= 0 || (fleet[i].fences.storage && !fleet[i].fences.traffic)))
    ensures Evaluate(fleet, p, disabled).Err? ==> Evaluate(fleet, p, disabled) == Err(ValueError)
  {
    if forall i, j :: !SameName(fleet, i, j) {
      forall i, j | 0 <= i < j < |fleet| ensures fleet[i].name != fleet[j].name {
        assert !SameName(fleet, i, j);
      }
    }
  }

  predicate SameName(fleet: seq<Node>, i: int, j: int) {
    0 <= i < j < |fleet| && fleet[i].name == fleet[j].name
  }

  // ---- counting nodes ----

  function Where(nodes: seq<Node>, key: Key): set<int> {
    set i | 0 <= i < |nodes| && Matches(nodes[i], key)
  }

  lemma WhereNext(nodes: seq<Node>, key: Key)
    requires nodes != []
    ensures var last := |nodes| - 1;
            Where(nodes, key) == Where(nodes[..last], key) + if Matches(nodes[last], key) then {last} else {}
  {
    var last := |nodes| - 1;
    assert forall i | 0 <= i < last :: nodes[..last][i] == nodes[i];
  }

  /** Tallies are numbers of nodes. */
  lemma {:induction false} TallyIsCount(nodes: seq<Node>, key: Key)
    ensures Tally(nodes, key) == |Where(nodes, key)|
  {
    if nodes != [] {
      TallyIsCount(nodes[..|nodes| - 1], key);
      WhereNext(nodes, key);
    }
  }

  /** Under repair are the nodes cordoned, fenced, draining, being replaced or being verified. */
  lemma RepairsAre(fleet: seq<Node>, zone: Name)
    ensures var states := {CORDONED, State.FENCED, DRAINING, REPLACING, VERIFYING};
            && Tally(fleet, REPAIRS(CLUSTER)) == |set i | 0 <= i < |fleet| && fleet[i].state in states|
            && Tally(fleet, REPAIRS(ZONE(zone))) == |set i | 0 <= i < |fleet| && fleet[i].state in states && fleet[i].zone == zone|
  {
    var states := {CORDONED, State.FENCED, DRAINING, REPLACING, VERIFYING};
    TallyIsCount(fleet, REPAIRS(CLUSTER));
    TallyIsCount(fleet, REPAIRS(ZONE(zone)));
    assert Where(fleet, REPAIRS(CLUSTER))
        == set i | 0 <= i < |fleet| && fleet[i].state in states;
    assert Where(fleet, REPAIRS(ZONE(zone)))
        == set i | 0 <= i < |fleet| && fleet[i].state in states && fleet[i].zone == zone;
  }

  // ---- the circuit breaker ----

  /** Neither healthy nor suspect, with a known failure. */
  predicate Broken(n: Node) {
    n.state != HEALTHY && n.state != SUSPECT && n.signature != None
  }

  /** The failed share of the nodes of an image reaches the percentage of the policy. */
  ghost predicate ImageFails(fleet: seq<Node>, p: Policy, image: Name) {
    var all, broken := |OfImage(fleet, image)|, |BrokenOfImage(fleet, image)|;
    broken > 0 && broken as real * 100.0 >= p.systemicImage * all as real
  }

  function OfImage(fleet: seq<Node>, image: Name): set<int> {
    set i | 0 <= i < |fleet| && fleet[i].image == image
  }

  function BrokenOfImage(fleet: seq<Node>, image: Name): set<int> {
    set i | 0 <= i < |fleet| && fleet[i].image == image && Broken(fleet[i])
  }

  /** As many nodes as the policy says have one failure in pairwise different zones. */
  ghost predicate FailureSpreads(fleet: seq<Node>, p: Policy, nodes: seq<nat>) {
    && |nodes| == p.systemicZones
    && (forall k | 0 <= k < |nodes| :: nodes[k] < |fleet| && Broken(fleet[nodes[k]]))
    && (forall k | 0 <= k < |nodes| :: fleet[nodes[k]].signature == fleet[nodes[0]].signature)
    && (forall k, l | 0 <= k < l < |nodes| :: fleet[nodes[k]].zone != fleet[nodes[l]].zone)
  }

  lemma ImageTallies(fleet: seq<Node>, image: Name)
    ensures Tally(fleet, OF_IMAGE(image)) == |OfImage(fleet, image)|
    ensures Tally(fleet, FAILED_OF_IMAGE(image)) == |BrokenOfImage(fleet, image)|
  {
    TallyIsCount(fleet, OF_IMAGE(image));
    TallyIsCount(fleet, FAILED_OF_IMAGE(image));
    assert Where(fleet, OF_IMAGE(image)) == OfImage(fleet, image);
    assert Where(fleet, FAILED_OF_IMAGE(image)) == BrokenOfImage(fleet, image);
  }

  lemma ImageCounted(fleet: seq<Node>, p: Policy, i: nat)
    requires i < |fleet| && Failed(fleet[i])
    ensures ImagePattern(fleet, fleet[i], p) <==> ImageFails(fleet, p, fleet[i].image)
  {
    ImageTallies(fleet, fleet[i].image);
    assert i in BrokenOfImage(fleet, fleet[i].image);
  }

  /** Different zones of a failure, one node of each. */
  lemma {:induction false} Representatives(fleet: seq<Node>, signature: Name, zones: set<Name>, n: nat) returns (nodes: seq<nat>)
    requires zones <= FailedZones(fleet, signature) && |zones| >= n
    ensures |nodes| == n
    ensures forall k | 0 <= k < n :: nodes[k] < |fleet| && Failed(fleet[nodes[k]]) && fleet[nodes[k]].signature == Some(signature)
    ensures forall k | 0 <= k < n :: fleet[nodes[k]].zone in zones
    ensures forall k, l | 0 <= k < l < n :: fleet[nodes[k]].zone != fleet[nodes[l]].zone
  {
    if n == 0 {
      nodes := [];
    } else {
      var zone :| zone in zones;
      var i :| 0 <= i < |fleet| && Failed(fleet[i]) && fleet[i].signature == Some(signature) && fleet[i].zone == zone;
      nodes := Representatives(fleet, signature, zones - {zone}, n - 1);
      nodes := nodes + [i];
    }
  }

  function ZonesOf(fleet: seq<Node>, nodes: seq<nat>): set<Name>
    requires forall k | 0 <= k < |nodes| :: nodes[k] < |fleet|
  {
    set k | 0 <= k < |nodes| :: fleet[nodes[k]].zone
  }

  lemma {:induction false} ManyZones(fleet: seq<Node>, nodes: seq<nat>)
    requires forall k | 0 <= k < |nodes| :: nodes[k] < |fleet|
    requires forall k, l | 0 <= k < l < |nodes| :: fleet[nodes[k]].zone != fleet[nodes[l]].zone
    ensures |ZonesOf(fleet, nodes)| == |nodes|
  {
    if nodes != [] {
      var last := |nodes| - 1;
      ManyZones(fleet, nodes[..last]);
      assert fleet[nodes[last]].zone !in ZonesOf(fleet, nodes[..last]);
      assert ZonesOf(fleet, nodes) == ZonesOf(fleet, nodes[..last]) + {fleet[nodes[last]].zone};
    }
  }

  lemma SubsetSize<T>(a: set<T>, b: set<T>)
    requires a <= b
    ensures |a| <= |b|
  {
    assert b == a + (b - a);
  }

  lemma SignatureSpreads(fleet: seq<Node>, p: Policy, i: nat)
    requires ValidPolicy(p) && i < |fleet| && Failed(fleet[i]) && SignaturePattern(fleet, fleet[i], p)
    ensures exists nodes :: FailureSpreads(fleet, p, nodes)
  {
    var signature := fleet[i].signature.value;
    var nodes := Representatives(fleet, signature, FailedZones(fleet, signature), p.systemicZones);
    assert FailureSpreads(fleet, p, nodes);
  }

  lemma SpreadIsPattern(fleet: seq<Node>, p: Policy, nodes: seq<nat>)
    requires ValidPolicy(p) && FailureSpreads(fleet, p, nodes)
    ensures Failed(fleet[nodes[0]]) && SignaturePattern(fleet, fleet[nodes[0]], p)
  {
    var signature := fleet[nodes[0]].signature.value;
    ManyZones(fleet, nodes);
    SubsetSize(ZonesOf(fleet, nodes), FailedZones(fleet, signature));
  }

  lemma SystemicIs(fleet: seq<Node>, p: Policy)
    requires ValidPolicy(p)
    ensures Systemic(fleet, p) <==>
              (exists image :: ImageFails(fleet, p, image)) || (exists nodes :: FailureSpreads(fleet, p, nodes))
  {
    if Systemic(fleet, p) {
      var i :| 0 <= i < |fleet| && Failed(fleet[i]) && (ImagePattern(fleet, fleet[i], p) || SignaturePattern(fleet, fleet[i], p));
      if ImagePattern(fleet, fleet[i], p) {
        ImageCounted(fleet, p, i);
      } else {
        SignatureSpreads(fleet, p, i);
      }
    }
    if image :| ImageFails(fleet, p, image) {
      var i :| i in BrokenOfImage(fleet, image);
      ImageCounted(fleet, p, i);
    }
    if nodes :| FailureSpreads(fleet, p, nodes) {
      SpreadIsPattern(fleet, p, nodes);
    }
  }

  /** The breaker opens exactly if repair is disabled, an image fails too often, or a failure spreads over too
      many zones; and then nothing is decided and the fleet stays as it is. */
  lemma BreakerExact(fleet: seq<Node>, p: Policy, disabled: bool)
    requires ValidPolicy(p) && ValidFleet(fleet)
    ensures Evaluate(fleet, p, disabled).Ok?
    ensures Evaluate(fleet, p, disabled).value.breakerOpen <==>
              disabled || (exists image :: ImageFails(fleet, p, image)) || (exists nodes :: FailureSpreads(fleet, p, nodes))
    ensures Evaluate(fleet, p, disabled).value.breakerOpen ==>
              Evaluate(fleet, p, disabled) == Ok(Outcome(true, [])) && Cycle(fleet, p, disabled) == fleet
  {
    SystemicIs(fleet, p);
    AppliedNothing(fleet);
  }

  lemma {:induction false} AppliedNothing(nodes: seq<Node>)
    ensures Applied(nodes, []) == nodes
  {
  }

  // ---- the gate ----

  /** The first candidate in line that could be replaced is, exactly if replacements need not be ready, none
      is under way, or one that is has become ready. */
  lemma FirstReplacement(fleet: seq<Node>, p: Policy, k: nat)
    requires k < |Candidates(fleet)| && Replaceable(Candidates(fleet)[k]) && !Due(Candidates(fleet)[k], p)
    requires HasRoom(fleet, p, Candidates(fleet)[..k], Candidates(fleet)[k])
    requires NoneReplaced(fleet, p, Candidates(fleet)[..k])
    ensures ActionOn(fleet, p, StartSlots(fleet, p), Candidates(fleet), k) == REPLACE <==>
            || !p.requireReady
            || !(exists i :: 0 <= i < |fleet| && fleet[i].state == REPLACING)
            || (exists i :: 0 <= i < |fleet| && fleet[i].state == REPLACING && fleet[i].ready)
  {
    ChosenExact(fleet, p, k);
  }
}

/** The controller's loops, proved to compute the cycle of RepairModel. */
module RepairController {
  import opened Results
  import opened RepairModel

  /** _systemic_failure_reason, without the words. */
  method SystemicFailure(fleet: seq<Node>, p: Policy) returns (systemic: bool)
    ensures systemic == Systemic(fleet, p)
  {
    for i := 0 to |fleet|
      invariant forall j | 0 <= j < i && Failed(fleet[j]) :: !ImagePattern(fleet, fleet[j], p)
    {
      if Failed(fleet[i]) && ImagePattern(fleet, fleet[i], p) {
        return true;
      }
    }
    for i := 0 to |fleet|
      invariant forall j | 0 <= j < i && Failed(fleet[j]) :: !SignaturePattern(fleet, fleet[j], p)
    {
      if Failed(fleet[i]) && SignaturePattern(fleet, fleet[i], p) {
        return true;
      }
    }
    return false;
  }

  /** _current_repairs */
  method CurrentRepairs(fleet: seq<Node>) returns (cluster: nat, zones: map<Name, nat>)
    ensures cluster == Tally(fleet, REPAIRS(CLUSTER)) && zones == ZoneRepairs(fleet)
  {
    cluster, zones := 0, map[];
    for i := 0 to |fleet|
      invariant cluster == Tally(fleet[..i], REPAIRS(CLUSTER)) && zones == ZoneRepairs(fleet[..i])
    {
      assert fleet[..i + 1][..i] == fleet[..i];
      var node := fleet[i];
      if UnderRepair(node.state) {
        cluster := cluster + 1;
        zones := zones[node.zone := (if node.zone in zones then zones[node.zone] else 0) + 1];
      }
    }
    assert fleet[..|fleet|] == fleet;
  }

  /** The loop over the candidates in evaluate_repair. */
  method DecideAll(fleet: seq<Node>, p: Policy, candidates: seq<Node>, start: Slots) returns (decisions: seq<Decision>)
    ensures decisions == Decisions(fleet, p, start, candidates)
  {
    decisions := [];
    var slots := start;
    for i := 0 to |candidates|
      invariant slots == SlotsAfter(fleet, p, start, candidates[..i])
      invariant decisions == Decisions(fleet, p, start, candidates[..i])
    {
      assert candidates[..i + 1][..i] == candidates[..i];
      var action := DecideOne(fleet, p, candidates[i], slots);
      decisions := decisions + [DecisionFor(candidates[i], action)];
      slots := Taken(p, slots, candidates[i], action);
    }
    assert candidates[..|candidates|] == candidates;
  }

  /** The body of that loop, one early continue after the other. */
  method DecideOne(fleet: seq<Node>, p: Policy, node: Node, slots: Slots) returns (action: Action)
    ensures action == Verdict(fleet, p, slots, node)
  {
    if node.state.SUSPECT? && node.failures <= p.restartLimit {
      return RESTART;
    }
    if slots.cluster >= p.maxCluster {
      return HOLD;
    }
    if slots.Zone(node.zone) >= p.maxZone {
      return HOLD;
    }
    if !slots.gate {
      return HOLD;
    }
    if TooLittleWithout(fleet, node, p) {
      return HOLD;
    }
    if node.writer && !(node.fences.traffic && node.fences.storage && node.fences.identity) {
      return FENCE;
    }
    return REPLACE;
  }

  method EvaluateRepair(fleet: seq<Node>, p: Policy, globalDisable: bool) returns (r: Result<Outcome>)
    ensures r == Evaluate(fleet, p, globalDisable)
  {
    if !ValidPolicy(p) || !ValidFleet(fleet) {
      return Err(ValueError);
    }
    if globalDisable {
      return Ok(Outcome(true, []));
    }
    var systemic := SystemicFailure(fleet, p);
    if systemic {
      return Ok(Outcome(true, []));
    }
    var cluster, zones := CurrentRepairs(fleet);
    var slots := Slots(cluster, zones, GateOpen(fleet, p));
    var decisions := DecideAll(fleet, p, Candidates(fleet), slots);
    return Ok(Outcome(false, decisions));
  }

  /** apply_decisions, with the dictionary of decisions by name. */
  method ApplyDecisions(fleet: seq<Node>, decisions: seq<Decision>) returns (r: Result<seq<Node>>)
    ensures r.Err? <==> !ValidFleet(fleet)
    ensures r.Err? ==> r.error == ValueError
    ensures r.Ok? ==> r.value == Applied(fleet, decisions)
  {
    if !ValidFleet(fleet) {
      return Err(ValueError);
    }
    var byName: map<Name, Decision> := map[];
    for i := 0 to |decisions|
      invariant forall name ::
                  DecisionOn(decisions[..i], name) == if name in byName then Some(byName[name]) else None
    {
      assert decisions[..i + 1][..i] == decisions[..i];
      byName := byName[decisions[i].node := decisions[i]];
    }
    assert decisions[..|decisions|] == decisions;
    var output := [];
    for i := 0 to |fleet|
      invariant output == Applied(fleet[..i], decisions)
    {
      assert fleet[..i + 1][..i] == fleet[..i];
      var node := fleet[i];
      assert DecisionOn(decisions, node.name) == if node.name in byName then Some(byName[node.name]) else None;
      if node.name !in byName || byName[node.name].action.HOLD? {
        output := output + [node];
      } else {
        output := output + [node.(state := byName[node.name].next)];
      }
    }
    assert fleet[..|fleet|] == fleet;
    return Ok(output);
  }
}

/**
  Capacity after a cycle. The lab promises that repair leaves enough healthy capacity. The controller
  projects each fencing and each replacement against the fleet as it was, and restarts not at all, so a
  cycle may leave too little; what goes, counted beforehand along the line, says exactly when.
 */
module RepairCapacity {
  import opened Results
  import opened RepairModel
  import opened RepairTheorems
  import opened RepairSelection

  // ---- units of some of the nodes ----

  function UnitsOf(nodes: seq<Node>, f: Node -> bool): int {
    if nodes == [] then 0
    else UnitsOf(nodes[..|nodes| - 1], f) + if f(nodes[|nodes| - 1]) then nodes[|nodes| - 1].capacity else 0
  }

  lemma {:induction false} UnitsWithin(nodes: seq<Node>, f: Node -> bool, g: Node -> bool)
    requires forall i | 0 <= i < |nodes| :: nodes[i].capacity > 0 && (f(nodes[i]) ==> g(nodes[i]))
    ensures 0 <= UnitsOf(nodes, f) <= UnitsOf(nodes, g)
  {
    if nodes != [] {
      UnitsWithin(nodes[..|nodes| - 1], f, g);
    }
  }

  function InService(): Node -> bool { (n: Node) => CountsAsHealthy(n.state) }

  /** Healthy units of a fleet. */
  function Healthy(nodes: seq<Node>): int { UnitsOf(nodes, InService()) }

  /** Enough healthy units out of a number of units. */
  predicate Enough(healthy: int, units: int, p: Policy) {
    healthy as real * 100.0 >= p.minCapacity * units as real
  }

  predicate EnoughCapacity(nodes: seq<Node>, p: Policy) {
    Enough(Healthy(nodes), Units(nodes), p)
  }

  // ---- what a cycle takes out of service ----

  /** Suspect nodes that decisions restart, fence or replace. */
  predicate Goes(n: Node, d: Option<Decision>) {
    n.state.SUSPECT? && d.Some? && !d.value.action.HOLD?
  }

  function Going(decisions: seq<Decision>): Node -> bool {
    (n: Node) => Goes(n, DecisionOn(decisions, n.name))
  }

  function Leaving(nodes: seq<Node>, decisions: seq<Decision>): int { UnitsOf(nodes, Going(decisions)) }

  ghost predicate AllSound(fleet: seq<Node>, decisions: seq<Decision>) {
    forall i | 0 <= i < |fleet| :: Sound(fleet[i], DecisionOn(decisions, fleet[i].name))
  }

  lemma CycleSound(fleet: seq<Node>, p: Policy, disabled: bool)
    requires ValidFleet(fleet)
    ensures AllSound(fleet, CycleDecisions(fleet, p, disabled))
  {
    if !BreakerOpen(fleet, p, disabled) {
      var s := StartSlots(fleet, p);
      forall i | 0 <= i < |fleet|
        ensures Sound(fleet[i], DecisionOn(Decisions(fleet, p, s, Candidates(fleet)), fleet[i].name))
      {
        NodeSettled(fleet, p, s, i);
      }
    }
  }

  lemma NodeLeaves(n: Node, d: Option<Decision>)
    requires Sound(n, d)
    ensures Moved(n, d).capacity == n.capacity
    ensures Counts(CountsAsHealthy(Moved(n, d).state)) == Counts(CountsAsHealthy(n.state)) - Counts(Goes(n, d))
  {
  }

  /** Healthy capacity falls by exactly what leaves. */
  lemma {:induction false} LeavingLeaves(nodes: seq<Node>, decisions: seq<Decision>)
    requires AllSound(nodes, decisions)
    ensures Healthy(Applied(nodes, decisions)) == Healthy(nodes) - Leaving(nodes, decisions)
    ensures Units(Applied(nodes, decisions)) == Units(nodes)
  {
    if nodes != [] {
      var init, last := nodes[..|nodes| - 1], nodes[|nodes| - 1];
      assert forall i | 0 <= i < |init| :: init[i] == nodes[i];
      LeavingLeaves(init, decisions);
      NodeLeaves(last, DecisionOn(decisions, last.name));
      UnitsAppend(Applied(init, decisions), Moved(last, DecisionOn(decisions, last.name)));
    }
  }

  lemma UnitsAppend(nodes: seq<Node>, n: Node)
    ensures Units(nodes + [n]) == Units(nodes) + n.capacity
    ensures Healthy(nodes + [n]) == Healthy(nodes) + if CountsAsHealthy(n.state) then n.capacity else 0
  {
    assert (nodes + [n])[..|nodes|] == nodes;
  }

  // ---- what is at risk beforehand ----

  /** A suspect node that is due for a restart, or that the rest of the fleet can do without. */
  predicate AtRisk(fleet: seq<Node>, p: Policy, n: Node) {
    n.state.SUSPECT? && (Due(n, p) || !TooLittleWithout(fleet, n, p))
  }

  function Risky(fleet: seq<Node>, p: Policy): Node -> bool { (n: Node) => AtRisk(fleet, p, n) }
  function Restarting(p: Policy): Node -> bool { (n: Node) => Due(n, p) }

  function UnitsAtRisk(fleet: seq<Node>, p: Policy): int { UnitsOf(fleet, Risky(fleet, p)) }
  function UnitsDue(fleet: seq<Node>, p: Policy): int { UnitsOf(fleet, Restarting(p)) }

  lemma GoesAtRisk(fleet: seq<Node>, p: Policy, s: Slots, i: nat)
    requires NamedAlone(fleet, i)
    ensures Goes(fleet[i], DecisionOn(Decisions(fleet, p, s, Candidates(fleet)), fleet[i].name)) ==> AtRisk(fleet, p, fleet[i])
  {
    if IsCandidate(fleet[i]) {
      var k := PlaceInLine(fleet, p, s, i);
    }
  }

  /** What leaves is among what is at risk, */
  lemma LeavingAtRisk(fleet: seq<Node>, p: Policy, disabled: bool, decisions: seq<Decision>)
    requires ValidFleet(fleet) && decisions == CycleDecisions(fleet, p, disabled)
    ensures 0 <= Leaving(fleet, decisions) <= UnitsAtRisk(fleet, p)
  {
    forall i | 0 <= i < |fleet| ensures Going(decisions)(fleet[i]) ==> Risky(fleet, p)(fleet[i]) {
      if !BreakerOpen(fleet, p, disabled) {
        GoesAtRisk(fleet, p, StartSlots(fleet, p), i);
      }
    }
    UnitsWithin(fleet, Going(decisions), Risky(fleet, p));
  }

  /** and includes every restart due. */
  lemma LeavingDue(fleet: seq<Node>, p: Policy, disabled: bool, decisions: seq<Decision>)
    requires ValidFleet(fleet) && !BreakerOpen(fleet, p, disabled) && decisions == CycleDecisions(fleet, p, disabled)
    ensures UnitsDue(fleet, p) <= Leaving(fleet, decisions)
  {
    forall i | 0 <= i < |fleet| ensures Restarting(p)(fleet[i]) ==> Going(decisions)(fleet[i]) {
      NodeSettled(fleet, p, StartSlots(fleet, p), i);
    }
    UnitsWithin(fleet, Restarting(p), Going(decisions));
  }

  lemma EnoughMore(a: int, b: int, units: int, p: Policy)
    requires a <= b
    ensures Enough(a, units, p) ==> Enough(b, units, p)
  {
  }

  /** A fleet has enough capacity afterwards exactly if it had enough without some units. */
  ghost predicate CapacityIs(fleet: seq<Node>, p: Policy, after: seq<Node>, leaving: int) {
    EnoughCapacity(after, p) <==> Enough(Healthy(fleet) - leaving, Units(fleet), p)
  }

  lemma CapacityFrom(fleet: seq<Node>, p: Policy, decisions: seq<Decision>)
    requires AllSound(fleet, decisions)
    ensures CapacityIs(fleet, p, Applied(fleet, decisions), Leaving(fleet, decisions))
  {
    LeavingLeaves(fleet, decisions);
  }

  lemma CapacityAfter(fleet: seq<Node>, p: Policy, disabled: bool, decisions: seq<Decision>)
    requires ValidPolicy(p) && ValidFleet(fleet) && decisions == CycleDecisions(fleet, p, disabled)
    ensures CapacityIs(fleet, p, Cycle(fleet, p, disabled), Leaving(fleet, decisions))
  {
    CycleSound(fleet, p, disabled);
    CapacityFrom(fleet, p, decisions);
  }

  /** Less leaves more. */
  lemma LessLeaves(fleet: seq<Node>, p: Policy, after: seq<Node>, leaving: int, bound: int)
    requires CapacityIs(fleet, p, after, leaving)
    ensures leaving <= bound && Enough(Healthy(fleet) - bound, Units(fleet), p) ==> EnoughCapacity(after, p)
    ensures bound <= leaving && EnoughCapacity(after, p) ==> Enough(Healthy(fleet) - bound, Units(fleet), p)
  {
    if leaving <= bound {
      EnoughMore(Healthy(fleet) - bound, Healthy(fleet) - leaving, Units(fleet), p);
    } else {
      EnoughMore(Healthy(fleet) - leaving, Healthy(fleet) - bound, Units(fleet), p);
    }
  }

  /** Whatever the limits: a cycle leaves the capacity promised if all that is at risk may go, */
  lemma EnoughBeyondRisk(fleet: seq<Node>, p: Policy, disabled: bool, after: seq<Node>)
    requires ValidPolicy(p) && ValidFleet(fleet) && after == Cycle(fleet, p, disabled)
    ensures Enough(Healthy(fleet) - UnitsAtRisk(fleet, p), Units(fleet), p) ==> EnoughCapacity(after, p)
  {
    var decisions := CycleDecisions(fleet, p, disabled);
    LeavingAtRisk(fleet, p, disabled, decisions);
    CapacityAfter(fleet, p, disabled, decisions);
    LessLeaves(fleet, p, after, Leaving(fleet, decisions), UnitsAtRisk(fleet, p));
  }

  /** and only if the restarts due may, unless the breaker is open. */
  lemma RestartsMustFit(fleet: seq<Node>, p: Policy, disabled: bool, after: seq<Node>)
    requires ValidPolicy(p) && ValidFleet(fleet) && !BreakerOpen(fleet, p, disabled) && after == Cycle(fleet, p, disabled)
    ensures EnoughCapacity(after, p) ==> Enough(Healthy(fleet) - UnitsDue(fleet, p), Units(fleet), p)
  {
    var decisions := CycleDecisions(fleet, p, disabled);
    LeavingDue(fleet, p, disabled, decisions);
    CapacityAfter(fleet, p, disabled, decisions);
    LessLeaves(fleet, p, after, Leaving(fleet, decisions), UnitsDue(fleet, p));
  }

  // ---- what goes ----

  /** A suspect node that is due for a restart or, by its place in line, chosen. */
  predicate Outgoing(fleet: seq<Node>, p: Policy, n: Node) {
    n.state.SUSPECT? && (Due(n, p) || (exists k :: 0 <= k < |Candidates(fleet)| && ChosenAt(fleet, p, n, k)))
  }

  predicate ChosenAt(fleet: seq<Node>, p: Policy, n: Node, k: nat)
    requires k < |Candidates(fleet)|
  {
    Candidates(fleet)[k] == n && Chosen(fleet, p, Candidates(fleet)[..k], n)
  }

  function Out(fleet: seq<Node>, p: Policy): Node -> bool { (n: Node) => Outgoing(fleet, p, n) }

  function UnitsOut(fleet: seq<Node>, p: Policy): int { UnitsOf(fleet, Out(fleet, p)) }

  /** A node stands in line once. */
  lemma LineOnce(fleet: seq<Node>, i: nat, k: nat, l: nat)
    requires NamedAlone(fleet, i) && k < |Candidates(fleet)| && l < |Candidates(fleet)|
    requires Candidates(fleet)[k] == Candidates(fleet)[l] == fleet[i]
    ensures k == l
  {
    var line, key := Candidates(fleet), CALLED(fleet[i].name);
    LineTally(fleet, fleet[i].name);
    CandidateCalled(fleet, i);
    TallyBefore(line, k, key);
    TallyBefore(line, l, key);
    if k < l {
      assert line[..l][..k] == line[..k];
      TallyBefore(line[..l], k, key);
    } else if l < k {
      assert line[..k][..l] == line[..l];
      TallyBefore(line[..k], l, key);
    }
  }

  lemma GoesExact(fleet: seq<Node>, p: Policy, i: nat)
    requires NamedAlone(fleet, i)
    ensures Goes(fleet[i], DecisionOn(Decisions(fleet, p, StartSlots(fleet, p), Candidates(fleet)), fleet[i].name))
       <==> Outgoing(fleet, p, fleet[i])
  {
    if fleet[i].state.SUSPECT? {
      var k := PlaceInLine(fleet, p, StartSlots(fleet, p), i);
      ChosenExact(fleet, p, k);
      forall l | 0 <= l < |Candidates(fleet)| && ChosenAt(fleet, p, fleet[i], l) ensures l == k {
        LineOnce(fleet, i, k, l);
      }
      assert Chosen(fleet, p, Candidates(fleet)[..k], fleet[i]) ==> ChosenAt(fleet, p, fleet[i], k);
    }
  }

  lemma LeavingIsOut(fleet: seq<Node>, p: Policy, disabled: bool, decisions: seq<Decision>)
    requires ValidFleet(fleet) && decisions == CycleDecisions(fleet, p, disabled)
    ensures Leaving(fleet, decisions) == if BreakerOpen(fleet, p, disabled) then 0 else UnitsOut(fleet, p)
  {
    if BreakerOpen(fleet, p, disabled) {
      NothingDecided(fleet);
    } else {
      forall i | 0 <= i < |fleet| ensures Going(decisions)(fleet[i]) <==> Out(fleet, p)(fleet[i]) {
        GoesExact(fleet, p, i);
      }
      UnitsWithin(fleet, Going(decisions), Out(fleet, p));
      UnitsWithin(fleet, Out(fleet, p), Going(decisions));
    }
  }

  /** Exactly when a cycle leaves the capacity promised: if there is enough without what goes, or the
      breaker is open and there was enough. */
  lemma CapacityExact(fleet: seq<Node>, p: Policy, disabled: bool, after: seq<Node>)
    requires ValidPolicy(p) && ValidFleet(fleet) && after == Cycle(fleet, p, disabled)
    ensures CapacityIs(fleet, p, after, if BreakerOpen(fleet, p, disabled) then 0 else UnitsOut(fleet, p))
  {
    var decisions := CycleDecisions(fleet, p, disabled);
    LeavingIsOut(fleet, p, disabled, decisions);
    CapacityAfter(fleet, p, disabled, decisions);
  }

  // ---- nothing but restarts ----

  lemma OnlyDueGo(fleet: seq<Node>, p: Policy)
    requires ValidFleet(fleet)
    requires !GateOpen(fleet, p) || p.maxCluster <= Tally(fleet, REPAIRS(CLUSTER))
    ensures UnitsOut(fleet, p) == UnitsDue(fleet, p)
  {
    UnitsWithin(fleet, Out(fleet, p), Restarting(p));
    UnitsWithin(fleet, Restarting(p), Out(fleet, p));
  }

  /** With the gate closed or all repair slots taken, only restarts cost capacity. */
  lemma CapacityWithoutRoom(fleet: seq<Node>, p: Policy, disabled: bool, after: seq<Node>)
    requires ValidPolicy(p) && ValidFleet(fleet) && after == Cycle(fleet, p, disabled)
    requires !GateOpen(fleet, p) || p.maxCluster <= Tally(fleet, REPAIRS(CLUSTER))
    ensures CapacityIs(fleet, p, after, if BreakerOpen(fleet, p, disabled) then 0 else UnitsDue(fleet, p))
  {
    OnlyDueGo(fleet, p);
    CapacityExact(fleet, p, disabled, after);
  }

  // ---- one replacement at a time ----

  lemma NotBehind(fleet: seq<Node>, p: Policy, line: seq<Node>, k: nat, l: nat)
    requires p.requireReady && k < |line| && l < |line| && Chosen(fleet, p, line[..l], line[l])
    ensures k < l && Replaceable(line[k]) ==> !HasRoom(fleet, p, line[..k], line[k])
  {
    if k < l {
      assert line[..l][k] == line[k] && line[..l][..k] == line[..k];
    }
  }

  /** Two nodes that are replaced, one after the other, would need the gate to be off. */
  lemma OneOut(fleet: seq<Node>, p: Policy, i: nat, j: nat)
    requires p.requireReady && NamedAlone(fleet, i) && NamedAlone(fleet, j)
    requires Outgoing(fleet, p, fleet[i]) && !Due(fleet[i], p) && Replaceable(fleet[i])
    requires Outgoing(fleet, p, fleet[j]) && !Due(fleet[j], p) && Replaceable(fleet[j])
    ensures i == j
  {
    var line := Candidates(fleet);
    var k :| 0 <= k < |line| && ChosenAt(fleet, p, fleet[i], k);
    var l :| 0 <= l < |line| && ChosenAt(fleet, p, fleet[j], l);
    NotBehind(fleet, p, line, k, l);
    NotBehind(fleet, p, line, l, k);
  }

  lemma OneOutEnough(fleet: seq<Node>, p: Policy)
    requires ValidFleet(fleet) && p.requireReady && EnoughCapacity(fleet, p)
    requires forall i | 0 <= i < |fleet| && fleet[i].state.SUSPECT? :: !Due(fleet[i], p) && Replaceable(fleet[i])
    ensures Enough(Healthy(fleet) - UnitsOut(fleet, p), Units(fleet), p)
  {
    if k :| 0 <= k < |fleet| && Outgoing(fleet, p, fleet[k]) {
      forall i | 0 <= i < |fleet| && i != k ensures !Out(fleet, p)(fleet[i]) {
        if Outgoing(fleet, p, fleet[i]) {
          OneOut(fleet, p, i, k);
        }
      }
      OnlyOne(fleet, p, Out(fleet, p), k);
    } else {
      UnitsWithin(fleet, Out(fleet, p), Going([]));
      NothingDecided(fleet);
    }
  }

  /** If replacements must be ready before the next, no restart is due and no suspect writer is to be
      fenced first, a cycle keeps the capacity promised. */
  lemma GateKeepsCapacity(fleet: seq<Node>, p: Policy, disabled: bool, after: seq<Node>)
    requires ValidPolicy(p) && ValidFleet(fleet) && EnoughCapacity(fleet, p) && after == Cycle(fleet, p, disabled)
    requires p.requireReady
    requires forall i | 0 <= i < |fleet| && fleet[i].state.SUSPECT? :: !Due(fleet[i], p) && Replaceable(fleet[i])
    ensures EnoughCapacity(after, p)
  {
    OneOutEnough(fleet, p);
    CapacityExact(fleet, p, disabled, after);
  }

  // ---- room for every candidate ----

  predicate Room(fleet: seq<Node>, p: Policy, scope: Scope) {
    Tally(fleet, REPAIRS(scope)) + Tally(fleet, CANDIDATES(scope)) <= Limit(p, scope)
  }

  predicate RoomForAll(fleet: seq<Node>, p: Policy) {
    forall i | 0 <= i < |fleet| && IsCandidate(fleet[i]) :: Room(fleet, p, CLUSTER) && Room(fleet, p, ZONE(fleet[i].zone))
  }

  lemma {:induction false} UsedByCandidates(fleet: seq<Node>, p: Policy, s: Slots, nodes: seq<Node>, scope: Scope)
    requires forall k | 0 <= k < |nodes| :: IsCandidate(nodes[k])
    ensures SlotsAfter(fleet, p, s, nodes).Used(scope) <= s.Used(scope) + Tally(nodes, CANDIDATES(scope))
    ensures s.gate && !p.requireReady ==> SlotsAfter(fleet, p, s, nodes).gate
  {
    if nodes != [] {
      var init, last := nodes[..|nodes| - 1], nodes[|nodes| - 1];
      UsedByCandidates(fleet, p, s, init, scope);
      var before := SlotsAfter(fleet, p, s, init);
      UsedGrows(p, before, last, Verdict(fleet, p, before, last), scope);
    }
  }

  lemma {:induction false} TallyBefore(nodes: seq<Node>, k: nat, key: Key)
    requires k < |nodes| && Matches(nodes[k], key)
    ensures Tally(nodes[..k], key) < Tally(nodes, key)
  {
    if k < |nodes| - 1 {
      TallyBefore(nodes[..|nodes| - 1], k, key);
      assert nodes[..|nodes| - 1][..k] == nodes[..k];
    }
  }

  lemma RoomInScope(fleet: seq<Node>, p: Policy, k: nat, scope: Scope)
    requires k < |Candidates(fleet)| && In(Candidates(fleet)[k], scope) && Room(fleet, p, scope)
    ensures SlotsAfter(fleet, p, StartSlots(fleet, p), Candidates(fleet)[..k]).Used(scope) < Limit(p, scope)
    ensures !p.requireReady ==> SlotsAfter(fleet, p, StartSlots(fleet, p), Candidates(fleet)[..k]).gate
  {
    var nodes := Candidates(fleet);
    LineMembers(fleet);
    UsedByCandidates(fleet, p, StartSlots(fleet, p), nodes[..k], scope);
    TallyBefore(nodes, k, CANDIDATES(scope));
    LineScope(fleet, scope);
    StartUsed(fleet, p, scope);
  }

  lemma RiskGoes(fleet: seq<Node>, p: Policy, i: nat)
    requires NamedAlone(fleet, i) && !p.requireReady && RoomForAll(fleet, p) && AtRisk(fleet, p, fleet[i])
    ensures Goes(fleet[i], DecisionOn(Decisions(fleet, p, StartSlots(fleet, p), Candidates(fleet)), fleet[i].name))
  {
    var k := PlaceInLine(fleet, p, StartSlots(fleet, p), i);
    RoomInScope(fleet, p, k, CLUSTER);
    RoomInScope(fleet, p, k, ZONE(fleet[i].zone));
  }

  lemma RiskLeaves(fleet: seq<Node>, p: Policy, decisions: seq<Decision>)
    requires ValidFleet(fleet) && !p.requireReady && RoomForAll(fleet, p)
    requires decisions == Decisions(fleet, p, StartSlots(fleet, p), Candidates(fleet))
    ensures UnitsAtRisk(fleet, p) <= Leaving(fleet, decisions)
  {
    forall i | 0 <= i < |fleet| ensures Risky(fleet, p)(fleet[i]) ==> Going(decisions)(fleet[i]) {
      if AtRisk(fleet, p, fleet[i]) {
        RiskGoes(fleet, p, i);
      }
    }
    UnitsWithin(fleet, Risky(fleet, p), Going(decisions));
  }

  lemma LeavingExact(fleet: seq<Node>, p: Policy, disabled: bool, decisions: seq<Decision>)
    requires ValidFleet(fleet) && !p.requireReady && RoomForAll(fleet, p)
    requires decisions == CycleDecisions(fleet, p, disabled)
    ensures Leaving(fleet, decisions) == if BreakerOpen(fleet, p, disabled) then 0 else UnitsAtRisk(fleet, p)
  {
    if BreakerOpen(fleet, p, disabled) {
      NothingDecided(fleet);
    } else {
      RiskLeaves(fleet, p, decisions);
      LeavingAtRisk(fleet, p, disabled, decisions);
    }
  }

  /** If the limits and the gate hold nothing back, all that is at risk goes. */
  lemma CapacityWithRoom(fleet: seq<Node>, p: Policy, disabled: bool, after: seq<Node>)
    requires ValidPolicy(p) && ValidFleet(fleet) && after == Cycle(fleet, p, disabled)
    requires !p.requireReady && RoomForAll(fleet, p)
    ensures CapacityIs(fleet, p, after, if BreakerOpen(fleet, p, disabled) then 0 else UnitsAtRisk(fleet, p))
  {
    var decisions := CycleDecisions(fleet, p, disabled);
    LeavingExact(fleet, p, disabled, decisions);
    CapacityAfter(fleet, p, disabled, decisions);
  }

  lemma {:induction false} NothingDecided(nodes: seq<Node>)
    ensures Leaving(nodes, []) == 0
  {
    if nodes != [] {
      NothingDecided(nodes[..|nodes| - 1]);
    }
  }

  // ---- one free slot ----

  function Named(name: Name): Node -> bool { (n: Node) => CountsAsHealthy(n.state) && n.name == name }

  lemma {:induction false} WithoutNamed(nodes: seq<Node>, name: Name)
    ensures HealthyUnitsWithout(nodes, name) == Healthy(nodes) - UnitsOf(nodes, Named(name))
  {
    if nodes != [] {
      WithoutNamed(nodes[..|nodes| - 1], name);
    }
  }

  lemma {:induction false} NothingTaken(nodes: seq<Node>, decisions: seq<Decision>)
    requires TakenNodes(nodes, decisions, CLUSTER) == 0
    ensures forall i | 0 <= i < |nodes| :: !Takes(DecisionOn(decisions, nodes[i].name))
  {
    if nodes != [] {
      NothingTaken(nodes[..|nodes| - 1], decisions);
    }
  }

  lemma {:induction false} OneTaken(nodes: seq<Node>, decisions: seq<Decision>) returns (k: nat)
    requires TakenNodes(nodes, decisions, CLUSTER) == 1
    ensures k < |nodes| && forall i | 0 <= i < |nodes| && i != k :: !Takes(DecisionOn(decisions, nodes[i].name))
  {
    var last := |nodes| - 1;
    if Takes(DecisionOn(decisions, nodes[last].name)) {
      k := last;
      NothingTaken(nodes[..last], decisions);
    } else {
      k := OneTaken(nodes[..last], decisions);
    }
  }

  lemma SparedEnough(fleet: seq<Node>, p: Policy, n: Node)
    requires !TooLittleWithout(fleet, n, p)
    ensures Enough(HealthyUnitsWithout(fleet, n.name), Units(fleet), p)
  {
  }

  lemma OnlyOneUnits(fleet: seq<Node>, f: Node -> bool, k: nat)
    requires ValidFleet(fleet) && k < |fleet| && CountsAsHealthy(fleet[k].state)
    requires forall i | 0 <= i < |fleet| && i != k :: !f(fleet[i])
    ensures HealthyUnitsWithout(fleet, fleet[k].name) <= Healthy(fleet) - UnitsOf(fleet, f)
  {
    UnitsWithin(fleet, f, Named(fleet[k].name));
    WithoutNamed(fleet, fleet[k].name);
  }

  /** If only one node is taken out, and the rest can spare it, what was projected without it remains. */
  lemma OnlyOne(fleet: seq<Node>, p: Policy, f: Node -> bool, k: nat)
    requires ValidFleet(fleet) && k < |fleet| && CountsAsHealthy(fleet[k].state) && !TooLittleWithout(fleet, fleet[k], p)
    requires forall i | 0 <= i < |fleet| && i != k :: !f(fleet[i])
    ensures Enough(Healthy(fleet) - UnitsOf(fleet, f), Units(fleet), p)
  {
    var without, left := HealthyUnitsWithout(fleet, fleet[k].name), Healthy(fleet) - UnitsOf(fleet, f);
    SparedEnough(fleet, p, fleet[k]);
    OnlyOneUnits(fleet, f, k);
    EnoughMore(without, left, Units(fleet), p);
  }

  ghost predicate OnlyTaken(fleet: seq<Node>, p: Policy, decisions: seq<Decision>) {
    forall i | 0 <= i < |fleet| :: !Due(fleet[i], p) && TakenIfGoes(fleet, p, fleet[i], DecisionOn(decisions, fleet[i].name))
  }

  predicate TakenIfGoes(fleet: seq<Node>, p: Policy, n: Node, d: Option<Decision>) {
    Goes(n, d) ==> AtRisk(fleet, p, n) && Takes(d)
  }

  lemma WithoutRestarts(fleet: seq<Node>, p: Policy, disabled: bool, decisions: seq<Decision>)
    requires ValidFleet(fleet) && (forall i | 0 <= i < |fleet| :: !Due(fleet[i], p))
    requires decisions == CycleDecisions(fleet, p, disabled)
    ensures OnlyTaken(fleet, p, decisions)
  {
    forall i | 0 <= i < |fleet| ensures TakenIfGoes(fleet, p, fleet[i], DecisionOn(decisions, fleet[i].name)) {
      if !BreakerOpen(fleet, p, disabled) {
        GoesAtRisk(fleet, p, StartSlots(fleet, p), i);
        NodeSettled(fleet, p, StartSlots(fleet, p), i);
      }
    }
  }

  lemma OneSlotTaken(fleet: seq<Node>, p: Policy, disabled: bool)
    requires ValidFleet(fleet) && p.maxCluster <= Tally(fleet, REPAIRS(CLUSTER)) + 1
    ensures TakenNodes(fleet, CycleDecisions(fleet, p, disabled), CLUSTER) <= 1
  {
    if BreakerOpen(fleet, p, disabled) {
      TakenNone(fleet, CLUSTER);
    } else {
      LineWithinLimit(fleet, p, CLUSTER);
    }
  }

  lemma OneTakenEnough(fleet: seq<Node>, p: Policy, decisions: seq<Decision>)
    requires ValidFleet(fleet) && OnlyTaken(fleet, p, decisions) && TakenNodes(fleet, decisions, CLUSTER) <= 1
    requires EnoughCapacity(fleet, p)
    ensures Enough(Healthy(fleet) - Leaving(fleet, decisions), Units(fleet), p)
  {
    if k :| 0 <= k < |fleet| && Goes(fleet[k], DecisionOn(decisions, fleet[k].name)) {
      if TakenNodes(fleet, decisions, CLUSTER) == 0 {
        NothingTaken(fleet, decisions);
      }
      var only := OneTaken(fleet, decisions);
      OnlyOne(fleet, p, Going(decisions), k);
    } else {
      UnitsWithin(fleet, Going(decisions), Going([]));
      NothingDecided(fleet);
    }
  }

  /** With no restart due and at most one repair slot free, a cycle keeps the capacity promised. */
  lemma OneSlotKeepsCapacity(fleet: seq<Node>, p: Policy, disabled: bool, after: seq<Node>)
    requires ValidPolicy(p) && ValidFleet(fleet) && EnoughCapacity(fleet, p) && after == Cycle(fleet, p, disabled)
    requires forall i | 0 <= i < |fleet| :: !Due(fleet[i], p)
    requires p.maxCluster <= Tally(fleet, REPAIRS(CLUSTER)) + 1
    ensures EnoughCapacity(after, p)
  {
    var decisions := CycleDecisions(fleet, p, disabled);
    WithoutRestarts(fleet, p, disabled, decisions);
    OneSlotTaken(fleet, p, disabled);
    OneTakenEnough(fleet, p, decisions);
    CapacityAfter(fleet, p, disabled, decisions);
    LessLeaves(fleet, p, after, Leaving(fleet, decisions), Leaving(fleet, decisions));
  }

  // ---- a restart that is not projected ----

  lemma OneDue(b: Node, p: Policy)
    requires Due(b, p)
    ensures UnitsDue([b], p) == Healthy([b]) == Units([b]) == b.capacity
  {
    OneCapacity(b);
    OneNode(b, Restarting(p));
  }

  lemma NothingIsTooLittle(units: int, p: Policy)
    requires ValidPolicy(p) && units > 0
    ensures !Enough(0, units, p) && Enough(units, units, p)
  {
    assert p.minCapacity * units as real > 0.0;
    assert p.minCapacity * units as real <= 100.0 * units as real;
  }

  /** The promise fails: a fleet of one suspect node that is due for a restart loses all capacity. */
  lemma RestartTakesAll(b: Node, p: Policy)
    requires ValidPolicy(p) && ValidFleet([b]) && Due(b, p)
    ensures EnoughCapacity([b], p) && !EnoughCapacity(Cycle([b], p, false), p)
  {
    OneDue(b, p);
    NothingIsTooLittle(b.capacity, p);
    assert !Systemic([b], p);
    RestartsMustFit([b], p, false, Cycle([b], p, false));
  }

  // ---- two removals in one cycle ----

  /** Two suspect nodes in different zones that share the capacity of the fleet. Replacements need not be
      ready, or the first in line is a writer that is not fenced off. */
  predicate Pair(b: Node, c: Node, p: Policy) {
    && b.state.SUSPECT? && c.state.SUSPECT? && b.failures > p.restartLimit && c.failures > p.restartLimit
    && b.signature.None? && c.signature.None? && !b.fences.storage && !c.fences.storage
    && b.capacity == c.capacity == 50 && b.zone != c.zone && b.name != c.name && NotAfter(b, c)
    && ValidPolicy(p) && p.maxCluster >= 2 && p.minCapacity == 50.0 && (!p.requireReady || b.writer)
  }

  lemma PairNotSystemic(b: Node, c: Node, p: Policy)
    requires Pair(b, c, p)
    ensures ValidFleet([b, c]) && !Systemic([b, c], p)
  {
  }

  lemma OneNode(b: Node, f: Node -> bool)
    ensures UnitsOf([b], f) == if f(b) then b.capacity else 0
  {
    assert [b][..0] == [] && UnitsOf([], f) == 0;
  }

  lemma OneCapacity(b: Node)
    ensures Units([b]) == b.capacity && Healthy([b]) == if CountsAsHealthy(b.state) then b.capacity else 0
  {
    OneNode(b, InService());
    assert [b][..0] == [] && Units([]) == 0;
  }

  lemma OneWithout(b: Node, name: Name)
    ensures HealthyUnitsWithout([b], name) == if CountsAsHealthy(b.state) && b.name != name then b.capacity else 0
  {
    assert [b][..0] == [] && HealthyUnitsWithout([], name) == 0;
  }

  lemma PairCapacity(b: Node, c: Node, p: Policy)
    requires Pair(b, c, p)
    ensures Units([b, c]) == Healthy([b, c]) == 100
    ensures HealthyUnitsWithout([b, c], b.name) == HealthyUnitsWithout([b, c], c.name) == 50
  {
    assert [b, c][..1] == [b] && [b][..0] == [];
    OneCapacity(b);
    OneWithout(b, b.name);
    OneWithout(b, c.name);
  }

  lemma PairInLine(b: Node, c: Node, p: Policy)
    requires Pair(b, c, p)
    ensures Candidates([b, c]) == [b, c]
    ensures forall scope :: Tally([b, c], REPAIRS(scope)) == 0
  {
    assert [b, c][..1] == [b] && [b][..0] == [];
    assert Candidates([]) == [] && Candidates([b]) == [] + [b] == [b];
    assert [b] + [c] == [b, c];
    forall scope ensures Tally([b, c], REPAIRS(scope)) == 0 {
      assert Tally([], REPAIRS(scope)) == 0 && Tally([b], REPAIRS(scope)) == 0;
    }
  }

  lemma FirstChosen(b: Node, c: Node, p: Policy)
    requires Pair(b, c, p)
    ensures Wants([b, c], p, b) && Wants([b, c], p, c) && Chosen([b, c], p, [], b)
  {
    PairCapacity(b, c, p);
    PairInLine(b, c, p);
  }

  lemma SecondChosen(b: Node, c: Node, p: Policy)
    requires Pair(b, c, p)
    ensures Chosen([b, c], p, [b], c)
  {
    FirstChosen(b, c, p);
    PairInLine(b, c, p);
    assert [b][..0] == [] && Fitting([b, c], p, []) == 0 && Wanting([b, c], p, [], c.zone) == 0;
    assert Wanting([b, c], p, [b], c.zone) == 0 && Fitting([b, c], p, [b]) <= 1;
  }

  lemma PairGoes(b: Node, c: Node, p: Policy)
    requires Pair(b, c, p)
    ensures Outgoing([b, c], p, b) && Outgoing([b, c], p, c)
  {
    PairInLine(b, c, p);
    FirstChosen(b, c, p);
    SecondChosen(b, c, p);
    assert [b, c][..1] == [b] && [b, c][..0] == [];
    assert ChosenAt([b, c], p, b, 0) && ChosenAt([b, c], p, c, 1);
  }

  /** The promise fails: each of two removals leaves the half that policy asks for, and both together
      leave nothing. */
  lemma CapacityCanRunOut(b: Node, c: Node, p: Policy, after: seq<Node>)
    requires Pair(b, c, p) && after == Cycle([b, c], p, false)
    ensures EnoughCapacity([b, c], p) && !EnoughCapacity(after, p)
  {
    PairNotSystemic(b, c, p);
    PairCapacity(b, c, p);
    PairGoes(b, c, p);
    UnitsWithin([b, c], InService(), Out([b, c], p));
    NothingIsTooLittle(100, p);
    CapacityExact([b, c], p, false, after);
    EnoughMore(100 - UnitsOut([b, c], p), 0, 100, p);
  }
}

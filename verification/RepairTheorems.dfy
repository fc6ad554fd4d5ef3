/** What one cycle of the controller does to a fleet, and what any number of cycles keep. */
module RepairTheorems {
  import opened Results
  import opened RepairModel
  import opened Sorting

  // ---- the candidates in line ----

  lemma TallyAppend(nodes: seq<Node>, n: Node, key: Key)
    ensures Tally(nodes + [n], key) == Tally(nodes, key) + if Matches(n, key) then 1 else 0
  {
  }

  lemma {:induction false} InsertedTally(sorted: seq<Node>, n: Node, key: Key)
    ensures Tally(Inserted(sorted, n, NotAfter), key) == Tally(sorted, key) + if Matches(n, key) then 1 else 0
  {
    if sorted == [] || NotAfter(sorted[|sorted| - 1], n) {
      TallyAppend(sorted, n, key);
    } else {
      InsertedTally(sorted[..|sorted| - 1], n, key);
      TallyAppend(Inserted(sorted[..|sorted| - 1], n, NotAfter), sorted[|sorted| - 1], key);
    }
  }

  /** The line holds the candidates of the fleet, each as often as the fleet does. */
  lemma {:induction false} LineTally(fleet: seq<Node>, name: Name)
    ensures Tally(Candidates(fleet), CALLED(name)) == Tally(fleet, CANDIDATE_CALLED(name))
  {
    if fleet != [] {
      var before, last := Candidates(fleet[..|fleet| - 1]), fleet[|fleet| - 1];
      LineTally(fleet[..|fleet| - 1], name);
      if IsCandidate(last) {
        InsertedTally(before, last, CALLED(name));
      }
    }
  }

  /** and as many of them in each zone. */
  lemma {:induction false} LineScope(fleet: seq<Node>, scope: Scope)
    ensures Tally(Candidates(fleet), CANDIDATES(scope)) == Tally(fleet, CANDIDATES(scope))
  {
    if fleet != [] {
      var before, last := Candidates(fleet[..|fleet| - 1]), fleet[|fleet| - 1];
      LineScope(fleet[..|fleet| - 1], scope);
      if IsCandidate(last) {
        InsertedTally(before, last, CANDIDATES(scope));
      }
    }
  }

  lemma {:induction false} LineMembers(fleet: seq<Node>)
    ensures forall k | 0 <= k < |Candidates(fleet)| :: Candidates(fleet)[k] in fleet && IsCandidate(Candidates(fleet)[k])
  {
    if fleet != [] {
      LineMembers(fleet[..|fleet| - 1]);
      InsertedMembers(Candidates(fleet[..|fleet| - 1]), fleet[|fleet| - 1], NotAfter);
    }
  }

  lemma ByUrgency()
    ensures TotalOrder(NotAfter)
  {
  }

  /** The line is in order of urgency. */
  lemma {:induction false} LineOrdered(fleet: seq<Node>)
    ensures Ordered(Candidates(fleet), NotAfter)
  {
    if fleet != [] {
      LineOrdered(fleet[..|fleet| - 1]);
      ByUrgency();
      InsertedOrdered(Candidates(fleet[..|fleet| - 1]), fleet[|fleet| - 1], NotAfter);
    }
  }

  /** That is: critical nodes first, then those with more failures, then by zone and by name. */
  lemma LineByUrgency(fleet: seq<Node>, i: nat, j: nat)
    requires i < j < |Candidates(fleet)|
    ensures var a, b := Candidates(fleet)[i], Candidates(fleet)[j];
            || (a.critical && !b.critical)
            || (a.critical == b.critical && a.failures > b.failures)
            || (a.critical == b.critical && a.failures == b.failures && a.zone < b.zone)
            || (a.critical == b.critical && a.failures == b.failures && a.zone == b.zone && a.name <= b.name)
  {
    LineOrdered(fleet);
  }

  // ---- each candidate once ----

  function Times(decisions: seq<Decision>, name: Name): nat {
    if decisions == [] then 0
    else Times(decisions[..|decisions| - 1], name) + if decisions[|decisions| - 1].node == name then 1 else 0
  }

  lemma TimesAppend(decisions: seq<Decision>, d: Decision, name: Name)
    ensures Times(decisions + [d], name) == Times(decisions, name) + if d.node == name then 1 else 0
  {
    assert (decisions + [d])[..|decisions|] == decisions;
  }

  lemma {:induction false} TimesTally(fleet: seq<Node>, p: Policy, s: Slots, nodes: seq<Node>, name: Name)
    ensures Times(Decisions(fleet, p, s, nodes), name) == Tally(nodes, CALLED(name))
  {
    if nodes != [] {
      var last := |nodes| - 1;
      TimesTally(fleet, p, s, nodes[..last], name);
      TimesAppend(Decisions(fleet, p, s, nodes[..last]), DecisionFor(nodes[last], ActionOn(fleet, p, s, nodes, last)), name);
    }
  }

  lemma {:induction false} CalledAtMostOnce(nodes: seq<Node>, name: Name)
    requires forall i, j | 0 <= i < j < |nodes| :: nodes[i].name != nodes[j].name
    ensures (forall i | 0 <= i < |nodes| :: nodes[i].name != name) ==> Tally(nodes, CALLED(name)) == 0
    ensures Tally(nodes, CALLED(name)) <= 1
  {
    if nodes != [] {
      CalledAtMostOnce(nodes[..|nodes| - 1], name);
    }
  }

  lemma {:induction false} CandidateCalled(nodes: seq<Node>, i: nat)
    requires i < |nodes| && forall j | 0 <= j < |nodes| && j != i :: nodes[j].name != nodes[i].name
    ensures Tally(nodes, CANDIDATE_CALLED(nodes[i].name)) == if IsCandidate(nodes[i]) then 1 else 0
  {
    var last := |nodes| - 1;
    if i < last {
      CandidateCalled(nodes[..last], i);
    } else {
      NoneCalled(nodes[..last], nodes[i].name);
    }
  }

  lemma {:induction false} NoneCalled(nodes: seq<Node>, name: Name)
    requires forall j | 0 <= j < |nodes| :: nodes[j].name != name
    ensures Tally(nodes, CANDIDATE_CALLED(name)) == 0
  {
    if nodes != [] {
      NoneCalled(nodes[..|nodes| - 1], name);
    }
  }

  /** While the breaker is closed, a cycle decides once about every suspect or degraded node and not at
      all about any other. */
  lemma DecidedOnce(fleet: seq<Node>, p: Policy, disabled: bool, i: nat)
    requires ValidFleet(fleet) && i < |fleet| && !BreakerOpen(fleet, p, disabled)
    ensures Times(CycleDecisions(fleet, p, disabled), fleet[i].name)
         == if fleet[i].state == SUSPECT || fleet[i].state == DEGRADED then 1 else 0
  {
    TimesTally(fleet, p, StartSlots(fleet, p), Candidates(fleet), fleet[i].name);
    LineTally(fleet, fleet[i].name);
    CandidateCalled(fleet, i);
  }

  // ---- what becomes of a node ----

  lemma {:induction false} DecisionFound(decisions: seq<Decision>, name: Name)
    ensures match DecisionOn(decisions, name)
            case None => forall k | 0 <= k < |decisions| :: decisions[k].node != name
            case Some(d) => exists k :: 0 <= k < |decisions| && decisions[k] == d && d.node == name
  {
    if decisions != [] && decisions[|decisions| - 1].node != name {
      DecisionFound(decisions[..|decisions| - 1], name);
    }
  }

  lemma {:induction false} NoTimes(decisions: seq<Decision>, name: Name)
    requires forall k | 0 <= k < |decisions| :: decisions[k].node != name
    ensures Times(decisions, name) == 0
  {
    if decisions != [] {
      NoTimes(decisions[..|decisions| - 1], name);
    }
  }

  predicate NamedAlone(fleet: seq<Node>, i: nat) {
    i < |fleet| && forall j | 0 <= j < |fleet| && j != i :: fleet[j].name != fleet[i].name
  }

  /** A candidate has its place in line, and the decision on it is the one made there. */
  lemma PlaceInLine(fleet: seq<Node>, p: Policy, s: Slots, i: nat) returns (k: nat)
    requires NamedAlone(fleet, i) && IsCandidate(fleet[i])
    ensures k < |Candidates(fleet)| && Candidates(fleet)[k] == fleet[i]
    ensures DecisionOn(Decisions(fleet, p, s, Candidates(fleet)), fleet[i].name)
         == Some(DecisionFor(fleet[i], ActionOn(fleet, p, s, Candidates(fleet), k)))
  {
    var nodes := Candidates(fleet);
    var decisions := Decisions(fleet, p, s, nodes);
    var name := fleet[i].name;
    TimesTally(fleet, p, s, nodes, name);
    LineTally(fleet, name);
    CandidateCalled(fleet, i);
    DecisionFound(decisions, name);
    if DecisionOn(decisions, name).None? {
      NoTimes(decisions, name);
    }
    k :| 0 <= k < |decisions| && DecisionOn(decisions, name) == Some(decisions[k]) && decisions[k].node == name;
    LineMembers(fleet);
    assert nodes[k] == fleet[i];
  }

  /** There is none on any other node. */
  lemma NotInLine(fleet: seq<Node>, p: Policy, s: Slots, i: nat)
    requires NamedAlone(fleet, i) && !IsCandidate(fleet[i])
    ensures DecisionOn(Decisions(fleet, p, s, Candidates(fleet)), fleet[i].name).None?
  {
    LineMembers(fleet);
    DecisionFound(Decisions(fleet, p, s, Candidates(fleet)), fleet[i].name);
  }

  /** What a cycle may do to a node: leave it, verify it after a restart, fence it, or replace it; it
      never replaces a storage writer that is not fenced off completely, and it fences or replaces a node
      only if the rest of the fleet has enough healthy capacity without it. */
  predicate Legal(fleet: seq<Node>, p: Policy, n: Node, m: Node) {
    m == n ||
    (&& IsCandidate(n) && m == n.(state := m.state)
     && match m.state
        case VERIFYING => n.state.SUSPECT? && n.failures <= p.restartLimit
        case FENCED => n.writer && !n.fences.All() && !TooLittleWithout(fleet, n, p)
        case REPLACING => (n.writer ==> n.fences.All()) && !TooLittleWithout(fleet, n, p)
        case _ => false)
  }

  lemma VerdictLegal(fleet: seq<Node>, p: Policy, s: Slots, n: Node)
    requires IsCandidate(n)
    ensures Legal(fleet, p, n, Moved(n, Some(DecisionFor(n, Verdict(fleet, p, s, n)))))
  {
  }

  lemma LineOutcome(fleet: seq<Node>, p: Policy, s: Slots, i: nat)
    requires NamedAlone(fleet, i)
    ensures Legal(fleet, p, fleet[i], Moved(fleet[i], DecisionOn(Decisions(fleet, p, s, Candidates(fleet)), fleet[i].name)))
  {
    if IsCandidate(fleet[i]) {
      var k := PlaceInLine(fleet, p, s, i);
      VerdictLegal(fleet, p, SlotsAfter(fleet, p, s, Candidates(fleet)[..k]), fleet[i]);
    } else {
      NotInLine(fleet, p, s, i);
    }
  }

  lemma NodeOutcome(fleet: seq<Node>, p: Policy, disabled: bool, i: nat)
    requires i < |fleet|
    ensures |Cycle(fleet, p, disabled)| == |fleet|
    ensures Legal(fleet, p, fleet[i], Cycle(fleet, p, disabled)[i])
  {
    if Evaluate(fleet, p, disabled).Ok? && !BreakerOpen(fleet, p, disabled) {
      LineOutcome(fleet, p, StartSlots(fleet, p), i);
    }
  }

  // ---- limits on concurrent repairs ----

  function Limit(p: Policy, scope: Scope): int {
    if scope.CLUSTER? then p.maxCluster else p.maxZone
  }

  /** Going down the line never takes more slots than the limit leaves. */
  lemma {:induction false} SlotsWithinLimit(fleet: seq<Node>, p: Policy, s: Slots, nodes: seq<Node>, scope: Scope)
    ensures var used := SlotsAfter(fleet, p, s, nodes).Used(scope);
            s.Used(scope) <= used && (used == s.Used(scope) || used <= Limit(p, scope))
  {
    if nodes != [] {
      SlotsWithinLimit(fleet, p, s, nodes[..|nodes| - 1], scope);
    }
  }

  lemma {:induction false} StartUsed(fleet: seq<Node>, p: Policy, scope: Scope)
    ensures StartSlots(fleet, p).Used(scope) == Tally(fleet, REPAIRS(scope))
  {
    if scope.ZONE? {
      ZoneRepairsTally(fleet, scope.name);
    }
  }

  lemma {:induction false} ZoneRepairsTally(fleet: seq<Node>, zone: Name)
    ensures (if zone in ZoneRepairs(fleet) then ZoneRepairs(fleet)[zone] else 0) == Tally(fleet, REPAIRS(ZONE(zone)))
  {
    if fleet != [] {
      ZoneRepairsTally(fleet[..|fleet| - 1], zone);
    }
  }

  lemma {:induction false} DisruptedAreRepairs(nodes: seq<Node>, scope: Scope)
    ensures Tally(nodes, DISRUPTED(scope)) <= Tally(nodes, REPAIRS(scope))
  {
    if nodes != [] {
      DisruptedAreRepairs(nodes[..|nodes| - 1], scope);
    }
  }

  predicate Takes(d: Option<Decision>) {
    d.Some? && TakesSlot(d.value.action)
  }

  /** Nodes of a scope that decisions fence or replace. */
  function TakenNodes(nodes: seq<Node>, decisions: seq<Decision>, scope: Scope): nat {
    if nodes == [] then 0
    else
      var last := nodes[|nodes| - 1];
      TakenNodes(nodes[..|nodes| - 1], decisions, scope)
      + if In(last, scope) && Takes(DecisionOn(decisions, last.name)) then 1 else 0
  }

  /** Decisions that say what their action means. */
  predicate Honest(decisions: seq<Decision>) {
    forall k | 0 <= k < |decisions| ::
      !TakesSlot(decisions[k].action) && !decisions[k].action.HOLD? ==> decisions[k].next == VERIFYING
  }

  lemma {:induction false} DisruptedGrows(nodes: seq<Node>, decisions: seq<Decision>, scope: Scope)
    requires Honest(decisions)
    ensures Tally(Applied(nodes, decisions), DISRUPTED(scope))
         <= Tally(nodes, DISRUPTED(scope)) + TakenNodes(nodes, decisions, scope)
  {
    if nodes != [] {
      var last := nodes[|nodes| - 1];
      DisruptedGrows(nodes[..|nodes| - 1], decisions, scope);
      DecisionFound(decisions, last.name);
      TallyAppend(Applied(nodes[..|nodes| - 1], decisions), Moved(last, DecisionOn(decisions, last.name)), DISRUPTED(scope));
    }
  }

  lemma DecisionAppend(decisions: seq<Decision>, d: Decision, name: Name)
    ensures DecisionOn(decisions + [d], name) == if d.node == name then Some(d) else DecisionOn(decisions, name)
  {
  }

  /** One more decision takes at most the nodes it names. */
  lemma {:induction false} TakenAppend(nodes: seq<Node>, decisions: seq<Decision>, d: Decision, scope: Scope, within: bool)
    requires forall i | 0 <= i < |nodes| :: nodes[i].name == d.node ==> (In(nodes[i], scope) <==> within)
    ensures TakenNodes(nodes, decisions + [d], scope)
         <= TakenNodes(nodes, decisions, scope) + if TakesSlot(d.action) && within then Tally(nodes, CALLED(d.node)) else 0
  {
    if nodes != [] {
      TakenAppend(nodes[..|nodes| - 1], decisions, d, scope, within);
      DecisionAppend(decisions, d, nodes[|nodes| - 1].name);
    }
  }

  lemma {:induction false} TakenNone(nodes: seq<Node>, scope: Scope)
    ensures TakenNodes(nodes, [], scope) == 0
  {
    if nodes != [] {
      TakenNone(nodes[..|nodes| - 1], scope);
    }
  }

  /** No more nodes are taken than slots. */
  lemma {:induction false} TakenBySlots(fleet: seq<Node>, p: Policy, s: Slots, nodes: seq<Node>, scope: Scope)
    requires forall i, j | 0 <= i < j < |fleet| :: fleet[i].name != fleet[j].name
    requires forall k | 0 <= k < |nodes| :: nodes[k] in fleet
    ensures TakenNodes(fleet, Decisions(fleet, p, s, nodes), scope) + s.Used(scope)
         <= SlotsAfter(fleet, p, s, nodes).Used(scope)
  {
    if nodes == [] {
      TakenNone(fleet, scope);
    } else {
      var init, last := nodes[..|nodes| - 1], nodes[|nodes| - 1];
      var before := SlotsAfter(fleet, p, s, init);
      var action := Verdict(fleet, p, before, last);
      TakenBySlots(fleet, p, s, init, scope);
      TakenAppend(fleet, Decisions(fleet, p, s, init), DecisionFor(last, action), scope, In(last, scope));
      CalledAtMostOnce(fleet, last.name);
      UsedGrows(p, before, last, action, scope);
    }
  }

  lemma UsedGrows(p: Policy, s: Slots, n: Node, a: Action, scope: Scope)
    ensures Taken(p, s, n, a).Used(scope) == s.Used(scope) + if TakesSlot(a) && In(n, scope) then 1 else 0
  {
  }

  lemma {:induction false} DecisionsHonest(fleet: seq<Node>, p: Policy, s: Slots, nodes: seq<Node>)
    ensures Honest(Decisions(fleet, p, s, nodes))
  {
  }

  /** A cycle leaves no more nodes cordoned, fenced, draining or replacing than there were, or than the
      limit allows; in the cluster and in each zone. */
  lemma CycleWithinLimit(fleet: seq<Node>, p: Policy, disabled: bool, scope: Scope)
    ensures var after := Tally(Cycle(fleet, p, disabled), DISRUPTED(scope));
            after <= Tally(fleet, DISRUPTED(scope)) || after <= Limit(p, scope)
  {
    if Evaluate(fleet, p, disabled).Ok? {
      DecisionsHonest(fleet, p, StartSlots(fleet, p), Candidates(fleet));
      DisruptedGrows(fleet, CycleDecisions(fleet, p, disabled), scope);
      if BreakerOpen(fleet, p, disabled) {
        TakenNone(fleet, scope);
      } else {
        LineWithinLimit(fleet, p, scope);
        DisruptedAreRepairs(fleet, scope);
      }
    }
  }

  /** Slots are taken only up to the limit, counting the repairs under way. */
  lemma LineWithinLimit(fleet: seq<Node>, p: Policy, scope: Scope)
    requires ValidFleet(fleet)
    ensures var taken := TakenNodes(fleet, Decisions(fleet, p, StartSlots(fleet, p), Candidates(fleet)), scope);
            taken == 0 || taken + Tally(fleet, REPAIRS(scope)) <= Limit(p, scope)
  {
    var s := StartSlots(fleet, p);
    LineMembers(fleet);
    TakenBySlots(fleet, p, s, Candidates(fleet), scope);
    SlotsWithinLimit(fleet, p, s, Candidates(fleet), scope);
    StartUsed(fleet, p, scope);
  }

  /** Between cycles anything may happen to the fleet, except that nodes are cordoned, fenced, drained or
      replaced by somebody else. */
  predicate OnlyTheControllerDisrupts(fleets: seq<seq<Node>>, p: Policy, disabled: seq<bool>, scope: Scope) {
    |disabled| == |fleets| &&
    forall k | 1 <= k < |fleets| ::
      Tally(fleets[k], DISRUPTED(scope)) <= Tally(Cycle(fleets[k - 1], p, disabled[k - 1]), DISRUPTED(scope))
  }

  /** The same after every one of any number of cycles, each on the fleet it finds. */
  lemma {:induction false} AlwaysWithinLimit(fleets: seq<seq<Node>>, p: Policy, disabled: seq<bool>, scope: Scope, k: nat)
    requires OnlyTheControllerDisrupts(fleets, p, disabled, scope) && k < |fleets|
    ensures var after := Tally(Cycle(fleets[k], p, disabled[k]), DISRUPTED(scope));
            after <= Tally(fleets[0], DISRUPTED(scope)) || after <= Limit(p, scope)
  {
    CycleWithinLimit(fleets[k], p, disabled[k], scope);
    if k > 0 {
      AlwaysWithinLimit(fleets, p, disabled, scope, k - 1);
    }
  }

  // ---- restarts are not limited ----

  /** A suspect node with few failures is restarted, whatever else is under way. */
  predicate Due(n: Node, p: Policy) {
    n.state.SUSPECT? && n.failures <= p.restartLimit
  }

  function RestartsDue(nodes: seq<Node>, p: Policy, scope: Scope): nat {
    if nodes == [] then 0
    else
      var last := nodes[|nodes| - 1];
      RestartsDue(nodes[..|nodes| - 1], p, scope) + if In(last, scope) && Due(last, p) then 1 else 0
  }

  /** A decision either leaves a node or puts a candidate under repair. */
  predicate Sound(n: Node, d: Option<Decision>) {
    d.Some? && !d.value.action.HOLD? ==> IsCandidate(n) && UnderRepair(d.value.next)
  }

  /** It is a restart exactly if that is due. */
  predicate Settled(n: Node, p: Policy, d: Option<Decision>) {
    Sound(n, d) && (Due(n, p) <==> d.Some? && d.value.action.RESTART?)
  }

  lemma NodeSettled(fleet: seq<Node>, p: Policy, s: Slots, i: nat)
    requires NamedAlone(fleet, i)
    ensures Settled(fleet[i], p, DecisionOn(Decisions(fleet, p, s, Candidates(fleet)), fleet[i].name))
  {
    if IsCandidate(fleet[i]) {
      var k := PlaceInLine(fleet, p, s, i);
    } else {
      NotInLine(fleet, p, s, i);
    }
  }

  function Counts(b: bool): nat { if b then 1 else 0 }

  lemma NodeGrows(n: Node, p: Policy, d: Option<Decision>, scope: Scope)
    requires Settled(n, p, d)
    ensures Counts(Matches(Moved(n, d), REPAIRS(scope)))
         == Counts(Matches(n, REPAIRS(scope))) + Counts(In(n, scope) && Due(n, p)) + Counts(In(n, scope) && Takes(d))
  {
  }

  lemma {:induction false} RepairsGrow(nodes: seq<Node>, p: Policy, decisions: seq<Decision>, scope: Scope)
    requires forall i | 0 <= i < |nodes| :: Settled(nodes[i], p, DecisionOn(decisions, nodes[i].name))
    ensures Tally(Applied(nodes, decisions), REPAIRS(scope))
         == Tally(nodes, REPAIRS(scope)) + RestartsDue(nodes, p, scope) + TakenNodes(nodes, decisions, scope)
  {
    if nodes != [] {
      var last := nodes[|nodes| - 1];
      RepairsGrow(nodes[..|nodes| - 1], p, decisions, scope);
      NodeGrows(last, p, DecisionOn(decisions, last.name), scope);
      TallyAppend(Applied(nodes[..|nodes| - 1], decisions), Moved(last, DecisionOn(decisions, last.name)), REPAIRS(scope));
    }
  }

  /** While the breaker is closed, repairs, verification included, grow by every restart that is due; only
      what they grow by beyond that keeps to the limit. */
  lemma RepairsExact(fleet: seq<Node>, p: Policy, disabled: bool, scope: Scope)
    requires ValidPolicy(p) && ValidFleet(fleet) && !BreakerOpen(fleet, p, disabled)
    ensures var before, due := Tally(fleet, REPAIRS(scope)), RestartsDue(fleet, p, scope);
            var after := Tally(Cycle(fleet, p, disabled), REPAIRS(scope));
            before + due <= after && (after == before + due || after <= Limit(p, scope) + due)
  {
    var s := StartSlots(fleet, p);
    forall i | 0 <= i < |fleet|
      ensures Settled(fleet[i], p, DecisionOn(Decisions(fleet, p, s, Candidates(fleet)), fleet[i].name))
    {
      NodeSettled(fleet, p, s, i);
    }
    RepairsGrow(fleet, p, Decisions(fleet, p, s, Candidates(fleet)), scope);
    LineWithinLimit(fleet, p, scope);
  }

  /** Two restarts at once under a limit of one repair. */
  lemma RestartsPassTheLimit(b: Node, c: Node, p: Policy)
    requires ValidPolicy(p) && p.maxCluster == 1 && ValidFleet([b, c]) && Due(b, p) && Due(c, p)
    ensures Tally(Cycle([b, c], p, false), REPAIRS(CLUSTER)) >= 2
  {
    assert [b, c][..1] == [b] && [b][..0] == [];
    assert RestartsDue([b], p, CLUSTER) == 1;
    RepairsExact([b, c], p, false, CLUSTER);
  }

  // ---- any number of cycles ----

  function Cycles(fleet: seq<Node>, p: Policy, disabled: seq<bool>): seq<Node> {
    if disabled == [] then fleet
    else Cycle(Cycles(fleet, p, disabled[..|disabled| - 1]), p, disabled[|disabled| - 1])
  }

  /** No number of cycles replaces a storage writer that is not fenced off completely. */
  lemma {:induction false} WritersAreFenced(fleet: seq<Node>, p: Policy, disabled: seq<bool>, i: nat)
    requires i < |fleet| && fleet[i].writer && !fleet[i].state.REPLACING?
    requires !(fleet[i].fences.traffic && fleet[i].fences.storage && fleet[i].fences.identity)
    ensures var after := Cycles(fleet, p, disabled);
            |after| == |fleet| && after[i] == fleet[i].(state := after[i].state) && !after[i].state.REPLACING?
  {
    if disabled != [] {
      WritersAreFenced(fleet, p, disabled[..|disabled| - 1], i);
      NodeOutcome(Cycles(fleet, p, disabled[..|disabled| - 1]), p, disabled[|disabled| - 1], i);
    }
  }

  // ---- one replacement at a time ----

  function Replacements(decisions: seq<Decision>): nat {
    if decisions == [] then 0
    else Replacements(decisions[..|decisions| - 1]) + if decisions[|decisions| - 1].action.REPLACE? then 1 else 0
  }

  lemma {:induction false} GateCloses(fleet: seq<Node>, p: Policy, s: Slots, nodes: seq<Node>)
    requires p.requireReady
    ensures Replacements(Decisions(fleet, p, s, nodes)) == if s.gate && !SlotsAfter(fleet, p, s, nodes).gate then 1 else 0
    ensures SlotsAfter(fleet, p, s, nodes).gate ==> s.gate
  {
    if nodes != [] {
      var last := |nodes| - 1;
      GateCloses(fleet, p, s, nodes[..last]);
      assert Decisions(fleet, p, s, nodes)[..last] == Decisions(fleet, p, s, nodes[..last]);
    }
  }

  /** If replacements must be ready before the next, a cycle starts at most one, and none while those
      under way include none that is ready. */
  lemma OneReplacement(fleet: seq<Node>, p: Policy, disabled: bool)
    requires p.requireReady
    ensures Replacements(CycleDecisions(fleet, p, disabled)) <= if GateOpen(fleet, p) then 1 else 0
  {
    GateCloses(fleet, p, StartSlots(fleet, p), Candidates(fleet));
  }

  // ---- coming to rest ----

  predicate Leaves(n: Node, m: Node) { IsCandidate(n) && !IsCandidate(m) }

  lemma LeavesCount(n: Node, m: Node)
    requires Leaves(n, m)
    ensures Matches(n, CANDIDATES(CLUSTER)) && !Matches(m, CANDIDATES(CLUSTER))
  {
  }

  lemma {:induction false} CandidatesShrink(before: seq<Node>, after: seq<Node>)
    requires |before| == |after|
    requires forall i | 0 <= i < |before| :: after[i] == before[i] || Leaves(before[i], after[i])
    ensures Tally(after, CANDIDATES(CLUSTER)) <= Tally(before, CANDIDATES(CLUSTER))
    ensures before != after ==> Tally(after, CANDIDATES(CLUSTER)) < Tally(before, CANDIDATES(CLUSTER))
  {
    if before != [] {
      var last := |before| - 1;
      CandidatesShrink(before[..last], after[..last]);
      if after[last] != before[last] {
        LeavesCount(before[last], after[last]);
      } else {
        assert before == before[..last] + [before[last]] && after == after[..last] + [after[last]];
      }
    }
  }

  /** A cycle that changes anything leaves fewer candidates. */
  lemma CycleShrinks(fleet: seq<Node>, p: Policy, disabled: bool)
    ensures var after := Cycle(fleet, p, disabled);
            after == fleet || Tally(after, CANDIDATES(CLUSTER)) < Tally(fleet, CANDIDATES(CLUSTER))
  {
    var after := Cycle(fleet, p, disabled);
    SameSize(fleet, p, disabled);
    forall i | 0 <= i < |fleet| ensures after[i] == fleet[i] || Leaves(fleet[i], after[i]) {
      NodeOutcome(fleet, p, disabled, i);
    }
    CandidatesShrink(fleet, after);
  }

  lemma SameSize(fleet: seq<Node>, p: Policy, disabled: bool)
    ensures |Cycle(fleet, p, disabled)| == |fleet|
  {
  }

  function Repeat<T>(step: T -> T, x: T, n: nat): T
    decreases n
  {
    if n == 0 then x else Repeat(step, step(x), n - 1)
  }

  lemma {:induction false} RestStays<T>(step: T -> T, x: T, n: nat)
    requires step(x) == x
    ensures Repeat(step, x, n) == x
  {
    if n > 0 {
      RestStays(step, x, n - 1);
    }
  }

  /** What shrinks with every step that changes something comes to rest. */
  lemma {:induction false} ShrinkingRests<T(!new)>(step: T -> T, size: T -> nat, x: T, n: nat)
    requires forall y :: step(y) == y || size(step(y)) < size(y)
    requires n >= size(x)
    ensures step(Repeat(step, x, n)) == Repeat(step, x, n)
    decreases n
  {
    if step(x) == x {
      RestStays(step, x, n);
    } else {
      ShrinkingRests(step, size, step(x), n - 1);
    }
  }

  function OneCycle(p: Policy): seq<Node> -> seq<Node> {
    fleet => Cycle(fleet, p, false)
  }

  /** Repeated cycles stop changing the fleet after as many as it has candidates, at the latest. */
  lemma ComesToRest(fleet: seq<Node>, p: Policy, n: nat)
    requires n >= Tally(fleet, CANDIDATES(CLUSTER))
    ensures OneCycle(p)(Repeat(OneCycle(p), fleet, n)) == Repeat(OneCycle(p), fleet, n)
  {
    var size: seq<Node> -> nat := nodes => Tally(nodes, CANDIDATES(CLUSTER));
    forall nodes ensures OneCycle(p)(nodes) == nodes || size(OneCycle(p)(nodes)) < size(nodes) {
      CycleShrinks(nodes, p, false);
    }
    ShrinkingRests(OneCycle(p), size, fleet, n);
  }
}

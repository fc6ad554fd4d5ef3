/**
  A node-repair controller: what one cycle decides about every suspect or degraded node, under limits
  on concurrent repairs in the cluster and in each zone, and what applying its decisions does.
 */
module RepairModel {
  import opened Results
  import opened Sorting

  /** Names are compared and ordered, nothing else: an integer stands for a string. */
  type Name = int

  datatype State =
    | HEALTHY | SUSPECT | DEGRADED | CORDONED | FENCED | DRAINING | REPLACING | VERIFYING | QUARANTINED

  datatype Fences = Fences(traffic: bool, storage: bool, identity: bool) {
    predicate All() { traffic && storage && identity }
  }

  /** A node; its signature is absent if it is missing or empty. */
  datatype Node = Node(
    name: Name, zone: Name, image: Name, state: State, signature: Option<Name>, failures: int,
    capacity: int, critical: bool, writer: bool, fences: Fences, ready: bool)

  datatype Policy = Policy(
    maxCluster: int, maxZone: int, minCapacity: real, systemicImage: real, systemicZones: int,
    restartLimit: int, requireReady: bool)

  predicate ValidPolicy(p: Policy) {
    && p.maxCluster > 0 && p.maxZone > 0 && 0.0 < p.minCapacity <= 100.0 && 0.0 < p.systemicImage <= 100.0
    && p.systemicZones > 0 && p.restartLimit >= 0
  }

  predicate ValidFleet(fleet: seq<Node>) {
    && fleet != []
    && (forall i, j | 0 <= i < j < |fleet| :: fleet[i].name != fleet[j].name)
    && (forall i | 0 <= i < |fleet| ::
          fleet[i].capacity > 0 && (fleet[i].fences.storage ==> fleet[i].fences.traffic))
  }

  // ---- counting nodes ----

  datatype Scope = CLUSTER | ZONE(name: Name)

  predicate In(n: Node, scope: Scope) {
    scope.ZONE? ==> n.zone == scope.name
  }

  predicate UnderRepair(s: State) {
    s.CORDONED? || s.FENCED? || s.DRAINING? || s.REPLACING? || s.VERIFYING?
  }

  predicate IsCandidate(n: Node) {
    n.state.SUSPECT? || n.state.DEGRADED?
  }

  predicate CountsAsHealthy(s: State) {
    s.HEALTHY? || s.SUSPECT?
  }

  /** Unhealthy with a known failure. */
  predicate Failed(n: Node) {
    !CountsAsHealthy(n.state) && n.signature.Some?
  }

  /** What nodes are counted by: repairs in a scope, repairs other than verification, or a name. */
  datatype Key =
    | REPAIRS(scope: Scope) | DISRUPTED(scope: Scope) | CALLED(name: Name) | CANDIDATES(scope: Scope) | CANDIDATE_CALLED(name: Name)
    | OF_IMAGE(image: Name) | FAILED_OF_IMAGE(image: Name)

  predicate Matches(n: Node, key: Key) {
    match key
    case REPAIRS(scope) => In(n, scope) && UnderRepair(n.state)
    case DISRUPTED(scope) => In(n, scope) && UnderRepair(n.state) && !n.state.VERIFYING?
    case CALLED(name) => n.name == name
    case CANDIDATES(scope) => In(n, scope) && IsCandidate(n)
    case CANDIDATE_CALLED(name) => IsCandidate(n) && n.name == name
    case OF_IMAGE(image) => n.image == image
    case FAILED_OF_IMAGE(image) => n.image == image && Failed(n)
  }

  function Tally(nodes: seq<Node>, key: Key): nat {
    if nodes == [] then 0
    else Tally(nodes[..|nodes| - 1], key) + if Matches(nodes[|nodes| - 1], key) then 1 else 0
  }

  // ---- the circuit breaker ----

  function FailedZones(nodes: seq<Node>, signature: Name): set<Name> {
    set i | 0 <= i < |nodes| && Failed(nodes[i]) && nodes[i].signature == Some(signature) :: nodes[i].zone
  }

  /** Too many failures of one image, or one failure in too many zones. */
  predicate ImagePattern(fleet: seq<Node>, n: Node, p: Policy) {
    Tally(fleet, FAILED_OF_IMAGE(n.image)) as real * 100.0 >= p.systemicImage * Tally(fleet, OF_IMAGE(n.image)) as real
  }

  predicate SignaturePattern(fleet: seq<Node>, n: Node, p: Policy) {
    n.signature.Some? && |FailedZones(fleet, n.signature.value)| >= p.systemicZones
  }

  predicate Systemic(fleet: seq<Node>, p: Policy) {
    exists i :: 0 <= i < |fleet| && Failed(fleet[i])
                && (ImagePattern(fleet, fleet[i], p) || SignaturePattern(fleet, fleet[i], p))
  }

  // ---- capacity ----

  function Units(nodes: seq<Node>): int {
    if nodes == [] then 0 else Units(nodes[..|nodes| - 1]) + nodes[|nodes| - 1].capacity
  }

  /** Healthy units without one node. */
  function HealthyUnitsWithout(nodes: seq<Node>, name: Name): int {
    if nodes == [] then 0
    else
      var last := nodes[|nodes| - 1];
      HealthyUnitsWithout(nodes[..|nodes| - 1], name)
      + if CountsAsHealthy(last.state) && last.name != name then last.capacity else 0
  }

  predicate TooLittleWithout(fleet: seq<Node>, n: Node, p: Policy) {
    HealthyUnitsWithout(fleet, n.name) as real * 100.0 < p.minCapacity * Units(fleet) as real
  }

  // ---- candidates in order ----

  /** Critical nodes first, then by more failures, zone and name. */
  predicate NotAfter(a: Node, b: Node) {
    if a.critical != b.critical then a.critical
    else if a.failures != b.failures then a.failures > b.failures
    else if a.zone != b.zone then a.zone < b.zone
    else a.name <= b.name
  }

  function Candidates(fleet: seq<Node>): seq<Node> {
    if fleet == [] then []
    else
      var before, last := Candidates(fleet[..|fleet| - 1]), fleet[|fleet| - 1];
      if IsCandidate(last) then Inserted(before, last, NotAfter) else before
  }

  // ---- decisions ----

  datatype Action = RESTART | HOLD | FENCE | REPLACE

  datatype Decision = Decision(node: Name, action: Action, next: State)

  /** Repairs under way, and whether another replacement may start. */
  datatype Slots = Slots(cluster: nat, zones: map<Name, nat>, gate: bool) {
    function Zone(name: Name): nat { if name in zones then zones[name] else 0 }

    function Used(scope: Scope): nat { if scope.CLUSTER? then cluster else Zone(scope.name) }
  }

  /** What is decided about a node when some slots are taken. */
  function Verdict(fleet: seq<Node>, p: Policy, s: Slots, n: Node): Action {
    if n.state.SUSPECT? && n.failures <= p.restartLimit then RESTART
    else if s.cluster >= p.maxCluster then HOLD
    else if s.Zone(n.zone) >= p.maxZone then HOLD
    else if !s.gate then HOLD
    else if TooLittleWithout(fleet, n, p) then HOLD
    else if n.writer && !n.fences.All() then FENCE
    else REPLACE
  }

  function DecisionFor(n: Node, action: Action): Decision {
    Decision(n.name, action,
             match action
             case RESTART => VERIFYING
             case HOLD => n.state
             case FENCE => State.FENCED
             case REPLACE => REPLACING)
  }

  predicate TakesSlot(a: Action) {
    a.FENCE? || a.REPLACE?
  }

  function Taken(p: Policy, s: Slots, n: Node, a: Action): Slots {
    if TakesSlot(a) then
      Slots(s.cluster + 1, s.zones[n.zone := s.Zone(n.zone) + 1], if a.REPLACE? then !p.requireReady else s.gate)
    else s
  }

  function SlotsAfter(fleet: seq<Node>, p: Policy, s: Slots, nodes: seq<Node>): Slots {
    if nodes == [] then s
    else
      var before, last := SlotsAfter(fleet, p, s, nodes[..|nodes| - 1]), nodes[|nodes| - 1];
      Taken(p, before, last, Verdict(fleet, p, before, last))
  }

  /** The decision on the i-th node in line. */
  function ActionOn(fleet: seq<Node>, p: Policy, s: Slots, nodes: seq<Node>, i: nat): Action
    requires i < |nodes|
  {
    Verdict(fleet, p, SlotsAfter(fleet, p, s, nodes[..i]), nodes[i])
  }

  function Decisions(fleet: seq<Node>, p: Policy, s: Slots, nodes: seq<Node>): (r: seq<Decision>)
    ensures |r| == |nodes|
    ensures forall i | 0 <= i < |nodes| :: r[i] == DecisionFor(nodes[i], ActionOn(fleet, p, s, nodes, i))
  {
    if nodes == [] then []
    else
      var last := |nodes| - 1;
      assert forall i | 0 <= i < last :: nodes[..last][..i] == nodes[..i];
      Decisions(fleet, p, s, nodes[..last]) + [DecisionFor(nodes[last], ActionOn(fleet, p, s, nodes, last))]
  }

  /** Whether earlier replacements allow another one. */
  predicate GateOpen(fleet: seq<Node>, p: Policy) {
    !p.requireReady
    || (forall i | 0 <= i < |fleet| :: !fleet[i].state.REPLACING?)
    || (exists i :: 0 <= i < |fleet| && fleet[i].state.REPLACING? && fleet[i].ready)
  }

  function ZoneRepairs(fleet: seq<Node>): map<Name, nat> {
    if fleet == [] then map[]
    else
      var before, last := ZoneRepairs(fleet[..|fleet| - 1]), fleet[|fleet| - 1];
      if UnderRepair(last.state) then
        before[last.zone := (if last.zone in before then before[last.zone] else 0) + 1]
      else before
  }

  function StartSlots(fleet: seq<Node>, p: Policy): Slots {
    Slots(Tally(fleet, REPAIRS(CLUSTER)), ZoneRepairs(fleet), GateOpen(fleet, p))
  }

  /** Whether the circuit breaker stops the cycle. */
  predicate BreakerOpen(fleet: seq<Node>, p: Policy, disabled: bool) {
    disabled || Systemic(fleet, p)
  }

  /** The decisions of a cycle. */
  function CycleDecisions(fleet: seq<Node>, p: Policy, disabled: bool): seq<Decision> {
    if BreakerOpen(fleet, p, disabled) then []
    else Decisions(fleet, p, StartSlots(fleet, p), Candidates(fleet))
  }

  datatype Outcome = Outcome(breakerOpen: bool, decisions: seq<Decision>)

  function Evaluate(fleet: seq<Node>, p: Policy, disabled: bool): Result<Outcome> {
    if !ValidPolicy(p) || !ValidFleet(fleet) then Err(ValueError)
    else Ok(Outcome(BreakerOpen(fleet, p, disabled), CycleDecisions(fleet, p, disabled)))
  }

  // ---- applying decisions ----

  /** The last decision on a node, as a dictionary by name keeps it. */
  function DecisionOn(decisions: seq<Decision>, name: Name): Option<Decision> {
    if decisions == [] then None
    else
      var last := decisions[|decisions| - 1];
      if last.node == name then Some(last) else DecisionOn(decisions[..|decisions| - 1], name)
  }

  function Moved(n: Node, d: Option<Decision>): Node {
    if d.None? || d.value.action.HOLD? then n else n.(state := d.value.next)
  }

  function Applied(nodes: seq<Node>, decisions: seq<Decision>): (r: seq<Node>)
    ensures |r| == |nodes|
    ensures forall i | 0 <= i < |nodes| :: r[i] == Moved(nodes[i], DecisionOn(decisions, nodes[i].name))
  {
    if nodes == [] then []
    else
      Applied(nodes[..|nodes| - 1], decisions)
      + [Moved(nodes[|nodes| - 1], DecisionOn(decisions, nodes[|nodes| - 1].name))]
  }

  /** One cycle: evaluate, then apply; a cycle that is refused changes nothing. */
  function Cycle(fleet: seq<Node>, p: Policy, disabled: bool): seq<Node> {
    var r := Evaluate(fleet, p, disabled);
    if r.Ok? then Applied(fleet, r.value.decisions) else fleet
  }
}

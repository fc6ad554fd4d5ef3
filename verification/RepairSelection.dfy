/**
  Which candidates a cycle fences or replaces, by counting: the loop over the line with its running
  counts comes down to how many candidates ahead want a slot.
 */
module RepairSelection {
  import opened RepairModel
  import opened RepairTheorems

  /** A candidate that is not restarted, and that the rest of the fleet can spare. */
  predicate Wants(fleet: seq<Node>, p: Policy, n: Node) {
    IsCandidate(n) && !Due(n, p) && !TooLittleWithout(fleet, n, p)
  }

  /** How many nodes in a line want a slot of a zone. */
  function Wanting(fleet: seq<Node>, p: Policy, line: seq<Node>, zone: Name): nat {
    if line == [] then 0
    else
      var last := line[|line| - 1];
      Wanting(fleet, p, line[..|line| - 1], zone) + if last.zone == zone && Wants(fleet, p, last) then 1 else 0
  }

  /** Repairs of a zone if all of them got one. */
  function ZoneCount(fleet: seq<Node>, p: Policy, ahead: seq<Node>, zone: Name): nat {
    Tally(fleet, REPAIRS(ZONE(zone))) + Wanting(fleet, p, ahead, zone)
  }

  /** A node behind a line would find a slot of its zone, if the cluster had any number of them. */
  predicate ZoneHasRoom(fleet: seq<Node>, p: Policy, ahead: seq<Node>, n: Node) {
    Wants(fleet, p, n) && ZoneCount(fleet, p, ahead, n.zone) < p.maxZone
  }

  /** How many nodes in a line would. */
  function Fitting(fleet: seq<Node>, p: Policy, line: seq<Node>): nat {
    if line == [] then 0
    else
      var ahead, last := line[..|line| - 1], line[|line| - 1];
      Fitting(fleet, p, ahead) + if ZoneHasRoom(fleet, p, ahead, last) then 1 else 0
  }

  /** It finds one of the cluster, too, if there are not that many ahead. */
  predicate HasRoom(fleet: seq<Node>, p: Policy, ahead: seq<Node>, n: Node) {
    ZoneHasRoom(fleet, p, ahead, n) && Tally(fleet, REPAIRS(CLUSTER)) + Fitting(fleet, p, ahead) < p.maxCluster
  }

  /** A storage writer that is not fenced off completely is fenced first, anything else replaced. */
  predicate Replaceable(n: Node) { !n.writer || n.fences.All() }

  /** If replacements must be ready before the next, nobody ahead has been replaced. */
  predicate NoneReplaced(fleet: seq<Node>, p: Policy, ahead: seq<Node>) {
    forall j | 0 <= j < |ahead| && Replaceable(ahead[j]) :: !HasRoom(fleet, p, ahead[..j], ahead[j])
  }

  predicate GateStillOpen(fleet: seq<Node>, p: Policy, ahead: seq<Node>) {
    GateOpen(fleet, p) && (p.requireReady ==> NoneReplaced(fleet, p, ahead))
  }

  /** The node is fenced or replaced. */
  predicate Chosen(fleet: seq<Node>, p: Policy, ahead: seq<Node>, n: Node) {
    HasRoom(fleet, p, ahead, n) && GateStillOpen(fleet, p, ahead)
  }

  // ---- the running counts ----

  /** A running count is what it started from and what wants a slot, until the limit is reached. */
  predicate CountIs(count: int, expected: int, limit: int) {
    if expected < limit then count == expected else count >= limit
  }

  ghost predicate Agrees(fleet: seq<Node>, p: Policy, s: Slots, ahead: seq<Node>) {
    && (s.gate <==> GateStillOpen(fleet, p, ahead))
    && (s.gate ==>
          var used := Tally(fleet, REPAIRS(CLUSTER)) + Fitting(fleet, p, ahead);
          && CountIs(s.cluster, used, p.maxCluster)
          && (used < p.maxCluster ==> ZonesAgree(fleet, p, s, ahead)))
  }

  ghost predicate ZonesAgree(fleet: seq<Node>, p: Policy, s: Slots, ahead: seq<Node>) {
    forall zone :: CountIs(s.Zone(zone), ZoneCount(fleet, p, ahead, zone), p.maxZone)
  }

  /** So the loop takes a slot for exactly the nodes chosen. */
  lemma VerdictIs(fleet: seq<Node>, p: Policy, s: Slots, ahead: seq<Node>, n: Node)
    requires IsCandidate(n) && Agrees(fleet, p, s, ahead)
    ensures Verdict(fleet, p, s, n) == if Due(n, p) then RESTART
                                       else if !Chosen(fleet, p, ahead, n) then HOLD
                                       else if Replaceable(n) then REPLACE else FENCE
  {
  }

  lemma NoneReplacedNext(fleet: seq<Node>, p: Policy, ahead: seq<Node>, n: Node)
    ensures NoneReplaced(fleet, p, ahead + [n])
       <==> NoneReplaced(fleet, p, ahead) && !(Replaceable(n) && HasRoom(fleet, p, ahead, n))
  {
    var line := ahead + [n];
    assert line[..|ahead|] == ahead && line[|ahead|] == n;
    assert forall j | 0 <= j < |ahead| :: line[..j] == ahead[..j] && line[j] == ahead[j];
  }

  lemma CountsNext(fleet: seq<Node>, p: Policy, ahead: seq<Node>, n: Node)
    ensures Fitting(fleet, p, ahead + [n]) == Fitting(fleet, p, ahead) + if ZoneHasRoom(fleet, p, ahead, n) then 1 else 0
    ensures forall zone :: Wanting(fleet, p, ahead + [n], zone)
                        == Wanting(fleet, p, ahead, zone) + if n.zone == zone && Wants(fleet, p, n) then 1 else 0
  {
    assert (ahead + [n])[..|ahead|] == ahead;
  }

  lemma GateNext(fleet: seq<Node>, p: Policy, s: Slots, ahead: seq<Node>, n: Node)
    requires IsCandidate(n) && Agrees(fleet, p, s, ahead)
    ensures Taken(p, s, n, Verdict(fleet, p, s, n)).gate <==> GateStillOpen(fleet, p, ahead + [n])
  {
    VerdictIs(fleet, p, s, ahead, n);
    NoneReplacedNext(fleet, p, ahead, n);
  }

  lemma ZoneNext(fleet: seq<Node>, p: Policy, s: Slots, ahead: seq<Node>, n: Node, a: Action, zone: Name)
    requires CountIs(s.Zone(zone), ZoneCount(fleet, p, ahead, zone), p.maxZone)
    requires TakesSlot(a) <==> ZoneHasRoom(fleet, p, ahead, n)
    ensures CountIs(Taken(p, s, n, a).Zone(zone), ZoneCount(fleet, p, ahead + [n], zone), p.maxZone)
  {
    UsedGrows(p, s, n, a, ZONE(zone));
    CountsNext(fleet, p, ahead, n);
  }

  lemma ZonesNext(fleet: seq<Node>, p: Policy, s: Slots, ahead: seq<Node>, n: Node, a: Action)
    requires ZonesAgree(fleet, p, s, ahead) && (TakesSlot(a) <==> ZoneHasRoom(fleet, p, ahead, n))
    ensures ZonesAgree(fleet, p, Taken(p, s, n, a), ahead + [n])
  {
    forall zone ensures CountIs(Taken(p, s, n, a).Zone(zone), ZoneCount(fleet, p, ahead + [n], zone), p.maxZone) {
      ZoneNext(fleet, p, s, ahead, n, a, zone);
    }
  }

  lemma AgreesNext(fleet: seq<Node>, p: Policy, s: Slots, ahead: seq<Node>, n: Node)
    requires IsCandidate(n) && Agrees(fleet, p, s, ahead)
    ensures Agrees(fleet, p, Taken(p, s, n, Verdict(fleet, p, s, n)), ahead + [n])
  {
    GateNext(fleet, p, s, ahead, n);
    VerdictIs(fleet, p, s, ahead, n);
    CountsNext(fleet, p, ahead, n);
    if s.gate && Tally(fleet, REPAIRS(CLUSTER)) + Fitting(fleet, p, ahead) < p.maxCluster {
      ZonesNext(fleet, p, s, ahead, n, Verdict(fleet, p, s, n));
    }
  }

  lemma {:induction false} AgreesAfter(fleet: seq<Node>, p: Policy, line: seq<Node>)
    requires forall k | 0 <= k < |line| :: IsCandidate(line[k])
    ensures Agrees(fleet, p, SlotsAfter(fleet, p, StartSlots(fleet, p), line), line)
  {
    if line == [] {
      forall zone ensures StartSlots(fleet, p).Zone(zone) == Tally(fleet, REPAIRS(ZONE(zone))) {
        StartUsed(fleet, p, ZONE(zone));
      }
    } else {
      var ahead, last := line[..|line| - 1], line[|line| - 1];
      AgreesAfter(fleet, p, ahead);
      AgreesNext(fleet, p, SlotsAfter(fleet, p, StartSlots(fleet, p), ahead), ahead, last);
      assert ahead + [last] == line;
    }
  }

  /** What is decided on the k-th candidate in line: a restart if that is due, and otherwise fencing or
      replacement exactly if it is chosen. */
  lemma ChosenExact(fleet: seq<Node>, p: Policy, k: nat)
    requires k < |Candidates(fleet)|
    ensures var line := Candidates(fleet);
            ActionOn(fleet, p, StartSlots(fleet, p), line, k)
              == if Due(line[k], p) then RESTART
                 else if !Chosen(fleet, p, line[..k], line[k]) then HOLD
                 else if Replaceable(line[k]) then REPLACE else FENCE
  {
    var line := Candidates(fleet);
    LineMembers(fleet);
    AgreesAfter(fleet, p, line[..k]);
    VerdictIs(fleet, p, SlotsAfter(fleet, p, StartSlots(fleet, p), line[..k]), line[..k], line[k]);
  }
}

/**
  Any number of clients that acquire leases and write with any lease they were ever granted, at any
  later time; clocks may be wrong in any way.
 */
module LeaseRuns {
  import opened Results
  import opened LeaseModel

  datatype Access = Access(token: nat, value: Name)

  datatype World = World(
    coordinator: CoordinatorState,
    resource: ResourceState,
    leases: seq<Lease>,       // all leases granted
    accepted: seq<Access>)    // all writes accepted

  datatype Op = ACQUIRE(owner: Name, now: real) | WRITE(lease: nat, value: Name)

  function Start(duration: real): World {
    World(CoordinatorState(duration, 1, None), ResourceState(None, 0), [], [])
  }

  function Step(w: World, op: Op): World {
    match op
    case ACQUIRE(owner, now) =>
      if Occupied(w.coordinator, now) then w
      else
        w.(coordinator := Granted(w.coordinator, owner, now), leases := w.leases + [NewLease(w.coordinator, owner, now)])
    case WRITE(i, value) =>
      if i >= |w.leases| || w.leases[i].token < w.resource.highest then w
      else
        w.(resource := Written(w.resource, value, w.leases[i].token),
           accepted := w.accepted + [Access(w.leases[i].token, value)])
  }

  function Run(w: World, ops: seq<Op>): World {
    if ops == [] then w else Step(Run(w, ops[..|ops| - 1]), ops[|ops| - 1])
  }

  // ---- what every step keeps ----

  predicate Ordered(leases: seq<Lease>) {
    forall i, j | 0 <= i < j < |leases| :: leases[i].expiresAt <= leases[j].issuedAt
  }

  ghost predicate Inv(w: World) {
    && w.coordinator.duration > 0.0
    && w.coordinator.nextToken == |w.leases| + 1
    && w.coordinator.active == (if w.leases == [] then None else Some(w.leases[|w.leases| - 1]))
    && (forall i | 0 <= i < |w.leases| ::
          w.leases[i].token == i + 1 && w.leases[i].expiresAt == w.leases[i].issuedAt + w.coordinator.duration)
    && Ordered(w.leases)
    && (forall i, j | 0 <= i < j < |w.accepted| :: w.accepted[i].token <= w.accepted[j].token)
    && (forall i | 0 <= i < |w.accepted| :: 1 <= w.accepted[i].token <= |w.leases|)
    && w.resource == (if w.accepted == [] then ResourceState(None, 0)
                      else ResourceState(Some(w.accepted[|w.accepted| - 1].value), w.accepted[|w.accepted| - 1].token))
  }

  lemma InvAcquire(w: World, owner: Name, now: real)
    requires Inv(w)
    ensures Inv(Step(w, ACQUIRE(owner, now)))
  {
  }

  lemma InvWrite(w: World, i: nat, value: Name)
    requires Inv(w)
    ensures Inv(Step(w, WRITE(i, value)))
  {
  }

  lemma {:induction false} InvRun(w: World, ops: seq<Op>)
    requires Inv(w)
    ensures Inv(Run(w, ops)) && w.accepted <= Run(w, ops).accepted && w.leases <= Run(w, ops).leases
  {
    if ops != [] {
      var u, op := Run(w, ops[..|ops| - 1]), ops[|ops| - 1];
      InvRun(w, ops[..|ops| - 1]);
      match op
      case ACQUIRE(owner, now) => InvAcquire(u, owner, now);
      case WRITE(i, value) => InvWrite(u, i, value);
    }
  }

  // ---- what holds in every run ----

  predicate Holds(l: Lease, time: real) {
    l.issuedAt <= time < l.expiresAt
  }

  /** Leases do not overlap, whatever the clocks say: at any time at most one is running. Tokens count
      the leases. */
  lemma OneLeaseAtATime(duration: real, ops: seq<Op>, i: nat, j: nat, time: real)
    requires duration > 0.0 && i < j < |Run(Start(duration), ops).leases|
    ensures var l := Run(Start(duration), ops).leases;
            && l[i].token == i + 1 && l[j].token == j + 1
            && l[i].expiresAt <= l[j].issuedAt
            && !(Holds(l[i], time) && Holds(l[j], time))
  {
    InvRun(Start(duration), ops);
  }

  /** Accepted writes come in blocks, one per lease, in the order of the leases. */
  lemma BlocksInLeaseOrder(duration: real, ops: seq<Op>, i: nat, j: nat, k: nat)
    requires duration > 0.0 && i <= j <= k < |Run(Start(duration), ops).accepted|
    ensures var a := Run(Start(duration), ops).accepted;
            && a[i].token <= a[j].token <= a[k].token
            && (a[i].token == a[k].token ==> a[j].token == a[i].token)
  {
    InvRun(Start(duration), ops);
    var a := Run(Start(duration), ops).accepted;
    assert i == j || a[i].token <= a[j].token;
    assert j == k || a[j].token <= a[k].token;
  }

  /** After a write with a token has been accepted, no lower token changes the value, ever. */
  lemma StaleWritesRefused(duration: real, ops: seq<Op>, more: seq<Op>, k: nat, i: nat, value: Name)
    requires duration > 0.0 && k < |Run(Start(duration), ops).accepted|
    requires var v := Run(Run(Start(duration), ops), more);
             i < |v.leases| && v.leases[i].token < Run(Start(duration), ops).accepted[k].token
    ensures var v := Run(Run(Start(duration), ops), more); Step(v, WRITE(i, value)) == v
  {
    var w := Run(Start(duration), ops);
    var v := Run(w, more);
    InvRun(Start(duration), ops);
    InvRun(w, more);
    var last := |v.accepted| - 1;
    assert v.accepted[k] == w.accepted[k];
    assert k == last || v.accepted[k].token <= v.accepted[last].token;
  }

  /** Exactly when a write is accepted: if no write with a higher token has been, whether or not its
      lease is still running. */
  lemma AcceptedIffNoneHigher(duration: real, ops: seq<Op>, i: nat, value: Name)
    requires duration > 0.0 && i < |Run(Start(duration), ops).leases|
    ensures var w := Run(Start(duration), ops);
            |Step(w, WRITE(i, value)).accepted| > |w.accepted| <==>
              forall k | 0 <= k < |w.accepted| :: w.accepted[k].token <= w.leases[i].token
  {
    var w := Run(Start(duration), ops);
    InvRun(Start(duration), ops);
    if w.accepted != [] {
      var last := |w.accepted| - 1;
      forall k | 0 <= k < |w.accepted| ensures w.accepted[k].token <= w.accepted[last].token {
        assert k == last || w.accepted[k].token <= w.accepted[last].token;
      }
    }
  }

  /** So an expired lease can still write until its successor does: A's lease has run out and B holds the
      next one, but B has not written yet, and A's write is accepted. */
  lemma StaleWriteBeforeFirstUse(a: Name, b: Name, value: Name)
    ensures var ops := [ACQUIRE(a, 0.0), ACQUIRE(b, 6.0)];
            var w := Run(Start(5.0), ops);
            && |w.leases| == 2 && !Holds(w.leases[0], 6.0) && Holds(w.leases[1], 6.0)
            && Step(w, WRITE(0, value)).resource.value == Some(value)
  {
    var first, second := ACQUIRE(a, 0.0), ACQUIRE(b, 6.0);
    assert [first, second][..1] == [first];
    assert [first][..0] == [];
    var w1 := Step(Start(5.0), first);
    assert Run(Start(5.0), [first]) == w1;
    assert Run(Start(5.0), [first, second]) == Step(w1, second);
  }

  lemma RunMore(duration: real, ops: seq<Op>, op: Op)
    ensures Run(Start(duration), ops + [op]) == Step(Run(Start(duration), ops), op)
  {
    assert (ops + [op])[..|ops|] == ops;
  }

  /** The lease is in the caller's name, with the next token, from now for the whole duration. */
  ghost predicate Grants(w: World, v: World, duration: real, owner: Name, now: real) {
    && v.leases == w.leases + [Lease(owner, |w.leases| + 1, now, now + duration)]
    && v.resource == w.resource && v.accepted == w.accepted
  }

  lemma GrantStep(w: World, duration: real, owner: Name, now: real)
    requires Inv(w) && w.coordinator.duration == duration
    ensures if w.leases == [] || now >= w.leases[|w.leases| - 1].expiresAt
            then Grants(w, Step(w, ACQUIRE(owner, now)), duration, owner, now) else Step(w, ACQUIRE(owner, now)) == w
  {
  }

  /** Exactly when a lease is granted: if none has been, or the last one has run out by the caller's clock. */
  lemma GrantedExactly(duration: real, ops: seq<Op>, owner: Name, now: real, w: World, v: World)
    requires duration > 0.0 && w == Run(Start(duration), ops) && v == Run(Start(duration), ops + [ACQUIRE(owner, now)])
    ensures if w.leases == [] || now >= w.leases[|w.leases| - 1].expiresAt
            then Grants(w, v, duration, owner, now) else v == w
  {
    InvRun(Start(duration), ops);
    DurationStays(duration, ops);
    RunMore(duration, ops, ACQUIRE(owner, now));
    GrantStep(w, duration, owner, now);
  }

  lemma {:induction false} DurationStays(duration: real, ops: seq<Op>)
    ensures Run(Start(duration), ops).coordinator.duration == duration
  {
    if ops != [] {
      DurationStays(duration, ops[..|ops| - 1]);
    }
  }

  /** The resource holds what was written last among the writes accepted. */
  lemma LastAcceptedIsHeld(duration: real, ops: seq<Op>)
    requires duration > 0.0
    ensures var w := Run(Start(duration), ops);
            w.resource.value == if w.accepted == [] then None else Some(w.accepted[|w.accepted| - 1].value)
  {
    InvRun(Start(duration), ops);
  }

  lemma WriteStep(w: World, i: nat, value: Name, v: World)
    requires Inv(w) && i < |w.leases| && v == Step(w, WRITE(i, value))
    ensures v == w || (v.accepted == w.accepted + [Access(i + 1, value)] && v.resource == ResourceState(Some(value), i + 1))
  {
  }

  /** An accepted write is recorded with its value and token; a refused one changes nothing. */
  lemma WrittenAsGiven(duration: real, ops: seq<Op>, i: nat, value: Name)
    requires duration > 0.0 && i < |Run(Start(duration), ops).leases|
    ensures var w, v := Run(Start(duration), ops), Run(Start(duration), ops + [WRITE(i, value)]);
            v == w || (v.accepted == w.accepted + [Access(i + 1, value)] && v.resource == ResourceState(Some(value), i + 1))
  {
    InvRun(Start(duration), ops);
    RunMore(duration, ops, WRITE(i, value));
    WriteStep(Run(Start(duration), ops), i, value, Run(Start(duration), ops + [WRITE(i, value)]));
  }
}

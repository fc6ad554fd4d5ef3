/**
  Visibility in every run: a delivery hides its message until the lease is over, a refusal until the
  delay is, and what is delivered is what was enqueued.
 */
module BrokerLeases {
  import opened Results
  import opened BrokerModel
  import opened BrokerRuns
  import opened BrokerReceipts

  // ---- leases ----

  /** A message that holds a receipt is hidden until the lease of the delivery that handed it out is over. */
  predicate Leases(m: Message, deliveries: seq<Delivery>) {
    m.receipt.Some? ==>
      1 <= m.receipt.value <= |deliveries| && m.visibleAt == deliveries[m.receipt.value - 1].leaseUntil
  }

  ghost predicate AllLeased(messages: seq<Message>, deliveries: seq<Delivery>) {
    forall i | 0 <= i < |messages| :: Leases(messages[i], deliveries)
  }

  lemma {:induction false} LeasedScan(messages: seq<Message>, k: nat, dlq: seq<Message>, p: Poll, deliveries: seq<Delivery>)
    requires k <= |messages| && p.token == |deliveries| + 1 && AllLeased(messages, deliveries)
    ensures var s := Scan(messages, k, dlq, p);
            AllLeased(s.messages, deliveries + Handed(s.delivery))
    decreases |messages| - k
  {
    if k == |messages| {
      assert deliveries + Handed(None) == deliveries;
    } else if Skipped(messages, messages[k], p) {
      LeasedScan(messages, k + 1, dlq, p, deliveries);
    } else if messages[k].receiveCount + 1 > p.max {
      LeasedScan(Without(messages, k), k, dlq + [Buried(messages[k])], p, deliveries);
    }
  }

  lemma LeasedAck(w: World, token: nat)
    requires AllLeased(w.broker.messages, w.deliveries)
    ensures AllLeased(AckStep(w, token).broker.messages, AckStep(w, token).deliveries)
  {
  }

  lemma LeasedStep(w: World, op: Op)
    requires Recorded(w) && AllLeased(w.broker.messages, w.deliveries)
    ensures AllLeased(Step(w, op).broker.messages, Step(w, op).deliveries)
  {
    match op
    case ENQUEUE(_, _, _) =>
    case RECEIVE(now, timeout) =>
      LeasedScan(w.broker.messages, 0, w.broker.dlq, PollOf(w.broker, now, timeout), w.deliveries);
    case ACK(token) => LeasedAck(w, token);
    case NACK(_, _, _) =>
    case PROCESS(i, idempotent, _) =>
      if i < |w.deliveries| {
        LeasedAck(HandleStep(w, w.deliveries[i].id, idempotent), w.deliveries[i].receipt);
      }
  }

  lemma {:induction false} LeasedRun(max: int, strict: bool, ops: seq<Op>)
    requires max > 0
    ensures var w := Run(Start(max, strict), ops);
            Recorded(w) && AllLeased(w.broker.messages, w.deliveries)
  {
    RecordedRun(Start(max, strict), ops);
    if ops != [] {
      LeasedRun(max, strict, ops[..|ops| - 1]);
      LeasedStep(Run(Start(max, strict), ops[..|ops| - 1]), ops[|ops| - 1]);
    }
  }

  /** In every run, a message that holds a receipt is invisible exactly until the end of that lease. */
  lemma HiddenWhileLeased(max: int, strict: bool, ops: seq<Op>, i: nat, token: nat)
    requires max > 0 && i < |Run(Start(max, strict), ops).broker.messages|
    requires Run(Start(max, strict), ops).broker.messages[i].receipt == Some(token)
    ensures var w := Run(Start(max, strict), ops);
            1 <= token <= |w.deliveries| && w.broker.messages[i].visibleAt == w.deliveries[token - 1].leaseUntil
  {
    LeasedRun(max, strict, ops);
    assert Leases(Run(Start(max, strict), ops).broker.messages[i], Run(Start(max, strict), ops).deliveries);
  }

  lemma {:induction false} ScanDelivers(messages: seq<Message>, k: nat, dlq: seq<Message>, p: Poll)
    requires k <= |messages|
    ensures var s := Scan(messages, k, dlq, p);
            s.delivery.Some? ==>
              && s.delivery.value.receipt == p.token && s.delivery.value.leaseUntil == p.now + p.timeout
              && exists i :: 0 <= i < |s.messages| && s.messages[i].sequence == s.delivery.value.sequence
                             && s.messages[i].receipt == Some(p.token)
    decreases |messages| - k
  {
    if k < |messages| {
      if Skipped(messages, messages[k], p) {
        ScanDelivers(messages, k + 1, dlq, p);
      } else if messages[k].receiveCount + 1 > p.max {
        ScanDelivers(Without(messages, k), k, dlq + [Buried(messages[k])], p);
      } else {
        var s := Scan(messages, k, dlq, p);
        assert s.messages[k].sequence == s.delivery.value.sequence && s.messages[k].receipt == Some(p.token);
      }
    }
  }

  /** A poll delivers one message at most, with the next receipt and a lease for the time asked for. */
  lemma LeaseGranted(max: int, strict: bool, ops: seq<Op>, now: int, timeout: int)
    requires max > 0
    ensures var w := Run(Start(max, strict), ops);
            var v := Run(w, [RECEIVE(now, timeout)]);
            || v.deliveries == w.deliveries
            || (&& |v.deliveries| == |w.deliveries| + 1 && w.deliveries <= v.deliveries && timeout > 0
                && v.deliveries[|w.deliveries|].receipt == |v.deliveries|
                && v.deliveries[|w.deliveries|].leaseUntil == now + timeout)
  {
    var w := Run(Start(max, strict), ops);
    RecordedRun(Start(max, strict), ops);
    RunOne(w, RECEIVE(now, timeout));
    ScanDelivers(w.broker.messages, 0, w.broker.dlq, PollOf(w.broker, now, timeout));
  }

  lemma RunOne(w: World, op: Op)
    ensures Run(w, [op]) == Step(w, op)
  {
    assert [op][..0] == [] && Run(w, []) == w;
  }

  // ---- hidden messages are not delivered ----

  /** The message with sequence number s is gone, or hidden until a time and holding a given receipt. */
  predicate Hides(m: Message, s: nat, until: int, receipt: Option<nat>) {
    m.sequence == s ==> m.visibleAt >= until && m.receipt == receipt
  }

  ghost predicate Hidden(messages: seq<Message>, s: nat, until: int, receipt: Option<nat>) {
    forall i | 0 <= i < |messages| :: Hides(messages[i], s, until, receipt)
  }

  /** Every poll comes before a time, and nobody refuses a receipt. */
  predicate Before(ops: seq<Op>, until: int, receipt: Option<nat>) {
    forall k | 0 <= k < |ops| :: EarlyOp(ops[k], until, receipt)
  }

  predicate EarlyOp(op: Op, until: int, receipt: Option<nat>) {
    && (op.RECEIVE? ==> op.now < until)
    && (op.NACK? ==> Some(op.token) != receipt)
  }

  lemma {:induction false} HiddenScan(messages: seq<Message>, k: nat, dlq: seq<Message>, p: Poll, s: nat, until: int, receipt: Option<nat>)
    requires k <= |messages| && Hidden(messages, s, until, receipt) && p.now < until
    ensures var r := Scan(messages, k, dlq, p);
            Hidden(r.messages, s, until, receipt) && (r.delivery.Some? ==> r.delivery.value.sequence != s)
    decreases |messages| - k
  {
    if k < |messages| {
      assert Hides(messages[k], s, until, receipt);
      if Skipped(messages, messages[k], p) {
        HiddenScan(messages, k + 1, dlq, p, s, until, receipt);
      } else if messages[k].receiveCount + 1 > p.max {
        HiddenScan(Without(messages, k), k, dlq + [Buried(messages[k])], p, s, until, receipt);
      }
    }
  }

  ghost predicate StaysHidden(w: World, v: World, s: nat, until: int, receipt: Option<nat>) {
    && Hidden(v.broker.messages, s, until, receipt) && v.broker.sequence >= s
    && Times(v.deliveries, s) == Times(w.deliveries, s)
  }

  lemma HiddenReceive(w: World, now: int, timeout: int, s: nat, until: int, receipt: Option<nat>)
    requires Hidden(w.broker.messages, s, until, receipt) && w.broker.sequence >= s && now < until
    ensures StaysHidden(w, ReceiveStep(w, now, timeout), s, until, receipt)
  {
    HiddenScan(w.broker.messages, 0, w.broker.dlq, PollOf(w.broker, now, timeout), s, until, receipt);
    var d := ScanAll(w.broker, now, timeout).delivery;
    if d.Some? {
      TimesAppend(w.deliveries, d.value, s);
    } else {
      assert w.deliveries + Handed(d) == w.deliveries;
    }
  }

  lemma HiddenAck(w: World, token: nat, s: nat, until: int, receipt: Option<nat>)
    requires Hidden(w.broker.messages, s, until, receipt) && w.broker.sequence >= s
    ensures StaysHidden(w, AckStep(w, token), s, until, receipt)
  {
  }

  lemma HiddenNack(w: World, token: nat, now: int, delay: int, s: nat, until: int, receipt: Option<nat>)
    requires Hidden(w.broker.messages, s, until, receipt) && w.broker.sequence >= s && Some(token) != receipt
    ensures StaysHidden(w, NackStep(w, token, now, delay), s, until, receipt)
  {
  }

  lemma HiddenStep(w: World, op: Op, s: nat, until: int, receipt: Option<nat>)
    requires Hidden(w.broker.messages, s, until, receipt) && w.broker.sequence >= s && EarlyOp(op, until, receipt)
    ensures StaysHidden(w, Step(w, op), s, until, receipt)
  {
    match op
    case ENQUEUE(_, _, _) =>
    case RECEIVE(now, timeout) => HiddenReceive(w, now, timeout, s, until, receipt);
    case ACK(token) => HiddenAck(w, token, s, until, receipt);
    case NACK(token, now, delay) => HiddenNack(w, token, now, delay, s, until, receipt);
    case PROCESS(i, idempotent, _) =>
      if i < |w.deliveries| {
        HiddenAck(HandleStep(w, w.deliveries[i].id, idempotent), w.deliveries[i].receipt, s, until, receipt);
      }
  }

  lemma {:induction false} HiddenRun(w: World, ops: seq<Op>, s: nat, until: int, receipt: Option<nat>)
    requires Hidden(w.broker.messages, s, until, receipt) && w.broker.sequence >= s && Before(ops, until, receipt)
    ensures StaysHidden(w, Run(w, ops), s, until, receipt)
  {
    if ops != [] {
      HiddenRun(w, ops[..|ops| - 1], s, until, receipt);
      assert EarlyOp(ops[|ops| - 1], until, receipt);
      HiddenStep(Run(w, ops[..|ops| - 1]), ops[|ops| - 1], s, until, receipt);
    }
  }

  lemma OneOfSequence(w: World, i: nat, s: nat, until: int, receipt: Option<nat>)
    requires Recorded(w) && i < |w.broker.messages| && w.broker.messages[i].sequence == s
    requires w.broker.messages[i].visibleAt >= until && w.broker.messages[i].receipt == receipt
    ensures Hidden(w.broker.messages, s, until, receipt) && w.broker.sequence >= s
  {
    var b := w.broker;
    assert Live(b.messages[i], b.max, b.sequence, b.receipts);
    forall j | 0 <= j < |b.messages| && j != i ensures b.messages[j].sequence != s {
      assert if i < j then Apart(b.messages[i], b.messages[j], b.strict) else Apart(b.messages[j], b.messages[i], b.strict);
    }
  }

  /** While its lease runs and its receipt is not refused, a delivered message is not delivered again: not
      by any polls before the end of the lease, whatever else happens in between. */
  lemma LeaseProtects(max: int, strict: bool, ops: seq<Op>, token: nat, more: seq<Op>)
    requires max > 0 && Holds(Run(Start(max, strict), ops).broker, token)
    requires var w := Run(Start(max, strict), ops);
             1 <= token <= |w.deliveries| && Before(more, w.deliveries[token - 1].leaseUntil, Some(token))
    ensures var w := Run(Start(max, strict), ops);
            var s := w.deliveries[token - 1].sequence;
            Times(Run(w, more).deliveries, s) == Times(w.deliveries, s)
  {
    var w := Run(Start(max, strict), ops);
    var i := Holder(w.broker.messages, token);
    LeasedRun(max, strict, ops);
    assert Leases(w.broker.messages[i], w.deliveries) && Linked(w.broker.messages[i], w.deliveries);
    OneOfSequence(w, i, w.deliveries[token - 1].sequence, w.deliveries[token - 1].leaseUntil, Some(token));
    HiddenRun(w, more, w.deliveries[token - 1].sequence, w.deliveries[token - 1].leaseUntil, Some(token));
  }

  /** Each poll that delivers starts such a lease: the message just delivered holds the receipt. */
  lemma DeliveredHolds(max: int, strict: bool, ops: seq<Op>, now: int, timeout: int)
    requires max > 0
    ensures var w := Run(Start(max, strict), ops);
            var v := Run(w, [RECEIVE(now, timeout)]);
            |v.deliveries| > |w.deliveries| ==> Holds(v.broker, |v.deliveries|)
  {
    var w := Run(Start(max, strict), ops);
    RecordedRun(Start(max, strict), ops);
    RunOne(w, RECEIVE(now, timeout));
    ScanDelivers(w.broker.messages, 0, w.broker.dlq, PollOf(w.broker, now, timeout));
  }

  /** A refused message is visible again exactly when the delay is over, and it holds no receipt. */
  lemma NackDelays(max: int, strict: bool, ops: seq<Op>, token: nat, now: int, delay: int)
    requires max > 0 && delay >= 0 && Holds(Run(Start(max, strict), ops).broker, token)
    ensures var b := Run(Start(max, strict), ops).broker;
            var i, v := Holder(b.messages, token), Run(Run(Start(max, strict), ops), [NACK(token, now, delay)]).broker;
            && |v.messages| == |b.messages|
            && v.messages[i] == b.messages[i].(receipt := None, visibleAt := now + delay)
            && forall j | 0 <= j < |b.messages| && j != i :: v.messages[j] == b.messages[j]
  {
    RunOne(Run(Start(max, strict), ops), NACK(token, now, delay));
  }

  /** And it is not delivered by any polls before that. */
  lemma NackHides(max: int, strict: bool, ops: seq<Op>, token: nat, now: int, delay: int, more: seq<Op>)
    requires max > 0 && delay >= 0 && Holds(Run(Start(max, strict), ops).broker, token)
    requires 1 <= token <= |Run(Start(max, strict), ops).deliveries| && Before(more, now + delay, None)
    ensures var w := Run(Start(max, strict), ops);
            var s := w.deliveries[token - 1].sequence;
            Times(Run(w, [NACK(token, now, delay)] + more).deliveries, s) == Times(w.deliveries, s)
  {
    var w := Run(Start(max, strict), ops);
    var v, s := NackStep(w, token, now, delay), w.deliveries[token - 1].sequence;
    var i := Holder(w.broker.messages, token);
    LeasedRun(max, strict, ops);
    assert Linked(w.broker.messages[i], w.deliveries);
    RecordedNack(w, token, now, delay);
    OneOfSequence(v, i, s, now + delay, None);
    HiddenRun(v, more, s, now + delay, None);
    RunFrom(w, NACK(token, now, delay), more);
  }

  lemma {:induction false} RunFrom(w: World, op: Op, more: seq<Op>)
    ensures Run(w, [op] + more) == Run(Step(w, op), more)
  {
    if more == [] {
      assert [op] + more == [op];
      RunOne(w, op);
    } else {
      RunFrom(w, op, more[..|more| - 1]);
      assert ([op] + more)[..|more|] == [op] + more[..|more| - 1];
    }
  }

  // ---- what is delivered is what was enqueued ----

  predicate IsQueued(messages: seq<Message>, id: Name) {
    exists i :: 0 <= i < |messages| && messages[i].id == id
  }

  lemma EnqueueIs(w: World, id: Name, payload: Name, group: Name)
    ensures var b, v := w.broker, EnqueueStep(w, id, payload, group);
            if IsQueued(b.messages, id) then v == w
            else v == w.(broker := b.(sequence := b.sequence + 1,
                                      messages := b.messages + [Message(id, payload, group, b.sequence + 1, 0, 0, None)]))
  {
    assert HasId(w.broker.messages, id) == IsQueued(w.broker.messages, id);
  }

  /** An id that no message in the queue has is taken, at the end of the queue and visible from time zero
      on; any other enqueue changes nothing. */
  lemma EnqueuedAsGiven(w: World, id: Name, payload: Name, group: Name)
    ensures var b, v := w.broker, Run(w, [ENQUEUE(id, payload, group)]);
            if IsQueued(b.messages, id) then v == w
            else v == w.(broker := b.(sequence := b.sequence + 1,
                                      messages := b.messages + [Message(id, payload, group, b.sequence + 1, 0, 0, None)]))
  {
    RunOne(w, ENQUEUE(id, payload, group));
    EnqueueIs(w, id, payload, group);
  }

  predicate SameContent(m: Message, s: nat, id: Name, payload: Name, group: Name) {
    m.sequence == s ==> m.id == id && m.payload == payload && m.group == group
  }

  predicate DeliversContent(d: Delivery, s: nat, id: Name, payload: Name, group: Name) {
    d.sequence == s ==> d.id == id && d.payload == payload && d.group == group
  }

  ghost predicate Carries(messages: seq<Message>, dlq: seq<Message>, deliveries: seq<Delivery>, s: nat, id: Name, payload: Name, group: Name) {
    && (forall i | 0 <= i < |messages| :: SameContent(messages[i], s, id, payload, group))
    && (forall i | 0 <= i < |dlq| :: SameContent(dlq[i], s, id, payload, group))
    && (forall i | 0 <= i < |deliveries| :: DeliversContent(deliveries[i], s, id, payload, group))
  }

  lemma {:induction false} CarriesScan(messages: seq<Message>, k: nat, dlq: seq<Message>, p: Poll, deliveries: seq<Delivery>,
                                       s: nat, id: Name, payload: Name, group: Name)
    requires k <= |messages| && Carries(messages, dlq, deliveries, s, id, payload, group)
    ensures var r := Scan(messages, k, dlq, p);
            Carries(r.messages, r.dlq, deliveries + Handed(r.delivery), s, id, payload, group)
    decreases |messages| - k
  {
    if k < |messages| {
      if Skipped(messages, messages[k], p) {
        CarriesScan(messages, k + 1, dlq, p, deliveries, s, id, payload, group);
      } else if messages[k].receiveCount + 1 > p.max {
        CarriesScan(Without(messages, k), k, dlq + [Buried(messages[k])], p, deliveries, s, id, payload, group);
      }
    }
  }

  ghost predicate Faithful(w: World, s: nat, id: Name, payload: Name, group: Name) {
    Carries(w.broker.messages, w.broker.dlq, w.deliveries, s, id, payload, group) && w.broker.sequence >= s
  }

  lemma FaithfulAck(w: World, token: nat, s: nat, id: Name, payload: Name, group: Name)
    requires Faithful(w, s, id, payload, group)
    ensures Faithful(AckStep(w, token), s, id, payload, group)
  {
  }

  lemma FaithfulNack(w: World, token: nat, now: int, delay: int, s: nat, id: Name, payload: Name, group: Name)
    requires Faithful(w, s, id, payload, group)
    ensures Faithful(NackStep(w, token, now, delay), s, id, payload, group)
  {
  }

  lemma FaithfulStep(w: World, op: Op, s: nat, id: Name, payload: Name, group: Name)
    requires Faithful(w, s, id, payload, group)
    ensures Faithful(Step(w, op), s, id, payload, group)
  {
    match op
    case ENQUEUE(_, _, _) =>
    case RECEIVE(now, timeout) =>
      CarriesScan(w.broker.messages, 0, w.broker.dlq, PollOf(w.broker, now, timeout), w.deliveries, s, id, payload, group);
    case ACK(token) => FaithfulAck(w, token, s, id, payload, group);
    case NACK(token, now, delay) => FaithfulNack(w, token, now, delay, s, id, payload, group);
    case PROCESS(i, idempotent, _) =>
      if i < |w.deliveries| {
        FaithfulAck(HandleStep(w, w.deliveries[i].id, idempotent), w.deliveries[i].receipt, s, id, payload, group);
      }
  }

  lemma {:induction false} FaithfulRun(w: World, ops: seq<Op>, s: nat, id: Name, payload: Name, group: Name)
    requires Faithful(w, s, id, payload, group)
    ensures Faithful(Run(w, ops), s, id, payload, group)
  {
    if ops != [] {
      FaithfulRun(w, ops[..|ops| - 1], s, id, payload, group);
      FaithfulStep(Run(w, ops[..|ops| - 1]), ops[|ops| - 1], s, id, payload, group);
    }
  }

  /** In every continuation, each delivery of an enqueued message has the id, payload and group it was
      enqueued with, and so have the message while it is queued and its dead letter. */
  lemma DeliveredAsEnqueued(max: int, strict: bool, ops: seq<Op>, id: Name, payload: Name, group: Name, more: seq<Op>)
    requires max > 0
    requires var w := Run(Start(max, strict), ops); forall i | 0 <= i < |w.broker.messages| :: w.broker.messages[i].id != id
    ensures var w := Run(Start(max, strict), ops);
            var v, s := Run(w, [ENQUEUE(id, payload, group)] + more), w.broker.sequence + 1;
            && (forall j | 0 <= j < |v.deliveries| && v.deliveries[j].sequence == s ::
                  v.deliveries[j].id == id && v.deliveries[j].payload == payload && v.deliveries[j].group == group)
            && (forall j | 0 <= j < |v.broker.messages| && v.broker.messages[j].sequence == s ::
                  v.broker.messages[j].id == id && v.broker.messages[j].payload == payload && v.broker.messages[j].group == group)
            && (forall j | 0 <= j < |v.broker.dlq| && v.broker.dlq[j].sequence == s ::
                  v.broker.dlq[j].id == id && v.broker.dlq[j].payload == payload && v.broker.dlq[j].group == group)
  {
    var w := Run(Start(max, strict), ops);
    var u, s := Step(w, ENQUEUE(id, payload, group)), w.broker.sequence + 1;
    RecordedRun(Start(max, strict), ops);
    NoneNumbered(w);
    EnqueuedAsGiven(w, id, payload, group);
    RunOne(w, ENQUEUE(id, payload, group));
    FaithfulRun(u, more, s, id, payload, group);
    RunFrom(w, ENQUEUE(id, payload, group), more);
    var v := Run(u, more);
    forall j | 0 <= j < |v.deliveries| ensures DeliversContent(v.deliveries[j], s, id, payload, group) {}
    forall j | 0 <= j < |v.broker.messages| ensures SameContent(v.broker.messages[j], s, id, payload, group) {}
    forall j | 0 <= j < |v.broker.dlq| ensures SameContent(v.broker.dlq[j], s, id, payload, group) {}
  }

  /** The next sequence number has not been used. */
  lemma NoneNumbered(w: World)
    requires Recorded(w)
    ensures forall j | 0 <= j < |w.broker.messages| :: w.broker.messages[j].sequence != w.broker.sequence + 1
    ensures forall j | 0 <= j < |w.broker.dlq| :: w.broker.dlq[j].sequence != w.broker.sequence + 1
    ensures forall j | 0 <= j < |w.deliveries| :: w.deliveries[j].sequence != w.broker.sequence + 1
  {
    var b := w.broker;
    forall j | 0 <= j < |b.messages| ensures b.messages[j].sequence <= b.sequence {
      assert Live(b.messages[j], b.max, b.sequence, b.receipts);
    }
  }
}

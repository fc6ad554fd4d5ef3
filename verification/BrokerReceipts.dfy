/** Receipts in every run: what each one is good for, and when it stops being good for anything. */
module BrokerReceipts {
  import opened Results
  import opened BrokerModel
  import opened BrokerRuns

  /** How often the message with a sequence number has been delivered. */
  function Times(deliveries: seq<Delivery>, s: nat): nat {
    if deliveries == [] then 0
    else Times(deliveries[..|deliveries| - 1], s) + if deliveries[|deliveries| - 1].sequence == s then 1 else 0
  }

  lemma TimesAppend(deliveries: seq<Delivery>, d: Delivery, s: nat)
    ensures Times(deliveries + [d], s) == Times(deliveries, s) + if d.sequence == s then 1 else 0
  {
  }

  lemma {:induction false} TimesNone(deliveries: seq<Delivery>, s: nat)
    requires forall i | 0 <= i < |deliveries| :: deliveries[i].sequence != s
    ensures Times(deliveries, s) == 0
  {
    if deliveries != [] {
      TimesNone(deliveries[..|deliveries| - 1], s);
    }
  }

  /** Delivery d was of message m, and m's latest. */
  predicate Latest(m: Message, d: Delivery) {
    d.sequence == m.sequence && d.receiveCount == m.receiveCount && d.id == m.id && d.payload == m.payload && d.group == m.group
  }

  /** A message's count is the number of times it was delivered, and its receipt, if it has one, is that
      of its latest delivery. */
  predicate Linked(m: Message, deliveries: seq<Delivery>) {
    && Times(deliveries, m.sequence) == m.receiveCount
    && (m.receipt.Some? ==> 1 <= m.receipt.value <= |deliveries| && Latest(m, deliveries[m.receipt.value - 1]))
  }

  /** A dead letter was delivered as often as allowed and then found once more. */
  predicate Dead(m: Message, deliveries: seq<Delivery>, max: int) {
    m.receiveCount == max + 1 && m.receipt == None && Times(deliveries, m.sequence) == max
  }

  /** Deliveries are numbered by their receipts and are of messages enqueued. */
  predicate Numbers(deliveries: seq<Delivery>, sequence: nat) {
    forall i | 0 <= i < |deliveries| :: deliveries[i].receipt == i + 1 && 1 <= deliveries[i].sequence <= sequence
  }

  /** How queue, dead letters and deliveries fit together. */
  ghost predicate Known(messages: seq<Message>, dlq: seq<Message>, deliveries: seq<Delivery>, max: int, sequence: nat) {
    && (forall i | 0 <= i < |messages| :: Linked(messages[i], deliveries))
    && (forall i | 0 <= i < |dlq| :: Dead(dlq[i], deliveries, max) && 1 <= dlq[i].sequence <= sequence)
    && (forall i, j | 0 <= i < |messages| && 0 <= j < |dlq| :: messages[i].sequence != dlq[j].sequence)
    && (forall s :: Times(deliveries, s) <= max)
    && (forall i | 0 <= i < |deliveries| :: deliveries[i].receiveCount <= Times(deliveries, deliveries[i].sequence))
    && Numbers(deliveries, sequence)
  }

  ghost predicate Recorded(w: World) {
    && InOrder(w.broker)
    && w.broker.receipts == |w.deliveries|
    && Known(w.broker.messages, w.broker.dlq, w.deliveries, w.broker.max, w.broker.sequence)
  }

  // ---- a scan ----

  lemma KnownBuried(messages: seq<Message>, k: nat, dlq: seq<Message>, p: Poll, deliveries: seq<Delivery>, sequence: nat, receipts: nat)
    requires k < |messages| && messages[k].receiveCount == p.max
    requires QueueOk(messages, p.max, p.strict, sequence, receipts)
    requires Known(messages, dlq, deliveries, p.max, sequence)
    ensures Known(Without(messages, k), dlq + [Buried(messages[k])], deliveries, p.max, sequence)
  {
  }

  lemma KnownLeased(messages: seq<Message>, k: nat, dlq: seq<Message>, p: Poll, deliveries: seq<Delivery>, sequence: nat, receipts: nat)
    requires k < |messages| && messages[k].receiveCount + 1 <= p.max && p.token == |deliveries| + 1
    requires QueueOk(messages, p.max, p.strict, sequence, receipts)
    requires Known(messages, dlq, deliveries, p.max, sequence)
    ensures Known(messages[k := Leased(messages[k], p)], dlq, deliveries + [DeliveryOf(messages[k], p)], p.max, sequence)
  {
    var d := DeliveryOf(messages[k], p);
    forall s ensures Times(deliveries + [d], s) == Times(deliveries, s) + if d.sequence == s then 1 else 0 {
      TimesAppend(deliveries, d, s);
    }
    var after := messages[k := Leased(messages[k], p)];
    forall i | 0 <= i < |messages| ensures Linked(after[i], deliveries + [d]) {
      assert Linked(messages[i], deliveries);
    }
  }

  lemma {:induction false} KnownScan(messages: seq<Message>, k: nat, dlq: seq<Message>, p: Poll, deliveries: seq<Delivery>, sequence: nat, receipts: nat)
    requires k <= |messages| && p.token == |deliveries| + 1
    requires QueueOk(messages, p.max, p.strict, sequence, receipts)
    requires Known(messages, dlq, deliveries, p.max, sequence)
    ensures var s := Scan(messages, k, dlq, p);
            Known(s.messages, s.dlq, deliveries + Handed(s.delivery), p.max, sequence)
    decreases |messages| - k
  {
    if k == |messages| {
      assert deliveries + Handed(None) == deliveries;
    } else if Skipped(messages, messages[k], p) {
      KnownScan(messages, k + 1, dlq, p, deliveries, sequence, receipts);
    } else if messages[k].receiveCount + 1 > p.max {
      QueueWithout(messages, p.max, p.strict, sequence, receipts, k);
      KnownBuried(messages, k, dlq, p, deliveries, sequence, receipts);
      KnownScan(Without(messages, k), k, dlq + [Buried(messages[k])], p, deliveries, sequence, receipts);
    } else {
      KnownLeased(messages, k, dlq, p, deliveries, sequence, receipts);
    }
  }

  // ---- every step ----

  lemma RecordedAck(w: World, token: nat)
    requires Recorded(w)
    ensures Recorded(AckStep(w, token))
  {
  }

  lemma RecordedNack(w: World, token: nat, now: int, delay: int)
    requires Recorded(w)
    ensures Recorded(NackStep(w, token, now, delay))
  {
  }

  lemma RecordedEnqueue(w: World, id: Name, payload: Name, group: Name)
    requires Recorded(w)
    ensures Recorded(EnqueueStep(w, id, payload, group))
  {
    OrderEnqueue(w, id, payload, group);
    TimesNone(w.deliveries, w.broker.sequence + 1);
  }

  lemma RecordedReceive(w: World, now: int, timeout: int)
    requires Recorded(w)
    ensures Recorded(ReceiveStep(w, now, timeout))
  {
    OrderReceive(w, now, timeout);
    var b := w.broker;
    KnownScan(b.messages, 0, b.dlq, PollOf(b, now, timeout), w.deliveries, b.sequence, b.receipts);
  }

  lemma RecordedStep(w: World, op: Op)
    requires Recorded(w)
    ensures Recorded(Step(w, op))
  {
    match op
    case ENQUEUE(id, payload, group) => RecordedEnqueue(w, id, payload, group);
    case RECEIVE(now, timeout) => RecordedReceive(w, now, timeout);
    case ACK(token) => RecordedAck(w, token);
    case NACK(token, now, delay) => RecordedNack(w, token, now, delay);
    case PROCESS(i, idempotent, _) =>
      if i < |w.deliveries| {
        RecordedAck(HandleStep(w, w.deliveries[i].id, idempotent), w.deliveries[i].receipt);
      }
  }

  lemma {:induction false} RecordedRun(w: World, ops: seq<Op>)
    requires Recorded(w)
    ensures Recorded(Run(w, ops)) && w.deliveries <= Run(w, ops).deliveries
  {
    if ops != [] {
      RecordedRun(w, ops[..|ops| - 1]);
      RecordedStep(Run(w, ops[..|ops| - 1]), ops[|ops| - 1]);
      DeliveriesGrow(Run(w, ops[..|ops| - 1]), ops[|ops| - 1]);
    }
  }

  lemma DeliveriesGrow(w: World, op: Op)
    ensures w.deliveries <= Step(w, op).deliveries
  {
  }

  // ---- what follows for every run ----

  /** Each message is delivered at most max times, and a dead letter exactly that often; it is
      dead-lettered with a count of max + 1 and without a receipt. */
  lemma DeliveriesBounded(max: int, strict: bool, ops: seq<Op>, s: nat)
    requires max > 0
    ensures var w := Run(Start(max, strict), ops);
            && Times(w.deliveries, s) <= max
            && forall i | 0 <= i < |w.broker.dlq| ::
                 w.broker.dlq[i].receiveCount == max + 1 && w.broker.dlq[i].receipt == None
                 && Times(w.deliveries, w.broker.dlq[i].sequence) == max
  {
    RecordedRun(Start(max, strict), ops);
    OrderRun(max, strict, ops);
  }

  /** A receipt is accepted only for the message it was handed out with, and only while that delivery is
      the message's latest; no two messages have the same one. */
  lemma OnlyTheLatest(max: int, strict: bool, ops: seq<Op>, token: nat)
    requires max > 0
    ensures var w := Run(Start(max, strict), ops);
            var i := Holder(w.broker.messages, token);
            Holds(w.broker, token) ==>
              && 1 <= token <= |w.deliveries|
              && w.broker.messages[i].sequence == w.deliveries[token - 1].sequence
              && w.deliveries[token - 1].receiveCount == Times(w.deliveries, w.deliveries[token - 1].sequence)
              && forall j | 0 <= j < |w.broker.messages| && j != i :: w.broker.messages[j].receipt != Some(token)
  {
    RecordedRun(Start(max, strict), ops);
    var w := Run(Start(max, strict), ops);
    var i := Holder(w.broker.messages, token);
    if Holds(w.broker, token) {
      assert Linked(w.broker.messages[i], w.deliveries);
      forall j | 0 <= j < |w.broker.messages| && j != i ensures w.broker.messages[j].receipt != Some(token) {
        assert j < i || Apart(w.broker.messages[i], w.broker.messages[j], w.broker.strict);
      }
    }
  }

  predicate Held(messages: seq<Message>, token: nat) {
    exists i :: 0 <= i < |messages| && messages[i].receipt == Some(token)
  }

  lemma {:induction false} ScanHeld(messages: seq<Message>, k: nat, dlq: seq<Message>, p: Poll, token: nat)
    requires k <= |messages| && token != p.token && !Held(messages, token)
    ensures !Held(Scan(messages, k, dlq, p).messages, token)
    decreases |messages| - k
  {
    if k < |messages| {
      if Skipped(messages, messages[k], p) {
        ScanHeld(messages, k + 1, dlq, p, token);
      } else if messages[k].receiveCount + 1 > p.max {
        ScanHeld(Without(messages, k), k, dlq + [Buried(messages[k])], p, token);
      }
    }
  }

  /** A receipt handed out and not held any more. */
  ghost predicate Void(b: BrokerState, token: nat) {
    token <= b.receipts && !Held(b.messages, token)
  }

  lemma VoidAck(w: World, token: nat, t: nat)
    requires Void(w.broker, t)
    ensures Void(AckStep(w, token).broker, t)
  {
  }

  lemma VoidNack(w: World, token: nat, now: int, delay: int, t: nat)
    requires Void(w.broker, t)
    ensures Void(NackStep(w, token, now, delay).broker, t)
  {
  }

  lemma VoidReceive(w: World, now: int, timeout: int, t: nat)
    requires Void(w.broker, t)
    ensures Void(ReceiveStep(w, now, timeout).broker, t)
  {
    ScanHeld(w.broker.messages, 0, w.broker.dlq, PollOf(w.broker, now, timeout), t);
  }

  lemma VoidStep(w: World, op: Op, t: nat)
    requires Void(w.broker, t)
    ensures Void(Step(w, op).broker, t)
  {
    match op
    case ENQUEUE(id, payload, group) =>
    case RECEIVE(now, timeout) => VoidReceive(w, now, timeout, t);
    case ACK(token) => VoidAck(w, token, t);
    case NACK(token, now, delay) => VoidNack(w, token, now, delay, t);
    case PROCESS(i, idempotent, _) =>
      if i < |w.deliveries| {
        VoidAck(HandleStep(w, w.deliveries[i].id, idempotent), w.deliveries[i].receipt, t);
      }
  }

  /** A receipt once void is void forever, whatever happens: no later acknowledgement with it succeeds. */
  lemma {:induction false} VoidForever(w: World, ops: seq<Op>, token: nat)
    requires Void(w.broker, token)
    ensures Void(Run(w, ops).broker, token) && !Holds(Run(w, ops).broker, token)
  {
    if ops != [] {
      VoidForever(w, ops[..|ops| - 1], token);
      VoidStep(Run(w, ops[..|ops| - 1]), ops[|ops| - 1], token);
    }
  }

  /** A receipt acknowledged or refused is void. */
  lemma UsedUp(w: World, op: Op, token: nat)
    requires Recorded(w) && token <= |w.deliveries|
    requires op == ACK(token) || (op.NACK? && op.token == token && op.delay >= 0)
    ensures Void(Step(w, op).broker, token)
  {
  }

  /** A receipt is void from the moment its message is delivered again or dead-lettered. */
  lemma Superseded(max: int, strict: bool, ops: seq<Op>, more: seq<Op>, token: nat)
    requires max > 0 && 1 <= token <= |Run(Start(max, strict), ops).deliveries|
    requires var w := Run(Start(max, strict), ops);
             var v, s := Run(w, more), w.deliveries[token - 1].sequence;
             || Times(v.deliveries, s) > Times(w.deliveries, s)
             || exists j :: 0 <= j < |v.broker.dlq| && v.broker.dlq[j].sequence == s
    ensures Void(Run(Run(Start(max, strict), ops), more).broker, token)
  {
    RecordedRun(Start(max, strict), ops);
    RecordedRun(Run(Start(max, strict), ops), more);
    Outdated(Run(Start(max, strict), ops), Run(Run(Start(max, strict), ops), more), token);
  }

  lemma Outdated(w: World, v: World, token: nat)
    requires Recorded(w) && Recorded(v) && 1 <= token <= |w.deliveries| && w.deliveries <= v.deliveries
    requires var s := w.deliveries[token - 1].sequence;
             || Times(v.deliveries, s) > Times(w.deliveries, s)
             || exists j :: 0 <= j < |v.broker.dlq| && v.broker.dlq[j].sequence == s
    ensures Void(v.broker, token)
  {
  }
}

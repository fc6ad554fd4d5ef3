/**
  Everything that can happen to a broker: any number of enqueues, polls at any time, acknowledgements
  and refusals with any receipt, and consumers that process any delivery handed out so far, at any later
  time, and may crash before they acknowledge it.
 */
module BrokerRuns {
  import opened Results
  import opened BrokerModel

  datatype World = World(
    broker: BrokerState,
    deliveries: seq<Delivery>,    // all deliveries so far
    acked: seq<Message>,          // all messages removed by an acknowledgement
    consumer: ConsumerState,
    handled: seq<Handling>)       // all deliveries the consumer has processed

  datatype Handling = Handling(id: Name, idempotent: bool)

  datatype Op =
    | ENQUEUE(id: Name, payload: Name, group: Name)
    | RECEIVE(now: int, timeout: int)
    | ACK(token: nat)
    | NACK(token: nat, now: int, delay: int)
    | PROCESS(i: nat, idempotent: bool, crash: bool)

  function Start(max: int, strict: bool): World {
    World(BrokerState(max, strict, [], [], 0, 0), [], [], ConsumerState({}, map[]), [])
  }

  function Handed(delivery: Option<Delivery>): seq<Delivery> {
    if delivery.Some? then [delivery.value] else []
  }

  function AckStep(w: World, token: nat): World {
    if Holds(w.broker, token) then
      w.(broker := Ack(w.broker, token), acked := w.acked + [w.broker.messages[Holder(w.broker.messages, token)]])
    else w
  }

  function EnqueueStep(w: World, id: Name, payload: Name, group: Name): World {
    var r := Enqueue(w.broker, id, payload, group);
    if r.Ok? then w.(broker := r.value) else w
  }

  function ReceiveStep(w: World, now: int, timeout: int): World {
    if timeout <= 0 then w
    else
      var s := ScanAll(w.broker, now, timeout);
      w.(broker := AfterScan(w.broker, s), deliveries := w.deliveries + Handed(s.delivery))
  }

  function NackStep(w: World, token: nat, now: int, delay: int): World {
    if delay < 0 then w else w.(broker := Nack(w.broker, token, now, delay))
  }

  /** The consumer's part of processing a delivery. */
  function HandleStep(w: World, id: Name, idempotent: bool): World {
    w.(consumer := w.consumer.Handle(id, idempotent), handled := w.handled + [Handling(id, idempotent)])
  }

  function Step(w: World, op: Op): World {
    match op
    case ENQUEUE(id, payload, group) => EnqueueStep(w, id, payload, group)
    case RECEIVE(now, timeout) => ReceiveStep(w, now, timeout)
    case ACK(token) => AckStep(w, token)
    case NACK(token, now, delay) => NackStep(w, token, now, delay)
    case PROCESS(i, idempotent, crash) =>
      if i >= |w.deliveries| then w
      else
        var handled := HandleStep(w, w.deliveries[i].id, idempotent);
        if crash then handled else AckStep(handled, w.deliveries[i].receipt)
  }

  function Run(w: World, ops: seq<Op>): World {
    if ops == [] then w else Step(Run(w, ops[..|ops| - 1]), ops[|ops| - 1])
  }

  // ---- the queue ----

  /** As enqueued: never delivered, and visible at any time from zero on. */
  predicate Untouched(m: Message) {
    m.receiveCount == 0 && m.receipt == None && m.visibleAt == 0
  }

  predicate Live(m: Message, max: int, sequence: nat, receipts: nat) {
    && m.receiveCount <= max
    && 1 <= m.sequence <= sequence
    && (m.receipt.Some? ==> 1 <= m.receipt.value <= receipts)
  }

  /** A message and a later one. */
  predicate Apart(m: Message, n: Message, strict: bool) {
    && m.sequence < n.sequence
    && m.id != n.id
    && (m.receipt.Some? ==> m.receipt != n.receipt)
    && (strict && m.group == n.group ==> Untouched(n))
  }

  predicate QueueOk(messages: seq<Message>, max: int, strict: bool, sequence: nat, receipts: nat) {
    && (forall i | 0 <= i < |messages| :: Live(messages[i], max, sequence, receipts))
    && (forall i, j | 0 <= i < j < |messages| :: Apart(messages[i], messages[j], strict))
  }

  lemma QueueWithout(messages: seq<Message>, max: int, strict: bool, sequence: nat, receipts: nat, k: nat)
    requires k < |messages| && QueueOk(messages, max, strict, sequence, receipts)
    ensures QueueOk(Without(messages, k), max, strict, sequence, receipts)
  {
  }

  lemma QueueLeased(messages: seq<Message>, k: nat, p: Poll, sequence: nat, receipts: nat)
    requires k < |messages| && QueueOk(messages, p.max, p.strict, sequence, receipts) && p.token == receipts + 1
    requires !Skipped(messages, messages[k], p) && messages[k].receiveCount + 1 <= p.max
    ensures QueueOk(messages[k := Leased(messages[k], p)], p.max, p.strict, sequence, receipts + 1)
  {
  }

  lemma {:induction false} QueueScan(messages: seq<Message>, k: nat, dlq: seq<Message>, p: Poll, sequence: nat, receipts: nat)
    requires k <= |messages| && QueueOk(messages, p.max, p.strict, sequence, receipts) && p.token == receipts + 1
    ensures var s := Scan(messages, k, dlq, p);
            QueueOk(s.messages, p.max, p.strict, sequence, receipts + if s.delivery.Some? then 1 else 0)
    decreases |messages| - k
  {
    if k < |messages| {
      if Skipped(messages, messages[k], p) {
        QueueScan(messages, k + 1, dlq, p, sequence, receipts);
      } else if messages[k].receiveCount + 1 > p.max {
        QueueWithout(messages, p.max, p.strict, sequence, receipts, k);
        QueueScan(Without(messages, k), k, dlq + [Buried(messages[k])], p, sequence, receipts);
      } else {
        QueueLeased(messages, k, p, sequence, receipts);
      }
    }
  }

  /** What keeps the queue in order. */
  predicate InOrder(b: BrokerState) {
    b.max > 0 && QueueOk(b.messages, b.max, b.strict, b.sequence, b.receipts)
  }

  lemma OrderAck(w: World, token: nat)
    requires InOrder(w.broker)
    ensures InOrder(AckStep(w, token).broker)
  {
    if Holds(w.broker, token) {
      QueueWithout(w.broker.messages, w.broker.max, w.broker.strict, w.broker.sequence, w.broker.receipts,
                   Holder(w.broker.messages, token));
    }
  }

  lemma OrderNack(w: World, token: nat, now: int, delay: int)
    requires InOrder(w.broker)
    ensures InOrder(NackStep(w, token, now, delay).broker)
  {
  }

  lemma OrderEnqueue(w: World, id: Name, payload: Name, group: Name)
    requires InOrder(w.broker)
    ensures InOrder(EnqueueStep(w, id, payload, group).broker)
  {
  }

  lemma OrderReceive(w: World, now: int, timeout: int)
    requires InOrder(w.broker)
    ensures InOrder(ReceiveStep(w, now, timeout).broker)
  {
    var b := w.broker;
    QueueScan(b.messages, 0, b.dlq, PollOf(b, now, timeout), b.sequence, b.receipts);
  }

  lemma OrderStep(w: World, op: Op)
    requires InOrder(w.broker)
    ensures InOrder(Step(w, op).broker)
  {
    match op
    case ENQUEUE(id, payload, group) => OrderEnqueue(w, id, payload, group);
    case RECEIVE(now, timeout) => OrderReceive(w, now, timeout);
    case ACK(token) => OrderAck(w, token);
    case NACK(token, now, delay) => OrderNack(w, token, now, delay);
    case PROCESS(i, idempotent, _) =>
      if i < |w.deliveries| {
        OrderAck(HandleStep(w, w.deliveries[i].id, idempotent), w.deliveries[i].receipt);
      }
  }

  lemma SettingsStep(w: World, op: Op)
    ensures Step(w, op).broker.max == w.broker.max && Step(w, op).broker.strict == w.broker.strict
  {
  }

  lemma {:induction false} OrderRun(max: int, strict: bool, ops: seq<Op>)
    requires max > 0
    ensures var w := Run(Start(max, strict), ops);
            InOrder(w.broker) && w.broker.max == max && w.broker.strict == strict
  {
    if ops != [] {
      OrderRun(max, strict, ops[..|ops| - 1]);
      OrderStep(Run(Start(max, strict), ops[..|ops| - 1]), ops[|ops| - 1]);
      SettingsStep(Run(Start(max, strict), ops[..|ops| - 1]), ops[|ops| - 1]);
    }
  }
}

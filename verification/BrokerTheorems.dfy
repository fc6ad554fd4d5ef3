/** What the broker and the consumer guarantee in every run. */
module BrokerTheorems {
  import opened Counting
  import opened Results
  import opened BrokerModel
  import opened BrokerRuns

  // ---- adding up messages ----

  /** What messages are added up by: how many have a sequence number, or how many more polls they last. */
  datatype Measure = Numbered(sequence: nat) | Room(max: int)

  function Weight(m: Message, key: Measure): nat {
    match key
    case Numbered(s) => if m.sequence == s then 1 else 0
    case Room(max) => if m.receiveCount <= max then max + 1 - m.receiveCount else 0
  }

  function Total(messages: seq<Message>, key: Measure): nat {
    if messages == [] then 0 else Total(messages[..|messages| - 1], key) + Weight(messages[|messages| - 1], key)
  }

  lemma TotalAppend(messages: seq<Message>, m: Message, key: Measure)
    ensures Total(messages + [m], key) == Total(messages, key) + Weight(m, key)
  {
  }

  lemma {:induction false} TotalUpdate(messages: seq<Message>, k: nat, m: Message, key: Measure)
    requires k < |messages|
    ensures Total(messages[k := m], key) + Weight(messages[k], key) == Total(messages, key) + Weight(m, key)
  {
    var last := |messages| - 1;
    if k < last {
      TotalUpdate(messages[..last], k, m, key);
      assert messages[k := m][..last] == messages[..last][k := m];
    } else {
      assert messages[k := m][..last] == messages[..last];
    }
  }

  lemma {:induction false} TotalWithout(messages: seq<Message>, k: nat, key: Measure)
    requires k < |messages|
    ensures Total(Without(messages, k), key) + Weight(messages[k], key) == Total(messages, key)
  {
    var last := |messages| - 1;
    if k < last {
      TotalWithout(messages[..last], k, key);
      TotalAppend(Without(messages[..last], k), messages[last], key);
      assert Without(messages, k) == Without(messages[..last], k) + [messages[last]];
    } else {
      assert Without(messages, k) == messages[..last];
    }
  }

  // ---- conservation ----

  /** How often a sequence number occurs in the queue, among the dead letters and among the acknowledged. */
  function Occurrences(w: World, s: nat): nat {
    Total(w.broker.messages, Numbered(s)) + Total(w.broker.dlq, Numbered(s)) + Total(w.acked, Numbered(s))
  }

  /** Sequence numbers 1 to n occur once, others never. */
  ghost predicate Split(w: World, s: nat) {
    Occurrences(w, s) == if 1 <= s <= w.broker.sequence then 1 else 0
  }

  lemma {:induction false} ScanConserves(messages: seq<Message>, k: nat, dlq: seq<Message>, p: Poll, s: nat)
    requires k <= |messages|
    ensures var r := Scan(messages, k, dlq, p);
            Total(r.messages, Numbered(s)) + Total(r.dlq, Numbered(s))
              == Total(messages, Numbered(s)) + Total(dlq, Numbered(s))
    decreases |messages| - k
  {
    if k < |messages| {
      var m := messages[k];
      if Skipped(messages, m, p) {
        ScanConserves(messages, k + 1, dlq, p, s);
      } else if m.receiveCount + 1 > p.max {
        TotalWithout(messages, k, Numbered(s));
        TotalAppend(dlq, Buried(m), Numbered(s));
        ScanConserves(Without(messages, k), k, dlq + [Buried(m)], p, s);
      } else {
        TotalUpdate(messages, k, Leased(m, p), Numbered(s));
      }
    }
  }

  lemma SplitAck(w: World, token: nat, s: nat)
    requires Split(w, s)
    ensures Split(AckStep(w, token), s)
  {
    if Holds(w.broker, token) {
      var i := Holder(w.broker.messages, token);
      TotalWithout(w.broker.messages, i, Numbered(s));
      TotalAppend(w.acked, w.broker.messages[i], Numbered(s));
    }
  }

  lemma SplitNack(w: World, token: nat, now: int, delay: int, s: nat)
    requires Split(w, s)
    ensures Split(NackStep(w, token, now, delay), s)
  {
    if Holds(w.broker, token) {
      var i := Holder(w.broker.messages, token);
      TotalUpdate(w.broker.messages, i, w.broker.messages[i].(receipt := None, visibleAt := now + delay), Numbered(s));
    }
  }

  lemma SplitEnqueue(w: World, id: Name, payload: Name, group: Name, s: nat)
    requires Split(w, s)
    ensures Split(EnqueueStep(w, id, payload, group), s)
  {
  }

  lemma SplitReceive(w: World, now: int, timeout: int, s: nat)
    requires Split(w, s)
    ensures Split(ReceiveStep(w, now, timeout), s)
  {
    ScanConserves(w.broker.messages, 0, w.broker.dlq, PollOf(w.broker, now, timeout), s);
  }

  lemma SplitStep(w: World, op: Op, s: nat)
    requires Split(w, s)
    ensures Split(Step(w, op), s)
  {
    match op
    case ENQUEUE(id, payload, group) => SplitEnqueue(w, id, payload, group, s);
    case RECEIVE(now, timeout) => SplitReceive(w, now, timeout, s);
    case ACK(token) => SplitAck(w, token, s);
    case NACK(token, now, delay) => SplitNack(w, token, now, delay, s);
    case PROCESS(i, idempotent, _) =>
      if i < |w.deliveries| {
        SplitAck(HandleStep(w, w.deliveries[i].id, idempotent), w.deliveries[i].receipt, s);
      }
  }

  /** In every run, sequence numbers 1 to n are split between the queue, the dead letters and the
      acknowledged messages, each in exactly one of them and once. */
  lemma {:induction false} Conservation(max: int, strict: bool, ops: seq<Op>, s: nat)
    ensures var w := Run(Start(max, strict), ops);
            Occurrences(w, s) == if 1 <= s <= w.broker.sequence then 1 else 0
  {
    if ops != [] {
      Conservation(max, strict, ops[..|ops| - 1], s);
      SplitStep(Run(Start(max, strict), ops[..|ops| - 1]), ops[|ops| - 1], s);
    }
  }

  // ---- poison traffic drains ----

  lemma {:induction false} ScanDrains(messages: seq<Message>, k: nat, dlq: seq<Message>, p: Poll)
    requires k <= |messages| && p.max > 0 && forall i | 0 <= i < |messages| :: messages[i].receiveCount <= p.max
    ensures var r := Scan(messages, k, dlq, p);
            Total(r.messages, Room(p.max)) + |r.dlq| + |Handed(r.delivery)| == Total(messages, Room(p.max)) + |dlq|
    decreases |messages| - k
  {
    if k < |messages| {
      var m := messages[k];
      if Skipped(messages, m, p) {
        ScanDrains(messages, k + 1, dlq, p);
      } else if m.receiveCount + 1 > p.max {
        TotalWithout(messages, k, Room(p.max));
        ScanDrains(Without(messages, k), k, dlq + [Buried(m)], p);
      } else {
        TotalUpdate(messages, k, Leased(m, p), Room(p.max));
      }
    }
  }

  /** Deliveries and dead letters so far, and those the messages in the queue may still cause. */
  function Spent(w: World): nat {
    |w.deliveries| + |w.broker.dlq| + Total(w.broker.messages, Room(w.broker.max))
  }

  ghost predicate Drains(w: World) {
    InOrder(w.broker) && Spent(w) <= Span(w.broker.sequence, w.broker.max + 1)
  }

  lemma DrainsAck(w: World, token: nat)
    requires Drains(w)
    ensures Drains(AckStep(w, token))
  {
    OrderAck(w, token);
    if Holds(w.broker, token) {
      TotalWithout(w.broker.messages, Holder(w.broker.messages, token), Room(w.broker.max));
    }
  }

  lemma DrainsNack(w: World, token: nat, now: int, delay: int)
    requires Drains(w)
    ensures Drains(NackStep(w, token, now, delay))
  {
    OrderNack(w, token, now, delay);
    if Holds(w.broker, token) {
      var i := Holder(w.broker.messages, token);
      TotalUpdate(w.broker.messages, i, w.broker.messages[i].(receipt := None, visibleAt := now + delay), Room(w.broker.max));
    }
  }

  lemma DrainsEnqueue(w: World, id: Name, payload: Name, group: Name)
    requires Drains(w)
    ensures Drains(EnqueueStep(w, id, payload, group))
  {
    OrderEnqueue(w, id, payload, group);
    TotalAppend(w.broker.messages, Message(id, payload, group, w.broker.sequence + 1, 0, 0, None), Room(w.broker.max));
  }

  /** A poll uses up what it takes: one unit for every message it delivers or dead-letters. */
  lemma DrainsReceive(w: World, now: int, timeout: int)
    requires InOrder(w.broker)
    ensures Spent(ReceiveStep(w, now, timeout)) == Spent(w)
    ensures Drains(w) ==> Drains(ReceiveStep(w, now, timeout))
  {
    OrderReceive(w, now, timeout);
    ScanDrains(w.broker.messages, 0, w.broker.dlq, PollOf(w.broker, now, timeout));
  }

  lemma DrainsStep(w: World, op: Op)
    requires Drains(w)
    ensures Drains(Step(w, op))
  {
    match op
    case ENQUEUE(id, payload, group) => DrainsEnqueue(w, id, payload, group);
    case RECEIVE(now, timeout) => DrainsReceive(w, now, timeout);
    case ACK(token) => DrainsAck(w, token);
    case NACK(token, now, delay) => DrainsNack(w, token, now, delay);
    case PROCESS(i, idempotent, _) =>
      if i < |w.deliveries| {
        DrainsAck(HandleStep(w, w.deliveries[i].id, idempotent), w.deliveries[i].receipt);
      }
  }

  lemma {:induction false} DrainsRun(w: World, ops: seq<Op>)
    requires Drains(w)
    ensures Drains(Run(w, ops)) && Run(w, ops).broker.max == w.broker.max
  {
    if ops != [] {
      DrainsRun(w, ops[..|ops| - 1]);
      DrainsStep(Run(w, ops[..|ops| - 1]), ops[|ops| - 1]);
      SettingsStep(Run(w, ops[..|ops| - 1]), ops[|ops| - 1]);
    }
  }

  /** Poison messages cannot keep the broker busy: n enqueued messages cause at most n * (max + 1)
      deliveries and dead letters together, and those still in the queue have the rest to come. */
  lemma TrafficDrains(max: int, strict: bool, ops: seq<Op>)
    requires max > 0
    ensures var w := Run(Start(max, strict), ops);
            |w.deliveries| + |w.broker.dlq| + Total(w.broker.messages, Room(max)) <= w.broker.sequence * (max + 1)
  {
    DrainsRun(Start(max, strict), ops);
    SpanIsProduct(Run(Start(max, strict), ops).broker.sequence, max + 1);
  }
}

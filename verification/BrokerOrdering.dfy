/** Strict ordering within groups in every run, and the effects of the consumer. */
module BrokerOrdering {
  import opened BrokerModel
  import opened BrokerRuns
  import opened BrokerReceipts

  // ---- what a scan looks at ----

  lemma SkippedWithout(messages: seq<Message>, k: nat, i: nat, p: Poll, sequence: nat, receipts: nat)
    requires i < k < |messages| && QueueOk(messages, p.max, p.strict, sequence, receipts)
    requires Skipped(messages, messages[i], p)
    ensures Skipped(Without(messages, k), messages[i], p)
  {
    if messages[i].visibleAt <= p.now {
      var j :| 0 <= j < |messages| && messages[j].group == messages[i].group && messages[j].sequence < messages[i].sequence;
      assert j < i || Apart(messages[i], messages[j], p.strict);
      assert Without(messages, k)[j] == messages[j];
    }
  }

  /** A scan would leave every message alone. */
  predicate NoneAvailable(messages: seq<Message>, p: Poll) {
    forall i | 0 <= i < |messages| :: Skipped(messages, messages[i], p)
  }

  lemma {:induction false} ScanNone(messages: seq<Message>, k: nat, dlq: seq<Message>, p: Poll, sequence: nat, receipts: nat)
    requires k <= |messages| && QueueOk(messages, p.max, p.strict, sequence, receipts)
    requires forall i | 0 <= i < k :: Skipped(messages, messages[i], p)
    ensures var s := Scan(messages, k, dlq, p);
            s.delivery.None? ==> NoneAvailable(s.messages, p)
    decreases |messages| - k
  {
    if k < |messages| {
      if Skipped(messages, messages[k], p) {
        ScanNone(messages, k + 1, dlq, p, sequence, receipts);
      } else if messages[k].receiveCount + 1 > p.max {
        forall i | 0 <= i < k ensures Skipped(Without(messages, k), Without(messages, k)[i], p) {
          SkippedWithout(messages, k, i, p, sequence, receipts);
        }
        QueueWithout(messages, p.max, p.strict, sequence, receipts, k);
        ScanNone(Without(messages, k), k, dlq + [Buried(messages[k])], p, sequence, receipts);
      }
    }
  }

  /** No delivery means nothing can be delivered: every message is leased or delayed, or, under strict
      ordering, behind another of its group; in particular every head of a group is invisible. */
  lemma NothingToDeliver(w: World, now: int, timeout: int)
    requires InOrder(w.broker) && timeout > 0 && ReceiveStep(w, now, timeout).deliveries == w.deliveries
    ensures var v := ReceiveStep(w, now, timeout).broker;
            forall i | 0 <= i < |v.messages| ::
              v.messages[i].visibleAt > now || (v.strict && Blocked(v.messages, v.messages[i]))
  {
    var b := w.broker;
    ScanNone(b.messages, 0, b.dlq, PollOf(b, now, timeout), b.sequence, b.receipts);
  }

  // ---- strict ordering ----

  /** No message of a group is behind a delivery of the group. */
  ghost predicate InFront(messages: seq<Message>, deliveries: seq<Delivery>) {
    forall i, j | 0 <= i < |messages| && 0 <= j < |deliveries| ::
      messages[i].group == deliveries[j].group ==> deliveries[j].sequence <= messages[i].sequence
  }

  ghost predicate Climbing(deliveries: seq<Delivery>) {
    forall i, j | 0 <= i < j < |deliveries| ::
      deliveries[i].group == deliveries[j].group ==> deliveries[i].sequence <= deliveries[j].sequence
  }

  lemma {:induction false} ScanInFront(messages: seq<Message>, k: nat, dlq: seq<Message>, p: Poll, deliveries: seq<Delivery>)
    requires k <= |messages| && p.strict && InFront(messages, deliveries) && Climbing(deliveries)
    ensures var s := Scan(messages, k, dlq, p);
            InFront(s.messages, deliveries + Handed(s.delivery)) && Climbing(deliveries + Handed(s.delivery))
    decreases |messages| - k
  {
    if k < |messages| {
      if Skipped(messages, messages[k], p) {
        ScanInFront(messages, k + 1, dlq, p, deliveries);
      } else if messages[k].receiveCount + 1 > p.max {
        ScanInFront(Without(messages, k), k, dlq + [Buried(messages[k])], p, deliveries);
      } else {
        LeasedInFront(messages, k, p, deliveries);
      }
    }
  }

  lemma LeasedInFront(messages: seq<Message>, k: nat, p: Poll, deliveries: seq<Delivery>)
    requires k < |messages| && !Blocked(messages, messages[k]) && InFront(messages, deliveries) && Climbing(deliveries)
    ensures InFront(messages[k := Leased(messages[k], p)], deliveries + [DeliveryOf(messages[k], p)])
    ensures Climbing(deliveries + [DeliveryOf(messages[k], p)])
  {
  }

  ghost predicate Grouped(w: World) {
    Recorded(w) && w.broker.strict && InFront(w.broker.messages, w.deliveries) && Climbing(w.deliveries)
  }

  lemma GroupedAck(w: World, token: nat)
    requires Grouped(w)
    ensures Grouped(AckStep(w, token))
  {
  }

  lemma GroupedNack(w: World, token: nat, now: int, delay: int)
    requires Grouped(w)
    ensures Grouped(NackStep(w, token, now, delay))
  {
  }

  lemma GroupedEnqueue(w: World, id: Name, payload: Name, group: Name)
    requires Grouped(w)
    ensures Grouped(EnqueueStep(w, id, payload, group))
  {
    RecordedEnqueue(w, id, payload, group);
  }

  lemma GroupedReceive(w: World, now: int, timeout: int)
    requires Grouped(w)
    ensures Grouped(ReceiveStep(w, now, timeout))
  {
    RecordedReceive(w, now, timeout);
    ScanInFront(w.broker.messages, 0, w.broker.dlq, PollOf(w.broker, now, timeout), w.deliveries);
  }

  lemma GroupedStep(w: World, op: Op)
    requires Grouped(w)
    ensures Grouped(Step(w, op))
  {
    match op
    case ENQUEUE(id, payload, group) => GroupedEnqueue(w, id, payload, group);
    case RECEIVE(now, timeout) => GroupedReceive(w, now, timeout);
    case ACK(token) => GroupedAck(w, token);
    case NACK(token, now, delay) => GroupedNack(w, token, now, delay);
    case PROCESS(i, idempotent, _) =>
      if i < |w.deliveries| {
        GroupedAck(HandleStep(w, w.deliveries[i].id, idempotent), w.deliveries[i].receipt);
      }
  }

  lemma {:induction false} GroupedRun(max: int, ops: seq<Op>)
    requires max > 0
    ensures Grouped(Run(Start(max, true), ops))
  {
    if ops != [] {
      GroupedRun(max, ops[..|ops| - 1]);
      GroupedStep(Run(Start(max, true), ops[..|ops| - 1]), ops[|ops| - 1]);
    }
  }

  /** Under strict ordering the deliveries of a group never go back: a later one is of the same message
      or of one enqueued later. */
  lemma GroupsInOrder(max: int, ops: seq<Op>, i: nat, j: nat)
    requires max > 0
    requires i < j < |Run(Start(max, true), ops).deliveries|
    requires var d := Run(Start(max, true), ops).deliveries; d[i].group == d[j].group
    ensures var d := Run(Start(max, true), ops).deliveries; d[i].sequence <= d[j].sequence
  {
    GroupedRun(max, ops);
  }

  /** What is delivered is at that moment the first of its group, even if the same poll has just
      dead-lettered the one before it. */
  lemma HeadDelivered(max: int, ops: seq<Op>, now: int, timeout: int, i: nat)
    requires max > 0
    requires var v := Run(Start(max, true), ops + [RECEIVE(now, timeout)]);
             && |v.deliveries| > |Run(Start(max, true), ops).deliveries|
             && i < |v.broker.messages| && v.broker.messages[i].group == v.deliveries[|v.deliveries| - 1].group
    ensures var v := Run(Start(max, true), ops + [RECEIVE(now, timeout)]);
            v.deliveries[|v.deliveries| - 1].sequence <= v.broker.messages[i].sequence
  {
    GroupedRun(max, ops + [RECEIVE(now, timeout)]);
  }

  /** Only the first message of a group can be in flight: those behind it are as they were enqueued. */
  lemma OneInFlight(max: int, ops: seq<Op>, i: nat, j: nat)
    requires max > 0 && i < j < |Run(Start(max, true), ops).broker.messages|
    requires var m := Run(Start(max, true), ops).broker.messages; m[i].group == m[j].group
    ensures var m := Run(Start(max, true), ops).broker.messages; Untouched(m[j]) && m[i].sequence < m[j].sequence
  {
    GroupedRun(max, ops);
    var w := Run(Start(max, true), ops);
    assert Apart(w.broker.messages[i], w.broker.messages[j], true);
  }

  // ---- effects ----

  /** Deliveries of an id processed without deduplication. */
  function Plain(handled: seq<Handling>, id: Name): nat {
    if handled == [] then 0
    else
      var last := handled[|handled| - 1];
      Plain(handled[..|handled| - 1], id) + if last.id == id && !last.idempotent then 1 else 0
  }

  predicate Deduplicated(handled: seq<Handling>, id: Name) {
    exists i :: 0 <= i < |handled| && handled[i].id == id && handled[i].idempotent
  }

  ghost predicate Exact(w: World, id: Name) {
    && (id in w.consumer.inbox <==> Deduplicated(w.handled, id))
    && w.consumer.Effects(id) == Plain(w.handled, id) + if id in w.consumer.inbox then 1 else 0
  }

  lemma HandledMore(handled: seq<Handling>, last: Handling, id: Name)
    ensures Plain(handled + [last], id) == Plain(handled, id) + if last.id == id && !last.idempotent then 1 else 0
    ensures Deduplicated(handled + [last], id) <==> Deduplicated(handled, id) || (last.id == id && last.idempotent)
  {
    var all := handled + [last];
    assert all[..|handled|] == handled && all[|handled|] == last;
    assert forall i | 0 <= i < |handled| :: all[i] == handled[i];
  }

  lemma ExactHandle(w: World, handled: Name, idempotent: bool, id: Name)
    requires Exact(w, id)
    ensures Exact(HandleStep(w, handled, idempotent), id)
  {
    HandledMore(w.handled, Handling(handled, idempotent), id);
  }

  lemma ExactStep(w: World, op: Op, id: Name)
    requires Exact(w, id)
    ensures Exact(Step(w, op), id)
  {
    if op.PROCESS? && op.i < |w.deliveries| {
      ExactHandle(w, w.deliveries[op.i].id, op.idempotent, id);
    } else {
      OthersHandleNothing(w, op);
    }
  }

  lemma OthersHandleNothing(w: World, op: Op)
    requires op.PROCESS? ==> op.i >= |w.deliveries|
    ensures Step(w, op).consumer == w.consumer && Step(w, op).handled == w.handled
  {
  }

  /** The effects on an id, in every run: one for each time it was processed without deduplication, and
      one more if it was ever processed with it. So a consumer that is always idempotent has exactly one
      side effect per id it has processed, however often it crashed or was too late to acknowledge. */
  lemma {:induction false} EffectsExact(w: World, ops: seq<Op>, id: Name)
    requires Exact(w, id)
    ensures var v := Run(w, ops);
            && (id in v.consumer.inbox <==> Deduplicated(v.handled, id))
            && v.consumer.Effects(id) == Plain(v.handled, id) + if Deduplicated(v.handled, id) then 1 else 0
  {
    if ops != [] {
      var u, op := Run(w, ops[..|ops| - 1]), ops[|ops| - 1];
      EffectsExact(w, ops[..|ops| - 1], id);
      ExactStep(u, op, id);
    }
  }

  lemma {:induction false} NonePlain(handled: seq<Handling>, id: Name)
    requires forall i | 0 <= i < |handled| :: handled[i].idempotent
    ensures Plain(handled, id) == 0
  {
    if handled != [] {
      NonePlain(handled[..|handled| - 1], id);
    }
  }

  predicate Processed(handled: seq<Handling>, id: Name) {
    exists i :: 0 <= i < |handled| && handled[i].id == id
  }

  lemma ExactlyOnce(max: int, strict: bool, ops: seq<Op>, id: Name)
    requires var v := Run(Start(max, strict), ops); forall i | 0 <= i < |v.handled| :: v.handled[i].idempotent
    ensures var v := Run(Start(max, strict), ops);
            v.consumer.Effects(id) == if Processed(v.handled, id) then 1 else 0
  {
    EffectsExact(Start(max, strict), ops, id);
    NonePlain(Run(Start(max, strict), ops).handled, id);
  }
}

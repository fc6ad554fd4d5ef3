/** A queue that nobody acknowledges empties itself into the dead-letter queue. */
module BrokerDraining {
  import opened BrokerModel
  import opened BrokerRuns
  import opened BrokerTheorems
  import opened BrokerOrdering

  /** Every lease and every delay is over. */
  predicate AllVisible(messages: seq<Message>, now: int) {
    forall i | 0 <= i < |messages| :: messages[i].visibleAt <= now
  }

  /** A scan moves messages to the dead-letter queue; without a delivery it does nothing else. */
  lemma {:induction false} ScanMoves(messages: seq<Message>, k: nat, dlq: seq<Message>, p: Poll)
    requires k <= |messages|
    ensures var s := Scan(messages, k, dlq, p);
            && |s.messages| + |s.dlq| == |messages| + |dlq| && |s.dlq| >= |dlq|
            && (s.delivery.None? && AllVisible(messages, p.now) ==> AllVisible(s.messages, p.now))
    decreases |messages| - k
  {
    if k < |messages| {
      if Skipped(messages, messages[k], p) {
        ScanMoves(messages, k + 1, dlq, p);
      } else if messages[k].receiveCount + 1 > p.max {
        ScanMoves(Without(messages, k), k, dlq + [Buried(messages[k])], p);
      }
    }
  }

  lemma RoomPositive(messages: seq<Message>, max: int)
    requires messages != [] && forall i | 0 <= i < |messages| :: messages[i].receiveCount <= max
    ensures Total(messages, Room(max)) > 0
  {
  }

  lemma HeadFree(messages: seq<Message>, p: Poll, sequence: nat, receipts: nat)
    requires QueueOk(messages, p.max, p.strict, sequence, receipts) && NoneAvailable(messages, p)
    ensures AllVisible(messages, p.now) ==> messages == []
  {
    if messages != [] {
      assert forall i | 0 < i < |messages| :: Apart(messages[0], messages[i], p.strict);
      assert Skipped(messages, messages[0], p);
    }
  }

  /** A poll past every lease delivers something, or empties the queue. */
  lemma PollWorks(w: World, now: int, timeout: int)
    requires InOrder(w.broker) && timeout > 0 && AllVisible(w.broker.messages, now)
    ensures var w' := ReceiveStep(w, now, timeout);
            && InOrder(w'.broker) && w'.broker.max == w.broker.max
            && |w'.broker.messages| + |w'.broker.dlq| == |w.broker.messages| + |w.broker.dlq|
            && Spent(w') == Spent(w)
            && (w.broker.messages != [] ==>
                  Total(w'.broker.messages, Room(w.broker.max)) < Total(w.broker.messages, Room(w.broker.max)))
  {
    var b, p := w.broker, PollOf(w.broker, now, timeout);
    var s := ScanAll(b, now, timeout);
    OrderReceive(w, now, timeout);
    DrainsReceive(w, now, timeout);
    ScanMoves(b.messages, 0, b.dlq, p);
    ScanNone(b.messages, 0, b.dlq, p, b.sequence, b.receipts);
    if b.messages != [] && s.delivery.None? {
      HeadFree(s.messages, p, b.sequence, b.receipts);
      RoomPositive(b.messages, b.max);
    }
  }

  /** Polls only, each past every lease there is by then. */
  ghost predicate Patient(w: World, ops: seq<Op>) {
    forall k | 0 <= k < |ops| ::
      ops[k].RECEIVE? && ops[k].timeout > 0 && AllVisible(Run(w, ops[..k]).broker.messages, ops[k].now)
  }

  lemma PatientBefore(w: World, ops: seq<Op>)
    requires ops != [] && Patient(w, ops)
    ensures Patient(w, ops[..|ops| - 1])
  {
    var init := ops[..|ops| - 1];
    forall k | 0 <= k < |init|
      ensures init[k].RECEIVE? && init[k].timeout > 0 && AllVisible(Run(w, init[..k]).broker.messages, init[k].now)
    {
      assert init[..k] == ops[..k];
    }
  }

  lemma {:induction false} PollsWork(w: World, ops: seq<Op>)
    requires InOrder(w.broker) && Patient(w, ops)
    ensures var w' := Run(w, ops);
            && InOrder(w'.broker) && w'.broker.max == w.broker.max
            && |w'.broker.messages| + |w'.broker.dlq| == |w.broker.messages| + |w.broker.dlq|
            && Spent(w') == Spent(w)
            && (w'.broker.messages == [] ||
                  Total(w'.broker.messages, Room(w.broker.max)) + |ops| <= Total(w.broker.messages, Room(w.broker.max)))
  {
    if ops != [] {
      var op := ops[|ops| - 1];
      PatientBefore(w, ops);
      PollsWork(w, ops[..|ops| - 1]);
      PollWorks(Run(w, ops[..|ops| - 1]), op.now, op.timeout);
    }
  }

  /** After any run, as many polls past every lease as the messages in the queue have deliveries left and
      one more each empty the queue, and all of it is then in the dead-letter queue, delivered max times. */
  lemma Drained(max: int, strict: bool, before: seq<Op>, polls: seq<Op>)
    requires max > 0
    requires var w := Run(Start(max, strict), before);
             Patient(w, polls) && |polls| >= Total(w.broker.messages, Room(max))
    ensures var w := Run(Start(max, strict), before);
            var w' := Run(w, polls);
            && w'.broker.messages == [] && |w'.broker.dlq| == |w.broker.dlq| + |w.broker.messages|
            && |w'.deliveries| + |w.broker.messages| == |w.deliveries| + Total(w.broker.messages, Room(max))
  {
    var w := Run(Start(max, strict), before);
    OrderRun(max, strict, before);
    PollsWork(w, polls);
    if Run(w, polls).broker.messages != [] {
      RoomPositive(Run(w, polls).broker.messages, max);
    }
  }
}

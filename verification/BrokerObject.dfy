/** The broker and the consumer as objects, each method proved to be the step of BrokerModel. */
module BrokerObject {
  import opened Results
  import opened BrokerModel

  class Broker {
    const max: int
    const strict: bool
    var messages: seq<Message>
    var dlq: seq<Message>
    var sequence: nat
    var receipts: nat

    ghost function State(): BrokerState
      reads this
    {
      BrokerState(max, strict, messages, dlq, sequence, receipts)
    }

    static method Create(max: int, strict: bool) returns (r: Result<Broker>)
      ensures r.Err? <==> max <= 0
      ensures r.Err? ==> r.error == ValueError
      ensures r.Ok? ==> fresh(r.value) && r.value.State() == BrokerState(max, strict, [], [], 0, 0)
    {
      if max <= 0 {
        return Err(ValueError);
      }
      var broker := new Broker(max, strict);
      return Ok(broker);
    }

    constructor (max: int, strict: bool)
      ensures State() == BrokerState(max, strict, [], [], 0, 0)
    {
      this.max, this.strict := max, strict;
      messages, dlq, sequence, receipts := [], [], 0, 0;
    }

    method Enqueue(id: Name, payload: Name, group: Name) returns (r: Result<()>)
      modifies this
      ensures match BrokerModel.Enqueue(old(State()), id, payload, group)
              case Ok(next) => r.Ok? && State() == next
              case Err(error) => r == Err(error) && State() == old(State())
    {
      for i := 0 to |messages|
        invariant State() == old(State())
        invariant forall j | 0 <= j < i :: messages[j].id != id
      {
        if messages[i].id == id {
          return Err(ValueError);
        }
      }
      sequence := sequence + 1;
      messages := messages + [Message(id, payload, group, sequence, 0, 0, None)];
      return Ok(());
    }

    method IsBlocked(candidate: Message) returns (r: bool)
      ensures r == Blocked(messages, candidate)
    {
      for i := 0 to |messages|
        invariant forall j | 0 <= j < i ::
                    !(messages[j].group == candidate.group && messages[j].sequence < candidate.sequence)
      {
        if messages[i].group == candidate.group && messages[i].sequence < candidate.sequence {
          return true;
        }
      }
      return false;
    }

    /** One pass over a snapshot of the messages; k of those seen so far are still in the queue. */
    method Receive(now: int, timeout: int) returns (r: Result<Option<Delivery>>)
      modifies this
      ensures timeout <= 0 ==> r == Err(ValueError) && State() == old(State())
      ensures timeout > 0 ==>
                var s := ScanAll(old(State()), now, timeout);
                r == Ok(s.delivery) && State() == AfterScan(old(State()), s)
    {
      if timeout <= 0 {
        return Err(ValueError);
      }
      ghost var p := PollOf(State(), now, timeout);
      var snapshot, k := messages, 0;
      for i := 0 to |snapshot|
        invariant k <= |messages| && messages[k..] == snapshot[i..]
        invariant sequence == old(sequence) && receipts == old(receipts)
        invariant Scan(messages, k, dlq, p) == ScanAll(old(State()), now, timeout)
      {
        var message := snapshot[i];
        assert message == messages[k..][0] == messages[k];
        assert messages[k + 1..] == messages[k..][1..] == snapshot[i..][1..] == snapshot[i + 1..];
        if message.visibleAt > now {
          k := k + 1;
          continue;
        }
        var blocked := false;
        if strict {
          blocked := IsBlocked(message);
        }
        if blocked {
          k := k + 1;
          continue;
        }
        message := message.(receiveCount := message.receiveCount + 1);
        if message.receiveCount > max {
          messages := Without(messages, k);
          dlq := dlq + [message.(receipt := None)];
          continue;
        }
        receipts := receipts + 1;
        message := message.(receipt := Some(receipts), visibleAt := now + timeout);
        messages := messages[k := message];
        return Ok(Some(Delivery(message.id, message.payload, message.group, message.sequence,
                                message.receiveCount, receipts, message.visibleAt)));
      }
      return Ok(None);
    }

    method Ack(token: nat) returns (found: bool)
      modifies this`messages
      ensures found == Holds(old(State()), token)
      ensures State() == BrokerModel.Ack(old(State()), token)
    {
      for i := 0 to |messages|
        invariant messages == old(messages)
        invariant forall j | 0 <= j < i :: messages[j].receipt != Some(token)
      {
        if messages[i].receipt == Some(token) {
          messages := Without(messages, i);
          return true;
        }
      }
      return false;
    }

    method Nack(token: nat, now: int, delay: int) returns (r: Result<bool>)
      modifies this`messages
      ensures delay < 0 ==> r == Err(ValueError) && State() == old(State())
      ensures delay >= 0 ==>
                r == Ok(Holds(old(State()), token)) && State() == BrokerModel.Nack(old(State()), token, now, delay)
    {
      if delay < 0 {
        return Err(ValueError);
      }
      for i := 0 to |messages|
        invariant messages == old(messages)
        invariant forall j | 0 <= j < i :: messages[j].receipt != Some(token)
      {
        if messages[i].receipt == Some(token) {
          messages := messages[i := messages[i].(receipt := None, visibleAt := now + delay)];
          return Ok(true);
        }
      }
      return Ok(false);
    }
  }

  datatype ProcessResult = ProcessResult(
    id: Name, duplicate: bool, sideEffects: nat, acknowledged: bool, crashedBeforeAck: bool)

  class Consumer {
    var inbox: set<Name>
    var effects: map<Name, nat>

    ghost function State(): ConsumerState
      reads this
    {
      ConsumerState(inbox, effects)
    }

    constructor ()
      ensures State() == ConsumerState({}, map[])
    {
      inbox, effects := {}, map[];
    }

    /** Handle a delivery and, unless the consumer crashes first, acknowledge it. */
    method Process(broker: Broker, delivery: Delivery, idempotent: bool, crashBeforeAck: bool)
      returns (r: ProcessResult)
      modifies this, broker`messages
      ensures State() == old(State()).Handle(delivery.id, idempotent)
      ensures broker.State() == if crashBeforeAck then old(broker.State())
                                else BrokerModel.Ack(old(broker.State()), delivery.receipt)
      ensures r == ProcessResult(delivery.id, delivery.id in old(inbox), State().Effects(delivery.id),
                                 !crashBeforeAck && Holds(old(broker.State()), delivery.receipt), crashBeforeAck)
    {
      var duplicate := delivery.id in inbox;
      if idempotent {
        if !duplicate {
          inbox := inbox + {delivery.id};
          effects := effects[delivery.id := (if delivery.id in effects then effects[delivery.id] else 0) + 1];
        }
      } else {
        effects := effects[delivery.id := (if delivery.id in effects then effects[delivery.id] else 0) + 1];
      }
      var acknowledged := false;
      if !crashBeforeAck {
        acknowledged := broker.Ack(delivery.receipt);
      }
      return ProcessResult(delivery.id, duplicate, if delivery.id in effects then effects[delivery.id] else 0,
                           acknowledged, crashBeforeAck);
    }
  }
}

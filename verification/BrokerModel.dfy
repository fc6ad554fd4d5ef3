/**
  A queue broker with leases, receipt tokens, a dead-letter queue and, on request, strict ordering
  within message groups; and a consumer that may be idempotent.
 */
module BrokerModel {
  import opened Results

  /** Ids, payloads and groups are compared, nothing else: an integer stands for a string. */
  type Name = int

  datatype Message = Message(
    id: Name, payload: Name, group: Name, sequence: nat, receiveCount: nat, visibleAt: int, receipt: Option<nat>)

  datatype Delivery = Delivery(
    id: Name, payload: Name, group: Name, sequence: nat, receiveCount: nat, receipt: nat, leaseUntil: int)

  /** The n-th receipt handed out is the token n. */
  datatype BrokerState = BrokerState(
    max: int, strict: bool, messages: seq<Message>, dlq: seq<Message>, sequence: nat, receipts: nat)

  // ---- enqueue ----

  predicate HasId(messages: seq<Message>, id: Name) {
    exists i :: 0 <= i < |messages| && messages[i].id == id
  }

  function Enqueue(b: BrokerState, id: Name, payload: Name, group: Name): Result<BrokerState> {
    if HasId(b.messages, id) then Err(ValueError)
    else Ok(b.(sequence := b.sequence + 1,
               messages := b.messages + [Message(id, payload, group, b.sequence + 1, 0, 0, None)]))
  }

  // ---- receive ----

  /** The circumstances of a poll: broker settings, the clock, and the token for a delivery. */
  datatype Poll = Poll(max: int, strict: bool, now: int, timeout: int, token: nat)

  predicate Blocked(messages: seq<Message>, m: Message) {
    exists i :: 0 <= i < |messages| && messages[i].group == m.group && messages[i].sequence < m.sequence
  }

  /** Whether a scan leaves a message alone. */
  predicate Skipped(messages: seq<Message>, m: Message, p: Poll) {
    m.visibleAt > p.now || (p.strict && Blocked(messages, m))
  }

  function Leased(m: Message, p: Poll): Message {
    m.(receiveCount := m.receiveCount + 1, receipt := Some(p.token), visibleAt := p.now + p.timeout)
  }

  function Buried(m: Message): Message {
    m.(receiveCount := m.receiveCount + 1, receipt := None)
  }

  function DeliveryOf(m: Message, p: Poll): Delivery {
    Delivery(m.id, m.payload, m.group, m.sequence, m.receiveCount + 1, p.token, p.now + p.timeout)
  }

  datatype Scanned = Scanned(messages: seq<Message>, dlq: seq<Message>, delivery: Option<Delivery>)

  /** A scan that has looked at the first k messages and kept them. */
  function Scan(messages: seq<Message>, k: nat, dlq: seq<Message>, p: Poll): Scanned
    requires k <= |messages|
    decreases |messages| - k
  {
    if k == |messages| then Scanned(messages, dlq, None)
    else if Skipped(messages, messages[k], p) then Scan(messages, k + 1, dlq, p)
    else if messages[k].receiveCount + 1 > p.max then
      Scan(Without(messages, k), k, dlq + [Buried(messages[k])], p)
    else
      Scanned(messages[k := Leased(messages[k], p)], dlq, Some(DeliveryOf(messages[k], p)))
  }

  function PollOf(b: BrokerState, now: int, timeout: int): Poll {
    Poll(b.max, b.strict, now, timeout, b.receipts + 1)
  }

  function AfterScan(b: BrokerState, s: Scanned): BrokerState {
    b.(messages := s.messages, dlq := s.dlq, receipts := b.receipts + if s.delivery.Some? then 1 else 0)
  }

  function ScanAll(b: BrokerState, now: int, timeout: int): Scanned {
    Scan(b.messages, 0, b.dlq, PollOf(b, now, timeout))
  }

  // ---- ack and nack ----

  /** The position of the first message that holds a receipt, or the number of messages. */
  function Holder(messages: seq<Message>, token: nat): (i: nat)
    ensures i <= |messages|
    ensures i < |messages| ==> messages[i].receipt == Some(token)
    ensures forall j | 0 <= j < i :: messages[j].receipt != Some(token)
  {
    if messages == [] then 0
    else if messages[0].receipt == Some(token) then 0
    else 1 + Holder(messages[1..], token)
  }

  function Without(messages: seq<Message>, i: nat): seq<Message>
    requires i < |messages|
  {
    messages[..i] + messages[i + 1..]
  }

  predicate Holds(b: BrokerState, token: nat) {
    Holder(b.messages, token) < |b.messages|
  }

  function Ack(b: BrokerState, token: nat): BrokerState {
    if Holds(b, token) then b.(messages := Without(b.messages, Holder(b.messages, token))) else b
  }

  function Nack(b: BrokerState, token: nat, now: int, delay: int): BrokerState {
    var i := Holder(b.messages, token);
    if Holds(b, token) then
      b.(messages := b.messages[i := b.messages[i].(receipt := None, visibleAt := now + delay)])
    else b
  }

  // ---- the consumer ----

  /** Side effects applied per message id. */
  datatype ConsumerState = ConsumerState(inbox: set<Name>, effects: map<Name, nat>) {
    function Effects(id: Name): nat { if id in effects then effects[id] else 0 }

    function Applied(id: Name): ConsumerState {
      this.(effects := effects[id := Effects(id) + 1])
    }

    function Handle(id: Name, idempotent: bool): ConsumerState {
      if !idempotent then Applied(id)
      else if id in inbox then this
      else Applied(id).(inbox := inbox + {id})
    }
  }
}

/**
  A transactional outbox, a broker that stores what it is given, and a consumer inbox, in two databases
  without a common transaction. The tables as values, and each committed transaction as a function.
 */
module OutboxModel {
  import opened Results

  /** Ids are compared, nothing else: an integer stands for a string. */
  type Name = int

  datatype Order = Order(customer: Name, amount: int)

  /** The event sent for an order. */
  datatype Payload = Payload(event: Name, order: Name, customer: Name, amount: int)

  datatype OutboxRow = OutboxRow(payload: Payload, published: bool)

  /** The delivery with id i + 1 is the i-th. */
  datatype Delivery = Delivery(event: Name, payload: Payload, consumed: bool)

  datatype Tables = Tables(
    // application database
    orders: map<Name, Order>,
    outbox: map<Name, OutboxRow>,         // by event id
    inbox: map<Name, Name>,               // event id to consumer name
    fulfillment: map<Name, Name>,         // order id to the event that made it ready
    // broker database
    deliveries: seq<Delivery>)

  // ---- creating an order ----

  /** Order and outbox row in one transaction; a primary key taken already rolls back both. */
  function Create(t: Tables, order: Name, customer: Name, amount: int, event: Name): Result<Tables> {
    if amount < 0 then Err(ValueError)
    else if order in t.orders || event in t.outbox then Err(IntegrityError)
    else Ok(t.(orders := t.orders[order := Order(customer, amount)],
               outbox := t.outbox[event := OutboxRow(Payload(event, order, customer, amount), false)]))
  }

  // ---- the relay ----

  /** A row of the outbox as a relay has read it. */
  datatype Pending = Pending(event: Name, payload: Payload)

  predicate IsPending(t: Tables, row: Pending) {
    row.event in t.outbox && t.outbox[row.event] == OutboxRow(row.payload, false)
  }

  /** Some pending rows, none twice: the answer to the relay's query, which the clock puts in order. */
  predicate Lists(t: Tables, rows: seq<Pending>) {
    && (forall i | 0 <= i < |rows| :: IsPending(t, rows[i]))
    && (forall i, j | 0 <= i < j < |rows| :: rows[i].event != rows[j].event)
  }

  /** All pending rows. */
  predicate ListsAll(t: Tables, rows: seq<Pending>) {
    Lists(t, rows) &&
    forall event | event in t.outbox && !t.outbox[event].published :: Pending(event, t.outbox[event].payload) in rows
  }

  /** A limit in SQL: none if it is negative. */
  function Limited<T>(rows: seq<T>, limit: int): seq<T> {
    if 0 <= limit < |rows| then rows[..limit] else rows
  }

  function Copies(d: Delivery, n: nat): (r: seq<Delivery>)
    ensures |r| == n && forall i | 0 <= i < n :: r[i] == d
  {
    if n == 0 then [] else Copies(d, n - 1) + [d]
  }

  /** Committed in the broker database. */
  function Publish(t: Tables, row: Pending, copies: nat): Tables {
    t.(deliveries := t.deliveries + Copies(Delivery(row.event, row.payload, false), copies))
  }

  /** Committed in the application database. */
  function MarkPublished(t: Tables, event: Name): Tables {
    if event in t.outbox then t.(outbox := t.outbox[event := t.outbox[event].(published := true)]) else t
  }

  /** A relay that is not interrupted. */
  function RelayAll(t: Tables, rows: seq<Pending>, copies: nat): Tables {
    if rows == [] then t
    else
      var last := rows[|rows| - 1];
      MarkPublished(Publish(RelayAll(t, rows[..|rows| - 1], copies), last, copies), last.event)
  }

  // ---- the consumer ----

  /** A delivery as a consumer has read it. */
  datatype Fetched = Fetched(id: nat, event: Name, payload: Payload)

  function Unconsumed(deliveries: seq<Delivery>): seq<Fetched> {
    if deliveries == [] then []
    else
      var n := |deliveries| - 1;
      Unconsumed(deliveries[..n]) +
      if deliveries[n].consumed then [] else [Fetched(n, deliveries[n].event, deliveries[n].payload)]
  }

  /** Inbox row and fulfillment in one transaction; an event in the inbox already rolls back both. */
  function Process(t: Tables, row: Fetched, consumer: Name): Tables {
    if row.event in t.inbox then t
    else t.(inbox := t.inbox[row.event := consumer], fulfillment := t.fulfillment[row.payload.order := row.event])
  }

  /** Committed in the broker database. */
  function MarkConsumed(t: Tables, id: nat): Tables {
    if id < |t.deliveries| then t.(deliveries := t.deliveries[id := t.deliveries[id].(consumed := true)]) else t
  }

  /** A consumer that is not interrupted, and the deliveries it had not seen before. */
  function ConsumeAll(t: Tables, rows: seq<Fetched>, consumer: Name): Tables {
    if rows == [] then t
    else
      var before, last := ConsumeAll(t, rows[..|rows| - 1], consumer), rows[|rows| - 1];
      MarkConsumed(Process(before, last, consumer), last.id)
  }

  function Fresh(t: Tables, rows: seq<Fetched>, consumer: Name): nat {
    if rows == [] then 0
    else
      Fresh(t, rows[..|rows| - 1], consumer)
      + if rows[|rows| - 1].event in ConsumeAll(t, rows[..|rows| - 1], consumer).inbox then 0 else 1
  }
}

/**
  Any number of relays and consumers over the two databases, interleaved between any two commits, each
  working on rows it read at some earlier time, and each able to crash between any two commits.
 */
module OutboxRuns {
  import opened OutboxModel

  /** A relay: rows still to do, and whether the first of them has been published but not yet marked. */
  datatype Relay = Relay(rows: seq<Pending>, published: bool)

  /** A consumer: rows still to do, and whether the first has been processed but not yet marked. */
  datatype Consumer = Consumer(name: Name, rows: seq<Fetched>, processed: bool)

  datatype World = World(
    tables: Tables,
    relays: seq<Relay>,
    consumers: seq<Consumer>,
    effects: seq<Name>)         // events that took effect, in order

  datatype Op =
    | CREATE(order: Name, customer: Name, amount: int, event: Name)
    | START_RELAY(rows: seq<Pending>)
    | PUBLISH(relay: nat, copies: nat)
    | MARK_PUBLISHED(relay: nat)
    | CRASH_RELAY(relay: nat)
    | START_CONSUMER(name: Name, limit: int)
    | PROCESS(consumer: nat)
    | MARK_CONSUMED(consumer: nat)
    | CRASH_CONSUMER(consumer: nat)

  function Start(): World {
    World(Tables(map[], map[], map[], map[], []), [], [], [])
  }

  /** Whether a process can take a step. */
  predicate Enabled(w: World, op: Op) {
    match op
    case CREATE(order, customer, amount, event) => Create(w.tables, order, customer, amount, event).Ok?
    case START_RELAY(rows) => Lists(w.tables, rows)
    case PUBLISH(i, copies) => i < |w.relays| && w.relays[i].rows != [] && !w.relays[i].published && copies >= 1
    case MARK_PUBLISHED(i) => i < |w.relays| && w.relays[i].rows != [] && w.relays[i].published
    case CRASH_RELAY(i) => i < |w.relays|
    case START_CONSUMER(_, _) => true
    case PROCESS(i) => i < |w.consumers| && w.consumers[i].rows != [] && !w.consumers[i].processed
    case MARK_CONSUMED(i) => i < |w.consumers| && w.consumers[i].rows != [] && w.consumers[i].processed
    case CRASH_CONSUMER(i) => i < |w.consumers|
  }

  function Next(w: World, op: Op): World
    requires Enabled(w, op)
  {
    match op
    case CREATE(order, customer, amount, event) =>
      w.(tables := Create(w.tables, order, customer, amount, event).value)
    case START_RELAY(rows) => w.(relays := w.relays + [Relay(rows, false)])
    case PUBLISH(i, copies) =>
      w.(tables := Publish(w.tables, w.relays[i].rows[0], copies),
         relays := w.relays[i := w.relays[i].(published := true)])
    case MARK_PUBLISHED(i) =>
      w.(tables := MarkPublished(w.tables, w.relays[i].rows[0].event),
         relays := w.relays[i := Relay(w.relays[i].rows[1..], false)])
    case CRASH_RELAY(i) => w.(relays := w.relays[i := Relay([], false)])
    case START_CONSUMER(name, limit) =>
      w.(consumers := w.consumers + [Consumer(name, Limited(Unconsumed(w.tables.deliveries), limit), false)])
    case PROCESS(i) =>
      var c := w.consumers[i];
      w.(tables := Process(w.tables, c.rows[0], c.name),
         consumers := w.consumers[i := c.(processed := true)],
         effects := if c.rows[0].event in w.tables.inbox then w.effects else w.effects + [c.rows[0].event])
    case MARK_CONSUMED(i) =>
      var c := w.consumers[i];
      w.(tables := MarkConsumed(w.tables, c.rows[0].id),
         consumers := w.consumers[i := Consumer(c.name, c.rows[1..], false)])
    case CRASH_CONSUMER(i) => w.(consumers := w.consumers[i := Consumer(w.consumers[i].name, [], false)])
  }

  /** A step that is not possible does not happen. */
  function Step(w: World, op: Op): World {
    if Enabled(w, op) then Next(w, op) else w
  }

  function Run(ops: seq<Op>): World {
    if ops == [] then Start() else Step(Run(ops[..|ops| - 1]), ops[|ops| - 1])
  }

  // ---- what every step keeps: the application database ----

  /** The order of each outbox row exists as the row describes it. */
  ghost predicate RowsHaveOrders(t: Tables) {
    forall e | e in t.outbox ::
      var p := t.outbox[e].payload;
      p.event == e && p.order in t.orders && t.orders[p.order] == Order(p.customer, p.amount)
  }

  /** Exactly one outbox row per order. */
  ghost predicate OneRowPerOrder(t: Tables) {
    && (forall e, f | e in t.outbox && f in t.outbox && t.outbox[e].payload.order == t.outbox[f].payload.order :: e == f)
    && (forall o | o in t.orders :: HasRow(t, o))
  }

  ghost predicate HasRow(t: Tables, order: Name) {
    exists e :: e in t.outbox && t.outbox[e].payload.order == order
  }

  /** A delivery carries the payload of an outbox row. */
  predicate Genuine(t: Tables, event: Name, payload: Payload) {
    event in t.outbox && t.outbox[event].payload == payload
  }

  ghost predicate Delivered(t: Tables, event: Name) {
    exists i :: 0 <= i < |t.deliveries| && t.deliveries[i].event == event
  }

  /** Deliveries are of outbox events; what is marked published has been delivered, what is marked
      consumed is in the inbox, and what is in the inbox has been delivered. */
  ghost predicate Flow(t: Tables) {
    && (forall i | 0 <= i < |t.deliveries| :: Genuine(t, t.deliveries[i].event, t.deliveries[i].payload))
    && (forall e | e in t.outbox && t.outbox[e].published :: Delivered(t, e))
    && (forall i | 0 <= i < |t.deliveries| && t.deliveries[i].consumed :: t.deliveries[i].event in t.inbox)
    && (forall e | e in t.inbox :: Delivered(t, e))
  }

  /** Inbox and fulfillment match: an order is fulfilled by its event exactly if the event is in the inbox. */
  ghost predicate Matched(t: Tables) {
    && (forall e | e in t.inbox ::
          e in t.outbox && t.outbox[e].payload.order in t.fulfillment && t.fulfillment[t.outbox[e].payload.order] == e)
    && (forall o | o in t.fulfillment ::
          t.fulfillment[o] in t.inbox && t.fulfillment[o] in t.outbox && t.outbox[t.fulfillment[o]].payload.order == o)
  }

  ghost predicate Sound(t: Tables) {
    RowsHaveOrders(t) && OneRowPerOrder(t) && Flow(t) && Matched(t)
  }

  // ---- what every step keeps: the processes ----

  ghost predicate RelaySound(t: Tables, r: Relay) {
    && (forall k | 0 <= k < |r.rows| :: Genuine(t, r.rows[k].event, r.rows[k].payload))
    && (r.published ==> r.rows != [] && Delivered(t, r.rows[0].event))
  }

  ghost predicate ConsumerSound(t: Tables, c: Consumer) {
    && (forall k | 0 <= k < |c.rows| :: FetchedSound(t, c.rows[k]))
    && (c.processed ==> c.rows != [] && c.rows[0].event in t.inbox)
  }

  predicate FetchedSound(t: Tables, row: Fetched) {
    row.id < |t.deliveries| && t.deliveries[row.id].event == row.event && t.deliveries[row.id].payload == row.payload
  }

  /** Each event in the inbox took effect once, no other did. */
  ghost predicate EffectsSound(w: World) {
    && (forall i, j | 0 <= i < j < |w.effects| :: w.effects[i] != w.effects[j])
    && (forall e :: e in w.effects <==> e in w.tables.inbox)
  }

  ghost predicate Inv(w: World) {
    && Sound(w.tables) && EffectsSound(w)
    && (forall i | 0 <= i < |w.relays| :: RelaySound(w.tables, w.relays[i]))
    && (forall i | 0 <= i < |w.consumers| :: ConsumerSound(w.tables, w.consumers[i]))
  }
}

/** What the tables hold: what was ordered is what is sent, delivered and counted. */
module OutboxContents {
  import opened OutboxModel
  import opened OutboxRuns
  import opened OutboxInvariants
  import opened OutboxTheorems

  lemma RunMore(ops: seq<Op>, op: Op)
    ensures Run(ops + [op]) == Step(Run(ops), op)
  {
    assert (ops + [op])[..|ops|] == ops;
  }

  // ---- creating ----

  /** An order is created exactly if its amount is not negative and neither its id nor that of its event is
      taken; then order and event hold what was asked for, the event unpublished, and nothing else changes. */
  lemma CreatedAsAsked(ops: seq<Op>, order: Name, customer: Name, amount: int, event: Name)
    ensures var w, v := Run(ops), Run(ops + [CREATE(order, customer, amount, event)]);
            if amount < 0 || order in w.tables.orders || event in w.tables.outbox then v == w
            else v == w.(tables := w.tables.(
                           orders := w.tables.orders[order := Order(customer, amount)],
                           outbox := w.tables.outbox[event := OutboxRow(Payload(event, order, customer, amount), false)]))
  {
    RunMore(ops, CREATE(order, customer, amount, event));
  }

  /** Orders and payloads stay, and so does what has been delivered. */
  ghost predicate Kept(t: Tables, u: Tables) {
    && (forall o | o in t.orders :: o in u.orders && u.orders[o] == t.orders[o])
    && Later(t, u)
  }

  lemma KeptStep(w: World, op: Op)
    ensures Kept(w.tables, Step(w, op).tables)
  {
  }

  lemma {:induction false} KeptRun(ops: seq<Op>, more: seq<Op>)
    ensures Kept(Run(ops).tables, Run(ops + more).tables)
  {
    if more == [] {
      assert ops + more == ops;
    } else {
      var init, last := more[..|more| - 1], more[|more| - 1];
      KeptRun(ops, init);
      assert (ops + init) + [last] == ops + more;
      RunMore(ops + init, last);
      KeptStep(Run(ops + init), last);
      KeptTwice(Run(ops).tables, Run(ops + init).tables, Run(ops + more).tables);
    }
  }

  lemma KeptTwice(t: Tables, u: Tables, v: Tables)
    requires Kept(t, u) && Kept(u, v)
    ensures Kept(t, v)
  {
    forall e | e in t.outbox ensures Genuine(v, e, t.outbox[e].payload) {
      assert Genuine(u, e, t.outbox[e].payload);
    }
  }

  /** Ever after, the order is as it was placed, its event describes it, and every delivery of the event
      carries that description. */
  lemma SentAsOrdered(ops: seq<Op>, order: Name, customer: Name, amount: int, event: Name, more: seq<Op>)
    requires var t := Run(ops).tables; amount >= 0 && order !in t.orders && event !in t.outbox
    ensures var t := Run(ops + [CREATE(order, customer, amount, event)] + more).tables;
            && order in t.orders && t.orders[order] == Order(customer, amount)
            && event in t.outbox && t.outbox[event].payload == Payload(event, order, customer, amount)
            && forall i | 0 <= i < |t.deliveries| && t.deliveries[i].event == event ::
                 t.deliveries[i].payload == Payload(event, order, customer, amount)
  {
    var created := ops + [CREATE(order, customer, amount, event)];
    var t, u := Run(created).tables, Run(created + more).tables;
    CreatedAsAsked(ops, order, customer, amount, event);
    KeptRun(created, more);
    assert Genuine(u, event, t.outbox[event].payload);
    InvRun(created + more);
    forall i | 0 <= i < |u.deliveries| && u.deliveries[i].event == event
      ensures u.deliveries[i].payload == Payload(event, order, customer, amount)
    {
      assert Genuine(u, event, u.deliveries[i].payload);
    }
  }

  // ---- publishing ----

  /** A publication adds as many deliveries as copies, each with the event and its payload and not yet
      consumed, behind those there are. */
  lemma PublishedInCopies(ops: seq<Op>, i: nat, copies: nat)
    requires var w := Run(ops); i < |w.relays| && w.relays[i].rows != [] && !w.relays[i].published && copies >= 1
    ensures var w, v := Run(ops), Run(ops + [PUBLISH(i, copies)]);
            var before, now, row := w.tables.deliveries, v.tables.deliveries, w.relays[i].rows[0];
            && |now| == |before| + copies && now[..|before|] == before
            && (forall k | |before| <= k < |now| :: now[k] == Delivery(row.event, row.payload, false))
            && v.tables == w.tables.(deliveries := now) && v.relays[i] == Relay(w.relays[i].rows, true)
  {
    RunMore(ops, PUBLISH(i, copies));
  }

  /** Marking changes the mark of that row and nothing else, and the relay goes on to its next row. */
  lemma MarkedOnce(ops: seq<Op>, i: nat)
    requires var w := Run(ops); i < |w.relays| && w.relays[i].rows != [] && w.relays[i].published
    ensures var w, v := Run(ops), Run(ops + [MARK_PUBLISHED(i)]);
            var event := w.relays[i].rows[0].event;
            && event in w.tables.outbox
            && v.tables == w.tables.(outbox := w.tables.outbox[event := OutboxRow(w.tables.outbox[event].payload, true)])
            && v.relays[i] == Relay(w.relays[i].rows[1..], false)
  {
    InvRun(ops);
    RunMore(ops, MARK_PUBLISHED(i));
    assert RelaySound(Run(ops).tables, Run(ops).relays[i]);
  }

  // ---- consuming ----

  predicate Fetches(rows: seq<Fetched>, id: nat) {
    exists k :: 0 <= k < |rows| && rows[k].id == id
  }

  /** A row is what a delivery that is not consumed says. */
  predicate FetchOf(deliveries: seq<Delivery>, row: Fetched) {
    row.id < |deliveries| && deliveries[row.id] == Delivery(row.event, row.payload, false)
  }

  predicate InArrivalOrder(rows: seq<Fetched>) {
    forall k, l | 0 <= k < l < |rows| :: rows[k].id < rows[l].id
  }

  predicate AllFetchesOf(deliveries: seq<Delivery>, rows: seq<Fetched>) {
    forall k | 0 <= k < |rows| :: FetchOf(deliveries, rows[k])
  }

  lemma FetchesMore(deliveries: seq<Delivery>, d: Delivery, rows: seq<Fetched>)
    requires AllFetchesOf(deliveries, rows) && InArrivalOrder(rows)
    ensures AllFetchesOf(deliveries + [d], rows)
    ensures !d.consumed ==> var more := rows + [Fetched(|deliveries|, d.event, d.payload)];
                            AllFetchesOf(deliveries + [d], more) && InArrivalOrder(more)
  {
    forall k | 0 <= k < |rows| ensures FetchOf(deliveries + [d], rows[k]) {
      assert FetchOf(deliveries, rows[k]);
    }
    if !d.consumed {
      var more := rows + [Fetched(|deliveries|, d.event, d.payload)];
      forall k | 0 <= k < |more| ensures FetchOf(deliveries + [d], more[k]) && (k < |rows| ==> more[k].id < |deliveries|) {
        if k < |rows| {
          assert FetchOf(deliveries, rows[k]) && more[k] == rows[k];
        }
      }
    }
  }

  lemma {:induction false} UnconsumedInOrder(deliveries: seq<Delivery>)
    ensures AllFetchesOf(deliveries, Unconsumed(deliveries)) && InArrivalOrder(Unconsumed(deliveries))
  {
    if deliveries != [] {
      var init, last := deliveries[..|deliveries| - 1], deliveries[|deliveries| - 1];
      UnconsumedInOrder(init);
      FetchesMore(init, last, Unconsumed(init));
      assert init + [last] == deliveries && Unconsumed(init) + [] == Unconsumed(init);
    }
  }

  /** The first deliveries not consumed, in the order of their arrival, as many as a limit allows. */
  ghost predicate FirstOf(deliveries: seq<Delivery>, rows: seq<Fetched>, limit: int) {
    && (limit >= 0 ==> |rows| <= limit) && AllFetchesOf(deliveries, rows) && InArrivalOrder(rows)
    && forall id: nat | id < |deliveries| && !deliveries[id].consumed ::
         Fetches(rows, id) || (|rows| == limit && forall k | 0 <= k < |rows| :: rows[k].id < id)
  }

  lemma FirstFetched(deliveries: seq<Delivery>, limit: int)
    ensures FirstOf(deliveries, Limited(Unconsumed(deliveries), limit), limit)
  {
    var all, rows := Unconsumed(deliveries), Limited(Unconsumed(deliveries), limit);
    UnconsumedInOrder(deliveries);
    assert AllFetchesOf(deliveries, rows) && InArrivalOrder(rows);
    forall id: nat | id < |deliveries| && !deliveries[id].consumed
      ensures Fetches(rows, id) || (|rows| == limit && forall k | 0 <= k < |rows| :: rows[k].id < id)
    {
      UnconsumedComplete(deliveries, id);
      var k :| 0 <= k < |all| && all[k] == Fetched(id, deliveries[id].event, deliveries[id].payload);
      if k < |rows| {
        assert rows[k].id == id;
      }
    }
  }

  /** A consumer starts with those; a negative limit is none. */
  lemma FetchedInOrder(ops: seq<Op>, name: Name, limit: int)
    ensures var w, v := Run(ops), Run(ops + [START_CONSUMER(name, limit)]);
            && |v.consumers| == |w.consumers| + 1 && v.tables == w.tables
            && v.consumers[|w.consumers|].name == name && !v.consumers[|w.consumers|].processed
            && FirstOf(w.tables.deliveries, v.consumers[|w.consumers|].rows, limit)
  {
    RunMore(ops, START_CONSUMER(name, limit));
    FirstFetched(Run(ops).tables.deliveries, limit);
  }

  /** A new event is recorded under the name of its consumer and fulfills its order; a known one changes no
      table. */
  lemma ProcessedByName(ops: seq<Op>, i: nat)
    requires var w := Run(ops); i < |w.consumers| && w.consumers[i].rows != [] && !w.consumers[i].processed
    ensures var w, v := Run(ops), Run(ops + [PROCESS(i)]);
            var c := w.consumers[i];
            var row := c.rows[0];
            && v.consumers[i] == Consumer(c.name, c.rows, true)
            && if row.event in w.tables.inbox then v.tables == w.tables && v.effects == w.effects
               else && v.tables == w.tables.(inbox := w.tables.inbox[row.event := c.name],
                                             fulfillment := w.tables.fulfillment[row.payload.order := row.event])
                    && v.effects == w.effects + [row.event]
  {
    RunMore(ops, PROCESS(i));
  }

  /** Marking a delivery consumed changes that mark and nothing else. */
  lemma ConsumedOnce(ops: seq<Op>, i: nat)
    requires var w := Run(ops); i < |w.consumers| && w.consumers[i].rows != [] && w.consumers[i].processed
    ensures var w, v := Run(ops), Run(ops + [MARK_CONSUMED(i)]);
            var c, d := w.consumers[i], w.tables.deliveries;
            var id := c.rows[0].id;
            && id < |d| && v.tables == w.tables.(deliveries := d[id := Delivery(d[id].event, d[id].payload, true)])
            && v.consumers[i] == Consumer(c.name, c.rows[1..], false)
  {
    InvRun(ops);
    RunMore(ops, MARK_CONSUMED(i));
    assert ConsumerSound(Run(ops).tables, Run(ops).consumers[i]);
    assert FetchedSound(Run(ops).tables, Run(ops).consumers[i].rows[0]);
  }

  // ---- whole calls ----

  predicate AllConsumed(deliveries: seq<Delivery>, rows: seq<Fetched>) {
    forall k | 0 <= k < |rows| :: rows[k].id < |deliveries| ==> deliveries[rows[k].id].consumed
  }

  lemma ConsumedStill(t: Tables, last: Fetched, consumer: Name, rows: seq<Fetched>)
    requires AllConsumed(t.deliveries, rows)
    ensures var u := MarkConsumed(Process(t, last, consumer), last.id);
            && |u.deliveries| == |t.deliveries| && AllConsumed(u.deliveries, rows + [last])
            && forall i | 0 <= i < |t.deliveries| && t.deliveries[i].consumed :: u.deliveries[i].consumed
  {
  }

  lemma {:induction false} ConsumeMarks(t: Tables, rows: seq<Fetched>, consumer: Name)
    ensures var u := ConsumeAll(t, rows, consumer);
            && |u.deliveries| == |t.deliveries| && AllConsumed(u.deliveries, rows)
            && forall i | 0 <= i < |t.deliveries| && t.deliveries[i].consumed :: u.deliveries[i].consumed
  {
    if rows != [] {
      var init, last := rows[..|rows| - 1], rows[|rows| - 1];
      ConsumeMarks(t, init, consumer);
      ConsumedStill(ConsumeAll(t, init, consumer), last, consumer, init);
      assert init + [last] == rows;
    }
  }

  lemma {:induction false} NoneUnconsumed(deliveries: seq<Delivery>)
    requires forall i | 0 <= i < |deliveries| :: deliveries[i].consumed
    ensures Unconsumed(deliveries) == []
  {
    if deliveries != [] {
      NoneUnconsumed(deliveries[..|deliveries| - 1]);
    }
  }

  /** A consumer that is not interrupted and has no limit leaves nothing for the next one. */
  lemma NothingLeftToConsume(t: Tables, consumer: Name)
    ensures Unconsumed(ConsumeAll(t, Unconsumed(t.deliveries), consumer).deliveries) == []
  {
    var rows := Unconsumed(t.deliveries);
    var u := ConsumeAll(t, rows, consumer);
    ConsumeMarks(t, rows, consumer);
    forall i | 0 <= i < |u.deliveries| ensures u.deliveries[i].consumed {
      if !t.deliveries[i].consumed {
        UnconsumedComplete(t.deliveries, i);
        var k :| 0 <= k < |rows| && rows[k] == Fetched(i, t.deliveries[i].event, t.deliveries[i].payload);
        assert rows[k].id < |u.deliveries|;
      }
    }
    NoneUnconsumed(u.deliveries);
  }

  /** The deliveries a consumer counts as processed are the events its run adds to the inbox. */
  lemma {:induction false} ProcessedIsGain(t: Tables, rows: seq<Fetched>, consumer: Name)
    ensures |ConsumeAll(t, rows, consumer).inbox| == |t.inbox| + Fresh(t, rows, consumer)
    ensures t.inbox.Keys <= ConsumeAll(t, rows, consumer).inbox.Keys
  {
    if rows != [] {
      ProcessedIsGain(t, rows[..|rows| - 1], consumer);
    }
  }

  /** A payload is published in as many copies for each row of a relay that is not interrupted. */
  lemma {:induction false} RelayedInCopies(t: Tables, rows: seq<Pending>, copies: nat)
    ensures var u := RelayAll(t, rows, copies);
            |u.deliveries| == |t.deliveries| + |rows| * copies && t.deliveries <= u.deliveries
  {
    if rows != [] {
      RelayedInCopies(t, rows[..|rows| - 1], copies);
      assert |rows| * copies == (|rows| - 1) * copies + copies;
    }
  }
}

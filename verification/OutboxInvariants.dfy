/** Every step of OutboxRuns keeps its invariant. */
module OutboxInvariants {
  import opened Results
  import opened OutboxModel
  import opened OutboxRuns

  // ---- transactions keep the tables sound ----

  lemma DeliveredStill(t: Tables, u: Tables, event: Name)
    requires Delivered(t, event) && |t.deliveries| <= |u.deliveries|
    requires forall i | 0 <= i < |t.deliveries| :: u.deliveries[i].event == t.deliveries[i].event
    ensures Delivered(u, event)
  {
  }

  lemma CreateRows(t: Tables, order: Name, customer: Name, amount: int, event: Name, u: Tables)
    requires RowsHaveOrders(t) && OneRowPerOrder(t) && Create(t, order, customer, amount, event) == Ok(u)
    ensures RowsHaveOrders(u) && OneRowPerOrder(u)
  {
    assert u.outbox[event].payload.order == order;
    forall o | o in u.orders ensures HasRow(u, o) {
      if o == order {
        assert event in u.outbox;
      } else {
        assert HasRow(t, o);
        var e :| e in t.outbox && t.outbox[e].payload.order == o;
        assert e in u.outbox && u.outbox[e] == t.outbox[e];
      }
    }
  }

  lemma CreateFlow(t: Tables, order: Name, customer: Name, amount: int, event: Name, u: Tables)
    requires Flow(t) && Matched(t) && Create(t, order, customer, amount, event) == Ok(u)
    ensures Flow(u) && Matched(u)
  {
  }

  lemma PublishSound(t: Tables, row: Pending, copies: nat)
    requires Sound(t) && Genuine(t, row.event, row.payload)
    ensures Sound(Publish(t, row, copies))
    ensures copies > 0 ==> Delivered(Publish(t, row, copies), row.event)
  {
    var u := Publish(t, row, copies);
    forall e | Delivered(t, e) ensures Delivered(u, e) {
      DeliveredStill(t, u, e);
    }
    forall o | o in u.orders ensures HasRow(u, o) {
      assert HasRow(t, o);
    }
    if copies > 0 {
      assert u.deliveries[|t.deliveries|].event == row.event;
    }
  }

  lemma MarkPublishedSound(t: Tables, event: Name)
    requires Sound(t) && Delivered(t, event)
    ensures Sound(MarkPublished(t, event))
  {
    var u := MarkPublished(t, event);
    assert forall e :: e in u.outbox <==> e in t.outbox;
    assert forall e | e in t.outbox :: u.outbox[e].payload == t.outbox[e].payload;
    forall e | Delivered(t, e) ensures Delivered(u, e) {
      DeliveredStill(t, u, e);
    }
    forall o | o in u.orders ensures HasRow(u, o) {
      assert HasRow(t, o);
      var e :| e in t.outbox && t.outbox[e].payload.order == o;
      assert e in u.outbox;
    }
  }

  lemma ProcessSound(t: Tables, row: Fetched, consumer: Name)
    requires Sound(t) && FetchedSound(t, row)
    ensures Sound(Process(t, row, consumer))
  {
  }

  lemma MarkConsumedSound(t: Tables, id: nat)
    requires Sound(t) && id < |t.deliveries| && t.deliveries[id].event in t.inbox
    ensures Sound(MarkConsumed(t, id))
  {
    var u := MarkConsumed(t, id);
    forall e | Delivered(t, e) ensures Delivered(u, e) {
      DeliveredStill(t, u, e);
    }
    forall o | o in u.orders ensures HasRow(u, o) {
      assert HasRow(t, o);
    }
  }

  // ---- transactions leave what processes rely on ----

  /** Outbox payloads, deliveries and inbox entries stay. */
  ghost predicate Later(t: Tables, u: Tables) {
    && (forall e | e in t.outbox :: Genuine(u, e, t.outbox[e].payload))
    && |t.deliveries| <= |u.deliveries|
    && (forall i | 0 <= i < |t.deliveries| ::
          u.deliveries[i].event == t.deliveries[i].event && u.deliveries[i].payload == t.deliveries[i].payload)
    && (forall e | e in t.inbox :: e in u.inbox)
  }

  lemma RelayLater(t: Tables, u: Tables, r: Relay)
    requires Later(t, u) && RelaySound(t, r)
    ensures RelaySound(u, r)
  {
  }

  lemma ConsumerLater(t: Tables, u: Tables, c: Consumer)
    requires Later(t, u) && ConsumerSound(t, c)
    ensures ConsumerSound(u, c)
  {
  }

  ghost predicate Others(w: World, v: World) {
    && (forall i | 0 <= i < |v.relays| :: RelaySound(v.tables, v.relays[i]))
    && (forall i | 0 <= i < |v.consumers| :: ConsumerSound(v.tables, v.consumers[i]))
  }

  /** Processes are sound after a transaction if the one that took the step is. */
  lemma ProcessesSound(w: World, v: World, r: Relay, c: Consumer)
    requires Inv(w) && Later(w.tables, v.tables)
    requires RelaySound(v.tables, r) && ConsumerSound(v.tables, c)
    requires forall i | 0 <= i < |v.relays| :: v.relays[i] == r || (i < |w.relays| && v.relays[i] == w.relays[i])
    requires forall i | 0 <= i < |v.consumers| :: v.consumers[i] == c || (i < |w.consumers| && v.consumers[i] == w.consumers[i])
    ensures Others(w, v)
  {
  }

  const IDLE_RELAY := Relay([], false)
  const IDLE_CONSUMER := Consumer(0, [], false)

  lemma CreateStep(w: World, order: Name, customer: Name, amount: int, event: Name)
    requires Inv(w) && Enabled(w, CREATE(order, customer, amount, event))
    ensures Inv(Next(w, CREATE(order, customer, amount, event)))
  {
    var v := Next(w, CREATE(order, customer, amount, event));
    CreateRows(w.tables, order, customer, amount, event, v.tables);
    CreateFlow(w.tables, order, customer, amount, event, v.tables);
    ProcessesSound(w, v, IDLE_RELAY, IDLE_CONSUMER);
  }

  lemma StartRelayStep(w: World, rows: seq<Pending>)
    requires Inv(w) && Enabled(w, START_RELAY(rows))
    ensures Inv(Next(w, START_RELAY(rows)))
  {
  }

  lemma PublishStep(w: World, i: nat, copies: nat)
    requires Inv(w) && Enabled(w, PUBLISH(i, copies))
    ensures Inv(Next(w, PUBLISH(i, copies)))
  {
    var v, r := Next(w, PUBLISH(i, copies)), w.relays[i];
    PublishSound(w.tables, r.rows[0], copies);
    ProcessesSound(w, v, r.(published := true), IDLE_CONSUMER);
  }

  lemma MarkPublishedStep(w: World, i: nat)
    requires Inv(w) && Enabled(w, MARK_PUBLISHED(i))
    ensures Inv(Next(w, MARK_PUBLISHED(i)))
  {
    var v, r := Next(w, MARK_PUBLISHED(i)), w.relays[i];
    MarkPublishedSound(w.tables, r.rows[0].event);
    RelayLater(w.tables, v.tables, r);
    ProcessesSound(w, v, Relay(r.rows[1..], false), IDLE_CONSUMER);
  }

  lemma {:induction false} UnconsumedFetched(t: Tables, n: nat)
    requires n <= |t.deliveries|
    ensures forall k | 0 <= k < |Unconsumed(t.deliveries[..n])| ::
              FetchedSound(t, Unconsumed(t.deliveries[..n])[k]) && Unconsumed(t.deliveries[..n])[k].id < n
  {
    if n > 0 {
      UnconsumedFetched(t, n - 1);
      assert t.deliveries[..n][..n - 1] == t.deliveries[..n - 1];
    }
  }

  lemma StartConsumerStep(w: World, name: Name, limit: int)
    requires Inv(w)
    ensures Inv(Next(w, START_CONSUMER(name, limit)))
  {
    var t := w.tables;
    UnconsumedFetched(t, |t.deliveries|);
    assert t.deliveries[..|t.deliveries|] == t.deliveries;
    ProcessesSound(w, Next(w, START_CONSUMER(name, limit)), IDLE_RELAY,
                   Consumer(name, Limited(Unconsumed(t.deliveries), limit), false));
  }

  lemma ProcessStep(w: World, i: nat)
    requires Inv(w) && Enabled(w, PROCESS(i))
    ensures Inv(Next(w, PROCESS(i)))
  {
    var v, c := Next(w, PROCESS(i)), w.consumers[i];
    ProcessSound(w.tables, c.rows[0], c.name);
    ConsumerLater(w.tables, v.tables, c);
    ProcessesSound(w, v, IDLE_RELAY, c.(processed := true));
    ProcessEffects(w, i);
  }

  lemma ProcessEffects(w: World, i: nat)
    requires EffectsSound(w) && Enabled(w, PROCESS(i))
    ensures EffectsSound(Next(w, PROCESS(i)))
  {
  }

  lemma MarkConsumedStep(w: World, i: nat)
    requires Inv(w) && Enabled(w, MARK_CONSUMED(i))
    ensures Inv(Next(w, MARK_CONSUMED(i)))
  {
    var v, c := Next(w, MARK_CONSUMED(i)), w.consumers[i];
    assert FetchedSound(w.tables, c.rows[0]);
    MarkConsumedSound(w.tables, c.rows[0].id);
    ConsumerLater(w.tables, v.tables, c);
    ProcessesSound(w, v, IDLE_RELAY, Consumer(c.name, c.rows[1..], false));
  }

  lemma CrashStep(w: World, op: Op)
    requires Inv(w) && Enabled(w, op) && (op.CRASH_RELAY? || op.CRASH_CONSUMER?)
    ensures Inv(Next(w, op))
  {
  }

  lemma InvStep(w: World, op: Op)
    requires Inv(w)
    ensures Inv(Step(w, op))
  {
    if Enabled(w, op) {
      match op
      case CREATE(order, customer, amount, event) => CreateStep(w, order, customer, amount, event);
      case START_RELAY(rows) => StartRelayStep(w, rows);
      case PUBLISH(i, copies) => PublishStep(w, i, copies);
      case MARK_PUBLISHED(i) => MarkPublishedStep(w, i);
      case CRASH_RELAY(_) => CrashStep(w, op);
      case START_CONSUMER(name, limit) => StartConsumerStep(w, name, limit);
      case PROCESS(i) => ProcessStep(w, i);
      case MARK_CONSUMED(i) => MarkConsumedStep(w, i);
      case CRASH_CONSUMER(_) => CrashStep(w, op);
    }
  }

  lemma {:induction false} InvRun(ops: seq<Op>)
    ensures Inv(Run(ops))
  {
    if ops != [] {
      InvRun(ops[..|ops| - 1]);
      InvStep(Run(ops[..|ops| - 1]), ops[|ops| - 1]);
    }
  }
}

/** What holds of outbox, deliveries, inbox and fulfillment in every run, and how a run recovers. */
module OutboxTheorems {
  import opened OutboxModel
  import opened OutboxRuns
  import opened OutboxInvariants

  /** At any time, between any two commits: every order has exactly one event, with its content. */
  lemma OneEventPerOrder(ops: seq<Op>, order: Name)
    requires order in Run(ops).tables.orders
    ensures var t := Run(ops).tables;
            exists e :: e in t.outbox && t.outbox[e].payload.order == order
              && t.orders[order] == Order(t.outbox[e].payload.customer, t.outbox[e].payload.amount)
              && forall f | f in t.outbox && t.outbox[f].payload.order == order :: f == e
  {
    InvRun(ops);
    var t := Run(ops).tables;
    assert HasRow(t, order);
    var e :| e in t.outbox && t.outbox[e].payload.order == order;
    assert t.orders[order] == Order(t.outbox[e].payload.customer, t.outbox[e].payload.amount);
  }

  /** At any time, no mark runs ahead of what it stands for. */
  lemma MarksAreTrue(ops: seq<Op>)
    ensures var t := Run(ops).tables;
            && (forall e | e in t.outbox && t.outbox[e].published :: Delivered(t, e))
            && (forall i | 0 <= i < |t.deliveries| && t.deliveries[i].consumed :: t.deliveries[i].event in t.inbox)
  {
    InvRun(ops);
  }

  lemma RowHasOrder(t: Tables, event: Name)
    requires RowsHaveOrders(t) && event in t.outbox
    ensures t.outbox[event].payload.order in t.orders
  {
  }

  /** At any time, however often an event was published and delivered, it took effect at most once: the
      events that took effect are those in the inbox, and an order is fulfilled exactly if its event is
      one of them. */
  lemma EffectivelyOnce(ops: seq<Op>)
    ensures var w := Run(ops);
            && (forall i, j | 0 <= i < j < |w.effects| :: w.effects[i] != w.effects[j])
            && (forall e :: e in w.effects <==> e in w.tables.inbox)
            && (forall e | e in w.effects ::
                  e in w.tables.outbox && w.tables.outbox[e].payload.order in w.tables.fulfillment
                  && w.tables.fulfillment[w.tables.outbox[e].payload.order] == e)
            && (forall o | o in w.tables.fulfillment ::
                  o in w.tables.orders && w.tables.fulfillment[o] in w.effects)
  {
    InvRun(ops);
    var w := Run(ops);
    forall o | o in w.tables.fulfillment ensures o in w.tables.orders {
      RowHasOrder(w.tables, w.tables.fulfillment[o]);
    }
  }

  // ---- recovery ----

  /** What a relay leaves alone. */
  ghost predicate SameOrders(t: Tables, u: Tables) {
    && u.orders == t.orders
    && forall e :: (e in u.outbox <==> e in t.outbox)
                   && (e in t.outbox ==> u.outbox[e].payload == t.outbox[e].payload
                                         && (t.outbox[e].published ==> u.outbox[e].published))
  }

  predicate AllPublished(t: Tables, rows: seq<Pending>) {
    forall k | 0 <= k < |rows| :: rows[k].event in t.outbox && t.outbox[rows[k].event].published
  }

  ghost predicate AllGenuine(t: Tables, rows: seq<Pending>) {
    forall k | 0 <= k < |rows| :: Genuine(t, rows[k].event, rows[k].payload)
  }

  lemma RelayOneSound(u: Tables, row: Pending, copies: nat)
    requires Sound(u) && Genuine(u, row.event, row.payload) && copies >= 1
    ensures Sound(MarkPublished(Publish(u, row, copies), row.event))
  {
    PublishSound(u, row, copies);
    MarkPublishedSound(Publish(u, row, copies), row.event);
  }

  lemma RelayOneSame(t: Tables, u: Tables, row: Pending, copies: nat)
    requires SameOrders(t, u) && row.event in u.outbox
    ensures var v := MarkPublished(Publish(u, row, copies), row.event);
            SameOrders(t, v) && SameOrders(u, v) && v.outbox[row.event].published
  {
  }

  lemma PublishedStill(u: Tables, v: Tables, rows: seq<Pending>, last: Pending)
    requires SameOrders(u, v) && AllPublished(u, rows) && AllPublished(v, [last])
    ensures AllPublished(v, rows + [last])
  {
  }

  ghost predicate Relayed(t: Tables, u: Tables, rows: seq<Pending>) {
    Sound(u) && SameOrders(t, u) && AllPublished(u, rows)
  }

  lemma RelayOne(t: Tables, u: Tables, init: seq<Pending>, last: Pending, copies: nat)
    requires Relayed(t, u, init) && Genuine(t, last.event, last.payload) && copies >= 1
    ensures Relayed(t, MarkPublished(Publish(u, last, copies), last.event), init + [last])
  {
    RelayOneSound(u, last, copies);
    RelayOneSame(t, u, last, copies);
    PublishedStill(u, MarkPublished(Publish(u, last, copies), last.event), init, last);
  }

  lemma {:induction false} RelayCompletes(t: Tables, rows: seq<Pending>, copies: nat)
    requires Sound(t) && copies >= 1 && AllGenuine(t, rows)
    ensures Relayed(t, RelayAll(t, rows, copies), rows)
  {
    if rows != [] {
      var init, last := rows[..|rows| - 1], rows[|rows| - 1];
      RelayCompletes(t, init, copies);
      RelayOne(t, RelayAll(t, init, copies), init, last, copies);
      assert init + [last] == rows;
    }
  }

  /** What a consumer leaves alone. */
  ghost predicate SameDeliveries(t: Tables, u: Tables) {
    && u.orders == t.orders && u.outbox == t.outbox
    && |u.deliveries| == |t.deliveries|
    && (forall i | 0 <= i < |t.deliveries| ::
          u.deliveries[i].event == t.deliveries[i].event && u.deliveries[i].payload == t.deliveries[i].payload)
    && (forall e | e in t.inbox :: e in u.inbox)
  }

  predicate AllProcessed(t: Tables, rows: seq<Fetched>) {
    forall k | 0 <= k < |rows| :: rows[k].event in t.inbox
  }

  predicate AllFetched(t: Tables, rows: seq<Fetched>) {
    forall k | 0 <= k < |rows| :: FetchedSound(t, rows[k])
  }

  lemma ConsumeOneSound(u: Tables, row: Fetched, consumer: Name)
    requires Sound(u) && FetchedSound(u, row)
    ensures Sound(MarkConsumed(Process(u, row, consumer), row.id))
  {
    ProcessSound(u, row, consumer);
    MarkConsumedSound(Process(u, row, consumer), row.id);
  }

  lemma ConsumeOneSame(t: Tables, u: Tables, row: Fetched, consumer: Name)
    requires SameDeliveries(t, u) && FetchedSound(t, row)
    ensures FetchedSound(u, row)
    ensures var v := MarkConsumed(Process(u, row, consumer), row.id);
            SameDeliveries(t, v) && SameDeliveries(u, v) && row.event in v.inbox
  {
  }

  lemma ProcessedStill(u: Tables, v: Tables, rows: seq<Fetched>, last: Fetched)
    requires SameDeliveries(u, v) && AllProcessed(u, rows) && last.event in v.inbox
    ensures AllProcessed(v, rows + [last])
  {
  }

  ghost predicate Caught(t: Tables, u: Tables, rows: seq<Fetched>) {
    Sound(u) && SameDeliveries(t, u) && AllProcessed(u, rows)
  }

  lemma ConsumeOne(t: Tables, u: Tables, init: seq<Fetched>, last: Fetched, consumer: Name, v: Tables, rows: seq<Fetched>)
    requires Caught(t, u, init) && FetchedSound(t, last)
    requires v == MarkConsumed(Process(u, last, consumer), last.id) && rows == init + [last]
    ensures Caught(t, v, rows)
  {
    ConsumeOneSame(t, u, last, consumer);
    ConsumeOneSound(u, last, consumer);
    ProcessedStill(u, v, init, last);
  }

  lemma {:induction false} ConsumerCompletes(t: Tables, rows: seq<Fetched>, consumer: Name)
    requires Sound(t) && AllFetched(t, rows)
    ensures Caught(t, ConsumeAll(t, rows, consumer), rows)
  {
    if rows != [] {
      var init, last := rows[..|rows| - 1], rows[|rows| - 1];
      ConsumerCompletes(t, init, consumer);
      ConsumeOne(t, ConsumeAll(t, init, consumer), init, last, consumer, ConsumeAll(t, rows, consumer), rows);
    }
  }

  /** Every delivery is either marked consumed or among those a consumer finds. */
  lemma {:induction false} UnconsumedComplete(deliveries: seq<Delivery>, i: nat)
    requires i < |deliveries| && !deliveries[i].consumed
    ensures Fetched(i, deliveries[i].event, deliveries[i].payload) in Unconsumed(deliveries)
  {
    var n := |deliveries| - 1;
    if i < n {
      UnconsumedComplete(deliveries[..n], i);
      assert deliveries[..n][i] == deliveries[i];
    }
  }

  /** A consumer without a limit that matters processes everything delivered. */
  lemma ConsumerCatchesUp(t: Tables, consumer: Name, limit: int)
    requires Sound(t) && (limit < 0 || limit >= |Unconsumed(t.deliveries)|)
    ensures var u := ConsumeAll(t, Limited(Unconsumed(t.deliveries), limit), consumer);
            && Sound(u) && SameDeliveries(t, u)
            && forall e | Delivered(t, e) :: e in u.inbox
  {
    var rows := Unconsumed(t.deliveries);
    UnconsumedFetched(t, |t.deliveries|);
    assert t.deliveries[..|t.deliveries|] == t.deliveries;
    ConsumerCompletes(t, rows, consumer);
    var u := ConsumeAll(t, rows, consumer);
    forall e | Delivered(t, e) ensures e in u.inbox {
      var i :| 0 <= i < |t.deliveries| && t.deliveries[i].event == e;
      if !t.deliveries[i].consumed {
        UnconsumedComplete(t.deliveries, i);
      }
    }
  }

  /** From whatever a run has left behind, however many crashes it had, one relay and one consumer that
      are not interrupted and have large enough limits fulfill every order. */
  lemma Recovery(ops: seq<Op>, pending: seq<Pending>, relayLimit: int, copies: nat, consumer: Name, consumerLimit: int)
    requires ListsAll(Run(ops).tables, pending) && copies >= 1
    requires relayLimit < 0 || relayLimit >= |pending|
    requires var u := RelayAll(Run(ops).tables, pending, copies);
             consumerLimit < 0 || consumerLimit >= |Unconsumed(u.deliveries)|
    ensures var t := Run(ops).tables;
            var u := RelayAll(t, Limited(pending, relayLimit), copies);
            var v := ConsumeAll(u, Limited(Unconsumed(u.deliveries), consumerLimit), consumer);
            v.orders == t.orders && forall o | o in t.orders :: o in v.fulfillment
  {
    InvRun(ops);
    var t := Run(ops).tables;
    forall k | 0 <= k < |pending| ensures Genuine(t, pending[k].event, pending[k].payload) {
      assert IsPending(t, pending[k]);
    }
    RelayCompletes(t, pending, copies);
    var u := RelayAll(t, pending, copies);
    ConsumerCatchesUp(u, consumer, consumerLimit);
    var v := ConsumeAll(u, Limited(Unconsumed(u.deliveries), consumerLimit), consumer);
    forall o | o in t.orders ensures o in v.fulfillment {
      RecoveredOrder(t, pending, u, v, o);
    }
  }

  lemma RecoveredOrder(t: Tables, pending: seq<Pending>, u: Tables, v: Tables, order: Name)
    requires Sound(t) && ListsAll(t, pending) && order in t.orders
    requires Relayed(t, u, pending)
    requires Sound(v) && SameDeliveries(u, v) && forall e | Delivered(u, e) :: e in v.inbox
    ensures order in v.fulfillment
  {
  }
}

/** The lab's functions over its two databases, each proved to be the transactions of OutboxModel. */
module OutboxObject {
  import opened Results
  import opened OutboxModel

  class Databases {
    var orders: map<Name, Order>
    var outbox: map<Name, OutboxRow>
    var inbox: map<Name, Name>
    var fulfillment: map<Name, Name>
    var deliveries: seq<Delivery>

    ghost function State(): Tables
      reads this
    {
      Tables(orders, outbox, inbox, fulfillment, deliveries)
    }

    constructor ()
      ensures State() == Tables(map[], map[], map[], map[], [])
    {
      orders, outbox, inbox, fulfillment, deliveries := map[], map[], map[], map[], [];
    }

    /** create_order, given the fresh id for its event. */
    method CreateOrder(order: Name, customer: Name, amount: int, event: Name) returns (r: Result<Name>)
      modifies this`orders, this`outbox
      ensures match Create(old(State()), order, customer, amount, event)
              case Ok(next) => r == Ok(event) && State() == next
              case Err(error) => r == Err(error) && State() == old(State())
    {
      if amount < 0 {
        return Err(ValueError);
      }
      if order in orders || event in outbox {
        return Err(IntegrityError);
      }
      orders := orders[order := Order(customer, amount)];
      outbox := outbox[event := OutboxRow(Payload(event, order, customer, amount), false)];
      return Ok(event);
    }

    /** relay, given the rows that its query finds; a crash comes right after the first publication. */
    method Relay(pending: seq<Pending>, limit: int, crashAfterPublish: bool, duplicateEach: int) returns (r: Result<int>)
      requires ListsAll(State(), pending)
      modifies this`outbox, this`deliveries
      ensures duplicateEach < 1 ==> r == Err(ValueError) && State() == old(State())
      ensures duplicateEach >= 1 ==>
                var rows := Limited(pending, limit);
                if crashAfterPublish && rows != [] then
                  r == Ok(75) && State() == Publish(old(State()), rows[0], duplicateEach)
                else
                  r == Ok(|rows|) && State() == RelayAll(old(State()), rows, duplicateEach)
    {
      if duplicateEach < 1 {
        return Err(ValueError);
      }
      var rows := Limited(pending, limit);
      var published := 0;
      for i := 0 to |rows|
        invariant published == i
        invariant i > 0 ==> !crashAfterPublish
        invariant State() == RelayAll(old(State()), rows[..i], duplicateEach)
      {
        var row := rows[i];
        assert rows[..i + 1][..i] == rows[..i];
        PublishCopies(row, duplicateEach);
        if crashAfterPublish {
          return Ok(75);
        }
        Mark(row.event);
        published := published + 1;
      }
      assert rows[..|rows|] == rows;
      return Ok(published);
    }

    /** The update of one application transaction. */
    method Mark(event: Name)
      modifies this`outbox
      ensures State() == MarkPublished(old(State()), event)
    {
      MarkTwice(State(), event);
      if event in outbox && !outbox[event].published {
        outbox := outbox[event := outbox[event].(published := true)];
      }
    }

    /** The insertions of one broker transaction. */
    method PublishCopies(row: Pending, copies: nat)
      modifies this`deliveries
      ensures State() == Publish(old(State()), row, copies)
    {
      var d := Delivery(row.event, row.payload, false);
      for n := 0 to copies
        invariant deliveries == old(deliveries) + Copies(d, n)
      {
        deliveries := deliveries + [d];
      }
    }

    /** process_delivery */
    method ProcessDelivery(row: Fetched, consumer: Name) returns (processed: bool)
      modifies this`inbox, this`fulfillment
      ensures processed == (row.event !in old(inbox))
      ensures State() == Process(old(State()), row, consumer)
    {
      if row.event in inbox {
        return false;
      }
      inbox := inbox[row.event := consumer];
      fulfillment := fulfillment[row.payload.order := row.event];
      return true;
    }

    method Consume(consumer: Name, limit: int) returns (processed: nat, duplicates: nat)
      modifies this`inbox, this`fulfillment, this`deliveries
      ensures var rows := Limited(Unconsumed(old(deliveries)), limit);
              && State() == ConsumeAll(old(State()), rows, consumer)
              && processed == Fresh(old(State()), rows, consumer)
              && processed + duplicates == |rows|
    {
      var rows := Limited(Unconsumed(deliveries), limit);
      processed, duplicates := 0, 0;
      for i := 0 to |rows|
        invariant State() == ConsumeAll(old(State()), rows[..i], consumer)
        invariant processed == Fresh(old(State()), rows[..i], consumer) && processed + duplicates == i
      {
        var row := rows[i];
        assert rows[..i + 1][..i] == rows[..i];
        var isNew := ProcessDelivery(row, consumer);
        if isNew {
          processed := processed + 1;
        } else {
          duplicates := duplicates + 1;
        }
        if row.id < |deliveries| {
          deliveries := deliveries[row.id := deliveries[row.id].(consumed := true)];
        }
      }
      assert rows[..|rows|] == rows;
    }
  }

  /** Marking a row that is marked changes nothing. */
  lemma MarkTwice(t: Tables, event: Name)
    ensures event in t.outbox && t.outbox[event].published ==> MarkPublished(t, event) == t
  {
  }
}

/**
  The pipeline as the object whose coroutines update it in place. Each method is one coroutine running
  from one await to the next; `ran` is false when the await it would resume from cannot return yet.
 */
module PipelineObject {
  import opened PipelineModel

  /** The idempotency table: its primary key is the event id. */
  class Inbox {
    var rows: set<string>

    constructor (rows: set<string>)
      ensures this.rows == rows
    {
      this.rows := rows;
    }

    method ApplyOnce(id: string) returns (inserted: bool)
      modifies this
      ensures inserted <==> id !in old(rows)
      ensures rows == old(rows) + {id}
    {
      inserted := id !in rows;
      rows := rows + {id};
    }
  }

  class Pipeline {
    const config: Config
    const inbox: Inbox
    var shardQueues: seq<Queue>
    var workQueue: Queue
    var dlq: seq<Event>
    var metrics: Metrics

    // where each coroutine is suspended
    var producer: Producer
    var routers: seq<Router>
    var workers: seq<Worker>
    var main: Waiting

    ghost var ledger: Ledger

    ghost function State(): PipelineModel.State
      reads this, inbox
    {
      PipelineModel.State.State(shardQueues, workQueue, dlq, inbox.rows, producer, routers, workers, main, metrics, ledger)
    }

    ghost predicate Valid()
      reads this, inbox
    {
      Shaped(config, State())
    }

    constructor (config: Config, inbox: Inbox)
      requires config.Valid()
      ensures Valid() && this.config == config && this.inbox == inbox
      ensures State() == Initial(config, inbox.rows)
    {
      this.config, this.inbox := config, inbox;
      shardQueues, workQueue, dlq := seq(config.shards, _ => Queue([], 0)), Queue([], 0), [];
      metrics := Metrics(0, 0, 0, 0, 0, 0, 0, 0, 0, 0, seq(config.shards, _ => 0));
      producer, main := Between, ForProducer;
      routers, workers := seq(config.shards, _ => Getting), seq(config.workers, _ => Idle);
      ledger := Ledger([], [], [], [], [], seq(config.shards, _ => []), seq(config.shards, _ => []));
    }

    /** _produce, up to and into _admit: the event is counted, and so is back-pressure. */
    method ProduceEvent(id: string, key: string, payload: string) returns (ran: bool)
      requires Valid()
      modifies this`producer, this`metrics
      ensures Valid() && ran == Enabled(config, old(State()), Produce(id, key, payload))
      ensures State() == Next(config, old(State()), Produce(id, key, payload))
    {
      if !producer.Between? {
        return false;
      }
      metrics := metrics.(produced := metrics.produced + 1);
      if Full(shardQueues[config.StableShard(key)], config.shardQueueSize) {
        metrics := metrics.(producerBackpressure := metrics.producerBackpressure + 1);
      }
      producer := Admitting(Event(id, key, payload, 0));
      return true;
    }

    /** _admit, once the shard queue has room. */
    method AdmitEvent() returns (ran: bool)
      requires Valid()
      modifies this`producer, this`shardQueues, this`metrics, this`ledger
      ensures Valid() && ran == Enabled(config, old(State()), Admit)
      ensures State() == Next(config, old(State()), Admit)
    {
      if !producer.Admitting? {
        return false;
      }
      var event := producer.e;
      var shard := config.StableShard(event.key);
      if Full(shardQueues[shard], config.shardQueueSize) {
        return false;
      }
      shardQueues := shardQueues[shard := shardQueues[shard].Put(event)];
      metrics := metrics.(admitted := metrics.admitted + 1);
      metrics := metrics.(shardCounts := metrics.shardCounts[shard := metrics.shardCounts[shard] + 1]);
      producer := Between;
      ledger := ledger.(admitted := ledger.admitted + [event.id],
                        lanesIn := ledger.lanesIn[shard := ledger.lanesIn[shard] + [event]]);
      return true;
    }

    method FinishProducing() returns (ran: bool)
      requires Valid()
      modifies this`producer
      ensures Valid() && ran == Enabled(config, old(State()), ProducerDone)
      ensures State() == Next(config, old(State()), ProducerDone)
    {
      ran := producer.Between?;
      if ran {
        producer := Finished;
      }
    }

    /** _router, line one of the loop. */
    method RouterTake(i: nat) returns (ran: bool)
      requires Valid()
      modifies this`routers, this`shardQueues
      ensures Valid() && ran == Enabled(config, old(State()), RouterGet(i))
      ensures State() == Next(config, old(State()), RouterGet(i))
    {
      if i >= |routers| || !routers[i].Getting? || shardQueues[i].items == [] {
        return false;
      }
      routers := routers[i := Routing(shardQueues[i].items[0])];
      shardQueues := shardQueues[i := shardQueues[i].Take()];
      return true;
    }

    /** _router, once the work queue has room: hand over, count, and only then task_done. */
    method RouterForward(i: nat) returns (ran: bool)
      requires Valid()
      modifies this`routers, this`shardQueues, this`workQueue, this`metrics, this`ledger
      ensures Valid() && ran == Enabled(config, old(State()), RouterPut(i))
      ensures State() == Next(config, old(State()), RouterPut(i))
    {
      if i >= |routers| || !routers[i].Routing? || Full(workQueue, config.workQueueSize) {
        return false;
      }
      var event := routers[i].e;
      workQueue := workQueue.Put(event);
      metrics := metrics.(routed := metrics.routed + 1);
      shardQueues := shardQueues[i := shardQueues[i].Done()];
      routers := routers[i := Getting];
      ledger := ledger.(routed := ledger.routed + [event.id],
                        lanesOut := ledger.lanesOut[i := ledger.lanesOut[i] + [event]]);
      return true;
    }

    /** _worker: take an event and start the downstream call. */
    method WorkerTake(j: nat) returns (ran: bool)
      requires Valid()
      modifies this`workers, this`workQueue, this`ledger
      ensures Valid() && ran == Enabled(config, old(State()), WorkerGet(j))
      ensures State() == Next(config, old(State()), WorkerGet(j))
    {
      if j >= |workers| || !workers[j].Idle? || workQueue.items == [] {
        return false;
      }
      var event := workQueue.items[0];
      workQueue := workQueue.Take();
      workers := workers[j := Processing(event)];
      ledger := ledger.(executed := ledger.executed + [event.id]);
      return true;
    }

    /** _process after the downstream call, and _retry_or_dlq up to its own wait. */
    method WorkerProcess(j: nat, transient: bool) returns (ran: bool)
      requires Valid()
      modifies this`workers, this`workQueue, this`dlq, this`metrics, this`ledger, inbox
      ensures Valid() && ran == Enabled(config, old(State()), WorkerFinish(j, transient))
      ensures State() == Next(config, old(State()), WorkerFinish(j, transient))
    {
      if j >= |workers| || !workers[j].Processing? {
        return false;
      }
      var event := workers[j].e;
      var nextAttempt := event.attempt + 1;
      if config.Poison(event) {
        metrics := metrics.(permanentFailures := metrics.permanentFailures + 1);
        DeadLetter(event.WithAttempt(nextAttempt));
      } else if transient {
        metrics := metrics.(transientFailures := metrics.transientFailures + 1);
        if nextAttempt < config.maxAttempts {
          metrics := metrics.(retries := metrics.retries + 1);
          workers := workers[j := Requeueing(event.WithAttempt(nextAttempt))];
          return true;
        }
        DeadLetter(event.WithAttempt(nextAttempt));
      } else {
        var inserted := inbox.ApplyOnce(event.id);
        if inserted {
          metrics := metrics.(processed := metrics.processed + 1);
          ledger := ledger.(processed := ledger.processed + [event.id]);
        } else {
          metrics := metrics.(duplicates := metrics.duplicates + 1);
          ledger := ledger.(duplicates := ledger.duplicates + [event.id]);
          assert old(inbox.rows) + {event.id} == old(inbox.rows);
        }
      }
      workQueue := workQueue.Done();
      workers := workers[j := Idle];
      return true;
    }

    method DeadLetter(event: Event)
      modifies this`dlq, this`metrics
      ensures dlq == old(dlq) + [event]
      ensures metrics == old(metrics).(dlq := old(metrics).dlq + 1)
    {
      dlq := dlq + [event];
      metrics := metrics.(dlq := metrics.dlq + 1);
    }

    /** The end of _retry_or_dlq: put the retry back, and only then task_done for the failed attempt. */
    method WorkerPutBack(j: nat) returns (ran: bool)
      requires Valid()
      modifies this`workers, this`workQueue
      ensures Valid() && ran == Enabled(config, old(State()), WorkerRequeue(j))
      ensures State() == Next(config, old(State()), WorkerRequeue(j))
    {
      if j >= |workers| || !workers[j].Requeueing? || Full(workQueue, config.workQueueSize) {
        return false;
      }
      workQueue := workQueue.Put(workers[j].e);
      workQueue := workQueue.Done();
      workers := workers[j := Idle];
      return true;
    }

    /** run(): the awaits on the producer, on every shard queue's join and on the work queue's join. */
    method RunProceeds(a: Action) returns (ran: bool)
      requires Valid()
      requires a.MainProducer? || a.MainShard? || a.MainShards? || a.MainWorkSeen? || a.MainStop?
      modifies this`main
      ensures Valid() && ran == Enabled(config, old(State()), a)
      ensures State() == Next(config, old(State()), a)
    {
      ran := false;
      match main
      case ForProducer =>
        if a.MainProducer? && producer.Finished? {
          main, ran := ForShards({}), true;
        }
      case ForShards(joined) =>
        if a.MainShard? && a.i < |shardQueues| && a.i !in joined && shardQueues[a.i].unfinished == 0 {
          main, ran := ForShards(joined + {a.i}), true;
        } else if a.MainShards? && forall i :: 0 <= i < |shardQueues| ==> i in joined {
          main, ran := ForWork(false), true;
        }
      case ForWork(seen) =>
        if a.MainWorkSeen? && !seen && workQueue.unfinished == 0 {
          main, ran := ForWork(true), true;
        } else if a.MainStop? && seen {
          main, ran := Stopped, true;
        }
      case Stopped =>
    }
  }

  /** Drive a new pipeline through any schedule the event loop may choose. */
  method Drive(config: Config, inbox: Inbox, schedule: seq<Action>) returns (p: Pipeline)
    requires config.Valid()
    modifies inbox
    ensures fresh(p) && p.Valid() && p.config == config && p.inbox == inbox
    ensures p.State() == Run(config, old(inbox.rows), schedule)
  {
    p := new Pipeline(config, inbox);
    for k := 0 to |schedule|
      invariant fresh(p) && p.Valid() && p.config == config && p.inbox == inbox
      invariant p.State() == Run(config, old(inbox.rows), schedule[..k])
    {
      assert schedule[..k + 1][..k] == schedule[..k];
      var ran;
      match schedule[k]
      case Produce(id, key, payload) => ran := p.ProduceEvent(id, key, payload);
      case Admit => ran := p.AdmitEvent();
      case ProducerDone => ran := p.FinishProducing();
      case RouterGet(i) => ran := p.RouterTake(i);
      case RouterPut(i) => ran := p.RouterForward(i);
      case WorkerGet(j) => ran := p.WorkerTake(j);
      case WorkerFinish(j, transient) => ran := p.WorkerProcess(j, transient);
      case WorkerRequeue(j) => ran := p.WorkerPutBack(j);
      case a => ran := p.RunProceeds(a);
    }
    assert schedule[..|schedule|] == schedule;
  }
}

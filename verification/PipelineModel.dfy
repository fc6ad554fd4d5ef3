/**
  The event pipeline lab as a state machine. Between two awaits a coroutine runs alone, so each action
  is what one coroutine does from one suspension point to the next; the event loop may interleave the
  actions in any order. An action whose await cannot return yet changes nothing.
 */
module PipelineModel {
  import opened Results

  datatype Event = Event(id: string, key: string, payload: string, attempt: nat) {
    function WithAttempt(n: nat): Event { this.(attempt := n) }
  }

  datatype Config = Config(
    shards: int, workers: int, shardQueueSize: int, workQueueSize: int, maxAttempts: int,
    poisonKey: Option<string>, digest: string -> nat)
  {
    /** What the command line accepts. */
    ghost predicate Valid() { shards > 0 && workers > 0 }

    function StableShard(key: string): (s: int)
      requires shards > 0
      ensures 0 <= s < shards
    {
      digest(key) % shards
    }

    predicate Poison(e: Event) {
      poisonKey.Some? && poisonKey.value != "" && e.key == poisonKey.value
    }

    /** An event is tried at most this often for each time it is admitted. */
    function Tries(): (n: nat)
      ensures n >= 1
    {
      if maxAttempts > 1 then maxAttempts else 1
    }
  }

  /** asyncio.Queue: its items, and the number of put items not yet marked with task_done. */
  datatype Queue = Queue(items: seq<Event>, unfinished: nat) {
    function Put(e: Event): Queue { Queue(items + [e], unfinished + 1) }

    function Take(): Queue
      requires items != []
    {
      Queue(items[1..], unfinished)
    }

    /** task_done; the caller holds an unfinished item. */
    function Done(): Queue { if unfinished > 0 then Queue(items, unfinished - 1) else this }
  }

  /** A size of zero or less means an unbounded queue. */
  predicate Full(q: Queue, size: int) { 0 < size <= |q.items| }

  datatype Producer = Between | Admitting(e: Event) | Finished
  datatype Router = Getting | Routing(e: Event)
  datatype Worker = Idle | Processing(e: Event) | Requeueing(e: Event)

  /** Where run() waits. A join may return any time after its queue has been seen idle once. */
  datatype Waiting = ForProducer | ForShards(joined: set<int>) | ForWork(seen: bool) | Stopped

  datatype Metrics = Metrics(
    produced: nat, admitted: nat, producerBackpressure: nat, routed: nat, processed: nat, duplicates: nat,
    retries: nat, dlq: nat, transientFailures: nat, permanentFailures: nat, shardCounts: seq<nat>)

  /** What has happened to each event so far. Not part of the program: the accounts are kept in it. */
  datatype Ledger = Ledger(
    admitted: seq<string>, routed: seq<string>, processed: seq<string>,
    duplicates: seq<string>, executed: seq<string>,
    lanesIn: seq<seq<Event>>, lanesOut: seq<seq<Event>>)

  datatype State = State(
    shardQueues: seq<Queue>, workQueue: Queue, dlq: seq<Event>, inbox: set<string>,
    producer: Producer, routers: seq<Router>, workers: seq<Worker>, main: Waiting,
    metrics: Metrics, ledger: Ledger)

  datatype Action =
    | Produce(id: string, key: string, payload: string)
    | Admit
    | ProducerDone
    | RouterGet(i: nat)
    | RouterPut(i: nat)
    | WorkerGet(j: nat)
    | WorkerFinish(j: nat, transient: bool)
    | WorkerRequeue(j: nat)
    | MainProducer
    | MainShard(i: nat)
    | MainShards
    | MainWorkSeen
    | MainStop

  ghost predicate Shaped(c: Config, s: State) {
    && c.Valid()
    && |s.shardQueues| == |s.routers| == |s.metrics.shardCounts| == |s.ledger.lanesIn| == |s.ledger.lanesOut| == c.shards
    && |s.workers| == c.workers
  }

  predicate Enabled(c: Config, s: State, a: Action)
    requires Shaped(c, s)
  {
    match a
    case Produce(_, _, _) => s.producer.Between?
    case Admit => s.producer.Admitting? && !Full(s.shardQueues[c.StableShard(s.producer.e.key)], c.shardQueueSize)
    case ProducerDone => s.producer.Between?
    case RouterGet(i) => i < c.shards && s.routers[i].Getting? && s.shardQueues[i].items != []
    case RouterPut(i) => i < c.shards && s.routers[i].Routing? && !Full(s.workQueue, c.workQueueSize)
    case WorkerGet(j) => j < c.workers && s.workers[j].Idle? && s.workQueue.items != []
    case WorkerFinish(j, _) => j < c.workers && s.workers[j].Processing?
    case WorkerRequeue(j) => j < c.workers && s.workers[j].Requeueing? && !Full(s.workQueue, c.workQueueSize)
    case MainProducer => s.main.ForProducer? && s.producer.Finished?
    case MainShard(i) => s.main.ForShards? && i < c.shards && i !in s.main.joined && s.shardQueues[i].unfinished == 0
    case MainShards => s.main.ForShards? && forall i :: 0 <= i < c.shards ==> i in s.main.joined
    case MainWorkSeen => s.main == ForWork(false) && s.workQueue.unfinished == 0
    case MainStop => s.main == ForWork(true)
  }

  function Next(c: Config, s: State, a: Action): State
    requires Shaped(c, s)
  {
    if !Enabled(c, s, a) then s else
    match a
    case Produce(id, key, payload) => Produced(c, s, Event(id, key, payload, 0))
    case Admit => Admitted(c, s, s.producer.e)
    case ProducerDone => s.(producer := Finished)
    case RouterGet(i) => Fetched(c, s, i)
    case RouterPut(i) => Routed(c, s, i, s.routers[i].e)
    case WorkerGet(j) => Started(c, s, j, s.workQueue.items[0])
    case WorkerFinish(j, transient) => Finish(c, s, j, transient)
    case WorkerRequeue(j) => Requeued(c, s, j)
    case MainProducer => s.(main := ForShards({}))
    case MainShard(i) => s.(main := ForShards(s.main.joined + {i}))
    case MainShards => s.(main := ForWork(false))
    case MainWorkSeen => s.(main := ForWork(true))
    case MainStop => s.(main := Stopped)
  }

  function Produced(c: Config, s: State, e: Event): State
    requires Shaped(c, s)
  {
    var pressed := if Full(s.shardQueues[c.StableShard(e.key)], c.shardQueueSize) then 1 else 0;
    s.(producer := Admitting(e),
       metrics := s.metrics.(produced := s.metrics.produced + 1,
                             producerBackpressure := s.metrics.producerBackpressure + pressed))
  }

  function Admitted(c: Config, s: State, e: Event): State
    requires Shaped(c, s)
  {
    var k := c.StableShard(e.key);
    s.(producer := Between,
       shardQueues := s.shardQueues[k := s.shardQueues[k].Put(e)],
       metrics := s.metrics.(admitted := s.metrics.admitted + 1,
                             shardCounts := s.metrics.shardCounts[k := s.metrics.shardCounts[k] + 1]),
       ledger := s.ledger.(admitted := s.ledger.admitted + [e.id],
                           lanesIn := s.ledger.lanesIn[k := s.ledger.lanesIn[k] + [e]]))
  }

  function Fetched(c: Config, s: State, i: nat): State
    requires Shaped(c, s) && i < c.shards && s.shardQueues[i].items != []
  {
    s.(routers := s.routers[i := Routing(s.shardQueues[i].items[0])],
       shardQueues := s.shardQueues[i := s.shardQueues[i].Take()])
  }

  function Routed(c: Config, s: State, i: nat, e: Event): State
    requires Shaped(c, s) && i < c.shards
  {
    s.(routers := s.routers[i := Getting],
       workQueue := s.workQueue.Put(e),
       shardQueues := s.shardQueues[i := s.shardQueues[i].Done()],
       metrics := s.metrics.(routed := s.metrics.routed + 1),
       ledger := s.ledger.(routed := s.ledger.routed + [e.id],
                           lanesOut := s.ledger.lanesOut[i := s.ledger.lanesOut[i] + [e]]))
  }

  function Started(c: Config, s: State, j: nat, e: Event): State
    requires Shaped(c, s) && j < c.workers && s.workQueue.items != []
  {
    s.(workers := s.workers[j := Processing(e)],
       workQueue := s.workQueue.Take(),
       ledger := s.ledger.(executed := s.ledger.executed + [e.id]))
  }

  function Requeued(c: Config, s: State, j: nat): State
    requires Shaped(c, s) && j < c.workers && s.workers[j].Requeueing?
  {
    s.(workers := s.workers[j := Idle], workQueue := s.workQueue.Put(s.workers[j].e).Done())
  }

  /** The end of processing: dead-letter, retry, suppress a duplicate, or apply the effect. */
  function Finish(c: Config, s: State, j: nat, transient: bool): State
    requires Shaped(c, s) && j < c.workers && s.workers[j].Processing?
  {
    var e := s.workers[j].e;
    var free := s.(workers := s.workers[j := Idle], workQueue := s.workQueue.Done());
    var m := s.metrics;
    if c.Poison(e) then
      free.(dlq := s.dlq + [e.WithAttempt(e.attempt + 1)],
            metrics := m.(permanentFailures := m.permanentFailures + 1, dlq := m.dlq + 1))
    else if transient && e.attempt + 1 >= c.maxAttempts then
      free.(dlq := s.dlq + [e.WithAttempt(e.attempt + 1)],
            metrics := m.(transientFailures := m.transientFailures + 1, dlq := m.dlq + 1))
    else if transient then
      s.(workers := s.workers[j := Requeueing(e.WithAttempt(e.attempt + 1))],
         metrics := m.(transientFailures := m.transientFailures + 1, retries := m.retries + 1))
    else if e.id in s.inbox then
      free.(metrics := m.(duplicates := m.duplicates + 1),
            ledger := s.ledger.(duplicates := s.ledger.duplicates + [e.id]))
    else
      free.(inbox := s.inbox + {e.id},
            metrics := m.(processed := m.processed + 1),
            ledger := s.ledger.(processed := s.ledger.processed + [e.id]))
  }

  lemma NextShaped(c: Config, s: State, a: Action)
    requires Shaped(c, s)
    ensures Shaped(c, Next(c, s, a))
  {
  }

  function Initial(c: Config, inbox: set<string>): State
    requires c.Valid()
  {
    State(seq(c.shards, _ => Queue([], 0)), Queue([], 0), [], inbox,
          Between, seq(c.shards, _ => Getting), seq(c.workers, _ => Idle), ForProducer,
          Metrics(0, 0, 0, 0, 0, 0, 0, 0, 0, 0, seq(c.shards, _ => 0)),
          Ledger([], [], [], [], [],
                 seq(c.shards, _ => []), seq(c.shards, _ => [])))
  }

  /** Any interleaving of the coroutines, from a start with a given inbox. */
  ghost function Run(c: Config, inbox: set<string>, actions: seq<Action>): (s: State)
    requires c.Valid()
    ensures Shaped(c, s)
  {
    if actions == [] then Initial(c, inbox)
    else Next(c, Run(c, inbox, actions[..|actions| - 1]), actions[|actions| - 1])
  }

  // ---- sums ----

  function Sum<T>(xs: seq<T>, f: T -> nat): nat {
    if xs == [] then 0 else Sum(xs[..|xs| - 1], f) + f(xs[|xs| - 1])
  }

  /** Replacing one element trades its share for the new one's. */
  lemma {:induction false} SumUpdate<T>(xs: seq<T>, i: nat, x: T, f: T -> nat)
    requires i < |xs|
    ensures Sum(xs[i := x], f) + f(xs[i]) == Sum(xs, f) + f(x)
  {
    var n := |xs| - 1;
    if i < n {
      SumUpdate(xs[..n], i, x, f);
      assert xs[i := x][..n] == xs[..n][i := x];
    } else {
      assert xs[i := x][..n] == xs[..n];
    }
  }

  lemma {:induction false} SumZero<T>(xs: seq<T>, f: T -> nat)
    ensures Sum(xs, f) == 0 <==> forall i | 0 <= i < |xs| :: f(xs[i]) == 0
  {
    if xs != [] {
      SumZero(xs[..|xs| - 1], f);
    }
  }

  lemma SumAppend<T>(xs: seq<T>, x: T, f: T -> nat)
    ensures Sum(xs + [x], f) == Sum(xs, f) + f(x)
  {
    assert (xs + [x])[..|xs|] == xs;
  }

  lemma {:induction false} SumHead<T>(xs: seq<T>, f: T -> nat)
    requires xs != []
    ensures Sum(xs, f) == f(xs[0]) + Sum(xs[1..], f)
  {
    var n := |xs| - 1;
    if n > 0 {
      SumHead(xs[..n], f);
      assert xs[..n][1..] == xs[1..][..n - 1];
    }
  }
}

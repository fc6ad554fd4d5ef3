/**
  What the pipeline's final report may be trusted for, over every interleaving of its coroutines.
 */
module PipelineTheorems {
  import opened PipelineModel
  import opened PipelineRuns

  function Depth(): Queue -> nat { (q: Queue) => |q.items| }
  function Holding(): Router -> nat { (r: Router) => if r.Routing? then 1 else 0 }
  function Busy(): Worker -> nat { (k: Worker) => if k.Idle? then 0 else 1 }

  lemma {:induction false} SumOnes<T>(xs: seq<T>, f: T -> nat)
    requires forall x :: f(x) == 1
    ensures Sum(xs, f) == |xs|
  {
    if xs != [] {
      SumOnes(xs[..|xs| - 1], f);
    }
  }

  lemma {:induction false} SumSame<T>(xs: seq<T>, f: T -> nat, g: T -> nat)
    requires forall x :: f(x) == g(x)
    ensures Sum(xs, f) == Sum(xs, g)
  {
    if xs != [] {
      SumSame(xs[..|xs| - 1], f, g);
    }
  }

  lemma OnesAreCounts(c: Config, s: State)
    requires Shaped(c, s)
    ensures Sum(s.shardQueues, QueueWeight(One())) == Sum(s.shardQueues, Depth())
    ensures Sum(s.routers, RouterWeight(One())) == Sum(s.routers, Holding())
    ensures Sum(s.workers, WorkerWeight(One())) == Sum(s.workers, Busy())
    ensures Sum(s.workQueue.items, EventWeight(One())) == |s.workQueue.items|
    ensures Sum(s.dlq, EventWeight(One())) == |s.dlq|
    ensures forall ids: seq<string> :: Sum(ids, One()) == |ids|
  {
    forall q: Queue ensures QueueWeight(One())(q) == Depth()(q) {
      SumOnes(q.items, EventWeight(One()));
    }
    SumSame(s.shardQueues, QueueWeight(One()), Depth());
    SumSame(s.routers, RouterWeight(One()), Holding());
    SumSame(s.workers, WorkerWeight(One()), Busy());
    SumOnes(s.workQueue.items, EventWeight(One()));
    SumOnes(s.dlq, EventWeight(One()));
    forall ids: seq<string> ensures Sum(ids, One()) == |ids| {
      SumOnes(ids, One());
    }
  }

  /** At every moment of every run the counters and the queues account for each other. */
  lemma AccountsBalance(c: Config, inbox: set<string>, actions: seq<Action>)
    requires c.Valid()
    ensures var s := Run(c, inbox, actions);
            var m := s.metrics;
            && m.produced == m.admitted + (if s.producer.Admitting? then 1 else 0)
            && m.admitted == Sum(s.shardQueues, Depth()) + Sum(s.routers, Holding()) + m.routed
            && m.routed == |s.workQueue.items| + Sum(s.workers, Busy()) + m.processed + m.duplicates + m.dlq
            && m.transientFailures + m.permanentFailures == m.retries + m.dlq
            && m.dlq == |s.dlq|
            && |s.inbox| == |inbox| + m.processed
  {
    InvRun(c, inbox, actions, One());
    OnesAreCounts(c, Run(c, inbox, actions));
  }

  lemma IdleWeighsNothing(c: Config, s: State, w: string -> nat)
    requires Shaped(c, s) && AllShardsIdle(c, s) && WorkIdle(c, s)
    ensures Sum(s.shardQueues, QueueWeight(w)) == 0 && Sum(s.routers, RouterWeight(w)) == 0
    ensures Sum(s.workers, WorkerWeight(w)) == 0 && Sum(s.workQueue.items, EventWeight(w)) == 0
  {
    forall i | 0 <= i < c.shards
      ensures QueueWeight(w)(s.shardQueues[i]) == 0 && RouterWeight(w)(s.routers[i]) == 0
    {
      assert ShardIdle(c, s, i);
    }
    SumZero(s.shardQueues, QueueWeight(w));
    SumZero(s.routers, RouterWeight(w));
    SumZero(s.workers, WorkerWeight(w));
  }

  lemma NothingLeftToDo(c: Config, s: State, a: Action)
    requires Shaped(c, s) && s.main.Stopped? && s.producer.Finished? && AllShardsIdle(c, s) && WorkIdle(c, s)
    ensures Next(c, s, a) == s
  {
    assert (a.RouterGet? || a.RouterPut?) && a.i < c.shards ==> ShardIdle(c, s, a.i);
  }

  /** When the three joins have let run() go on, the pipeline is empty and will stay so, and everything
      produced has been processed, suppressed as a duplicate or dead-lettered. */
  lemma JoinsMeanQuiescence(c: Config, inbox: set<string>, actions: seq<Action>)
    requires c.Valid() && Run(c, inbox, actions).main.Stopped?
    ensures var s := Run(c, inbox, actions);
            && AllShardsIdle(c, s) && WorkIdle(c, s)
            && s.metrics.produced == s.metrics.processed + s.metrics.duplicates + s.metrics.dlq
            && (forall a :: Next(c, s, a) == s)
  {
    var s := Run(c, inbox, actions);
    InvRun(c, inbox, actions, One());
    IdleWeighsNothing(c, s, One());
    OnesAreCounts(c, s);
    forall a ensures Next(c, s, a) == s {
      NothingLeftToDo(c, s, a);
    }
  }

  function Only(id: string): string -> nat { (other: string) => if other == id then 1 else 0 }

  /** How often an id occurs in a list of ids, and among dead-lettered events. */
  function Times(ids: seq<string>, id: string): nat { Sum(ids, Only(id)) }
  function DeadTimes(es: seq<Event>, id: string): nat { Sum(es, EventWeight(Only(id))) }

  /** Event by event: at the end each admission of an event has become one processing, one suppressed
      duplicate or one dead letter of that same event, and at most one of them is a processing. */
  lemma EveryEventSettles(c: Config, inbox: set<string>, actions: seq<Action>, id: string)
    requires c.Valid() && Run(c, inbox, actions).main.Stopped?
    ensures var s := Run(c, inbox, actions);
            && Times(s.ledger.admitted, id)
               == Times(s.ledger.processed, id) + Times(s.ledger.duplicates, id) + DeadTimes(s.dlq, id)
            && Times(s.ledger.processed, id) == (if id in s.inbox && id !in inbox then 1 else 0)
  {
    var s := Run(c, inbox, actions);
    InvRun(c, inbox, actions, Only(id));
    IdleWeighsNothing(c, s, Only(id));
    TimesDistinct(s.ledger.processed, id);
  }

  lemma {:induction false} TimesDistinct(ids: seq<string>, id: string)
    requires forall i, j | 0 <= i < j < |ids| :: ids[i] != ids[j]
    ensures Times(ids, id) == if id in ids then 1 else 0
  {
    if ids != [] {
      TimesDistinct(ids[..|ids| - 1], id);
    }
  }

  /** No event is ever executed by workers more often than max_attempts times its admissions, nor are
      all events together; only poison events are dead-lettered before their last try. */
  lemma ExecutionBound(c: Config, inbox: set<string>, actions: seq<Action>, id: string)
    requires c.Valid()
    ensures var s := Run(c, inbox, actions);
            && Times(s.ledger.executed, id) <= c.Tries() * Times(s.ledger.admitted, id)
            && |s.ledger.executed| <= c.Tries() * s.metrics.admitted
            && forall e | e in s.dlq :: c.Poison(e) || e.attempt == c.Tries()
  {
    var s := Run(c, inbox, actions);
    InvRun(c, inbox, actions, Only(id));
    TotalAllowance(c, Only(id), s.ledger.admitted);
    InvRun(c, inbox, actions, One());
    TotalAllowance(c, One(), s.ledger.admitted);
    OnesAreCounts(c, s);
  }

  /** A shard hands its events to the work queue in the order it admitted them, and only its own. */
  lemma ShardsAreFifo(c: Config, inbox: set<string>, actions: seq<Action>, i: nat)
    requires c.Valid() && i < c.shards
    ensures var s := Run(c, inbox, actions);
            && s.ledger.lanesIn[i] == s.ledger.lanesOut[i] + Held(s.routers[i]) + s.shardQueues[i].items
            && s.metrics.shardCounts[i] == |s.ledger.lanesIn[i]|
            && forall e | e in s.ledger.lanesIn[i] :: c.StableShard(e.key) == i
  {
    InvRun(c, inbox, actions, One());
    assert InLane(c, Run(c, inbox, actions), i);
  }
}

/**
  What every interleaving of the pipeline keeps, and what run() may conclude when its joins return.
 */
module PipelineRuns {
  import opened PipelineModel

  // ---- no event is lost or invented ----

  // A weight on event ids turns every place that holds events into a number. With weight 1 for every
  // id the numbers are the program's counters; with weight 1 for one id only they follow that event.

  function EventWeight(w: string -> nat): Event -> nat { (e: Event) => w(e.id) }
  function QueueWeight(w: string -> nat): Queue -> nat { (q: Queue) => Sum(q.items, EventWeight(w)) }

  function WeighRouter(w: string -> nat, r: Router): nat { if r.Routing? then w(r.e.id) else 0 }
  function RouterWeight(w: string -> nat): Router -> nat { (r: Router) => WeighRouter(w, r) }

  function WeighWorker(w: string -> nat, k: Worker): nat { if k.Idle? then 0 else w(k.e.id) }
  function WorkerWeight(w: string -> nat): Worker -> nat { (k: Worker) => WeighWorker(w, k) }

  ghost predicate ShardsConserve(c: Config, s: State, w: string -> nat)
    requires Shaped(c, s)
  {
    Sum(s.ledger.admitted, w)
      == Sum(s.shardQueues, QueueWeight(w)) + Sum(s.routers, RouterWeight(w)) + Sum(s.ledger.routed, w)
  }

  ghost predicate WorkConserves(c: Config, s: State, w: string -> nat)
    requires Shaped(c, s)
  {
    Sum(s.ledger.routed, w)
      == Sum(s.workQueue.items, EventWeight(w)) + Sum(s.workers, WorkerWeight(w))
       + Sum(s.ledger.processed, w) + Sum(s.ledger.duplicates, w) + Sum(s.dlq, EventWeight(w))
  }

  /** A router takes the first event of its shard queue, or hands over the one it holds. */
  ghost predicate RouterMoves(c: Config, s: State, t: State, i: nat)
    requires Shaped(c, s) && Shaped(c, t)
  {
    && i < c.shards
    && t.routers == s.routers[i := t.routers[i]] && t.shardQueues == s.shardQueues[i := t.shardQueues[i]]
    && if s.routers[i].Getting?
       then && s.shardQueues[i].items != [] && t.routers[i] == Routing(s.shardQueues[i].items[0])
            && t.shardQueues[i].items == s.shardQueues[i].items[1..]
            && t.ledger.routed == s.ledger.routed && t.workQueue == s.workQueue
       else && t.routers[i].Getting? && t.shardQueues[i].items == s.shardQueues[i].items
            && t.ledger.routed == s.ledger.routed + [s.routers[i].e.id]
            && t.workQueue.items == s.workQueue.items + [s.routers[i].e]
  }

  lemma RouterConserves(c: Config, s: State, t: State, i: nat, w: string -> nat)
    requires Shaped(c, s) && Shaped(c, t) && ShardsConserve(c, s, w) && RouterMoves(c, s, t, i)
    requires t.ledger.admitted == s.ledger.admitted
    ensures ShardsConserve(c, t, w)
  {
    SumUpdate(s.shardQueues, i, t.shardQueues[i], QueueWeight(w));
    SumUpdate(s.routers, i, t.routers[i], RouterWeight(w));
    if s.routers[i].Getting? {
      SumHead(s.shardQueues[i].items, EventWeight(w));
    } else {
      SumAppend(s.ledger.routed, s.routers[i].e.id, w);
    }
  }

  lemma AdmissionConserves(c: Config, s: State, t: State, k: nat, e: Event, w: string -> nat)
    requires Shaped(c, s) && Shaped(c, t) && ShardsConserve(c, s, w) && k < c.shards
    requires t.shardQueues == s.shardQueues[k := s.shardQueues[k].Put(e)] && t.routers == s.routers
    requires t.ledger.admitted == s.ledger.admitted + [e.id] && t.ledger.routed == s.ledger.routed
    ensures ShardsConserve(c, t, w)
  {
    SumUpdate(s.shardQueues, k, t.shardQueues[k], QueueWeight(w));
    SumAppend(s.shardQueues[k].items, e, EventWeight(w));
    SumAppend(s.ledger.admitted, e.id, w);
  }

  lemma ShardsConserveStep(c: Config, s: State, a: Action, w: string -> nat)
    requires Shaped(c, s) && ShardsConserve(c, s, w)
    ensures ShardsConserve(c, Next(c, s, a), w)
  {
    if Enabled(c, s, a) {
      var t := Next(c, s, a);
      if a.Admit? {
        AdmissionConserves(c, s, t, c.StableShard(s.producer.e.key), s.producer.e, w);
      } else if a.RouterGet? || a.RouterPut? {
        RouterConserves(c, s, t, a.i, w);
      }
    }
  }

  /** A worker's event leaves it for exactly one place. */
  lemma WorkerSettles(c: Config, s: State, t: State, j: nat, w: string -> nat)
    requires Shaped(c, s) && Shaped(c, t) && WorkConserves(c, s, w) && j < c.workers && s.workers[j].Processing?
    requires t.ledger.routed == s.ledger.routed && t.workQueue.items == s.workQueue.items
    requires t.workers == s.workers[j := t.workers[j]]
    requires var e := s.workers[j].e;
             var again := e.WithAttempt(e.attempt + 1);
             || (t.workers[j] == Requeueing(again) && t.dlq == s.dlq
                 && t.ledger.processed == s.ledger.processed && t.ledger.duplicates == s.ledger.duplicates)
             || (t.workers[j] == Idle && t.dlq == s.dlq + [again]
                 && t.ledger.processed == s.ledger.processed && t.ledger.duplicates == s.ledger.duplicates)
             || (t.workers[j] == Idle && t.dlq == s.dlq
                 && t.ledger.processed == s.ledger.processed + [e.id] && t.ledger.duplicates == s.ledger.duplicates)
             || (t.workers[j] == Idle && t.dlq == s.dlq
                 && t.ledger.processed == s.ledger.processed && t.ledger.duplicates == s.ledger.duplicates + [e.id])
    ensures WorkConserves(c, t, w)
  {
    var e := s.workers[j].e;
    SumUpdate(s.workers, j, t.workers[j], WorkerWeight(w));
    SumAppend(s.dlq, e.WithAttempt(e.attempt + 1), EventWeight(w));
    SumAppend(s.ledger.processed, e.id, w);
    SumAppend(s.ledger.duplicates, e.id, w);
  }

  ghost predicate SameAccounts(s: State, t: State) {
    && t.ledger.routed == s.ledger.routed && t.ledger.processed == s.ledger.processed
    && t.ledger.duplicates == s.ledger.duplicates && t.dlq == s.dlq
  }

  ghost predicate Takes(c: Config, s: State, t: State, j: nat)
    requires Shaped(c, s)
  {
    && j < c.workers && s.workers[j].Idle? && s.workQueue.items != []
    && t.workers == s.workers[j := Processing(s.workQueue.items[0])] && t.workQueue.items == s.workQueue.items[1..]
  }

  ghost predicate Requeues(c: Config, s: State, t: State, j: nat)
    requires Shaped(c, s)
  {
    && j < c.workers && s.workers[j].Requeueing?
    && t.workers == s.workers[j := Idle] && t.workQueue.items == s.workQueue.items + [s.workers[j].e]
  }

  lemma WorkMoves(c: Config, s: State, t: State, j: nat, w: string -> nat)
    requires Shaped(c, s) && Shaped(c, t) && WorkConserves(c, s, w) && SameAccounts(s, t)
    requires Takes(c, s, t, j) || Requeues(c, s, t, j)
    ensures WorkConserves(c, t, w)
  {
    SumUpdate(s.workers, j, t.workers[j], WorkerWeight(w));
    if s.workers[j].Idle? {
      SumHead(s.workQueue.items, EventWeight(w));
    } else {
      SumAppend(s.workQueue.items, s.workers[j].e, EventWeight(w));
    }
  }

  lemma RoutingConserves(c: Config, s: State, t: State, e: Event, w: string -> nat)
    requires Shaped(c, s) && Shaped(c, t) && WorkConserves(c, s, w) && t.workers == s.workers && t.dlq == s.dlq
    requires t.ledger.processed == s.ledger.processed && t.ledger.duplicates == s.ledger.duplicates
    requires t.workQueue.items == s.workQueue.items + [e] && t.ledger.routed == s.ledger.routed + [e.id]
    ensures WorkConserves(c, t, w)
  {
    SumAppend(s.workQueue.items, e, EventWeight(w));
    SumAppend(s.ledger.routed, e.id, w);
  }

  lemma FinishConserves(c: Config, s: State, j: nat, transient: bool, w: string -> nat)
    requires Shaped(c, s) && WorkConserves(c, s, w) && j < c.workers && s.workers[j].Processing?
    ensures WorkConserves(c, Finish(c, s, j, transient), w)
  {
    WorkerSettles(c, s, Finish(c, s, j, transient), j, w);
  }

  lemma WorkConservesStep(c: Config, s: State, a: Action, w: string -> nat)
    requires Shaped(c, s) && WorkConserves(c, s, w)
    ensures WorkConserves(c, Next(c, s, a), w)
  {
    if Enabled(c, s, a) {
      match a
      case RouterPut(i) => RoutingConserves(c, s, Routed(c, s, i, s.routers[i].e), s.routers[i].e, w);
      case WorkerFinish(j, transient) => FinishConserves(c, s, j, transient, w);
      case WorkerGet(j) => WorkMoves(c, s, Started(c, s, j, s.workQueue.items[0]), j, w);
      case WorkerRequeue(j) => WorkMoves(c, s, Requeued(c, s, j), j, w);
      case _ =>
    }
  }

  // ---- the counters count, and the inbox is the processed events ----

  ghost predicate Counted(c: Config, s: State)
    requires Shaped(c, s)
  {
    var m, l := s.metrics, s.ledger;
    && m.admitted == |l.admitted| && m.routed == |l.routed|
    && m.processed == |l.processed| && m.duplicates == |l.duplicates| && m.dlq == |s.dlq|
    && m.produced == m.admitted + (if s.producer.Admitting? then 1 else 0)
    && m.transientFailures + m.permanentFailures == m.retries + m.dlq
  }

  lemma FinishCounted(c: Config, s: State, j: nat, transient: bool)
    requires Shaped(c, s) && Counted(c, s) && j < c.workers && s.workers[j].Processing?
    ensures Counted(c, Finish(c, s, j, transient))
  {
  }

  lemma CountedStep(c: Config, s: State, a: Action)
    requires Shaped(c, s) && Counted(c, s)
    ensures Counted(c, Next(c, s, a))
  {
    if Enabled(c, s, a) && a.WorkerFinish? {
      FinishCounted(c, s, a.j, a.transient);
    }
  }

  /** The events processed since the start, each once, are the rows the inbox gained. */
  ghost predicate AppliedOnce(s: State, inbox: set<string>) {
    && (forall i, j | 0 <= i < j < |s.ledger.processed| :: s.ledger.processed[i] != s.ledger.processed[j])
    && (forall id | id in s.ledger.processed :: id in s.inbox && id !in inbox)
    && (forall id | id in s.inbox :: id in inbox || id in s.ledger.processed)
    && inbox <= s.inbox
    && |s.inbox| == |inbox| + |s.ledger.processed|
  }

  lemma FinishAppliedOnce(c: Config, s: State, j: nat, transient: bool, inbox: set<string>)
    requires Shaped(c, s) && AppliedOnce(s, inbox) && j < c.workers && s.workers[j].Processing?
    ensures AppliedOnce(Finish(c, s, j, transient), inbox)
  {
  }

  lemma AppliedOnceStep(c: Config, s: State, a: Action, inbox: set<string>)
    requires Shaped(c, s) && AppliedOnce(s, inbox)
    ensures AppliedOnce(Next(c, s, a), inbox)
  {
    if Enabled(c, s, a) && a.WorkerFinish? {
      FinishAppliedOnce(c, s, a.j, a.transient, inbox);
    }
  }

  // ---- unfinished counts ----

  function One(): string -> nat { (id: string) => 1 }

  ghost predicate ShardsTracked(c: Config, s: State)
    requires Shaped(c, s)
  {
    forall i | 0 <= i < c.shards ::
      s.shardQueues[i].unfinished == |s.shardQueues[i].items| + (if s.routers[i].Routing? then 1 else 0)
  }

  /** Every worker that is not idle holds an unfinished item, also while it waits to requeue a retry. */
  ghost predicate WorkTracked(c: Config, s: State)
    requires Shaped(c, s)
  {
    s.workQueue.unfinished == |s.workQueue.items| + Sum(s.workers, WorkerWeight(One()))
  }

  lemma ShardsTrackedStep(c: Config, s: State, a: Action)
    requires Shaped(c, s) && ShardsTracked(c, s)
    ensures ShardsTracked(c, Next(c, s, a))
  {
  }

  /** What a worker does to the queue: take an item, mark its item done, or put a retry back and do so. */
  lemma WorkerTracked(c: Config, s: State, t: State, j: nat)
    requires Shaped(c, s) && Shaped(c, t) && WorkTracked(c, s) && j < c.workers
    requires t.workers == s.workers[j := t.workers[j]]
    requires var q, r := s.workQueue, t.workQueue;
             || (s.workers[j].Idle? && !t.workers[j].Idle? && q.items != [] && r == q.Take())
             || (!s.workers[j].Idle? && !t.workers[j].Idle? && r == q)
             || (!s.workers[j].Idle? && t.workers[j].Idle? && r == q.Done())
             || (!s.workers[j].Idle? && t.workers[j].Idle? && r == q.Put(s.workers[j].e).Done())
    ensures WorkTracked(c, t)
  {
    SumUpdate(s.workers, j, t.workers[j], WorkerWeight(One()));
  }

  lemma FinishTracked(c: Config, s: State, j: nat, transient: bool)
    requires Shaped(c, s) && WorkTracked(c, s) && j < c.workers && s.workers[j].Processing?
    ensures WorkTracked(c, Finish(c, s, j, transient))
  {
    WorkerTracked(c, s, Finish(c, s, j, transient), j);
  }

  lemma WorkTrackedStep(c: Config, s: State, a: Action)
    requires Shaped(c, s) && WorkTracked(c, s)
    ensures WorkTracked(c, Next(c, s, a))
  {
    if Enabled(c, s, a) {
      match a
      case WorkerGet(j) => WorkerTracked(c, s, Started(c, s, j, s.workQueue.items[0]), j);
      case WorkerFinish(j, transient) => FinishTracked(c, s, j, transient);
      case WorkerRequeue(j) => WorkerTracked(c, s, Requeued(c, s, j), j);
      case _ =>
    }
  }

  // ---- lanes: each shard is first in, first out up to the work queue ----

  function Held(r: Router): seq<Event> { if r.Routing? then [r.e] else [] }

  ghost predicate InLane(c: Config, s: State, i: int)
    requires Shaped(c, s) && 0 <= i < c.shards
  {
    && s.ledger.lanesIn[i] == s.ledger.lanesOut[i] + Held(s.routers[i]) + s.shardQueues[i].items
    && s.metrics.shardCounts[i] == |s.ledger.lanesIn[i]|
    && forall e | e in s.ledger.lanesIn[i] :: c.StableShard(e.key) == i && e.attempt == 0
  }

  ghost predicate InLanes(c: Config, s: State)
    requires Shaped(c, s)
  {
    forall i | 0 <= i < c.shards :: InLane(c, s, i)
  }

  lemma AdmittedLane(c: Config, s: State, i: int)
    requires Shaped(c, s) && 0 <= i < c.shards && InLane(c, s, i) && s.producer.Admitting? && s.producer.e.attempt == 0
    ensures InLane(c, Admitted(c, s, s.producer.e), i)
  {
  }

  lemma FetchedLane(c: Config, s: State, k: nat, i: int)
    requires Shaped(c, s) && 0 <= i < c.shards && InLane(c, s, i)
    requires k < c.shards && s.routers[k].Getting? && s.shardQueues[k].items != []
    ensures InLane(c, Fetched(c, s, k), i)
  {
    assert s.shardQueues[k].items == [s.shardQueues[k].items[0]] + s.shardQueues[k].items[1..];
  }

  lemma RoutedLane(c: Config, s: State, k: nat, i: int)
    requires Shaped(c, s) && 0 <= i < c.shards && InLane(c, s, i) && k < c.shards && s.routers[k].Routing?
    ensures InLane(c, Routed(c, s, k, s.routers[k].e), i)
  {
  }

  lemma LaneStep(c: Config, s: State, a: Action, i: int)
    requires Shaped(c, s) && 0 <= i < c.shards && InLane(c, s, i) && (s.producer.Admitting? ==> s.producer.e.attempt == 0)
    ensures InLane(c, Next(c, s, a), i)
  {
    if Enabled(c, s, a) {
      match a
      case Admit => AdmittedLane(c, s, i);
      case RouterGet(k) => FetchedLane(c, s, k, i);
      case RouterPut(k) => RoutedLane(c, s, k, i);
      case _ =>
    }
  }

  lemma InLanesStep(c: Config, s: State, a: Action)
    requires Shaped(c, s) && InLanes(c, s) && (s.producer.Admitting? ==> s.producer.e.attempt == 0)
    ensures InLanes(c, Next(c, s, a))
  {
    forall i | 0 <= i < c.shards ensures InLane(c, Next(c, s, a), i) {
      LaneStep(c, s, a, i);
    }
  }

  // ---- attempts and the number of executions ----

  /** Tries an event has left. */
  function Left(c: Config, e: Event): nat { if e.attempt < c.Tries() then c.Tries() - e.attempt else 0 }

  function CreditEvent(c: Config, w: string -> nat, e: Event): nat { Left(c, e) * w(e.id) }
  function EventCredit(c: Config, w: string -> nat): Event -> nat { (e: Event) => CreditEvent(c, w, e) }
  function QueueCredit(c: Config, w: string -> nat): Queue -> nat { (q: Queue) => Sum(q.items, EventCredit(c, w)) }

  function CreditRouter(c: Config, w: string -> nat, r: Router): nat { if r.Routing? then CreditEvent(c, w, r.e) else 0 }
  function RouterCredit(c: Config, w: string -> nat): Router -> nat { (r: Router) => CreditRouter(c, w, r) }

  function CreditWorker(c: Config, w: string -> nat, k: Worker): nat {
    match k
    case Idle => 0
    case Requeueing(e) => CreditEvent(c, w, e)
    case Processing(e) => CreditEvent(c, w, e.WithAttempt(e.attempt + 1))
  }
  function WorkerCredit(c: Config, w: string -> nat): Worker -> nat { (k: Worker) => CreditWorker(c, w, k) }

  /** What one admission allows. */
  function Allow(c: Config, w: string -> nat, id: string): nat { c.Tries() * w(id) }
  function Allowance(c: Config, w: string -> nat): string -> nat { (id: string) => Allow(c, w, id) }

  lemma {:induction false} TotalAllowance(c: Config, w: string -> nat, ids: seq<string>)
    ensures Sum(ids, Allowance(c, w)) == c.Tries() * Sum(ids, w)
  {
    if ids != [] {
      TotalAllowance(c, w, ids[..|ids| - 1]);
    }
  }

  ghost predicate AttemptsBounded(c: Config, s: State)
    requires Shaped(c, s)
  {
    && (s.producer.Admitting? ==> s.producer.e.attempt == 0)
    && (forall e | e in s.workQueue.items :: e.attempt < c.Tries())
    && (forall j | 0 <= j < c.workers && !s.workers[j].Idle? :: s.workers[j].e.attempt < c.Tries())
    && (forall e | e in s.dlq :: c.Poison(e) || e.attempt == c.Tries())
  }

  lemma FinishAttempts(c: Config, s: State, j: nat, transient: bool)
    requires Shaped(c, s) && AttemptsBounded(c, s) && j < c.workers && s.workers[j].Processing?
    ensures AttemptsBounded(c, Finish(c, s, j, transient))
  {
  }

  lemma AttemptsBoundedStep(c: Config, s: State, a: Action)
    requires Shaped(c, s) && AttemptsBounded(c, s) && InLanes(c, s)
    ensures AttemptsBounded(c, Next(c, s, a))
  {
    if Enabled(c, s, a) && a.WorkerFinish? {
      FinishAttempts(c, s, a.j, a.transient);
    } else if Enabled(c, s, a) && a.RouterPut? {
      assert InLane(c, s, a.i) && s.routers[a.i].e in s.ledger.lanesIn[a.i];
    }
  }

  /** Executions so far, and all that the events in flight may still cause, fit what was admitted. */
  ghost predicate ExecutionsBounded(c: Config, s: State, w: string -> nat)
    requires Shaped(c, s)
  {
    Sum(s.ledger.executed, w)
      + Sum(s.shardQueues, QueueCredit(c, w)) + Sum(s.routers, RouterCredit(c, w))
      + Sum(s.workQueue.items, EventCredit(c, w)) + Sum(s.workers, WorkerCredit(c, w))
      <= Sum(s.ledger.admitted, Allowance(c, w))
  }

  lemma OneTryLess(c: Config, e: Event, w: string -> nat)
    requires e.attempt < c.Tries()
    ensures CreditEvent(c, w, e) == w(e.id) + CreditEvent(c, w, e.WithAttempt(e.attempt + 1))
  {
  }

  /** A worker may move on to anything that has no more tries left in it. */
  lemma WorkerMovesOn(c: Config, s: State, t: State, j: nat, w: string -> nat)
    requires Shaped(c, s) && Shaped(c, t) && ExecutionsBounded(c, s, w) && j < c.workers
    requires t.shardQueues == s.shardQueues && t.routers == s.routers && t.workQueue.items == s.workQueue.items
    requires t.ledger.executed == s.ledger.executed && t.ledger.admitted == s.ledger.admitted
    requires t.workers == s.workers[j := t.workers[j]]
    requires CreditWorker(c, w, t.workers[j]) <= CreditWorker(c, w, s.workers[j])
    ensures ExecutionsBounded(c, t, w)
  {
    SumUpdate(s.workers, j, t.workers[j], WorkerCredit(c, w));
  }

  lemma OneMoreAdmitted(c: Config, s: State, t: State, k: nat, e: Event, w: string -> nat)
    requires Shaped(c, s) && Shaped(c, t) && ExecutionsBounded(c, s, w) && k < c.shards
    requires t.shardQueues == s.shardQueues[k := s.shardQueues[k].Put(e)] && t.routers == s.routers
    requires t.workQueue == s.workQueue && t.workers == s.workers
    requires t.ledger.executed == s.ledger.executed && t.ledger.admitted == s.ledger.admitted + [e.id]
    ensures ExecutionsBounded(c, t, w)
  {
    SumUpdate(s.shardQueues, k, t.shardQueues[k], QueueCredit(c, w));
    SumAppend(s.shardQueues[k].items, e, EventCredit(c, w));
    SumAppend(s.ledger.admitted, e.id, Allowance(c, w));
    FirstTry(c, e, w);
  }

  lemma RouterKeepsCredit(c: Config, s: State, t: State, i: nat, w: string -> nat)
    requires Shaped(c, s) && Shaped(c, t) && ExecutionsBounded(c, s, w) && RouterMoves(c, s, t, i)
    requires t.workers == s.workers && t.ledger.executed == s.ledger.executed && t.ledger.admitted == s.ledger.admitted
    ensures ExecutionsBounded(c, t, w)
  {
    SumUpdate(s.shardQueues, i, t.shardQueues[i], QueueCredit(c, w));
    SumUpdate(s.routers, i, t.routers[i], RouterCredit(c, w));
    if s.routers[i].Getting? {
      SumHead(s.shardQueues[i].items, EventCredit(c, w));
    } else {
      SumAppend(s.workQueue.items, s.routers[i].e, EventCredit(c, w));
    }
  }

  lemma FirstTry(c: Config, e: Event, w: string -> nat)
    ensures CreditEvent(c, w, e) <= Allow(c, w, e.id)
  {
  }

  lemma WorkerTakes(c: Config, s: State, t: State, j: nat, w: string -> nat)
    requires Shaped(c, s) && Shaped(c, t) && ExecutionsBounded(c, s, w) && AttemptsBounded(c, s)
    requires t.shardQueues == s.shardQueues && t.routers == s.routers && t.ledger.admitted == s.ledger.admitted
    requires Takes(c, s, t, j) && t.ledger.executed == s.ledger.executed + [s.workQueue.items[0].id]
    ensures ExecutionsBounded(c, t, w)
  {
    var e := s.workQueue.items[0];
    SumUpdate(s.workers, j, t.workers[j], WorkerCredit(c, w));
    SumHead(s.workQueue.items, EventCredit(c, w));
    SumAppend(s.ledger.executed, e.id, w);
    OneTryLess(c, e, w);
  }

  lemma WorkerRequeues(c: Config, s: State, t: State, j: nat, w: string -> nat)
    requires Shaped(c, s) && Shaped(c, t) && ExecutionsBounded(c, s, w)
    requires t.shardQueues == s.shardQueues && t.routers == s.routers && t.ledger.admitted == s.ledger.admitted
    requires Requeues(c, s, t, j) && t.ledger.executed == s.ledger.executed
    ensures ExecutionsBounded(c, t, w)
  {
    SumUpdate(s.workers, j, t.workers[j], WorkerCredit(c, w));
    SumAppend(s.workQueue.items, s.workers[j].e, EventCredit(c, w));
  }

  lemma FinishKeepsCredit(c: Config, s: State, j: nat, transient: bool, w: string -> nat)
    requires Shaped(c, s) && ExecutionsBounded(c, s, w) && j < c.workers && s.workers[j].Processing?
    ensures ExecutionsBounded(c, Finish(c, s, j, transient), w)
  {
    WorkerMovesOn(c, s, Finish(c, s, j, transient), j, w);
  }

  lemma ExecutionsBoundedStep(c: Config, s: State, a: Action, w: string -> nat)
    requires Shaped(c, s) && AttemptsBounded(c, s) && ExecutionsBounded(c, s, w)
    ensures ExecutionsBounded(c, Next(c, s, a), w)
  {
    if Enabled(c, s, a) {
      match a
      case Admit => OneMoreAdmitted(c, s, Admitted(c, s, s.producer.e), c.StableShard(s.producer.e.key), s.producer.e, w);
      case RouterGet(i) => RouterKeepsCredit(c, s, Fetched(c, s, i), i, w);
      case RouterPut(i) => RouterKeepsCredit(c, s, Routed(c, s, i, s.routers[i].e), i, w);
      case WorkerGet(j) => WorkerTakes(c, s, Started(c, s, j, s.workQueue.items[0]), j, w);
      case WorkerFinish(j, transient) => FinishKeepsCredit(c, s, j, transient, w);
      case WorkerRequeue(j) => WorkerRequeues(c, s, Requeued(c, s, j), j, w);
      case _ =>
    }
  }

  // ---- quiescence ----

  ghost predicate ShardIdle(c: Config, s: State, i: int)
    requires Shaped(c, s) && 0 <= i < c.shards
  {
    s.shardQueues[i].items == [] && s.routers[i].Getting?
  }

  ghost predicate AllShardsIdle(c: Config, s: State)
    requires Shaped(c, s)
  {
    forall i | 0 <= i < c.shards :: ShardIdle(c, s, i)
  }

  ghost predicate WorkIdle(c: Config, s: State)
    requires Shaped(c, s)
  {
    s.workQueue.items == [] && forall j | 0 <= j < c.workers :: s.workers[j].Idle?
  }

  ghost predicate Quiescing(c: Config, s: State)
    requires Shaped(c, s)
  {
    match s.main
    case ForProducer => true
    case ForShards(joined) => s.producer.Finished? && forall i | 0 <= i < c.shards && i in joined :: ShardIdle(c, s, i)
    case ForWork(seen) => s.producer.Finished? && AllShardsIdle(c, s) && (seen ==> WorkIdle(c, s))
    case Stopped => s.producer.Finished? && AllShardsIdle(c, s) && WorkIdle(c, s)
  }

  /** With the producer finished, an idle shard stays idle; with every shard idle, idle work stays. */
  lemma IdleStays(c: Config, s: State, a: Action)
    requires Shaped(c, s) && s.producer.Finished?
    ensures Next(c, s, a).producer.Finished?
    ensures forall i | 0 <= i < c.shards && ShardIdle(c, s, i) :: ShardIdle(c, Next(c, s, a), i)
    ensures AllShardsIdle(c, s) && WorkIdle(c, s) ==> WorkIdle(c, Next(c, s, a))
  {
    if a.RouterPut? && Enabled(c, s, a) {
      assert !ShardIdle(c, s, a.i);
    }
  }

  /** When the work queue has no unfinished item, nothing is queued and every worker is idle. */
  lemma NothingUnfinished(c: Config, s: State)
    requires Shaped(c, s) && WorkTracked(c, s) && s.workQueue.unfinished == 0
    ensures WorkIdle(c, s)
  {
    SumZero(s.workers, WorkerWeight(One()));
    forall j | 0 <= j < c.workers ensures s.workers[j].Idle? {
      assert WorkerWeight(One())(s.workers[j]) == 0;
    }
  }

  lemma QuiescingStep(c: Config, s: State, a: Action)
    requires Shaped(c, s) && ShardsTracked(c, s) && WorkTracked(c, s) && Quiescing(c, s)
    ensures Quiescing(c, Next(c, s, a))
  {
    if s.producer.Finished? {
      IdleStays(c, s, a);
    }
    var t := Next(c, s, a);
    if t.main != s.main {
      match a
      case MainShard(i) =>
        assert ShardIdle(c, s, i);
      case MainShards =>
        assert forall i | 0 <= i < c.shards :: i in s.main.joined && ShardIdle(c, s, i);
      case MainWorkSeen =>
        NothingUnfinished(c, s);
      case _ =>
    } else {
      assert s.main.ForWork? || s.main.Stopped? ==> forall i | 0 <= i < c.shards :: ShardIdle(c, s, i);
    }
  }

  // ---- all of it, along any run ----

  ghost predicate Inv(c: Config, s: State, inbox: set<string>, w: string -> nat) {
    && Shaped(c, s) && ShardsConserve(c, s, w) && WorkConserves(c, s, w)
    && Counted(c, s) && AppliedOnce(s, inbox) && ShardsTracked(c, s) && WorkTracked(c, s)
    && InLanes(c, s) && AttemptsBounded(c, s) && ExecutionsBounded(c, s, w) && Quiescing(c, s)
  }

  lemma InitialInv(c: Config, inbox: set<string>, w: string -> nat)
    requires c.Valid()
    ensures Inv(c, Initial(c, inbox), inbox, w)
  {
    var s := Initial(c, inbox);
    SumZero(s.shardQueues, QueueWeight(w));
    SumZero(s.routers, RouterWeight(w));
    SumZero(s.workers, WorkerWeight(w));
    SumZero(s.workers, WorkerWeight(One()));
    SumZero(s.shardQueues, QueueCredit(c, w));
    SumZero(s.routers, RouterCredit(c, w));
    SumZero(s.workers, WorkerCredit(c, w));
  }

  lemma InvStep(c: Config, s: State, a: Action, inbox: set<string>, w: string -> nat)
    requires Inv(c, s, inbox, w)
    ensures Inv(c, Next(c, s, a), inbox, w)
  {
    NextShaped(c, s, a);
    ShardsConserveStep(c, s, a, w);
    WorkConservesStep(c, s, a, w);
    CountedStep(c, s, a);
    AppliedOnceStep(c, s, a, inbox);
    ShardsTrackedStep(c, s, a);
    WorkTrackedStep(c, s, a);
    InLanesStep(c, s, a);
    AttemptsBoundedStep(c, s, a);
    ExecutionsBoundedStep(c, s, a, w);
    QuiescingStep(c, s, a);
  }

  lemma {:induction false} InvRun(c: Config, inbox: set<string>, actions: seq<Action>, w: string -> nat)
    requires c.Valid()
    ensures Inv(c, Run(c, inbox, actions), inbox, w)
  {
    if actions == [] {
      InitialInv(c, inbox, w);
    } else {
      InvRun(c, inbox, actions[..|actions| - 1], w);
      InvStep(c, Run(c, inbox, actions[..|actions| - 1]), actions[|actions| - 1], inbox, w);
    }
  }
}

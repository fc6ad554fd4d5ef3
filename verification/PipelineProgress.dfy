/**
  Whether run() returns: every schedule is finite if the producer is, it can stop only at the end or in
  one kind of deadlock, and which configurations can reach that deadlock.
 */
module PipelineProgress {
  import opened Results
  import opened PipelineModel
  import opened PipelineRuns
  import opened PipelineTheorems

  // ---- the one way to hang ----

  /** Every worker waits to requeue a retry into a full work queue, which only workers empty. */
  ghost predicate Wedged(c: Config, s: State)
    requires Shaped(c, s)
  {
    Full(s.workQueue, c.workQueueSize) && forall j | 0 <= j < c.workers :: s.workers[j].Requeueing?
  }

  ghost predicate Stuck(c: Config, s: State)
    requires Shaped(c, s)
  {
    forall a :: !Enabled(c, s, a)
  }

  /** A run that has not finished can go on unless it is wedged, */
  lemma OnlyWedgesHang(c: Config, inbox: set<string>, actions: seq<Action>)
    requires c.Valid()
    ensures var s := Run(c, inbox, actions);
            !s.main.Stopped? && Stuck(c, s) ==> Wedged(c, s)
  {
    var s := Run(c, inbox, actions);
    InvRun(c, inbox, actions, One());
    if !s.main.Stopped? && Stuck(c, s) && !Wedged(c, s) {
      if j :| 0 <= j < c.workers && !s.workers[j].Requeueing? {
        assert !Enabled(c, s, WorkerFinish(j, true)) && !Enabled(c, s, WorkerGet(j));
        assert s.workQueue.items == [];
      }
      NoWorkNoHang(c, s);
    }
  }

  lemma NoWorkNoHang(c: Config, s: State)
    requires Shaped(c, s) && ShardsTracked(c, s) && WorkTracked(c, s) && !s.main.Stopped?
    requires !Full(s.workQueue, c.workQueueSize)
    ensures !Stuck(c, s)
  {
    var a := SomeAction(c, s);
    assert Enabled(c, s, a);
  }

  lemma SomeAction(c: Config, s: State) returns (a: Action)
    requires Shaped(c, s) && ShardsTracked(c, s) && WorkTracked(c, s) && !s.main.Stopped?
    requires !Full(s.workQueue, c.workQueueSize)
    ensures Enabled(c, s, a)
  {
    if j :| 0 <= j < c.workers && !s.workers[j].Idle? {
      a := if s.workers[j].Processing? then WorkerFinish(j, true) else WorkerRequeue(j);
    } else if s.workQueue.items != [] {
      a := WorkerGet(0);
    } else if i :| 0 <= i < c.shards && !ShardIdle(c, s, i) {
      a := if s.routers[i].Routing? then RouterPut(i) else RouterGet(i);
    } else if !s.producer.Finished? {
      assert ShardIdle(c, s, c.StableShard(if s.producer.Admitting? then s.producer.e.key else ""));
      a := if s.producer.Between? then ProducerDone else Admit;
    } else {
      SumZero(s.workers, WorkerWeight(One()));
      a := MainAction(c, s);
    }
  }

  /** With everything idle, run() goes on. */
  lemma MainAction(c: Config, s: State) returns (a: Action)
    requires Shaped(c, s) && ShardsTracked(c, s) && !s.main.Stopped? && s.producer.Finished?
    requires s.workQueue.unfinished == 0 && forall i | 0 <= i < c.shards :: ShardIdle(c, s, i)
    ensures Enabled(c, s, a)
  {
    match s.main
    case ForProducer => a := MainProducer;
    case ForShards(joined) =>
      a := MainShards;
      if i :| 0 <= i < c.shards && i !in joined {
        assert ShardIdle(c, s, i);
        a := MainShard(i);
      }
    case ForWork(seen) => a := if seen then MainStop else MainWorkSeen;
  }

  lemma WedgeStep(c: Config, s: State, a: Action)
    requires Shaped(c, s) && Wedged(c, s)
    ensures Next(c, s, a).workQueue == s.workQueue && Next(c, s, a).workers == s.workers
  {
  }

  /** and a wedge is for ever: whatever happens next, the workers stay as they are and run() never
      returns. */
  lemma {:induction false} WedgedForever(c: Config, inbox: set<string>, actions: seq<Action>, more: seq<Action>)
    requires c.Valid() && Wedged(c, Run(c, inbox, actions))
    ensures var s, t := Run(c, inbox, actions), Run(c, inbox, actions + more);
            t.workQueue == s.workQueue && t.workers == s.workers && !t.main.Stopped?
  {
    if more == [] {
      assert actions + more == actions;
    } else {
      WedgedForever(c, inbox, actions, more[..|more| - 1]);
      assert (actions + more)[..|actions + more| - 1] == actions + more[..|more| - 1];
      WedgeStep(c, Run(c, inbox, actions + more[..|more| - 1]), more[|more| - 1]);
    }
    NotStopped(c, inbox, actions + more);
  }

  lemma NotStopped(c: Config, inbox: set<string>, actions: seq<Action>)
    requires c.Valid() && Wedged(c, Run(c, inbox, actions))
    ensures !Run(c, inbox, actions).main.Stopped?
  {
    InvRun(c, inbox, actions, One());
    assert Run(c, inbox, actions).workers[0].Requeueing?;
  }

  // ---- which configurations can wedge ----

  lemma OneMore(c: Config, inbox: set<string>, done: seq<Action>, a: Action) returns (more: seq<Action>)
    requires c.Valid()
    ensures more == done + [a] && Run(c, inbox, more) == Next(c, Run(c, inbox, done), a)
  {
    more := done + [a];
    assert more[..|more| - 1] == done;
  }

  /** A key of an ordinary event, never the poison one. */
  function Key(c: Config): string {
    if c.poisonKey == Some("tenant-hot") then "tenant-1" else "tenant-hot"
  }

  function Plain(c: Config): (e: Event)
    ensures !c.Poison(e) && e.attempt == 0
  {
    Event("", Key(c), "", 0)
  }

  ghost predicate Calm(c: Config, s: State)
    requires Shaped(c, s)
  {
    var k := c.StableShard(Key(c));
    s.producer.Between? && s.routers[k].Getting? && s.shardQueues[k].items == []
  }

  /** Bring one event through its shard into the work queue. */
  lemma Feed(c: Config, inbox: set<string>, done: seq<Action>) returns (more: seq<Action>)
    requires c.Valid() && Calm(c, Run(c, inbox, done)) && !Full(Run(c, inbox, done).workQueue, c.workQueueSize)
    ensures var s, t := Run(c, inbox, done), Run(c, inbox, more);
            && Calm(c, t) && t.workQueue.items == s.workQueue.items + [Plain(c)] && t.workers == s.workers
            && t.metrics.produced == s.metrics.produced + 1
  {
    var k := c.StableShard(Key(c));
    more := OneMore(c, inbox, done, Produce("", Key(c), ""));
    more := OneMore(c, inbox, more, Admit);
    more := OneMore(c, inbox, more, RouterGet(k));
    more := OneMore(c, inbox, more, RouterPut(k));
  }

  ghost predicate Occupied(c: Config, s: State, n: int)
    requires Shaped(c, s)
  {
    && (forall j | 0 <= j < n && j < c.workers :: s.workers[j] == Processing(Plain(c)))
    && (forall j | 0 <= n <= j < c.workers :: s.workers[j].Idle?)
  }

  /** Give every worker an event to process, */
  lemma {:induction false} Occupy(c: Config, inbox: set<string>, n: nat) returns (done: seq<Action>)
    requires c.Valid() && n <= c.workers
    ensures var s := Run(c, inbox, done);
            Calm(c, s) && s.workQueue.items == [] && Occupied(c, s, n) && s.metrics.produced == n
  {
    if n == 0 {
      done := [];
      assert Run(c, inbox, []) == Initial(c, inbox);
    } else {
      done := Occupy(c, inbox, n - 1);
      done := Feed(c, inbox, done);
      done := OneMore(c, inbox, done, WorkerGet(n - 1));
    }
  }

  /** fill the work queue behind them, */
  lemma {:induction false} Fill(c: Config, inbox: set<string>, n: nat) returns (done: seq<Action>)
    requires c.Valid() && n <= c.workQueueSize
    ensures var s := Run(c, inbox, done);
            Calm(c, s) && |s.workQueue.items| == n && Occupied(c, s, c.workers) && s.metrics.produced == c.workers + n
  {
    if n == 0 {
      done := Occupy(c, inbox, c.workers);
    } else {
      done := Fill(c, inbox, n - 1);
      done := Feed(c, inbox, done);
    }
  }

  /** and let them all fail. */
  lemma {:induction false} FailAll(c: Config, inbox: set<string>, n: nat) returns (done: seq<Action>)
    requires c.Valid() && n <= c.workers && c.workQueueSize > 0 && c.maxAttempts > 1
    ensures var s := Run(c, inbox, done);
            && |s.workQueue.items| == c.workQueueSize && s.metrics.produced == c.workers + c.workQueueSize
            && (forall j | 0 <= j < n :: s.workers[j].Requeueing?)
            && (forall j | n <= j < c.workers :: s.workers[j] == Processing(Plain(c)))
  {
    if n == 0 {
      done := Fill(c, inbox, c.workQueueSize);
    } else {
      done := FailAll(c, inbox, n - 1);
      done := OneMore(c, inbox, done, WorkerFinish(n - 1, true));
    }
  }

  lemma {:induction false} RetriesNeeded(c: Config, inbox: set<string>, actions: seq<Action>)
    requires c.Valid()
    ensures forall j | 0 <= j < c.workers :: Run(c, inbox, actions).workers[j].Requeueing? ==> c.maxAttempts > 1
  {
    if actions != [] {
      RetriesNeeded(c, inbox, actions[..|actions| - 1]);
      var s, a := Run(c, inbox, actions[..|actions| - 1]), actions[|actions| - 1];
      assert Run(c, inbox, actions) == Next(c, s, a);
    }
  }

  /** The pipeline can wedge exactly if the work queue is bounded and there are retries. */
  lemma WedgeExact(c: Config, inbox: set<string>)
    requires c.Valid()
    ensures (exists actions :: Wedged(c, Run(c, inbox, actions))) <==> c.workQueueSize > 0 && c.maxAttempts > 1
  {
    if actions :| Wedged(c, Run(c, inbox, actions)) {
      assert Run(c, inbox, actions).workers[0].Requeueing?;
      RetriesNeeded(c, inbox, actions);
    }
    if c.workQueueSize > 0 && c.maxAttempts > 1 {
      var done := FailAll(c, inbox, c.workers);
      assert Wedged(c, Run(c, inbox, done));
    }
  }

  lemma {:induction false} EachWeighs<T>(xs: seq<T>, f: T -> nat)
    requires forall i | 0 <= i < |xs| :: f(xs[i]) >= 1
    ensures Sum(xs, f) >= |xs|
  {
    if xs != [] {
      EachWeighs(xs[..|xs| - 1], f);
    }
  }

  /** A wedge takes one event for each worker and each place in the queue, */
  lemma WedgeNeeds(c: Config, inbox: set<string>, actions: seq<Action>)
    requires c.Valid() && Wedged(c, Run(c, inbox, actions))
    ensures Run(c, inbox, actions).metrics.produced >= c.workers + c.workQueueSize
  {
    AccountsBalance(c, inbox, actions);
    EachWeighs(Run(c, inbox, actions).workers, Busy());
  }

  /** and no more: with n events some interleaving wedges exactly if the work queue is bounded, there are
      retries and n is not smaller than that. */
  lemma WedgeWithin(c: Config, inbox: set<string>, n: nat)
    requires c.Valid()
    ensures (exists actions :: Wedged(c, Run(c, inbox, actions)) && Run(c, inbox, actions).metrics.produced <= n)
       <==> c.workQueueSize > 0 && c.maxAttempts > 1 && n >= c.workers + c.workQueueSize
  {
    if actions :| Wedged(c, Run(c, inbox, actions)) && Run(c, inbox, actions).metrics.produced <= n {
      WedgeExact(c, inbox);
      WedgeNeeds(c, inbox, actions);
    }
    if c.workQueueSize > 0 && c.maxAttempts > 1 && n >= c.workers + c.workQueueSize {
      var done := FailAll(c, inbox, c.workers);
      assert Wedged(c, Run(c, inbox, done));
    }
  }

  // ---- every schedule ends ----

  // What is left to do is a number: an event is good for three steps a try, and two before its first.

  function EffortEvent(c: Config, e: Event): nat { 3 * Left(c, e) }
  function EventEffort(c: Config): Event -> nat { (e: Event) => EffortEvent(c, e) }
  function WaitingEffort(c: Config): Event -> nat { (e: Event) => EffortEvent(c, e) + 2 }
  function QueueEffort(c: Config): Queue -> nat { (q: Queue) => Sum(q.items, WaitingEffort(c)) }

  function EffortRouter(c: Config, r: Router): nat { if r.Routing? then EffortEvent(c, r.e) + 1 else 0 }
  function RouterEffort(c: Config): Router -> nat { (r: Router) => EffortRouter(c, r) }

  function EffortWorker(c: Config, k: Worker): nat {
    match k
    case Idle => 0
    case Requeueing(e) => EffortEvent(c, e) + 1
    case Processing(e) => EffortEvent(c, e.WithAttempt(e.attempt + 1)) + 2
  }
  function WorkerEffort(c: Config): Worker -> nat { (k: Worker) => EffortWorker(c, k) }

  /** What producing one event adds. */
  function Toll(c: Config): nat { 3 * c.Tries() + 3 }

  function ProducerEffort(c: Config, p: Producer): nat {
    match p
    case Between => 1
    case Admitting(_) => 1 + Toll(c)
    case Finished => 0
  }

  function Unjoined(joined: set<int>, n: nat): nat {
    if n == 0 then 0 else Unjoined(joined, n - 1) + if n - 1 in joined then 0 else 1
  }

  function Shards(c: Config): nat { if c.shards > 0 then c.shards else 0 }

  function MainEffort(c: Config, w: Waiting): nat {
    match w
    case ForProducer => Shards(c) + 4
    case ForShards(joined) => Unjoined(joined, Shards(c)) + 3
    case ForWork(seen) => if seen then 1 else 2
    case Stopped => 0
  }

  ghost function Effort(c: Config, s: State): nat
    requires Shaped(c, s)
  {
    Sum(s.shardQueues, QueueEffort(c)) + Sum(s.routers, RouterEffort(c))
    + Sum(s.workQueue.items, EventEffort(c)) + Sum(s.workers, WorkerEffort(c))
    + ProducerEffort(c, s.producer) + MainEffort(c, s.main)
  }

  lemma {:induction false} NoneJoined(n: nat)
    ensures Unjoined({}, n) == n
  {
    if n > 0 {
      NoneJoined(n - 1);
    }
  }

  lemma {:induction false} OneJoined(joined: set<int>, i: nat, n: nat)
    requires i !in joined
    ensures Unjoined(joined + {i}, n) == Unjoined(joined, n) - if i < n then 1 else 0
  {
    if n > 0 {
      OneJoined(joined, i, n - 1);
    }
  }

  lemma MainFalls(c: Config, s: State, a: Action)
    requires Shaped(c, s) && Enabled(c, s, a)
    ensures var t := Next(c, s, a);
            MainEffort(c, t.main) < MainEffort(c, s.main) || t.main == s.main
  {
    match a
    case MainProducer =>
      NoneJoined(c.shards);
    case MainShard(i) =>
      OneJoined(s.main.joined, i, c.shards);
    case _ =>
  }

  ghost predicate SameWork(s: State, t: State) {
    t.workQueue.items == s.workQueue.items && t.workers == s.workers
  }

  lemma AdmissionFalls(c: Config, s: State, t: State, k: nat, e: Event)
    requires Shaped(c, s) && Shaped(c, t) && k < c.shards && e.attempt == 0 && SameWork(s, t) && t.main == s.main
    requires t.shardQueues == s.shardQueues[k := s.shardQueues[k].Put(e)] && t.routers == s.routers
    requires s.producer == Admitting(e) && t.producer == Between
    ensures Effort(c, t) < Effort(c, s)
  {
    SumUpdate(s.shardQueues, k, t.shardQueues[k], QueueEffort(c));
    SumAppend(s.shardQueues[k].items, e, WaitingEffort(c));
  }

  lemma RouterFalls(c: Config, s: State, t: State, i: nat)
    requires Shaped(c, s) && Shaped(c, t) && RouterMoves(c, s, t, i)
    requires t.workers == s.workers && t.main == s.main && t.producer == s.producer
    ensures Effort(c, t) < Effort(c, s)
  {
    SumUpdate(s.shardQueues, i, t.shardQueues[i], QueueEffort(c));
    SumUpdate(s.routers, i, t.routers[i], RouterEffort(c));
    if s.routers[i].Getting? {
      SumHead(s.shardQueues[i].items, WaitingEffort(c));
    } else {
      SumAppend(s.workQueue.items, s.routers[i].e, EventEffort(c));
    }
  }

  ghost predicate SameElse(s: State, t: State) {
    t.shardQueues == s.shardQueues && t.routers == s.routers && t.main == s.main && t.producer == s.producer
  }

  lemma WorkerFalls(c: Config, s: State, t: State, j: nat)
    requires Shaped(c, s) && Shaped(c, t) && AttemptsBounded(c, s) && SameElse(s, t)
    requires Takes(c, s, t, j) || Requeues(c, s, t, j)
    ensures Effort(c, t) < Effort(c, s)
  {
    SumUpdate(s.workers, j, t.workers[j], WorkerEffort(c));
    if s.workers[j].Idle? {
      SumHead(s.workQueue.items, EventEffort(c));
    } else {
      SumAppend(s.workQueue.items, s.workers[j].e, EventEffort(c));
    }
  }

  lemma FinishFalls(c: Config, s: State, t: State, j: nat)
    requires Shaped(c, s) && Shaped(c, t) && SameElse(s, t) && j < c.workers && s.workers[j].Processing?
    requires t.workQueue.items == s.workQueue.items && t.workers == s.workers[j := t.workers[j]]
    requires var e := s.workers[j].e;
             t.workers[j] == Idle || t.workers[j] == Requeueing(e.WithAttempt(e.attempt + 1))
    ensures Effort(c, t) < Effort(c, s)
  {
    SumUpdate(s.workers, j, t.workers[j], WorkerEffort(c));
  }

  /** Every step that does anything leaves less to do, except producing another event. */
  lemma EffortFalls(c: Config, s: State, a: Action)
    requires Shaped(c, s) && AttemptsBounded(c, s) && Enabled(c, s, a)
    ensures Effort(c, Next(c, s, a)) < Effort(c, s) + if a.Produce? then Toll(c) + 1 else 0
  {
    var t := Next(c, s, a);
    if a.Admit? {
      AdmissionFalls(c, s, t, c.StableShard(s.producer.e.key), s.producer.e);
    } else if a.RouterGet? || a.RouterPut? {
      RouterFalls(c, s, t, a.i);
    } else if a.WorkerGet? || a.WorkerRequeue? {
      WorkerFalls(c, s, t, a.j);
    } else if a.WorkerFinish? {
      FinishFalls(c, s, t, a.j);
    } else {
      MainFalls(c, s, a);
    }
  }

  /** A schedule whose every step does something. */
  ghost predicate Effective(c: Config, inbox: set<string>, actions: seq<Action>)
    requires c.Valid()
  {
    forall k | 0 <= k < |actions| :: Enabled(c, Run(c, inbox, actions[..k]), actions[k])
  }

  lemma EffectiveBefore(c: Config, inbox: set<string>, actions: seq<Action>)
    requires c.Valid() && actions != [] && Effective(c, inbox, actions)
    ensures var init := actions[..|actions| - 1];
            Effective(c, inbox, init) && Enabled(c, Run(c, inbox, init), actions[|actions| - 1])
  {
    var init := actions[..|actions| - 1];
    forall k | 0 <= k < |init| ensures Enabled(c, Run(c, inbox, init[..k]), init[k]) {
      assert init[..k] == actions[..k];
    }
  }

  lemma InitialEffort(c: Config, inbox: set<string>)
    requires c.Valid()
    ensures Effort(c, Initial(c, inbox)) == c.shards + 5
  {
    var s := Initial(c, inbox);
    SumZero(s.shardQueues, QueueEffort(c));
    SumZero(s.routers, RouterEffort(c));
    SumZero(s.workers, WorkerEffort(c));
  }

  lemma ProducedStep(c: Config, s: State, a: Action)
    requires Shaped(c, s) && Enabled(c, s, a)
    ensures Next(c, s, a).metrics.produced == s.metrics.produced + if a.Produce? then 1 else 0
  {
  }

  /** What producing n events may take, with the steps to the end of run(). */
  function Budget(c: Config, n: nat): nat {
    if n == 0 then Shards(c) + 5 else Budget(c, n - 1) + Toll(c) + 1
  }

  lemma {:induction false} BudgetIs(c: Config, n: nat)
    ensures Budget(c, n) == (3 * c.Tries() + 4) * n + Shards(c) + 5
  {
    if n > 0 {
      BudgetIs(c, n - 1);
    }
  }

  lemma {:induction false} WithinBudget(c: Config, inbox: set<string>, actions: seq<Action>)
    requires c.Valid() && Effective(c, inbox, actions)
    ensures var s := Run(c, inbox, actions);
            |actions| + Effort(c, s) <= Budget(c, s.metrics.produced)
  {
    if actions == [] {
      InitialEffort(c, inbox);
    } else {
      var init, a := actions[..|actions| - 1], actions[|actions| - 1];
      EffectiveBefore(c, inbox, actions);
      WithinBudget(c, inbox, init);
      InvRun(c, inbox, init, One());
      EffortFalls(c, Run(c, inbox, init), a);
      ProducedStep(c, Run(c, inbox, init), a);
    }
  }

  /** A schedule that has produced n events has at most n times 3 tries + 4 steps and a few to the end: no
      schedule goes on for ever without producing. */
  lemma SchedulesEnd(c: Config, inbox: set<string>, actions: seq<Action>)
    requires c.Valid() && Effective(c, inbox, actions)
    ensures |actions| <= (3 * c.Tries() + 4) * Run(c, inbox, actions).metrics.produced + c.shards + 5
  {
    WithinBudget(c, inbox, actions);
    BudgetIs(c, Run(c, inbox, actions).metrics.produced);
  }

  /** Once the producer has finished, nothing more is produced. */
  lemma {:induction false} NoMoreProduced(c: Config, inbox: set<string>, actions: seq<Action>, more: seq<Action>)
    requires c.Valid() && Run(c, inbox, actions).producer.Finished?
    ensures var t := Run(c, inbox, actions + more);
            t.producer.Finished? && t.metrics.produced == Run(c, inbox, actions).metrics.produced
  {
    if more == [] {
      assert actions + more == actions;
    } else {
      NoMoreProduced(c, inbox, actions, more[..|more| - 1]);
      assert (actions + more)[..|actions + more| - 1] == actions + more[..|more| - 1];
    }
  }

  /** With an unbounded work queue or without retries, a schedule that cannot go on has ended run(). */
  lemma RunReturns(c: Config, inbox: set<string>, actions: seq<Action>)
    requires c.Valid() && Stuck(c, Run(c, inbox, actions))
    ensures c.workQueueSize <= 0 || c.maxAttempts <= 1 ==> Run(c, inbox, actions).main.Stopped?
  {
    OnlyWedgesHang(c, inbox, actions);
    WedgeExact(c, inbox);
  }

  lemma SomethingElse(c: Config, s: State) returns (a: Action)
    requires Shaped(c, s) && !Stuck(c, s)
    ensures Enabled(c, s, a) && !a.Produce?
  {
    a :| Enabled(c, s, a);
    if a.Produce? {
      a := ProducerDone;
    }
  }

  /** Every run can be brought to its end or into the wedge. */
  lemma {:induction false} CanEnd(c: Config, inbox: set<string>, actions: seq<Action>) returns (more: seq<Action>)
    requires c.Valid()
    ensures actions <= more
    ensures var s := Run(c, inbox, more);
            s.main.Stopped? || Wedged(c, s)
    decreases Effort(c, Run(c, inbox, actions))
  {
    var s := Run(c, inbox, actions);
    OnlyWedgesHang(c, inbox, actions);
    more := actions;
    if !Stuck(c, s) {
      var a := SomethingElse(c, s);
      InvRun(c, inbox, actions, One());
      EffortFalls(c, s, a);
      more := OneMore(c, inbox, actions, a);
      more := CanEnd(c, inbox, more);
    }
  }
}

/**
  What becomes of an event: the outcome of every processing, and what all processings together do to the
  inbox, the dead letters and the counters.
 */
module PipelineOutcomes {
  import opened Results
  import opened PipelineModel
  import opened PipelineRuns
  import opened PipelineTheorems

  /** The state after one more action. */
  ghost function Then(c: Config, inbox: set<string>, actions: seq<Action>, a: Action): State
    requires c.Valid()
  {
    Run(c, inbox, actions + [a])
  }

  lemma ThenIsNext(c: Config, inbox: set<string>, actions: seq<Action>, a: Action)
    requires c.Valid()
    ensures Then(c, inbox, actions, a) == Next(c, Run(c, inbox, actions), a)
  {
    assert (actions + [a])[..|actions|] == actions;
  }

  // ---- one processing ----

  /** The configured poison key, an empty one being none. */
  predicate IsPoison(c: Config, key: string) {
    c.poisonKey == Some(key) && key != ""
  }

  /** The worker is done with its item, which is marked so, and the other workers and the queue stay. */
  predicate Freed(c: Config, s: State, t: State, j: nat)
    requires j < |s.workers|
  {
    && t.workers == s.workers[j := Idle]
    && t.workQueue.items == s.workQueue.items && t.workQueue.unfinished == s.workQueue.unfinished - 1
  }

  predicate SameResults(s: State, t: State) {
    && t.inbox == s.inbox && t.dlq == s.dlq && t.metrics.processed == s.metrics.processed
    && t.metrics.duplicates == s.metrics.duplicates && t.metrics.dlq == s.metrics.dlq
  }

  predicate SameFailures(s: State, t: State) {
    && t.metrics.transientFailures == s.metrics.transientFailures && t.metrics.permanentFailures == s.metrics.permanentFailures
    && t.metrics.retries == s.metrics.retries
  }

  lemma Holding(c: Config, inbox: set<string>, actions: seq<Action>, j: nat)
    requires c.Valid() && j < c.workers && !Run(c, inbox, actions).workers[j].Idle?
    ensures Run(c, inbox, actions).workQueue.unfinished > 0
  {
    var s := Run(c, inbox, actions);
    InvRun(c, inbox, actions, One());
    SumZero(s.workers, WorkerWeight(One()));
    assert WorkerWeight(One())(s.workers[j]) == 1;
  }

  lemma ThenFinish(c: Config, inbox: set<string>, actions: seq<Action>, j: nat, transient: bool)
    requires c.Valid() && j < c.workers && Run(c, inbox, actions).workers[j].Processing?
    ensures var s := Run(c, inbox, actions);
            && s.workQueue.unfinished > 0
            && Then(c, inbox, actions, WorkerFinish(j, transient)) == Finish(c, s, j, transient)
  {
    ThenIsNext(c, inbox, actions, WorkerFinish(j, transient));
    Holding(c, inbox, actions, j);
  }

  /** An event that does not fail and whose id is new takes effect, now and once: exactly its id joins the
      inbox, one more is processed, and nothing else is counted. */
  lemma NewEventTakesEffect(c: Config, inbox: set<string>, actions: seq<Action>, j: nat, e: Event)
    requires c.Valid() && j < c.workers && Run(c, inbox, actions).workers[j] == Processing(e)
    requires !IsPoison(c, e.key) && e.id !in Run(c, inbox, actions).inbox
    ensures var s, t := Run(c, inbox, actions), Then(c, inbox, actions, WorkerFinish(j, false));
            && t.inbox == s.inbox + {e.id} && e.id !in s.inbox
            && t.metrics == s.metrics.(processed := s.metrics.processed + 1)
            && t.ledger.processed == s.ledger.processed + [e.id] && t.ledger.duplicates == s.ledger.duplicates
            && t.dlq == s.dlq && Freed(c, s, t, j)
  {
    ThenFinish(c, inbox, actions, j, false);
  }

  /** One whose id is there already is a duplicate, and leaves inbox and dead letters alone. */
  lemma KnownEventIsDuplicate(c: Config, inbox: set<string>, actions: seq<Action>, j: nat, e: Event)
    requires c.Valid() && j < c.workers && Run(c, inbox, actions).workers[j] == Processing(e)
    requires !IsPoison(c, e.key) && e.id in Run(c, inbox, actions).inbox
    ensures var s, t := Run(c, inbox, actions), Then(c, inbox, actions, WorkerFinish(j, false));
            && t.inbox == s.inbox && t.dlq == s.dlq
            && t.metrics == s.metrics.(duplicates := s.metrics.duplicates + 1)
            && t.ledger.duplicates == s.ledger.duplicates + [e.id] && t.ledger.processed == s.ledger.processed
            && Freed(c, s, t, j)
  {
    ThenFinish(c, inbox, actions, j, false);
  }

  /** The event ends in the dead letters, one attempt later, and the worker is done with it. */
  predicate Buried(c: Config, s: State, t: State, j: nat, e: Event)
    requires j < |s.workers|
  {
    t.dlq == s.dlq + [e.(attempt := e.attempt + 1)] && t.inbox == s.inbox && Freed(c, s, t, j)
  }

  /** The worker goes on to put the event back, one attempt later, and nothing else has changed. */
  predicate GoesBack(s: State, t: State, j: nat, e: Event)
    requires j < |s.workers|
  {
    && t.workers == s.workers[j := Requeueing(e.(attempt := e.attempt + 1))] && t.workQueue == s.workQueue
    && t.dlq == s.dlq && t.inbox == s.inbox
  }

  lemma PoisonFinish(c: Config, s: State, j: nat, e: Event, transient: bool)
    requires Shaped(c, s) && j < c.workers && s.workers[j] == Processing(e) && IsPoison(c, e.key)
    requires s.workQueue.unfinished > 0
    ensures var t, m := Finish(c, s, j, transient), s.metrics;
            Buried(c, s, t, j, e) && t.metrics == m.(permanentFailures := m.permanentFailures + 1, dlq := m.dlq + 1)
  {
  }

  lemma FailedFinish(c: Config, s: State, j: nat, e: Event)
    requires Shaped(c, s) && j < c.workers && s.workers[j] == Processing(e) && !IsPoison(c, e.key)
    requires s.workQueue.unfinished > 0
    ensures var t, m := Finish(c, s, j, true), s.metrics;
            if e.attempt + 1 < c.maxAttempts
            then GoesBack(s, t, j, e) && t.metrics == m.(transientFailures := m.transientFailures + 1, retries := m.retries + 1)
            else Buried(c, s, t, j, e) && t.metrics == m.(transientFailures := m.transientFailures + 1, dlq := m.dlq + 1)
  {
  }

  /** A poison event is dead-lettered at once, a permanent failure, whatever else happens to it. */
  lemma PoisonIsDeadLettered(c: Config, inbox: set<string>, actions: seq<Action>, j: nat, e: Event, transient: bool)
    requires c.Valid() && j < c.workers && Run(c, inbox, actions).workers[j] == Processing(e) && IsPoison(c, e.key)
    ensures var s, t := Run(c, inbox, actions), Then(c, inbox, actions, WorkerFinish(j, transient));
            var m := s.metrics;
            Buried(c, s, t, j, e) && t.metrics == m.(permanentFailures := m.permanentFailures + 1, dlq := m.dlq + 1)
  {
    ThenFinish(c, inbox, actions, j, transient);
    PoisonFinish(c, Run(c, inbox, actions), j, e, transient);
  }

  /** A transient failure costs an attempt: with attempts left the worker goes on to put the event back,
      otherwise the event is dead-lettered. */
  lemma FailureCostsAnAttempt(c: Config, inbox: set<string>, actions: seq<Action>, j: nat, e: Event)
    requires c.Valid() && j < c.workers && Run(c, inbox, actions).workers[j] == Processing(e) && !IsPoison(c, e.key)
    ensures var s, t := Run(c, inbox, actions), Then(c, inbox, actions, WorkerFinish(j, true));
            var m := s.metrics;
            if e.attempt + 1 < c.maxAttempts
            then GoesBack(s, t, j, e) && t.metrics == m.(transientFailures := m.transientFailures + 1, retries := m.retries + 1)
            else Buried(c, s, t, j, e) && t.metrics == m.(transientFailures := m.transientFailures + 1, dlq := m.dlq + 1)
  {
    ThenFinish(c, inbox, actions, j, true);
    FailedFinish(c, Run(c, inbox, actions), j, e);
  }

  // ---- all processings ----

  /** Suppressed duplicates have taken effect: each was in the inbox at the start or has been processed. */
  ghost predicate DuplicatesKnown(s: State, inbox: set<string>) {
    forall id | id in s.ledger.duplicates :: id in s.inbox && (id in inbox || id in s.ledger.processed)
  }

  lemma FinishKnown(c: Config, s: State, j: nat, transient: bool, inbox: set<string>)
    requires Shaped(c, s) && DuplicatesKnown(s, inbox) && AppliedOnce(s, inbox) && j < c.workers && s.workers[j].Processing?
    ensures DuplicatesKnown(Finish(c, s, j, transient), inbox)
  {
  }

  lemma KnownStep(c: Config, s: State, a: Action, inbox: set<string>)
    requires Shaped(c, s) && DuplicatesKnown(s, inbox) && AppliedOnce(s, inbox)
    ensures DuplicatesKnown(Next(c, s, a), inbox)
  {
    if Enabled(c, s, a) && a.WorkerFinish? {
      FinishKnown(c, s, a.j, a.transient, inbox);
    }
  }

  /** Nothing is suppressed as a duplicate that has not taken effect. */
  lemma {:induction false} DuplicatesTookEffect(c: Config, inbox: set<string>, actions: seq<Action>)
    requires c.Valid()
    ensures var s := Run(c, inbox, actions);
            forall id | id in s.ledger.duplicates :: id in s.inbox && (id in inbox || id in s.ledger.processed)
  {
    if actions != [] {
      var init := actions[..|actions| - 1];
      DuplicatesTookEffect(c, inbox, init);
      InvRun(c, inbox, init, One());
      KnownStep(c, Run(c, inbox, init), actions[|actions| - 1], inbox);
    }
  }

  lemma {:induction false} TimesIn(ids: seq<string>, id: string)
    ensures Times(ids, id) > 0 <==> id in ids
  {
    if ids != [] {
      TimesIn(ids[..|ids| - 1], id);
      assert ids == ids[..|ids| - 1] + [ids[|ids| - 1]];
    }
  }

  lemma {:induction false} DeadTimesIn(es: seq<Event>, id: string)
    requires DeadTimes(es, id) > 0
    ensures exists e :: e in es && e.id == id
  {
    var last := es[|es| - 1];
    if last.id != id {
      DeadTimesIn(es[..|es| - 1], id);
      var e :| e in es[..|es| - 1] && e.id == id;
      assert e in es;
    }
  }

  /** When run() has gone past its joins, everything admitted has taken effect or been dead-lettered. */
  lemma AdmittedIsAppliedOrDead(c: Config, inbox: set<string>, actions: seq<Action>, id: string)
    requires c.Valid() && Run(c, inbox, actions).main.Stopped? && id in Run(c, inbox, actions).ledger.admitted
    ensures var s := Run(c, inbox, actions);
            id in s.inbox || exists e :: e in s.dlq && e.id == id
  {
    var s := Run(c, inbox, actions);
    EveryEventSettles(c, inbox, actions, id);
    DuplicatesTookEffect(c, inbox, actions);
    InvRun(c, inbox, actions, One());
    TimesIn(s.ledger.admitted, id);
    TimesIn(s.ledger.processed, id);
    TimesIn(s.ledger.duplicates, id);
    if DeadTimes(s.dlq, id) > 0 {
      DeadTimesIn(s.dlq, id);
    }
  }

  predicate NoFailures(actions: seq<Action>) {
    forall k | 0 <= k < |actions| :: actions[k].WorkerFinish? ==> !actions[k].transient
  }

  predicate Unharmed(s: State) {
    && s.dlq == [] && s.metrics.retries == 0 && s.metrics.transientFailures == 0 && s.metrics.permanentFailures == 0
    && forall j | 0 <= j < |s.workers| :: !s.workers[j].Requeueing?
  }

  lemma UnharmedStep(c: Config, s: State, a: Action)
    requires Shaped(c, s) && Unharmed(s) && (a.WorkerFinish? ==> !a.transient)
    requires forall key :: !IsPoison(c, key)
    ensures Unharmed(Next(c, s, a))
  {
    if Enabled(c, s, a) && a.WorkerFinish? {
      assert !IsPoison(c, s.workers[a.j].e.key);
    }
  }

  lemma {:induction false} UnharmedRun(c: Config, inbox: set<string>, actions: seq<Action>)
    requires c.Valid() && NoFailures(actions) && forall key :: !IsPoison(c, key)
    ensures Unharmed(Run(c, inbox, actions))
  {
    if actions != [] {
      UnharmedRun(c, inbox, actions[..|actions| - 1]);
      UnharmedStep(c, Run(c, inbox, actions[..|actions| - 1]), actions[|actions| - 1]);
    }
  }

  /** Without a poison key and without failures, nothing is retried or dead-lettered, and in the end the
      inbox has gained exactly the events admitted. */
  lemma NothingFailsNothingIsLost(c: Config, inbox: set<string>, actions: seq<Action>)
    requires c.Valid() && NoFailures(actions) && forall key :: !IsPoison(c, key)
    ensures var s := Run(c, inbox, actions);
            && s.dlq == [] && s.metrics.dlq == s.metrics.retries == 0
            && (s.main.Stopped? ==> s.inbox == inbox + set id | id in s.ledger.admitted)
  {
    var s := Run(c, inbox, actions);
    UnharmedRun(c, inbox, actions);
    InvRun(c, inbox, actions, One());
    if s.main.Stopped? {
      forall id | id in s.ledger.admitted ensures id in s.inbox {
        AdmittedIsAppliedOrDead(c, inbox, actions, id);
      }
      forall id | id in s.inbox && id !in inbox ensures id in s.ledger.admitted {
        EveryEventSettles(c, inbox, actions, id);
        TimesIn(s.ledger.processed, id);
        TimesIn(s.ledger.admitted, id);
      }
    }
  }

  // ---- producing and admitting ----

  /** The shard of a key. */
  function ShardOf(c: Config, key: string): int
    requires c.shards > 0
  {
    c.digest(key) % c.shards
  }

  /** The bound of a queue, if it has one. */
  predicate Within(items: seq<Event>, size: int) {
    size > 0 ==> |items| <= size
  }

  /** An event is produced as it is, with no attempt made; it meets back-pressure exactly if the queue of
      its shard is bounded and has as many events as it may. */
  lemma ProducedAsGiven(c: Config, inbox: set<string>, actions: seq<Action>, id: string, key: string, payload: string)
    requires c.Valid() && Run(c, inbox, actions).producer.Between?
    ensures var s, t := Run(c, inbox, actions), Then(c, inbox, actions, Produce(id, key, payload));
            var q, m := s.shardQueues[ShardOf(c, key)].items, s.metrics;
            var pressed := c.shardQueueSize > 0 && |q| >= c.shardQueueSize;
            && t.producer == Admitting(Event(id, key, payload, 0))
            && t.metrics == m.(produced := m.produced + 1,
                               producerBackpressure := m.producerBackpressure + if pressed then 1 else 0)
            && t.shardQueues == s.shardQueues
  {
    ThenIsNext(c, inbox, actions, Produce(id, key, payload));
  }

  /** The event waits while the queue of its shard is full, and then joins its end. */
  predicate JoinsOrWaits(c: Config, s: State, t: State, e: Event)
    requires Shaped(c, s)
  {
    var k := ShardOf(c, e.key);
    var q, m := s.shardQueues[k], s.metrics;
    if c.shardQueueSize > 0 && |q.items| >= c.shardQueueSize then t == s
    else && t.producer == Between
         && t.shardQueues == s.shardQueues[k := Queue(q.items + [e], q.unfinished + 1)]
         && t.metrics == m.(admitted := m.admitted + 1, shardCounts := m.shardCounts[k := m.shardCounts[k] + 1])
  }

  lemma AdmitNext(c: Config, s: State, e: Event)
    requires Shaped(c, s) && s.producer == Admitting(e)
    ensures JoinsOrWaits(c, s, Next(c, s, Admit), e)
  {
  }

  /** That is what an admission does at any point. */
  lemma AdmittedInOrder(c: Config, inbox: set<string>, actions: seq<Action>, e: Event)
    requires c.Valid() && Run(c, inbox, actions).producer == Admitting(e)
    ensures JoinsOrWaits(c, Run(c, inbox, actions), Then(c, inbox, actions, Admit), e)
  {
    ThenIsNext(c, inbox, actions, Admit);
    AdmitNext(c, Run(c, inbox, actions), e);
  }

  ghost predicate AllWithin(c: Config, s: State)
    requires Shaped(c, s)
  {
    Within(s.workQueue.items, c.workQueueSize) && forall i | 0 <= i < c.shards :: Within(s.shardQueues[i].items, c.shardQueueSize)
  }

  lemma WithinStep(c: Config, s: State, a: Action)
    requires Shaped(c, s) && AllWithin(c, s)
    ensures AllWithin(c, Next(c, s, a))
  {
  }

  /** No queue ever holds more than its bound. */
  lemma {:induction false} QueuesAreBounded(c: Config, inbox: set<string>, actions: seq<Action>)
    requires c.Valid()
    ensures var s := Run(c, inbox, actions);
            && (c.workQueueSize > 0 ==> |s.workQueue.items| <= c.workQueueSize)
            && forall i | 0 <= i < c.shards :: c.shardQueueSize > 0 ==> |s.shardQueues[i].items| <= c.shardQueueSize
  {
    AllWithinRun(c, inbox, actions);
    var s := Run(c, inbox, actions);
    forall i | 0 <= i < c.shards ensures c.shardQueueSize > 0 ==> |s.shardQueues[i].items| <= c.shardQueueSize {
      assert Within(s.shardQueues[i].items, c.shardQueueSize);
    }
  }

  lemma {:induction false} AllWithinRun(c: Config, inbox: set<string>, actions: seq<Action>)
    requires c.Valid()
    ensures AllWithin(c, Run(c, inbox, actions))
  {
    if actions != [] {
      AllWithinRun(c, inbox, actions[..|actions| - 1]);
      WithinStep(c, Run(c, inbox, actions[..|actions| - 1]), actions[|actions| - 1]);
    }
  }
}

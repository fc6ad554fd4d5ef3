/**
  The simulator itself: a recursion of retries inside retries that updates per-layer counters and a
  timeline, proved to be the flat loop of RetryModel.
 */
module RetrySimulator {
  import opened Counting
  import opened Results
  import opened RetryModel

  /** What a request has done so far: stream positions, calls by layer, start times of attempts. */
  datatype Progress = Progress(leaves: nat, draws: nat, calls: seq<nat>, times: seq<real>)

  /** The counters after a attempts below a call at a layer: one call of layer i for every Width(i). */
  ghost function Counted(e: Env, layer: nat, before: seq<nat>, a: nat): (after: seq<nat>)
    requires e.Valid() && |before| == e.c.serviceLayers + 1
    ensures |after| == |before|
  {
    seq(|before|, i requires 0 <= i < |before| => before[i] + if i < layer then 0 else e.CallsAt(i, a))
  }

  datatype Outcome = Outcome(progress: Progress, success: bool, completed: real)

  /** The outcome after n attempts of the flat loop, the last of which decides. */
  ghost function Done(e: Env, layer: nat, start: real, s: Progress, n: nat, calls: seq<nat>): Outcome
    requires e.Valid() && layer <= e.c.serviceLayers && n >= 1
  {
    Outcome(Progress(s.leaves + n,
                     s.draws + (if e.c.jitter then n - 1 else 0),
                     calls,
                     s.times + e.AttemptTimes(layer, start, s.draws, n)),
            e.succeeds(s.leaves + n - 1),
            e.AttemptTime(layer, start, s.draws, n - 1) + e.c.latency)
  }

  /** What one call at a layer does: as many attempts as the flat loop makes, timed as the flat loop
      times them, counted once for every group of Width(i) at layer i, and ending with the last. */
  ghost function CallOutcome(e: Env, layer: nat, start: real, s: Progress): Outcome
    requires e.Valid() && layer <= e.c.serviceLayers && |s.calls| == e.c.serviceLayers + 1
  {
    var a := e.Attempts(s.leaves, e.Width(layer));
    Done(e, layer, start, s, a, Counted(e, layer, s.calls, a))
  }

  /** A point in the loop of a layer that retries: what has been done, and when the next try starts. */
  datatype Point = Point(progress: Progress, next: real)

  /** The point reached when k tries of the layer below have failed. */
  ghost function AfterTries(e: Env, layer: nat, start: real, s: Progress, k: nat): (p: Point)
    requires e.Valid() && layer < e.c.serviceLayers && |s.calls| == e.c.serviceLayers + 1
    ensures |p.progress.calls| == e.c.serviceLayers + 1
  {
    var m := Span(k, e.Width(layer + 1));
    Point(Progress(s.leaves + m,
                   s.draws + (if e.c.jitter then m else 0),
                   Counted(e, layer + 1, s.calls[layer := s.calls[layer] + 1], m),
                   s.times + e.AttemptTimes(layer, start, s.draws, m)),
          e.AttemptTime(layer, start, s.draws, m))
  }

  ghost predicate NoneSucceeded(e: Env, p: nat, n: nat) {
    forall q | p <= q < p + n :: !e.succeeds(q)
  }

  /** Counting calls of layer i: k exhausted tries of the layer below, and a attempts of one more. */
  lemma CallsAdd(e: Env, layer: nat, i: nat, k: nat, a: nat)
    requires e.Valid() && layer < i <= e.c.serviceLayers
    ensures var m := Span(k, e.Width(layer + 1));
            e.CallsAt(i, m + a) == e.CallsAt(i, m) + e.CallsAt(i, a)
  {
    var w, r := e.Width(i), Ratio(e, layer + 1, i);
    WidthDivides(e, layer + 1, i);
    SpanAssociative(k, r, w);
    CeilDivShift(Span(k, r), w, a);
    CeilDivShift(Span(k, r), w, 0);
  }

  lemma CountsAdd(e: Env, layer: nat, k: nat, a: nat, calls: seq<nat>)
    requires e.Valid() && layer < e.c.serviceLayers && |calls| == e.c.serviceLayers + 1
    ensures var m := Span(k, e.Width(layer + 1));
            Counted(e, layer + 1, Counted(e, layer + 1, calls, m), a) == Counted(e, layer + 1, calls, m + a)
  {
    var m := Span(k, e.Width(layer + 1));
    var twice, once := Counted(e, layer + 1, Counted(e, layer + 1, calls, m), a), Counted(e, layer + 1, calls, m + a);
    forall i | 0 <= i < |calls| ensures twice[i] == once[i] {
      if layer < i {
        CallsAdd(e, layer, i, k, a);
      }
    }
  }

  /** The call itself is one call of its layer, whatever it caused below. */
  lemma CountsSelf(e: Env, layer: nat, a: nat, calls: seq<nat>)
    requires e.Valid() && layer < e.c.serviceLayers && |calls| == e.c.serviceLayers + 1
    requires 1 <= a <= e.Width(layer)
    ensures Counted(e, layer + 1, calls[layer := calls[layer] + 1], a) == Counted(e, layer, calls, a)
  {
  }

  lemma RoomForTry(e: Env, layer: nat, k: nat)
    requires e.Valid() && layer < e.c.serviceLayers && k <= e.Limit(layer)
    ensures Span(k, e.Width(layer + 1)) + e.Width(layer + 1) == Span(k + 1, e.Width(layer + 1)) <= e.Width(layer)
  {
    SpanGrows(k, e.Limit(layer) + 1, e.Width(layer + 1));
  }

  /** The k-th try stops the loop of its layer exactly as it would stop the flat loop. */
  lemma TryFound(e: Env, p: nat, m: nat, below: nat, whole: nat)
    requires 1 <= below && m + below <= whole && NoneSucceeded(e, p, m)
    requires e.succeeds(p + m + e.Attempts(p + m, below) - 1)
    ensures e.Attempts(p, whole) == m + e.Attempts(p + m, below)
  {
    AttemptsCap(e, p + m, below, whole - m);
    AttemptsSkip(e, p, m, whole);
  }

  /** A successful try ends the flat loop where it ends; so does the last failed one. */
  lemma EndOfLoop(e: Env, layer: nat, p: nat, k: nat)
    requires e.Valid() && layer < e.c.serviceLayers && k <= e.Limit(layer)
    requires NoneSucceeded(e, p, Span(k, e.Width(layer + 1)))
    ensures var m, below := Span(k, e.Width(layer + 1)), e.Width(layer + 1);
            var a := e.Attempts(p + m, below);
            e.succeeds(p + m + a - 1) || k == e.Limit(layer) ==> e.Attempts(p, e.Width(layer)) == m + a
  {
    var m, below := Span(k, e.Width(layer + 1)), e.Width(layer + 1);
    RoomForTry(e, layer, k);
    if e.succeeds(p + m + e.Attempts(p + m, below) - 1) {
      TryFound(e, p, m, below, e.Width(layer));
    } else if k == e.Limit(layer) {
      AttemptsExact(e, p + m, below);
      AttemptsExact(e, p, m + below);
    }
  }

  lemma SeqAssociative(a: seq<real>, b: seq<real>, c: seq<real>)
    ensures (a + b) + c == a + (b + c)
  {
  }

  /** The times of one more try, as the layer above sees them. */
  lemma TryTimed(e: Env, layer: nat, start: real, draws: nat, k: nat, m: nat, current: real, i: nat, a: nat, times: seq<real>)
    requires e.Valid() && layer < e.c.serviceLayers && 1 <= a <= e.Width(layer + 1)
    requires m == Span(k, e.Width(layer + 1)) && current == e.AttemptTime(layer, start, draws, m)
    requires i == draws + if e.c.jitter then m else 0
    ensures (times + e.AttemptTimes(layer, start, draws, m)) + e.AttemptTimes(layer + 1, current, i, a)
         == times + e.AttemptTimes(layer, start, draws, m + a)
    ensures e.AttemptTime(layer + 1, current, i, a - 1) == e.AttemptTime(layer, start, draws, m + a - 1)
  {
    TimesBelow(e, layer, start, draws, k, m, current, i, a - 1);
    TimesAppend(e, layer, start, draws, k, m, current, i, a);
    SeqAssociative(times, e.AttemptTimes(layer, start, draws, m), e.AttemptTimes(layer + 1, current, i, a));
  }

  /** One more try, in the terms of the layer above: m + a attempts of the flat loop. */
  ghost function Grown(e: Env, layer: nat, start: real, s: Progress, n: nat): Outcome
    requires e.Valid() && layer < e.c.serviceLayers && |s.calls| == e.c.serviceLayers + 1 && n >= 1
  {
    Done(e, layer, start, s, n, Counted(e, layer + 1, s.calls[layer := s.calls[layer] + 1], n))
  }

  /** The attempts made when the k-th try ends. */
  ghost function Reached(e: Env, layer: nat, p: nat, k: nat): (n: nat)
    requires e.Valid() && layer < e.c.serviceLayers
    ensures n >= 1
  {
    Span(k, e.Width(layer + 1)) + e.Attempts(p + Span(k, e.Width(layer + 1)), e.Width(layer + 1))
  }

  lemma TryGrows(e: Env, layer: nat, start: real, s: Progress, k: nat, p: Point)
    requires e.Valid() && layer < e.c.serviceLayers && |s.calls| == e.c.serviceLayers + 1
    requires p == AfterTries(e, layer, start, s, k)
    ensures CallOutcome(e, layer + 1, p.next, p.progress) == Grown(e, layer, start, s, Reached(e, layer, s.leaves, k))
  {
    var m := Span(k, e.Width(layer + 1));
    var a := e.Attempts(s.leaves + m, e.Width(layer + 1));
    CountsAdd(e, layer, k, a, s.calls[layer := s.calls[layer] + 1]);
    TryDone(e, layer, start, s, k, m, p.next, p.progress, a, Counted(e, layer + 1, p.progress.calls, a));
  }

  lemma TryDone(e: Env, layer: nat, start: real, s: Progress, k: nat, m: nat, current: real, u: Progress, a: nat, calls: seq<nat>)
    requires e.Valid() && layer < e.c.serviceLayers && 1 <= a <= e.Width(layer + 1)
    requires m == Span(k, e.Width(layer + 1)) && current == e.AttemptTime(layer, start, s.draws, m)
    requires u.leaves == s.leaves + m && u.draws == s.draws + if e.c.jitter then m else 0
    requires u.times == s.times + e.AttemptTimes(layer, start, s.draws, m)
    ensures Done(e, layer + 1, current, u, a, calls) == Done(e, layer, start, s, m + a, calls)
  {
    TryTimed(e, layer, start, s.draws, k, m, current, u.draws, a, s.times);
  }

  /** If the next try succeeds, or is the last, it decides the call. */
  lemma TryEnds(e: Env, layer: nat, start: real, s: Progress, k: nat)
    requires e.Valid() && layer < e.c.serviceLayers && k <= e.Limit(layer) && |s.calls| == e.c.serviceLayers + 1
    requires NoneSucceeded(e, s.leaves, Span(k, e.Width(layer + 1)))
    requires e.succeeds(s.leaves + Reached(e, layer, s.leaves, k) - 1) || k == e.Limit(layer)
    ensures Grown(e, layer, start, s, Reached(e, layer, s.leaves, k)) == CallOutcome(e, layer, start, s)
  {
    EndOfLoop(e, layer, s.leaves, k);
    CountsSelf(e, layer, Reached(e, layer, s.leaves, k), s.calls);
  }

  /** A try that fails makes all the attempts it may. */
  lemma TryFails(e: Env, layer: nat, p: nat, k: nat)
    requires e.Valid() && layer < e.c.serviceLayers
    requires NoneSucceeded(e, p, Span(k, e.Width(layer + 1)))
    requires !e.succeeds(p + Reached(e, layer, p, k) - 1)
    ensures Reached(e, layer, p, k) == Span(k + 1, e.Width(layer + 1))
    ensures NoneSucceeded(e, p, Span(k + 1, e.Width(layer + 1)))
  {
    AttemptsExact(e, p + Span(k, e.Width(layer + 1)), e.Width(layer + 1));
  }

  /** After a failed try that is not the last, one backoff leads to the next point of the loop. */
  lemma TryRepeats(e: Env, layer: nat, start: real, s: Progress, k: nat, n: nat)
    requires e.Valid() && layer < e.c.serviceLayers && k > 0 && |s.calls| == e.c.serviceLayers + 1
    requires n == Span(k, e.Width(layer + 1)) && n > 0
    ensures var o := Grown(e, layer, start, s, n);
            var u := o.progress;
            AfterTries(e, layer, start, s, k)
              == Point(u.(draws := u.draws + if e.c.jitter then 1 else 0), o.completed + e.BackoffMs(k, u.draws))
  {
    OneBackoff(e, layer, start, s.draws, k, s.draws + if e.c.jitter then n - 1 else 0);
  }

  lemma OneBackoff(e: Env, layer: nat, start: real, draws: nat, k: nat, i: nat)
    requires e.Valid() && layer < e.c.serviceLayers && k > 0
    ensures Span(k, e.Width(layer + 1)) > 0
    ensures var m := Span(k, e.Width(layer + 1));
            (e.c.jitter ==> i == draws + m - 1) ==>
              e.AttemptTime(layer, start, draws, m)
                == e.AttemptTime(layer, start, draws, m - 1) + e.c.latency + e.BackoffMs(k, i)
  {
    var m := Span(k, e.Width(layer + 1));
    RetryNumberAt(e, layer, k, m);
    NextAttempt(e, layer, start, draws, m);
    if e.c.jitter ==> i == draws + m - 1 {
      SameBackoff(e, k, i, draws + m - 1);
    }
  }

  /** The loop of a layer: before try k, or ended with its last try. */
  ghost predicate AtTry(e: Env, layer: nat, start: real, s: Progress, k: nat, u: Progress, current: real)
    requires e.Valid() && layer < e.c.serviceLayers && |s.calls| == e.c.serviceLayers + 1
  {
    if k <= e.Limit(layer) then
      && Point(u, current) == AfterTries(e, layer, start, s, k)
      && NoneSucceeded(e, s.leaves, Span(k, e.Width(layer + 1)))
    else
      Outcome(u, false, current) == CallOutcome(e, layer, start, s)
  }

  lemma TryFirst(e: Env, layer: nat, start: real, s: Progress)
    requires e.Valid() && layer < e.c.serviceLayers && |s.calls| == e.c.serviceLayers + 1
    ensures AtTry(e, layer, start, s, 0, s.(calls := s.calls[layer := s.calls[layer] + 1]), start)
  {
  }

  /** A try that succeeds is the outcome of the call. */
  lemma TrySucceeds(e: Env, layer: nat, start: real, s: Progress, k: nat, u: Progress, current: real)
    requires e.Valid() && layer < e.c.serviceLayers && |s.calls| == |u.calls| == e.c.serviceLayers + 1
    requires k <= e.Limit(layer) && AtTry(e, layer, start, s, k, u, current)
    requires CallOutcome(e, layer + 1, current, u).success
    ensures CallOutcome(e, layer + 1, current, u) == CallOutcome(e, layer, start, s)
  {
    TryGrows(e, layer, start, s, k, Point(u, current));
    TryEnds(e, layer, start, s, k);
  }

  /** A try that fails leads to the next, after a backoff unless it was the last. */
  lemma TryNext(e: Env, layer: nat, start: real, s: Progress, k: nat, u: Progress, current: real, v: Progress, next: real)
    requires e.Valid() && layer < e.c.serviceLayers && |s.calls| == |u.calls| == e.c.serviceLayers + 1
    requires k <= e.Limit(layer) && AtTry(e, layer, start, s, k, u, current)
    requires var o := CallOutcome(e, layer + 1, current, u);
             && !o.success
             && v == (if k < e.Limit(layer) && e.c.jitter then o.progress.(draws := o.progress.draws + 1) else o.progress)
             && next == o.completed + if k < e.Limit(layer) then e.BackoffMs(k + 1, o.progress.draws) else 0.0
    ensures AtTry(e, layer, start, s, k + 1, v, next)
  {
    TryGrows(e, layer, start, s, k, Point(u, current));
    if k == e.Limit(layer) {
      TryEnds(e, layer, start, s, k);
    } else {
      TryFails(e, layer, s.leaves, k);
      TryRepeats(e, layer, start, s, k + 1, Reached(e, layer, s.leaves, k));
    }
  }

  /** The dependency is one attempt. */
  lemma LeafDone(e: Env, start: real, s: Progress)
    requires e.Valid() && |s.calls| == e.c.serviceLayers + 1
    ensures var l := e.c.serviceLayers;
            CallOutcome(e, l, start, s)
              == Outcome(Progress(s.leaves + 1, s.draws, s.calls[l := s.calls[l] + 1], s.times + [start]),
                         e.succeeds(s.leaves), start + e.c.latency)
  {
    var l := e.c.serviceLayers;
    assert e.AttemptTimes(l, start, s.draws, 1) == [start];
    assert Counted(e, l, s.calls, 1) == s.calls[l := s.calls[l] + 1];
  }

  /** A logical request: a call of layer 0 at time zero with all counters at zero. */
  ghost function Request(e: Env, leaves: nat, draws: nat): Outcome
    requires e.Valid()
  {
    CallOutcome(e, 0, 0.0, Progress(leaves, draws, seq(e.c.serviceLayers + 1, _ => 0), []))
  }

  /** In closed form: a logical request is the flat loop of at most Width(0) tries. */
  lemma RequestIsFlatLoop(e: Env, leaves: nat, draws: nat)
    requires e.Valid()
    ensures var o, a := Request(e, leaves, draws), e.Attempts(leaves, e.Width(0));
            && o.progress.leaves == leaves + a
            && o.progress.draws == draws + (if e.c.jitter then a - 1 else 0)
            && o.success == e.succeeds(leaves + a - 1)
            && o.completed == e.AttemptTime(0, 0.0, draws, a - 1) + e.c.latency
            && o.progress.times == e.AttemptTimes(0, 0.0, draws, a)
            && |o.progress.calls| == e.c.serviceLayers + 1
            && forall i: nat | i <= e.c.serviceLayers :: o.progress.calls[i] == e.CallsAt(i, a)
  {
  }

  class Simulation {
    const env: Env
    // how far the random streams have been read
    var leaves: nat
    var draws: nat
    // the request under way
    var calls: seq<nat>
    var times: seq<real>

    constructor (env: Env)
      ensures this.env == env && leaves == draws == 0
    {
      this.env, leaves, draws, calls, times := env, 0, 0, [], [];
    }

    ghost function State(): Progress
      reads this
    {
      Progress(leaves, draws, calls, times)
    }

    /** backoff_ms, which reads the jitter stream if there is jitter. */
    method Backoff(retryNumber: int) returns (ms: real)
      modifies this`draws
      ensures ms == env.BackoffMs(retryNumber, old(draws))
      ensures State() == old(State()).(draws := old(draws) + if env.c.jitter then 1 else 0)
    {
      ms := env.BackoffMs(retryNumber, draws);
      draws := draws + if env.c.jitter then 1 else 0;
    }

    /** The time of the next try: after a backoff unless the last one has failed. */
    method WaitAfter(k: nat, maxRetries: nat, completed: real) returns (next: real)
      modifies this`draws
      ensures next == completed + if k < maxRetries then env.BackoffMs(k + 1, old(draws)) else 0.0
      ensures State() == old(State()).(draws := old(draws) + if k < maxRetries && env.c.jitter then 1 else 0)
    {
      next := completed;
      if k < maxRetries {
        var wait := Backoff(k + 1);
        next := next + wait;
      }
    }

    /** One call at a layer, and everything it causes below. */
    method Call(layer: nat, start: real) returns (success: bool, completed: real)
      requires env.Valid() && layer <= env.c.serviceLayers && |calls| == env.c.serviceLayers + 1
      modifies this`leaves, this`draws, this`calls, this`times
      ensures Outcome(State(), success, completed) == CallOutcome(env, layer, start, old(State()))
      decreases env.c.serviceLayers - layer, 1
    {
      if layer < env.c.serviceLayers {
        success, completed := CallRetrying(layer, start);
        return;
      }
      LeafDone(env, start, State());
      calls := calls[layer := calls[layer] + 1];
      times := times + [start];
      completed := start + env.c.latency;
      success := env.succeeds(leaves);
      leaves := leaves + 1;
    }

    /** The part of a call for a layer that retries: the loop over its own attempts. */
    method CallRetrying(layer: nat, start: real) returns (success: bool, completed: real)
      requires env.Valid() && layer < env.c.serviceLayers && |calls| == env.c.serviceLayers + 1
      modifies this`leaves, this`draws, this`calls, this`times
      ensures Outcome(State(), success, completed) == CallOutcome(env, layer, start, old(State()))
      decreases env.c.serviceLayers - layer, 0
    {
      ghost var s := State();
      calls := calls[layer := calls[layer] + 1];
      var current := start;
      var maxRetries := env.Limit(layer);
      TryFirst(env, layer, start, s);
      for k := 0 to maxRetries + 1
        invariant |calls| == env.c.serviceLayers + 1
        invariant AtTry(env, layer, start, s, k, State(), current)
      {
        ghost var u, began := State(), current;
        success, completed := Call(layer + 1, current);
        if success {
          TrySucceeds(env, layer, start, s, k, u, began);
          return true, completed;
        }
        current := WaitAfter(k, maxRetries, completed);
        TryNext(env, layer, start, s, k, u, began, State(), current);
      }
      return false, current;
    }

    /** One logical request: fresh counters and timeline, started at time zero. */
    method SimulateRequest() returns (r: Result<RequestResult>)
      requires env.c.serviceLayers >= 0 && env.c.retriesPerLayer >= 0
      modifies this
      ensures r.Err? <==> env.c.serviceLayers > 0 && env.c.mode.UNSUPPORTED?
      ensures r.Err? ==> r.error == ValueError
      ensures r.Ok? ==> env.Valid() && Progress(leaves, draws, r.value.callsByLayer, r.value.attemptTimes) == State()
      ensures r.Ok? ==>
                Outcome(State(), r.value.success, r.value.completion) == Request(env, old(leaves), old(draws))
    {
      calls, times := seq(env.c.serviceLayers + 1, _ => 0), [];
      if env.c.serviceLayers > 0 && RetryLimit(0, env.c).Err? {
        return Err(RetryLimit(0, env.c).error);
      }
      var success, completion := Call(0, 0.0);
      return Ok(RequestResult(success, completion, calls, times));
    }
  }

  datatype RequestResult = RequestResult(
    success: bool, completion: real, callsByLayer: seq<nat>, attemptTimes: seq<real>)

  datatype RunResult = RunResult(
    successful: nat, failed: nat, totalCalls: seq<nat>, dependencyAttempts: nat)

  /** The totals of the first n requests. */
  ghost predicate Totalled(e: Env, n: nat, leaves: nat, successful: nat, totals: seq<nat>)
    requires e.Valid()
  {
    && leaves == e.Position(n)
    && successful == e.Successes(n) <= n
    && |totals| == e.c.serviceLayers + 1
    && forall i: nat | i < |totals| :: totals[i] == e.TotalCalls(i, n)
  }

  lemma OneMoreRequest(e: Env, n: nat, draws: nat, successful: nat, totals: seq<nat>, o: Outcome, sums: seq<nat>)
    requires e.Valid() && Totalled(e, n, e.Position(n), successful, totals)
    requires o == Request(e, e.Position(n), draws) && |o.progress.calls| == |sums| == |totals|
    requires forall i | 0 <= i < |totals| :: sums[i] == totals[i] + o.progress.calls[i]
    ensures Totalled(e, n + 1, o.progress.leaves, successful + if o.success then 1 else 0, sums)
  {
  }

  /** run(): any number of requests drawing from the same streams, and their totals. */
  method Run(env: Env, logicalRequests: int, failureRate: real) returns (r: Result<RunResult>)
    ensures r.Err? <==> || logicalRequests <= 0 || env.c.serviceLayers <= 0 || env.c.retriesPerLayer < 0
                        || !(0.0 <= failureRate <= 1.0) || env.c.mode.UNSUPPORTED?
    ensures r.Err? ==> r.error == ValueError
    ensures r.Ok? ==>
              && env.Valid()
              && Totalled(env, logicalRequests, r.value.dependencyAttempts, r.value.successful, r.value.totalCalls)
              && r.value.successful + r.value.failed == logicalRequests
  {
    if logicalRequests <= 0 || env.c.serviceLayers <= 0 || env.c.retriesPerLayer < 0 || !(0.0 <= failureRate <= 1.0) {
      return Err(ValueError);
    }
    var layers: nat := env.c.serviceLayers;
    var simulation := new Simulation(env);
    var totals: seq<nat> := seq(layers + 1, _ => 0);
    var successful := 0;
    var n := 0;
    while n < logicalRequests
      invariant 0 <= n <= logicalRequests && simulation.env == env && 0 <= successful <= n
      invariant n > 0 ==> env.Valid()
      invariant |totals| == layers + 1
      invariant env.Valid() ==> Totalled(env, n, simulation.leaves, successful, totals)
    {
      ghost var draws := simulation.draws;
      var result := simulation.SimulateRequest();
      if result.Err? {
        return Err(result.error);
      }
      ghost var o := Outcome(simulation.State(), result.value.success, result.value.completion);
      var counts := result.value.callsByLayer;
      var sums := seq(layers + 1, i requires 0 <= i <= layers => totals[i] + counts[i]);
      OneMoreRequest(env, n, draws, successful, totals, o, sums);
      totals := sums;
      successful := successful + if result.value.success then 1 else 0;
      n := n + 1;
    }
    LeafTotals(env, n);
    return Ok(RunResult(successful, n - successful, totals, totals[layers]));
  }

  /** Calls of the last layer are dependency attempts. */
  lemma {:induction false} LeafTotals(e: Env, n: nat)
    requires e.Valid()
    ensures e.TotalCalls(e.c.serviceLayers, n) == e.Position(n)
  {
    if n > 0 {
      LeafTotals(e, n - 1);
      CeilDivByOne(e.Attempts(e.Position(n - 1), e.Width(0)));
    }
  }

  lemma {:induction false} CeilDivByOne(a: nat)
    ensures CeilDiv(a, 1) == a
  {
    if a > 1 {
      CeilDivByOne(a - 1);
    }
  }
}

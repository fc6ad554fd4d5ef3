/**
  How long the state machine runs by itself: the exact number of transitions from any context to a
  fixed point, and what that means for run_until_stable.
 */
module FailoverStability {
  import opened Results
  import opened FailoverModel

  // ---- shifting traffic ----

  function Ceil(x: real): int {
    if x.Floor as real == x then x.Floor else x.Floor + 1
  }

  /** Steps of a size needed to cover a gap, at least one. */
  function Steps(gap: real, step: real): int
    requires step > 0.0
  {
    if gap <= step then 1 else Ceil(gap / step)
  }

  /** Comparing quotients by a positive number. */
  lemma QuotientOrder(a: real, b: real, step: real)
    requires step > 0.0 && a == b * step
    ensures a / step == b
  {
  }

  lemma DivideStep(gap: real, step: real)
    requires step > 0.0
    ensures (gap - step) / step == gap / step - 1.0
  {
    var q := gap / step;
    assert q * step == gap;
    assert (q - 1.0) * step == gap - step;
    QuotientOrder(gap - step, q - 1.0, step);
  }

  lemma QuotientBound(gap: real, step: real, n: real)
    requires step > 0.0
    ensures gap <= n * step <==> gap / step <= n
  {
  }

  lemma StepsPositive(gap: real, step: real)
    requires step > 0.0
    ensures Steps(gap, step) >= 1
    ensures gap > step ==> Steps(gap, step) == 1 + Steps(gap - step, step)
  {
    if gap > step {
      QuotientBound(gap, step, 1.0);
      QuotientBound(gap, step, 2.0);
      DivideStep(gap, step);
    }
  }

  // ---- how far a context is from a fixed point ----

  /** What a run without new observations does not change. */
  datatype Circumstances = Circumstances(primary: Health, secondary: Health, signals: Signals)

  function CircumstancesOf(c: Context): Circumstances {
    Circumstances(c.primary.health, c.secondary.health, c.signals)
  }

  function FromFailback(x: Circumstances, p: Policy, traffic: real): int
    requires p.step > 0.0
  {
    if x.signals.fastBurn then 1 else Steps(traffic, p.step)
  }

  function FromPrep(x: Circumstances, p: Policy): int
    requires p.step > 0.0
  {
    if Eligible(x.primary, p) && x.signals.failbackHealthy then
      1 + FromFailback(x, p, if 100.0 - p.canary > 0.0 then 100.0 - p.canary else 0.0)
    else 0
  }

  function FromRecovered(x: Circumstances, p: Policy): int
    requires p.step > 0.0
  {
    if x.signals.rebuilt && x.signals.failbackHealthy then 1 + FromPrep(x, p) else 0
  }

  function FromCanary(x: Circumstances, p: Policy, traffic: real): int
    requires p.step > 0.0
  {
    if x.signals.fastBurn || !Eligible(x.secondary, p) then 1
    else Steps(100.0 - traffic, p.step) + FromRecovered(x, p)
  }

  function FromFencing(x: Circumstances, p: Policy): int
    requires p.step > 0.0
  {
    if x.signals.fenced then 2 + FromCanary(x, p, p.canary) else 0
  }

  function FromEligibility(x: Circumstances, p: Policy): int
    requires p.step > 0.0
  {
    if Eligible(x.secondary, p) then 1 + FromFencing(x, p) else 1
  }

  function FromAssess(x: Circumstances, p: Policy): int
    requires p.step > 0.0
  {
    if x.signals.commander then 2 + FromEligibility(x, p) else 0
  }

  function DistanceIn(x: Circumstances, p: Policy, state: State, traffic: real): int
    requires p.step > 0.0
  {
    if x.signals.inconsistent then (if state.HOLD_READ_ONLY? then 0 else 1)
    else
      match state
      case NORMAL => if x.primary.application then 0 else 1 + FromAssess(x, p)
      case ASSESS => FromAssess(x, p)
      case FROZEN => 1 + FromEligibility(x, p)
      case ELIGIBILITY_CHECK => FromEligibility(x, p)
      case FENCING => FromFencing(x, p)
      case PROMOTING => 1 + FromCanary(x, p, p.canary)
      case CANARY => FromCanary(x, p, traffic)
      case EXPANDING => FromCanary(x, p, traffic)
      case RECOVERED_SECONDARY => FromRecovered(x, p)
      case FAILBACK_PREP => FromPrep(x, p)
      case FAILBACK_CANARY => FromFailback(x, p, traffic)
      case NORMAL_RESTORED => 0
      case HOLD_READ_ONLY => 0
  }

  /** The number of transitions to a fixed point. */
  function Distance(c: Context, p: Policy): int
    requires p.step > 0.0
  {
    DistanceIn(CircumstancesOf(c), p, c.state, c.traffic)
  }

  lemma NextKeeps(c: Context, p: Policy)
    ensures CircumstancesOf(Next(c, p)) == CircumstancesOf(c)
    ensures Valid(c, p) ==> Valid(Next(c, p), p)
  {
  }

  lemma DistanceNatural(x: Circumstances, p: Policy, state: State, traffic: real)
    requires p.step > 0.0
    ensures DistanceIn(x, p, state, traffic) >= 0
  {
    StepsPositive(traffic, p.step);
    StepsPositive(100.0 - traffic, p.step);
    StepsPositive(100.0 - p.canary, p.step);
    StepsPositive(if 100.0 - p.canary > 0.0 then 100.0 - p.canary else 0.0, p.step);
  }

  /** A transition that changes something is one step closer; one that does not has arrived. */
  predicate Closer(x: Circumstances, p: Policy, c: Context, d: Context)
    requires p.step > 0.0
  {
    DistanceIn(x, p, c.state, c.traffic) == if d == c then 0 else 1 + DistanceIn(x, p, d.state, d.traffic)
  }

  lemma CloserStopped(x: Circumstances, p: Policy, c: Context)
    requires p.step > 0.0 && x == CircumstancesOf(c)
    requires c.signals.inconsistent || (c.signals.fastBurn && Shifting(c.state))
    ensures Closer(x, p, c, Next(c, p))
  {
  }

  lemma CloserEarly(x: Circumstances, p: Policy, c: Context)
    requires p.step > 0.0 && x == CircumstancesOf(c) && !c.signals.inconsistent
    requires c.state.NORMAL? || c.state.ASSESS? || c.state.FROZEN? || c.state.ELIGIBILITY_CHECK? || c.state.FENCING?
    ensures Closer(x, p, c, Next(c, p))
  {
  }

  lemma CloserPromotion(x: Circumstances, p: Policy, c: Context)
    requires ValidPolicy(p) && x == CircumstancesOf(c) && !c.signals.inconsistent
    requires c.state.PROMOTING? || c.state.RECOVERED_SECONDARY? || c.state.FAILBACK_PREP?
    ensures Closer(x, p, c, Next(c, p))
  {
  }

  lemma CloserShift(x: Circumstances, p: Policy, c: Context)
    requires ValidPolicy(p) && x == CircumstancesOf(c) && !c.signals.inconsistent && !c.signals.fastBurn
    requires c.state.CANARY? || c.state.EXPANDING?
    ensures Closer(x, p, c, Next(c, p))
  {
    StepsPositive(100.0 - c.traffic, p.step);
    match c.state
    case CANARY =>
    case EXPANDING =>
  }

  lemma CloserBack(x: Circumstances, p: Policy, c: Context)
    requires ValidPolicy(p) && x == CircumstancesOf(c) && !c.signals.inconsistent && !c.signals.fastBurn
    requires c.state.FAILBACK_CANARY?
    ensures Closer(x, p, c, Next(c, p))
  {
    StepsPositive(c.traffic, p.step);
  }

  lemma NextCloser(c: Context, p: Policy)
    requires ValidPolicy(p)
    ensures Closer(CircumstancesOf(c), p, c, Next(c, p))
  {
    var x := CircumstancesOf(c);
    if c.signals.inconsistent || (c.signals.fastBurn && Shifting(c.state)) {
      CloserStopped(x, p, c);
    } else if c.state.CANARY? || c.state.EXPANDING? {
      CloserShift(x, p, c);
    } else if c.state.FAILBACK_CANARY? {
      CloserBack(x, p, c);
    } else if c.state.PROMOTING? || c.state.RECOVERED_SECONDARY? || c.state.FAILBACK_PREP? {
      CloserPromotion(x, p, c);
    } else if c.state.NORMAL_RESTORED? || c.state.HOLD_READ_ONLY? {
      assert Next(c, p) == c;
    } else {
      CloserEarly(x, p, c);
    }
  }

  /** Every transition that changes anything brings the context one step closer to a fixed point, and
      only a fixed point is at distance zero. */
  lemma DistanceCountsDown(c: Context, p: Policy)
    requires ValidPolicy(p)
    ensures Distance(c, p) >= 0
    ensures Next(c, p) == c <==> Distance(c, p) == 0
    ensures Next(c, p) != c ==> Distance(Next(c, p), p) == Distance(c, p) - 1
  {
    NextCloser(c, p);
    NextKeeps(c, p);
    var d := Next(c, p);
    DistanceNatural(CircumstancesOf(c), p, c.state, c.traffic);
    DistanceNatural(CircumstancesOf(c), p, d.state, d.traffic);
  }

  // ---- run_until_stable ----

  function Iterate(c: Context, p: Policy, k: nat): Context {
    if k == 0 then c else Next(Iterate(c, p, k - 1), p)
  }

  lemma {:induction false} IterateDistance(c: Context, p: Policy, k: nat)
    requires Valid(c, p)
    ensures Valid(Iterate(c, p, k), p)
    ensures k <= Distance(c, p) ==> Distance(Iterate(c, p, k), p) == Distance(c, p) - k
  {
    if k > 0 {
      IterateDistance(c, p, k - 1);
      NextKeeps(Iterate(c, p, k - 1), p);
      DistanceCountsDown(Iterate(c, p, k - 1), p);
    }
  }

  /** The fixed point is reached after exactly as many transitions as the distance says. */
  lemma IterateNext(c: Context, p: Policy, k: nat)
    requires Valid(c, p) && k <= Distance(c, p)
    ensures Valid(Iterate(c, p, k), p)
    ensures Iterate(c, p, k + 1) == Iterate(c, p, k) <==> k == Distance(c, p)
  {
    IterateDistance(c, p, k);
    DistanceCountsDown(Iterate(c, p, k), p);
  }

  datatype Transition = Transition(previous: State, context: Context)

  /** Runs to a fixed point, which takes one transition more than the distance to see; it fails exactly
      if that is more than it may take. */
  method RunUntilStable(context: Context, p: Policy, maximumSteps: int) returns (r: Result<seq<Transition>>)
    ensures r.Err? <==> maximumSteps <= 0 || !Valid(context, p) || maximumSteps <= Distance(context, p)
    ensures r.Err? ==> r.error == ValueError
    ensures r.Ok? ==>
              && |r.value| == Distance(context, p) + 1
              && Next(Iterate(context, p, |r.value|), p) == Iterate(context, p, |r.value|)
              && forall i: nat | i < |r.value| ::
                   r.value[i] == Transition(Iterate(context, p, i).state, Iterate(context, p, i + 1))
  {
    if maximumSteps <= 0 {
      return Err(ValueError);
    }
    var history, current := [], context;
    if Valid(context, p) {
      DistanceCountsDown(context, p);
    }
    for k := 0 to maximumSteps
      invariant |history| == k && current == Iterate(context, p, k)
      invariant k > 0 ==> Valid(context, p)
      invariant Valid(context, p) ==> k <= Distance(context, p)
      invariant forall i: nat | i < k ::
                  history[i] == Transition(Iterate(context, p, i).state, Iterate(context, p, i + 1))
    {
      var result := ReconcileOnce(current, p);
      if Valid(context, p) {
        IterateNext(context, p, k);
      }
      if result.Err? {
        return Err(result.error);
      }
      history := history + [Transition(current.state, result.value)];
      if result.value == current {
        return Ok(history);
      }
      current := result.value;
    }
    return Err(ValueError);
  }

  /** The canary's way to full traffic: max(1, ceil((100 - canary) / step)). */
  function Expansions(p: Policy): int
    requires p.step > 0.0
  {
    Steps(100.0 - p.canary, p.step)
  }

  /** From normal operation at most eight transitions and the expansions of traffic; so run_until_stable
      succeeds whenever it may take that many. */
  lemma NormalBound(c: Context, p: Policy)
    requires Valid(c, p) && c.state.NORMAL?
    ensures Distance(c, p) + 1 <= 8 + Expansions(p)
  {
    StepsPositive(100.0 - p.canary, p.step);
  }

  /** The bound is reached: with everything in place, that is how long a failover takes. */
  lemma NormalBoundReached(c: Context, p: Policy)
    requires Valid(c, p) && c.state.NORMAL? && !c.primary.health.application && Eligible(c.secondary.health, p)
    requires c.signals == Signals(true, false, false, true, true, true)
    ensures Distance(c, p) + 1 == 8 + Expansions(p)
  {
  }

  /** Under unchanging observations failover and failback exclude each other: one needs the primary
      unhealthy, the other healthy. A run from normal operation never gets past preparing failback. */
  lemma {:induction false} NeverPastPrep(c: Context, p: Policy, k: nat)
    requires Valid(c, p) && c.state.NORMAL?
    ensures var d := Iterate(c, p, k);
            && !d.state.FAILBACK_CANARY? && !d.state.NORMAL_RESTORED?
            && CircumstancesOf(d) == CircumstancesOf(c)
            && (d.state.NORMAL? || d.state.HOLD_READ_ONLY? || !d.primary.health.application)
  {
    if k > 0 {
      NeverPastPrep(c, p, k - 1);
      NeverPastPrepNext(Iterate(c, p, k - 1), p);
      NextKeeps(Iterate(c, p, k - 1), p);
    }
  }

  lemma NeverPastPrepNext(c: Context, p: Policy)
    requires !c.state.FAILBACK_CANARY? && !c.state.NORMAL_RESTORED?
    requires c.state.NORMAL? || c.state.HOLD_READ_ONLY? || !c.primary.health.application
    ensures var d := Next(c, p);
            && !d.state.FAILBACK_CANARY? && !d.state.NORMAL_RESTORED?
            && (d.state.NORMAL? || d.state.HOLD_READ_ONLY? || !c.primary.health.application)
  {
  }
}

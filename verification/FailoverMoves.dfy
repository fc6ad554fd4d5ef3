/** What a transition may change, state by state, and what it takes. */
module FailoverMoves {
  import opened Results
  import opened FailoverModel
  import opened FailoverSafety

  /** A transition is refused exactly for a region without a name or with a negative capacity, lag or epoch,
      or a policy out of range. */
  lemma RefusedExactly(c: Context, p: Policy)
    ensures ReconcileOnce(c, p) == Err(ValueError) <==>
            || c.primary.name == "" || c.primary.health.capacity < 0.0 || c.primary.health.lag < 0.0 || c.primary.epoch < 0
            || c.secondary.name == "" || c.secondary.health.capacity < 0.0 || c.secondary.health.lag < 0.0 || c.secondary.epoch < 0
            || p.capacity <= 0.0 || p.maximumLag < 0.0
            || p.canary <= 0.0 || p.canary > 100.0 || p.step <= 0.0 || p.step > 100.0
    ensures ReconcileOnce(c, p).Err? ==> ReconcileOnce(c, p) == Err(ValueError)
  {
  }

  /** Transitions that a hold stops: all of them on inconsistent data, shifts of traffic on fast burn. */
  predicate Stopped(c: Context) {
    c.signals.inconsistent || (c.signals.fastBurn && (c.state == CANARY || c.state == EXPANDING || c.state == FAILBACK_CANARY))
  }

  /** A hold changes the state and nothing else: traffic, writers and the freeze stay as they are. */
  lemma HoldChangesNothingElse(c: Context, p: Policy)
    requires Valid(c, p)
    ensures var d := ReconcileOnce(c, p).value;
            && (Stopped(c) ==> d == c.(state := HOLD_READ_ONLY))
            && (d.state == HOLD_READ_ONLY ==> d == c.(state := HOLD_READ_ONLY))
  {
  }

  /** Names, health and signals are observed, never changed. Changes are frozen by leaving ASSESS and in no
      other way, and never thawed. */
  lemma FrozenFromAssessment(c: Context, p: Policy)
    requires Valid(c, p)
    ensures var d := ReconcileOnce(c, p).value;
            && d.primary.name == c.primary.name && d.secondary.name == c.secondary.name
            && d.primary.health == c.primary.health && d.secondary.health == c.secondary.health && d.signals == c.signals
            && d.frozen == (c.frozen || (c.state == ASSESS && d.state == FROZEN))
  {
  }

  function Lower(a: real, b: real): real { if a < b then a else b }
  function Higher(a: real, b: real): real { if a < b then b else a }

  /** Traffic moves only where it should: to the canary share when the secondary is promoted, on by at most a
      step while it stays healthy, back to all but the canary share when the primary is promoted, and on
      towards it by a step. */
  lemma TrafficMoves(c: Context, p: Policy)
    requires Valid(c, p)
    ensures var d := ReconcileOnce(c, p).value;
            d.traffic == if Stopped(c) || d.state == c.state == FAILBACK_PREP || d.state == HOLD_READ_ONLY then c.traffic
                         else if c.state == PROMOTING then p.canary
                         else if c.state == CANARY || c.state == EXPANDING then Lower(100.0, c.traffic + p.step)
                         else if c.state == FAILBACK_PREP then Higher(0.0, 100.0 - p.canary)
                         else if c.state == FAILBACK_CANARY then Higher(0.0, c.traffic - p.step)
                         else c.traffic
  {
  }

  /** What a region must be, as the policy puts it. */
  predicate Fit(h: Health, p: Policy) {
    && h.application && h.dependencies && h.identity && h.schema
    && h.capacity >= p.capacity && h.lag <= p.maximumLag
    && (h.observability || !p.requireObservability) && (h.synthetic || !p.requireSynthetic)
  }

  /** Where each state leads, and when. */
  lemma NextState(c: Context, p: Policy)
    requires Valid(c, p)
    ensures var d, s := ReconcileOnce(c, p).value.state, c.signals;
            d == if Stopped(c) then HOLD_READ_ONLY else
                 match c.state
                 case NORMAL => if c.primary.health.application then NORMAL else ASSESS
                 case ASSESS => if s.commander then FROZEN else ASSESS
                 case FROZEN => ELIGIBILITY_CHECK
                 case ELIGIBILITY_CHECK => if Fit(c.secondary.health, p) then FENCING else HOLD_READ_ONLY
                 case FENCING => if s.fenced then PROMOTING else FENCING
                 case PROMOTING => CANARY
                 case CANARY => if !Fit(c.secondary.health, p) then HOLD_READ_ONLY
                                else if c.traffic + p.step >= 100.0 then RECOVERED_SECONDARY else EXPANDING
                 case EXPANDING => if !Fit(c.secondary.health, p) then HOLD_READ_ONLY
                                   else if c.traffic + p.step >= 100.0 then RECOVERED_SECONDARY else EXPANDING
                 case RECOVERED_SECONDARY => if s.rebuilt && s.failbackHealthy then FAILBACK_PREP else RECOVERED_SECONDARY
                 case FAILBACK_PREP => if Fit(c.primary.health, p) && s.failbackHealthy then FAILBACK_CANARY else FAILBACK_PREP
                 case FAILBACK_CANARY => if c.traffic - p.step <= 0.0 then NORMAL_RESTORED else FAILBACK_CANARY
                 case NORMAL_RESTORED => NORMAL_RESTORED
                 case HOLD_READ_ONLY => HOLD_READ_ONLY
  {
  }

  /** At every point of every run, writes are accepted with the epoch of the region that writes, by that
      region, and with no other token. */
  lemma CurrentTokenAccepted(c: Context, p: Policy, run: seq<Observation>, i: nat, token: nat)
    requires Initial(c) && i <= |run| && ValidRegion(At(c, p, run, i).primary) && ValidRegion(At(c, p, run, i).secondary)
    ensures var d := At(c, p, run, i);
            && (WriteAllowed(d.primary, token) == Ok(true) <==> !d.secondary.accepting && token == d.primary.epoch)
            && (WriteAllowed(d.secondary, token) == Ok(true) <==> !d.primary.accepting && token == d.secondary.epoch)
  {
    InvAt(c, p, run, i);
  }
}

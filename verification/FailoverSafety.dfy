/**
  Safety of failover and failback in every run: what is observed of the regions and every operator flag
  may change arbitrarily between any two transitions.
 */
module FailoverSafety {
  import opened Results
  import opened FailoverModel

  /** Everything that changes by itself. */
  datatype Observation = Observation(primary: Health, secondary: Health, frozen: bool, signals: Signals)

  function Observe(c: Context, o: Observation): Context {
    c.(primary := c.primary.(health := o.primary), secondary := c.secondary.(health := o.secondary),
       frozen := o.frozen, signals := o.signals)
  }

  /** A transition after an observation; if it is refused, nothing happens. */
  function Step(c: Context, p: Policy, o: Observation): Context {
    var seen := Observe(c, o);
    if ReconcileOnce(seen, p).Ok? then ReconcileOnce(seen, p).value else seen
  }

  function At(c: Context, p: Policy, run: seq<Observation>, i: nat): Context
    requires i <= |run|
  {
    if i == 0 then c else Step(At(c, p, run, i - 1), p, run[i - 1])
  }

  /** Normal operation: the primary writes and has all the traffic. */
  predicate Initial(c: Context) {
    c.state == NORMAL && c.primary.accepting && !c.secondary.accepting && c.traffic == 0.0
  }

  datatype Phase = ON_PRIMARY | ON_SECONDARY | BACK | HELD

  function PhaseOf(s: State): Phase {
    match s
    case NORMAL => ON_PRIMARY
    case ASSESS => ON_PRIMARY
    case FROZEN => ON_PRIMARY
    case ELIGIBILITY_CHECK => ON_PRIMARY
    case FENCING => ON_PRIMARY
    case PROMOTING => ON_PRIMARY
    case CANARY => ON_SECONDARY
    case EXPANDING => ON_SECONDARY
    case RECOVERED_SECONDARY => ON_SECONDARY
    case FAILBACK_PREP => ON_SECONDARY
    case FAILBACK_CANARY => BACK
    case NORMAL_RESTORED => BACK
    case HOLD_READ_ONLY => HELD
  }

  /** The epoch of the region that writes. */
  function Writer(c: Context): int {
    if c.secondary.accepting then c.secondary.epoch else c.primary.epoch
  }

  predicate Inv(c: Context) {
    && c.primary.accepting != c.secondary.accepting
    && (PhaseOf(c.state).ON_PRIMARY? ==> c.primary.accepting && c.traffic == 0.0)
    && (PhaseOf(c.state).ON_SECONDARY? ==> c.secondary.accepting)
    && (c.state.RECOVERED_SECONDARY? || c.state.FAILBACK_PREP? ==> c.traffic == 100.0)
    && (PhaseOf(c.state).BACK? ==> c.primary.accepting)
    && (c.state.NORMAL_RESTORED? ==> c.traffic == 0.0)
  }

  /** A transition that hands writing to another region. */
  predicate Promotes(c: Context, d: Context) {
    c.primary.accepting != d.primary.accepting
  }

  lemma InvStep(c: Context, p: Policy, o: Observation)
    requires Inv(c)
    ensures Inv(Step(c, p, o))
  {
  }

  lemma {:induction false} InvAt(c: Context, p: Policy, run: seq<Observation>, i: nat)
    requires Initial(c) && i <= |run|
    ensures Inv(At(c, p, run, i))
  {
    if i > 0 {
      InvAt(c, p, run, i - 1);
      InvStep(At(c, p, run, i - 1), p, run[i - 1]);
    }
  }

  /** There is always exactly one writer; a recovered secondary has all the traffic and writes, and a
      restored primary has all the traffic and writes. */
  lemma SingleWriter(c: Context, p: Policy, run: seq<Observation>, i: nat)
    requires Initial(c) && i <= |run|
    ensures var d := At(c, p, run, i);
            && d.primary.accepting != d.secondary.accepting
            && (d.state.RECOVERED_SECONDARY? ==> d.traffic == 100.0 && d.secondary.accepting)
            && (d.state.NORMAL_RESTORED? ==> d.traffic == 0.0 && d.primary.accepting)
  {
    InvAt(c, p, run, i);
  }

  // ---- epochs ----

  /** Writing moves with an epoch never seen, or does not move. */
  predicate EpochKept(c: Context, d: Context) {
    if Promotes(c, d) then Writer(d) == HigherEpoch(d) == HigherEpoch(c) + 1
    else Writer(d) == Writer(c) && HigherEpoch(d) == HigherEpoch(c)
  }

  /** A step changes the writer's epoch exactly if it changes the writer, and then to one never seen. */
  lemma EpochStep(c: Context, p: Policy, o: Observation)
    requires Inv(c)
    ensures EpochKept(c, Step(c, p, o))
  {
  }

  /** The same writer with the same epochs, or a writer with an epoch above all before. */
  predicate Risen(a: Context, b: Context) {
    && HigherEpoch(a) <= HigherEpoch(b)
    && (|| (a.primary.accepting == b.primary.accepting && Writer(a) == Writer(b) && HigherEpoch(a) == HigherEpoch(b))
        || Writer(b) > HigherEpoch(a))
  }

  predicate OneWriter(c: Context) { c.primary.accepting != c.secondary.accepting }

  predicate KeptIn(trace: seq<Context>, k: nat)
    requires 0 < k < |trace|
  {
    OneWriter(trace[k - 1]) && EpochKept(trace[k - 1], trace[k])
  }

  /** With one writer all along, any number of steps that keep epochs raise them. */
  lemma {:induction false} StepsRise(trace: seq<Context>, i: nat, j: nat)
    requires i <= j < |trace|
    requires forall k | 0 < k < |trace| :: KeptIn(trace, k)
    ensures Risen(trace[i], trace[j])
    decreases j
  {
    if i < j {
      StepsRise(trace, i, j - 1);
      assert KeptIn(trace, j);
    }
  }

  lemma KeptAt(c: Context, p: Policy, run: seq<Observation>, k: nat)
    requires Initial(c) && 0 < k <= |run|
    ensures OneWriter(At(c, p, run, k - 1)) && EpochKept(At(c, p, run, k - 1), At(c, p, run, k))
  {
    InvAt(c, p, run, k - 1);
    EpochStep(At(c, p, run, k - 1), p, run[k - 1]);
  }

  function Trace(c: Context, p: Policy, run: seq<Observation>): seq<Context> {
    seq(|run| + 1, k requires 0 <= k <= |run| => At(c, p, run, k))
  }

  /** Between two points of a run the writer either stays the same, with its epoch, or writes with a
      higher epoch than any region had at the first point. */
  lemma EpochsRise(c: Context, p: Policy, run: seq<Observation>, i: nat, j: nat)
    requires Initial(c) && i <= j <= |run|
    ensures Risen(At(c, p, run, i), At(c, p, run, j))
  {
    var trace := Trace(c, p, run);
    forall k | 0 < k < |trace| ensures KeptIn(trace, k) {
      KeptAt(c, p, run, k);
    }
    StepsRise(trace, i, j);
  }

  predicate Accepts(r: Region, token: int) {
    WriteAllowed(r, token) == Ok(true)
  }

  /** A token accepted at a, before the promotion from b to d, is refused at e. */
  lemma StaleRefused(a: Context, b: Context, d: Context, e: Context, token: int)
    requires Inv(a) && Inv(e) && Risen(a, b) && Promotes(b, d) && EpochKept(b, d) && Risen(d, e)
    requires Accepts(a.primary, token) || Accepts(a.secondary, token)
    ensures !Accepts(e.primary, token) && !Accepts(e.secondary, token)
  {
  }

  /** A token accepted before a promotion is refused by both regions at any time after it. */
  lemma StaleTokensRefused(c: Context, p: Policy, run: seq<Observation>, i: nat, k: nat, j: nat, token: int)
    requires Initial(c) && i <= k < j <= |run|
    requires Promotes(At(c, p, run, k), At(c, p, run, k + 1))
    requires Accepts(At(c, p, run, i).primary, token) || Accepts(At(c, p, run, i).secondary, token)
    ensures !Accepts(At(c, p, run, j).primary, token) && !Accepts(At(c, p, run, j).secondary, token)
  {
    EpochsRise(c, p, run, i, k);
    EpochsRise(c, p, run, k + 1, j);
    InvAt(c, p, run, i);
    InvAt(c, p, run, j);
    KeptAt(c, p, run, k + 1);
    StaleRefused(At(c, p, run, i), At(c, p, run, k), At(c, p, run, k + 1), At(c, p, run, j), token);
  }

  /** No token is accepted by one region at one time and by the other at another. */
  lemma NoSharedEpoch(c: Context, p: Policy, run: seq<Observation>, i: nat, j: nat, token: int)
    requires Initial(c) && i <= |run| && j <= |run| && Accepts(At(c, p, run, i).primary, token)
    ensures !Accepts(At(c, p, run, j).secondary, token)
  {
    InvAt(c, p, run, i);
    InvAt(c, p, run, j);
    if i <= j {
      EpochsRise(c, p, run, i, j);
    } else {
      EpochsRise(c, p, run, j, i);
    }
  }

  // ---- what a promotion takes ----

  /** The transition after step k was made in a state, under a condition. */
  predicate Passed(c: Context, p: Policy, run: seq<Observation>, k: nat, s: State)
    requires k < |run|
  {
    At(c, p, run, k).state == s && At(c, p, run, k + 1).state != s
    && (s.ELIGIBILITY_CHECK? ==> Eligible(run[k].secondary, p))
    && (s.FENCING? ==> run[k].signals.fenced)
  }

  lemma {:induction false} FencingNeedsCheck(c: Context, p: Policy, run: seq<Observation>, i: nat)
    requires Initial(c) && i <= |run| && At(c, p, run, i).state.FENCING?
    ensures exists k: nat :: k < i && Passed(c, p, run, k, ELIGIBILITY_CHECK)
  {
    if i > 0 {
      if At(c, p, run, i - 1).state.FENCING? {
        FencingNeedsCheck(c, p, run, i - 1);
      } else {
        assert Passed(c, p, run, i - 1, ELIGIBILITY_CHECK);
      }
    }
  }

  lemma {:induction false} PromotingNeedsFence(c: Context, p: Policy, run: seq<Observation>, i: nat)
    requires Initial(c) && i <= |run| && At(c, p, run, i).state.PROMOTING?
    ensures exists j: nat, k: nat :: j < k < i && Passed(c, p, run, j, ELIGIBILITY_CHECK) && Passed(c, p, run, k, FENCING)
  {
    if i > 0 {
      if At(c, p, run, i - 1).state.PROMOTING? {
        PromotingNeedsFence(c, p, run, i - 1);
      } else {
        assert Passed(c, p, run, i - 1, FENCING);
        FencingNeedsCheck(c, p, run, i - 1);
      }
    }
  }

  /** The secondary is promoted only after it was found eligible and, after that, the old writer was
      proven fenced; the primary is promoted back only when it is eligible and its data are in step. */
  lemma PromotionsAreEarned(c: Context, p: Policy, run: seq<Observation>, i: nat)
    requires Initial(c) && i < |run| && Promotes(At(c, p, run, i), At(c, p, run, i + 1))
    ensures if At(c, p, run, i + 1).secondary.accepting then
              exists j: nat, k: nat :: j < k < i && Passed(c, p, run, j, ELIGIBILITY_CHECK) && Passed(c, p, run, k, FENCING)
            else
              Eligible(run[i].primary, p) && run[i].signals.failbackHealthy
  {
    InvAt(c, p, run, i);
    if At(c, p, run, i + 1).secondary.accepting {
      PromotingNeedsFence(c, p, run, i);
    }
  }
}

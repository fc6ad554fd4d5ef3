/**
  A disaster-recovery state machine over two regions, one transition at a time. Percentages and
  latencies are real numbers.
 */
module FailoverModel {
  import opened Results

  datatype State =
    | NORMAL | ASSESS | FROZEN | ELIGIBILITY_CHECK | FENCING | PROMOTING | CANARY | EXPANDING
    | RECOVERED_SECONDARY | HOLD_READ_ONLY | FAILBACK_PREP | FAILBACK_CANARY | NORMAL_RESTORED

  /** What is observed of a region. */
  datatype Health = Health(
    application: bool, capacity: real, dependencies: bool, identity: bool, observability: bool,
    lag: real, schema: bool, synthetic: bool)

  datatype Region = Region(name: string, health: Health, epoch: int, accepting: bool)

  datatype Policy = Policy(
    capacity: real, maximumLag: real, requireObservability: bool, requireSynthetic: bool,
    canary: real, step: real)

  /** What operators and monitoring report. */
  datatype Signals = Signals(
    fenced: bool, fastBurn: bool, inconsistent: bool, commander: bool, failbackHealthy: bool, rebuilt: bool)

  datatype Context = Context(
    state: State, primary: Region, secondary: Region, traffic: real, frozen: bool, signals: Signals)

  predicate ValidRegion(r: Region) {
    r.name != "" && r.health.capacity >= 0.0 && r.health.lag >= 0.0 && r.epoch >= 0
  }

  predicate ValidPolicy(p: Policy) {
    p.capacity > 0.0 && p.maximumLag >= 0.0 && 0.0 < p.canary <= 100.0 && 0.0 < p.step <= 100.0
  }

  predicate Valid(c: Context, p: Policy) {
    ValidRegion(c.primary) && ValidRegion(c.secondary) && ValidPolicy(p)
  }

  datatype Failure =
    | APPLICATION | CAPACITY | DEPENDENCY | IDENTITY | OBSERVABILITY | LAG | SCHEMA | SYNTHETIC

  /** Whether a region falls short in one respect. */
  predicate Fails(h: Health, p: Policy, f: Failure) {
    match f
    case APPLICATION => !h.application
    case CAPACITY => h.capacity < p.capacity
    case DEPENDENCY => !h.dependencies
    case IDENTITY => !h.identity
    case OBSERVABILITY => p.requireObservability && !h.observability
    case LAG => h.lag > p.maximumLag
    case SCHEMA => !h.schema
    case SYNTHETIC => p.requireSynthetic && !h.synthetic
  }

  /** What a region must be to take over. */
  predicate Eligible(h: Health, p: Policy) {
    && h.application && h.capacity >= p.capacity && h.dependencies && h.identity
    && (p.requireObservability ==> h.observability)
    && h.lag <= p.maximumLag && h.schema
    && (p.requireSynthetic ==> h.synthetic)
  }

  lemma EligibleMeansNoFailure(h: Health, p: Policy)
    ensures Eligible(h, p) <==> forall f :: !Fails(h, p, f)
  {
    if forall f :: !Fails(h, p, f) {
      assert !Fails(h, p, APPLICATION) && !Fails(h, p, CAPACITY) && !Fails(h, p, DEPENDENCY) && !Fails(h, p, IDENTITY);
      assert !Fails(h, p, OBSERVABILITY) && !Fails(h, p, LAG) && !Fails(h, p, SCHEMA) && !Fails(h, p, SYNTHETIC);
    }
  }

  /** failures.append, under a condition. */
  function Listed(failures: seq<Failure>, fails: bool, f: Failure): (r: seq<Failure>)
    ensures forall g :: g in r <==> g in failures || (fails && g == f)
  {
    if fails then failures + [f] else failures
  }

  /** destination_eligibility: every reason why not. */
  method DestinationEligibility(region: Region, p: Policy) returns (r: Result<seq<Failure>>)
    ensures r.Err? <==> !ValidRegion(region) || !ValidPolicy(p)
    ensures r.Err? ==> r.error == ValueError
    ensures r.Ok? ==> forall f :: f in r.value <==> Fails(region.health, p, f)
    ensures r.Ok? ==> (r.value == [] <==> Eligible(region.health, p))
  {
    if !ValidRegion(region) || !ValidPolicy(p) {
      return Err(ValueError);
    }
    var h := region.health;
    var failures := Listed([], !h.application, APPLICATION);
    failures := Listed(failures, h.capacity < p.capacity, CAPACITY);
    failures := Listed(failures, !h.dependencies, DEPENDENCY);
    failures := Listed(failures, !h.identity, IDENTITY);
    failures := Listed(failures, p.requireObservability && !h.observability, OBSERVABILITY);
    failures := Listed(failures, h.lag > p.maximumLag, LAG);
    failures := Listed(failures, !h.schema, SCHEMA);
    failures := Listed(failures, p.requireSynthetic && !h.synthetic, SYNTHETIC);
    EligibleMeansNoFailure(h, p);
    if failures != [] {
      assert failures[0] in failures;
    }
    return Ok(failures);
  }

  function WriteAllowed(r: Region, token: int): Result<bool> {
    if !ValidRegion(r) || token < 0 then Err(ValueError) else Ok(r.accepting && token == r.epoch)
  }

  function HigherEpoch(c: Context): int {
    if c.primary.epoch > c.secondary.epoch then c.primary.epoch else c.secondary.epoch
  }

  /** Whether fast burn stops a shift of traffic. */
  predicate Shifting(s: State) {
    s.CANARY? || s.EXPANDING? || s.FAILBACK_CANARY?
  }

  /** Traffic moved on to the secondary by one step. */
  function Expand(c: Context, p: Policy): Context {
    var percent := if c.traffic + p.step < 100.0 then c.traffic + p.step else 100.0;
    c.(state := if percent >= 100.0 then RECOVERED_SECONDARY else EXPANDING, traffic := percent)
  }

  /** Traffic moved back by one step. */
  function Retreat(c: Context, p: Policy): Context {
    var percent := if c.traffic - p.step > 0.0 then c.traffic - p.step else 0.0;
    c.(state := if percent <= 0.0 then NORMAL_RESTORED else FAILBACK_CANARY, traffic := percent)
  }

  function PromoteSecondary(c: Context, p: Policy): Context {
    c.(primary := c.primary.(accepting := false),
       secondary := c.secondary.(accepting := true, epoch := HigherEpoch(c) + 1),
       state := CANARY, traffic := p.canary)
  }

  function PromotePrimary(c: Context, p: Policy): Context {
    c.(primary := c.primary.(accepting := true, epoch := HigherEpoch(c) + 1),
       secondary := c.secondary.(accepting := false),
       state := FAILBACK_CANARY, traffic := if 100.0 - p.canary > 0.0 then 100.0 - p.canary else 0.0)
  }

  /** One transition. */
  function Next(c: Context, p: Policy): Context {
    if c.signals.inconsistent then c.(state := HOLD_READ_ONLY)
    else if c.signals.fastBurn && Shifting(c.state) then c.(state := HOLD_READ_ONLY)
    else
      match c.state
      case NORMAL => if c.primary.health.application then c else c.(state := ASSESS)
      case ASSESS => if c.signals.commander then c.(state := FROZEN, frozen := true) else c
      case FROZEN => c.(state := ELIGIBILITY_CHECK)
      case ELIGIBILITY_CHECK => c.(state := if Eligible(c.secondary.health, p) then FENCING else HOLD_READ_ONLY)
      case FENCING => if c.signals.fenced then c.(state := PROMOTING) else c
      case PROMOTING => PromoteSecondary(c, p)
      case CANARY => if Eligible(c.secondary.health, p) then Expand(c, p) else c.(state := HOLD_READ_ONLY)
      case EXPANDING => if Eligible(c.secondary.health, p) then Expand(c, p) else c.(state := HOLD_READ_ONLY)
      case RECOVERED_SECONDARY => if c.signals.rebuilt && c.signals.failbackHealthy then c.(state := FAILBACK_PREP) else c
      case FAILBACK_PREP =>
        if Eligible(c.primary.health, p) && c.signals.failbackHealthy then PromotePrimary(c, p) else c
      case FAILBACK_CANARY => Retreat(c, p)
      case NORMAL_RESTORED => c
      case HOLD_READ_ONLY => c
  }

  function ReconcileOnce(c: Context, p: Policy): Result<Context> {
    if Valid(c, p) then Ok(Next(c, p)) else Err(ValueError)
  }
}

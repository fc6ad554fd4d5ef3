/**
  What the flat loop of RetryModel says about retry amplification: worst cases by mode, what a request
  that succeeds early costs, and bounds on how long a request takes.
 */
module RetryTheorems {
  import opened Counting
  import opened Results
  import opened RetryModel
  import opened RetrySimulator

  // ---- how many attempts ----

  function Product(retries: seq<int>): int {
    if retries == [] then 1 else Product(retries[..|retries| - 1]) * (retries[|retries| - 1] + 1)
  }

  /** layered_retry_attempts of the overload lab, which predicts the worst case from retry counts. */
  method LayeredRetryAttempts(retriesPerLayer: seq<int>) returns (r: Result<int>)
    ensures r.Err? <==> exists i :: 0 <= i < |retriesPerLayer| && retriesPerLayer[i] < 0
    ensures r.Err? ==> r.error == ValueError
    ensures r.Ok? ==> r.value == Product(retriesPerLayer)
  {
    var attempts := 1;
    for i := 0 to |retriesPerLayer|
      invariant attempts == Product(retriesPerLayer[..i])
      invariant forall j | 0 <= j < i :: retriesPerLayer[j] >= 0
    {
      if retriesPerLayer[i] < 0 {
        return Err(ValueError);
      }
      attempts := attempts * (retriesPerLayer[i] + 1);
      assert retriesPerLayer[..i + 1][..i] == retriesPerLayer[..i];
    }
    assert retriesPerLayer[..|retriesPerLayer|] == retriesPerLayer;
    return Ok(attempts);
  }

  /** The retry limits of the layers from the given one down, the lowest first. */
  ghost function Limits(e: Env, layer: nat): (limits: seq<int>)
    requires e.Valid() && layer <= e.c.serviceLayers
    ensures |limits| == e.c.serviceLayers - layer
    ensures forall i | 0 <= i < |limits| :: limits[i] == e.Limit(e.c.serviceLayers - 1 - i)
    decreases e.c.serviceLayers - layer
  {
    if layer == e.c.serviceLayers then [] else Limits(e, layer + 1) + [e.Limit(layer)]
  }

  lemma ProductAppend(retries: seq<int>, last: nat, n: nat)
    requires Product(retries) == n
    ensures Product(retries + [last]) == Span(last + 1, n)
  {
    SpanIsProduct(last + 1, n);
    assert (retries + [last])[..|retries|] == retries;
  }

  /** The overload lab's prediction is the most attempts one call of the retry lab can cause. */
  lemma {:induction false} PredictionMatches(e: Env, layer: nat)
    requires e.Valid() && layer <= e.c.serviceLayers
    ensures Product(Limits(e, layer)) == e.Width(layer)
    decreases e.c.serviceLayers - layer
  {
    if layer < e.c.serviceLayers {
      PredictionMatches(e, layer + 1);
      ProductAppend(Limits(e, layer + 1), e.Limit(layer), e.Width(layer + 1));
    }
  }

  function Power(b: nat, n: nat): nat {
    if n == 0 then 1 else b * Power(b, n - 1)
  }

  /** The worst case by mode: one attempt without retries, one retrying layer's worth at the edge, and
      exponential in the number of layers when every layer retries. */
  lemma {:induction false} WorstCaseByMode(e: Env, layer: nat)
    requires e.Valid() && layer <= e.c.serviceLayers
    ensures e.c.mode.NONE? ==> e.Width(layer) == 1
    ensures e.c.mode.EDGE? ==> e.Width(layer) == if layer == 0 < e.c.serviceLayers then e.c.retriesPerLayer + 1 else 1
    ensures e.c.mode.LAYERED? ==> e.Width(layer) == Power(e.c.retriesPerLayer + 1, e.c.serviceLayers - layer)
    decreases e.c.serviceLayers - layer
  {
    if layer < e.c.serviceLayers {
      WorstCaseByMode(e, layer + 1);
      SpanIsProduct(e.Limit(layer) + 1, e.Width(layer + 1));
    }
  }

  /** Attempts of a request and calls at every layer, in all cases: with N the worst case, a request
      succeeds exactly if one of the next N outcomes is a success, makes the attempts up to the first
      such one, or all N, and causes ceil(A / Width(i)) calls at layer i. */
  lemma RequestCost(e: Env, p: nat, i: nat)
    requires e.Valid() && i <= e.c.serviceLayers
    ensures var n := e.Width(0);
            var a := e.Attempts(p, n);
            && 1 <= a <= n
            && (forall q | p <= q < p + a - 1 :: !e.succeeds(q))
            && (e.succeeds(p + a - 1) <==> exists q :: p <= q < p + n && e.succeeds(q))
            && (a < n ==> e.succeeds(p + a - 1))
            && e.CallsAt(i, a) == (a + e.Width(i) - 1) / e.Width(i)
            && e.CallsAt(i, n) * e.Width(i) == n
  {
    var n := e.Width(0);
    AttemptsExact(e, p, n);
    CeilDivIsDivision(e.Attempts(p, n), e.Width(i));
    WidthDivides(e, 0, i);
    CeilDivShift(Ratio(e, 0, i), e.Width(i), 0);
    SpanIsProduct(Ratio(e, 0, i), e.Width(i));
  }

  /** Over a run, r requests cost at most r worst cases, and exactly that if every attempt fails. */
  lemma {:induction false} Amplification(e: Env, r: nat)
    requires e.Valid()
    ensures r <= e.Position(r) <= Span(r, e.Width(0)) == r * e.Width(0)
    ensures (forall q | 0 <= q < Span(r, e.Width(0)) :: !e.succeeds(q)) ==>
              e.Position(r) == Span(r, e.Width(0)) && e.Successes(r) == 0
  {
    SpanIsProduct(r, e.Width(0));
    if r > 0 {
      Amplification(e, r - 1);
      AttemptsExact(e, e.Position(r - 1), e.Width(0));
    }
  }

  /** A request that fails has used up all its tries. */
  lemma {:induction false} FailuresAreExpensive(e: Env, r: nat)
    requires e.Valid()
    ensures e.Successes(r) <= r
    ensures e.Position(r) >= e.Successes(r) + (r - e.Successes(r)) * e.Width(0)
  {
    if r > 0 {
      FailuresAreExpensive(e, r - 1);
      var n, p, s := e.Width(0), e.Position(r - 1), e.Successes(r - 1);
      AttemptsExact(e, p, n);
      assert (r - s) * n == (r - 1 - s) * n + n;
    }
  }

  // ---- when ----

  /** In the mixed radix of the layers' tries, t has digit d at layer i and no lower digit. */
  ghost predicate LowestDigit(e: Env, t: nat, i: nat, q: nat, d: nat)
    requires e.Valid() && i < e.c.serviceLayers
  {
    1 <= d <= e.Limit(i) && t == Span(q, e.Width(i)) + Span(d, e.Width(i + 1))
  }

  /** The backoff before attempt t is numbered by the lowest non-zero digit of t: the layer whose own
      try has just run out of tries below it is the one that waits. */
  lemma {:induction false} BackoffIsCarry(e: Env, layer: nat, t: nat)
    requires e.Valid() && layer <= e.c.serviceLayers && 0 < t < e.Width(layer)
    ensures exists i: nat, q: nat :: layer <= i < e.c.serviceLayers && LowestDigit(e, t, i, q, e.RetryNumber(layer, t))
    decreases e.c.serviceLayers - layer
  {
    var below := e.Width(layer + 1);
    QuotRem(t, below);
    var d, rest := Quot(t, below), Rem(t, below);
    if rest == 0 {
      if d > e.Limit(layer) + 1 {
        SpanGrows(e.Limit(layer) + 1, d, below);
      }
      assert LowestDigit(e, t, layer, 0, e.RetryNumber(layer, t));
    } else {
      BackoffIsCarry(e, layer + 1, rest);
      var i: nat, q: nat :| layer + 1 <= i < e.c.serviceLayers && LowestDigit(e, rest, i, q, e.RetryNumber(layer + 1, rest));
      CarryMoves(e, layer, i, d, q);
      assert LowestDigit(e, t, i, Span(d, Ratio(e, layer + 1, i)) + q, e.RetryNumber(layer, t));
    }
  }

  lemma CarryMoves(e: Env, layer: nat, i: nat, d: nat, q: nat)
    requires e.Valid() && layer < i < e.c.serviceLayers
    ensures Span(Span(d, Ratio(e, layer + 1, i)) + q, e.Width(i)) == Span(d, e.Width(layer + 1)) + Span(q, e.Width(i))
  {
    WidthDivides(e, layer + 1, i);
    SpanAdds(Span(d, Ratio(e, layer + 1, i)), q, e.Width(i));
    SpanAssociative(d, Ratio(e, layer + 1, i), e.Width(i));
  }

  /** Draws are between zero and the ceiling, whatever its sign. */
  ghost predicate Fair(e: Env) {
    forall i: nat, ceiling: real :: Least(0.0, ceiling) <= e.uniform(i, ceiling) <= Most(0.0, ceiling)
  }

  function Least(a: real, b: real): real { if a < b then a else b }
  function Most(a: real, b: real): real { if a < b then b else a }

  /** Ceilings of the n-th retry of a layer lie between that of its first and that of its last one. */
  lemma {:induction false} DoublingBetween(base: real, n: nat, m: nat)
    requires n <= m
    ensures Least(base, Doubled(base, m)) <= Doubled(base, n)
    ensures base >= 0.0 ==> Doubled(base, m) >= base
    ensures base <= 0.0 ==> Doubled(base, m) <= base
  {
    if n < m {
      DoublingBetween(base, n, m - 1);
    } else if m > 0 {
      DoublingBetween(base, n - 1, m - 1);
    }
  }

  /** The shortest ceiling: of the first retry or, if the base is negative, of the last. */
  function LeastCeiling(c: Config): real {
    Least(Least(c.baseBackoff, Doubled(c.baseBackoff, if c.retriesPerLayer > 0 then c.retriesPerLayer - 1 else 0)), c.maxBackoff)
  }

  function Shortest(c: Config): real { if c.jitter then Least(0.0, LeastCeiling(c)) else LeastCeiling(c) }
  function Longest(c: Config): real { if c.jitter then Most(0.0, c.maxBackoff) else c.maxBackoff }

  /** If backoffs are not negative, these are the first ceiling, or nothing with jitter, and the maximum. */
  lemma SensibleBounds(c: Config)
    ensures c.baseBackoff >= 0.0 && c.maxBackoff >= 0.0 ==>
              Shortest(c) == (if c.jitter then 0.0 else Least(c.baseBackoff, c.maxBackoff)) && Longest(c) == c.maxBackoff
  {
    DoublingBetween(c.baseBackoff, 0, if c.retriesPerLayer > 0 then c.retriesPerLayer - 1 else 0);
  }

  lemma BackoffBounds(e: Env, n: nat, i: nat)
    requires Fair(e) && 1 <= n <= e.c.retriesPerLayer
    ensures Shortest(e.c) <= e.BackoffMs(n, i) <= Longest(e.c)
  {
    DoublingBetween(e.c.baseBackoff, n - 1, e.c.retriesPerLayer - 1);
    var ceiling := BackoffCeiling(n, e.c);
    assert LeastCeiling(e.c) <= ceiling <= e.c.maxBackoff;
    assert Least(0.0, ceiling) <= e.uniform(i, ceiling) <= Most(0.0, ceiling);
  }

  lemma NumberedWithin(e: Env, t: nat)
    requires e.Valid() && 0 < t < e.Width(0)
    ensures 1 <= e.RetryNumber(0, t) <= e.c.retriesPerLayer
  {
    BackoffIsCarry(e, 0, t);
    var i: nat, q: nat :| i < e.c.serviceLayers && LowestDigit(e, t, i, q, e.RetryNumber(0, t));
  }

  // ---- each gap ----

  lemma DigitFits(e: Env, i: nat, d: nat)
    requires e.Valid() && i < e.c.serviceLayers && 1 <= d <= e.Limit(i)
    ensures 1 <= Span(d, e.Width(i + 1)) < e.Width(i)
  {
    SpanGrows(0, d, e.Width(i + 1));
    SpanGrows(d, e.Limit(i) + 1, e.Width(i + 1));
  }

  /** A digit of a lower layer stays when the tries of the layer below are counted off. */
  lemma CarryBelow(e: Env, layer: nat, t: nat, i: nat, q: nat, d: nat) returns (k: nat, rest: nat, r: nat)
    requires e.Valid() && layer < i < e.c.serviceLayers && LowestDigit(e, t, i, q, d)
    ensures t == Span(k, e.Width(layer + 1)) + rest && 0 < rest < e.Width(layer + 1) && LowestDigit(e, rest, i, r, d)
  {
    var ratio := Ratio(e, layer + 1, i);
    WidthDivides(e, layer + 1, i);
    DigitFits(e, i, d);
    assert ratio > 0;
    QuotRem(q, ratio);
    k, r := Quot(q, ratio), Rem(q, ratio);
    rest := Span(r, e.Width(i)) + Span(d, e.Width(i + 1));
    SpanAdds(Span(k, ratio), r, e.Width(i));
    SpanAssociative(k, ratio, e.Width(i));
    SpanGrows(r, ratio, e.Width(i));
  }

  /** There is only one such digit: it numbers the retry. */
  lemma {:induction false} CarryIsRetryNumber(e: Env, layer: nat, t: nat, i: nat, q: nat, d: nat)
    requires e.Valid() && layer <= i < e.c.serviceLayers && 0 < t < e.Width(layer) && LowestDigit(e, t, i, q, d)
    ensures d == e.RetryNumber(layer, t)
    decreases i - layer
  {
    if layer == i {
      RetryNumberAt(e, layer, d, t);
    } else {
      var k, rest, r := CarryBelow(e, layer, t, i, q, d);
      RetryNumberBelow(e, layer, k, Span(k, e.Width(layer + 1)), rest);
      CarryIsRetryNumber(e, layer + 1, rest, i, r, d);
    }
  }

  /** base, doubled n times. */
  function DoubledTimes(base: real, n: nat): real
    decreases n
  {
    if n == 0 then base else DoubledTimes(base + base, n - 1)
  }

  lemma {:induction false} DoubledIs(base: real, n: nat)
    ensures Doubled(base, n) == DoubledTimes(base, n)
    decreases n
  {
    if n > 0 {
      DoubledShift(base, n - 1);
      DoubledIs(base + base, n - 1);
    }
  }

  lemma {:induction false} DoubledShift(base: real, n: nat)
    ensures Doubled(base, n + 1) == Doubled(base + base, n)
  {
    if n > 0 {
      DoubledShift(base, n - 1);
    }
  }

  /** The time between attempt j and the one before, beyond its latency, in every mode: the base doubled as
      often as retries of its layer have gone before, capped, and with jitter a draw from zero to that. */
  lemma GapExact(e: Env, start: real, draws: nat, j: nat, i: nat, q: nat, d: nat)
    requires e.Valid() && 0 < j < e.Width(0) && i < e.c.serviceLayers && LowestDigit(e, j, i, q, d)
    ensures var gap := e.AttemptTime(0, start, draws, j) - e.AttemptTime(0, start, draws, j - 1) - e.c.latency;
            var limit := Least(DoubledTimes(e.c.baseBackoff, d - 1), e.c.maxBackoff);
            && gap == (if e.c.jitter then e.uniform(draws + j - 1, limit) else limit)
            && (Fair(e) && e.c.baseBackoff >= 0.0 && e.c.maxBackoff >= 0.0 ==> 0.0 <= gap <= limit)
  {
    CarryIsRetryNumber(e, 0, j, i, q, d);
    NextAttempt(e, 0, start, draws, j);
    DoubledIs(e.c.baseBackoff, d - 1);
    DoublingBetween(e.c.baseBackoff, 0, d - 1);
  }

  /** n * x, by counting. */
  function Scaled(n: nat, x: real): real { if n == 0 then 0.0 else Scaled(n - 1, x) + x }

  lemma {:induction false} ScaledIsProduct(n: nat, x: real)
    ensures Scaled(n, x) == n as real * x
  {
    if n > 0 {
      ScaledIsProduct(n - 1, x);
    }
  }

  lemma {:induction false} ScaledGrows(n: nat, x: real)
    ensures x >= 0.0 ==> Scaled(n, x) >= 0.0
  {
    if n > 0 {
      ScaledGrows(n - 1, x);
    }
  }

  /** n attempts take n latencies and n - 1 backoffs, each between the shortest and the longest there is. */
  lemma {:induction false} CompletionBounds(e: Env, start: real, draws: nat, n: nat)
    requires e.Valid() && Fair(e) && 1 <= n <= e.Width(0)
    ensures var completion := e.AttemptTime(0, start, draws, n - 1) + e.c.latency;
            && start + Scaled(n, e.c.latency) + Scaled(n - 1, Shortest(e.c)) <= completion
            && completion <= start + Scaled(n, e.c.latency) + Scaled(n - 1, Longest(e.c))
  {
    if n > 1 {
      CompletionBounds(e, start, draws, n - 1);
      NextAttempt(e, 0, start, draws, n - 1);
      NumberedWithin(e, n - 1);
      BackoffBounds(e, e.RetryNumber(0, n - 1), draws + n - 2);
    } else {
      assert Scaled(1, e.c.latency) == e.c.latency;
    }
  }

  /** How long a logical request takes that makes a attempts. */
  lemma RequestTime(e: Env, leaves: nat, draws: nat)
    requires e.Valid() && Fair(e)
    ensures var o, a := Request(e, leaves, draws), e.Attempts(leaves, e.Width(0));
            && Scaled(a, e.c.latency) + Scaled(a - 1, Shortest(e.c)) <= o.completed
            && o.completed <= Scaled(a, e.c.latency) + Scaled(a - 1, Longest(e.c))
            && (e.c.baseBackoff >= 0.0 && e.c.maxBackoff >= 0.0 ==>
                  && Scaled(a, e.c.latency) <= o.completed <= Scaled(a, e.c.latency) + Scaled(a - 1, e.c.maxBackoff)
                  && (!e.c.jitter ==>
                        Scaled(a, e.c.latency) + Scaled(a - 1, Least(e.c.baseBackoff, e.c.maxBackoff)) <= o.completed))
  {
    SensibleBounds(e.c);
    ScaledGrows(e.Attempts(leaves, e.Width(0)) - 1, Shortest(e.c));
    RequestIsFlatLoop(e, leaves, draws);
    CompletionBounds(e, 0.0, draws, e.Attempts(leaves, e.Width(0)));
  }

  /** Without jitter and with one retrying layer, the schedule is plain exponential backoff. */
  lemma EdgeSchedule(e: Env, start: real, draws: nat, j: nat)
    requires e.Valid() && e.c.mode.EDGE? && e.c.serviceLayers > 0 && !e.c.jitter
    requires 0 < j <= e.c.retriesPerLayer
    ensures e.AttemptTime(0, start, draws, j)
         == e.AttemptTime(0, start, draws, j - 1) + e.c.latency
            + Least(Doubled(e.c.baseBackoff, j - 1), e.c.maxBackoff)
  {
    WorstCaseByMode(e, 1);
    QuotRem(j, 1);
  }
}

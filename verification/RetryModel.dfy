/**
  Retry amplification as one flat loop. A chain of services in which every layer retries the one below
  makes the same dependency attempts, at the same times, as a single loop over attempts 0, 1, 2, ...
  that stops at the first success or after Width(0) tries.
 */
module RetryModel {
  import opened Counting
  import opened Results

  /** The mode named in the configuration; the program knows three. */
  datatype Mode = NONE | EDGE | LAYERED | UNSUPPORTED(name: string)

  datatype Config = Config(
    serviceLayers: int, retriesPerLayer: int, latency: real, baseBackoff: real, maxBackoff: real,
    jitter: bool, mode: Mode)

  function RetryLimit(layer: int, c: Config): Result<int> {
    match c.mode
    case NONE => Ok(0)
    case EDGE => Ok(if layer == 0 then c.retriesPerLayer else 0)
    case LAYERED => Ok(c.retriesPerLayer)
    case UNSUPPORTED(_) => Err(ValueError)
  }

  /** base * 2 ** n. */
  function Doubled(base: real, n: nat): real {
    if n == 0 then base else 2.0 * Doubled(base, n - 1)
  }

  function BackoffCeiling(retryNumber: int, c: Config): real {
    var grown := Doubled(c.baseBackoff, if retryNumber - 1 > 0 then retryNumber - 1 else 0);
    if grown < c.maxBackoff then grown else c.maxBackoff
  }

  /** A configuration with two random streams: whether the n-th dependency attempt succeeds, and the
      n-th uniform draw between 0 and a ceiling. */
  datatype Env = Env(c: Config, succeeds: nat -> bool, uniform: (nat, real) -> real) {

    /** What it takes for a request to run: without a layer that retries, the mode is never looked at. */
    predicate Valid() {
      c.serviceLayers >= 0 && c.retriesPerLayer >= 0 && (c.serviceLayers > 0 ==> RetryLimit(0, c).Ok?)
    }

    /** The wait before a retry, using jitter draw i if there is jitter. */
    function BackoffMs(retryNumber: int, i: nat): real {
      var ceiling := BackoffCeiling(retryNumber, c);
      if c.jitter then uniform(i, ceiling) else ceiling
    }

    function Limit(layer: int): nat
      requires Valid() && 0 <= layer < c.serviceLayers
    {
      RetryLimit(layer, c).value
    }

    /** The most dependency attempts one call at this layer can cause. */
    function Width(layer: nat): (n: nat)
      requires Valid() && layer <= c.serviceLayers
      ensures n >= 1
      decreases c.serviceLayers - layer
    {
      if layer == c.serviceLayers then 1
      else Span(Limit(layer) + 1, Width(layer + 1))
    }

    /** Calls of a layer behind a dependency attempts: one for every started group of Width(layer). */
    function CallsAt(layer: nat, a: nat): nat
      requires Valid() && layer <= c.serviceLayers
    {
      CeilDiv(a, Width(layer))
    }

    /** Attempts of a flat loop of at most n tries from stream position p. */
    function Attempts(p: nat, n: nat): (a: nat)
      requires n >= 1
      ensures 1 <= a <= n
      decreases n
    {
      if succeeds(p) || n == 1 then 1 else 1 + Attempts(p + 1, n - 1)
    }

    /** The retry number of the backoff before attempt t of a call at this layer: t counted in the mixed
        radix of the layers below, its lowest digit that is not zero. */
    function RetryNumber(layer: nat, t: nat): nat
      requires Valid() && layer <= c.serviceLayers && 0 < t
      decreases c.serviceLayers - layer
    {
      if layer == c.serviceLayers then 0
      else if Rem(t, Width(layer + 1)) == 0 then Quot(t, Width(layer + 1))
      else RetryNumber(layer + 1, Rem(t, Width(layer + 1)))
    }

    /** When attempt j starts: one latency and one backoff after the attempt before it. */
    function AttemptTime(layer: nat, start: real, draws: nat, j: nat): real
      requires Valid() && layer <= c.serviceLayers
      decreases j
    {
      if j == 0 then start
      else AttemptTime(layer, start, draws, j - 1) + c.latency + BackoffMs(RetryNumber(layer, j), draws + j - 1)
    }

    function AttemptTimes(layer: nat, start: real, draws: nat, n: nat): seq<real>
      requires Valid() && layer <= c.serviceLayers
    {
      if n == 0 then [] else AttemptTimes(layer, start, draws, n - 1) + [AttemptTime(layer, start, draws, n - 1)]
    }

    /** The stream position at which logical request r starts. */
    function Position(r: nat): nat
      requires Valid()
    {
      if r == 0 then 0 else Position(r - 1) + Attempts(Position(r - 1), Width(0))
    }

    /** Calls that r logical requests make at a layer. */
    function TotalCalls(layer: nat, r: nat): nat
      requires Valid() && layer <= c.serviceLayers
    {
      if r == 0 then 0
      else TotalCalls(layer, r - 1) + CallsAt(layer, Attempts(Position(r - 1), Width(0)))
    }

    function Successes(r: nat): nat
      requires Valid()
    {
      if r == 0 then 0 else Successes(r - 1) + if succeeds(Position(r) - 1) then 1 else 0
    }
  }

  // ---- the flat loop ----

  /** The attempts of the flat loop are all there is before and including the first success, capped. */
  lemma {:induction false} AttemptsExact(e: Env, p: nat, n: nat)
    requires n >= 1
    ensures var a := e.Attempts(p, n);
            && (forall q | p <= q < p + a - 1 :: !e.succeeds(q))
            && (e.succeeds(p + a - 1) <==> exists q :: p <= q < p + n && e.succeeds(q))
            && (a < n ==> e.succeeds(p + a - 1))
    decreases n
  {
    if !e.succeeds(p) && n > 1 {
      AttemptsExact(e, p + 1, n - 1);
    }
  }

  /** After m failures the loop goes on as if it started there. */
  lemma {:induction false} AttemptsSkip(e: Env, p: nat, m: nat, n: nat)
    requires m < n && forall q | p <= q < p + m :: !e.succeeds(q)
    ensures e.Attempts(p, n) == m + e.Attempts(p + m, n - m)
    decreases n
  {
    if m > 0 {
      AttemptsSkip(e, p + 1, m - 1, n - 1);
    }
  }

  /** A cap that is not reached does not matter. */
  lemma {:induction false} AttemptsCap(e: Env, p: nat, m: nat, n: nat)
    requires 1 <= m <= n && e.succeeds(p + e.Attempts(p, m) - 1)
    ensures e.Attempts(p, n) == e.Attempts(p, m)
    decreases n
  {
    if !e.succeeds(p) && m > 1 {
      AttemptsCap(e, p + 1, m - 1, n - 1);
    }
  }

  // ---- widths ----

  /** How many calls of layer i one exhausted call of a higher layer makes. */
  function Ratio(e: Env, layer: nat, i: nat): nat
    requires e.Valid() && layer <= i <= e.c.serviceLayers
    decreases i - layer
  {
    if layer == i then 1 else Span(e.Limit(layer) + 1, Ratio(e, layer + 1, i))
  }

  /** A lower layer's width divides a higher layer's. */
  lemma {:induction false} WidthDivides(e: Env, layer: nat, i: nat)
    requires e.Valid() && layer <= i <= e.c.serviceLayers
    ensures e.Width(layer) == Span(Ratio(e, layer, i), e.Width(i))
    decreases i - layer
  {
    if layer < i {
      WidthDivides(e, layer + 1, i);
      SpanAssociative(e.Limit(layer) + 1, Ratio(e, layer + 1, i), e.Width(i));
    }
  }

  /** Within the k-th try of the layer below, which starts after m attempts, backoffs are numbered as
      that try numbers them itself. */
  lemma RetryNumberBelow(e: Env, layer: nat, k: nat, m: nat, j: nat)
    requires e.Valid() && layer < e.c.serviceLayers && 0 < j < e.Width(layer + 1) && m == Span(k, e.Width(layer + 1))
    ensures e.RetryNumber(layer, m + j) == e.RetryNumber(layer + 1, j)
  {
    QuotRemSpan(k, j, e.Width(layer + 1));
  }

  lemma RetryNumberAt(e: Env, layer: nat, k: nat, m: nat)
    requires e.Valid() && layer < e.c.serviceLayers && k > 0 && m == Span(k, e.Width(layer + 1))
    ensures m > 0 && e.RetryNumber(layer, m) == k
  {
    QuotRemSpan(k, 0, e.Width(layer + 1));
    SpanGrows(0, k, e.Width(layer + 1));
  }

  lemma SameBackoff(e: Env, n: nat, i: nat, j: nat)
    requires e.c.jitter ==> i == j
    ensures e.BackoffMs(n, i) == e.BackoffMs(n, j)
  {
  }

  lemma NextAttempt(e: Env, layer: nat, start: real, draws: nat, j: nat)
    requires e.Valid() && layer <= e.c.serviceLayers && j > 0
    ensures e.AttemptTime(layer, start, draws, j)
         == e.AttemptTime(layer, start, draws, j - 1) + e.c.latency
            + e.BackoffMs(e.RetryNumber(layer, j), draws + j - 1)
  {
  }

  lemma SameGap(e: Env, layer: nat, k: nat, m: nat, j: nat, draws: nat, drawsBelow: nat)
    requires e.Valid() && layer < e.c.serviceLayers && 0 < j < e.Width(layer + 1) && m == Span(k, e.Width(layer + 1))
    requires e.c.jitter ==> drawsBelow == draws + m
    ensures e.BackoffMs(e.RetryNumber(layer + 1, j), drawsBelow + j - 1)
         == e.BackoffMs(e.RetryNumber(layer, m + j), draws + m + j - 1)
  {
    RetryNumberBelow(e, layer, k, m, j);
    SameBackoff(e, e.RetryNumber(layer, m + j), drawsBelow + j - 1, draws + m + j - 1);
  }

  /** The attempts of the k-th try, seen from the layer above. */
  lemma {:induction false} TimesBelow(e: Env, layer: nat, start: real, draws: nat, k: nat, m: nat, below: real, drawsBelow: nat, j: nat)
    requires e.Valid() && layer < e.c.serviceLayers && j < e.Width(layer + 1) && m == Span(k, e.Width(layer + 1))
    requires e.c.jitter ==> drawsBelow == draws + m
    requires below == e.AttemptTime(layer, start, draws, m)
    ensures e.AttemptTime(layer + 1, below, drawsBelow, j) == e.AttemptTime(layer, start, draws, m + j)
  {
    if j > 0 {
      TimesBelow(e, layer, start, draws, k, m, below, drawsBelow, j - 1);
      SameGap(e, layer, k, m, j, draws, drawsBelow);
      NextAttempt(e, layer + 1, below, drawsBelow, j);
      NextAttempt(e, layer, start, draws, m + j);
    }
  }

  lemma {:induction false} TimesAppend(e: Env, layer: nat, start: real, draws: nat, k: nat, m: nat, below: real, drawsBelow: nat, n: nat)
    requires e.Valid() && layer < e.c.serviceLayers && n <= e.Width(layer + 1) && m == Span(k, e.Width(layer + 1))
    requires e.c.jitter ==> drawsBelow == draws + m
    requires below == e.AttemptTime(layer, start, draws, m)
    ensures e.AttemptTimes(layer, start, draws, m) + e.AttemptTimes(layer + 1, below, drawsBelow, n)
         == e.AttemptTimes(layer, start, draws, m + n)
  {
    if n > 0 {
      TimesAppend(e, layer, start, draws, k, m, below, drawsBelow, n - 1);
      TimesBelow(e, layer, start, draws, k, m, below, drawsBelow, n - 1);
      assert e.AttemptTimes(layer, start, draws, m) + e.AttemptTimes(layer + 1, below, drawsBelow, n)
          == (e.AttemptTimes(layer, start, draws, m) + e.AttemptTimes(layer + 1, below, drawsBelow, n - 1))
             + [e.AttemptTime(layer + 1, below, drawsBelow, n - 1)];
    }
  }
}

/** Retry strategies, the threshold escalation policy and their delay arithmetic
    (engine/runtime/retry.py, engine/runtime/escalation.py). */
module RetryPolicies {
  import opened Tasks

  /** The clause shared by the four strategies: whether and when exhaustion escalates. */
  datatype Exhaustion = Exhaustion(enabled: bool, threshold: Option<int>)

  datatype Backoff = Backoff(base: real, multiplier: real, max: real)

  /** The bounds the strategies' constructors insist on. */
  predicate ValidBackoff(b: Backoff) {
    0.0 < b.base <= b.max && 1.0 <= b.multiplier
  }

  datatype Strategy =
    | DefaultStrategy(exhaustion: Exhaustion)
    | ExponentialStrategy(backoff: Backoff, exhaustion: Exhaustion)
    | JitteredStrategy(backoff: Backoff, exhaustion: Exhaustion)
    | AdjustingStrategy(adjuster: FailureContext -> Option<Payload>,
                        base: Option<Strategy>, exhaustion: Exhaustion)

  datatype RetryDecision = RetryDecision(
    shouldRetry: bool,
    delay: Option<real>,
    adjustedInput: Option<Payload>,
    escalate: bool)

  function Power(m: real, k: nat): real {
    if k == 0 then 1.0 else m * Power(m, k - 1)
  }

  /** The real number `base * m ** k`, see ExponentialIsProduct. */
  function Exponential(base: real, m: real, k: nat): real {
    if k == 0 then base else Exponential(base, m, k - 1) * m
  }

  function Min(a: real, b: real): real {
    if a <= b then a else b
  }

  /** `min(base * multiplier ** (attempt - 1), max)`. */
  function BackoffDelay(b: Backoff, attempt: nat): real
    requires 1 <= attempt
  {
    Min(Exponential(b.base, b.multiplier, attempt - 1), b.max)
  }

  function Scaled(r: real, x: real): real {
    r * x
  }

  /** The same, scaled by what the random source returned. */
  function JitteredDelay(b: Backoff, attempt: nat, random: real): real
    requires 1 <= attempt
  {
    Scaled(random, BackoffDelay(b, attempt))
  }

  predicate Exhausted(failure: FailureContext) {
    failure.attempt > failure.maxRetries
  }

  predicate EscalatesOnExhaustion(x: Exhaustion, failure: FailureContext) {
    x.enabled && (x.threshold.None? || failure.attempt >= x.threshold.value)
  }

  /** The verdict of a strategy; `random` is what its random source returns. */
  function Decide(s: Strategy, failure: FailureContext, random: real): RetryDecision
    requires 1 <= failure.attempt
  {
    if Exhausted(failure) then
      RetryDecision(false, None, None, EscalatesOnExhaustion(s.exhaustion, failure))
    else
      match s
      case DefaultStrategy(_) => RetryDecision(true, None, None, false)
      case ExponentialStrategy(b, _) =>
        RetryDecision(true, Some(BackoffDelay(b, failure.attempt)), None, false)
      case JitteredStrategy(b, _) =>
        RetryDecision(true, Some(JitteredDelay(b, failure.attempt, random)), None, false)
      case AdjustingStrategy(adjuster, base, _) =>
        var delay := if base.Some? then Decide(base.value, failure, random).delay else None;
        RetryDecision(true, delay, adjuster(failure), false)
  }

  /** `len(history) >= max_retries_before_escalate`; without a policy never. */
  predicate ShouldEscalate(threshold: Option<int>, failures: nat) {
    threshold.Some? && failures >= threshold.value
  }

  // ---------------------------------------------------------------------------
  // Delay arithmetic
  // ---------------------------------------------------------------------------

  /** The recurrence a reader has in mind: start at the base, multiply, clamp. */
  function ClampedRecurrence(b: Backoff, attempt: nat): real
    requires 1 <= attempt
  {
    if attempt == 1 then b.base
    else NextDelay(b, ClampedRecurrence(b, attempt - 1))
  }

  function NextDelay(b: Backoff, delay: real): real {
    Min(delay * b.multiplier, b.max)
  }

  lemma Grows(x: real, m: real)
    requires 0.0 <= x && 1.0 <= m
    ensures x <= x * m
  {
    assert 0.0 <= x * (m - 1.0);
  }

  lemma Shrinks(r: real, x: real)
    requires 0.0 <= r <= 1.0 && 0.0 <= x
    ensures 0.0 <= Scaled(r, x) <= x
  {
    FractionOf(r, x);
  }

  lemma FractionOf(r: real, x: real)
    requires 0.0 <= r <= 1.0 && 0.0 <= x
    ensures 0.0 <= r * x <= x
  {
    assert 0.0 <= (1.0 - r) * x;
  }

  /** Multiplying the clamped value and clamping again loses nothing. */
  lemma ClampCommutes(raw: real, m: real, max: real)
    requires 0.0 < raw && 1.0 <= m && 0.0 < max
    ensures Min(Min(raw, max) * m, max) == Min(raw * m, max)
  {
    Grows(raw, m);
    Grows(max, m);
  }

  lemma {:induction false} ExponentialIsProduct(base: real, m: real, k: nat)
    ensures Exponential(base, m, k) == base * Power(m, k)
  {
    if k > 0 {
      ExponentialIsProduct(base, m, k - 1);
      Reassociate(base, m, Power(m, k - 1));
    }
  }

  lemma Reassociate(a: real, m: real, p: real)
    ensures a * (m * p) == a * p * m
  {
  }

  lemma {:induction false} ExponentialGrows(base: real, m: real, k: nat)
    requires 0.0 < base && 1.0 <= m
    ensures base <= Exponential(base, m, k) <= Exponential(base, m, k + 1)
  {
    if k > 0 {
      ExponentialGrows(base, m, k - 1);
    }
    Grows(Exponential(base, m, k), m);
  }

  /** One more attempt multiplies the previous delay once and clamps again. */
  lemma DelayStep(b: Backoff, k: nat)
    requires ValidBackoff(b) && 1 <= k
    ensures BackoffDelay(b, k + 1) == NextDelay(b, BackoffDelay(b, k))
    ensures b.base <= BackoffDelay(b, k) <= BackoffDelay(b, k + 1) <= b.max
  {
    ExponentialGrows(b.base, b.multiplier, k - 1);
    ClampCommutes(Exponential(b.base, b.multiplier, k - 1), b.multiplier, b.max);
  }

  /** Clamping each step gives the same delay as clamping the closed form once. */
  lemma {:induction false} DelayIsClampedRecurrence(b: Backoff, attempt: nat)
    requires ValidBackoff(b) && 1 <= attempt
    ensures BackoffDelay(b, attempt) == ClampedRecurrence(b, attempt)
  {
    if attempt == 1 {
    } else {
      DelayIsClampedRecurrence(b, attempt - 1);
      DelayStep(b, attempt - 1);
    }
  }

  /** Delays never shrink from one attempt to a later one and stay in [base, max]. */
  lemma {:induction false} DelayBoundedAndMonotone(b: Backoff, attempt: nat, later: nat)
    requires ValidBackoff(b) && 1 <= attempt <= later
    ensures b.base <= BackoffDelay(b, attempt) <= BackoffDelay(b, later) <= b.max
    decreases later
  {
    DelayStep(b, later);
    if attempt < later {
      DelayBoundedAndMonotone(b, attempt, later - 1);
      DelayStep(b, later - 1);
    }
  }

  /** The backoff a strategy's delay comes from, following wrapped base strategies. */
  function DelaySource(s: Strategy): Option<Backoff> {
    match s
    case DefaultStrategy(_) => None
    case ExponentialStrategy(b, _) => Some(b)
    case JitteredStrategy(b, _) => Some(b)
    case AdjustingStrategy(_, base, _) => if base.Some? then DelaySource(base.value) else None
  }

  predicate DelayWithin(d: Option<real>, source: Option<Backoff>, attempt: nat)
    requires 1 <= attempt
  {
    && (d.Some? <==> source.Some?)
    && (d.Some? ==> 0.0 <= d.value <= ClampedRecurrence(source.value, attempt))
  }

  lemma CapBounds(b: Backoff, attempt: nat)
    requires ValidBackoff(b) && 1 <= attempt
    ensures 0.0 <= BackoffDelay(b, attempt) == ClampedRecurrence(b, attempt)
  {
    DelayBoundedAndMonotone(b, attempt, attempt);
    DelayIsClampedRecurrence(b, attempt);
  }

  lemma JitterShrinks(b: Backoff, attempt: nat, random: real)
    requires 1 <= attempt && 0.0 <= BackoffDelay(b, attempt) && 0.0 <= random <= 1.0
    ensures 0.0 <= JitteredDelay(b, attempt, random) <= BackoffDelay(b, attempt)
  {
    Shrinks(random, BackoffDelay(b, attempt));
  }

  lemma JitterBounds(b: Backoff, attempt: nat, random: real)
    requires ValidBackoff(b) && 1 <= attempt && 0.0 <= random <= 1.0
    ensures DelayWithin(Some(BackoffDelay(b, attempt)), Some(b), attempt)
    ensures DelayWithin(Some(JitteredDelay(b, attempt, random)), Some(b), attempt)
  {
    CapBounds(b, attempt);
    JitterShrinks(b, attempt, random);
  }

  /** Whatever the strategy and however deeply wrapped, a retry's delay lies in
      [0, the clamped exponential], and there is a delay exactly when some
      wrapped strategy backs off. */
  lemma {:induction false} RetryDelayBounds(s: Strategy, failure: FailureContext, random: real)
    requires 1 <= failure.attempt && !Exhausted(failure)
    requires DelaySource(s).Some? ==> ValidBackoff(DelaySource(s).value)
    requires 0.0 <= random <= 1.0
    ensures DelayWithin(Decide(s, failure, random).delay, DelaySource(s), failure.attempt)
  {
    match s
    case DefaultStrategy(_) =>
    case ExponentialStrategy(b, _) =>
      JitterBounds(b, failure.attempt, random);
    case JitteredStrategy(b, _) =>
      JitterBounds(b, failure.attempt, random);
    case AdjustingStrategy(_, base, _) =>
      if base.Some? {
        RetryDelayBounds(base.value, failure, random);
      }
  }

  /** Any two strategies agree on whether to retry - exactly while the attempt is within
      max_retries - and, with the same exhaustion clause, on whether to escalate; they differ
      only in delay and input. */
  lemma StrategiesAgree(s: Strategy, t: Strategy, failure: FailureContext, r: real, q: real)
    requires 1 <= failure.attempt
    ensures Decide(s, failure, r).shouldRetry == Decide(t, failure, q).shouldRetry
    ensures Decide(s, failure, r).shouldRetry <==> failure.attempt <= failure.maxRetries
    ensures Decide(s, failure, r).escalate ==> !Decide(s, failure, r).shouldRetry
    ensures s.exhaustion == t.exhaustion ==> Decide(s, failure, r).escalate == Decide(t, failure, q).escalate
  {
  }

  /** The delay of a retry: the clamped recurrence for exponential backoff, a random part of it
      for jittered backoff, the wrapped strategy's for one that adjusts the input. */
  function ExpectedDelay(s: Strategy, attempt: nat, random: real): Option<real>
    requires 1 <= attempt
  {
    match s
    case DefaultStrategy(_) => None
    case ExponentialStrategy(b, _) => Some(ClampedRecurrence(b, attempt))
    case JitteredStrategy(b, _) => Some(Scaled(random, ClampedRecurrence(b, attempt)))
    case AdjustingStrategy(_, base, _) => if base.Some? then ExpectedDelay(base.value, attempt, random) else None
  }

  lemma ScaledIsProduct(r: real, x: real)
    ensures Scaled(r, x) == r * x
  {
  }

  /** Exactly what a retry waits. */
  lemma {:induction false} RetryDelayIs(s: Strategy, failure: FailureContext, random: real)
    requires 1 <= failure.attempt <= failure.maxRetries
    requires DelaySource(s).Some? ==> ValidBackoff(DelaySource(s).value)
    ensures Decide(s, failure, random).delay == ExpectedDelay(s, failure.attempt, random)
  {
    match s
    case DefaultStrategy(_) =>
    case ExponentialStrategy(b, _) => CapBounds(b, failure.attempt);
    case JitteredStrategy(b, _) => CapBounds(b, failure.attempt);
    case AdjustingStrategy(_, base, _) =>
      if base.Some? {
        RetryDelayIs(base.value, failure, random);
      }
  }
}

/** The polling loop of the trigger scheduler (engine/runtime/scheduler.py): how many
    cycles a run makes, and how long it sleeps between them. */
module PollLoop {
  import opened Tasks
  import opened RetryPolicies

  /** What the outside world answers: whether a cycle submits anything (cycles count from
      1), the stop signal at each check, and the random draws. */
  datatype Surroundings = Surroundings(works: nat -> bool, stops: nat -> bool, draw: nat -> real)

  ghost predicate Draws(s: Surroundings) {
    forall k :: 0.0 <= s.draw(k) < 1.0
  }

  /** The first check that finds the stop signal set, None when no check ever does. */
  ghost predicate FirstStop(s: Surroundings, first: Option<nat>) {
    match first
    case None => forall k :: !s.stops(k)
    case Some(c) => s.stops(c) && forall k :: 0 <= k < c ==> !s.stops(k)
  }

  /** How many of the cycles up to `cycle` were idle in a row, counting back from it. */
  function IdleStreak(works: nat -> bool, cycle: nat): nat {
    if cycle == 0 || works(cycle) then 0 else IdleStreak(works, cycle - 1) + 1
  }

  /** The cycles counted were idle, and the one before them was not. */
  lemma {:induction false} StreakIsLongest(works: nat -> bool, cycle: nat)
    ensures
      var n := IdleStreak(works, cycle);
      && n <= cycle && (forall k :: cycle - n < k <= cycle ==> !works(k))
      && (n < cycle ==> works(cycle - n))
  {
    if cycle > 0 && !works(cycle) {
      StreakIsLongest(works, cycle - 1);
    }
  }

  /** `_compute_interval_seconds` before jitter. */
  function Interval(b: Backoff, idle: nat): real {
    if idle == 0 then b.base else BackoffDelay(b, idle)
  }

  /** An interval lengthened by a random part of its jitter. */
  function Stretch(interval: real, jitter: real, random: real): real {
    if jitter > 0.0 then interval + Scaled(random, interval * jitter) else interval
  }

  /** The sleep between cycle `cycle` and the next. */
  function SleepAfter(b: Backoff, jitter: real, s: Surroundings, cycle: nat): real
    requires cycle >= 1
  {
    Stretch(Interval(b, IdleStreak(s.works, cycle)), jitter, s.draw(cycle - 1))
  }

  function SleepsUpTo(b: Backoff, jitter: real, s: Surroundings, n: nat): (sleeps: seq<real>)
    ensures |sleeps| == n
    ensures forall k :: 0 <= k < n ==> sleeps[k] == SleepAfter(b, jitter, s, k + 1)
  {
    if n == 0 then [] else SleepsUpTo(b, jitter, s, n - 1) + [SleepAfter(b, jitter, s, n)]
  }

  /** Each sleep is what `interval` makes of the idle streak before it. */
  ghost predicate SleptBy(works: nat -> bool, interval: (nat, nat) -> real, sleeps: seq<real>) {
    forall k :: 0 <= k < |sleeps| ==> sleeps[k] == interval(IdleStreak(works, k + 1), k)
  }

  lemma SleepAdded(works: nat -> bool, interval: (nat, nat) -> real, sleeps: seq<real>, x: real)
    requires SleptBy(works, interval, sleeps) && x == interval(IdleStreak(works, |sleeps| + 1), |sleeps|)
    ensures SleptBy(works, interval, sleeps + [x])
  {
  }

  function Longest(interval: real, jitter: real): real {
    interval * (1.0 + jitter)
  }

  lemma Product(a: real, b: real)
    requires 0.0 <= a && 0.0 <= b
    ensures 0.0 <= a * b
  {
  }

  lemma Spread(x: real, j: real)
    ensures Longest(x, j) == x + x * j
  {
  }

  lemma Distribute(x: real, j: real, r: real)
    requires 0.0 <= x && 0.0 <= j && 0.0 <= r <= 1.0
    ensures x <= x + Scaled(r, x * j) <= Longest(x, j)
  {
    Product(x, j);
    Spread(x, j);
    Shrinks(r, x * j);
  }

  lemma StretchBounds(x: real, jitter: real, random: real)
    requires 0.0 <= x && 0.0 <= jitter && 0.0 <= random <= 1.0
    ensures x <= Stretch(x, jitter, random) <= Longest(x, jitter)
  {
    if jitter > 0.0 {
      Distribute(x, jitter, random);
    } else {
      assert Longest(x, 0.0) == x;
    }
  }

  lemma LongestGrows(x: real, y: real, jitter: real)
    requires x <= y && 0.0 <= jitter
    ensures Longest(x, jitter) <= Longest(y, jitter)
  {
    Product(y - x, 1.0 + jitter);
    assert (y - x) * (1.0 + jitter) == y * (1.0 + jitter) - x * (1.0 + jitter);
  }

  lemma IntervalBounds(b: Backoff, idle: nat)
    requires ValidBackoff(b)
    ensures b.base <= Interval(b, idle) <= b.max
    ensures idle <= 1 ==> Interval(b, idle) == b.base
    ensures Interval(b, idle) <= Interval(b, idle + 1)
  {
    DelayBoundedAndMonotone(b, 1, 1);
    if idle > 0 {
      DelayBoundedAndMonotone(b, 1, idle);
      DelayBoundedAndMonotone(b, idle, idle + 1);
    }
  }

  /** Every sleep lies in [base, max * (1 + jitter)].  After a cycle with work, and after the
      first idle cycle that follows one, it is the base with no more than its own jitter. */
  lemma SleepBounds(b: Backoff, jitter: real, s: Surroundings, cycle: nat)
    requires ValidBackoff(b) && 0.0 <= jitter && Draws(s) && cycle >= 1
    ensures b.base <= SleepAfter(b, jitter, s, cycle) <= Longest(b.max, jitter)
    ensures (s.works(cycle) || cycle == 1 || s.works(cycle - 1)) ==>
              (b.base <= SleepAfter(b, jitter, s, cycle) <= Longest(b.base, jitter))
  {
    var idle := IdleStreak(s.works, cycle);
    StreakIsLongest(s.works, cycle);
    var x := Interval(b, idle);
    IntervalBounds(b, idle);
    StretchBounds(x, jitter, s.draw(cycle - 1));
    LongestGrows(x, b.max, jitter);
  }

  /** The interval before jitter: the base after a cycle with work, and the clamped recurrence
      for the number of idle cycles otherwise. */
  lemma IntervalIs(b: Backoff, idle: nat)
    requires ValidBackoff(b)
    ensures Interval(b, idle) == if idle == 0 then b.base else ClampedRecurrence(b, idle)
  {
    if idle > 0 {
      CapBounds(b, idle);
    }
  }

  /** Jitter adds a random share of its part of the interval. */
  lemma StretchIs(x: real, jitter: real, random: real)
    requires 0.0 <= jitter
    ensures Stretch(x, jitter, random) == x + random * (x * jitter)
  {
    if jitter == 0.0 {
      assert x * jitter == 0.0;
    }
  }

  /** Exactly how long a sleep is. */
  lemma SleepIs(b: Backoff, jitter: real, s: Surroundings, cycle: nat)
    requires ValidBackoff(b) && cycle >= 1
    ensures
      var idle := IdleStreak(s.works, cycle);
      SleepAfter(b, jitter, s, cycle) ==
      Stretch(if idle == 0 then b.base else ClampedRecurrence(b, idle), jitter, s.draw(cycle - 1))
  {
    IntervalIs(b, IdleStreak(s.works, cycle));
  }

  /** Without jitter, an idle cycle never shortens the sleep that follows. */
  lemma IdleNeverShortens(b: Backoff, s: Surroundings, cycle: nat)
    requires ValidBackoff(b) && cycle >= 1 && !s.works(cycle + 1)
    ensures SleepAfter(b, 0.0, s, cycle) <= SleepAfter(b, 0.0, s, cycle + 1)
  {
    IntervalBounds(b, IdleStreak(s.works, cycle));
  }

  predicate Bounded(b: Backoff, jitter: real, sleeps: seq<real>) {
    forall k :: 0 <= k < |sleeps| ==> b.base <= sleeps[k] <= Longest(b.max, jitter)
  }

  lemma SleepsBounded(b: Backoff, jitter: real, s: Surroundings, n: nat)
    requires ValidBackoff(b) && 0.0 <= jitter && Draws(s)
    ensures Bounded(b, jitter, SleepsUpTo(b, jitter, s, n))
  {
    var sleeps := SleepsUpTo(b, jitter, s, n);
    forall k | 0 <= k < |sleeps| ensures b.base <= sleeps[k] <= Longest(b.max, jitter) {
      SleepBounds(b, jitter, s, k + 1);
    }
  }

  datatype RunResult = Ran(cycles: nat) | BadMaxCycles

  function Lesser(a: nat, b: nat): nat {
    if a <= b then a else b
  }

  /** Cycles made when at most `bound` are allowed and check `stop` is the first to find the
      signal set: the loop checks before and after each cycle. */
  function CyclesMade(bound: Option<int>, stop: Option<nat>): (n: nat)
    requires bound.Some? ==> bound.value >= 0
    requires bound.Some? || stop.Some?
  {
    match (bound, stop)
    case (Some(m), None) => m
    case (None, Some(c)) => (c + 1) / 2
    case (Some(m), Some(c)) => Lesser(m, (c + 1) / 2)
  }

  function SleepsMade(bound: Option<int>, stop: Option<nat>): (n: nat)
    requires bound.Some? ==> bound.value >= 0
    requires bound.Some? || stop.Some?
  {
    match (bound, stop)
    case (Some(m), None) => if m == 0 then 0 else m - 1
    case (None, Some(c)) => c / 2
    case (Some(m), Some(c)) => Lesser(if m == 0 then 0 else m - 1, c / 2)
  }

  /** The counts at the four exits: the signal found set before or after a cycle, the bound
      reached before or after one. */
  lemma Counts(bound: Option<int>, stop: Option<nat>, cycles: nat)
    requires bound.Some? ==> bound.value >= 0
    requires bound.Some? || stop.Some?
    ensures stop == Some(2 * cycles) && (bound.Some? && cycles > 0 ==> cycles < bound.value) ==>
              CyclesMade(bound, stop) == SleepsMade(bound, stop) == cycles
    ensures stop == Some(2 * cycles + 1) && (bound.Some? ==> cycles < bound.value) ==>
              (CyclesMade(bound, stop) == cycles + 1 && SleepsMade(bound, stop) == cycles)
    ensures bound == Some(0) ==> CyclesMade(bound, stop) == SleepsMade(bound, stop) == 0
    ensures bound == Some(cycles + 1) && (stop.Some? ==> stop.value >= 2 * cycles + 1) ==>
              (CyclesMade(bound, stop) == cycles + 1 && SleepsMade(bound, stop) == cycles)
  {
  }

  class TriggerSchedulerLoopRunner {
    const backoff: Backoff
    const jitter: real
    const around: Surroundings

    /** The constructor refuses anything else. */
    predicate Valid() {
      ValidBackoff(backoff) && 0.0 <= jitter
    }

    constructor (backoff: Backoff, jitter: real, around: Surroundings)
      requires ValidBackoff(backoff) && 0.0 <= jitter
      ensures Valid() && this.backoff == backoff && this.jitter == jitter && this.around == around
    {
      this.backoff := backoff;
      this.jitter := jitter;
      this.around := around;
    }

    /** `run`: exactly as many polls and sleeps as the bound and the stop signal allow, each
        sleep the one its idle streak calls for, and all of them within the configured bounds. */
    method Run(maxCycles: Option<int>, ghost stop: Option<nat>) returns (r: RunResult, sleeps: seq<real>)
      requires FirstStop(around, stop)
      requires maxCycles.Some? || stop.Some?
      ensures r.BadMaxCycles? <==> maxCycles.Some? && maxCycles.value < 0
      ensures r.BadMaxCycles? ==> sleeps == []
      ensures r.Ran? ==> r.cycles == CyclesMade(maxCycles, stop)
      ensures r.Ran? ==> sleeps == SleepsUpTo(backoff, jitter, around, SleepsMade(maxCycles, stop))
      ensures Valid() && Draws(around) ==> Bounded(backoff, jitter, sleeps)
    {
      if maxCycles.Some? && maxCycles.value < 0 {
        return BadMaxCycles, [];
      }
      var cycles;
      cycles, sleeps := Loop(maxCycles, stop, ComputeInterval());
      r := Ran(cycles);
      SleepsAre(sleeps, SleepsMade(maxCycles, stop));
      if Valid() && Draws(around) {
        SleepsBounded(backoff, jitter, around, SleepsMade(maxCycles, stop));
      }
    }

    /** `_compute_interval_seconds`, from the idle cycles so far and the random draws used. */
    function ComputeInterval(): (nat, nat) -> real {
      (idle: nat, draws: nat) => Stretch(Interval(backoff, idle), jitter, around.draw(draws))
    }

    lemma SleepsAre(sleeps: seq<real>, n: nat)
      requires SleptBy(around.works, ComputeInterval(), sleeps) && |sleeps| == n
      ensures sleeps == SleepsUpTo(backoff, jitter, around, n)
    {
      var expected := SleepsUpTo(backoff, jitter, around, n);
      forall k | 0 <= k < n ensures sleeps[k] == expected[k] {
        assert sleeps[k] == ComputeInterval()(IdleStreak(around.works, k + 1), k);
      }
    }

    /** The loop of `run`, whatever the intervals. */
    method Loop(maxCycles: Option<int>, ghost stop: Option<nat>, interval: (nat, nat) -> real)
      returns (cycles: nat, sleeps: seq<real>)
      requires FirstStop(around, stop)
      requires maxCycles.Some? || stop.Some?
      requires maxCycles.Some? ==> maxCycles.value >= 0
      ensures cycles == CyclesMade(maxCycles, stop)
      ensures |sleeps| == SleepsMade(maxCycles, stop) && SleptBy(around.works, interval, sleeps)
    {
      cycles, sleeps := 0, [];
      var idle, checks := 0, 0;
      while true
        invariant checks == 2 * cycles
        invariant idle == IdleStreak(around.works, cycles)
        invariant |sleeps| == cycles && SleptBy(around.works, interval, sleeps)
        invariant cycles > 0 && maxCycles.Some? ==> cycles < maxCycles.value
        invariant stop.Some? ==> checks <= stop.value
        decreases if maxCycles.Some? then maxCycles.value - cycles else stop.value - 2 * cycles
      {
        Counts(maxCycles, stop, cycles);
        if around.stops(checks) {
          return;
        }
        if maxCycles.Some? && cycles >= maxCycles.value {
          return;
        }
        cycles := cycles + 1;
        idle := if around.works(cycles) then 0 else idle + 1;
        if around.stops(checks + 1) {
          return;
        }
        if maxCycles.Some? && cycles >= maxCycles.value {
          return;
        }
        var sleep := interval(idle, cycles - 1);
        SleepAdded(around.works, interval, sleeps, sleep);
        sleeps := sleeps + [sleep];
        checks := checks + 2;
      }
    }
  }
}

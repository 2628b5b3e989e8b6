/** Minimum spacing of capability starts (`_wait_for_execution_window`). */
module RateLimit {
  import opened Tasks

  datatype StartTime = StartTime(capability: string, at: real)

  /** The recorded starts of one capability, in order. */
  function Times(starts: seq<StartTime>, capability: string): seq<real> {
    if starts == [] then []
    else
      var n := |starts| - 1;
      if starts[n].capability == capability then Times(starts[..n], capability) + [starts[n].at]
      else Times(starts[..n], capability)
  }

  /** Consecutive starts are at least `m` apart. */
  predicate Spaced(ts: seq<real>, m: real) {
    forall i :: 0 <= i < |ts| - 1 ==> ts[i] + m <= ts[i + 1]
  }

  /** The bookkeeping agrees with the starts made up to monotonic time `now`: the last
      start of each capability is remembered, and rate-limited ones are spaced. */
  ghost predicate Paced(interval: string -> Option<real>, starts: seq<StartTime>, lastStart: map<string, real>,
                        now: real)
  {
    forall c ::
      var ts := Times(starts, c);
      && (c in lastStart <==> ts != [])
      && (ts != [] ==> lastStart[c] == ts[|ts| - 1] <= now)
      && (interval(c).Some? ==> Spaced(ts, interval(c).value))
  }

  /** Recording one more start keeps the bookkeeping, provided the gap is respected. */
  lemma StartRecorded(interval: string -> Option<real>, starts: seq<StartTime>, lastStart: map<string, real>,
                      before: real, c: string, now: real)
    requires Paced(interval, starts, lastStart, before) && before <= now && interval(c).Some?
    requires c in lastStart ==> lastStart[c] + interval(c).value <= now
    ensures Paced(interval, starts + [StartTime(c, now)], lastStart[c := now], now)
  {
    var starts' := starts + [StartTime(c, now)];
    assert starts'[..|starts|] == starts;
    forall d
      ensures
        var ts := Times(starts', d);
        && (d in lastStart[c := now] <==> ts != [])
        && (ts != [] ==> lastStart[c := now][d] == ts[|ts| - 1] <= now)
        && (interval(d).Some? ==> Spaced(ts, interval(d).value))
    {
      var ts := Times(starts, d);
      if d == c {
        assert Times(starts', d) == ts + [now];
      }
    }
  }

  /** The sleep, if any, reaches past the previous start by the full interval. */
  lemma SleepSuffices(previous: real, interval: real, now: real, overslept: real)
    requires 0.0 <= overslept
    ensures
      var sleepFor := interval - (now - previous);
      var woken := if sleepFor > 0.0 then now + sleepFor + overslept else now;
      now <= woken && previous + interval <= woken
  {
  }

  lemma {:induction false} SpanOf(ts: seq<real>, m: real, i: nat, j: nat)
    requires Spaced(ts, m) && i <= j < |ts|
    ensures ts[i] + (j - i) as real * m <= ts[j]
    decreases j - i
  {
    if i < j {
      SpanOf(ts, m, i, j - 1);
      assert ts[j - 1] + m <= ts[j];
      assert (j - i) as real * m == (j - 1 - i) as real * m + m;
    }
  }

  /** Any n starts of a capability that fall within a span T satisfy (n - 1) * m <= T. */
  lemma RateBound(ts: seq<real>, m: real, i: nat, n: nat, span: real)
    requires Spaced(ts, m) && 1 <= n && i + n <= |ts|
    requires ts[i + n - 1] - ts[i] <= span
    ensures (n - 1) as real * m <= span
  {
    SpanOf(ts, m, i, i + n - 1);
  }
}

/** Audit timestamps: each entry carries the time read when its step was prepared, so
    under a clock that never goes back a trail's timestamps never decrease. */
module Timestamps {
  import opened Tasks
  import opened RetryPolicies
  import opened Journals
  import opened Runs

  /** Steps `steps`, placed from position `n` on, save entries stamped by `clock`. */
  predicate Stamped(clock: nat -> int, n: nat, steps: seq<Step>) {
    forall i :: 0 <= i < |steps| && steps[i].Saved? ==>
      steps[i].rec.trail != [] && Last(steps[i].rec.trail).timestamp == clock(n + i)
  }

  lemma StampedConcat(clock: nat -> int, n: nat, a: seq<Step>, b: seq<Step>)
    requires Stamped(clock, n, a) && Stamped(clock, n + |a|, b)
    ensures Stamped(clock, n, a + b)
  {
    forall i | 0 <= i < |a + b| && (a + b)[i].Saved?
      ensures (a + b)[i].rec.trail != [] && Last((a + b)[i].rec.trail).timestamp == clock(n + i)
    {
      if i >= |a| {
        assert (a + b)[i] == b[i - |a|];
        assert n + i == n + |a| + (i - |a|);
      }
    }
  }

  lemma JournalStamped(clock: nat -> int, j: seq<Step>, steps: seq<Step>)
    requires Stamped(clock, 0, j) && Stamped(clock, |j|, steps)
    ensures Stamped(clock, 0, j + steps)
  {
    StampedConcat(clock, 0, j, steps);
  }

  lemma SaveStamped(clock: nat -> int, n: nat, r: TaskRecord)
    requires r.trail != [] && Last(r.trail).timestamp == clock(n)
    ensures Stamped(clock, n, [Saved(r)])
    ensures KindOf(LastAction(r)).Some? ==> Stamped(clock, n, Announce(r))
  {
  }

  lemma OnePassStamped(cfg: Config, world: World, r: TaskRecord, failures: seq<FailureContext>, startedAt: int, n: nat)
    requires 1 <= r.attempt
    ensures
      var p := OnePass(cfg, world, r, failures, startedAt, n);
      if p.Over? then Stamped(cfg.clock, n, p.result.steps) else Stamped(cfg.clock, n, p.steps) && |p.steps| == 4
  {
    if world.attempts(r.attempt).Fails? {
      FailingStamped(cfg, world, r, failures, startedAt, n);
    }
  }

  lemma FailingStamped(cfg: Config, world: World, r: TaskRecord, failures: seq<FailureContext>, startedAt: int, n: nat)
    requires 1 <= r.attempt && world.attempts(r.attempt).Fails?
    ensures
      var p := OnePass(cfg, world, r, failures, startedAt, n);
      if p.Over? then Stamped(cfg.clock, n, p.result.steps) else Stamped(cfg.clock, n, p.steps) && |p.steps| == 4
  {
    var o := world.attempts(r.attempt);
    var noted := Noted(cfg, r, o, cfg.clock(n + 1));
    var q := AfterFailure(cfg.escalation, noted, failures + [FailureOf(cfg, r, o)], Verdict(cfg, world, r),
                          o.message, startedAt, cfg.clock(n + 2));
    AfterFailureStamped(cfg.escalation, noted, failures + [FailureOf(cfg, r, o)], Verdict(cfg, world, r),
                        o.message, startedAt, cfg.clock, n + 2);
    StampedConcat(cfg.clock, n, [Executed(r.id, r.attempt, r.input)] + [Saved(noted)],
                  if q.Over? then q.result.steps else q.steps);
  }

  lemma AfterFailureStamped(threshold: Option<int>, noted: TaskRecord, failures: seq<FailureContext>,
                            d: RetryDecision, message: string, startedAt: int, clock: nat -> int, n: nat)
    ensures
      var q := AfterFailure(threshold, noted, failures, d, message, startedAt, clock(n));
      if q.Over? then Stamped(clock, n, q.result.steps) else Stamped(clock, n, q.steps) && |q.steps| == 2
  {
  }

  lemma {:induction false} AttemptsStamped(cfg: Config, world: World, r: TaskRecord, failures: seq<FailureContext>,
                                           startedAt: int, n: nat)
    requires 1 <= r.attempt
    ensures Stamped(cfg.clock, n, Attempts(cfg, world, r, failures, startedAt, n).steps)
    decreases RetriesLeft(r)
  {
    OnePassStamped(cfg, world, r, failures, startedAt, n);
    var p := OnePass(cfg, world, r, failures, startedAt, n);
    if p.Again? {
      AttemptsStamped(cfg, world, p.rec, p.failures, startedAt, n + 4);
      StampedConcat(cfg.clock, n, p.steps, Attempts(cfg, world, p.rec, p.failures, startedAt, n + 4).steps);
    }
  }

  lemma BeginStamped(cfg: Config, world: World, r: TaskRecord, n: nat)
    ensures Stamped(cfg.clock, n, Begin(cfg, world, r, n).steps)
  {
    var begun := Begun(r, cfg.clock(n));
    AttemptsStamped(cfg, world, begun, [], cfg.clock(n), n + 2);
    StampedConcat(cfg.clock, n, Announce(begun), Attempts(cfg, world, begun, [], cfg.clock(n), n + 2).steps);
  }

  /** One stamped save in front of steps stamped from the next position on. */
  lemma SaveFirst(clock: nat -> int, n: nat, r: TaskRecord, o: RunResult)
    requires r.trail != [] && Last(r.trail).timestamp == clock(n) && Stamped(clock, n + 1, o.steps)
    ensures Stamped(clock, n, Then([Saved(r)], o).steps)
  {
    StampedConcat(clock, n, [Saved(r)], o.steps);
  }

  lemma LaunchStamped(cfg: Config, world: World, r: TaskRecord, n: nat)
    ensures Stamped(cfg.clock, n, Launch(cfg, world, r, n).steps)
  {
    match world.suggestion
    case SuggestionRaises =>
    case NoSuggestion => BeginStamped(cfg, world, r, n);
    case Suggestion(adjustment) =>
      var advised := Advised(r, adjustment, cfg.clock(n));
      BeginStamped(cfg, world, advised, n + 1);
      SaveFirst(cfg.clock, n, advised, Begin(cfg, world, advised, n + 1));
  }

  /** A run that stops at the gates makes at most one move. */
  lemma HeldStamped(cfg: Config, world: World, r: TaskRecord, n: nat)
    requires r.status != Approved && (Gated(cfg.registry)(r.capability) || !world.policy.PolicyAllow?)
    ensures Stamped(cfg.clock, n, Run(cfg, world, r, n).steps)
  {
    var o := Run(cfg, world, r, n);
    if o.steps != [] {
      SaveStamped(cfg.clock, n, o.rec);
    }
  }

  lemma AdmittedStamped(cfg: Config, world: World, r: TaskRecord, n: nat)
    ensures
      var admitted := Admit(r, cfg.clock(n));
      Stamped(cfg.clock, n, Then([Saved(admitted)], Launch(cfg, world, admitted, n + 1)).steps)
  {
    var admitted := Admit(r, cfg.clock(n));
    LaunchStamped(cfg, world, admitted, n + 1);
    SaveFirst(cfg.clock, n, admitted, Launch(cfg, world, admitted, n + 1));
  }

  lemma RunStamped(cfg: Config, world: World, r: TaskRecord, n: nat)
    ensures Stamped(cfg.clock, n, Run(cfg, world, r, n).steps)
  {
    if r.status == Approved {
      LaunchStamped(cfg, world, r, n);
    } else if Gated(cfg.registry)(r.capability) || !world.policy.PolicyAllow? {
      HeldStamped(cfg, world, r, n);
    } else {
      AdmittedStamped(cfg, world, r, n);
    }
  }

  predicate InTimeOrder(trail: seq<AuditEntry>) {
    forall i, j :: 0 <= i < j < |trail| ==> trail[i].timestamp <= trail[j].timestamp
  }

  ghost predicate NeverBack(clock: nat -> int) {
    forall i: nat, k: nat :: i <= k ==> clock(i) <= clock(k)
  }

  lemma StampedFront(clock: nat -> int, j: seq<Step>)
    requires j != [] && Stamped(clock, 0, j)
    ensures Stamped(clock, 0, Front(j))
    ensures Last(j).Saved? ==> Last(j).rec.trail != [] && Last(Last(j).rec.trail).timestamp == clock(|j| - 1)
  {
    var p := Front(j);
    forall i | 0 <= i < |p| && p[i].Saved?
      ensures p[i].rec.trail != [] && Last(p[i].rec.trail).timestamp == clock(0 + i)
    {
      assert p[i] == j[i];
    }
    assert Last(j) == j[|j| - 1];
  }

  /** Under a clock that never goes back every stored trail is in order of time. */
  lemma {:induction false} TimestampsAscend(gated: string -> bool, clock: nat -> int, j: seq<Step>, id: string)
    requires NeverBack(clock) && Stamped(clock, 0, j) && TaskOk(gated, For(j, id)) && For(j, id) != []
    ensures Stored(For(j, id)).Some?
    ensures
      var trail := Stored(For(j, id)).value.trail;
      trail != [] && InTimeOrder(trail) && Last(trail).timestamp <= clock(|j| - 1)
  {
    var h := For(j, id);
    PositionOf(gated, h);
    var p := Front(j);
    StampedFront(clock, j);
    if IdOf(Last(j)) != id {
      TimestampsAscend(gated, clock, p, id);
    } else {
      assert Front(h) == For(p, id) && Last(h) == Last(j);
      if Front(h) != [] {
        TimestampsAscend(gated, clock, p, id);
      }
    }
  }
}

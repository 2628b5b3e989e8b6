/** The exact outcome of a run: how often the capability executes, where the task ends
    and with which attempt number, as a function of the retry budget, the escalation
    threshold and the first attempt that does not fail. */
module Outcomes {
  import opened Tasks
  import opened RetryPolicies
  import opened Journals
  import opened Runs

  /** Executions the retry strategies allow: max(max_retries, 0) + 1. */
  function Budget(maxRetries: int): nat {
    if maxRetries < 0 then 1 else maxRetries + 1
  }

  /** The failure at which the escalation policy steps in; never without a policy. */
  predicate PolicyStopsBy(threshold: Option<int>, k: nat) {
    threshold.Some? && threshold.value <= k
  }

  /** min(B, E): the policy's threshold, at least 1, when that is within the budget. */
  function Limit(maxRetries: int, threshold: Option<int>): (n: nat)
    ensures 1 <= n <= Budget(maxRetries)
  {
    if PolicyStopsBy(threshold, Budget(maxRetries))
    then (if threshold.value < 1 then 1 else threshold.value)
    else Budget(maxRetries)
  }

  /** The first attempt from `k` on that does not fail, or limit + 1. */
  function Decisive(attempts: nat -> Outcome, k: nat, limit: nat): (s: nat)
    requires k <= limit + 1
    ensures k <= s <= limit + 1
    ensures forall i :: k <= i < s ==> attempts(i).Fails?
    ensures s <= limit ==> !attempts(s).Fails?
    decreases limit + 1 - k
  {
    if k > limit || !attempts(k).Fails? then k else Decisive(attempts, k + 1, limit)
  }

  /** Does the strategy escalate when the budget is used up? */
  predicate StrategyEscalates(x: Exhaustion, maxRetries: int) {
    x.enabled && (x.threshold.None? || Budget(maxRetries) >= x.threshold.value)
  }

  predicate Numbered(failures: seq<FailureContext>) {
    forall i :: 0 <= i < |failures| ==> failures[i].attempt == i + 1
  }

  /** The outcome promised for a run of task `r` whose attempts behave as `attempts`,
      once it has reached attempt `k`. */
  predicate Promised(cfg: Config, world: World, r: TaskRecord, k: nat, o: RunResult)
    requires k <= Limit(r.maxRetries, cfg.escalation)
  {
    var limit := Limit(r.maxRetries, cfg.escalation);
    var s := Decisive(world.attempts, k, limit);
    && Numbered(o.failures)
    && Executions(o.steps) == (if s <= limit then s else limit) - k + 1
    && (s <= limit ==> |o.failures| == s - 1 && o.rec.attempt == s)
    && (s <= limit && world.attempts(s).Succeeds? ==>
          o.error == None && o.rec.status == Completed
          && o.rec.result.Some? && o.rec.result.value.success
          && o.rec.result.value.output == world.attempts(s).output)
    && (s <= limit && world.attempts(s).Aborts? ==> o.error == Some(Aborted) && o.rec.status == Running)
    && (s > limit ==>
          && o.error == None && |o.failures| == limit
          && o.rec.result.Some? && !o.rec.result.value.success
          && o.rec.result.value.error == Some(world.attempts(limit).message)
          && o.rec.status ==
             (if PolicyStopsBy(cfg.escalation, Budget(r.maxRetries))
                 || StrategyEscalates(cfg.strategy.exhaustion, r.maxRetries)
              then Escalated else Failed)
          && o.rec.attempt == if limit < Budget(r.maxRetries) then limit + 1 else limit)
  }

  lemma {:induction false} ExecutionsConcat(a: seq<Step>, b: seq<Step>)
    ensures Executions(a + b) == Executions(a) + Executions(b)
  {
    if b == [] {
      assert a + b == a;
    } else {
      assert Front(a + b) == a + Front(b);
      ExecutionsConcat(a, Front(b));
    }
  }

  lemma ExecutionsOf(id: string, k: nat, input: Payload, r: TaskRecord)
    requires r.trail != [] && KindOf(LastAction(r)).Some?
    ensures Executions([Executed(id, k, input)]) == 1
    ensures Executions(Announce(r)) == 0
    ensures Executions([Saved(r)]) == 0
  {
    assert Front([Executed(id, k, input)]) == [];
    assert Front(Announce(r)) == [Saved(r)];
    assert Front([Saved(r)]) == [];
  }

  lemma ExecutionsOfSave(r: TaskRecord)
    ensures Executions([Saved(r)]) == 0
  {
    assert Front([Saved(r)]) == [];
  }

  /** A failing pass: what it does after running the capability and noting the failure. */
  function Reaction(cfg: Config, world: World, r: TaskRecord, failures: seq<FailureContext>, startedAt: int, n: nat)
    : Pass
    requires 1 <= r.attempt && world.attempts(r.attempt).Fails?
  {
    var o := world.attempts(r.attempt);
    AfterFailure(cfg.escalation, Noted(cfg, r, o, cfg.clock(n + 1)), failures + [FailureOf(cfg, r, o)],
                 Verdict(cfg, world, r), o.message, startedAt, cfg.clock(n + 2))
  }

  function StepsOf(p: Pass): seq<Step> {
    if p.Over? then p.result.steps else p.steps
  }

  /** A failing pass executes once. */
  lemma FailingPassExecutes(cfg: Config, world: World, r: TaskRecord, failures: seq<FailureContext>,
                            startedAt: int, n: nat)
    requires 1 <= r.attempt && world.attempts(r.attempt).Fails?
    ensures Executions(StepsOf(OnePass(cfg, world, r, failures, startedAt, n))) == 1
  {
    var q := Reaction(cfg, world, r, failures, startedAt, n);
    var noted := Noted(cfg, r, world.attempts(r.attempt), cfg.clock(n + 1));
    var last := if q.Over? then q.result.rec else q.rec;
    ExecutionsOf(r.id, r.attempt, r.input, last);
    ExecutionsOfSave(noted);
    ExecutionsConcat([Executed(r.id, r.attempt, r.input)], [Saved(noted)]);
    ExecutionsConcat([Executed(r.id, r.attempt, r.input)] + [Saved(noted)], StepsOf(q));
  }

  /** Below the limit a failing pass goes round with the next attempt. */
  lemma RetriedPass(cfg: Config, world: World, r: TaskRecord, failures: seq<FailureContext>, startedAt: int, n: nat)
    requires 1 <= r.attempt < Limit(r.maxRetries, cfg.escalation)
    requires |failures| == r.attempt - 1 && Numbered(failures) && world.attempts(r.attempt).Fails?
    ensures
      var p := OnePass(cfg, world, r, failures, startedAt, n);
      && p.Again? && p.rec.attempt == r.attempt + 1 && p.rec.maxRetries == r.maxRetries && p.rec.status == r.status
      && |p.failures| == r.attempt && Numbered(p.failures) && Executions(p.steps) == 1
  {
    FailingPassExecutes(cfg, world, r, failures, startedAt, n);
    assert Reaction(cfg, world, r, failures, startedAt, n).Again?;
  }

  /** At the limit it ends the run as promised. */
  lemma LastPass(cfg: Config, world: World, r: TaskRecord, failures: seq<FailureContext>, startedAt: int, n: nat)
    requires 1 <= r.attempt == Limit(r.maxRetries, cfg.escalation)
    requires |failures| == r.attempt - 1 && Numbered(failures) && world.attempts(r.attempt).Fails?
    ensures
      var p := OnePass(cfg, world, r, failures, startedAt, n);
      p.Over? && Promised(cfg, world, r, r.attempt, p.result)
  {
    FailingPassExecutes(cfg, world, r, failures, startedAt, n);
    assert Reaction(cfg, world, r, failures, startedAt, n).Over?;
  }

  lemma DecidingPass(cfg: Config, world: World, r: TaskRecord, failures: seq<FailureContext>, startedAt: int, n: nat)
    requires 1 <= r.attempt <= Limit(r.maxRetries, cfg.escalation) && r.status == Running
    requires |failures| == r.attempt - 1 && Numbered(failures) && !world.attempts(r.attempt).Fails?
    ensures
      var p := OnePass(cfg, world, r, failures, startedAt, n);
      p.Over? && Promised(cfg, world, r, r.attempt, p.result)
  {
    if world.attempts(r.attempt).Succeeds? {
      var done := Finished(r, world.attempts(r.attempt).output, startedAt, cfg.clock(n + 1));
      ExecutionsOf(r.id, r.attempt, r.input, done);
      ExecutionsConcat([Executed(r.id, r.attempt, r.input)], Announce(done));
    } else {
      assert Front([Executed(r.id, r.attempt, r.input)]) == [];
    }
  }

  /** Whatever the strategy, the loop ends with exactly the promised outcome. */
  lemma {:induction false} LoopOutcome(cfg: Config, world: World, r: TaskRecord,
                                       failures: seq<FailureContext>, startedAt: int, n: nat)
    requires 1 <= r.attempt <= Limit(r.maxRetries, cfg.escalation) && r.status == Running
    requires |failures| == r.attempt - 1 && Numbered(failures)
    ensures Promised(cfg, world, r, r.attempt, Attempts(cfg, world, r, failures, startedAt, n))
    decreases Limit(r.maxRetries, cfg.escalation) - r.attempt
  {
    if !world.attempts(r.attempt).Fails? {
      DecidingPass(cfg, world, r, failures, startedAt, n);
    } else {
      var p := OnePass(cfg, world, r, failures, startedAt, n);
      if r.attempt == Limit(r.maxRetries, cfg.escalation) {
        LastPass(cfg, world, r, failures, startedAt, n);
      } else {
        RetriedPass(cfg, world, r, failures, startedAt, n);
        LoopOutcome(cfg, world, p.rec, p.failures, startedAt, n + 4);
        ExecutionsConcat(p.steps, Attempts(cfg, world, p.rec, p.failures, startedAt, n + 4).steps);
      }
    }
  }

  /** Does running the stored record `r` get as far as executing the capability? */
  predicate Launches(cfg: Config, world: World, r: TaskRecord) {
    && Executable(r.status) && ValidSubmission(cfg.registry, r.name, r.capability, r.input)
    && (r.status == Approved || (!Gated(cfg.registry)(r.capability) && world.policy.PolicyAllow?))
    && !world.suggestion.SuggestionRaises?
  }

  lemma ExecutionsThen(steps: seq<Step>, o: RunResult)
    requires Executions(steps) == 0
    ensures Executions(Then(steps, o).steps) == Executions(o.steps)
  {
    ExecutionsConcat(steps, o.steps);
  }

  lemma BeginOutcome(cfg: Config, world: World, r: TaskRecord, n: nat)
    requires r.attempt == 0
    ensures Promised(cfg, world, r, 1, Begin(cfg, world, r, n))
  {
    var begun := Begun(r, cfg.clock(n));
    LoopOutcome(cfg, world, begun, [], cfg.clock(n), n + 2);
    ExecutionsOf(r.id, 1, r.input, begun);
    ExecutionsThen(Announce(begun), Attempts(cfg, world, begun, [], cfg.clock(n), n + 2));
  }

  lemma LaunchOutcome(cfg: Config, world: World, r: TaskRecord, n: nat)
    requires r.attempt == 0 && !world.suggestion.SuggestionRaises?
    ensures Promised(cfg, world, r, 1, Launch(cfg, world, r, n))
  {
    match world.suggestion
    case NoSuggestion => BeginOutcome(cfg, world, r, n);
    case Suggestion(adjustment) =>
      var advised := Advised(r, adjustment, cfg.clock(n));
      BeginOutcome(cfg, world, advised, n + 1);
      ExecutionsOfSave(advised);
      ExecutionsThen([Saved(advised)], Begin(cfg, world, advised, n + 1));
  }

  /** The whole run.  A record that has not started either launches and ends exactly as
      promised from attempt 1, or executes nothing at all. */
  lemma RunOutcome(cfg: Config, world: World, r: TaskRecord, n: nat)
    requires Executable(r.status) ==> r.attempt == 0
    ensures
      var o := Run(cfg, world, r, n);
      if Launches(cfg, world, r) then Promised(cfg, world, r, 1, o)
      else Executions(o.steps) == 0 && o.failures == [] && (Launched(o.rec.status) ==> o.rec == r)
  {
    if Launches(cfg, world, r) {
      if r.status == Approved {
        LaunchOutcome(cfg, world, r, n);
      } else {
        var admitted := Admit(r, cfg.clock(n));
        LaunchOutcome(cfg, world, admitted, n + 1);
        ExecutionsOfSave(admitted);
        ExecutionsThen([Saved(admitted)], Launch(cfg, world, admitted, n + 1));
      }
    } else {
      IdleRun(cfg, world, r, n);
    }
  }

  lemma IdleRun(cfg: Config, world: World, r: TaskRecord, n: nat)
    requires !Launches(cfg, world, r)
    ensures
      var o := Run(cfg, world, r, n);
      Executions(o.steps) == 0 && o.failures == [] && (Launched(o.rec.status) ==> o.rec == r)
  {
    var o := Run(cfg, world, r, n);
    if |o.steps| == 2 {
      ExecutionsOf(r.id, 1, r.input, o.rec);
    } else if |o.steps| == 1 {
      ExecutionsOfSave(o.rec);
    }
  }

  /** COMPLETED exactly when some attempt within min(B, E) is the first not to fail and
      it succeeds; the measure B + 1 - attempt bounds the loop, so it always ends. */
  lemma CompletedIff(cfg: Config, world: World, r: TaskRecord, n: nat)
    requires Launches(cfg, world, r) && r.attempt == 0
    ensures
      var limit := Limit(r.maxRetries, cfg.escalation);
      Run(cfg, world, r, n).rec.status == Completed <==>
      exists s :: 1 <= s <= limit && world.attempts(s).Succeeds?
                  && forall i :: 1 <= i < s ==> world.attempts(i).Fails?
  {
    RunOutcome(cfg, world, r, n);
    DecisiveSucceedsIff(world.attempts, Limit(r.maxRetries, cfg.escalation));
  }

  lemma DecisiveSucceedsIff(attempts: nat -> Outcome, limit: nat)
    ensures
      var s := Decisive(attempts, 1, limit);
      s <= limit && attempts(s).Succeeds? <==>
      exists s :: 1 <= s <= limit && attempts(s).Succeeds? && forall i :: 1 <= i < s ==> attempts(i).Fails?
  {
    var s := Decisive(attempts, 1, limit);
    if s <= limit && attempts(s).Succeeds? {
      assert 1 <= s <= limit && attempts(s).Succeeds?;
    }
  }

  /** docs/conductor/task-model.md calls `attempt` the number of execution attempts made.
      That is exact unless the escalation policy cuts a failing run short of its budget:
      then the stored attempt is one more than the executions. */
  lemma AttemptCountsExecutions(cfg: Config, world: World, r: TaskRecord, n: nat)
    requires Launches(cfg, world, r) && r.attempt == 0
    ensures
      var o := Run(cfg, world, r, n);
      var limit := Limit(r.maxRetries, cfg.escalation);
      o.rec.attempt == Executions(o.steps) <==>
      !(limit < Budget(r.maxRetries) && forall i :: 1 <= i <= limit ==> world.attempts(i).Fails?)
  {
    RunOutcome(cfg, world, r, n);
    var limit := Limit(r.maxRetries, cfg.escalation);
    var s := Decisive(world.attempts, 1, limit);
  }

  /** The smallest such case: three retries allowed, a policy that escalates at the first
      failure, and a capability that fails.  One execution, recorded as attempt 2. */
  lemma AttemptOvercounts(cfg: Config, world: World, r: TaskRecord, n: nat)
    requires Launches(cfg, world, r) && r.attempt == 0
    requires r.maxRetries == 3 && cfg.escalation == Some(1) && world.attempts(1).Fails?
    ensures
      var o := Run(cfg, world, r, n);
      Executions(o.steps) == 1 && o.rec.attempt == 2 && o.rec.status == Escalated
  {
    RunOutcome(cfg, world, r, n);
    assert Limit(r.maxRetries, cfg.escalation) == 1;
    assert Decisive(world.attempts, 1, 1) == 2;
  }

  /** The steps of a run that does not launch: none and the record as it was, or one new
      entry, saved and, unless it is `allowed`, announced. */
  lemma GateSteps(cfg: Config, world: World, r: TaskRecord, n: nat)
    requires !Launches(cfg, world, r)
    ensures
      var o := Run(cfg, world, r, n);
      if o.rec == r then o.steps == []
      else
        && o.rec.trail != [] && Front(o.rec.trail) == r.trail
        && o.steps == [Saved(o.rec)] + (if KindOf(LastAction(o.rec)).Some? then [Emitted(EventFor(o.rec))] else [])
  {
    var o := Run(cfg, world, r, n);
    if o.steps != [] {
      LoggedExtends(r, Last(o.rec.trail));
      assert |o.rec.trail| == |r.trail| + 1;
    }
  }

  /** Where it ends: held exactly when approval is called for, denied exactly when the policy
      denies a task that needs none.  When the suggestion fails after the policy allowed the
      task, the `allowed` entry stays saved and the task pending.  Each error has exactly its
      own cause. */
  lemma GateOutcome(cfg: Config, world: World, r: TaskRecord, n: nat)
    requires !Launches(cfg, world, r)
    ensures
      var o := Run(cfg, world, r, n);
      var valid := ValidSubmission(cfg.registry, r.name, r.capability, r.input);
      var asked := valid && r.status == Pending && !Gated(cfg.registry)(r.capability);
      && (o.rec != r && o.rec.status == AwaitingApproval <==>
            valid && r.status == Pending && (Gated(cfg.registry)(r.capability) || world.policy.PolicyRequireApproval?))
      && (o.rec != r && o.rec.status == PolicyDenied <==> asked && world.policy.PolicyDeny?)
      && (o.rec != r && o.rec.status == PolicyDenied ==>
            o.rec.result.Some? && !o.rec.result.value.success
            && o.rec.result.value.error == Some(OrElse(world.policy.reason, "Task denied by policy")))
      && (o.rec != r && o.rec.status == Pending <==> asked && world.policy.PolicyAllow?)
      && (Executable(r.status) ==> (o.error.Some? <==> o.rec.status == r.status))
      && (o.error == Some(InvalidSubmission) <==> Executable(r.status) && !valid)
      && (o.error == Some(PolicyError) <==> asked && world.policy.PolicyRaises?)
      && (o.error == Some(SuggestionError) <==> valid && (r.status == Approved || (asked && world.policy.PolicyAllow?)))
  {
    var o := Run(cfg, world, r, n);
    if o.steps != [] {
      assert |o.rec.trail| == |r.trail| + 1;
    }
  }
}

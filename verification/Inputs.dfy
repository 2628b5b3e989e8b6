/** Which input each attempt of a run is made on: the stored input with the guild's suggestion
    first, and then what the retry strategy answers to each failure. */
module Inputs {
  import opened Tasks
  import opened RetryPolicies
  import opened Journals
  import opened Runs
  import opened Outcomes
  import opened Transitions

  /** The input of attempt `k` of task `r`, if attempt 1 is made on `first`: the adjuster's
      answer to the failure of the attempt before, where there is one, and otherwise the input
      of the attempt before. */
  function InputAt(cfg: Config, world: World, r: TaskRecord, first: Payload, k: nat): Payload
    requires 1 <= k
  {
    if k == 1 then first
    else
      var before := InputAt(cfg, world, r, first, k - 1);
      if world.attempts(k - 1).Fails? then
        var answer := Answer(cfg.strategy, FailureAt(cfg, world, r, k - 1, before));
        if answer.Some? then answer.value else before
      else before
  }

  /** The stored input, updated by the adjustment that the guild suggests. */
  function FirstInput(world: World, r: TaskRecord): Payload {
    if world.suggestion.Suggestion? then r.input + world.suggestion.adjustment else r.input
  }

  /** The executions among the steps, in order. */
  function ExecutedIn(steps: seq<Step>): seq<Step> {
    if steps == [] then []
    else if Last(steps).Executed? then ExecutedIn(Front(steps)) + [Last(steps)]
    else ExecutedIn(Front(steps))
  }

  /** Attempts `k` to `m`, each on its input. */
  function AttemptsMade(cfg: Config, world: World, r: TaskRecord, first: Payload, k: nat, m: nat): seq<Step>
    requires 1 <= k
    decreases m + 1 - k
  {
    if k > m then []
    else [Executed(r.id, k, InputAt(cfg, world, r, first, k))] + AttemptsMade(cfg, world, r, first, k + 1, m)
  }

  /** Once started, every saved record has the input of its attempt. */
  predicate SavedOn(cfg: Config, world: World, r: TaskRecord, first: Payload, steps: seq<Step>) {
    forall i :: 0 <= i < |steps| && steps[i].Saved? && 1 <= steps[i].rec.attempt ==>
      steps[i].rec.input == InputAt(cfg, world, r, first, steps[i].rec.attempt)
  }

  /** Each failure tells its attempt's number, error and input. */
  predicate FailuresOn(cfg: Config, world: World, r: TaskRecord, first: Payload, failures: seq<FailureContext>) {
    forall i :: 0 <= i < |failures| ==> FailureOn(cfg, world, r, first, failures[i], i + 1)
  }

  predicate FailureOn(cfg: Config, world: World, r: TaskRecord, first: Payload, f: FailureContext, k: nat)
    requires 1 <= k
  {
    world.attempts(k).Fails? && f == FailureAt(cfg, world, r, k, InputAt(cfg, world, r, first, k))
  }

  /** The last attempt made from attempt `k` on. */
  function LastAttempt(cfg: Config, world: World, r: TaskRecord, k: nat): nat
    requires k <= Limit(r.maxRetries, cfg.escalation)
  {
    var limit := Limit(r.maxRetries, cfg.escalation);
    var s := Decisive(world.attempts, k, limit);
    if s <= limit then s else limit
  }

  predicate RanOn(cfg: Config, world: World, r: TaskRecord, first: Payload, k: nat, o: RunResult)
    requires 1 <= k <= Limit(r.maxRetries, cfg.escalation)
  {
    && ExecutedIn(o.steps) == AttemptsMade(cfg, world, r, first, k, LastAttempt(cfg, world, r, k))
    && SavedOn(cfg, world, r, first, o.steps)
    && FailuresOn(cfg, world, r, first, o.failures)
    && 1 <= o.rec.attempt && o.rec.input == InputAt(cfg, world, r, first, o.rec.attempt)
  }

  lemma {:induction false} ExecutedConcat(a: seq<Step>, b: seq<Step>)
    ensures ExecutedIn(a + b) == ExecutedIn(a) + ExecutedIn(b)
  {
    if b == [] {
      assert a + b == a;
    } else {
      assert Front(a + b) == a + Front(b);
      ExecutedConcat(a, Front(b));
    }
  }

  lemma SavedConcat(cfg: Config, world: World, r: TaskRecord, first: Payload, a: seq<Step>, b: seq<Step>)
    requires SavedOn(cfg, world, r, first, a) && SavedOn(cfg, world, r, first, b)
    ensures SavedOn(cfg, world, r, first, a + b)
  {
  }

  lemma OneExecuted(s: Step)
    ensures ExecutedIn([s]) == if s.Executed? then [s] else []
  {
    assert Front([s]) == [];
  }

  lemma NoneExecuted(r: TaskRecord)
    requires r.trail != [] && KindOf(LastAction(r)).Some?
    ensures ExecutedIn(Announce(r)) == []
  {
    assert Front(Announce(r)) == [Saved(r)];
    OneExecuted(Saved(r));
  }

  /** Record `r` is task `task` at an attempt on the right input. */
  predicate At(cfg: Config, world: World, task: TaskRecord, first: Payload, r: TaskRecord,
               failures: seq<FailureContext>)
  {
    && 1 <= r.attempt && SameTask(task, r)
    && r.input == InputAt(cfg, world, task, first, r.attempt)
    && |failures| == r.attempt - 1 && FailuresOn(cfg, world, task, first, failures)
  }

  /** Where a pass leaves off: at the next attempt, or with a result. */
  predicate LeavesOff(cfg: Config, world: World, task: TaskRecord, first: Payload, p: Pass) {
    match p
    case Over(o) =>
      && FailuresOn(cfg, world, task, first, o.failures)
      && 1 <= o.rec.attempt && o.rec.input == InputAt(cfg, world, task, first, o.rec.attempt)
    case Again(_, next, failures) => At(cfg, world, task, first, next, failures)
  }

  /** What a pass has done: one execution on the right input, right inputs saved. */
  predicate PassOn(cfg: Config, world: World, task: TaskRecord, first: Payload, r: TaskRecord, p: Pass) {
    && ExecutedIn(StepsOf(p)) == [Executed(r.id, r.attempt, r.input)]
    && SavedOn(cfg, world, task, first, StepsOf(p)) && LeavesOff(cfg, world, task, first, p)
  }

  lemma DecidingPassOn(cfg: Config, world: World, task: TaskRecord, first: Payload, r: TaskRecord,
                       failures: seq<FailureContext>, startedAt: int, n: nat)
    requires At(cfg, world, task, first, r, failures) && !world.attempts(r.attempt).Fails?
    ensures PassOn(cfg, world, task, first, r, OnePass(cfg, world, r, failures, startedAt, n))
  {
    var run := [Executed(r.id, r.attempt, r.input)];
    OneExecuted(run[0]);
    if world.attempts(r.attempt).Succeeds? {
      var done := Finished(r, world.attempts(r.attempt).output, startedAt, cfg.clock(n + 1));
      NoneExecuted(done);
      ExecutedConcat(run, Announce(done));
    }
  }

  /** The next attempt's input, in the record kept for it. */
  lemma NextInput(cfg: Config, world: World, task: TaskRecord, first: Payload, r: TaskRecord,
                  failures: seq<FailureContext>)
    requires At(cfg, world, task, first, r, failures) && world.attempts(r.attempt).Fails? && r.attempt <= r.maxRetries
    ensures Retrying(r, Verdict(cfg, world, r)).input == InputAt(cfg, world, task, first, r.attempt + 1)
  {
    AnswerIsAdjusted(cfg, world, r);
  }

  lemma FailureAdded(cfg: Config, world: World, task: TaskRecord, first: Payload, r: TaskRecord,
                     failures: seq<FailureContext>)
    requires At(cfg, world, task, first, r, failures) && world.attempts(r.attempt).Fails?
    ensures FailuresOn(cfg, world, task, first, failures + [FailureOf(cfg, r, world.attempts(r.attempt))])
  {
    var f := FailureOf(cfg, r, world.attempts(r.attempt));
    assert f == FailureAt(cfg, world, task, r.attempt, InputAt(cfg, world, task, first, r.attempt));
    var all := failures + [f];
    forall i | 0 <= i < |all| ensures FailureOn(cfg, world, task, first, all[i], i + 1) {
      assert i < |failures| ==> all[i] == failures[i];
    }
  }

  lemma ReactionOn(cfg: Config, world: World, task: TaskRecord, first: Payload, r: TaskRecord,
                   failures: seq<FailureContext>, startedAt: int, n: nat)
    requires At(cfg, world, task, first, r, failures) && world.attempts(r.attempt).Fails?
    ensures
      var q := Reaction(cfg, world, r, failures, startedAt, n);
      && ExecutedIn(StepsOf(q)) == [] && SavedOn(cfg, world, task, first, StepsOf(q))
      && LeavesOff(cfg, world, task, first, q)
  {
    var q := Reaction(cfg, world, r, failures, startedAt, n);
    FailureAdded(cfg, world, task, first, r, failures);
    if r.attempt <= r.maxRetries {
      NextInput(cfg, world, task, first, r, failures);
    }
    NoneExecuted(if q.Over? then q.result.rec else q.rec);
  }

  lemma FailingPassOn(cfg: Config, world: World, task: TaskRecord, first: Payload, r: TaskRecord,
                      failures: seq<FailureContext>, startedAt: int, n: nat)
    requires At(cfg, world, task, first, r, failures) && world.attempts(r.attempt).Fails?
    ensures PassOn(cfg, world, task, first, r, OnePass(cfg, world, r, failures, startedAt, n))
  {
    var run, noted := [Executed(r.id, r.attempt, r.input)], Noted(cfg, r, world.attempts(r.attempt), cfg.clock(n + 1));
    var q := Reaction(cfg, world, r, failures, startedAt, n);
    ReactionOn(cfg, world, task, first, r, failures, startedAt, n);
    OneThen(run[0], noted, StepsOf(q));
    SavedConcat(cfg, world, task, first, run + [Saved(noted)], StepsOf(q));
  }

  lemma OneThen(run: Step, noted: TaskRecord, steps: seq<Step>)
    requires run.Executed? && ExecutedIn(steps) == []
    ensures ExecutedIn([run] + [Saved(noted)] + steps) == [run]
  {
    OneExecuted(run);
    OneExecuted(Saved(noted));
    ExecutedConcat([run], [Saved(noted)]);
    ExecutedConcat([run] + [Saved(noted)], steps);
  }

  lemma {:induction false} LoopOn(cfg: Config, world: World, task: TaskRecord, first: Payload, r: TaskRecord,
                                  failures: seq<FailureContext>, startedAt: int, n: nat)
    requires At(cfg, world, task, first, r, failures) && r.status == Running && Numbered(failures)
    requires r.attempt <= Limit(task.maxRetries, cfg.escalation)
    ensures RanOn(cfg, world, task, first, r.attempt, Attempts(cfg, world, r, failures, startedAt, n))
    decreases Limit(task.maxRetries, cfg.escalation) - r.attempt
  {
    if !world.attempts(r.attempt).Fails? || r.attempt == Limit(task.maxRetries, cfg.escalation) {
      EndsHere(cfg, world, task, first, r, failures, startedAt, n);
    } else {
      var p := OnePass(cfg, world, r, failures, startedAt, n);
      FailingPassOn(cfg, world, task, first, r, failures, startedAt, n);
      RetriedPass(cfg, world, r, failures, startedAt, n);
      LoopOn(cfg, world, task, first, p.rec, p.failures, startedAt, n + 4);
      MoreOn(cfg, world, task, first, r, p, Attempts(cfg, world, p.rec, p.failures, startedAt, n + 4));
    }
  }

  /** A pass that succeeds, is torn down or fails at the limit is the last one. */
  lemma EndsHere(cfg: Config, world: World, task: TaskRecord, first: Payload, r: TaskRecord,
                 failures: seq<FailureContext>, startedAt: int, n: nat)
    requires At(cfg, world, task, first, r, failures) && r.status == Running && Numbered(failures)
    requires r.attempt <= Limit(task.maxRetries, cfg.escalation)
    requires !world.attempts(r.attempt).Fails? || r.attempt == Limit(task.maxRetries, cfg.escalation)
    ensures
      var p := OnePass(cfg, world, r, failures, startedAt, n);
      p.Over? && RanOn(cfg, world, task, first, r.attempt, p.result)
  {
    var p := OnePass(cfg, world, r, failures, startedAt, n);
    if world.attempts(r.attempt).Fails? {
      LastPass(cfg, world, r, failures, startedAt, n);
      FailingPassOn(cfg, world, task, first, r, failures, startedAt, n);
    } else {
      DecidingPassOn(cfg, world, task, first, r, failures, startedAt, n);
    }
    EndOn(cfg, world, task, first, r, p);
  }

  lemma EndOn(cfg: Config, world: World, task: TaskRecord, first: Payload, r: TaskRecord, p: Pass)
    requires 1 <= r.attempt <= Limit(task.maxRetries, cfg.escalation) && SameTask(task, r)
    requires r.input == InputAt(cfg, world, task, first, r.attempt)
    requires p.Over? && PassOn(cfg, world, task, first, r, p)
    requires !world.attempts(r.attempt).Fails? || r.attempt == Limit(task.maxRetries, cfg.escalation)
    ensures RanOn(cfg, world, task, first, r.attempt, p.result)
  {
    var k := r.attempt;
    assert LastAttempt(cfg, world, task, k) == k;
    assert AttemptsMade(cfg, world, task, first, k + 1, k) == [];
  }

  lemma MoreOn(cfg: Config, world: World, task: TaskRecord, first: Payload, r: TaskRecord, p: Pass, rest: RunResult)
    requires 1 <= r.attempt < Limit(task.maxRetries, cfg.escalation) && SameTask(task, r)
    requires r.input == InputAt(cfg, world, task, first, r.attempt)
    requires p.Again? && PassOn(cfg, world, task, first, r, p) && world.attempts(r.attempt).Fails?
    requires RanOn(cfg, world, task, first, r.attempt + 1, rest)
    ensures RanOn(cfg, world, task, first, r.attempt, Then(p.steps, rest))
  {
    ExecutedConcat(p.steps, rest.steps);
    SavedConcat(cfg, world, task, first, p.steps, rest.steps);
    assert LastAttempt(cfg, world, task, r.attempt) == LastAttempt(cfg, world, task, r.attempt + 1);
  }

  lemma ThenOn(cfg: Config, world: World, r: TaskRecord, first: Payload, steps: seq<Step>, o: RunResult)
    requires RanOn(cfg, world, r, first, 1, o) && ExecutedIn(steps) == [] && SavedOn(cfg, world, r, first, steps)
    ensures RanOn(cfg, world, r, first, 1, Then(steps, o))
  {
    ExecutedConcat(steps, o.steps);
    SavedConcat(cfg, world, r, first, steps, o.steps);
  }

  lemma BeginOn(cfg: Config, world: World, task: TaskRecord, r: TaskRecord, n: nat)
    requires r.attempt == 0 && SameTask(task, r)
    ensures RanOn(cfg, world, task, r.input, 1, Begin(cfg, world, r, n))
  {
    var begun := Begun(r, cfg.clock(n));
    LoopOn(cfg, world, task, r.input, begun, [], cfg.clock(n), n + 2);
    NoneExecuted(begun);
    ThenOn(cfg, world, task, r.input, Announce(begun), Attempts(cfg, world, begun, [], cfg.clock(n), n + 2));
  }

  lemma LaunchOn(cfg: Config, world: World, task: TaskRecord, r: TaskRecord, n: nat)
    requires r.attempt == 0 && SameTask(task, r) && !world.suggestion.SuggestionRaises?
    ensures RanOn(cfg, world, task, FirstInput(world, r), 1, Launch(cfg, world, r, n))
  {
    match world.suggestion
    case NoSuggestion => BeginOn(cfg, world, task, r, n);
    case Suggestion(adjustment) =>
      var advised := Advised(r, adjustment, cfg.clock(n));
      BeginOn(cfg, world, task, advised, n + 1);
      OneExecuted(Saved(advised));
      ThenOn(cfg, world, task, FirstInput(world, r), [Saved(advised)], Begin(cfg, world, advised, n + 1));
  }

  /** The inputs of a whole run.  The executions are exactly attempts 1 to the last, in order,
      each on its own input: attempt 1 on the stored input updated by the suggestion, and every
      later one on the adjuster's answer to the failure before it, or on the same input again.
      Every saved record, the final one included, has the input of its attempt, and every
      failure reported carries the fingerprint of the input that failed. */
  lemma RunInputs(cfg: Config, world: World, r: TaskRecord, n: nat)
    requires Launches(cfg, world, r) && r.attempt == 0
    ensures RanOn(cfg, world, r, FirstInput(world, r), 1, Run(cfg, world, r, n))
  {
    if r.status == Approved {
      LaunchOn(cfg, world, r, r, n);
    } else {
      var admitted := Admit(r, cfg.clock(n));
      LaunchOn(cfg, world, r, admitted, n + 1);
      OneExecuted(Saved(admitted));
      ThenOn(cfg, world, r, FirstInput(world, r), [Saved(admitted)], Launch(cfg, world, admitted, n + 1));
    }
  }
}

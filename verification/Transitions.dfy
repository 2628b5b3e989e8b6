/** What each step of a run does to the record, field by field, and which input each attempt
    runs on.  The effects are written out from the answers of the supervisor's collaborators,
    independently of how Runs builds its records. */
module Transitions {
  import opened Tasks
  import opened RetryPolicies
  import opened Journals
  import opened Runs
  import opened Outcomes
  import opened Schedules

  /** The input with which the retry strategy replaces the one that failed, if any. */
  function Answer(s: Strategy, f: FailureContext): Option<Payload> {
    if s.AdjustingStrategy? then s.adjuster(f) else None
  }

  /** When the task started. */
  function StartTime(trail: seq<AuditEntry>): int {
    if trail == [] then 0
    else if Last(trail).action.Start? then Last(trail).timestamp
    else StartTime(Front(trail))
  }

  /** The failure of attempt `k` on `input`. */
  function FailureAt(cfg: Config, world: World, r: TaskRecord, k: nat, input: Payload): FailureContext
    requires world.attempts(k).Fails?
  {
    FailureContext(r.id, r.capability, k, r.maxRetries, world.attempts(k).errorType, world.attempts(k).message,
                   Some(cfg.fingerprint(input)))
  }

  /** The record after one more entry: status and trail move on, the time is noted. */
  function WithEntry(r: TaskRecord, e: AuditEntry): TaskRecord {
    r.(trail := r.trail + [e], updatedAt := e.timestamp, status := if e.to.Some? then e.to.value else r.status)
  }

  function InputAfter(cfg: Config, world: World, r: TaskRecord): Payload {
    if world.attempts(r.attempt).Fails? then
      var answer := Answer(cfg.strategy, FailureAt(cfg, world, r, r.attempt, r.input));
      if answer.Some? then answer.value else r.input
    else r.input
  }

  function Ended(r: TaskRecord, success: bool, output: Option<string>, error: Option<string>, t: int): TaskRecord {
    r.(result := Some(TaskResult(success, output, error, Some(StartTime(r.trail)), t)))
  }

  /** The record that each kind of entry leaves, given the one before; `t` is the time of
      the entry. */
  function Effect(cfg: Config, world: World, r: TaskRecord, a: Action, t: int): TaskRecord {
    var status := Some(r.status);
    match a
    case Allow =>
      WithEntry(r, AuditEntry(t, "policy", Allow, status, status))
    case Deny =>
      var error := if world.policy.PolicyDeny? then OrElse(world.policy.reason, "Task denied by policy") else "";
      WithEntry(r.(result := Some(TaskResult(false, None, Some(error), None, t))),
                AuditEntry(t, "policy", Deny, status, Some(PolicyDenied)))
    case AwaitApproval =>
      var gated := r.capability in cfg.registry && cfg.registry[r.capability].requireApproval;
      var actor := if gated then "supervisor" else "policy";
      WithEntry(r, AuditEntry(t, actor, AwaitApproval, status, Some(AwaitingApproval)))
    case ApplySuggestion =>
      WithEntry(if world.suggestion.Suggestion? then r.(input := r.input + world.suggestion.adjustment) else r,
                AuditEntry(t, "guild", ApplySuggestion, None, None))
    case Start(_) =>
      WithEntry(r.(attempt := r.attempt + 1), AuditEntry(t, "supervisor", Start(r.attempt + 1), status, Some(Running)))
    case RecordFailure(_) =>
      if world.attempts(r.attempt).Fails? then
        var f := FailureAt(cfg, world, r, r.attempt, r.input);
        WithEntry(r, AuditEntry(t, "supervisor", RecordFailure(f), None, None))
      else r
    case Complete(_) =>
      var output := if world.attempts(r.attempt).Succeeds? then world.attempts(r.attempt).output else None;
      WithEntry(Ended(r, true, output, None, t),
                AuditEntry(t, "supervisor", Complete(r.attempt), status, Some(Completed)))
    case Retry(_) =>
      WithEntry(r.(attempt := r.attempt + 1, input := InputAfter(cfg, world, r)),
                AuditEntry(t, "supervisor", Retry(r.attempt + 1), status, Some(Running)))
    case Escalate(_, _) =>
      var error := if world.attempts(r.attempt).Fails? then world.attempts(r.attempt).message else "";
      var k := if r.attempt <= r.maxRetries then r.attempt + 1 else r.attempt;
      var input := if r.attempt <= r.maxRetries then InputAfter(cfg, world, r) else r.input;
      WithEntry(Ended(r, false, None, Some(error), t).(attempt := k, input := input),
                AuditEntry(t, "supervisor", Escalate(k, r.attempt), status, Some(Escalated)))
    case Fail(_) =>
      var error := if world.attempts(r.attempt).Fails? then world.attempts(r.attempt).message else "";
      WithEntry(Ended(r, false, None, Some(error), t),
                AuditEntry(t, "supervisor", Fail(r.attempt), status, Some(Failed)))
    case _ => r
  }

  predicate Exact(cfg: Config, world: World, r: TaskRecord, next: TaskRecord) {
    next.trail != [] && next == Effect(cfg, world, r, LastAction(next), Last(next.trail).timestamp)
  }

  /** The record in the store after `steps`, if it was `r` before. */
  function Latest(r: TaskRecord, steps: seq<Step>): TaskRecord {
    if Stored(steps).Some? then Stored(steps).value else r
  }

  predicate StepExact(cfg: Config, world: World, r: TaskRecord, s: Step) {
    match s
    case Saved(next) => Exact(cfg, world, r, next)
    case Emitted(e) => e.taskId == r.id && e.status == r.status && e.attempt == r.attempt
    case Executed(id, k, input) => id == r.id && k == r.attempt && input == r.input
  }

  /** Every step of a run from record `r` has its exact effect on the record before it. */
  predicate ExactFrom(cfg: Config, world: World, r: TaskRecord, steps: seq<Step>) {
    steps == [] ||
    (ExactFrom(cfg, world, r, Front(steps)) && StepExact(cfg, world, Latest(r, Front(steps)), Last(steps)))
  }

  lemma LatestConcat(r: TaskRecord, a: seq<Step>, b: seq<Step>)
    ensures Latest(r, a + b) == Latest(Latest(r, a), b)
  {
    StoredConcat(a, b);
  }

  lemma {:induction false} ExactConcat(cfg: Config, world: World, r: TaskRecord, a: seq<Step>, b: seq<Step>)
    requires ExactFrom(cfg, world, r, a) && ExactFrom(cfg, world, Latest(r, a), b)
    ensures ExactFrom(cfg, world, r, a + b)
  {
    if b == [] {
      assert a + b == a;
    } else {
      ExactConcat(cfg, world, r, a, Front(b));
      assert Front(a + b) == a + Front(b);
      LatestConcat(r, a, Front(b));
    }
  }

  lemma OneStepExact(cfg: Config, world: World, r: TaskRecord, s: Step)
    requires StepExact(cfg, world, r, s)
    ensures ExactFrom(cfg, world, r, [s]) && Latest(r, [s]) == if s.Saved? then s.rec else r
  {
    assert Front([s]) == [] && Last([s]) == s;
    assert ExactFrom(cfg, world, r, Front([s])) && Latest(r, Front([s])) == r;
  }

  lemma SaveExact(cfg: Config, world: World, r: TaskRecord, next: TaskRecord)
    requires Exact(cfg, world, r, next)
    ensures ExactFrom(cfg, world, r, [Saved(next)]) && Latest(r, [Saved(next)]) == next
    ensures KindOf(LastAction(next)).Some? ==>
      ExactFrom(cfg, world, r, Announce(next)) && Latest(r, Announce(next)) == next
  {
    OneStepExact(cfg, world, r, Saved(next));
    if KindOf(LastAction(next)).Some? {
      var told := Emitted(EventFor(next));
      OneStepExact(cfg, world, next, told);
      ExactConcat(cfg, world, r, [Saved(next)], [told]);
      LatestConcat(r, [Saved(next)], [told]);
      assert Announce(next) == [Saved(next)] + [told];
    }
  }

  lemma ExecuteExact(cfg: Config, world: World, r: TaskRecord)
    ensures
      var run := [Executed(r.id, r.attempt, r.input)];
      ExactFrom(cfg, world, r, run) && Latest(r, run) == r
  {
    OneStepExact(cfg, world, r, Executed(r.id, r.attempt, r.input));
  }

  /** `o` is exact from `r` and ends with the record it returns. */
  predicate ResultExact(cfg: Config, world: World, r: TaskRecord, o: RunResult) {
    ExactFrom(cfg, world, r, o.steps) && Latest(r, o.steps) == o.rec
  }

  lemma ThenExact(cfg: Config, world: World, r: TaskRecord, steps: seq<Step>, o: RunResult)
    requires ExactFrom(cfg, world, r, steps) && ResultExact(cfg, world, Latest(r, steps), o)
    ensures ResultExact(cfg, world, r, Then(steps, o))
  {
    ExactConcat(cfg, world, r, steps, o.steps);
    LatestConcat(r, steps, o.steps);
  }

  /** The loop stands at attempt `r.attempt`. */
  predicate InLoop(r: TaskRecord, failures: seq<FailureContext>, startedAt: int) {
    1 <= r.attempt && r.status == Running && StartTime(r.trail) == startedAt && |failures| == r.attempt - 1
  }

  lemma EntryStartTime(trail: seq<AuditEntry>, e: AuditEntry)
    ensures StartTime(trail + [e]) == if e.action.Start? then e.timestamp else StartTime(trail)
  {
    assert Front(trail + [e]) == trail;
  }

  lemma NotedExact(cfg: Config, world: World, r: TaskRecord, t: int)
    requires world.attempts(r.attempt).Fails?
    ensures
      var noted := Noted(cfg, r, world.attempts(r.attempt), t);
      Exact(cfg, world, r, noted) && StartTime(noted.trail) == StartTime(r.trail)
  {
    var f := FailureAt(cfg, world, r, r.attempt, r.input);
    var e := AuditEntry(t, "supervisor", RecordFailure(f), None, None);
    NotedEntry(cfg, world, r, t, e);
    EntryStartTime(r.trail, e);
  }

  lemma NotedEntry(cfg: Config, world: World, r: TaskRecord, t: int, e: AuditEntry)
    requires world.attempts(r.attempt).Fails?
    requires e == AuditEntry(t, "supervisor", RecordFailure(FailureAt(cfg, world, r, r.attempt, r.input)), None, None)
    ensures
      var noted := Noted(cfg, r, world.attempts(r.attempt), t);
      noted == WithEntry(r, e) && Last(noted.trail) == e
  {
  }

  /** How a pass is exact: `p` from `r`. */
  predicate PassExact(cfg: Config, world: World, r: TaskRecord, failures: seq<FailureContext>, startedAt: int,
                      p: Pass)
  {
    match p
    case Over(o) => ResultExact(cfg, world, r, o)
    case Again(steps, next, failures') =>
      && ExactFrom(cfg, world, r, steps) && Latest(r, steps) == next && InLoop(next, failures', startedAt)
  }

  lemma AnswerIsAdjusted(cfg: Config, world: World, r: TaskRecord)
    requires 1 <= r.attempt <= r.maxRetries && world.attempts(r.attempt).Fails?
    ensures Verdict(cfg, world, r).adjustedInput == Answer(cfg.strategy, FailureAt(cfg, world, r, r.attempt, r.input))
  {
  }

  lemma RetryExact(cfg: Config, world: World, r: TaskRecord, noted: TaskRecord, t: int)
    requires 1 <= r.attempt <= r.maxRetries && world.attempts(r.attempt).Fails?
    requires noted == r.(trail := noted.trail, updatedAt := noted.updatedAt) && noted.status == Running
    ensures
      var again := Relaunched(noted, Verdict(cfg, world, r), t);
      Exact(cfg, world, noted, again) && StartTime(again.trail) == StartTime(noted.trail)
  {
    AnswerIsAdjusted(cfg, world, r);
    EntryStartTime(noted.trail, AuditEntry(t, "supervisor", Retry(noted.attempt + 1), Some(Running), Some(Running)));
  }

  lemma EndExact(cfg: Config, world: World, r: TaskRecord, noted: TaskRecord, failures: nat, t: int)
    requires 1 <= r.attempt == failures && world.attempts(r.attempt).Fails?
    requires noted == r.(trail := noted.trail, updatedAt := noted.updatedAt) && noted.status == Running
    ensures
      var d := Verdict(cfg, world, r);
      var message := world.attempts(r.attempt).message;
      var start := StartTime(noted.trail);
      && (d.shouldRetry ==> Exact(cfg, world, noted, HandedOver(Retrying(noted, d), message, failures, start, t)))
      && (!d.shouldRetry ==> Exact(cfg, world, noted, HandedOver(noted, message, failures, start, t)))
      && Exact(cfg, world, noted, GaveUp(noted, message, start, t))
  {
    if r.attempt <= r.maxRetries {
      AnswerIsAdjusted(cfg, world, r);
    }
  }

  lemma ReactionExact(cfg: Config, world: World, r: TaskRecord, noted: TaskRecord, failures: seq<FailureContext>,
                      t: int)
    requires 1 <= r.attempt == |failures| && world.attempts(r.attempt).Fails?
    requires noted == r.(trail := noted.trail, updatedAt := noted.updatedAt) && noted.status == Running
    ensures
      var start := StartTime(noted.trail);
      var p := AfterFailure(cfg.escalation, noted, failures, Verdict(cfg, world, r),
                            world.attempts(r.attempt).message, start, t);
      PassExact(cfg, world, noted, failures, start, p)
  {
    var d := Verdict(cfg, world, r);
    var start := StartTime(noted.trail);
    var p := AfterFailure(cfg.escalation, noted, failures, d, world.attempts(r.attempt).message, start, t);
    if p.Again? {
      RetryExact(cfg, world, r, noted, t);
      SaveExact(cfg, world, noted, p.rec);
    } else {
      EndExact(cfg, world, r, noted, |failures|, t);
      SaveExact(cfg, world, noted, p.result.rec);
    }
  }

  lemma AfterExact(cfg: Config, world: World, r: TaskRecord, failures: seq<FailureContext>, startedAt: int,
                   steps: seq<Step>, p: Pass)
    requires ExactFrom(cfg, world, r, steps) && PassExact(cfg, world, Latest(r, steps), failures, startedAt, p)
    ensures PassExact(cfg, world, r, failures, startedAt, After(steps, p))
  {
    var more := StepsOf(p);
    ExactConcat(cfg, world, r, steps, more);
    LatestConcat(r, steps, more);
  }

  lemma FailingPassExact(cfg: Config, world: World, r: TaskRecord, failures: seq<FailureContext>, startedAt: int,
                         n: nat)
    requires InLoop(r, failures, startedAt) && world.attempts(r.attempt).Fails?
    ensures PassExact(cfg, world, r, failures, startedAt, OnePass(cfg, world, r, failures, startedAt, n))
  {
    var o := world.attempts(r.attempt);
    var noted := Noted(cfg, r, o, cfg.clock(n + 1));
    var run := [Executed(r.id, r.attempt, r.input)];
    var history := failures + [FailureOf(cfg, r, o)];
    NotedExact(cfg, world, r, cfg.clock(n + 1));
    ExecuteExact(cfg, world, r);
    SaveExact(cfg, world, r, noted);
    ExactConcat(cfg, world, r, run, [Saved(noted)]);
    LatestConcat(r, run, [Saved(noted)]);
    ReactionExact(cfg, world, r, noted, history, cfg.clock(n + 2));
    var p := AfterFailure(cfg.escalation, noted, history, Verdict(cfg, world, r), o.message, startedAt,
                          cfg.clock(n + 2));
    AfterExact(cfg, world, r, failures, startedAt, run + [Saved(noted)], p);
  }

  lemma DecidingPassExact(cfg: Config, world: World, r: TaskRecord, failures: seq<FailureContext>, startedAt: int,
                          n: nat)
    requires InLoop(r, failures, startedAt) && !world.attempts(r.attempt).Fails?
    ensures PassExact(cfg, world, r, failures, startedAt, OnePass(cfg, world, r, failures, startedAt, n))
  {
    ExecuteExact(cfg, world, r);
    if world.attempts(r.attempt).Succeeds? {
      var done := Finished(r, world.attempts(r.attempt).output, startedAt, cfg.clock(n + 1));
      SaveExact(cfg, world, r, done);
      ExactConcat(cfg, world, r, [Executed(r.id, r.attempt, r.input)], Announce(done));
      LatestConcat(r, [Executed(r.id, r.attempt, r.input)], Announce(done));
    }
  }

  lemma {:induction false} AttemptsExact(cfg: Config, world: World, r: TaskRecord, failures: seq<FailureContext>,
                                         startedAt: int, n: nat)
    requires InLoop(r, failures, startedAt)
    ensures ResultExact(cfg, world, r, Attempts(cfg, world, r, failures, startedAt, n))
    decreases RetriesLeft(r)
  {
    if world.attempts(r.attempt).Fails? {
      FailingPassExact(cfg, world, r, failures, startedAt, n);
    } else {
      DecidingPassExact(cfg, world, r, failures, startedAt, n);
    }
    var p := OnePass(cfg, world, r, failures, startedAt, n);
    if p.Again? {
      AttemptsExact(cfg, world, p.rec, p.failures, startedAt, n + 4);
      ThenExact(cfg, world, r, p.steps, Attempts(cfg, world, p.rec, p.failures, startedAt, n + 4));
    }
  }

  lemma BeginExact(cfg: Config, world: World, r: TaskRecord, n: nat)
    requires r.attempt == 0
    ensures ResultExact(cfg, world, r, Begin(cfg, world, r, n))
  {
    var begun := Begun(r, cfg.clock(n));
    EntryStartTime(r.trail, AuditEntry(cfg.clock(n), "supervisor", Start(1), Some(r.status), Some(Running)));
    SaveExact(cfg, world, r, begun);
    AttemptsExact(cfg, world, begun, [], cfg.clock(n), n + 2);
    ThenExact(cfg, world, r, Announce(begun), Attempts(cfg, world, begun, [], cfg.clock(n), n + 2));
  }

  lemma LaunchExact(cfg: Config, world: World, r: TaskRecord, n: nat)
    requires r.attempt == 0
    ensures ResultExact(cfg, world, r, Launch(cfg, world, r, n))
  {
    match world.suggestion
    case SuggestionRaises =>
    case NoSuggestion => BeginExact(cfg, world, r, n);
    case Suggestion(adjustment) =>
      var advised := Advised(r, adjustment, cfg.clock(n));
      SaveExact(cfg, world, r, advised);
      BeginExact(cfg, world, advised, n + 1);
      ThenExact(cfg, world, r, [Saved(advised)], Begin(cfg, world, advised, n + 1));
  }

  lemma HeldExact(cfg: Config, world: World, r: TaskRecord, n: nat)
    requires r.status == Pending && (Gated(cfg.registry)(r.capability) || !world.policy.PolicyAllow?)
    ensures ResultExact(cfg, world, r, Run(cfg, world, r, n))
  {
    var o := Run(cfg, world, r, n);
    if o.steps != [] {
      SaveExact(cfg, world, r, o.rec);
    }
  }

  lemma AdmittedExact(cfg: Config, world: World, r: TaskRecord, n: nat)
    requires r.status == Pending && r.attempt == 0
    ensures
      var admitted := Admit(r, cfg.clock(n));
      ResultExact(cfg, world, r, Then([Saved(admitted)], Launch(cfg, world, admitted, n + 1)))
  {
    var admitted := Admit(r, cfg.clock(n));
    SaveExact(cfg, world, r, admitted);
    LaunchExact(cfg, world, admitted, n + 1);
    ThenExact(cfg, world, r, [Saved(admitted)], Launch(cfg, world, admitted, n + 1));
  }

  /** Every save of a run is, field by field, the effect of its entry on the record before it;
      every event and every execution carries what that record says. */
  lemma RunExact(cfg: Config, world: World, r: TaskRecord, n: nat)
    requires Executable(r.status) ==> r.attempt == 0
    ensures ExactFrom(cfg, world, r, Run(cfg, world, r, n).steps)
    ensures Run(cfg, world, r, n).rec == Latest(r, Run(cfg, world, r, n).steps)
  {
    if !Executable(r.status) || !ValidSubmission(cfg.registry, r.name, r.capability, r.input) {
    } else if r.status == Approved {
      LaunchExact(cfg, world, r, n);
    } else if Gated(cfg.registry)(r.capability) || !world.policy.PolicyAllow? {
      HeldExact(cfg, world, r, n);
    } else {
      AdmittedExact(cfg, world, r, n);
    }
  }

  lemma {:induction false} ExactKeepsTask(cfg: Config, world: World, r: TaskRecord, steps: seq<Step>)
    requires ExactFrom(cfg, world, r, steps)
    ensures SameTask(r, Latest(r, steps))
  {
    if steps != [] {
      ExactKeepsTask(cfg, world, r, Front(steps));
      LatestStep(r, steps);
    }
  }

  lemma LatestStep(r: TaskRecord, steps: seq<Step>)
    requires steps != []
    ensures Latest(r, steps) == if Last(steps).Saved? then Last(steps).rec else Latest(r, Front(steps))
  {
  }

  lemma RunKeepsTask(cfg: Config, world: World, r: TaskRecord, n: nat)
    requires Executable(r.status) ==> r.attempt == 0
    ensures SameTask(r, Run(cfg, world, r, n).rec)
  {
    RunExact(cfg, world, r, n);
    ExactKeepsTask(cfg, world, r, Run(cfg, world, r, n).steps);
  }
}

/** One run of a task as the supervisor carries it out (engine/supervisor/service.py),
    written as a function from the stored record to the steps the run takes.  The
    capability's behaviour, the policy engine and the guild's suggestion are given
    by a `World`; the retry loop is `Attempts`. */
module Runs {
  import opened Tasks
  import opened RetryPolicies
  import opened Journals

  datatype CapabilityInfo = CapabilityInfo(
    requireApproval: bool,
    accepts: Payload -> bool,
    minInterval: Option<real>)

  /** The supervisor's collaborators.  `clock(i)` is the time read while the i-th
      step of the journal is prepared. */
  datatype Config = Config(
    registry: map<string, CapabilityInfo>,
    strategy: Strategy,
    escalation: Option<int>,
    fingerprint: Payload -> string,
    clock: nat -> int)

  datatype PolicyOutcome =
    PolicyAllow | PolicyDeny(reason: Option<string>) | PolicyRequireApproval | PolicyRaises

  datatype SuggestionOutcome = NoSuggestion | Suggestion(adjustment: Payload) | SuggestionRaises

  /** One pass through the loop's `try`: the capability returns, raises an
      `Exception`, or is torn down by something the loop does not catch. */
  datatype Outcome = Succeeds(output: Option<string>) | Fails(errorType: string, message: string) | Aborts

  type Duration = d: real | 0.0 <= d

  /** Everything a run depends on besides the stored record: what its collaborators answer,
      how much monotonic time passes before it asks for its execution window and by how
      much a sleep overruns, and the times the guild reads. */
  datatype World = World(
    policy: PolicyOutcome,
    suggestion: SuggestionOutcome,
    attempts: nat -> Outcome,
    random: nat -> real,
    elapsed: Duration,
    overslept: Duration,
    guildClock: nat -> int)

  datatype Error =
    | NotFound | InvalidSubmission | NothingQueued | NotAwaitingApproval | QueueIsFull
    | PolicyError | SuggestionError | Aborted

  datatype RunResult = RunResult(
    steps: seq<Step>,
    rec: TaskRecord,
    failures: seq<FailureContext>,
    error: Option<Error>)

  // ---------------------------------------------------------------------------
  // Validation and record updates
  // ---------------------------------------------------------------------------

  predicate Blank(s: string) {
    forall i :: 0 <= i < |s| ==> Space(s[i])
  }

  predicate ValidSubmission(registry: map<string, CapabilityInfo>, name: string, capability: string, input: Payload) {
    !Blank(name) && !Blank(capability) && capability in registry && registry[capability].accepts(input)
  }

  function Gated(registry: map<string, CapabilityInfo>): string -> bool {
    c => c in registry && registry[c].requireApproval
  }

  /** Append an audit entry and stamp the record. */
  function Logged(r: TaskRecord, t: int, actor: string, action: Action,
                  from: Option<Status>, to: Option<Status>): TaskRecord
  {
    r.(trail := r.trail + [AuditEntry(t, actor, action, from, to)], updatedAt := t)
  }

  /** `_transition_status`: change the status and log the move. */
  function Moved(r: TaskRecord, to: Status, t: int, actor: string, action: Action): TaskRecord {
    Logged(r, t, actor, action, Some(r.status), Some(to)).(status := to)
  }

  function Announce(r: TaskRecord): seq<Step>
    requires r.trail != [] && KindOf(LastAction(r)).Some?
  {
    [Saved(r), Emitted(EventFor(r))]
  }

  function NewRecord(s: TaskSubmission, id: string, t: int): TaskRecord {
    TaskRecord(id, s.name, s.capability, s.input, Pending, None, 0, s.maxRetries, s.workflowId,
               [AuditEntry(t, "supervisor", Submit, None, Some(Pending))], t, t)
  }

  function Denied(r: TaskRecord, reason: Option<string>, t: int): TaskRecord {
    Moved(r.(result := Some(TaskResult(false, None, Some(OrElse(reason, "Task denied by policy")), None, t))),
          PolicyDenied, t, "policy", Deny)
  }

  function Finished(r: TaskRecord, output: Option<string>, startedAt: int, t: int): TaskRecord {
    Moved(r.(result := Some(TaskResult(true, output, None, Some(startedAt), t))),
          Completed, t, "supervisor", Complete(r.attempt))
  }

  function GaveUp(r: TaskRecord, error: string, startedAt: int, t: int): TaskRecord {
    Moved(r.(result := Some(TaskResult(false, None, Some(error), Some(startedAt), t))),
          Failed, t, "supervisor", Fail(r.attempt))
  }

  function HandedOver(r: TaskRecord, error: string, failures: nat, startedAt: int, t: int): TaskRecord {
    Moved(r.(result := Some(TaskResult(false, None, Some(error), Some(startedAt), t))),
          Escalated, t, "supervisor", Escalate(r.attempt, failures))
  }

  function ApprovedBy(r: TaskRecord, actor: string, t: int): (out: TaskRecord)
    ensures out.trail != [] && LastAction(out) == Approve
  {
    Moved(r, Approved, t, actor, Approve)
  }

  function CancelledBy(r: TaskRecord, actor: string, reason: Option<string>, t: int): (out: TaskRecord)
    ensures out.trail != [] && LastAction(out) == Cancel
  {
    Moved(r.(result := Some(TaskResult(false, None, Some(OrElse(reason, "Task cancelled")), None, t))),
          Cancelled, t, actor, Cancel)
  }

  function FailureOf(cfg: Config, r: TaskRecord, o: Outcome): FailureContext
    requires o.Fails?
  {
    FailureContext(r.id, r.capability, r.attempt, r.maxRetries, o.errorType, o.message,
                   Some(cfg.fingerprint(r.input)))
  }

  /** The record as it is kept in memory once a retry has been decided. */
  function Retrying(r: TaskRecord, d: RetryDecision): TaskRecord {
    r.(attempt := r.attempt + 1,
       input := if d.adjustedInput.Some? then d.adjustedInput.value else r.input)
  }

  function Relaunched(r: TaskRecord, d: RetryDecision, t: int): TaskRecord {
    Logged(Retrying(r, d), t, "supervisor", Retry(r.attempt + 1), Some(Running), Some(Running))
  }

  // ---------------------------------------------------------------------------
  // The run
  // ---------------------------------------------------------------------------

  /** What one pass through the retry loop leads to: the run is over, or the loop goes
      round with a record, the failures so far and the steps taken. */
  datatype Pass =
    | Over(result: RunResult)
    | Again(steps: seq<Step>, rec: TaskRecord, failures: seq<FailureContext>)

  /** After a failure is on record: escalate, give up or retry, as decision `d` and the
      escalation policy have it. */
  function AfterFailure(threshold: Option<int>, noted: TaskRecord, failures: seq<FailureContext>,
                        d: RetryDecision, message: string, startedAt: int, t: int): Pass
  {
    if !d.shouldRetry then
      var last := if d.escalate || ShouldEscalate(threshold, |failures|)
                  then HandedOver(noted, message, |failures|, startedAt, t)
                  else GaveUp(noted, message, startedAt, t);
      Over(RunResult(Announce(last), last, failures, None))
    else
      var next := Retrying(noted, d);
      if ShouldEscalate(threshold, |failures|) then
        var last := HandedOver(next, message, |failures|, startedAt, t);
        Over(RunResult(Announce(last), last, failures, None))
      else
        var again := Relaunched(noted, d, t);
        Again(Announce(again), again, failures)
  }

  function Then(steps: seq<Step>, o: RunResult): RunResult {
    o.(steps := steps + o.steps)
  }

  function After(steps: seq<Step>, p: Pass): Pass {
    match p
    case Over(o) => Over(Then(steps, o))
    case Again(more, r, failures) => Again(steps + more, r, failures)
  }

  function Noted(cfg: Config, r: TaskRecord, o: Outcome, t: int): TaskRecord
    requires o.Fails?
  {
    Logged(r, t, "supervisor", RecordFailure(FailureOf(cfg, r, o)), None, None)
  }

  function Verdict(cfg: Config, world: World, r: TaskRecord): (d: RetryDecision)
    requires 1 <= r.attempt && world.attempts(r.attempt).Fails?
    ensures d.shouldRetry <==> r.attempt <= r.maxRetries
  {
    Decide(cfg.strategy, FailureOf(cfg, r, world.attempts(r.attempt)), world.random(r.attempt))
  }

  /** One pass: `r` runs its attempt `r.attempt`, `n` steps are in the journal. */
  function OnePass(cfg: Config, world: World, r: TaskRecord, failures: seq<FailureContext>,
                   startedAt: int, n: nat): Pass
    requires 1 <= r.attempt
  {
    var run := [Executed(r.id, r.attempt, r.input)];
    match world.attempts(r.attempt)
    case Aborts => Over(RunResult(run, r, failures, Some(Aborted)))
    case Succeeds(output) =>
      var done := Finished(r, output, startedAt, cfg.clock(n + 1));
      Over(RunResult(run + Announce(done), done, failures, None))
    case Fails(_, message) =>
      var noted := Noted(cfg, r, world.attempts(r.attempt), cfg.clock(n + 1));
      var history := failures + [FailureOf(cfg, r, world.attempts(r.attempt))];
      After(run + [Saved(noted)],
            AfterFailure(cfg.escalation, noted, history, Verdict(cfg, world, r), message, startedAt, cfg.clock(n + 2)))
  }

  function RetriesLeft(r: TaskRecord): nat {
    if r.attempt <= r.maxRetries then r.maxRetries - r.attempt + 1 else 0
  }

  /** The retry loop. */
  function Attempts(cfg: Config, world: World, r: TaskRecord, failures: seq<FailureContext>,
                    startedAt: int, n: nat): RunResult
    requires 1 <= r.attempt
    decreases RetriesLeft(r)
  {
    match OnePass(cfg, world, r, failures, startedAt, n)
    case Over(o) => o
    case Again(steps, r', failures') =>
      Then(steps, Attempts(cfg, world, r', failures', startedAt, n + 4))
  }

  function Begun(r: TaskRecord, t: int): TaskRecord {
    Moved(r.(attempt := r.attempt + 1), Running, t, "supervisor", Start(r.attempt + 1))
  }

  function Begin(cfg: Config, world: World, r: TaskRecord, n: nat): RunResult {
    var begun := Begun(r, cfg.clock(n));
    Then(Announce(begun), Attempts(cfg, world, begun, [], cfg.clock(n), n + 2))
  }

  function Advised(r: TaskRecord, adjustment: Payload, t: int): TaskRecord {
    Logged(r.(input := r.input + adjustment), t, "guild", ApplySuggestion, None, None)
  }

  /** From authorisation on: peer suggestion, then execution. */
  function Launch(cfg: Config, world: World, r: TaskRecord, n: nat): RunResult {
    match world.suggestion
    case SuggestionRaises => RunResult([], r, [], Some(SuggestionError))
    case NoSuggestion => Begin(cfg, world, r, n)
    case Suggestion(adjustment) =>
      var advised := Advised(r, adjustment, cfg.clock(n));
      Then([Saved(advised)], Begin(cfg, world, advised, n + 1))
  }

  function Admit(r: TaskRecord, t: int): TaskRecord {
    Logged(r, t, "policy", Allow, Some(Pending), Some(Pending))
  }

  /** `run_task` on a stored record. */
  function Run(cfg: Config, world: World, r: TaskRecord, n: nat): RunResult {
    if !Executable(r.status) then RunResult([], r, [], None)
    else if !ValidSubmission(cfg.registry, r.name, r.capability, r.input) then
      RunResult([], r, [], Some(InvalidSubmission))
    else if r.status == Approved then Launch(cfg, world, r, n)
    else if Gated(cfg.registry)(r.capability) then
      var held := Moved(r, AwaitingApproval, cfg.clock(n), "supervisor", AwaitApproval);
      RunResult(Announce(held), held, [], None)
    else
      match world.policy
      case PolicyRaises => RunResult([], r, [], Some(PolicyError))
      case PolicyDeny(reason) =>
        var denied := Denied(r, reason, cfg.clock(n));
        RunResult(Announce(denied), denied, [], None)
      case PolicyRequireApproval =>
        var held := Moved(r, AwaitingApproval, cfg.clock(n), "policy", AwaitApproval);
        RunResult(Announce(held), held, [], None)
      case PolicyAllow =>
        var admitted := Admit(r, cfg.clock(n));
        Then([Saved(admitted)], Launch(cfg, world, admitted, n + 1))
  }

  // ---------------------------------------------------------------------------
  // Runs take legal steps only
  // ---------------------------------------------------------------------------

  /** `h` stands right where the loop body is entered with record `r`. */
  predicate AtAttempt(h: seq<Step>, r: TaskRecord) {
    && Stored(h) == Some(r) && r.trail != [] && r.status == Running
    && (LastAction(r) == Start(r.attempt) || LastAction(r) == Retry(r.attempt))
    && h != [] && Last(h) == Emitted(EventFor(r))
  }

  lemma LoggedExtends(r: TaskRecord, e: AuditEntry)
    ensures Front(r.trail + [e]) == r.trail && Last(r.trail + [e]) == e
  {
  }

  /** A legal save followed by its announcement. */
  lemma AnnounceLegal(gated: string -> bool, h: seq<Step>, r: TaskRecord)
    requires TaskOk(gated, h) && LegalNext(gated, h, Saved(r))
    requires r.trail != [] && KindOf(LastAction(r)).Some?
    ensures TaskOk(gated, h + Announce(r))
    ensures Stored(h + Announce(r)) == Some(r) && Last(h + Announce(r)) == Emitted(EventFor(r))
  {
    Extend(gated, h, Saved(r));
    Extend(gated, h + [Saved(r)], Emitted(EventFor(r)));
    assert h + Announce(r) == h + [Saved(r)] + [Emitted(EventFor(r))];
  }

  /** Running an attempt that fails, and recording the failure. */
  lemma FailureLegal(gated: string -> bool, h: seq<Step>, r: TaskRecord, f: FailureContext, t: int)
    requires TaskOk(gated, h) && AtAttempt(h, r) && f.attempt == r.attempt
    ensures
      var noted := Logged(r, t, "supervisor", RecordFailure(f), None, None);
      var h' := h + [Executed(r.id, r.attempt, r.input)] + [Saved(noted)];
      TaskOk(gated, h') && Stored(h') == Some(noted) && Last(h') == Saved(noted)
  {
    var noted := Logged(r, t, "supervisor", RecordFailure(f), None, None);
    Extend(gated, h, Executed(r.id, r.attempt, r.input));
    LoggedExtends(r, AuditEntry(t, "supervisor", RecordFailure(f), None, None));
    Extend(gated, h + [Executed(r.id, r.attempt, r.input)], Saved(noted));
  }

  /** `o` continues history `h` legally to rest, storing the record it returns. */
  predicate ResultLegal(gated: string -> bool, h: seq<Step>, o: RunResult) {
    TaskOk(gated, h + o.steps) && Stored(h + o.steps) == Some(o.rec) && Quiet(h + o.steps)
  }

  /** `p` continues history `h` legally: either to rest or to the next attempt. */
  predicate PassLegal(gated: string -> bool, h: seq<Step>, p: Pass) {
    match p
    case Over(o) => ResultLegal(gated, h, o)
    case Again(steps, r, _) => TaskOk(gated, h + steps) && AtAttempt(h + steps, r)
  }

  lemma RetrySave(g: bool, noted: TaskRecord, d: RetryDecision, t: int)
    requires noted.trail != [] && LastAction(noted).RecordFailure? && noted.status == Running
    ensures LegalSave(g, false, noted, Relaunched(noted, d, t))
    ensures LastAction(Relaunched(noted, d, t)) == Retry(noted.attempt + 1)
  {
    LoggedExtends(noted, Last(Relaunched(noted, d, t).trail));
  }

  lemma EndSave(g: bool, noted: TaskRecord, r: TaskRecord, message: string, k: nat, startedAt: int, t: int)
    requires noted.trail != [] && LastAction(noted).RecordFailure? && noted.status == Running
    requires SameTask(noted, r) && r.trail == noted.trail && r.status == Running
    requires noted.attempt <= r.attempt <= noted.attempt + 1
    ensures LegalSave(g, false, noted, HandedOver(r, message, k, startedAt, t))
    ensures LastAction(HandedOver(r, message, k, startedAt, t)).Escalate?
    ensures r == noted ==> LegalSave(g, false, noted, GaveUp(noted, message, startedAt, t))
    ensures LastAction(GaveUp(noted, message, startedAt, t)).Fail?
  {
    LoggedExtends(noted, Last(HandedOver(r, message, k, startedAt, t).trail));
    LoggedExtends(noted, Last(GaveUp(noted, message, startedAt, t).trail));
  }

  lemma AfterFailureLegal(gated: string -> bool, h: seq<Step>, threshold: Option<int>, noted: TaskRecord,
                          failures: seq<FailureContext>, d: RetryDecision, message: string, startedAt: int, t: int)
    requires TaskOk(gated, h) && Stored(h) == Some(noted) && h != [] && Last(h) == Saved(noted)
    requires noted.trail != [] && LastAction(noted).RecordFailure? && noted.status == Running
    ensures PassLegal(gated, h, AfterFailure(threshold, noted, failures, d, message, startedAt, t))
  {
    if d.shouldRetry && !ShouldEscalate(threshold, |failures|) {
      RetrySave(gated(noted.capability), noted, d, t);
      AnnounceLegal(gated, h, Relaunched(noted, d, t));
    } else {
      var r := if d.shouldRetry then Retrying(noted, d) else noted;
      EndSave(gated(noted.capability), noted, r, message, |failures|, startedAt, t);
      EndLegal(gated, h, noted, AfterFailure(threshold, noted, failures, d, message, startedAt, t).result.rec);
    }
  }

  lemma EndLegal(gated: string -> bool, h: seq<Step>, noted: TaskRecord, last: TaskRecord)
    requires TaskOk(gated, h) && Stored(h) == Some(noted) && h != [] && Last(h) == Saved(noted)
    requires noted.trail != [] && LastAction(noted).RecordFailure?
    requires LegalSave(gated(noted.capability), false, noted, last)
    requires LastAction(last).Escalate? || LastAction(last).Fail?
    ensures
      var h' := h + Announce(last);
      TaskOk(gated, h') && Stored(h') == Some(last) && Quiet(h')
  {
    AnnounceLegal(gated, h, last);
  }

  lemma ThenLegal(gated: string -> bool, h: seq<Step>, steps: seq<Step>, o: RunResult)
    requires ResultLegal(gated, h + steps, o)
    ensures ResultLegal(gated, h, Then(steps, o))
  {
    assert h + steps + o.steps == h + (steps + o.steps);
  }

  lemma AfterLegal(gated: string -> bool, h: seq<Step>, steps: seq<Step>, p: Pass)
    requires PassLegal(gated, h + steps, p)
    ensures PassLegal(gated, h, After(steps, p))
  {
    match p
    case Over(o) => ThenLegal(gated, h, steps, o);
    case Again(more, _, _) => assert h + steps + more == h + (steps + more);
  }

  lemma SuccessLegal(gated: string -> bool, h: seq<Step>, r: TaskRecord, output: Option<string>, startedAt: int, t: int)
    requires TaskOk(gated, h) && AtAttempt(h, r)
    ensures
      var done := Finished(r, output, startedAt, t);
      var h' := h + ([Executed(r.id, r.attempt, r.input)] + Announce(done));
      TaskOk(gated, h') && Stored(h') == Some(done) && Quiet(h')
  {
    var done := Finished(r, output, startedAt, t);
    var run := [Executed(r.id, r.attempt, r.input)];
    Extend(gated, h, Executed(r.id, r.attempt, r.input));
    LoggedExtends(r, Last(done.trail));
    AnnounceLegal(gated, h + run, done);
    assert h + run + Announce(done) == h + (run + Announce(done));
  }

  lemma OnePassLegal(gated: string -> bool, h: seq<Step>, cfg: Config, world: World,
                     r: TaskRecord, failures: seq<FailureContext>, startedAt: int, n: nat)
    requires TaskOk(gated, h) && AtAttempt(h, r) && 1 <= r.attempt
    ensures PassLegal(gated, h, OnePass(cfg, world, r, failures, startedAt, n))
  {
    match world.attempts(r.attempt)
    case Aborts =>
      Extend(gated, h, Executed(r.id, r.attempt, r.input));
    case Succeeds(output) =>
      SuccessLegal(gated, h, r, output, startedAt, cfg.clock(n + 1));
    case Fails(_, message) =>
      FailingPassLegal(gated, h, cfg, world, r, failures, startedAt, n);
  }

  lemma FailingPassLegal(gated: string -> bool, h: seq<Step>, cfg: Config, world: World,
                         r: TaskRecord, failures: seq<FailureContext>, startedAt: int, n: nat)
    requires TaskOk(gated, h) && AtAttempt(h, r) && 1 <= r.attempt && world.attempts(r.attempt).Fails?
    ensures PassLegal(gated, h, OnePass(cfg, world, r, failures, startedAt, n))
  {
    var f := FailureOf(cfg, r, world.attempts(r.attempt));
    var noted := Noted(cfg, r, world.attempts(r.attempt), cfg.clock(n + 1));
    var run := [Executed(r.id, r.attempt, r.input)];
    FailureLegal(gated, h, r, f, cfg.clock(n + 1));
    var h' := h + run + [Saved(noted)];
    var d := Verdict(cfg, world, r);
    var message := world.attempts(r.attempt).message;
    AfterFailureLegal(gated, h', cfg.escalation, noted, failures + [f], d, message, startedAt, cfg.clock(n + 2));
    assert h + (run + [Saved(noted)]) == h';
    AfterLegal(gated, h, run + [Saved(noted)],
               AfterFailure(cfg.escalation, noted, failures + [f], d, message, startedAt, cfg.clock(n + 2)));
  }

  lemma {:induction false} AttemptsLegal(gated: string -> bool, h: seq<Step>, cfg: Config, world: World,
                                         r: TaskRecord, failures: seq<FailureContext>, startedAt: int, n: nat)
    requires TaskOk(gated, h) && AtAttempt(h, r) && 1 <= r.attempt
    ensures ResultLegal(gated, h, Attempts(cfg, world, r, failures, startedAt, n))
    decreases RetriesLeft(r)
  {
    OnePassLegal(gated, h, cfg, world, r, failures, startedAt, n);
    var p := OnePass(cfg, world, r, failures, startedAt, n);
    if p.Again? {
      AttemptsLegal(gated, h + p.steps, cfg, world, p.rec, p.failures, startedAt, n + 4);
      ThenLegal(gated, h, p.steps, Attempts(cfg, world, p.rec, p.failures, startedAt, n + 4));
    }
  }

  lemma BeginLegal(gated: string -> bool, h: seq<Step>, cfg: Config, world: World, r: TaskRecord, n: nat)
    requires TaskOk(gated, h) && Stored(h) == Some(r) && r.trail != [] && !Unannounced(h) && !Executing(h)
    requires r.status == Approved
          || (r.status == Pending && !gated(r.capability)
              && (LastAction(r) == Allow || LastAction(r) == ApplySuggestion))
    ensures ResultLegal(gated, h, Begin(cfg, world, r, n))
  {
    var begun := Begun(r, cfg.clock(n));
    BegunLegal(gated, h, r, cfg.clock(n));
    AttemptsLegal(gated, h + Announce(begun), cfg, world, begun, [], cfg.clock(n), n + 2);
    ThenLegal(gated, h, Announce(begun), Attempts(cfg, world, begun, [], cfg.clock(n), n + 2));
  }

  lemma BegunLegal(gated: string -> bool, h: seq<Step>, r: TaskRecord, t: int)
    requires TaskOk(gated, h) && Stored(h) == Some(r) && r.trail != [] && !Unannounced(h) && !Executing(h)
    requires r.status == Approved
          || (r.status == Pending && !gated(r.capability)
              && (LastAction(r) == Allow || LastAction(r) == ApplySuggestion))
    ensures
      var h' := h + Announce(Begun(r, t));
      TaskOk(gated, h') && AtAttempt(h', Begun(r, t))
  {
    LoggedExtends(r, Last(Begun(r, t).trail));
    AnnounceLegal(gated, h, Begun(r, t));
  }

  lemma LaunchLegal(gated: string -> bool, h: seq<Step>, cfg: Config, world: World, r: TaskRecord, n: nat)
    requires TaskOk(gated, h) && Stored(h) == Some(r) && r.trail != [] && Quiet(h) && !Executing(h)
    requires r.status == Approved || (r.status == Pending && !gated(r.capability) && LastAction(r) == Allow)
    ensures ResultLegal(gated, h, Launch(cfg, world, r, n))
  {
    match world.suggestion
    case SuggestionRaises =>
      assert h + [] == h;
    case NoSuggestion =>
      BeginLegal(gated, h, cfg, world, r, n);
    case Suggestion(adjustment) =>
      var advised := Advised(r, adjustment, cfg.clock(n));
      AdvisedLegal(gated, h, r, adjustment, cfg.clock(n));
      BeginLegal(gated, h + [Saved(advised)], cfg, world, advised, n + 1);
      ThenLegal(gated, h, [Saved(advised)], Begin(cfg, world, advised, n + 1));
  }

  lemma AdvisedLegal(gated: string -> bool, h: seq<Step>, r: TaskRecord, adjustment: Payload, t: int)
    requires TaskOk(gated, h) && Stored(h) == Some(r) && r.trail != [] && Quiet(h) && !Executing(h)
    requires r.status == Approved || (r.status == Pending && !gated(r.capability) && LastAction(r) == Allow)
    ensures
      var advised := Advised(r, adjustment, t);
      var h' := h + [Saved(advised)];
      && TaskOk(gated, h') && Stored(h') == Some(advised) && LastAction(advised) == ApplySuggestion
      && !Unannounced(h') && !Executing(h')
  {
    var advised := Advised(r, adjustment, t);
    LoggedExtends(r, Last(advised.trail));
    Extend(gated, h, Saved(advised));
  }

  lemma AdmitLegal(gated: string -> bool, h: seq<Step>, r: TaskRecord, t: int)
    requires TaskOk(gated, h) && Stored(h) == Some(r) && r.trail != [] && Quiet(h) && !Executing(h)
    requires r.status == Pending && !gated(r.capability)
    ensures
      var h' := h + [Saved(Admit(r, t))];
      && TaskOk(gated, h') && Stored(h') == Some(Admit(r, t)) && Quiet(h') && !Executing(h')
      && LastAction(Admit(r, t)) == Allow
  {
    LoggedExtends(r, Last(Admit(r, t).trail));
    Extend(gated, h, Saved(Admit(r, t)));
  }

  /** The one-step operations: hold, deny, approve, cancel. */
  lemma MoveLegal(gated: string -> bool, h: seq<Step>, r: TaskRecord, next: TaskRecord)
    requires TaskOk(gated, h) && Stored(h) == Some(r) && r.trail != [] && Quiet(h) && !Executing(h)
    requires LegalSave(gated(r.capability), false, r, next) && KindOf(LastAction(next)).Some?
    requires !LastAction(next).Start? && !LastAction(next).Retry?
    ensures
      var h' := h + Announce(next);
      TaskOk(gated, h') && Stored(h') == Some(next) && Quiet(h')
  {
    AnnounceLegal(gated, h, next);
  }

  lemma HeldLegal(g: bool, cfg: Config, world: World, r: TaskRecord, n: nat)
    requires r.trail != [] && r.status == Pending && Run(cfg, world, r, n).steps != []
    requires g == Gated(cfg.registry)(r.capability) && (g || !world.policy.PolicyAllow?)
    ensures
      var o := Run(cfg, world, r, n);
      && LegalSave(g, false, r, o.rec)
      && o.steps == Announce(o.rec) && (LastAction(o.rec) == AwaitApproval || LastAction(o.rec) == Deny)
  {
    LoggedExtends(r, Last(Run(cfg, world, r, n).rec.trail));
  }

  /** Running a stored task from rest takes legal steps only, leaves the task at rest
      and stores the record it returns. */
  lemma RunLegal(h: seq<Step>, cfg: Config, world: World, r: TaskRecord, n: nat)
    requires TaskOk(Gated(cfg.registry), h) && Stored(h) == Some(r) && Quiet(h)
    ensures ResultLegal(Gated(cfg.registry), h, Run(cfg, world, r, n))
  {
    var gated := Gated(cfg.registry);
    var o := Run(cfg, world, r, n);
    PositionOf(gated, h);
    if o.steps == [] {
      assert h + o.steps == h;
    } else if r.status == Approved {
      LaunchLegal(gated, h, cfg, world, r, n);
    } else if gated(r.capability) || !world.policy.PolicyAllow? {
      HeldLegal(gated(r.capability), cfg, world, r, n);
      MoveLegal(gated, h, r, o.rec);
    } else {
      var admitted := Admit(r, cfg.clock(n));
      AdmitLegal(gated, h, r, cfg.clock(n));
      LaunchLegal(gated, h + [Saved(admitted)], cfg, world, admitted, n + 1);
      ThenLegal(gated, h, [Saved(admitted)], Launch(cfg, world, admitted, n + 1));
    }
  }
}

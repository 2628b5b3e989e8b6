/** The task supervisor as an object (engine/supervisor/service.py): its store, queue and
    event log are fields that the operations update.  `journal` records every save,
    emission and execution in order; `Valid` ties the fields to it and says that every
    task's history is legal and at rest between operations. */
module Supervisor {
  import opened Tasks
  import opened RetryPolicies
  import opened Journals
  import opened Runs
  import opened Outcomes
  import opened Schedules
  import opened Timestamps
  import opened RateLimit
  import opened Guild
  import opened Knowledge
  import opened Accounts
  import opened Ledger
  import Transitions

  datatype Result<+T> = Ok(value: T) | Err(error: Error)

  // ---------------------------------------------------------------------------
  // Journals of many tasks
  // ---------------------------------------------------------------------------

  /** Every task's history is legal and no operation on it is under way. */
  ghost predicate AllQuiet(gated: string -> bool, j: seq<Step>) {
    forall id :: TaskOk(gated, For(j, id)) && Quiet(For(j, id))
  }

  lemma AppendStep(j: seq<Step>, s: Step)
    ensures StoreAfter(j + [s]) == if s.Saved? then StoreAfter(j)[s.rec.id := s.rec] else StoreAfter(j)
    ensures Events(j + [s]) == Events(j) + if s.Emitted? then [s.event] else []
  {
    assert Front(j + [s]) == j;
  }

  /** Steps about one task, seen from task `k`. */
  lemma SeenFrom(j: seq<Step>, steps: seq<Step>, id: string, k: string)
    requires OnlyAbout(steps, id)
    ensures For(j + steps, k) == if k == id then For(j, id) + steps else For(j, k)
  {
    ForConcat(j, steps, k);
    ForOwn(steps, id, k);
    assert For(j, k) + [] == For(j, k);
  }

  lemma StoreGains(j: seq<Step>, steps: seq<Step>, id: string, r: TaskRecord)
    requires OnlyAbout(steps, id) && Stored(For(j, id) + steps) == Some(r)
    ensures StoreAfter(j + steps) == StoreAfter(j)[id := r]
  {
    forall k
      ensures k in StoreAfter(j + steps) <==> k == id || k in StoreAfter(j)
      ensures k in StoreAfter(j + steps) ==> StoreAfter(j + steps)[k] == if k == id then r else StoreAfter(j)[k]
    {
      SeenFrom(j, steps, id, k);
      StoreIsStored(j + steps, k);
      StoreIsStored(j, k);
    }
  }

  /** Continuing one task legally to rest leaves the others as they were. */
  lemma OneTaskAdvances(gated: string -> bool, j: seq<Step>, steps: seq<Step>, id: string, r: TaskRecord)
    requires AllQuiet(gated, j)
    requires TaskOk(gated, For(j, id) + steps) && Quiet(For(j, id) + steps)
    requires Stored(For(j, id) + steps) == Some(r) && r.id == id
    ensures AllQuiet(gated, j + steps)
    ensures StoreAfter(j + steps) == StoreAfter(j)[id := r]
  {
    var h := For(j, id) + steps;
    OneTask(gated, h);
    assert OnlyAbout(steps, id) by {
      forall i | 0 <= i < |steps| ensures IdOf(steps[i]) == id { assert steps[i] == h[|For(j, id)| + i]; }
    }
    forall k ensures TaskOk(gated, For(j + steps, k)) && Quiet(For(j + steps, k)) {
      SeenFrom(j, steps, id, k);
    }
    StoreGains(j, steps, id, r);
  }

  /** What later operations may do to a stored record: extend its trail, never touch it once
      its status is terminal, never drop it. */
  ghost predicate Progress(before: map<string, TaskRecord>, after: map<string, TaskRecord>) {
    forall id :: id in before ==>
      && id in after && SameTask(before[id], after[id]) && before[id].trail <= after[id].trail
      && (Terminal(before[id].status) ==> after[id] == before[id])
  }

  lemma {:induction false} PrefixOk(gated: string -> bool, h: seq<Step>, k: nat)
    requires TaskOk(gated, h) && k <= |h|
    ensures TaskOk(gated, h[..k])
  {
    if k < |h| {
      PrefixOk(gated, Front(h), k);
      assert Front(h)[..k] == h[..k];
    } else {
      assert h[..k] == h;
    }
  }

  lemma {:induction false} HistoryProgress(gated: string -> bool, g: seq<Step>, h: seq<Step>)
    requires TaskOk(gated, g + h) && g != []
    ensures Stored(g).Some? && Stored(g + h).Some?
    ensures
      var a, b := Stored(g).value, Stored(g + h).value;
      SameTask(a, b) && a.trail <= b.trail && (Terminal(a.status) && Quiet(g) ==> a == b)
  {
    assert (g + h)[..|g|] == g;
    PrefixOk(gated, g + h, |g|);
    PositionOf(gated, g);
    PositionOf(gated, g + h);
    if h == [] {
      assert g + h == g;
    } else {
      var h' := Front(h);
      assert Front(g + h) == g + h';
      assert Last(g + h) == Last(h);
      HistoryProgress(gated, g, h');
      PositionOf(gated, g + h');
      var a, b := Stored(g + h').value, Stored(g + h).value;
      assert a.trail <= b.trail;
    }
  }

  /** Over any further legal activity the store only makes progress. */
  lemma StoreProgress(gated: string -> bool, j: seq<Step>, more: seq<Step>)
    requires AllQuiet(gated, j) && AllQuiet(gated, j + more)
    ensures Progress(StoreAfter(j), StoreAfter(j + more))
  {
    forall id | id in StoreAfter(j)
      ensures
        var a, b := StoreAfter(j), StoreAfter(j + more);
        && id in b && SameTask(a[id], b[id]) && a[id].trail <= b[id].trail
        && (Terminal(a[id].status) ==> b[id] == a[id])
    {
      StoreIsStored(j, id);
      StoreIsStored(j + more, id);
      ForConcat(j, more, id);
      HistoryProgress(gated, For(j, id), For(more, id));
    }
  }

  // ---------------------------------------------------------------------------
  // The supervisor
  // ---------------------------------------------------------------------------

  function Interval(registry: map<string, CapabilityInfo>): string -> Option<real> {
    c => if c in registry then registry[c].minInterval else None
  }

  /** How one pass through the retry loop ends: round again, with the run finished, with
      retries exhausted and the task still to be failed, or torn down. */
  datatype Turn = GoRound | Ended | Exhausted | TornDown

  /** The loop has done what pass `p` says, except that failing the task for good is left
      to the code after the loop, at time `t`. */
  ghost predicate Took(p: Pass, task: TaskRecord, failures: seq<FailureContext>, turn: Turn,
                       before: seq<Step>, after: seq<Step>, startedAt: int, t: int)
  {
    match turn
    case GoRound => p.Again? && p.rec == task && p.failures == failures && after == before + p.steps
    case Ended => p.Over? && p.result.rec == task && p.result.failures == failures && p.result.error == None
                  && after == before + p.result.steps
    case TornDown => p.Over? && p.result.rec == task && p.result.failures == failures
                     && p.result.error == Some(Aborted) && after == before + p.result.steps
    case Exhausted =>
      && p.Over? && failures != []
      && var failed := GaveUp(task, Last(failures).errorMessage, startedAt, t);
         && p.result.rec == failed && p.result.failures == failures && p.result.error == None
         && before + p.result.steps == after + Announce(failed)
  }

  lemma TookAfter(steps: seq<Step>, p: Pass, task: TaskRecord, failures: seq<FailureContext>, turn: Turn,
                  before: seq<Step>, mid: seq<Step>, after: seq<Step>, startedAt: int, t: int)
    requires Took(p, task, failures, turn, mid, after, startedAt, t) && mid == before + steps
    ensures Took(After(steps, p), task, failures, turn, before, after, startedAt, t)
  {
    var more := if p.Over? then p.result.steps else p.steps;
    assert before + steps + more == before + (steps + more);
  }

  /** What is left of run `total`, begun with `base` in the journal: the loop stands at
      attempt `r.attempt` with `now` in the journal. */
  ghost predicate Remaining(cfg: Config, world: World, r: TaskRecord, failures: seq<FailureContext>, startedAt: int,
                            total: RunResult, base: seq<Step>, now: seq<Step>)
  {
    && 1 <= r.attempt && base <= now
    && total == Then(now[|base|..], Attempts(cfg, world, r, failures, startedAt, |now|))
  }

  /** A pass that goes round leaves the rest of the run to the next one. */
  lemma LoopGoesRound(cfg: Config, world: World, r: TaskRecord, failures: seq<FailureContext>, startedAt: int,
                      total: RunResult, base: seq<Step>, now: seq<Step>,
                      r': TaskRecord, failures': seq<FailureContext>, then': seq<Step>, t: int)
    requires Remaining(cfg, world, r, failures, startedAt, total, base, now)
    requires Took(OnePass(cfg, world, r, failures, startedAt, |now|), r', failures', GoRound, now, then', startedAt, t)
    ensures Remaining(cfg, world, r', failures', startedAt, total, base, then') && RetriesLeft(r') < RetriesLeft(r)
  {
    var p := OnePass(cfg, world, r, failures, startedAt, |now|);
    OnePassStamped(cfg, world, r, failures, startedAt, |now|);
    Regrouped(base, now, p.steps, Attempts(cfg, world, r', failures', startedAt, |now| + 4).steps);
  }

  lemma Regrouped(base: seq<Step>, now: seq<Step>, steps: seq<Step>, rest: seq<Step>)
    requires base <= now
    ensures base <= now + steps && (now + steps)[|base|..] + rest == now[|base|..] + (steps + rest)
  {
    assert (now + steps)[|base|..] == now[|base|..] + steps;
  }

  /** Any other pass completes it. */
  lemma LoopEnds(cfg: Config, world: World, r: TaskRecord, failures: seq<FailureContext>, startedAt: int,
                 total: RunResult, base: seq<Step>, now: seq<Step>,
                 r': TaskRecord, failures': seq<FailureContext>, turn: Turn, then': seq<Step>, t: int)
    requires Remaining(cfg, world, r, failures, startedAt, total, base, now) && turn != GoRound
    requires Took(OnePass(cfg, world, r, failures, startedAt, |now|), r', failures', turn, now, then', startedAt, t)
    ensures Took(Over(total), r', failures', turn, base, then', startedAt, t)
  {
    var p := OnePass(cfg, world, r, failures, startedAt, |now|);
    assert now == base + now[|base|..];
    TookAfter(now[|base|..], p, r', failures', turn, base, now, then', startedAt, t);
  }

  /** One pass either leaves the rest of the run to the next one or completes it. */
  lemma LoopStep(cfg: Config, world: World, r: TaskRecord, failures: seq<FailureContext>, startedAt: int,
                 total: RunResult, base: seq<Step>, now: seq<Step>,
                 r': TaskRecord, failures': seq<FailureContext>, turn: Turn, then': seq<Step>, t: int)
    requires Remaining(cfg, world, r, failures, startedAt, total, base, now)
    requires Took(OnePass(cfg, world, r, failures, startedAt, |now|), r', failures', turn, now, then', startedAt, t)
    ensures turn == GoRound ==>
      && Remaining(cfg, world, r', failures', startedAt, total, base, then')
      && RetriesLeft(r') < RetriesLeft(r)
    ensures turn != GoRound ==> Took(Over(total), r', failures', turn, base, then', startedAt, t)
  {
    if turn == GoRound {
      LoopGoesRound(cfg, world, r, failures, startedAt, total, base, now, r', failures', then', t);
    } else {
      LoopEnds(cfg, world, r, failures, startedAt, total, base, now, r', failures', turn, then', t);
    }
  }

  /** Running a stored task keeps everything `Valid` says of the journal and the store. */
  lemma RunKeepsValid(cfg: Config, world: World, j: seq<Step>, id: string, r: TaskRecord)
    requires AllQuiet(Gated(cfg.registry), j) && Stamped(cfg.clock, 0, j)
    requires id in StoreAfter(j) && StoreAfter(j)[id] == r
    ensures
      var o := Run(cfg, world, r, |j|);
      && AllQuiet(Gated(cfg.registry), j + o.steps) && Stamped(cfg.clock, 0, j + o.steps)
      && StoreAfter(j + o.steps) == StoreAfter(j)[id := o.rec]
  {
    var gated := Gated(cfg.registry);
    var o := Run(cfg, world, r, |j|);
    StoreIsStored(j, id);
    RunLegal(For(j, id), cfg, world, r, |j|);
    OwnRecord(gated, j, id);
    RunKeepsId(cfg, world, j, id, r);
    OneTaskAdvances(gated, j, o.steps, id, o.rec);
    RunStamped(cfg, world, r, |j|);
    JournalStamped(cfg.clock, j, o.steps);
  }

  lemma {:induction false} OwnHistory(j: seq<Step>, id: string)
    ensures OnlyAbout(For(j, id), id)
  {
    if j != [] {
      OwnHistory(Front(j), id);
    }
  }

  lemma OwnRecord(gated: string -> bool, j: seq<Step>, id: string)
    requires TaskOk(gated, For(j, id)) && For(j, id) != []
    ensures Stored(For(j, id)).Some? && Stored(For(j, id)).value.id == id
  {
    OwnHistory(j, id);
    OneTask(gated, For(j, id));
    assert IdOf(For(j, id)[0]) == id;
  }

  lemma RunKeepsId(cfg: Config, world: World, j: seq<Step>, id: string, r: TaskRecord)
    requires AllQuiet(Gated(cfg.registry), j) && Stored(For(j, id)) == Some(r) && r.id == id
    ensures Run(cfg, world, r, |j|).rec.id == id
  {
    var gated := Gated(cfg.registry);
    var o := Run(cfg, world, r, |j|);
    RunLegal(For(j, id), cfg, world, r, |j|);
    HistoryProgress(gated, For(j, id), o.steps);
  }

  lemma BeginIs(cfg: Config, world: World, ready: TaskRecord, n: nat, o: RunResult, before: seq<Step>, after: seq<Step>)
    requires o == Attempts(cfg, world, Begun(ready, cfg.clock(n)), [], cfg.clock(n), n + 2)
    requires after == before + Announce(Begun(ready, cfg.clock(n))) + o.steps
    ensures
      var l := Begin(cfg, world, ready, n);
      after == before + l.steps && l.rec == o.rec && l.failures == o.failures && l.error == o.error
  {
    var start := Announce(Begun(ready, cfg.clock(n)));
    assert before + start + o.steps == before + (start + o.steps);
  }

  /** The record as it starts, and the steps that got it there from authorisation. */
  function Ready(world: World, r: TaskRecord, t: int): TaskRecord {
    if world.suggestion.Suggestion? then Advised(r, world.suggestion.adjustment, t) else r
  }

  function Advice(world: World, r: TaskRecord, t: int): seq<Step> {
    if world.suggestion.Suggestion? then [Saved(Ready(world, r, t))] else []
  }

  lemma StepsFirst(steps: seq<Step>, o: RunResult, before: seq<Step>, after: seq<Step>)
    requires after == before + steps + o.steps
    ensures after == before + Then(steps, o).steps
  {
    assert before + steps + o.steps == before + (steps + o.steps);
  }

  lemma AdvisedLaunch(cfg: Config, world: World, r: TaskRecord, n: nat, o: RunResult)
    requires world.suggestion.Suggestion?
    requires o == Begin(cfg, world, Ready(world, r, cfg.clock(n)), n + 1)
    ensures Launch(cfg, world, r, n) == Then(Advice(world, r, cfg.clock(n)), o)
  {
  }

  lemma PlainLaunch(cfg: Config, world: World, r: TaskRecord, n: nat, o: RunResult)
    requires world.suggestion.NoSuggestion?
    requires o == Begin(cfg, world, r, n)
    ensures Launch(cfg, world, r, n) == o == Then([], o)
  {
    assert [] + o.steps == o.steps;
  }

  lemma LaunchIs(cfg: Config, world: World, r: TaskRecord, n: nat, o: RunResult, before: seq<Step>, after: seq<Step>)
    requires !world.suggestion.SuggestionRaises?
    requires o == Begin(cfg, world, Ready(world, r, cfg.clock(n)), n + |Advice(world, r, cfg.clock(n))|)
    requires after == before + Advice(world, r, cfg.clock(n)) + o.steps
    ensures
      var l := Launch(cfg, world, r, n);
      after == before + l.steps && l.rec == o.rec && l.failures == o.failures && l.error == o.error
  {
    if world.suggestion.Suggestion? {
      AdvisedLaunch(cfg, world, r, n, o);
    } else {
      PlainLaunch(cfg, world, r, n, o);
    }
    StepsFirst(Advice(world, r, cfg.clock(n)), o, before, after);
  }

  lemma RunIs(cfg: Config, world: World, r: TaskRecord, n: nat, o: RunResult, before: seq<Step>, after: seq<Step>)
    requires Launches(cfg, world, r) || world.suggestion.SuggestionRaises?
    requires Executable(r.status) && ValidSubmission(cfg.registry, r.name, r.capability, r.input)
    requires r.status == Approved || (!Gated(cfg.registry)(r.capability) && world.policy.PolicyAllow?)
    requires
      if r.status == Approved then o == Launch(cfg, world, r, n) && after == before + o.steps
      else
        && o == Launch(cfg, world, Admit(r, cfg.clock(n)), n + 1)
        && after == before + [Saved(Admit(r, cfg.clock(n)))] + o.steps
    ensures
      var l := Run(cfg, world, r, n);
      after == before + l.steps && l.rec == o.rec && l.failures == o.failures && l.error == o.error
  {
    var admitted := [Saved(Admit(r, cfg.clock(n)))];
    assert before + admitted + o.steps == before + (admitted + o.steps);
  }

  /** A move out of rest keeps everything `Valid` says of the journal and the store. */
  lemma MoveKeepsValid(cfg: Config, j: seq<Step>, id: string, r: TaskRecord, next: TaskRecord)
    requires AllQuiet(Gated(cfg.registry), j) && Stamped(cfg.clock, 0, j)
    requires id in StoreAfter(j) && StoreAfter(j)[id] == r && r.status == AwaitingApproval
    requires SameTask(r, next) && next.trail != [] && Front(next.trail) == r.trail
    requires next.attempt == r.attempt && Moves(Last(next.trail), r, next)
    requires (LastAction(next) == Approve && next.status == Approved)
          || (LastAction(next) == Cancel && next.status == Cancelled)
    requires Last(next.trail).timestamp == cfg.clock(|j|)
    ensures
      var steps := Announce(next);
      && AllQuiet(Gated(cfg.registry), j + steps) && Stamped(cfg.clock, 0, j + steps)
      && StoreAfter(j + steps) == StoreAfter(j)[id := next]
  {
    var gated := Gated(cfg.registry);
    StoreIsStored(j, id);
    PositionOf(gated, For(j, id));
    OwnRecord(gated, j, id);
    VerdictSave(gated(r.capability), r, next);
    MoveLegal(gated, For(j, id), r, next);
    OneTaskAdvances(gated, j, Announce(next), id, next);
    SaveStamped(cfg.clock, |j|, next);
    JournalStamped(cfg.clock, j, Announce(next));
  }

  lemma VerdictSave(g: bool, r: TaskRecord, next: TaskRecord)
    requires r.trail != [] && r.status == AwaitingApproval
    requires SameTask(r, next) && next.trail != [] && Front(next.trail) == r.trail
    requires next.attempt == r.attempt && Moves(Last(next.trail), r, next)
    requires (LastAction(next) == Approve && next.status == Approved)
          || (LastAction(next) == Cancel && next.status == Cancelled)
    ensures LegalSave(g, false, r, next)
  {
  }

  lemma BirthLegal(gated: string -> bool, submission: TaskSubmission, id: string, t: int)
    ensures
      var r := NewRecord(submission, id, t);
      TaskOk(gated, [Saved(r)]) && Stored([Saved(r)]) == Some(r) && Quiet([Saved(r)])
  {
    var r := NewRecord(submission, id, t);
    Extend(gated, [], Saved(r));
    assert [] + [Saved(r)] == [Saved(r)];
  }

  /** An id not in the store has no history. */
  lemma NoHistory(gated: string -> bool, j: seq<Step>, id: string)
    requires TaskOk(gated, For(j, id)) && id !in StoreAfter(j)
    ensures For(j, id) == []
  {
    StoreIsStored(j, id);
    if For(j, id) != [] {
      PositionOf(gated, For(j, id));
    }
  }

  /** So does the first save of a task whose id is not in use. */
  lemma BirthKeepsValid(cfg: Config, j: seq<Step>, submission: TaskSubmission, id: string)
    requires AllQuiet(Gated(cfg.registry), j) && Stamped(cfg.clock, 0, j) && id !in StoreAfter(j)
    ensures
      var r := NewRecord(submission, id, cfg.clock(|j|));
      && AllQuiet(Gated(cfg.registry), j + [Saved(r)]) && Stamped(cfg.clock, 0, j + [Saved(r)])
      && StoreAfter(j + [Saved(r)]) == StoreAfter(j)[id := r]
  {
    var gated := Gated(cfg.registry);
    var r := NewRecord(submission, id, cfg.clock(|j|));
    NoHistory(gated, j, id);
    BirthLegal(gated, submission, id, cfg.clock(|j|));
    assert For(j, id) + [Saved(r)] == [Saved(r)];
    OneTaskAdvances(gated, j, [Saved(r)], id, r);
    SaveStamped(cfg.clock, |j|, r);
    JournalStamped(cfg.clock, j, [Saved(r)]);
  }

  /** Running a stored task that evicts nothing keeps the books balanced. */
  lemma BooksKept(cfg: Config, world: World, j: seq<Step>, id: string, g: GuildSettings, rs: seq<GuildRecord>,
                  successes: nat, failures: nat)
    requires AllQuiet(Gated(cfg.registry), j) && id in StoreAfter(j)
    requires g.enabled && UniqueKeys(rs) && Evicted(g, cfg, world, rs, StoreAfter(j)[id], |j|) == 0
    requires Balanced(StoreAfter(j), rs, successes, failures)
    ensures
      var r := StoreAfter(j)[id];
      Balanced(StoreAfter(j)[id := Run(cfg, world, r, |j|).rec], GuildAfter(g, cfg, world, rs, r, |j|),
               successes, failures)
  {
    StoreIsStored(j, id);
    RunBalances(For(j, id), cfg, world, StoreAfter(j), id, |j|, g, rs, successes, failures);
  }

  lemma Overwritten(store: map<string, TaskRecord>, id: string, a: TaskRecord, b: TaskRecord)
    ensures store[id := a][id := b] == store[id := b]
  {
  }

  /** What has become of a submission that was accepted and run at once: its task is the one that
      was submitted, and it completed exactly when it needed no approval, the policy allowed
      it, the suggestion did not fail, and some attempt within the limit of its own retries is
      the first not to fail and succeeds. */
  ghost predicate AsSubmitted(cfg: Config, world: World, submission: TaskSubmission, id: string, r: TaskRecord) {
    && r.id == id && r.name == submission.name && r.capability == submission.capability
    && r.maxRetries == submission.maxRetries && r.workflowId == submission.workflowId
    && (r.status == Completed <==>
          && submission.capability in cfg.registry && !cfg.registry[submission.capability].requireApproval
          && world.policy.PolicyAllow? && !world.suggestion.SuggestionRaises?
          && exists s :: 1 <= s <= Limit(submission.maxRetries, cfg.escalation) && world.attempts(s).Succeeds?
                         && forall i :: 1 <= i < s ==> world.attempts(i).Fails?)
  }

  lemma SubmissionOutcome(cfg: Config, world: World, submission: TaskSubmission, id: string, t: int, n: nat)
    requires ValidSubmission(cfg.registry, submission.name, submission.capability, submission.input)
    ensures AsSubmitted(cfg, world, submission, id, Run(cfg, world, NewRecord(submission, id, t), n).rec)
  {
    var r := NewRecord(submission, id, t);
    Transitions.RunKeepsTask(cfg, world, r, n);
    if Launches(cfg, world, r) {
      CompletedIff(cfg, world, r, n);
    } else {
      IdleRun(cfg, world, r, n);
    }
  }

  /** Which submissions are accepted: those with a name and a capability that are not just white
      space, for a registered capability that accepts the input. */
  lemma AcceptedIff(cfg: Config, submission: TaskSubmission)
    ensures ValidSubmission(cfg.registry, submission.name, submission.capability, submission.input) <==>
            && (exists i :: 0 <= i < |submission.name| && !Space(submission.name[i]))
            && (exists i :: 0 <= i < |submission.capability| && !Space(submission.capability[i]))
            && submission.capability in cfg.registry
            && cfg.registry[submission.capability].accepts(submission.input)
  {
  }

  /** The public operations, for runs of arbitrary length. */
  datatype Operation =
    | SubmitOp(submission: TaskSubmission, id: string)
    | RunSubmissionOp(submission: TaskSubmission, id: string, world: World)
    | RunNextOp(world: World)
    | RunTaskOp(id: string, world: World)
    | ApproveOp(id: string, actor: string, run: bool, world: World)
    | CancelOp(id: string, actor: string, reason: Option<string>)

  predicate Creates(op: Operation, id: string) {
    (op.SubmitOp? || op.RunSubmissionOp?) && op.id == id
  }

  /** New tasks get ids that are in use nowhere else. */
  ghost predicate FreshIds(ops: seq<Operation>, known: set<string>) {
    && (forall i, id :: 0 <= i < |ops| && Creates(ops[i], id) ==> id !in known)
    && (forall i, k, id :: 0 <= i < k < |ops| && Creates(ops[i], id) ==> !Creates(ops[k], id))
  }

  class TaskSupervisor {
    const cfg: Config
    const capacity: Option<int>
    const guild: KnowledgeBase?
    var store: map<string, TaskRecord>
    var queue: seq<string>
    var events: seq<TaskEvent>
    var ticks: nat
    var lastStart: map<string, real>
    var monotonic: real
    ghost var journal: seq<Step>
    ghost var starts: seq<StartTime>
    ghost var evicted: nat
    ghost const successesBefore: nat
    ghost const failuresBefore: nat

    /** The fields are what the journal says. */
    ghost predicate Tracks()
      reads this
    {
      ticks == |journal| && store == StoreAfter(journal) && events == Events(journal)
    }

    ghost predicate Valid()
      reads this, guild
    {
      && Tracks()
      && AllQuiet(Gated(cfg.registry), journal)
      && Stamped(cfg.clock, 0, journal)
      && (forall id :: id in queue ==> id in store)
      && Paced(Interval(cfg.registry), starts, lastStart, monotonic)
      && (guild != null ==> guild.Valid())
    }

    /** As long as no run has evicted a record, the guild's totals have grown by exactly the
        tasks that completed and the executions of those that failed or were escalated. */
    ghost predicate Accounted()
      reads this, guild
    {
      guild != null && guild.enabled && evicted == 0 ==>
        Balanced(store, guild.records, successesBefore, failuresBefore)
    }

    /** Is the guild, if there is one, below its limit? */
    predicate Roomy()
      reads this, guild
    {
      guild != null ==> BelowLimit(guild.maxRecords, guild.records)
    }

    ghost function Settings(): GuildSettings
      requires guild != null
    {
      GuildSettings(guild.enabled, guild.project, guild.maxRecords, guild.emptyInput)
    }

    constructor (cfg: Config, capacity: Option<int>, guild: KnowledgeBase?)
      requires guild != null ==> guild.Valid()
      ensures Valid() && store == map[] && queue == [] && events == [] && journal == []
      ensures Accounted() && evicted == 0
      ensures guild != null ==>
        successesBefore == TotalSuccesses(guild.records) && failuresBefore == TotalFailures(guild.records)
      ensures this.cfg == cfg && this.capacity == capacity && this.guild == guild
    {
      this.cfg, this.capacity, this.guild := cfg, capacity, guild;
      store, queue, events, ticks := map[], [], [], 0;
      lastStart, monotonic, journal, starts := map[], 0.0, [], [];
      evicted := 0;
      successesBefore := if guild == null then 0 else TotalSuccesses(guild.records);
      failuresBefore := if guild == null then 0 else TotalFailures(guild.records);
    }

    // ----- single steps -------------------------------------------------------

    method SaveTask(task: TaskRecord)
      requires Tracks()
      modifies this`store, this`ticks, this`journal
      ensures Tracks() && journal == old(journal) + [Saved(task)] && store == old(store)[task.id := task]
    {
      AppendStep(journal, Saved(task));
      store := store[task.id := task];
      ticks := ticks + 1;
      journal := journal + [Saved(task)];
    }

    method EmitEvent(task: TaskRecord)
      requires Tracks() && task.trail != [] && KindOf(LastAction(task)).Some?
      modifies this`events, this`ticks, this`journal
      ensures Tracks() && journal == old(journal) + [Emitted(EventFor(task))]
    {
      AppendStep(journal, Emitted(EventFor(task)));
      events := events + [EventFor(task)];
      ticks := ticks + 1;
      journal := journal + [Emitted(EventFor(task))];
    }

    /** The capability's turn; the world decides how it ends. */
    method Execute(task: TaskRecord, world: World) returns (outcome: Outcome)
      requires Tracks()
      modifies this`ticks, this`journal
      ensures Tracks() && journal == old(journal) + [Executed(task.id, task.attempt, task.input)]
      ensures outcome == world.attempts(task.attempt)
    {
      AppendStep(journal, Executed(task.id, task.attempt, task.input));
      ticks := ticks + 1;
      journal := journal + [Executed(task.id, task.attempt, task.input)];
      outcome := world.attempts(task.attempt);
    }

    /** `_transition_status`: log the move, save, then announce. */
    method TransitionStatus(task: TaskRecord, to: Status, actor: string, action: Action) returns (t: TaskRecord)
      requires Tracks() && KindOf(action).Some?
      modifies this`store, this`events, this`ticks, this`journal
      ensures Tracks() && t == Moved(task, to, cfg.clock(old(ticks)), actor, action)
      ensures journal == old(journal) + Announce(t)
    {
      var now := cfg.clock(ticks);
      t := task.(status := to);
      t := t.(trail := t.trail + [AuditEntry(now, actor, action, Some(task.status), Some(to))], updatedAt := now);
      SaveTask(t);
      EmitEvent(t);
    }

    /** Append an audit entry that changes no status, and save. */
    method LogAndSave(task: TaskRecord, actor: string, action: Action, from: Option<Status>, to: Option<Status>)
      returns (t: TaskRecord)
      requires Tracks()
      modifies this`store, this`ticks, this`journal
      ensures Tracks() && t == Logged(task, cfg.clock(old(ticks)), actor, action, from, to)
      ensures journal == old(journal) + [Saved(t)]
    {
      var now := cfg.clock(ticks);
      t := task.(trail := task.trail + [AuditEntry(now, actor, action, from, to)], updatedAt := now);
      SaveTask(t);
    }

    /** `_wait_for_execution_window`: sleep until the interval since the last start is over. */
    method WaitForExecutionWindow(capability: string, world: World)
      requires capability in cfg.registry
      requires Paced(Interval(cfg.registry), starts, lastStart, monotonic)
      modifies this`lastStart, this`monotonic, this`starts
      ensures Paced(Interval(cfg.registry), starts, lastStart, monotonic)
      ensures starts == old(starts) +
        if cfg.registry[capability].minInterval.Some? then [StartTime(capability, monotonic)] else []
      ensures cfg.registry[capability].minInterval.None? ==> monotonic == old(monotonic) && lastStart == old(lastStart)
      ensures cfg.registry[capability].minInterval.Some? ==>
        var asked := old(monotonic) + world.elapsed;
        && lastStart == old(lastStart)[capability := monotonic]
        && monotonic ==
           if capability !in old(lastStart)
              || old(lastStart)[capability] + cfg.registry[capability].minInterval.value <= asked
           then asked
           else old(lastStart)[capability] + cfg.registry[capability].minInterval.value + world.overslept
    {
      var interval := cfg.registry[capability].minInterval;
      if interval.None? {
        return;
      }
      var now := monotonic + world.elapsed;
      if capability in lastStart {
        var sleepFor := interval.value - (now - lastStart[capability]);
        SleepSuffices(lastStart[capability], interval.value, now, world.overslept);
        if sleepFor > 0.0 {
          now := now + sleepFor + world.overslept;
        }
      }
      StartRecorded(Interval(cfg.registry), starts, lastStart, monotonic, capability, now);
      starts := starts + [StartTime(capability, now)];
      lastStart := lastStart[capability := now];
      monotonic := now;
    }

    // ----- the retry loop -----------------------------------------------------

    method PublishFailures(task: TaskRecord, failures: seq<FailureContext>, hint: string, world: World)
      requires guild != null ==> guild.Valid()
      modifies guild
      ensures guild != null ==> guild.Valid()
      ensures guild != null ==>
        (guild.records ==
         if guild.enabled
         then Evict(ReportAll(old(guild.records), NoticeOf(Settings(), task.capability, Some(hint)), failures,
                              guild.emptyInput, world.guildClock), guild.maxRecords)
         else old(guild.records))
    {
      if guild != null && guild.enabled {
        var _ := guild.Publish(Notice(task.capability, None, Some(hint), None, None), failures, world.guildClock);
      }
    }

    method PublishSuccess(task: TaskRecord, world: World)
      requires guild != null ==> guild.Valid()
      modifies guild
      ensures guild != null ==> guild.Valid()
      ensures guild != null ==>
        (guild.records ==
         if guild.enabled
         then Evict(ReportSuccess(old(guild.records), NoticeOf(Settings(), task.capability, None),
                                  cfg.fingerprint(task.input), world.guildClock(0)), guild.maxRecords)
         else old(guild.records))
    {
      if guild != null && guild.enabled {
        guild.PublishSuccess(Notice(task.capability, None, None, None, None), cfg.fingerprint(task.input),
                             world.guildClock(0));
      }
    }

    /** `_do_escalate`. */
    method DoEscalate(task: TaskRecord, failures: seq<FailureContext>, message: string, startedAt: int, world: World)
      returns (t: TaskRecord)
      requires Tracks() && (guild != null ==> guild.Valid())
      modifies this`store, this`events, this`ticks, this`journal, guild
      ensures Tracks() && t == HandedOver(task, message, |failures|, startedAt, cfg.clock(old(ticks)))
      ensures journal == old(journal) + Announce(t)
      ensures guild != null ==> guild.Valid()
      ensures guild != null ==>
        (guild.records ==
         Learned(Settings(), cfg.fingerprint, old(guild.records), t, failures, None, world.guildClock))
    {
      var result := TaskResult(false, None, Some(message), Some(startedAt), cfg.clock(ticks));
      t := TransitionStatus(task.(result := Some(result)), Escalated, "supervisor", Escalate(task.attempt, |failures|));
      PublishFailures(t, failures, ESCALATED_HINT, world);
    }

    /** After a recorded failure: retry, escalate, or leave the loop with the task to be
        failed.  The cases are those of `AfterFailure`. */
    method ReactToFailure(noted: TaskRecord, failures: seq<FailureContext>, decision: RetryDecision, message: string,
                          startedAt: int, world: World) returns (task: TaskRecord, turn: Turn)
      requires Tracks() && (guild != null ==> guild.Valid())
      requires failures != [] && Last(failures).errorMessage == message
      modifies this`store, this`events, this`ticks, this`journal, guild
      ensures Tracks() && (guild != null ==> guild.Valid())
      ensures Took(AfterFailure(cfg.escalation, noted, failures, decision, message, startedAt, cfg.clock(old(ticks))),
                   task, failures, turn, old(journal), journal, startedAt, cfg.clock(ticks))
      ensures guild != null ==>
        (guild.records ==
         if turn == Ended
         then Learned(Settings(), cfg.fingerprint, old(guild.records), task, failures, None, world.guildClock)
         else old(guild.records))
    {
      task := noted;
      if !decision.shouldRetry {
        if decision.escalate || ShouldEscalate(cfg.escalation, |failures|) {
          task := DoEscalate(task, failures, message, startedAt, world);
          turn := Ended;
        } else {
          turn := Exhausted;
        }
        return;
      }
      task := task.(attempt := task.attempt + 1);
      if decision.adjustedInput.Some? {
        task := task.(input := decision.adjustedInput.value);
      }
      if ShouldEscalate(cfg.escalation, |failures|) {
        task := DoEscalate(task, failures, message, startedAt, world);
        turn := Ended;
        return;
      }
      task := LogAndSave(task, "supervisor", Retry(task.attempt), Some(Running), Some(Running));
      EmitEvent(task);
      turn := GoRound;
    }

    /** One pass through the loop; the cases are those of `OnePass`. */
    method OneAttempt(start: TaskRecord, before: seq<FailureContext>, world: World, startedAt: int)
      returns (task: TaskRecord, failures: seq<FailureContext>, turn: Turn)
      requires Tracks() && 1 <= start.attempt && (guild != null ==> guild.Valid())
      modifies this`store, this`events, this`ticks, this`journal, guild
      ensures Tracks() && (guild != null ==> guild.Valid())
      ensures Took(OnePass(cfg, world, start, before, startedAt, old(ticks)), task, failures, turn,
                   old(journal), journal, startedAt, cfg.clock(ticks))
      ensures guild != null ==>
        (guild.records ==
         if turn == Ended
         then Learned(Settings(), cfg.fingerprint, old(guild.records), task, failures, None, world.guildClock)
         else old(guild.records))
    {
      var outcome := Execute(start, world);
      task, failures := start, before;
      if outcome.Aborts? {
        turn := TornDown;
        return;
      }
      if outcome.Succeeds? {
        var result := TaskResult(true, outcome.output, None, Some(startedAt), cfg.clock(ticks));
        task := TransitionStatus(task.(result := Some(result)), Completed, "supervisor", Complete(task.attempt));
        PublishSuccess(task, world);
        turn := Ended;
        return;
      }
      task, failures, turn := HandleFailure(start, before, outcome, world, startedAt, old(journal));
    }

    /** The `except` branch: record the failure, then react to it. */
    method HandleFailure(start: TaskRecord, before: seq<FailureContext>, outcome: Outcome, world: World, startedAt: int,
                         ghost base: seq<Step>)
      returns (task: TaskRecord, failures: seq<FailureContext>, turn: Turn)
      requires Tracks() && 1 <= start.attempt && (guild != null ==> guild.Valid())
      requires outcome.Fails? && outcome == world.attempts(start.attempt)
      requires journal == base + [Executed(start.id, start.attempt, start.input)]
      modifies this`store, this`events, this`ticks, this`journal, guild
      ensures Tracks() && (guild != null ==> guild.Valid())
      ensures Took(OnePass(cfg, world, start, before, startedAt, |base|), task, failures, turn,
                   base, journal, startedAt, cfg.clock(ticks))
      ensures guild != null ==>
        (guild.records ==
         if turn == Ended
         then Learned(Settings(), cfg.fingerprint, old(guild.records), task, failures, None, world.guildClock)
         else old(guild.records))
    {
      var failure := FailureOf(cfg, start, outcome);
      failures := before + [failure];
      var decision := Verdict(cfg, world, start);
      task := LogAndSave(start, "supervisor", RecordFailure(failure), None, None);
      ghost var noted, mid, t := task, journal, cfg.clock(ticks);
      task, turn := ReactToFailure(task, failures, decision, outcome.message, startedAt, world);
      TookAfter([Executed(start.id, start.attempt, start.input)] + [Saved(noted)],
                AfterFailure(cfg.escalation, noted, failures, decision, outcome.message, startedAt, t),
                task, failures, turn, base, mid, journal, startedAt, cfg.clock(ticks));
    }

    /** The loop itself: pass after pass until one does not go round. */
    method RunAttempts(begun: TaskRecord, world: World, startedAt: int)
      returns (task: TaskRecord, failures: seq<FailureContext>, turn: Turn)
      requires Tracks() && 1 <= begun.attempt && (guild != null ==> guild.Valid())
      modifies this`store, this`events, this`ticks, this`journal, guild
      ensures Tracks() && (guild != null ==> guild.Valid()) && turn != GoRound
      ensures Took(Over(Attempts(cfg, world, begun, [], startedAt, old(ticks))), task, failures, turn,
                   old(journal), journal, startedAt, cfg.clock(ticks))
      ensures guild != null ==>
        (guild.records ==
         if turn == Ended
         then Learned(Settings(), cfg.fingerprint, old(guild.records), task, failures, None, world.guildClock)
         else old(guild.records))
    {
      task, failures := begun, [];
      ghost var total := Attempts(cfg, world, begun, [], startedAt, ticks);
      assert Remaining(cfg, world, task, failures, startedAt, total, journal, journal);
      while true
        invariant Tracks()
        invariant Remaining(cfg, world, task, failures, startedAt, total, old(journal), journal)
        invariant guild != null ==> guild.Valid() && guild.records == old(guild.records)
        decreases RetriesLeft(task)
      {
        ghost var r, fs, j := task, failures, journal;
        task, failures, turn := OneAttempt(task, failures, world, startedAt);
        LoopStep(cfg, world, r, fs, startedAt, total, old(journal), j, task, failures, turn, journal, cfg.clock(ticks));
        if turn != GoRound {
          return;
        }
      }
    }

    /** Run the attempts of a task that has just started, to the end of its run. */
    method RetryLoop(begun: TaskRecord, world: World, startedAt: int) returns (task: TaskRecord, error: Option<Error>)
      requires Tracks() && 1 <= begun.attempt && (guild != null ==> guild.Valid())
      modifies this`store, this`events, this`ticks, this`journal, guild
      ensures Tracks() && (guild != null ==> guild.Valid())
      ensures
        var o := Attempts(cfg, world, begun, [], startedAt, old(ticks));
        && journal == old(journal) + o.steps && task == o.rec && error == o.error
        && (guild != null ==>
              guild.records ==
              Learned(Settings(), cfg.fingerprint, old(guild.records), o.rec, o.failures, o.error, world.guildClock))
    {
      var failures, turn;
      task, failures, turn := RunAttempts(begun, world, startedAt);
      error := None;
      if turn == TornDown {
        error := Some(Aborted);
      } else if turn == Exhausted {
        task := FailTask(task, failures, startedAt, world);
      }
    }

    /** After the loop, with retries exhausted. */
    method FailTask(task: TaskRecord, failures: seq<FailureContext>, startedAt: int, world: World)
      returns (t: TaskRecord)
      requires Tracks() && failures != [] && (guild != null ==> guild.Valid())
      modifies this`store, this`events, this`ticks, this`journal, guild
      ensures Tracks() && t == GaveUp(task, Last(failures).errorMessage, startedAt, cfg.clock(old(ticks)))
      ensures journal == old(journal) + Announce(t)
      ensures guild != null ==> guild.Valid()
      ensures guild != null ==>
        (guild.records ==
         Learned(Settings(), cfg.fingerprint, old(guild.records), t, failures, None, world.guildClock))
    {
      PublishFailures(task, failures, FAILED_HINT, world);
      var result := TaskResult(false, None, Some(Last(failures).errorMessage), Some(startedAt), cfg.clock(ticks));
      t := TransitionStatus(task.(result := Some(result)), Failed, "supervisor", Fail(task.attempt));
    }

    // ----- running a task -----------------------------------------------------

    /** Start the task and run its attempts; the steps are those of `Begin`. */
    method StartRun(ready: TaskRecord, world: World) returns (task: TaskRecord, error: Option<Error>)
      requires Tracks() && (guild != null ==> guild.Valid())
      modifies this`store, this`events, this`ticks, this`journal, guild
      ensures Tracks() && (guild != null ==> guild.Valid())
      ensures
        var o := Begin(cfg, world, ready, old(ticks));
        && journal == old(journal) + o.steps && task == o.rec && error == o.error
        && (guild != null ==>
              guild.records ==
              Learned(Settings(), cfg.fingerprint, old(guild.records), o.rec, o.failures, o.error, world.guildClock))
    {
      var startedAt := cfg.clock(ticks);
      task := ready.(attempt := ready.attempt + 1);
      task := TransitionStatus(task, Running, "supervisor", Start(task.attempt));
      ghost var o := Attempts(cfg, world, task, [], startedAt, ticks);
      task, error := RetryLoop(task, world, startedAt);
      BeginIs(cfg, world, ready, old(ticks), o, old(journal), journal);
    }

    /** From authorisation on: apply the guild's suggestion, wait for the execution window
        and start; the steps are those of `Launch`. */
    method Proceed(authorised: TaskRecord, world: World) returns (task: TaskRecord, error: Option<Error>)
      requires authorised.capability in cfg.registry
      requires Tracks() && (guild != null ==> guild.Valid())
      requires Paced(Interval(cfg.registry), starts, lastStart, monotonic)
      modifies this`store, this`events, this`ticks, this`journal, this`lastStart, this`monotonic, this`starts, guild
      ensures Tracks() && (guild != null ==> guild.Valid())
      ensures Paced(Interval(cfg.registry), starts, lastStart, monotonic)
      ensures
        var o := Launch(cfg, world, authorised, old(ticks));
        && journal == old(journal) + o.steps && task == o.rec && error == o.error
        && (guild != null ==>
              guild.records ==
              Learned(Settings(), cfg.fingerprint, old(guild.records), o.rec, o.failures, o.error, world.guildClock))
    {
      task, error := authorised, None;
      if world.suggestion.SuggestionRaises? {
        error := Some(SuggestionError);
        return;
      }
      task, error := LaunchRun(authorised, world);
    }

    method LaunchRun(authorised: TaskRecord, world: World) returns (task: TaskRecord, error: Option<Error>)
      requires authorised.capability in cfg.registry && !world.suggestion.SuggestionRaises?
      requires Tracks() && (guild != null ==> guild.Valid())
      requires Paced(Interval(cfg.registry), starts, lastStart, monotonic)
      modifies this`store, this`events, this`ticks, this`journal, this`lastStart, this`monotonic, this`starts, guild
      ensures Tracks() && (guild != null ==> guild.Valid())
      ensures Paced(Interval(cfg.registry), starts, lastStart, monotonic)
      ensures
        var o := Launch(cfg, world, authorised, old(ticks));
        && journal == old(journal) + o.steps && task == o.rec && error == o.error
        && (guild != null ==>
              guild.records ==
              Learned(Settings(), cfg.fingerprint, old(guild.records), o.rec, o.failures, o.error, world.guildClock))
    {
      task := Prepare(authorised, world);
      ghost var o := Begin(cfg, world, task, ticks);
      task, error := StartRun(task, world);
      LaunchIs(cfg, world, authorised, old(ticks), o, old(journal), journal);
    }

    /** What comes between authorisation and the start. */
    method Prepare(authorised: TaskRecord, world: World) returns (task: TaskRecord)
      requires Tracks() && authorised.capability in cfg.registry
      requires Paced(Interval(cfg.registry), starts, lastStart, monotonic)
      modifies this`store, this`ticks, this`journal, this`lastStart, this`monotonic, this`starts
      ensures Tracks() && task == Ready(world, authorised, cfg.clock(old(ticks)))
      ensures Paced(Interval(cfg.registry), starts, lastStart, monotonic)
      ensures journal == old(journal) + Advice(world, authorised, cfg.clock(old(ticks)))
    {
      task := Advise(authorised, world);
      WaitForExecutionWindow(task.capability, world);
    }

    /** Put the guild's suggestion, if there is one, into the input. */
    method Advise(authorised: TaskRecord, world: World) returns (task: TaskRecord)
      requires Tracks()
      modifies this`store, this`ticks, this`journal
      ensures Tracks() && task == Ready(world, authorised, cfg.clock(old(ticks)))
      ensures journal == old(journal) + Advice(world, authorised, cfg.clock(old(ticks)))
    {
      task := authorised;
      if world.suggestion.Suggestion? {
        task := task.(input := task.input + world.suggestion.adjustment);
        task := LogAndSave(task, "guild", ApplySuggestion, None, None);
      }
    }

    /** `_apply_policy`, for a decision the policy engine did return. */
    method ApplyPolicy(pending: TaskRecord, policy: PolicyOutcome) returns (task: TaskRecord)
      requires Tracks() && pending.status == Pending && !policy.PolicyRaises?
      modifies this`store, this`events, this`ticks, this`journal
      ensures Tracks()
      ensures policy.PolicyAllow? ==>
        task == Admit(pending, cfg.clock(old(ticks))) && journal == old(journal) + [Saved(task)]
      ensures policy.PolicyDeny? ==>
        task == Denied(pending, policy.reason, cfg.clock(old(ticks))) && journal == old(journal) + Announce(task)
      ensures policy.PolicyRequireApproval? ==>
        && task == Moved(pending, AwaitingApproval, cfg.clock(old(ticks)), "policy", AwaitApproval)
        && journal == old(journal) + Announce(task)
    {
      if policy.PolicyDeny? {
        var error := OrElse(policy.reason, "Task denied by policy");
        var result := TaskResult(false, None, Some(error), None, cfg.clock(ticks));
        task := TransitionStatus(pending.(result := Some(result)), PolicyDenied, "policy", Deny);
      } else if policy.PolicyRequireApproval? {
        task := TransitionStatus(pending, AwaitingApproval, "policy", AwaitApproval);
      } else {
        task := LogAndSave(pending, "policy", Allow, Some(Pending), Some(Pending));
      }
    }

    /** The gates in front of a pending task.  `passed` says that it may proceed. */
    method PassGates(pending: TaskRecord, world: World) returns (task: TaskRecord, error: Option<Error>, passed: bool)
      requires Tracks() && pending.status == Pending
      requires ValidSubmission(cfg.registry, pending.name, pending.capability, pending.input)
      modifies this`store, this`events, this`ticks, this`journal
      ensures Tracks()
      ensures passed <==> !Gated(cfg.registry)(pending.capability) && world.policy.PolicyAllow?
      ensures passed ==> task == Admit(pending, cfg.clock(old(ticks))) && journal == old(journal) + [Saved(task)]
      ensures !passed ==>
        var o := Run(cfg, world, pending, old(ticks));
        journal == old(journal) + o.steps && task == o.rec && error == o.error
    {
      task, error, passed := pending, None, false;
      if cfg.registry[task.capability].requireApproval {
        task := TransitionStatus(task, AwaitingApproval, "supervisor", AwaitApproval);
      } else if world.policy.PolicyRaises? {
        error := Some(PolicyError);
      } else {
        task := ApplyPolicy(task, world.policy);
        passed := task.status == Pending;
      }
    }

    /** `run_task` on the record found in the store; the steps are those of `Run`. */
    method RunRecord(found: TaskRecord, world: World) returns (task: TaskRecord, error: Option<Error>)
      requires Tracks() && (guild != null ==> guild.Valid())
      requires Paced(Interval(cfg.registry), starts, lastStart, monotonic)
      modifies this`store, this`events, this`ticks, this`journal, this`lastStart, this`monotonic, this`starts, guild
      ensures Tracks() && (guild != null ==> guild.Valid())
      ensures Paced(Interval(cfg.registry), starts, lastStart, monotonic)
      ensures
        var o := Run(cfg, world, found, old(ticks));
        && journal == old(journal) + o.steps && task == o.rec && error == o.error
        && (guild != null && Launches(cfg, world, found) ==>
              guild.records ==
              Learned(Settings(), cfg.fingerprint, old(guild.records), o.rec, o.failures, o.error, world.guildClock))
      ensures guild != null && !Launches(cfg, world, found) ==> guild.records == old(guild.records)
    {
      task, error := found, None;
      if !Executable(task.status) {
        return;
      }
      if !ValidSubmission(cfg.registry, task.name, task.capability, task.input) {
        error := Some(InvalidSubmission);
        return;
      }
      if task.status == Pending {
        var passed;
        task, error, passed := PassGates(task, world);
        if !passed {
          return;
        }
      }
      ghost var o := Launch(cfg, world, task, ticks);
      task, error := Proceed(task, world);
      RunIs(cfg, world, found, old(ticks), o, old(journal), journal);
    }

    /** `run_task` on a task that is stored. */
    method RunStored(id: string, world: World) returns (r: Result<TaskRecord>)
      requires Valid() && id in store
      modifies this`store, this`events, this`ticks, this`journal, this`lastStart, this`monotonic, this`starts, guild
      ensures Valid()
      ensures
        var o := Run(cfg, world, old(store)[id], old(ticks));
        && journal == old(journal) + o.steps && store == old(store)[id := o.rec]
        && r == (if o.error.Some? then Err(o.error.value) else Ok(o.rec))
      ensures guild != null ==>
        guild.records == GuildAfter(Settings(), cfg, world, old(guild.records), old(store)[id], old(ticks))
    {
      ghost var found := store[id];
      var task, error := RunRecord(store[id], world);
      RunKeepsValid(cfg, world, old(journal), id, found);
      r := if error.Some? then Err(error.value) else Ok(task);
    }

    /** `run_task`.  `evicted` counts what the run made the guild drop. */
    method RunTask(id: string, world: World) returns (r: Result<TaskRecord>)
      requires Valid()
      modifies this, guild
      ensures Valid() && queue == old(queue) && old(journal) <= journal
      ensures id !in old(store) ==> r == Err(NotFound) && journal == old(journal)
      ensures id in old(store) ==>
        var o := Run(cfg, world, old(store)[id], old(ticks));
        && journal == old(journal) + o.steps
        && store == old(store)[id := o.rec]
        && r == (if o.error.Some? then Err(o.error.value) else Ok(o.rec))
      ensures guild != null && id !in old(store) ==> guild.records == old(guild.records) && evicted == old(evicted)
      ensures guild != null && id in old(store) ==>
        && guild.records == GuildAfter(Settings(), cfg, world, old(guild.records), old(store)[id], old(ticks))
        && evicted == old(evicted) + Evicted(Settings(), cfg, world, old(guild.records), old(store)[id], old(ticks))
      ensures old(Accounted()) ==> Accounted()
      ensures Roomy() ==> old(Roomy()) && evicted == old(evicted)
    {
      if id !in store {
        return Err(NotFound);
      }
      if guild != null {
        evicted := evicted + Evicted(Settings(), cfg, world, guild.records, store[id], ticks);
      }
      ghost var found := store[id];
      r := RunStored(id, world);
      if guild != null && guild.enabled && evicted == 0 && old(Accounted()) {
        BooksKept(cfg, world, old(journal), id, Settings(), old(guild.records), successesBefore, failuresBefore);
      }
      if guild != null && Roomy() {
        BelowLimitLostNothing(cfg, world, found, old(ticks), Settings(), old(guild.records));
      }
    }

    // ----- the other public operations ----------------------------------------

    predicate QueueFull()
      reads this
    {
      capacity.Some? && |queue| >= capacity.value
    }

    /** `_create_task_record`.  The record is saved before it is queued, so a full queue
        leaves a stored task that is not queued. */
    method CreateTask(submission: TaskSubmission, id: string, enqueue: bool) returns (r: Result<TaskRecord>)
      requires Valid() && id !in store
      modifies this`store, this`queue, this`ticks, this`journal
      ensures Valid() && old(journal) <= journal
      ensures
        var task := NewRecord(submission, id, cfg.clock(old(ticks)));
        if !ValidSubmission(cfg.registry, submission.name, submission.capability, submission.input) then
          r == Err(InvalidSubmission) && journal == old(journal) && store == old(store) && queue == old(queue)
        else
          && journal == old(journal) + [Saved(task)] && store == old(store)[id := task]
          && r == (if enqueue && old(QueueFull()) then Err(QueueIsFull) else Ok(task))
          && queue == if enqueue && !old(QueueFull()) then old(queue) + [id] else old(queue)
      ensures ValidSubmission(cfg.registry, submission.name, submission.capability, submission.input) ==>
        var now := cfg.clock(old(ticks));
        id in store &&
        store[id] == TaskRecord(id, submission.name, submission.capability, submission.input, Pending, None, 0,
                                submission.maxRetries, submission.workflowId,
                                [AuditEntry(now, "supervisor", Submit, None, Some(Pending))], now, now)
      ensures r == Err(QueueIsFull) <==>
        ValidSubmission(cfg.registry, submission.name, submission.capability, submission.input)
        && enqueue && capacity.Some? && |old(queue)| >= capacity.value
      ensures old(Accounted()) ==> Accounted()
    {
      if !ValidSubmission(cfg.registry, submission.name, submission.capability, submission.input) {
        return Err(InvalidSubmission);
      }
      var now := cfg.clock(ticks);
      var task := TaskRecord(id, submission.name, submission.capability, submission.input, Pending, None, 0,
                             submission.maxRetries, submission.workflowId, [], now, now);
      task := task.(trail := task.trail + [AuditEntry(now, "supervisor", Submit, None, Some(Pending))]);
      assert task == NewRecord(submission, id, now);
      BirthKeepsValid(cfg, journal, submission, id);
      OpenBalances(store, id, task);
      SaveTask(task);
      r := if enqueue && QueueFull() then Err(QueueIsFull) else Ok(task);
      if enqueue && r.Ok? {
        queue := queue + [id];
      }
    }

    /** `submit`. */
    method SubmitTask(submission: TaskSubmission, id: string) returns (r: Result<TaskRecord>)
      requires Valid() && id !in store
      modifies this`store, this`queue, this`ticks, this`journal
      ensures Valid() && old(journal) <= journal
      ensures
        var task := NewRecord(submission, id, cfg.clock(old(ticks)));
        if !ValidSubmission(cfg.registry, submission.name, submission.capability, submission.input) then
          r == Err(InvalidSubmission) && journal == old(journal) && store == old(store) && queue == old(queue)
        else
          && journal == old(journal) + [Saved(task)] && store == old(store)[id := task]
          && r == (if old(QueueFull()) then Err(QueueIsFull) else Ok(task))
          && queue == if old(QueueFull()) then old(queue) else old(queue) + [id]
      ensures ValidSubmission(cfg.registry, submission.name, submission.capability, submission.input) ==>
        var now := cfg.clock(old(ticks));
        id in store &&
        store[id] == TaskRecord(id, submission.name, submission.capability, submission.input, Pending, None, 0,
                                submission.maxRetries, submission.workflowId,
                                [AuditEntry(now, "supervisor", Submit, None, Some(Pending))], now, now)
      ensures r == Err(QueueIsFull) <==>
        ValidSubmission(cfg.registry, submission.name, submission.capability, submission.input)
        && capacity.Some? && |old(queue)| >= capacity.value
      ensures old(Accounted()) ==> Accounted()
    {
      r := CreateTask(submission, id, true);
    }

    /** `run_submission`: create, then run. */
    method RunSubmission(submission: TaskSubmission, id: string, world: World) returns (r: Result<TaskRecord>)
      requires Valid() && id !in store
      modifies this, guild
      ensures Valid() && queue == old(queue) && old(journal) <= journal
      ensures !ValidSubmission(cfg.registry, submission.name, submission.capability, submission.input) ==>
        && r == Err(InvalidSubmission) && journal == old(journal) && store == old(store)
        && (guild != null ==> guild.records == old(guild.records) && evicted == old(evicted))
      ensures ValidSubmission(cfg.registry, submission.name, submission.capability, submission.input) ==>
        var task := NewRecord(submission, id, cfg.clock(old(ticks)));
        var o := Run(cfg, world, task, old(ticks) + 1);
        && journal == old(journal) + [Saved(task)] + o.steps && store == old(store)[id := o.rec]
        && r == (if o.error.Some? then Err(o.error.value) else Ok(o.rec))
        && (guild != null ==>
              && guild.records == GuildAfter(Settings(), cfg, world, old(guild.records), task, old(ticks) + 1)
              && evicted == old(evicted) + Evicted(Settings(), cfg, world, old(guild.records), task, old(ticks) + 1))
      ensures ValidSubmission(cfg.registry, submission.name, submission.capability, submission.input) ==>
        id in store && AsSubmitted(cfg, world, submission, id, store[id])
      ensures old(Accounted()) ==> Accounted()
      ensures Roomy() ==> old(Roomy()) && evicted == old(evicted)
    {
      r := CreateTask(submission, id, false);
      if r.Ok? {
        SubmissionOutcome(cfg, world, submission, id, cfg.clock(old(ticks)), ticks);
        r := RunTask(id, world);
      }
    }

    /** `run_next`: first in, first out; the id leaves the queue whatever comes of the run. */
    method RunNext(world: World) returns (r: Result<TaskRecord>)
      requires Valid()
      modifies this, guild
      ensures Valid() && old(journal) <= journal && store.Keys == old(store).Keys
      ensures old(queue) == [] ==>
        && r == Err(NothingQueued) && journal == old(journal) && queue == []
        && (guild != null ==> guild.records == old(guild.records) && evicted == old(evicted))
      ensures old(queue) != [] ==>
        && queue == old(queue)[1..]
        && var task := old(store)[old(queue)[0]];
           var o := Run(cfg, world, task, old(ticks));
           && journal == old(journal) + o.steps && store == old(store)[old(queue)[0] := o.rec]
           && r == (if o.error.Some? then Err(o.error.value) else Ok(o.rec))
           && (guild != null ==>
                 && guild.records == GuildAfter(Settings(), cfg, world, old(guild.records), task, old(ticks))
                 && evicted == old(evicted) + Evicted(Settings(), cfg, world, old(guild.records), task, old(ticks)))
      ensures old(Accounted()) ==> Accounted()
      ensures Roomy() ==> old(Roomy()) && evicted == old(evicted)
    {
      if queue == [] {
        return Err(NothingQueued);
      }
      var id := queue[0];
      assert id in queue;
      queue := queue[1..];
      r := RunTask(id, world);
    }

    /** `approve_task`: allowed only while awaiting approval; run at once or queue for later. */
    method ApproveTask(id: string, actor: string, run: bool, world: World) returns (r: Result<TaskRecord>)
      requires Valid()
      modifies this, guild
      ensures Valid() && old(journal) <= journal && store.Keys == old(store).Keys
      ensures id !in old(store) ==> r == Err(NotFound) && journal == old(journal) && queue == old(queue)
      ensures id in old(store) && old(store)[id].status != AwaitingApproval ==>
        r == Err(NotAwaitingApproval) && journal == old(journal) && queue == old(queue)
      ensures guild != null && !(id in old(store) && old(store)[id].status == AwaitingApproval && run) ==>
        guild.records == old(guild.records) && evicted == old(evicted)
      ensures id in old(store) && old(store)[id].status == AwaitingApproval && run ==>
        var approved := ApprovedBy(old(store)[id], actor, cfg.clock(old(ticks)));
        var o := Run(cfg, world, approved, old(ticks) + 2);
        && journal == old(journal) + Announce(approved) + o.steps && store == old(store)[id := o.rec]
        && r == (if o.error.Some? then Err(o.error.value) else Ok(o.rec)) && queue == old(queue)
        && (guild != null ==>
              && guild.records == GuildAfter(Settings(), cfg, world, old(guild.records), approved, old(ticks) + 2)
              && evicted ==
                 old(evicted) + Evicted(Settings(), cfg, world, old(guild.records), approved, old(ticks) + 2))
      ensures id in old(store) && old(store)[id].status == AwaitingApproval && !run ==>
        var approved := ApprovedBy(old(store)[id], actor, cfg.clock(old(ticks)));
        && journal == old(journal) + Announce(approved) && store == old(store)[id := approved]
        && r == (if old(QueueFull()) then Err(QueueIsFull) else Ok(approved))
        && queue == if old(QueueFull()) then old(queue) else old(queue) + [id]
      ensures old(Accounted()) ==> Accounted()
      ensures Roomy() ==> old(Roomy()) && evicted == old(evicted)
    {
      if id !in store {
        return Err(NotFound);
      }
      if store[id].status != AwaitingApproval {
        return Err(NotAwaitingApproval);
      }
      if run {
        r := ApproveAndRun(id, actor, world);
      } else {
        r := ApproveForLater(id, actor);
      }
    }

    method ApproveAndRun(id: string, actor: string, world: World) returns (r: Result<TaskRecord>)
      requires Valid() && id in store && store[id].status == AwaitingApproval
      modifies this, guild
      ensures Valid() && queue == old(queue)
      ensures
        var approved := ApprovedBy(old(store)[id], actor, cfg.clock(old(ticks)));
        var o := Run(cfg, world, approved, old(ticks) + 2);
        && journal == old(journal) + Announce(approved) + o.steps && store == old(store)[id := o.rec]
        && r == (if o.error.Some? then Err(o.error.value) else Ok(o.rec))
        && (guild != null ==>
              && guild.records == GuildAfter(Settings(), cfg, world, old(guild.records), approved, old(ticks) + 2)
              && evicted ==
                 old(evicted) + Evicted(Settings(), cfg, world, old(guild.records), approved, old(ticks) + 2))
      ensures old(Accounted()) ==> Accounted()
      ensures Roomy() ==> old(Roomy()) && evicted == old(evicted)
    {
      var approved := MarkApproved(id, actor);
      r := RunTask(id, world);
      Overwritten(old(store), id, approved, store[id]);
    }

    method ApproveForLater(id: string, actor: string) returns (r: Result<TaskRecord>)
      requires Valid() && id in store && store[id].status == AwaitingApproval
      modifies this`store, this`events, this`ticks, this`journal, this`queue
      ensures Valid() && old(journal) <= journal && store.Keys == old(store).Keys
      ensures
        var approved := ApprovedBy(old(store)[id], actor, cfg.clock(old(ticks)));
        && journal == old(journal) + Announce(approved) && store == old(store)[id := approved]
        && r == (if old(QueueFull()) then Err(QueueIsFull) else Ok(approved))
        && queue == if old(QueueFull()) then old(queue) else old(queue) + [id]
      ensures old(Accounted()) ==> Accounted()
    {
      var approved := MarkApproved(id, actor);
      if QueueFull() {
        return Err(QueueIsFull);
      }
      queue := queue + [id];
      return Ok(approved);
    }

    method MarkApproved(id: string, actor: string) returns (approved: TaskRecord)
      requires Valid() && id in store && store[id].status == AwaitingApproval
      modifies this`store, this`events, this`ticks, this`journal
      ensures Valid() && approved == ApprovedBy(old(store)[id], actor, cfg.clock(old(ticks)))
      ensures journal == old(journal) + Announce(approved) && store == old(store)[id := approved]
      ensures ticks == old(ticks) + 2
      ensures
        var was, now := old(store)[id], cfg.clock(old(ticks));
        var entry := AuditEntry(now, actor, Approve, Some(AwaitingApproval), Some(Approved));
        approved == was.(status := Approved, trail := was.trail + [entry], updatedAt := now)
      ensures old(Accounted()) ==> Accounted()
    {
      MoveKeepsValid(cfg, journal, id, store[id], ApprovedBy(store[id], actor, cfg.clock(ticks)));
      OpenBalances(store, id, ApprovedBy(store[id], actor, cfg.clock(ticks)));
      approved := TransitionStatus(store[id], Approved, actor, Approve);
    }

    /** `cancel_task`. */
    method CancelTask(id: string, actor: string, reason: Option<string>) returns (r: Result<TaskRecord>)
      requires Valid()
      modifies this`store, this`events, this`ticks, this`journal
      ensures Valid() && old(journal) <= journal
      ensures id !in old(store) ==> r == Err(NotFound) && journal == old(journal)
      ensures id in old(store) && old(store)[id].status != AwaitingApproval ==>
        r == Err(NotAwaitingApproval) && journal == old(journal)
      ensures id in old(store) && old(store)[id].status == AwaitingApproval ==>
        var task := CancelledBy(old(store)[id], actor, reason, cfg.clock(old(ticks)));
        r == Ok(task) && journal == old(journal) + Announce(task) && store == old(store)[id := task]
      ensures id in old(store) && old(store)[id].status == AwaitingApproval ==>
        var was, now := old(store)[id], cfg.clock(old(ticks));
        var error := if reason.Some? && |reason.value| > 0 then reason.value else "Task cancelled";
        var entry := AuditEntry(now, actor, Cancel, Some(AwaitingApproval), Some(Cancelled));
        store[id] == was.(status := Cancelled, result := Some(TaskResult(false, None, Some(error), None, now)),
                          trail := was.trail + [entry], updatedAt := now)
      ensures old(Accounted()) ==> Accounted()
    {
      if id !in store {
        return Err(NotFound);
      }
      if store[id].status != AwaitingApproval {
        return Err(NotAwaitingApproval);
      }
      var task := MarkCancelled(id, actor, reason);
      return Ok(task);
    }

    method MarkCancelled(id: string, actor: string, reason: Option<string>) returns (task: TaskRecord)
      requires Valid() && id in store && store[id].status == AwaitingApproval
      modifies this`store, this`events, this`ticks, this`journal
      ensures Valid() && task == CancelledBy(old(store)[id], actor, reason, cfg.clock(old(ticks)))
      ensures journal == old(journal) + Announce(task) && store == old(store)[id := task]
      ensures old(Accounted()) ==> Accounted()
    {
      var now := cfg.clock(ticks);
      ghost var next := CancelledBy(store[id], actor, reason, now);
      MoveKeepsValid(cfg, journal, id, store[id], next);
      OpenBalances(store, id, next);
      var result := TaskResult(false, None, Some(OrElse(reason, "Task cancelled")), None, now);
      task := TransitionStatus(store[id].(result := Some(result)), Cancelled, actor, Cancel);
    }

    // ----- what holds between operations ---------------------------------------

    /** Executions of one task so far. */
    ghost function ExecutionsOfTask(id: string): nat
      reads this
    {
      Executions(For(journal, id))
    }

    /** The executions of each task that failed or was escalated. */
    ghost function SpentExecutions(): map<string, nat>
      reads this
    {
      map id | id in store && EndedInFailure(store[id].status) :: ExecutionsOfTask(id)
    }

    /** Whatever operations led here, every stored record agrees with its audit trail; the
        event log, restricted to the task, is what the trail announces; the task executed
        once per `started` or `retry` entry; and under a clock that never goes back the
        trail is in order of time. */
    lemma EveryRecord(id: string)
      requires Valid() && id in store
      ensures store[id].id == id && RecordFacts(Gated(cfg.registry)(store[id].capability), store[id])
      ensures EventsAbout(events, id) == Announced(id, store[id].trail)
      ensures ExecutionsOfTask(id) == if Launched(store[id].status) then 1 + CountRetries(store[id].trail) else 0
      ensures NeverBack(cfg.clock) ==> InTimeOrder(store[id].trail)
    {
      var gated := Gated(cfg.registry);
      var h := For(journal, id);
      StoreIsStored(journal, id);
      OwnRecord(gated, journal, id);
      AuditReplay(gated, h);
      QuietAccounts(gated, h);
      EventsFilter(journal, id);
      if NeverBack(cfg.clock) {
        TimestampsAscend(gated, cfg.clock, journal, id);
      }
    }

    /** What the books say, for a supervisor whose runs have evicted nothing: successes are the
        completed tasks, failures the executions of the failed and escalated ones. */
    lemma BooksAgree()
      requires Valid() && Accounted() && guild != null && guild.enabled && evicted == 0
      ensures TotalSuccesses(guild.records) == successesBefore + |CompletedIds(store)|
      ensures TotalFailures(guild.records) == failuresBefore + Total(SpentExecutions())
    {
      SpentIsExecuted();
    }

    lemma SpentIsExecuted()
      requires Valid()
      ensures SpentExecutions() == SpentOn(store)
    {
      forall id | id in store && EndedInFailure(store[id].status)
        ensures ExecutionsOfTask(id) == 1 + CountRetries(store[id].trail)
      {
        ExecutedAsTold(id);
      }
    }

    lemma ExecutedAsTold(id: string)
      requires Valid() && id in store && EndedInFailure(store[id].status)
      ensures ExecutionsOfTask(id) == 1 + CountRetries(store[id].trail)
    {
      EveryRecord(id);
    }

    /** Any n recorded starts of a rate-limited capability span at least (n - 1) * interval. */
    lemma StartsAreSpaced(capability: string, i: nat, n: nat)
      requires Valid() && capability in cfg.registry && cfg.registry[capability].minInterval.Some?
      requires 1 <= n && i + n <= |Times(starts, capability)|
      ensures
        var ts := Times(starts, capability);
        (n - 1) as real * cfg.registry[capability].minInterval.value <= ts[i + n - 1] - ts[i]
    {
      var ts := Times(starts, capability);
      assert Interval(cfg.registry)(capability) == cfg.registry[capability].minInterval;
      RateBound(ts, cfg.registry[capability].minInterval.value, i, n, ts[i + n - 1] - ts[i]);
    }

    // ----- runs of arbitrary length -------------------------------------------

    method Perform(op: Operation)
      requires Valid() && (forall id :: Creates(op, id) ==> id !in store)
      modifies this, guild
      ensures Valid() && old(journal) <= journal
      ensures store.Keys <= old(store).Keys + (if op.SubmitOp? || op.RunSubmissionOp? then {op.id} else {})
      ensures old(Accounted()) ==> Accounted()
      ensures Roomy() ==> old(Roomy()) && evicted == old(evicted)
    {
      match op
      case SubmitOp(submission, id) =>
        assert Creates(op, id);
        var _ := SubmitTask(submission, id);
      case RunSubmissionOp(submission, id, world) =>
        assert Creates(op, id);
        var _ := RunSubmission(submission, id, world);
      case RunNextOp(world) =>
        var _ := RunNext(world);
      case RunTaskOp(id, world) =>
        var _ := RunTask(id, world);
      case ApproveOp(id, actor, run, world) =>
        var _ := ApproveTask(id, actor, run, world);
      case CancelOp(id, actor, reason) =>
        var _ := CancelTask(id, actor, reason);
    }

    /** Any finite sequence of operations keeps the invariant, and over the whole of it the
        store only makes progress: trails are extended, nothing is dropped, and terminal
        records stay exactly as they are.  The guild's books stay balanced until a run makes
        it evict something, and a guild below its limit in the end has evicted nothing. */
    method Serve(ops: seq<Operation>)
      requires Valid() && FreshIds(ops, store.Keys)
      modifies this, guild
      ensures Valid() && Progress(old(store), store)
      ensures old(Accounted()) ==> Accounted()
      ensures Roomy() ==> old(Roomy()) && evicted == old(evicted)
    {
      var i := 0;
      while i < |ops|
        invariant 0 <= i <= |ops|
        invariant Valid() && old(journal) <= journal
        invariant old(Accounted()) ==> Accounted()
        invariant Roomy() ==> old(Roomy()) && evicted == old(evicted)
        invariant forall k, id :: i <= k < |ops| && Creates(ops[k], id) ==> id !in store
      {
        assert forall id :: Creates(ops[i], id) ==> id !in store;
        Perform(ops[i]);
        forall k, id | i + 1 <= k < |ops| && Creates(ops[k], id) ensures id !in store {
          assert !Creates(ops[i], id);
        }
        i := i + 1;
      }
      ghost var more := journal[|old(journal)|..];
      assert journal == old(journal) + more;
      StoreProgress(Gated(cfg.registry), old(journal), more);
    }
  }

  /** The whole account, from the start: a new supervisor serves any operations.  If in the end
      the guild has no limit or is below it, its successes have grown by exactly the tasks that
      completed, and its failures by exactly the executions of those that failed or were
      escalated. */
  method ServeFromStart(cfg: Config, capacity: Option<int>, guild: KnowledgeBase, ops: seq<Operation>)
    returns (s: TaskSupervisor)
    requires guild.Valid() && guild.enabled && FreshIds(ops, {})
    modifies guild
    ensures fresh(s) && s.Valid() && s.cfg == cfg && s.guild == guild
    ensures BelowLimit(guild.maxRecords, guild.records) ==>
      && TotalSuccesses(guild.records) == old(TotalSuccesses(guild.records)) + |CompletedIds(s.store)|
      && TotalFailures(guild.records) == old(TotalFailures(guild.records)) + Total(s.SpentExecutions())
  {
    s := new TaskSupervisor(cfg, capacity, guild);
    s.Serve(ops);
    if BelowLimit(guild.maxRecords, guild.records) {
      s.BooksAgree();
    }
  }
}

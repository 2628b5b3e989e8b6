/** What the supervisor makes durable and visible, in order: records saved in the
    task store, events emitted on the bus, and capability executions.  A journal
    interleaves many tasks; `For` picks out one task's history.

    `TaskOk` is the local rule of the lifecycle: which single step may follow a
    given history.  The lemmas below it are what that rule amounts to over a whole
    history; every prefix of a legal history is legal, so they also hold at any
    moment at which the process might stop. */
module Journals {
  import opened Tasks

  datatype Step =
    | Saved(rec: TaskRecord)
    | Emitted(event: TaskEvent)
    | Executed(id: string, attempt: nat, input: Payload)

  function IdOf(s: Step): string {
    match s
    case Saved(r) => r.id
    case Emitted(e) => e.taskId
    case Executed(id, _, _) => id
  }

  function Front<T>(s: seq<T>): seq<T>
    requires s != []
  {
    s[..|s| - 1]
  }

  function Last<T>(s: seq<T>): T
    requires s != []
  {
    s[|s| - 1]
  }

  /** The steps of `j` that concern task `id`, in order. */
  function For(j: seq<Step>, id: string): seq<Step> {
    if j == [] then []
    else if IdOf(Last(j)) == id then For(Front(j), id) + [Last(j)]
    else For(Front(j), id)
  }

  /** The record a reader of the store finds after history `h`. */
  function Stored(h: seq<Step>): Option<TaskRecord> {
    if h == [] then None
    else if Last(h).Saved? then Some(Last(h).rec)
    else Stored(Front(h))
  }

  function Saves(h: seq<Step>): seq<TaskRecord> {
    if h == [] then []
    else if Last(h).Saved? then Saves(Front(h)) + [Last(h).rec]
    else Saves(Front(h))
  }

  function Events(h: seq<Step>): seq<TaskEvent> {
    if h == [] then []
    else if Last(h).Emitted? then Events(Front(h)) + [Last(h).event]
    else Events(Front(h))
  }

  function Executions(h: seq<Step>): nat {
    if h == [] then 0
    else Executions(Front(h)) + if Last(h).Executed? then 1 else 0
  }

  // ---------------------------------------------------------------------------
  // The local rule
  // ---------------------------------------------------------------------------

  function EventFor(r: TaskRecord): TaskEvent
    requires r.trail != [] && KindOf(LastAction(r)).Some?
  {
    TaskEvent(KindOf(LastAction(r)).value, r.id, r.status, r.attempt)
  }

  /** A saved record whose last entry is to be announced and has not been yet. */
  predicate Unannounced(h: seq<Step>) {
    h != [] && Last(h).Saved? && Last(h).rec.trail != [] && KindOf(LastAction(Last(h).rec)).Some?
  }

  /** The capability has run and its outcome is not recorded yet. */
  predicate Executing(h: seq<Step>) {
    h != [] && Last(h).Executed?
  }

  predicate SameTask(prior: TaskRecord, next: TaskRecord) {
    && next.id == prior.id && next.name == prior.name && next.capability == prior.capability
    && next.maxRetries == prior.maxRetries && next.workflowId == prior.workflowId
    && next.createdAt == prior.createdAt
  }

  predicate Birth(r: TaskRecord) {
    && |r.trail| == 1 && r.trail[0].action == Submit
    && r.trail[0].from == None && r.trail[0].to == Some(Pending)
    && r.status == Pending && r.attempt == 0
  }

  /** The new entry records exactly the status change prior -> next. */
  predicate Moves(e: AuditEntry, prior: TaskRecord, next: TaskRecord) {
    e.from == Some(prior.status) && e.to == Some(next.status)
  }

  predicate Silent(e: AuditEntry, prior: TaskRecord, next: TaskRecord) {
    e.from == None && e.to == None && next.status == prior.status
  }

  /** Which record may be saved next over `prior`; `gated` says whether the task's
      capability requires approval, `executing` whether an outcome is due. */
  predicate LegalSave(gated: bool, executing: bool, prior: TaskRecord, next: TaskRecord)
    requires prior.trail != []
  {
    && SameTask(prior, next)
    && next.trail != [] && Front(next.trail) == prior.trail
    && var e := Last(next.trail);
       var was := LastAction(prior);
       match e.action
       case Submit => false
       case Allow =>
         !executing && !gated && prior.status == Pending && next.status == Pending
         && Moves(e, prior, next) && next.attempt == prior.attempt
       case Deny =>
         !executing && !gated && prior.status == Pending && next.status == PolicyDenied
         && Moves(e, prior, next) && next.attempt == prior.attempt
       case AwaitApproval =>
         !executing && prior.status == Pending && next.status == AwaitingApproval
         && Moves(e, prior, next) && next.attempt == prior.attempt
       case Approve =>
         !executing && prior.status == AwaitingApproval && next.status == Approved
         && Moves(e, prior, next) && next.attempt == prior.attempt
       case Cancel =>
         !executing && prior.status == AwaitingApproval && next.status == Cancelled
         && Moves(e, prior, next) && next.attempt == prior.attempt
       case ApplySuggestion =>
         !executing && (prior.status == Approved || (prior.status == Pending && was == Allow))
         && Silent(e, prior, next) && next.attempt == prior.attempt
       case Start(k) =>
         !executing
         && (prior.status == Approved
             || (!gated && prior.status == Pending && (was == Allow || was == ApplySuggestion)))
         && next.status == Running && Moves(e, prior, next)
         && next.attempt == prior.attempt + 1 && k == next.attempt
       case RecordFailure(f) =>
         executing && Silent(e, prior, next) && next.attempt == prior.attempt && f.attempt == prior.attempt
       case Complete(k) =>
         executing && next.status == Completed && Moves(e, prior, next)
         && next.attempt == prior.attempt && k == next.attempt
       case Retry(k) =>
         !executing && was.RecordFailure? && next.status == Running && Moves(e, prior, next)
         && next.attempt == prior.attempt + 1 && k == next.attempt
       case Escalate(k, _) =>
         !executing && was.RecordFailure? && next.status == Escalated && Moves(e, prior, next)
         && prior.attempt <= next.attempt <= prior.attempt + 1 && k == next.attempt
       case Fail(k) =>
         !executing && was.RecordFailure? && next.status == Failed && Moves(e, prior, next)
         && next.attempt == prior.attempt && k == next.attempt
  }

  predicate LegalNext(gated: string -> bool, h: seq<Step>, s: Step) {
    match s
    case Saved(r) =>
      && !Unannounced(h)
      && (match Stored(h)
          case None => h == [] && Birth(r)
          case Some(prior) => prior.trail != [] && LegalSave(gated(prior.capability), Executing(h), prior, r))
    case Emitted(e) =>
      Unannounced(h) && e == EventFor(Last(h).rec)
    case Executed(id, k, input) =>
      && Stored(h).Some? && input == Stored(h).value.input
      && h != [] && Last(h).Emitted?
      && Last(h).event.kind in {TaskStarted, TaskRetry}
      && id == Last(h).event.taskId && k == Last(h).event.attempt
  }

  /** Every step of `h` was legal when it was taken. */
  predicate TaskOk(gated: string -> bool, h: seq<Step>) {
    h == [] || (TaskOk(gated, Front(h)) && LegalNext(gated, Front(h), Last(h)))
  }

  /** No operation on the task is under way. */
  predicate Quiet(h: seq<Step>) {
    h == [] ||
    match Last(h)
    case Saved(r) => r.trail != [] && (LastAction(r) == Submit || LastAction(r) == Allow)
    case Emitted(e) => e.kind != TaskStarted && e.kind != TaskRetry
    case Executed(_, _, _) => true
  }

  lemma Extend(gated: string -> bool, h: seq<Step>, s: Step)
    requires TaskOk(gated, h) && LegalNext(gated, h, s)
    ensures TaskOk(gated, h + [s]) && Last(h + [s]) == s
    ensures Stored(h + [s]) == if s.Saved? then Some(s.rec) else Stored(h)
  {
    assert Front(h + [s]) == h;
  }

  // ---------------------------------------------------------------------------
  // What the local rule amounts to
  // ---------------------------------------------------------------------------

  /** Folding the trail from nothing: the last status any entry moved to. */
  function Replay(trail: seq<AuditEntry>): Option<Status> {
    if trail == [] then None
    else if Last(trail).to.Some? then Last(trail).to
    else Replay(Front(trail))
  }

  /** The status changes of docs/conductor/task-model.md, with the escalation of a
      running task and the self-loops of `allowed` and `retry`. */
  predicate Documented(from: Option<Status>, to: Status) {
    match from
    case None => to == Pending
    case Some(s) =>
      match s
      case Pending => to in {Pending, AwaitingApproval, PolicyDenied, Running}
      case AwaitingApproval => to == Approved || to == Cancelled
      case Approved => to == Running
      case Running => to in {Running, Completed, Failed, Escalated}
      case _ => false
  }

  /** Entries without statuses aside, each entry starts where the previous one ended
      and makes a documented move. */
  predicate Replayable(trail: seq<AuditEntry>) {
    forall i :: 0 <= i < |trail| ==>
      var e := trail[i];
      (e.from == None && e.to == None) ||
      (e.to.Some? && e.from == Replay(trail[..i]) && Documented(e.from, e.to.value))
  }

  function CountStarts(trail: seq<AuditEntry>): nat {
    if trail == [] then 0
    else CountStarts(Front(trail)) + if Last(trail).action.Start? then 1 else 0
  }

  function CountRetries(trail: seq<AuditEntry>): nat {
    if trail == [] then 0
    else CountRetries(Front(trail)) + if Last(trail).action.Retry? then 1 else 0
  }

  predicate Has(trail: seq<AuditEntry>, a: Action) {
    exists i :: 0 <= i < |trail| && trail[i].action == a
  }

  /** Every start comes after an approval, or after `allowed` when not gated. */
  predicate Authorised(gated: bool, trail: seq<AuditEntry>) {
    forall i :: 0 <= i < |trail| && trail[i].action.Start? ==>
      Has(trail[..i], Approve) || (!gated && Has(trail[..i], Allow))
  }

  predicate Launched(s: Status) {
    s in {Running, Completed, Failed, Escalated}
  }

  /** A record and its trail tell the same story. */
  predicate RecordFacts(gated: bool, r: TaskRecord) {
    && r.trail != []
    && Replayable(r.trail)
    && Replay(r.trail) == Some(r.status)
    && CountStarts(r.trail) == (if Launched(r.status) then 1 else 0)
    && (!Launched(r.status) ==> r.attempt == 0 && CountRetries(r.trail) == 0)
    && (r.status in {Pending, AwaitingApproval, PolicyDenied, Cancelled} ==> !Has(r.trail, Approve))
    && (r.status == Approved ==> Has(r.trail, Approve))
    && Authorised(gated, r.trail)
    && (r.status == Pending && LastAction(r) == ApplySuggestion ==> Has(r.trail, Allow))
  }

  lemma ReplayableExtends(trail: seq<AuditEntry>, e: AuditEntry)
    requires Replayable(trail)
    requires (e.from == None && e.to == None) ||
             (e.to.Some? && e.from == Replay(trail) && Documented(e.from, e.to.value))
    ensures Replayable(trail + [e])
    ensures Replay(trail + [e]) == if e.to.Some? then e.to else Replay(trail)
  {
    var t := trail + [e];
    assert Front(t) == trail;
    forall i | 0 <= i < |t| && !(t[i].from == None && t[i].to == None)
      ensures t[i].to.Some? && t[i].from == Replay(t[..i]) && Documented(t[i].from, t[i].to.value)
    {
      if i < |trail| {
        assert t[i] == trail[i];
        assert t[..i] == trail[..i];
      } else {
        assert t[..i] == trail;
      }
    }
  }

  lemma AuthorisedExtends(gated: bool, trail: seq<AuditEntry>, e: AuditEntry)
    requires Authorised(gated, trail)
    requires e.action.Start? ==> Has(trail, Approve) || (!gated && Has(trail, Allow))
    ensures Authorised(gated, trail + [e])
  {
    var t := trail + [e];
    forall i | 0 <= i < |t| && t[i].action.Start?
      ensures Has(t[..i], Approve) || (!gated && Has(t[..i], Allow))
    {
      assert i < |trail| ==> t[i] == trail[i];
      assert t[..i] == trail[..i];
      assert trail[..|trail|] == trail;
    }
  }

  lemma HasExtends(trail: seq<AuditEntry>, e: AuditEntry, a: Action)
    ensures Has(trail + [e], a) <==> Has(trail, a) || e.action == a
  {
    var t := trail + [e];
    if Has(trail, a) {
      var i :| 0 <= i < |trail| && trail[i].action == a;
      assert t[i].action == a;
    }
    assert t[|trail|] == e;
  }

  lemma HasLast(r: TaskRecord)
    requires r.trail != []
    ensures Has(r.trail, LastAction(r))
  {
    assert r.trail[|r.trail| - 1].action == LastAction(r);
  }

  /** One legal save keeps record and trail in agreement. */
  lemma FactsPreserved(gated: bool, executing: bool, prior: TaskRecord, next: TaskRecord)
    requires RecordFacts(gated, prior) && LegalSave(gated, executing, prior, next)
    requires executing || LastAction(prior).RecordFailure? ==> prior.status == Running
    ensures RecordFacts(gated, next)
  {
    var e := Last(next.trail);
    assert next.trail == prior.trail + [e];
    ReplayableExtends(prior.trail, e);
    HasLast(prior);
    AuthorisedExtends(gated, prior.trail, e);
    HasExtends(prior.trail, e, Approve);
    HasExtends(prior.trail, e, Allow);
  }

  /** Where a history stands: what its last step says about the stored record. */
  predicate Position(h: seq<Step>) {
    && Stored(h).Some? && Stored(h).value.trail != []
    && var r := Stored(h).value;
       && (Executing(h) || LastAction(r).RecordFailure? ==> r.status == Running)
       && (Last(h).Saved? ==> Last(h).rec == r)
       && (Last(h).Emitted? ==> KindOf(LastAction(r)).Some? && Last(h).event == EventFor(r))
       && (Executing(h) ==> LastAction(r).Start? || LastAction(r).Retry?)
       && (LastAction(r).Start? || LastAction(r).Retry? ==> r.status == Running)
  }

  lemma {:induction false} PositionOf(gated: string -> bool, h: seq<Step>)
    requires TaskOk(gated, h) && h != []
    ensures Position(h)
  {
    if |h| > 1 {
      PositionOf(gated, Front(h));
    }
  }

  /** Audit replay: on every reachable record the trail replays, by documented
      moves only, to the record's status; it starts at most once, only after an
      `allowed` or `approved` entry, and only after `approved` when gated. */
  lemma {:induction false} AuditReplay(gated: string -> bool, h: seq<Step>)
    requires TaskOk(gated, h) && h != []
    ensures Stored(h).Some?
    ensures RecordFacts(gated(Stored(h).value.capability), Stored(h).value)
  {
    PositionOf(gated, h);
    if |h| == 1 {
      var r := Last(h).rec;
      assert r.trail[..0] == [];
      assert Front(r.trail) == [];
    } else {
      AuditReplay(gated, Front(h));
      PositionOf(gated, Front(h));
      if Last(h).Saved? {
        var prior := Stored(Front(h)).value;
        FactsPreserved(gated(prior.capability), Executing(Front(h)), prior, Last(h).rec);
      }
    }
  }

  /** The store is a write-ahead log of the trail: the i-th save of a task holds
      exactly the first i+1 entries of its final trail. */
  lemma {:induction false} SavesAreTrailPrefixes(gated: string -> bool, h: seq<Step>)
    requires TaskOk(gated, h) && h != []
    ensures Stored(h).Some? && |Saves(h)| == |Stored(h).value.trail|
    ensures forall i :: 0 <= i < |Saves(h)| ==>
      Saves(h)[i].trail == Stored(h).value.trail[..i + 1] && SameTask(Saves(h)[i], Stored(h).value)
  {
    PositionOf(gated, h);
    if |h| == 1 {
      var r := Last(h).rec;
      assert r.trail[..1] == r.trail;
      assert Saves(Front(h)) == [];
    } else {
      SavesAreTrailPrefixes(gated, Front(h));
      if Last(h).Saved? {
        var prior, next := Stored(Front(h)).value, Last(h).rec;
        forall i | 0 <= i < |Saves(h)|
          ensures Saves(h)[i].trail == next.trail[..i + 1] && SameTask(Saves(h)[i], next)
        {
          if i < |prior.trail| {
            assert next.trail[..i + 1] == prior.trail[..i + 1];
          } else {
            assert next.trail[..i + 1] == next.trail;
          }
        }
      }
    }
  }

  /** COMPLETED, FAILED, ESCALATED, POLICY_DENIED and CANCELLED are never left: after
      a record with such a status is saved nothing is saved or executed any more. */
  lemma {:induction false} TerminalIsFinal(gated: string -> bool, h: seq<Step>, i: nat, j: nat)
    requires TaskOk(gated, h) && i < j < |h|
    requires h[i].Saved? && Terminal(h[i].rec.status)
    ensures h[j].Emitted? && j == i + 1
    ensures Stored(h) == Some(h[i].rec)
    decreases |h|
  {
    var p := Front(h);
    if i == |h| - 2 {
      assert Last(p) == h[i];
      PositionOf(gated, p);
    } else {
      TerminalIsFinal(gated, p, i, |h| - 2);
      PositionOf(gated, p);
      assert false;
    }
  }

  /** Nothing is visible before it is durable: the step right before an emission is
      the save of a record with the announced status and attempt. */
  lemma {:induction false} DurableBeforeVisible(gated: string -> bool, h: seq<Step>, i: nat)
    requires TaskOk(gated, h) && i < |h| && h[i].Emitted?
    ensures 0 < i && h[i - 1].Saved?
    ensures
      var r := h[i - 1].rec;
      && Stored(h[..i]) == Some(r)
      && h[i].event.status == r.status && h[i].event.attempt == r.attempt
      && r.trail != [] && KindOf(LastAction(r)) == Some(h[i].event.kind)
    decreases |h|
  {
    var p := Front(h);
    if i == |h| - 1 {
      assert h[..i] == p;
    } else {
      DurableBeforeVisible(gated, p, i);
      assert h[..i] == p[..i];
    }
  }

  /** What an event is called follows from the status it tells of, and for a running task
      from whether this is its first attempt. */
  lemma EventKinds(gated: string -> bool, h: seq<Step>, i: nat)
    requires TaskOk(gated, h) && i < |h| && h[i].Emitted?
    ensures
      var e := h[i].event;
      && (e.kind == TaskStarted <==> e.status == Running && e.attempt == 1)
      && (e.kind == TaskRetry <==> e.status == Running && e.attempt > 1)
      && (e.kind == TaskCompleted <==> e.status == Completed)
      && (e.kind == TaskFailed <==> e.status == Failed)
      && (e.kind == TaskEscalated <==> e.status == Escalated)
      && (e.kind == TaskPolicyDenied <==> e.status == PolicyDenied)
      && (e.kind == TaskAwaitingApproval <==> e.status == AwaitingApproval)
      && (e.kind == TaskApproved <==> e.status == Approved)
      && (e.kind == TaskCancelled <==> e.status == Cancelled)
  {
    DurableBeforeVisible(gated, h, i);
    SaveKinds(gated, h, i - 1);
  }

  /** The action of a saved record's last entry goes with its status and attempt. */
  predicate ActionFits(r: TaskRecord) {
    r.trail != [] &&
    match LastAction(r)
    case Submit => r.status == Pending
    case Allow => r.status == Pending
    case ApplySuggestion => r.status == Pending || r.status == Approved
    case RecordFailure(_) => r.status == Running && r.attempt >= 1
    case Deny => r.status == PolicyDenied
    case AwaitApproval => r.status == AwaitingApproval
    case Approve => r.status == Approved
    case Cancel => r.status == Cancelled
    case Start(_) => r.status == Running && r.attempt == 1
    case Retry(_) => r.status == Running && r.attempt > 1
    case Complete(_) => r.status == Completed
    case Escalate(_, _) => r.status == Escalated
    case Fail(_) => r.status == Failed
  }

  lemma {:induction false} SaveKinds(gated: string -> bool, h: seq<Step>, i: nat)
    requires TaskOk(gated, h) && i < |h| && h[i].Saved?
    ensures ActionFits(h[i].rec)
    decreases |h|
  {
    if i < |h| - 1 {
      SaveKinds(gated, Front(h), i);
    } else {
      StoredFits(gated, h);
      PositionOf(gated, h);
    }
  }

  lemma {:induction false} StoredFits(gated: string -> bool, h: seq<Step>)
    requires TaskOk(gated, h) && h != []
    ensures Stored(h).Some? && ActionFits(Stored(h).value)
  {
    PositionOf(gated, h);
    if |h| > 1 {
      StoredFits(gated, Front(h));
      AuditReplay(gated, Front(h));
      PositionOf(gated, Front(h));
    }
  }

  /** The attempt an entry was announced with. */
  function AttemptOf(a: Action): nat {
    match a
    case Start(k) => k
    case Retry(k) => k
    case Complete(k) => k
    case Escalate(k, _) => k
    case Fail(k) => k
    case _ => 0
  }

  /** The events a trail gives rise to: every entry except submitted, allowed,
      peer_suggestion_applied and failure_recorded, in order. */
  function Announced(id: string, trail: seq<AuditEntry>): seq<TaskEvent> {
    if trail == [] then []
    else
      var e := Last(trail);
      var before := Announced(id, Front(trail));
      if KindOf(e.action).Some? && e.to.Some?
      then before + [TaskEvent(KindOf(e.action).value, id, e.to.value, AttemptOf(e.action))]
      else before
  }

  lemma AnnouncedStep(gated: bool, executing: bool, prior: TaskRecord, next: TaskRecord)
    requires prior.trail != [] && LegalSave(gated, executing, prior, next)
    requires !Launched(prior.status) ==> prior.attempt == 0
    ensures
      Announced(next.id, next.trail) ==
      Announced(prior.id, prior.trail) + if KindOf(LastAction(next)).Some? then [EventFor(next)] else []
  {
  }

  /** The event log is the projection of the durable trail; only the announcement
      of the very last save may still be outstanding. */
  lemma {:induction false} EventsProjectTrail(gated: string -> bool, h: seq<Step>)
    requires TaskOk(gated, h) && h != []
    ensures Stored(h).Some?
    ensures
      var r := Stored(h).value;
      r.trail != [] &&
      Announced(r.id, r.trail) == Events(h) + if Unannounced(h) then [EventFor(r)] else []
  {
    PositionOf(gated, h);
    if |h| == 1 {
      var r := Last(h).rec;
      assert Front(r.trail) == [];
      assert Events(Front(h)) == [];
    } else {
      EventsProjectTrail(gated, Front(h));
      PositionOf(gated, Front(h));
      AuditReplay(gated, Front(h));
      if Last(h).Saved? {
        AnnouncedStep(gated(Last(h).rec.capability), Executing(Front(h)), Stored(Front(h)).value, Last(h).rec);
      }
    }
  }

  /** Executions are counted by the trail: one per `started` or `retry` entry, less
      the one just announced and not yet begun. */
  lemma {:induction false} ExecutionsMatchTrail(gated: string -> bool, h: seq<Step>)
    requires TaskOk(gated, h) && h != []
    ensures Stored(h).Some?
    ensures
      var r := Stored(h).value;
      r.trail != [] &&
      CountStarts(r.trail) + CountRetries(r.trail) ==
      Executions(h) + if !Executing(h) && (LastAction(r).Start? || LastAction(r).Retry?) then 1 else 0
  {
    PositionOf(gated, h);
    if |h| == 1 {
      var r := Last(h).rec;
      assert Front(r.trail) == [];
      assert Executions(Front(h)) == 0;
    } else {
      ExecutionsMatchTrail(gated, Front(h));
      PositionOf(gated, Front(h));
    }
  }

  /** At rest: executions are 1 + the retry entries once the task has started and none
      otherwise, and every announcement has been made.  In particular a denied or
      cancelled task has never executed. */
  lemma QuietAccounts(gated: string -> bool, h: seq<Step>)
    requires TaskOk(gated, h) && h != [] && Quiet(h)
    ensures Stored(h).Some?
    ensures
      var r := Stored(h).value;
      && Executions(h) == (if Launched(r.status) then 1 + CountRetries(r.trail) else 0)
      && Events(h) == Announced(r.id, r.trail)
  {
    PositionOf(gated, h);
    AuditReplay(gated, h);
    ExecutionsMatchTrail(gated, h);
    EventsProjectTrail(gated, h);
  }

  /** The events of one task in a log that interleaves many. */
  function EventsAbout(es: seq<TaskEvent>, id: string): seq<TaskEvent> {
    if es == [] then []
    else if Last(es).taskId == id then EventsAbout(Front(es), id) + [Last(es)]
    else EventsAbout(Front(es), id)
  }

  lemma {:induction false} EventsFilter(j: seq<Step>, id: string)
    ensures EventsAbout(Events(j), id) == Events(For(j, id))
  {
    if j != [] {
      EventsFilter(Front(j), id);
      var e := Events(Front(j));
      if Last(j).Emitted? {
        assert Front(e + [Last(j).event]) == e;
      }
      if IdOf(Last(j)) == id {
        assert Front(For(j, id)) == For(Front(j), id);
      }
    }
  }
}

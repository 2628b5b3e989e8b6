/** Workflow traces in control-plane snapshots (engine/control_plane/contracts.py). */
module ControlPlane {
  import opened Tasks
  import opened Journals
  import opened Runs
  import opened Sorting
  import opened Grouping
  import opened TaskStores
  import opened Workflow
  import opened Supervisor

  function Statuses(rs: seq<TaskRecord>): set<Status> {
    set i | 0 <= i < |rs| :: rs[i].status
  }

  const ACTIVE: set<Status> := {Pending, Running, Approved, AwaitingApproval}
  const UNSUCCESSFUL: set<Status> := {Failed, PolicyDenied, Cancelled, Escalated}

  /** `_workflow_status`, branch by branch. */
  function TraceStatus(rs: seq<TaskRecord>): WorkflowStatus {
    if rs == [] then WorkflowPending else StatusOf(Statuses(rs))
  }

  function StatusOf(statuses: set<Status>): WorkflowStatus {
    if statuses == {Pending} then WorkflowPending
    else if statuses == {Completed} then WorkflowCompleted
    else if statuses * ACTIVE != {} then WorkflowRunning
    else if statuses <= UNSUCCESSFUL then WorkflowFailed
    else if statuses * UNSUCCESSFUL != {} then WorkflowPartial
    else WorkflowPartial
  }

  predicate All(rs: seq<TaskRecord>, ss: set<Status>) {
    forall i :: 0 <= i < |rs| ==> rs[i].status in ss
  }

  predicate AnyOf(rs: seq<TaskRecord>, ss: set<Status>) {
    exists i :: 0 <= i < |rs| && rs[i].status in ss
  }

  lemma StatusesMember(rs: seq<TaskRecord>)
    ensures forall s :: s in Statuses(rs) <==> AnyOf(rs, {s})
    ensures forall ss :: All(rs, ss) <==> Statuses(rs) <= ss
    ensures forall ss :: AnyOf(rs, ss) <==> Statuses(rs) * ss != {}
    ensures rs != [] ==> Statuses(rs) != {}
  {
    assert forall i :: 0 <= i < |rs| ==> rs[i].status in Statuses(rs);
    forall ss ensures AnyOf(rs, ss) <==> Statuses(rs) * ss != {} {
      if AnyOf(rs, ss) {
        var i :| 0 <= i < |rs| && rs[i].status in ss;
        assert rs[i].status in Statuses(rs) * ss;
      }
      if Statuses(rs) * ss != {} {
        var s :| s in Statuses(rs) * ss;
        var i :| 0 <= i < |rs| && rs[i].status == s;
        assert rs[i].status in ss;
      }
    }
    if rs != [] {
      assert rs[0].status in Statuses(rs);
    }
  }

  lemma NothingActive(ss: set<Status>)
    requires ss * ACTIVE == {} && !(ss <= UNSUCCESSFUL)
    ensures ss * {Completed} != {} && (ss * UNSUCCESSFUL == {} ==> ss <= {Completed})
  {
    forall x | x in ss ensures x in UNSUCCESSFUL || x == Completed {
      assert x in ACTIVE ==> x in ss * ACTIVE;
    }
    var s :| s in ss && s !in UNSUCCESSFUL;
    assert Completed in ss * {Completed};
    if ss * UNSUCCESSFUL == {} {
      forall x | x in ss ensures x == Completed {
        assert x in UNSUCCESSFUL ==> x in ss * UNSUCCESSFUL;
      }
    }
  }

  lemma StatusOfTable(ss: set<Status>)
    requires ss != {}
    ensures StatusOf(ss) == WorkflowPending <==> ss <= {Pending}
    ensures StatusOf(ss) == WorkflowCompleted <==> ss <= {Completed}
    ensures StatusOf(ss) == WorkflowRunning <==> ss * ACTIVE != {} && !(ss <= {Pending})
    ensures StatusOf(ss) == WorkflowFailed <==> ss <= UNSUCCESSFUL
    ensures StatusOf(ss) == WorkflowPartial <==> ss * ACTIVE == {} && ss * {Completed} != {} && ss * UNSUCCESSFUL != {}
  {
    assert ss <= {Pending} ==> ss == {Pending};
    assert ss <= {Completed} ==> ss == {Completed};
    if ss * ACTIVE == {} && !(ss <= UNSUCCESSFUL) {
      NothingActive(ss);
    }
  }

  /** The whole table of `_workflow_status`.  The five answers are disjoint and cover every
      case, so the code's last `return` is never reached. */
  lemma TraceStatusTable(rs: seq<TaskRecord>)
    ensures TraceStatus(rs) == WorkflowPending <==> All(rs, {Pending})
    ensures TraceStatus(rs) == WorkflowCompleted <==> rs != [] && All(rs, {Completed})
    ensures TraceStatus(rs) == WorkflowRunning <==>
      AnyOf(rs, {Pending, Running, Approved, AwaitingApproval}) && !All(rs, {Pending})
    ensures TraceStatus(rs) == WorkflowFailed <==> rs != [] && All(rs, {Failed, PolicyDenied, Cancelled, Escalated})
    ensures TraceStatus(rs) == WorkflowPartial <==>
      && !AnyOf(rs, {Pending, Running, Approved, AwaitingApproval}) && AnyOf(rs, {Completed})
      && AnyOf(rs, {Failed, PolicyDenied, Cancelled, Escalated})
  {
    StatusesMember(rs);
    if rs != [] {
      StatusOfTable(Statuses(rs));
    }
  }

  lemma OneFailed(listed: seq<TaskRecord>, r: TaskRecord)
    requires r in listed && r.status == Failed
    ensures TraceStatus(listed) != WorkflowCompleted
  {
    var k :| 0 <= k < |listed| && listed[k] == r;
    TraceStatusTable(listed);
  }

  /** One `run_submission`: what it was given, the steps in the journal and the store before it. */
  datatype Call = Call(
    submission: TaskSubmission,
    taskId: string,
    world: World,
    ticks: nat,
    before: map<string, TaskRecord>)

  /** The call was made for workflow `id` and returned `rec`; `later` is the store some time
      after its return. */
  ghost predicate Answered(cfg: Config, c: Call, id: string, rec: TaskRecord, later: map<string, TaskRecord>) {
    && c.submission.workflowId == Some(id)
    && rec == Run(cfg, c.world, NewRecord(c.submission, c.taskId, cfg.clock(c.ticks)), c.ticks + 1).rec
    && Progress(c.before[c.taskId := rec], later)
  }

  /** A failed task is found later as it was returned, under its workflow's id. */
  lemma FailureStays(cfg: Config, c: Call, id: string, rec: TaskRecord, later: map<string, TaskRecord>)
    requires Answered(cfg, c, id, rec, later) && rec.status == Failed
    ensures c.taskId in later && later[c.taskId] == rec && rec.workflowId == Some(id)
  {
    var gated := Gated(cfg.registry);
    var r := NewRecord(c.submission, c.taskId, cfg.clock(c.ticks));
    BirthLegal(gated, c.submission, c.taskId, cfg.clock(c.ticks));
    RunLegal([Saved(r)], cfg, c.world, r, c.ticks + 1);
    HistoryProgress(gated, [Saved(r)], Run(cfg, c.world, r, c.ticks + 1).steps);
    assert c.taskId in c.before[c.taskId := rec];
  }

  /** Every stored task of workflow `id` is listed. */
  ghost predicate ListsWorkflow(listed: seq<TaskRecord>, id: string, store: map<string, TaskRecord>) {
    forall k :: k in store && store[k].workflowId == Some(id) ==> store[k] in listed
  }

  /** A workflow the orchestrator failed never has a COMPLETED trace: not when it returns, and
      not in any later snapshot, whatever operations follow on this or other tasks.  The i-th
      record is what the i-th call of `run_submission` returned. */
  lemma FailedIsNeverCompleted(batches: seq<Batch>, k: nat, outcome: Worker, validate: seq<TaskRecord> -> bool,
                               w: WorkflowResult, cfg: Config, id: string, calls: seq<Call>,
                               later: map<string, TaskRecord>, listed: seq<TaskRecord>)
    requires k <= |batches| && Delivers(batches, k, outcome, validate, w) && w.status == WorkflowFailed
    requires |calls| == |w.records|
    requires forall i :: 0 <= i < |calls| ==> Answered(cfg, calls[i], id, w.records[i], later)
    requires ListsWorkflow(listed, id, later)
    ensures TraceStatus(listed) != WorkflowCompleted
  {
    var i :| 0 <= i < |w.records| && w.records[i].status == Failed;
    FailureStays(cfg, calls[i], id, w.records[i], later);
    OneFailed(listed, w.records[i]);
  }

  /** When the status the orchestrator reports is the status of the trace of its records.  It
      looks for FAILED only, and asks its validator about everything else: a failed workflow
      agrees when no task completed or is still active, a completed one when every task
      completed, a partial one when nothing is active and some tasks completed, others not.
      With no records at all the two never agree. */
  lemma VerdictMatchesTraceIff(batches: seq<Batch>, k: nat, outcome: Worker, validate: seq<TaskRecord> -> bool,
                               w: WorkflowResult)
    requires k <= |batches| && Delivers(batches, k, outcome, validate, w)
    ensures
      var rs := w.records;
      w.status == TraceStatus(rs) <==>
      && rs != []
      && (if AnyFailed(rs) then All(rs, UNSUCCESSFUL)
          else if validate(rs) then All(rs, {Completed})
          else !AnyOf(rs, ACTIVE) && AnyOf(rs, {Completed}) && AnyOf(rs, UNSUCCESSFUL))
  {
    TraceStatusTable(w.records);
  }

  /** A plan of one step whose task is escalated, and a validator that passes: the orchestrator
      delivers a COMPLETED workflow, and its trace is FAILED. */
  lemma EscalatedWorkflowDisagrees(step: PlanStep, r: TaskRecord)
    requires r.status == Escalated
    ensures
      var outcome: Worker := (i: nat, prior: seq<TaskRecord>) => Returned(r);
      var validate := (rs: seq<TaskRecord>) => true;
      var w := WorkflowResult(WorkflowCompleted, [r], Some(true));
      && IsBatching([step], [[step]]) && EndsAs([[step]], 1, outcome, validate, Some(w))
      && TraceStatus(w.records) == WorkflowFailed
  {
    assert [[step]][1..] == [];
    assert StepsIn([[step]], 1) == StepsIn([[step]], 0) + 1;
    TraceStatusTable([r]);
    assert [r][0].status in UNSUCCESSFUL;
  }

  // ---------------------------------------------------------------------------
  // Snapshots
  // ---------------------------------------------------------------------------

  /** Order of `(created_at, task_id)`. */
  const EARLIER: (TaskRecord, TaskRecord) -> bool :=
    (a: TaskRecord, b: TaskRecord) => a.createdAt < b.createdAt || (a.createdAt == b.createdAt && !Less(b.id, a.id))

  lemma EarlierIsPreorder()
    ensures Preorder(EARLIER)
  {
    forall a, b ensures EARLIER(a, b) || EARLIER(b, a) {
      LessTotal(a.id, b.id);
    }
    forall a, b, c | EARLIER(a, b) && EARLIER(b, c) ensures EARLIER(a, c) {
      if Less(c.id, a.id) && a.createdAt == b.createdAt == c.createdAt {
        LessTotal(b.id, c.id);
        LessTotal(a.id, b.id);
        if Less(b.id, c.id) {
          LessTransitive(b.id, c.id, a.id);
        }
      }
    }
  }

  const WORKFLOW: TaskRecord -> Option<string> := (r: TaskRecord) => r.workflowId

  lemma {:induction false} SelectSorted(rs: seq<TaskRecord>, w: string)
    requires SortedBy(rs, EARLIER)
    ensures SortedBy(Select(rs, WORKFLOW, w), EARLIER)
    ensures forall i :: 0 <= i < |Select(rs, WORKFLOW, w)| ==> Select(rs, WORKFLOW, w)[i] in rs
  {
    if rs != [] {
      var n := |rs| - 1;
      SelectSorted(rs[..n], w);
      var f := Select(rs[..n], WORKFLOW, w);
      forall i | 0 <= i < |f| ensures EARLIER(f[i], rs[n]) {
        var k :| 0 <= k < n && rs[k] == f[i];
      }
    }
  }

  /** Earlier creations first, and among equal ones smaller ids. */
  predicate ByCreation(rs: seq<TaskRecord>) {
    forall i, j :: 0 <= i < j < |rs| ==>
      var a, b := rs[i], rs[j];
      a.createdAt < b.createdAt || (a.createdAt == b.createdAt && (a.id == b.id || Less(a.id, b.id)))
  }

  lemma InOrderOfCreation(rs: seq<TaskRecord>)
    requires SortedBy(rs, EARLIER)
    ensures ByCreation(rs)
  {
    forall i, j | 0 <= i < j < |rs|
      ensures rs[i].createdAt < rs[j].createdAt
              || (rs[i].createdAt == rs[j].createdAt && (rs[i].id == rs[j].id || Less(rs[i].id, rs[j].id)))
    {
      assert EARLIER(rs[i], rs[j]);
      LessTotal(rs[i].id, rs[j].id);
    }
  }

  datatype Trace = Trace(workflowId: string, status: WorkflowStatus, tasks: seq<TaskRecord>)

  /** A trace holds exactly the given tasks of its workflow, in order of creation, and the
      status they amount to. */
  ghost predicate TraceOk(tasks: seq<TaskRecord>, t: Trace) {
    && t.tasks != [] && ByCreation(t.tasks)
    && (forall x :: multiset(t.tasks)[x] == if x.workflowId == Some(t.workflowId) then multiset(tasks)[x] else 0)
    && t.status == TraceStatus(t.tasks)
  }

  /** `from_records`: the group sorted by creation, with its status. */
  function TraceFor(w: string, group: seq<TaskRecord>): (t: Trace)
    ensures t.workflowId == w
  {
    var rs := Sort(group, EARLIER);
    Trace(w, TraceStatus(rs), rs)
  }

  lemma GroupIsTrace(tasks: seq<TaskRecord>, ordered: seq<TaskRecord>, w: string)
    requires ordered == Sort(tasks, EARLIER) && Select(ordered, WORKFLOW, w) != []
    ensures TraceOk(tasks, TraceFor(w, Select(ordered, WORKFLOW, w)))
  {
    EarlierIsPreorder();
    SortIsSorted(tasks, EARLIER);
    SortPermutes(tasks, EARLIER);
    SelectSorted(ordered, w);
    SortOfSorted(Select(ordered, WORKFLOW, w), EARLIER);
    InOrderOfCreation(TraceFor(w, Select(ordered, WORKFLOW, w)).tasks);
    forall x
      ensures multiset(Select(ordered, WORKFLOW, w))[x] == if x.workflowId == Some(w) then multiset(tasks)[x] else 0
    {
      SelectCount(ordered, WORKFLOW, w, x);
    }
  }

  /** One trace for each of the given workflows, in the given order. */
  ghost predicate Traced(tasks: seq<TaskRecord>, ids: seq<string>, traces: seq<Trace>) {
    && |traces| == |ids|
    && forall i :: 0 <= i < |ids| ==> traces[i].workflowId == ids[i] && TraceOk(tasks, traces[i])
  }

  /** Traces are in strict order of workflow id, and every workflow with a task has one. */
  lemma TracesComplete(tasks: seq<TaskRecord>, ids: seq<string>, traces: seq<Trace>)
    requires Traced(tasks, ids, traces) && Ascending(ids)
    requires forall w :: w in ids <==> Select(Sort(tasks, EARLIER), WORKFLOW, w) != []
    ensures forall i, j :: 0 <= i < j < |traces| ==> Less(traces[i].workflowId, traces[j].workflowId)
    ensures forall k :: 0 <= k < |tasks| && tasks[k].workflowId.Some? ==>
      exists i :: 0 <= i < |traces| && traces[i].workflowId == tasks[k].workflowId.value
  {
    forall k | 0 <= k < |tasks| && tasks[k].workflowId.Some?
      ensures exists i :: 0 <= i < |traces| && traces[i].workflowId == tasks[k].workflowId.value
    {
      TaskInGroup(tasks, k);
      var j :| 0 <= j < |ids| && ids[j] == tasks[k].workflowId.value;
      assert traces[j].workflowId == ids[j];
    }
  }

  /** The workflows of `build_control_plane_snapshot`: traces in strict order of workflow id,
      each complete, and one for every workflow that has a task - so that every task with a
      workflow id lies in exactly one trace. */
  method BuildTraces(tasks: seq<TaskRecord>) returns (traces: seq<Trace>)
    ensures forall i, j :: 0 <= i < j < |traces| ==> Less(traces[i].workflowId, traces[j].workflowId)
    ensures forall i :: 0 <= i < |traces| ==> TraceOk(tasks, traces[i])
    ensures forall k :: 0 <= k < |tasks| && tasks[k].workflowId.Some? ==>
      exists i :: 0 <= i < |traces| && traces[i].workflowId == tasks[k].workflowId.value
  {
    var ordered := Sort(tasks, EARLIER);
    var groups := GroupBy(ordered, WORKFLOW);
    var ids := SortIds(groups.Keys);
    GroupsAreTraceable(tasks, groups, ids);
    traces := TracesOf(groups, ids);
    TracesComplete(tasks, ids, traces);
  }

  /** Each of `ids` has a group, and the group makes a good trace. */
  ghost predicate Traceable(tasks: seq<TaskRecord>, groups: map<string, seq<TaskRecord>>, ids: seq<string>) {
    forall i :: 0 <= i < |ids| ==> ids[i] in groups && TraceOk(tasks, TraceFor(ids[i], groups[ids[i]]))
  }

  lemma GroupsAreTraceable(tasks: seq<TaskRecord>, groups: map<string, seq<TaskRecord>>, ids: seq<string>)
    requires Grouped(Sort(tasks, EARLIER), WORKFLOW, groups) && Lists(ids, groups.Keys)
    ensures Traceable(tasks, groups, ids)
  {
    forall i | 0 <= i < |ids| ensures ids[i] in groups && TraceOk(tasks, TraceFor(ids[i], groups[ids[i]])) {
      assert ids[i] in groups.Keys;
      GroupIsTrace(tasks, Sort(tasks, EARLIER), ids[i]);
    }
  }

  function TracesOf(groups: map<string, seq<TaskRecord>>, ids: seq<string>): (traces: seq<Trace>)
    requires forall i :: 0 <= i < |ids| ==> ids[i] in groups
    ensures |traces| == |ids| && forall i :: 0 <= i < |ids| ==> traces[i] == TraceFor(ids[i], groups[ids[i]])
  {
    seq(|ids|, i requires 0 <= i < |ids| => TraceFor(ids[i], groups[ids[i]]))
  }

  lemma TaskInGroup(tasks: seq<TaskRecord>, k: nat)
    requires k < |tasks| && tasks[k].workflowId.Some?
    ensures Select(Sort(tasks, EARLIER), WORKFLOW, tasks[k].workflowId.value) != []
  {
    var ordered := Sort(tasks, EARLIER);
    SortPermutes(tasks, EARLIER);
    assert tasks[k] in multiset(ordered);
    var i :| 0 <= i < |ordered| && ordered[i] == tasks[k];
    InItsGroup(ordered, WORKFLOW, i);
  }
}

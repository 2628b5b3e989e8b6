/** The workflow orchestrator (engine/workflow/orchestrator.py): plan steps are cut into
    batches, batches run one after another, and the workflow stops after the first batch
    with a failed task. */
module Workflow {
  import opened Tasks
  import opened Grouping

  datatype PlanStep = PlanStep(name: string, capability: string, group: Option<string>)

  type Batch = seq<PlanStep>

  /** An ungrouped step stands alone; a grouped batch is all of one group. */
  predicate Uniform(b: Batch) {
    && b != []
    && (forall i :: 0 <= i < |b| ==> b[i].group == b[0].group)
    && (b[0].group == None ==> |b| == 1)
  }

  predicate SameGroup(a: PlanStep, b: PlanStep) {
    a.group.Some? && a.group == b.group
  }

  /** Batches of `steps`: uniform, in order, and as long as they can be. */
  predicate IsBatching(steps: seq<PlanStep>, batches: seq<Batch>) {
    && Flatten(batches) == steps
    && (forall i :: 0 <= i < |batches| ==> Uniform(batches[i]))
    && (forall i :: 0 <= i < |batches| - 1 ==> !SameGroup(batches[i][0], batches[i + 1][0]))
  }

  lemma TailIsBatching(steps: seq<PlanStep>, batches: seq<Batch>)
    requires IsBatching(steps, batches) && batches != []
    ensures batches[0] <= steps && IsBatching(steps[|batches[0]|..], batches[1..])
  {
    assert steps == batches[0] + Flatten(batches[1..]);
    assert steps[|batches[0]|..] == Flatten(batches[1..]);
    var t := batches[1..];
    assert forall i :: 0 <= i < |t| ==> t[i] == batches[i + 1];
  }

  predicate Decomposes(steps: seq<PlanStep>, batches: seq<Batch>) {
    Flatten(batches) == steps && forall i :: 0 <= i < |batches| ==> Uniform(batches[i])
  }

  /** A first batch shorter than another decomposition's is followed by one of its group. */
  lemma ShorterFirstBatch(steps: seq<PlanStep>, a: seq<Batch>, b: seq<Batch>)
    requires Decomposes(steps, a) && Decomposes(steps, b) && a != [] && b != [] && |a[0]| < |b[0]|
    ensures |a| > 1 && SameGroup(a[0][0], a[1][0])
  {
    var k := |a[0]|;
    assert steps == a[0] + Flatten(a[1..]) == b[0] + Flatten(b[1..]);
    assert Uniform(b[0]) && b[0][k] == steps[k] && b[0][0] == steps[0];
    assert Uniform(a[0]) && a[0][0] == steps[0];
    assert Flatten(a[1..])[0] == steps[k];
    assert a[1..] != [];
    assert Uniform(a[1]) && a[1..][0] == a[1];
    assert a[1][0] == steps[k];
  }

  lemma FirstBatchNotShorter(steps: seq<PlanStep>, a: seq<Batch>, b: seq<Batch>)
    requires IsBatching(steps, a) && IsBatching(steps, b) && a != [] && b != []
    ensures |a[0]| >= |b[0]|
  {
    if |a[0]| < |b[0]| {
      ShorterFirstBatch(steps, a, b);
    }
  }

  /** There is exactly one such decomposition. */
  lemma {:induction false} BatchingIsUnique(steps: seq<PlanStep>, a: seq<Batch>, b: seq<Batch>)
    requires IsBatching(steps, a) && IsBatching(steps, b)
    ensures a == b
    decreases |steps|
  {
    if a == [] || b == [] {
      NoBatches(steps, a);
      NoBatches(steps, b);
    } else {
      FirstBatchNotShorter(steps, a, b);
      FirstBatchNotShorter(steps, b, a);
      TailIsBatching(steps, a);
      TailIsBatching(steps, b);
      assert a[0] == b[0];
      assert Uniform(a[0]);
      BatchingIsUnique(steps[|a[0]|..], a[1..], b[1..]);
      assert a == [a[0]] + a[1..] && b == [b[0]] + b[1..];
    }
  }

  lemma NoBatches(steps: seq<PlanStep>, a: seq<Batch>)
    requires IsBatching(steps, a)
    ensures a == [] <==> steps == []
  {
    if a != [] {
      assert Uniform(a[0]);
      assert Flatten(a)[0] == a[0][0];
    }
  }

  /** `_step_batches`. */
  method StepBatches(steps: seq<PlanStep>) returns (batches: seq<Batch>)
    ensures IsBatching(steps, batches)
  {
    batches := [];
    var index := 0;
    while index < |steps|
      invariant 0 <= index <= |steps|
      invariant IsBatching(steps[..index], batches)
      invariant 0 < index < |steps| ==> batches != [] && !SameGroup(batches[|batches| - 1][0], steps[index])
    {
      var start := index;
      var step := steps[index];
      var batch := [step];
      index := index + 1;
      if step.group.Some? {
        while index < |steps| && steps[index].group == step.group
          invariant start < index <= |steps| && batch == steps[start..index]
          invariant forall i :: 0 <= i < |batch| ==> batch[i].group == step.group
        {
          assert steps[start..index + 1] == steps[start..index] + [steps[index]];
          batch := batch + [steps[index]];
          index := index + 1;
        }
      }
      FlattenAppend(batches, batch);
      assert steps[..index] == steps[..start] + batch;
      batches := batches + [batch];
    }
    assert steps[..index] == steps;
  }

  // ---------------------------------------------------------------------------
  // Running a plan
  // ---------------------------------------------------------------------------

  /** What a step ends with when it sees `prior`: the supervisor's record, or an exception. */
  datatype StepOutcome = Returned(rec: TaskRecord) | Raised

  /** `outcome(i, prior)`: how the i-th step of the plan ends, given the prior results. */
  type Worker = (nat, seq<TaskRecord>) -> StepOutcome

  datatype WorkflowStatus = WorkflowPending | WorkflowRunning | WorkflowCompleted | WorkflowFailed | WorkflowPartial

  datatype WorkflowResult = WorkflowResult(status: WorkflowStatus, records: seq<TaskRecord>, verdict: Option<bool>)

  predicate AnyFailed(rs: seq<TaskRecord>) {
    exists i :: 0 <= i < |rs| && rs[i].status == Failed
  }

  /** How many steps the first `k` batches hold. */
  function StepsIn(batches: seq<Batch>, k: nat): nat
    requires k <= |batches|
  {
    if k == 0 then 0 else StepsIn(batches, k - 1) + |batches[k - 1]|
  }

  /** `rs` are the records of the first `k` batches: each step ran on exactly the records of
      the batches before its own. */
  predicate RanInBatches(batches: seq<Batch>, k: nat, outcome: Worker, rs: seq<TaskRecord>)
    requires k <= |batches|
  {
    && |rs| == StepsIn(batches, k)
    && forall b :: 0 <= b < k ==> BatchRan(batches, b, outcome, rs)
  }

  predicate BatchRan(batches: seq<Batch>, b: nat, outcome: Worker, rs: seq<TaskRecord>)
    requires b < |batches|
  {
    var lo := StepsIn(batches, b);
    && lo + |batches[b]| <= |rs|
    && forall i :: lo <= i < lo + |batches[b]| ==> outcome(i, rs[..lo]) == Returned(rs[i])
  }

  lemma {:induction false} StepsInAll(batches: seq<Batch>)
    ensures StepsIn(batches, |batches|) == |Flatten(batches)|
  {
    if batches != [] {
      var n := |batches| - 1;
      StepsInAll(batches[..n]);
      StepsInPrefix(batches, n, n);
      assert batches == batches[..n] + [batches[n]];
      FlattenAppend(batches[..n], batches[n]);
    }
  }

  lemma {:induction false} StepsInPrefix(batches: seq<Batch>, n: nat, k: nat)
    requires k <= n <= |batches|
    ensures StepsIn(batches[..n], k) == StepsIn(batches, k)
  {
    if k > 0 {
      StepsInPrefix(batches, n, k - 1);
    }
  }

  lemma {:induction false} StepsInMonotone(batches: seq<Batch>, k: nat, l: nat)
    requires k <= l <= |batches|
    ensures StepsIn(batches, k) <= StepsIn(batches, l)
  {
    if k < l {
      StepsInMonotone(batches, k, l - 1);
    }
  }

  lemma BatchesRemain(batches: seq<Batch>, k: nat, outcome: Worker, rs: seq<TaskRecord>, more: seq<TaskRecord>, b: nat)
    requires k <= |batches| && RanInBatches(batches, k, outcome, rs) && b < k
    ensures BatchRan(batches, b, outcome, rs + more)
  {
    assert BatchRan(batches, b, outcome, rs);
    var lo := StepsIn(batches, b);
    assert (rs + more)[..lo] == rs[..lo];
  }

  predicate RaisesIn(batch: Batch, offset: nat, outcome: Worker, prior: seq<TaskRecord>) {
    exists i :: offset <= i < offset + |batch| && outcome(i, prior).Raised?
  }

  /** One batch; its steps may run side by side but all see the same prior results, and
      their records are collected in step order. */
  method RunBatch(batch: Batch, offset: nat, outcome: Worker, prior: seq<TaskRecord>)
    returns (rs: seq<TaskRecord>, raised: bool)
    ensures raised <==> RaisesIn(batch, offset, outcome, prior)
    ensures !raised ==> |rs| == |batch|
    ensures !raised ==> forall i :: offset <= i < offset + |batch| ==> outcome(i, prior) == Returned(rs[i - offset])
  {
    rs, raised := [], false;
    var i := offset;
    while i < offset + |batch|
      invariant offset <= i <= offset + |batch| && |rs| == i - offset && !raised
      invariant forall j :: offset <= j < i ==> outcome(j, prior) == Returned(rs[j - offset])
    {
      var o := outcome(i, prior);
      if o.Raised? {
        raised := true;
        return;
      }
      rs := rs + [o.rec];
      i := i + 1;
    }
  }

  /** The result of running the first `k` batches: the records are theirs; a failed task
      occurs only in the last of them; every batch runs unless an earlier one failed; the
      validator is asked exactly when nothing failed. */
  predicate Delivers(batches: seq<Batch>, k: nat, outcome: Worker, validate: seq<TaskRecord> -> bool, w: WorkflowResult)
    requires k <= |batches|
  {
    var rs := w.records;
    && RanInBatches(batches, k, outcome, rs)
    && (forall i :: 0 <= i < |rs| && rs[i].status == Failed ==> 0 < k && StepsIn(batches, k - 1) <= i)
    && (AnyFailed(rs) || k == |batches|)
    && w.verdict == (if AnyFailed(rs) then None else Some(validate(rs)))
    && w.status ==
       (if AnyFailed(rs) then WorkflowFailed else if validate(rs) then WorkflowCompleted else WorkflowPartial)
  }

  /** Batch `k` raises, after the batches before it ran without a failure. */
  ghost predicate RaisesAt(batches: seq<Batch>, k: nat, outcome: Worker) {
    k < |batches| &&
    exists rs :: RanInBatches(batches, k, outcome, rs) && !AnyFailed(rs) && RaisesIn(batches[k], |rs|, outcome, rs)
  }

  ghost predicate EndsAs(batches: seq<Batch>, k: nat, outcome: Worker, validate: seq<TaskRecord> -> bool,
                         result: Option<WorkflowResult>)
  {
    && k <= |batches|
    && (result.Some? ==> Delivers(batches, k, outcome, validate, result.value))
    && (result.None? ==> RaisesAt(batches, k, outcome))
  }

  /** `run`, after planning, over the one decomposition of the steps into batches. */
  method RunWorkflow(steps: seq<PlanStep>, outcome: Worker, validate: seq<TaskRecord> -> bool)
    returns (result: Option<WorkflowResult>)
    ensures exists batches, k: nat :: IsBatching(steps, batches) && EndsAs(batches, k, outcome, validate, result)
  {
    var batches := StepBatches(steps);
    var records: seq<TaskRecord> := [];
    var failed := false;
    var b := 0;
    while b < |batches| && !failed
      invariant 0 <= b <= |batches|
      invariant RanInBatches(batches, b, outcome, records)
      invariant failed <==> AnyFailed(records)
      invariant forall i :: 0 <= i < |records| && records[i].status == Failed ==> 0 < b && StepsIn(batches, b - 1) <= i
      decreases |batches| - b
    {
      var rs, raised := RunBatch(batches[b], |records|, outcome, records);
      if raised {
        assert EndsAs(batches, b, outcome, validate, None);
        return None;
      }
      BatchAdds(batches, b, outcome, records, rs);
      failed := exists i :: 0 <= i < |rs| && rs[i].status == Failed;
      records := records + rs;
      b := b + 1;
    }
    if failed {
      result := Some(WorkflowResult(WorkflowFailed, records, None));
    } else {
      var passed := validate(records);
      result := Some(WorkflowResult(if passed then WorkflowCompleted else WorkflowPartial, records, Some(passed)));
    }
    assert EndsAs(batches, b, outcome, validate, result);
  }

  /** Nothing failed: one record per step of the plan. */
  lemma AllStepsRun(steps: seq<PlanStep>, batches: seq<Batch>, k: nat, outcome: Worker,
                    validate: seq<TaskRecord> -> bool, w: WorkflowResult)
    requires IsBatching(steps, batches) && k <= |batches| && Delivers(batches, k, outcome, validate, w)
    ensures w.verdict.Some? ==> |w.records| == |steps|
  {
    StepsInAll(batches);
  }

  lemma BatchAdds(batches: seq<Batch>, b: nat, outcome: Worker, records: seq<TaskRecord>, rs: seq<TaskRecord>)
    requires b < |batches| && RanInBatches(batches, b, outcome, records) && |rs| == |batches[b]|
    requires forall i :: |records| <= i < |records| + |rs| ==> outcome(i, records) == Returned(rs[i - |records|])
    ensures RanInBatches(batches, b + 1, outcome, records + rs)
    ensures AnyFailed(records + rs) <==> AnyFailed(records) || AnyFailed(rs)
  {
    var all := records + rs;
    forall c | 0 <= c < b + 1 ensures BatchRan(batches, c, outcome, all) {
      if c < b {
        BatchesRemain(batches, b, outcome, records, rs, c);
      } else {
        assert all[..|records|] == records;
        forall i | |records| <= i < |all| ensures outcome(i, all[..|records|]) == Returned(all[i]) {
          assert all[i] == rs[i - |records|];
        }
      }
    }
    if AnyFailed(rs) {
      var i :| 0 <= i < |rs| && rs[i].status == Failed;
      assert all[|records| + i].status == Failed;
    }
    if AnyFailed(records) {
      var i :| 0 <= i < |records| && records[i].status == Failed;
      assert all[i].status == Failed;
    }
    if AnyFailed(all) {
      var i :| 0 <= i < |all| && all[i].status == Failed;
      assert i < |records| ==> records[i].status == Failed;
      assert i >= |records| ==> rs[i - |records|].status == Failed;
    }
  }
}

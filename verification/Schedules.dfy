/** Tasks running side by side.  Threads interleave the steps of different tasks in
    any order; each task's own history is untouched by that, so the store ends the same
    (up to the times stamped on records) as if the tasks had run one after another. */
module Schedules {
  import opened Tasks
  import opened RetryPolicies
  import opened Journals
  import opened Runs
  import opened Grouping

  /** The task store after the saves of a journal. */
  function StoreAfter(j: seq<Step>): map<string, TaskRecord> {
    if j == [] then map[]
    else if Last(j).Saved? then StoreAfter(Front(j))[Last(j).rec.id := Last(j).rec]
    else StoreAfter(Front(j))
  }

  lemma {:induction false} StoreIsStored(j: seq<Step>, id: string)
    ensures id in StoreAfter(j) <==> Stored(For(j, id)).Some?
    ensures id in StoreAfter(j) ==> StoreAfter(j)[id] == Stored(For(j, id)).value
  {
    if j != [] {
      StoreIsStored(Front(j), id);
      if IdOf(Last(j)) == id {
        assert Front(For(j, id)) == For(Front(j), id);
      }
    }
  }

  lemma {:induction false} ForConcat(a: seq<Step>, b: seq<Step>, id: string)
    ensures For(a + b, id) == For(a, id) + For(b, id)
  {
    if b == [] {
      assert a + b == a;
    } else {
      assert Front(a + b) == a + Front(b);
      ForConcat(a, Front(b), id);
    }
  }

  predicate OnlyAbout(steps: seq<Step>, id: string) {
    forall i :: 0 <= i < |steps| ==> IdOf(steps[i]) == id
  }

  lemma {:induction false} ForOwn(steps: seq<Step>, id: string, other: string)
    requires OnlyAbout(steps, id)
    ensures For(steps, other) == if other == id then steps else []
  {
    if steps != [] {
      assert IdOf(Last(steps)) == id;
      ForOwn(Front(steps), id, other);
    }
  }

  // ---------------------------------------------------------------------------
  // Interleavings
  // ---------------------------------------------------------------------------

  /** `z` is made by repeatedly appending the next step of one of the parts. */
  ghost predicate Interleaves(z: seq<Step>, parts: seq<seq<Step>>)
    decreases |z|, 1
  {
    if z == [] then forall k :: 0 <= k < |parts| ==> parts[k] == []
    else exists k :: 0 <= k < |parts| && EndsWith(z, parts, k)
  }

  ghost predicate EndsWith(z: seq<Step>, parts: seq<seq<Step>>, k: nat)
    requires z != [] && k < |parts|
    decreases |z|, 0
  {
    parts[k] != [] && Last(parts[k]) == Last(z) && Interleaves(Front(z), parts[k := Front(parts[k])])
  }

  /** Part `k` is the work on task `ids[k]`, and the ids are distinct. */
  predicate Owned(parts: seq<seq<Step>>, ids: seq<string>) {
    && |parts| == |ids| && Distinct(ids)
    && (forall k :: 0 <= k < |parts| ==> OnlyAbout(parts[k], ids[k]))
  }

  /** Whatever the interleaving, each task's history is exactly its own part, and no
      other task is touched. */
  lemma {:induction false} InterleavingKeepsHistories(z: seq<Step>, parts: seq<seq<Step>>, ids: seq<string>)
    requires Interleaves(z, parts) && Owned(parts, ids)
    ensures forall k :: 0 <= k < |ids| ==> For(z, ids[k]) == parts[k]
    ensures forall id :: id !in ids ==> For(z, id) == []
    decreases |z|
  {
    if z != [] {
      var k :| 0 <= k < |parts| && EndsWith(z, parts, k);
      var before := parts[k := Front(parts[k])];
      assert OnlyAbout(parts[k], ids[k]);
      assert Owned(before, ids) by {
        forall l | 0 <= l < |before| ensures OnlyAbout(before[l], ids[l]) {
          assert OnlyAbout(parts[l], ids[l]);
        }
      }
      InterleavingKeepsHistories(Front(z), before, ids);
      assert IdOf(Last(z)) == ids[k] by { assert Last(z) == parts[k][|parts[k]| - 1]; }
      forall l | 0 <= l < |ids| ensures For(z, ids[l]) == parts[l] {
        if l == k {
          assert parts[k] == Front(parts[k]) + [Last(z)];
        } else {
          assert ids[l] != ids[k];
        }
      }
    }
  }

  lemma FrontOfConcat<T>(a: seq<T>, b: seq<T>)
    requires b != []
    ensures Front(a + b) == a + Front(b) && Last(a + b) == Last(b)
  {
  }

  /** One more step at the end of the last part. */
  lemma LastPartGrows(z: seq<Step>, parts: seq<seq<Step>>, last: seq<Step>)
    requires last != [] && z != [] && Last(z) == Last(last)
    requires Interleaves(Front(z), parts + [Front(last)])
    ensures Interleaves(z, parts + [last])
  {
    var all := parts + [last];
    assert all[|parts| := Front(last)] == parts + [Front(last)];
    assert EndsWith(z, all, |parts|);
  }

  /** Running the parts one after another is one of the interleavings. */
  lemma {:induction false} SequentialIsAnInterleaving(parts: seq<seq<Step>>)
    ensures Interleaves(Flatten(parts), parts)
    decreases |parts|, if parts == [] then 0 else |Last(parts)|
  {
    if parts != [] {
      var rest, last := Front(parts), Last(parts);
      assert rest + [last] == parts;
      FlattenAppend(rest, last);
      if last == [] {
        SequentialIsAnInterleaving(rest);
        EmptyPart(Flatten(rest), rest);
        assert Flatten(rest) + last == Flatten(rest) && rest + [[]] == parts;
      } else {
        SequentialIsAnInterleaving(rest + [Front(last)]);
        FlattenAppend(rest, Front(last));
        FrontOfConcat(Flatten(rest), last);
        LastPartGrows(Flatten(parts), rest, last);
      }
    }
  }

  lemma {:induction false} EmptyPart(z: seq<Step>, parts: seq<seq<Step>>)
    requires Interleaves(z, parts)
    ensures Interleaves(z, parts + [[]])
    decreases |z|
  {
    if z != [] {
      var k :| 0 <= k < |parts| && EndsWith(z, parts, k);
      EmptyPart(Front(z), parts[k := Front(parts[k])]);
      assert (parts + [[]])[k := Front(parts[k])] == parts[k := Front(parts[k])] + [[]];
      assert EndsWith(z, parts + [[]], k);
    }
  }

  /** Journals in which every task's history is legal. */
  ghost predicate JournalOk(gated: string -> bool, j: seq<Step>) {
    forall id :: TaskOk(gated, For(j, id))
  }

  /** Interleaving different tasks never breaks the lifecycle: if each part continues
      its own task legally, the interleaved journal is legal. */
  lemma InterleavingLegal(gated: string -> bool, j: seq<Step>, z: seq<Step>, parts: seq<seq<Step>>, ids: seq<string>)
    requires JournalOk(gated, j) && Interleaves(z, parts) && Owned(parts, ids)
    requires forall k :: 0 <= k < |ids| ==> TaskOk(gated, For(j, ids[k]) + parts[k])
    ensures JournalOk(gated, j + z)
  {
    InterleavingKeepsHistories(z, parts, ids);
    forall id ensures TaskOk(gated, For(j + z, id)) {
      ForConcat(j, z, id);
      if id in ids {
        var k :| 0 <= k < |ids| && ids[k] == id;
        assert For(z, id) == parts[k];
      } else {
        assert For(j, id) + [] == For(j, id);
      }
    }
  }

  // ---------------------------------------------------------------------------
  // Equality up to time
  // ---------------------------------------------------------------------------

  predicate AlikeResult(a: Option<TaskResult>, b: Option<TaskResult>) {
    && (a.Some? <==> b.Some?)
    && (a.Some? ==> a.value.success == b.value.success && a.value.output == b.value.output
                    && a.value.error == b.value.error && (a.value.startedAt.Some? <==> b.value.startedAt.Some?))
  }

  predicate AlikeEntry(a: AuditEntry, b: AuditEntry) {
    a.(timestamp := 0) == b.(timestamp := 0)
  }

  predicate AlikeTrail(a: seq<AuditEntry>, b: seq<AuditEntry>) {
    |a| == |b| && forall i :: 0 <= i < |a| ==> AlikeEntry(a[i], b[i])
  }

  /** Equal in everything but the recorded times. */
  predicate Alike(a: TaskRecord, b: TaskRecord) {
    && a.id == b.id && a.name == b.name && a.capability == b.capability && a.input == b.input
    && a.status == b.status && a.attempt == b.attempt && a.maxRetries == b.maxRetries
    && a.workflowId == b.workflowId && AlikeResult(a.result, b.result) && AlikeTrail(a.trail, b.trail)
  }

  predicate AlikeStep(a: Step, b: Step) {
    match (a, b)
    case (Saved(r), Saved(s)) => Alike(r, s)
    case (Emitted(e), Emitted(f)) => e == f
    case (Executed(i, k, x), Executed(j, l, y)) => i == j && k == l && x == y
    case _ => false
  }

  predicate AlikeSteps(a: seq<Step>, b: seq<Step>) {
    |a| == |b| && forall i :: 0 <= i < |a| ==> AlikeStep(a[i], b[i])
  }

  predicate AlikeRun(o: RunResult, p: RunResult) {
    AlikeSteps(o.steps, p.steps) && Alike(o.rec, p.rec) && o.failures == p.failures && o.error == p.error
  }

  lemma ThenAlike(a: seq<Step>, b: seq<Step>, o: RunResult, p: RunResult)
    requires AlikeSteps(a, b) && AlikeRun(o, p)
    ensures AlikeRun(Then(a, o), Then(b, p))
  {
  }

  /** Logging the same entry at different times. */
  lemma LoggedAlike(r: TaskRecord, s: TaskRecord, t: int, u: int, actor: string, a: Action,
                    from: Option<Status>, to: Option<Status>)
    requires Alike(r, s)
    ensures Alike(Logged(r, t, actor, a, from, to), Logged(s, u, actor, a, from, to))
  {
  }

  lemma AnnounceAlike(r: TaskRecord, s: TaskRecord)
    requires Alike(r, s) && r.trail != [] && KindOf(LastAction(r)).Some?
    ensures KindOf(LastAction(s)).Some? && AlikeSteps(Announce(r), Announce(s))
    ensures AlikeRun(RunResult(Announce(r), r, [], None), RunResult(Announce(s), s, [], None))
  {
    assert AlikeEntry(r.trail[|r.trail| - 1], s.trail[|s.trail| - 1]);
  }

  /** Same supervisor, another clock. */
  ghost predicate SameButClock(a: Config, b: Config) {
    a == b.(clock := a.clock)
  }

  predicate AlikePass(p: Pass, q: Pass) {
    match (p, q)
    case (Over(o), Over(u)) => AlikeRun(o, u)
    case (Again(a, r, f), Again(b, s, g)) => AlikeSteps(a, b) && Alike(r, s) && f == g
    case _ => false
  }

  lemma AfterFailureAlike(threshold: Option<int>, r: TaskRecord, s: TaskRecord, failures: seq<FailureContext>,
                          d: RetryDecision, message: string, begun: int, begun': int, t: int, u: int)
    requires Alike(r, s)
    ensures AlikePass(AfterFailure(threshold, r, failures, d, message, begun, t),
                      AfterFailure(threshold, s, failures, d, message, begun', u))
  {
    if d.shouldRetry && !ShouldEscalate(threshold, |failures|) {
      LoggedAlike(Retrying(r, d), Retrying(s, d), t, u, "supervisor", Retry(r.attempt + 1),
                  Some(Running), Some(Running));
      AnnounceAlike(Relaunched(r, d, t), Relaunched(s, d, u));
    } else {
      var r', s' := if d.shouldRetry then Retrying(r, d) else r, if d.shouldRetry then Retrying(s, d) else s;
      HandedOverAlike(r', s', message, |failures|, begun, begun', t, u);
      GaveUpAlike(r', s', message, begun, begun', t, u);
    }
  }

  lemma HandedOverAlike(r: TaskRecord, s: TaskRecord, message: string, k: nat, begun: int, begun': int, t: int, u: int)
    requires Alike(r, s)
    ensures Alike(HandedOver(r, message, k, begun, t), HandedOver(s, message, k, begun', u))
    ensures AlikeSteps(Announce(HandedOver(r, message, k, begun, t)), Announce(HandedOver(s, message, k, begun', u)))
  {
    AnnounceAlike(HandedOver(r, message, k, begun, t), HandedOver(s, message, k, begun', u));
  }

  lemma GaveUpAlike(r: TaskRecord, s: TaskRecord, message: string, begun: int, begun': int, t: int, u: int)
    requires Alike(r, s)
    ensures Alike(GaveUp(r, message, begun, t), GaveUp(s, message, begun', u))
    ensures AlikeSteps(Announce(GaveUp(r, message, begun, t)), Announce(GaveUp(s, message, begun', u)))
  {
    AnnounceAlike(GaveUp(r, message, begun, t), GaveUp(s, message, begun', u));
  }

  lemma OnePassAlike(a: Config, b: Config, world: World, r: TaskRecord, s: TaskRecord,
                     failures: seq<FailureContext>, begun: int, begun': int, n: nat, m: nat)
    requires SameButClock(a, b) && Alike(r, s) && 1 <= r.attempt
    ensures AlikePass(OnePass(a, world, r, failures, begun, n), OnePass(b, world, s, failures, begun', m))
  {
    match world.attempts(r.attempt)
    case Aborts =>
    case Succeeds(output) =>
      AnnounceAlike(Finished(r, output, begun, a.clock(n + 1)), Finished(s, output, begun', b.clock(m + 1)));
    case Fails(_, message) =>
      FailingPassAlike(a, b, world, r, s, failures, begun, begun', n, m);
  }

  lemma FailingPassAlike(a: Config, b: Config, world: World, r: TaskRecord, s: TaskRecord,
                         failures: seq<FailureContext>, begun: int, begun': int, n: nat, m: nat)
    requires SameButClock(a, b) && Alike(r, s) && 1 <= r.attempt && world.attempts(r.attempt).Fails?
    ensures AlikePass(OnePass(a, world, r, failures, begun, n), OnePass(b, world, s, failures, begun', m))
  {
    var o := world.attempts(r.attempt);
    var f := FailureOf(a, r, o);
    LoggedAlike(r, s, a.clock(n + 1), b.clock(m + 1), "supervisor", RecordFailure(f), None, None);
    var noted, noted' := Noted(a, r, o, a.clock(n + 1)), Noted(b, s, o, b.clock(m + 1));
    var d := Verdict(a, world, r);
    assert d == Verdict(b, world, s);
    AfterFailureAlike(a.escalation, noted, noted', failures + [f], d, o.message, begun, begun',
                      a.clock(n + 2), b.clock(m + 2));
    AfterAlike([Executed(r.id, r.attempt, r.input)] + [Saved(noted)],
               [Executed(s.id, s.attempt, s.input)] + [Saved(noted')],
               AfterFailure(a.escalation, noted, failures + [f], d, o.message, begun, a.clock(n + 2)),
               AfterFailure(a.escalation, noted', failures + [f], d, o.message, begun', b.clock(m + 2)));
  }

  lemma AfterAlike(a: seq<Step>, b: seq<Step>, p: Pass, q: Pass)
    requires AlikeSteps(a, b) && AlikePass(p, q)
    ensures AlikePass(After(a, p), After(b, q))
  {
  }

  lemma {:induction false} AttemptsAlike(a: Config, b: Config, world: World, r: TaskRecord, s: TaskRecord,
                                         failures: seq<FailureContext>, begun: int, begun': int, n: nat, m: nat)
    requires SameButClock(a, b) && Alike(r, s) && 1 <= r.attempt
    ensures AlikeRun(Attempts(a, world, r, failures, begun, n), Attempts(b, world, s, failures, begun', m))
    decreases RetriesLeft(r)
  {
    OnePassAlike(a, b, world, r, s, failures, begun, begun', n, m);
    var p := OnePass(a, world, r, failures, begun, n);
    var q := OnePass(b, world, s, failures, begun', m);
    if p.Again? {
      AttemptsAlike(a, b, world, p.rec, q.rec, p.failures, begun, begun', n + 4, m + 4);
      ThenAlike(p.steps, q.steps, Attempts(a, world, p.rec, p.failures, begun, n + 4),
                Attempts(b, world, q.rec, q.failures, begun', m + 4));
    }
  }

  lemma BeginAlike(a: Config, b: Config, world: World, r: TaskRecord, s: TaskRecord, n: nat, m: nat)
    requires SameButClock(a, b) && Alike(r, s)
    ensures AlikeRun(Begin(a, world, r, n), Begin(b, world, s, m))
  {
    var begun, begun' := Begun(r, a.clock(n)), Begun(s, b.clock(m));
    AnnounceAlike(begun, begun');
    AttemptsAlike(a, b, world, begun, begun', [], a.clock(n), b.clock(m), n + 2, m + 2);
    ThenAlike(Announce(begun), Announce(begun'), Attempts(a, world, begun, [], a.clock(n), n + 2),
              Attempts(b, world, begun', [], b.clock(m), m + 2));
  }

  lemma LaunchAlike(a: Config, b: Config, world: World, r: TaskRecord, s: TaskRecord, n: nat, m: nat)
    requires SameButClock(a, b) && Alike(r, s)
    ensures AlikeRun(Launch(a, world, r, n), Launch(b, world, s, m))
  {
    match world.suggestion
    case SuggestionRaises =>
    case NoSuggestion => BeginAlike(a, b, world, r, s, n, m);
    case Suggestion(adjustment) =>
      var advised, advised' := Advised(r, adjustment, a.clock(n)), Advised(s, adjustment, b.clock(m));
      BeginAlike(a, b, world, advised, advised', n + 1, m + 1);
      ThenAlike([Saved(advised)], [Saved(advised')],
                Begin(a, world, advised, n + 1), Begin(b, world, advised', m + 1));
  }

  /** A run depends on the clock only in the times it stamps. */
  lemma RunAlike(a: Config, b: Config, world: World, r: TaskRecord, s: TaskRecord, n: nat, m: nat)
    requires SameButClock(a, b) && Alike(r, s)
    ensures AlikeRun(Run(a, world, r, n), Run(b, world, s, m))
  {
    if !Executable(r.status) || !ValidSubmission(a.registry, r.name, r.capability, r.input) {
    } else if r.status == Approved {
      LaunchAlike(a, b, world, r, s, n, m);
    } else if Gated(a.registry)(r.capability) || !world.policy.PolicyAllow? {
      HeldAlike(a, b, world, r, s, n, m);
    } else {
      var admitted, admitted' := Admit(r, a.clock(n)), Admit(s, b.clock(m));
      LaunchAlike(a, b, world, admitted, admitted', n + 1, m + 1);
      ThenAlike([Saved(admitted)], [Saved(admitted')],
                Launch(a, world, admitted, n + 1), Launch(b, world, admitted', m + 1));
    }
  }

  lemma HeldAlike(a: Config, b: Config, world: World, r: TaskRecord, s: TaskRecord, n: nat, m: nat)
    requires SameButClock(a, b) && Alike(r, s) && r.status == Pending
    requires Gated(a.registry)(r.capability) || !world.policy.PolicyAllow?
    ensures AlikeRun(Run(a, world, r, n), Run(b, world, s, m))
  {
    if Gated(a.registry)(r.capability) {
      HoldAlike(r, s, "supervisor", a.clock(n), b.clock(m));
    } else if world.policy.PolicyRequireApproval? {
      HoldAlike(r, s, "policy", a.clock(n), b.clock(m));
    } else if world.policy.PolicyDeny? {
      DeniedAlike(r, s, world.policy.reason, a.clock(n), b.clock(m));
    }
  }

  lemma HoldAlike(r: TaskRecord, s: TaskRecord, actor: string, t: int, u: int)
    requires Alike(r, s)
    ensures
      var x := Moved(r, AwaitingApproval, t, actor, AwaitApproval);
      var y := Moved(s, AwaitingApproval, u, actor, AwaitApproval);
      AlikeRun(RunResult(Announce(x), x, [], None), RunResult(Announce(y), y, [], None))
  {
    AnnounceAlike(Moved(r, AwaitingApproval, t, actor, AwaitApproval),
                  Moved(s, AwaitingApproval, u, actor, AwaitApproval));
  }

  lemma DeniedAlike(r: TaskRecord, s: TaskRecord, reason: Option<string>, t: int, u: int)
    requires Alike(r, s)
    ensures
      var x, y := Denied(r, reason, t), Denied(s, reason, u);
      AlikeRun(RunResult(Announce(x), x, [], None), RunResult(Announce(y), y, [], None))
  {
    AnnounceAlike(Denied(r, reason, t), Denied(s, reason, u));
  }

  // ---------------------------------------------------------------------------
  // Parallel batches
  // ---------------------------------------------------------------------------

  datatype Job = Job(submission: TaskSubmission, id: string, world: World)

  predicate Accepted(cfg: Config, job: Job) {
    ValidSubmission(cfg.registry, job.submission.name, job.submission.capability, job.submission.input)
  }

  /** `run_submission` of one job: validate, create the record, save it, run it. */
  function JobSteps(cfg: Config, job: Job): seq<Step> {
    var r := NewRecord(job.submission, job.id, cfg.clock(0));
    if Accepted(cfg, job) then [Saved(r)] + Run(cfg, job.world, r, 1).steps else []
  }

  function JobRecord(cfg: Config, job: Job): TaskRecord {
    Run(cfg, job.world, NewRecord(job.submission, job.id, cfg.clock(0)), 1).rec
  }

  lemma JobAlike(a: Config, b: Config, job: Job)
    requires SameButClock(a, b)
    ensures AlikeSteps(JobSteps(a, job), JobSteps(b, job)) && Alike(JobRecord(a, job), JobRecord(b, job))
  {
    var r, s := NewRecord(job.submission, job.id, a.clock(0)), NewRecord(job.submission, job.id, b.clock(0));
    RunAlike(a, b, job.world, r, s, 1, 1);
    ThenAlike([Saved(r)], [Saved(s)], Run(a, job.world, r, 1), Run(b, job.world, s, 1));
  }

  lemma JobLegal(cfg: Config, job: Job)
    ensures TaskOk(Gated(cfg.registry), JobSteps(cfg, job)) && OnlyAbout(JobSteps(cfg, job), job.id)
    ensures Accepted(cfg, job) ==> Stored(JobSteps(cfg, job)) == Some(JobRecord(cfg, job))
  {
    if Accepted(cfg, job) {
      var gated := Gated(cfg.registry);
      var r := NewRecord(job.submission, job.id, cfg.clock(0));
      assert [] + [Saved(r)] == [Saved(r)];
      Extend(gated, [], Saved(r));
      RunLegal([Saved(r)], cfg, job.world, r, 1);
      OneTask(gated, JobSteps(cfg, job));
    }
  }

  /** A legal history is about one task. */
  lemma {:induction false} OneTask(gated: string -> bool, h: seq<Step>)
    requires TaskOk(gated, h) && h != []
    ensures Stored(h).Some? && OnlyAbout(h, Stored(h).value.id)
    ensures OnlyAbout(h, IdOf(h[0]))
  {
    PositionOf(gated, h);
    if |h| > 1 {
      var p := Front(h);
      OneTask(gated, p);
      PositionOf(gated, p);
      assert IdOf(Last(h)) == Stored(h).value.id;
      forall i | 0 <= i < |h| ensures IdOf(h[i]) == Stored(h).value.id {
        if i < |p| { assert h[i] == p[i]; }
      }
      assert h[0] == p[0];
    }
  }

  predicate AlikeStores(a: map<string, TaskRecord>, b: map<string, TaskRecord>) {
    a.Keys == b.Keys && forall id :: id in a ==> Alike(a[id], b[id])
  }

  lemma {:induction false} StoredAlike(g: seq<Step>, h: seq<Step>)
    requires AlikeSteps(g, h)
    ensures Stored(g).Some? <==> Stored(h).Some?
    ensures Stored(g).Some? ==> Alike(Stored(g).value, Stored(h).value)
  {
    if g != [] {
      assert AlikeStep(Last(g), Last(h));
      StoredAlike(Front(g), Front(h));
    }
  }

  lemma AlikeReflexive(h: seq<Step>)
    ensures AlikeSteps(h, h)
  {
  }

  function Parts(cfgs: seq<Config>, jobs: seq<Job>): (parts: seq<seq<Step>>)
    requires |cfgs| == |jobs|
    ensures |parts| == |jobs|
  {
    seq(|jobs|, k requires 0 <= k < |jobs| => JobSteps(cfgs[k], jobs[k]))
  }

  function Ids(jobs: seq<Job>): (ids: seq<string>)
    ensures |ids| == |jobs|
  {
    seq(|jobs|, k requires 0 <= k < |jobs| => jobs[k].id)
  }

  lemma PartsOwned(cfgs: seq<Config>, jobs: seq<Job>)
    requires |cfgs| == |jobs| && Distinct(Ids(jobs))
    ensures Owned(Parts(cfgs, jobs), Ids(jobs))
  {
    forall k | 0 <= k < |jobs| ensures OnlyAbout(Parts(cfgs, jobs)[k], Ids(jobs)[k]) {
      JobLegal(cfgs[k], jobs[k]);
    }
  }

  /** Parallel batches are schedule-independent: whatever order threads interleave the
      jobs' steps in, and whatever times they read, the store ends, up to those times,
      as it does when the jobs run one after another.  The jobs' ids are distinct; other
      tasks are not touched. */
  lemma BatchScheduleIndependent(j: seq<Step>, z: seq<Step>, jobs: seq<Job>, par: seq<Config>, ord: seq<Config>)
    requires |par| == |ord| == |jobs| && Distinct(Ids(jobs))
    requires forall k :: 0 <= k < |jobs| ==> SameButClock(par[k], ord[k])
    requires Interleaves(z, Parts(par, jobs))
    ensures AlikeStores(StoreAfter(j + z), StoreAfter(j + Flatten(Parts(ord, jobs))))
  {
    var y := Flatten(Parts(ord, jobs));
    PartsOwned(par, jobs);
    PartsOwned(ord, jobs);
    SequentialIsAnInterleaving(Parts(ord, jobs));
    InterleavingKeepsHistories(z, Parts(par, jobs), Ids(jobs));
    InterleavingKeepsHistories(y, Parts(ord, jobs), Ids(jobs));
    forall id
      ensures id in StoreAfter(j + z) <==> id in StoreAfter(j + y)
      ensures id in StoreAfter(j + z) ==> Alike(StoreAfter(j + z)[id], StoreAfter(j + y)[id])
    {
      SameHistory(j, z, y, jobs, par, ord, id);
    }
  }

  /** Position k of the batch's records, collected in step order, is the record the k-th
      job stored, and alike to what it returns when the jobs run one after another. */
  lemma BatchRecords(j: seq<Step>, z: seq<Step>, jobs: seq<Job>, par: seq<Config>, ord: seq<Config>, k: nat)
    requires |par| == |ord| == |jobs| && Distinct(Ids(jobs)) && k < |jobs|
    requires SameButClock(par[k], ord[k]) && Interleaves(z, Parts(par, jobs)) && Accepted(par[k], jobs[k])
    ensures Alike(JobRecord(par[k], jobs[k]), JobRecord(ord[k], jobs[k]))
    ensures jobs[k].id in StoreAfter(j + z) && StoreAfter(j + z)[jobs[k].id] == JobRecord(par[k], jobs[k])
  {
    PartsOwned(par, jobs);
    InterleavingKeepsHistories(z, Parts(par, jobs), Ids(jobs));
    assert For(z, Ids(jobs)[k]) == JobSteps(par[k], jobs[k]);
    JobAlike(par[k], ord[k], jobs[k]);
    JobStored(j, z, par[k], jobs[k]);
  }

  lemma JobStored(j: seq<Step>, z: seq<Step>, cfg: Config, job: Job)
    requires For(z, job.id) == JobSteps(cfg, job) && Accepted(cfg, job)
    ensures job.id in StoreAfter(j + z) && StoreAfter(j + z)[job.id] == JobRecord(cfg, job)
  {
    JobLegal(cfg, job);
    ForConcat(j, z, job.id);
    StoredConcat(For(j, job.id), JobSteps(cfg, job));
    StoreIsStored(j + z, job.id);
  }

  lemma SameHistory(j: seq<Step>, z: seq<Step>, y: seq<Step>, jobs: seq<Job>, par: seq<Config>, ord: seq<Config>,
                    id: string)
    requires |par| == |ord| == |jobs|
    requires forall k :: 0 <= k < |jobs| ==> SameButClock(par[k], ord[k])
    requires forall k :: 0 <= k < |jobs| ==> For(z, Ids(jobs)[k]) == Parts(par, jobs)[k]
    requires forall k :: 0 <= k < |jobs| ==> For(y, Ids(jobs)[k]) == Parts(ord, jobs)[k]
    requires id !in Ids(jobs) ==> For(z, id) == [] && For(y, id) == []
    ensures id in StoreAfter(j + z) <==> id in StoreAfter(j + y)
    ensures id in StoreAfter(j + z) ==> Alike(StoreAfter(j + z)[id], StoreAfter(j + y)[id])
  {
    ForConcat(j, z, id);
    ForConcat(j, y, id);
    if id in Ids(jobs) {
      var k :| 0 <= k < |jobs| && Ids(jobs)[k] == id;
      JobAlike(par[k], ord[k], jobs[k]);
    }
    AlikeReflexive(For(j, id));
    assert AlikeSteps(For(z, id), For(y, id));
    assert AlikeSteps(For(j, id) + For(z, id), For(j, id) + For(y, id));
    StoredAlike(For(j + z, id), For(j + y, id));
    StoreIsStored(j + z, id);
    StoreIsStored(j + y, id);
  }

  lemma {:induction false} StoredConcat(g: seq<Step>, h: seq<Step>)
    ensures Stored(g + h) == if Stored(h).Some? then Stored(h) else Stored(g)
  {
    if h == [] {
      assert g + h == g;
    } else {
      assert Front(g + h) == g + Front(h);
      StoredConcat(g, Front(h));
    }
  }
}

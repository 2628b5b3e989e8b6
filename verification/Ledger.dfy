/** The books of a supervisor and its guild over many runs: the successes the guild has
    counted are the tasks that completed, and the failures it has counted are the executions
    of the tasks that failed or were escalated. */
module Ledger {
  import opened Tasks
  import opened Journals
  import opened Runs
  import opened Outcomes
  import opened Guild
  import opened Accounts

  ghost function Total(m: map<string, nat>): nat {
    if m == map[] then 0
    else
      var k :| k in m;
      m[k] + Total(m - {k})
  }

  lemma {:induction false} TotalRemove(m: map<string, nat>, k: string)
    requires k in m
    ensures Total(m) == m[k] + Total(m - {k})
    decreases |m|
  {
    var j :| j in m && Total(m) == m[j] + Total(m - {j});
    if j != k {
      TotalRemove(m - {j}, k);
      TotalRemove(m - {k}, j);
      assert m - {j} - {k} == m - {k} - {j};
    }
  }

  lemma TotalAdd(m: map<string, nat>, k: string, v: nat)
    requires k !in m
    ensures Total(m[k := v]) == Total(m) + v
  {
    TotalRemove(m[k := v], k);
    assert m[k := v] - {k} == m;
  }

  function CompletedIds(store: map<string, TaskRecord>): set<string> {
    set id | id in store && store[id].status == Completed
  }

  predicate EndedInFailure(s: Status) {
    s == Failed || s == Escalated
  }

  /** The executions of each task that failed or was escalated: one per `started` or `retry`
      entry of its trail. */
  function SpentOn(store: map<string, TaskRecord>): map<string, nat> {
    map id | id in store && EndedInFailure(store[id].status) :: 1 + CountRetries(store[id].trail)
  }

  /** The guild's totals, over what they were at first, are the supervisor's. */
  ghost predicate Balanced(store: map<string, TaskRecord>, rs: seq<GuildRecord>, successes: nat, failures: nat) {
    TotalSuccesses(rs) == successes + |CompletedIds(store)| && TotalFailures(rs) == failures + Total(SpentOn(store))
  }

  /** A task whose run has not ended counts nowhere. */
  predicate Open(s: Status) {
    s != Completed && !EndedInFailure(s)
  }

  lemma OpenEntry(store: map<string, TaskRecord>, id: string, r: TaskRecord)
    requires Open(r.status) && (id in store ==> Open(store[id].status))
    ensures CompletedIds(store[id := r]) == CompletedIds(store) && SpentOn(store[id := r]) == SpentOn(store)
  {
  }

  /** Moving a task from one open status to another leaves the books as they are. */
  lemma OpenBalances(store: map<string, TaskRecord>, id: string, r: TaskRecord)
    requires Open(r.status) && (id in store ==> Open(store[id].status))
    ensures forall rs, successes: nat, failures: nat ::
      Balanced(store, rs, successes, failures) ==> Balanced(store[id := r], rs, successes, failures)
  {
    OpenEntry(store, id, r);
  }

  lemma CompletedGains(store: map<string, TaskRecord>, id: string, r: TaskRecord)
    requires r.status == Completed && (id in store ==> Open(store[id].status))
    ensures CompletedIds(store[id := r]) == CompletedIds(store) + {id} && id !in CompletedIds(store)
    ensures SpentOn(store[id := r]) == SpentOn(store)
  {
  }

  lemma CompletedEntry(store: map<string, TaskRecord>, id: string, r: TaskRecord)
    requires r.status == Completed && (id in store ==> Open(store[id].status))
    ensures |CompletedIds(store[id := r])| == |CompletedIds(store)| + 1 && SpentOn(store[id := r]) == SpentOn(store)
  {
    CompletedGains(store, id, r);
  }

  lemma SpentGains(store: map<string, TaskRecord>, id: string, r: TaskRecord)
    requires EndedInFailure(r.status) && (id in store ==> Open(store[id].status))
    ensures CompletedIds(store[id := r]) == CompletedIds(store) && id !in SpentOn(store)
    ensures SpentOn(store[id := r]) == SpentOn(store)[id := 1 + CountRetries(r.trail)]
  {
  }

  lemma FailureEntry(store: map<string, TaskRecord>, id: string, r: TaskRecord)
    requires EndedInFailure(r.status) && (id in store ==> Open(store[id].status))
    ensures CompletedIds(store[id := r]) == CompletedIds(store)
    ensures Total(SpentOn(store[id := r])) == Total(SpentOn(store)) + 1 + CountRetries(r.trail)
  {
    SpentGains(store, id, r);
    TotalAdd(SpentOn(store), id, 1 + CountRetries(r.trail));
  }

  /** What a run executes is what its record's trail says, for a task that had not started. */
  lemma RunCounted(h: seq<Step>, cfg: Config, world: World, r: TaskRecord, n: nat)
    requires TaskOk(Gated(cfg.registry), h) && h != [] && Stored(h) == Some(r) && Quiet(h) && Executable(r.status)
    ensures
      var o := Run(cfg, world, r, n);
      r.attempt == 0 && (EndedInFailure(o.rec.status) ==> Executions(o.steps) == 1 + CountRetries(o.rec.trail))
  {
    var gated := Gated(cfg.registry);
    var o := Run(cfg, world, r, n);
    AuditReplay(gated, h);
    RunLegal(h, cfg, world, r, n);
    QuietAccounts(gated, h);
    QuietAccounts(gated, h + o.steps);
    ExecutionsConcat(h, o.steps);
  }

  lemma LaunchedRunEnds(cfg: Config, world: World, r: TaskRecord, n: nat)
    requires Launches(cfg, world, r) && r.attempt == 0
    ensures
      var o := Run(cfg, world, r, n);
      o.error.Some? ==> o.rec.status == Running
  {
    RunOutcome(cfg, world, r, n);
  }

  /** Running a stored task that evicts nothing keeps the books balanced. */
  lemma RunBalances(h: seq<Step>, cfg: Config, world: World, store: map<string, TaskRecord>, id: string, n: nat,
                    g: GuildSettings, rs: seq<GuildRecord>, successes: nat, failures: nat)
    requires id in store
    requires TaskOk(Gated(cfg.registry), h) && h != [] && Stored(h) == Some(store[id]) && Quiet(h)
    requires g.enabled && UniqueKeys(rs) && Evicted(g, cfg, world, rs, store[id], n) == 0
    requires Balanced(store, rs, successes, failures)
    ensures Balanced(store[id := Run(cfg, world, store[id], n).rec], GuildAfter(g, cfg, world, rs, store[id], n),
                     successes, failures)
  {
    var r := store[id];
    if Launches(cfg, world, r) {
      LaunchBalances(h, cfg, world, store, id, n, g, rs, successes, failures);
    } else {
      StaysOpen(cfg, world, r, n);
      var rec := Run(cfg, world, r, n).rec;
      if rec == r {
        assert store[id := rec] == store;
      } else {
        OpenEntry(store, id, rec);
      }
    }
  }

  lemma StaysOpen(cfg: Config, world: World, r: TaskRecord, n: nat)
    requires !Launches(cfg, world, r)
    ensures
      var rec := Run(cfg, world, r, n).rec;
      rec == r || (Open(r.status) && Open(rec.status))
  {
    IdleRun(cfg, world, r, n);
    if !Executable(r.status) {
      assert Run(cfg, world, r, n).rec == r;
    }
  }

  lemma LaunchBalances(h: seq<Step>, cfg: Config, world: World, store: map<string, TaskRecord>, id: string, n: nat,
                       g: GuildSettings, rs: seq<GuildRecord>, successes: nat, failures: nat)
    requires id in store && Launches(cfg, world, store[id])
    requires TaskOk(Gated(cfg.registry), h) && h != [] && Stored(h) == Some(store[id]) && Quiet(h)
    requires g.enabled && UniqueKeys(rs) && Evicted(g, cfg, world, rs, store[id], n) == 0
    requires Balanced(store, rs, successes, failures)
    ensures Balanced(store[id := Run(cfg, world, store[id], n).rec], GuildAfter(g, cfg, world, rs, store[id], n),
                     successes, failures)
  {
    var r := store[id];
    var o, after := Run(cfg, world, r, n), GuildAfter(g, cfg, world, rs, r, n);
    RunCounted(h, cfg, world, r, n);
    RunAccounts(cfg, world, r, n, g, rs);
    LaunchedRunEnds(cfg, world, r, n);
    Booked(store, id, o, rs, after, successes, failures);
  }

  lemma Booked(store: map<string, TaskRecord>, id: string, o: RunResult, rs: seq<GuildRecord>, after: seq<GuildRecord>,
               successes: nat, failures: nat)
    requires id in store && Executable(store[id].status) && Balanced(store, rs, successes, failures)
    requires Credited(o, rs, after)
    requires o.error.Some? ==> o.rec.status == Running
    requires EndedInFailure(o.rec.status) ==> Executions(o.steps) == 1 + CountRetries(o.rec.trail)
    ensures Balanced(store[id := o.rec], after, successes, failures)
  {
    if o.rec.status == Completed {
      CompletedEntry(store, id, o.rec);
    } else if EndedInFailure(o.rec.status) {
      FailureEntry(store, id, o.rec);
    } else {
      OpenEntry(store, id, o.rec);
    }
  }
}

/** What a finished run teaches the guild, and that the guild's totals and the
    supervisor's executions are one account. */
module Accounts {
  import opened Tasks
  import opened Journals
  import opened Runs
  import opened Outcomes
  import opened Guild

  datatype GuildSettings = GuildSettings(enabled: bool, project: Option<string>, maxRecords: int, emptyInput: string)

  const ESCALATED_HINT := "Escalated \U{2014} no further retries attempted"
  const FAILED_HINT := "All retries exhausted \U{2014} task failed"

  function NoticeOf(g: GuildSettings, capability: string, hint: Option<string>): Notice {
    Notice(capability, None, hint, None, g.project)
  }

  /** The records before the limit is enforced. */
  function Taught(g: GuildSettings, fingerprint: Payload -> string, rs: seq<GuildRecord>,
                  r: TaskRecord, failures: seq<FailureContext>, now: nat -> int): seq<GuildRecord>
  {
    if r.status == Completed then
      ReportSuccess(rs, NoticeOf(g, r.capability, None), fingerprint(r.input), now(0))
    else
      ReportAll(rs, NoticeOf(g, r.capability, Some(if r.status == Escalated then ESCALATED_HINT else FAILED_HINT)),
                failures, g.emptyInput, now)
  }

  /** The guild's records after a run that executed and left record `r`. */
  function Learned(g: GuildSettings, fingerprint: Payload -> string, rs: seq<GuildRecord>, r: TaskRecord,
                   failures: seq<FailureContext>, error: Option<Error>, now: nat -> int): seq<GuildRecord>
  {
    if !g.enabled || error.Some? then rs else Evict(Taught(g, fingerprint, rs, r, failures, now), g.maxRecords)
  }

  /** What running record `r` makes of the guild's records. */
  function GuildAfter(g: GuildSettings, cfg: Config, world: World, rs: seq<GuildRecord>, r: TaskRecord, n: nat)
    : seq<GuildRecord>
  {
    var o := Run(cfg, world, r, n);
    if Launches(cfg, world, r) then Learned(g, cfg.fingerprint, rs, o.rec, o.failures, o.error, world.guildClock)
    else rs
  }

  /** How many records that run evicts: what it teaches beyond the limit. */
  function Evicted(g: GuildSettings, cfg: Config, world: World, rs: seq<GuildRecord>, r: TaskRecord, n: nat): nat {
    var o := Run(cfg, world, r, n);
    if Launches(cfg, world, r) && g.enabled && o.error.None? then
      Excess(g, Taught(g, cfg.fingerprint, rs, o.rec, o.failures, world.guildClock))
    else 0
  }

  function Excess(g: GuildSettings, rs: seq<GuildRecord>): nat {
    if g.maxRecords > 0 && |rs| > g.maxRecords then |rs| - g.maxRecords else 0
  }

  lemma SuccessTaught(g: GuildSettings, fingerprint: Payload -> string, rs: seq<GuildRecord>, r: TaskRecord,
                      failures: seq<FailureContext>, now: nat -> int)
    requires UniqueKeys(rs) && r.status == Completed
    ensures
      var taught := Taught(g, fingerprint, rs, r, failures, now);
      && UniqueKeys(taught) && TotalSuccesses(taught) == TotalSuccesses(rs) + 1
      && TotalFailures(taught) == TotalFailures(rs)
  {
    ReportSuccessCounts(rs, NoticeOf(g, r.capability, None), fingerprint(r.input), now(0), "");
  }

  lemma FailuresTaught(g: GuildSettings, fingerprint: Payload -> string, rs: seq<GuildRecord>, r: TaskRecord,
                       failures: seq<FailureContext>, now: nat -> int)
    requires UniqueKeys(rs) && r.status != Completed
    ensures
      var taught := Taught(g, fingerprint, rs, r, failures, now);
      && UniqueKeys(taught) && TotalFailures(taught) == TotalFailures(rs) + |failures|
      && TotalSuccesses(taught) == TotalSuccesses(rs)
  {
    var note := NoticeOf(g, r.capability, Some(if r.status == Escalated then ESCALATED_HINT else FAILED_HINT));
    ReportAllCounts(rs, note, failures, g.emptyInput, now, "");
  }

  /** What a run that ended as `o` adds to the guild's totals. */
  predicate Credited(o: RunResult, before: seq<GuildRecord>, after: seq<GuildRecord>) {
    if o.error.Some? then after == before
    else if o.rec.status == Completed then
      TotalSuccesses(after) == TotalSuccesses(before) + 1 && TotalFailures(after) == TotalFailures(before)
    else
      && (o.rec.status == Failed || o.rec.status == Escalated)
      && TotalFailures(after) == TotalFailures(before) + Executions(o.steps)
      && TotalSuccesses(after) == TotalSuccesses(before)
  }

  /** Supervisor and guild accounts agree, whenever the run evicts nothing - in particular
      for a full guild that already knows the keys.  A run that completes adds exactly one
      success and no failures; one that fails or escalates adds exactly as many failures as it
      executed and no successes; one torn down before its end adds nothing. */
  lemma RunAccounts(cfg: Config, world: World, r: TaskRecord, n: nat, g: GuildSettings, rs: seq<GuildRecord>)
    requires Launches(cfg, world, r) && r.attempt == 0
    requires g.enabled && UniqueKeys(rs) && Evicted(g, cfg, world, rs, r, n) == 0
    ensures Credited(Run(cfg, world, r, n), rs, GuildAfter(g, cfg, world, rs, r, n))
  {
    var o := Run(cfg, world, r, n);
    RunOutcome(cfg, world, r, n);
    if o.error.None? {
      var taught := Taught(g, cfg.fingerprint, rs, o.rec, o.failures, world.guildClock);
      if o.rec.status == Completed {
        SuccessTaught(g, cfg.fingerprint, rs, o.rec, o.failures, world.guildClock);
      } else {
        FailuresTaught(g, cfg.fingerprint, rs, o.rec, o.failures, world.guildClock);
      }
      assert Excess(g, taught) == 0;
    }
  }

  /** `Evicted` is what eviction removes: the records taught and lost again. */
  lemma EvictedCount(cfg: Config, world: World, r: TaskRecord, n: nat, g: GuildSettings, rs: seq<GuildRecord>)
    requires UniqueKeys(rs) && g.enabled && Launches(cfg, world, r) && Run(cfg, world, r, n).error.None?
    ensures
      var o := Run(cfg, world, r, n);
      |GuildAfter(g, cfg, world, rs, r, n)| + Evicted(g, cfg, world, rs, r, n) ==
      |Taught(g, cfg.fingerprint, rs, o.rec, o.failures, world.guildClock)|
  {
    var o := Run(cfg, world, r, n);
    var taught := Taught(g, cfg.fingerprint, rs, o.rec, o.failures, world.guildClock);
    if o.rec.status == Completed {
      SuccessTaught(g, cfg.fingerprint, rs, o.rec, o.failures, world.guildClock);
    } else {
      FailuresTaught(g, cfg.fingerprint, rs, o.rec, o.failures, world.guildClock);
    }
    if g.maxRecords > 0 {
      EvictionExact(taught, g.maxRecords);
    }
  }

  lemma ReportGrows(rs: seq<GuildRecord>, note: Notice, f: Fingerprint, now: int)
    ensures |rs| <= |Report(rs, note, f, now)|
  {
    match Find(rs, ToKey(f))
    case Some(e) => PutFacts(rs, ReportAgain(e, note, now), "");
    case None => PutFacts(rs, FirstReport(note, f, now), "");
  }

  lemma {:induction false} ReportAllGrows(rs: seq<GuildRecord>, note: Notice, ctxs: seq<FailureContext>,
                                          emptyInput: string, now: nat -> int)
    ensures |rs| <= |ReportAll(rs, note, ctxs, emptyInput, now)|
  {
    if ctxs != [] {
      var n := |ctxs| - 1;
      ReportAllGrows(rs, note, ctxs[..n], emptyInput, now);
      var before := ReportAll(rs, note, ctxs[..n], emptyInput, now);
      ReportGrows(before, note, FingerprintOf(note, ctxs[n], emptyInput), now(n));
    }
  }

  lemma ReportSuccessGrows(rs: seq<GuildRecord>, note: Notice, input: string, now: int)
    ensures |rs| <= |ReportSuccess(rs, note, input, now)|
  {
    var f := Fingerprint(note.capability, SUCCESS, input);
    match Find(rs, ToKey(f))
    case Some(e) =>
      PutFacts(rs, e.(successes := e.successes + 1, updatedAt := now,
                      role := if note.role.Some? then note.role else e.role,
                      project := if note.project.Some? then note.project else e.project), "");
    case None => PutFacts(rs, GuildRecord(f, None, map[], note.role, note.project, 1, 0, now, now), "");
  }

  lemma TaughtGrows(g: GuildSettings, fingerprint: Payload -> string, rs: seq<GuildRecord>, r: TaskRecord,
                    failures: seq<FailureContext>, now: nat -> int)
    ensures |rs| <= |Taught(g, fingerprint, rs, r, failures, now)|
  {
    if r.status == Completed {
      ReportSuccessGrows(rs, NoticeOf(g, r.capability, None), fingerprint(r.input), now(0));
    } else {
      var hint := if r.status == Escalated then ESCALATED_HINT else FAILED_HINT;
      ReportAllGrows(rs, NoticeOf(g, r.capability, Some(hint)), failures, g.emptyInput, now);
    }
  }

  /** Is there no limit, or are there fewer records than it allows? */
  predicate BelowLimit(maxRecords: int, rs: seq<GuildRecord>) {
    maxRecords <= 0 || |rs| < maxRecords
  }

  /** A guild below its limit after a run has lost nothing to it, and was below it before:
      once a guild evicts it stays full. */
  lemma BelowLimitLostNothing(cfg: Config, world: World, r: TaskRecord, n: nat, g: GuildSettings, rs: seq<GuildRecord>)
    requires UniqueKeys(rs) && BelowLimit(g.maxRecords, GuildAfter(g, cfg, world, rs, r, n))
    ensures Evicted(g, cfg, world, rs, r, n) == 0 && BelowLimit(g.maxRecords, rs)
  {
    var o := Run(cfg, world, r, n);
    if Launches(cfg, world, r) && g.enabled && o.error.None? {
      EvictedCount(cfg, world, r, n, g, rs);
      TaughtGrows(g, cfg.fingerprint, rs, o.rec, o.failures, world.guildClock);
    }
  }
}

/** What the guild learns, told from the fields of the failures and from the attempts of a run:
    under which keys it counts, and what the counted records say. */
module Lessons {
  import opened Tasks
  import opened RetryPolicies
  import opened Journals
  import opened Runs
  import opened Outcomes
  import opened Transitions
  import opened Inputs
  import opened Guild
  import opened Accounts

  /** The input fingerprint a failure is filed under: its own, or that of an empty input. */
  function OwnInput(f: FailureContext, emptyInput: string): string {
    match f.inputFingerprint
    case Some(i) => if |i| > 0 then i else emptyInput
    case None => emptyInput
  }

  /** Failure `f`, published for `capability` - its own when that is empty - concerns capability
      `c`, error type `e` and input fingerprint `i`. */
  predicate Concerns(capability: string, f: FailureContext, emptyInput: string, c: string, e: string, i: string) {
    && (if |capability| > 0 then capability else f.capability) == c
    && f.errorType == e && OwnInput(f, emptyInput) == i
  }

  /** The positions of the failures that concern `c`, `e` and `i`. */
  function Positions(capability: string, ctxs: seq<FailureContext>, emptyInput: string, c: string, e: string, i: string)
    : set<nat>
  {
    set k: nat | k < |ctxs| && Concerns(capability, ctxs[k], emptyInput, c, e, i)
  }

  /** The fields of a failure and of the notice it is published with leave its key no second
      reading: the notice names the capability, or the failure's fields have no colon. */
  predicate Plain(capability: string, f: FailureContext, emptyInput: string) {
    |capability| > 0 || (ColonFree(f.errorType) && ColonFree(OwnInput(f, emptyInput)))
  }

  lemma SameTail(c: string, x: string, y: string)
    requires c + ":" + x == c + ":" + y
    ensures x == y
  {
    assert (c + ":" + x)[|c| + 1..] == x && (c + ":" + y)[|c| + 1..] == y;
  }

  lemma ReadKey(c: string, e: string, i: string, e': string, i': string)
    requires ColonFree(e) && ColonFree(i) && c + ":" + e + ":" + i == c + ":" + e' + ":" + i'
    ensures e == e' && i == i'
  {
    assert c + ":" + e + ":" + i == c + ":" + (e + ":" + i) && c + ":" + e' + ":" + i' == c + ":" + (e' + ":" + i');
    SameTail(c, e + ":" + i, e' + ":" + i');
    OneColon(e, i, e', i');
  }

  lemma OneColon(e: string, i: string, e': string, i': string)
    requires ColonFree(e) && ColonFree(i) && e + ":" + i == e' + ":" + i'
    ensures e == e' && i == i'
  {
    var z := e + ":" + i;
    forall k | 0 <= k < |z| && k != |e| ensures z[k] != ':' {
      assert z[k] == if k < |e| then e[k] else i[k - |e| - 1];
    }
    assert z[|e'|] == ':';
    assert z[..|e|] == e && z[..|e'|] == e' && z[|e| + 1..] == i && z[|e'| + 1..] == i';
  }

  /** A failure is filed under the key of exactly the triple it concerns. */
  lemma FiledUnder(note: Notice, f: FailureContext, emptyInput: string, c: string, e: string, i: string)
    requires ColonFree(e) && ColonFree(i) && Plain(note.capability, f, emptyInput)
    requires |note.capability| > 0 ==> c == note.capability
    ensures KeyOf(note, f, emptyInput) == c + ":" + e + ":" + i <==> Concerns(note.capability, f, emptyInput, c, e, i)
  {
    if KeyOf(note, f, emptyInput) == c + ":" + e + ":" + i {
      if |note.capability| > 0 {
        ReadKey(c, e, i, f.errorType, OwnInput(f, emptyInput));
      } else {
        KeyInjective(Fingerprint(c, e, i), Fingerprint(f.capability, f.errorType, OwnInput(f, emptyInput)));
      }
    }
  }

  predicate AllPlain(capability: string, ctxs: seq<FailureContext>, emptyInput: string) {
    forall k :: 0 <= k < |ctxs| ==> Plain(capability, ctxs[k], emptyInput)
  }

  lemma {:induction false} CountIsPositions(note: Notice, ctxs: seq<FailureContext>, emptyInput: string,
                                            c: string, e: string, i: string)
    requires ColonFree(e) && ColonFree(i) && AllPlain(note.capability, ctxs, emptyInput)
    requires |note.capability| > 0 ==> c == note.capability
    ensures CountKey(note, ctxs, emptyInput, c + ":" + e + ":" + i) ==
            |Positions(note.capability, ctxs, emptyInput, c, e, i)|
  {
    if ctxs == [] {
      assert Positions(note.capability, ctxs, emptyInput, c, e, i) == {};
    } else {
      var n := |ctxs| - 1;
      CountIsPositions(note, ctxs[..n], emptyInput, c, e, i);
      FiledUnder(note, ctxs[n], emptyInput, c, e, i);
      PositionsGrow(note.capability, ctxs, emptyInput, c, e, i);
    }
  }

  lemma PositionsGrow(capability: string, ctxs: seq<FailureContext>, emptyInput: string,
                      c: string, e: string, i: string)
    requires ctxs != []
    ensures
      var n := |ctxs| - 1;
      |Positions(capability, ctxs, emptyInput, c, e, i)| ==
      |Positions(capability, ctxs[..n], emptyInput, c, e, i)|
      + if Concerns(capability, ctxs[n], emptyInput, c, e, i) then 1 else 0
  {
    var n: nat := |ctxs| - 1;
    var before := Positions(capability, ctxs[..n], emptyInput, c, e, i);
    assert n !in before;
    PositionsSplit(capability, ctxs, n, emptyInput, c, e, i);
  }

  lemma PositionsSplit(capability: string, ctxs: seq<FailureContext>, n: nat, emptyInput: string,
                       c: string, e: string, i: string)
    requires |ctxs| == n + 1
    ensures Positions(capability, ctxs, emptyInput, c, e, i) ==
            Positions(capability, ctxs[..n], emptyInput, c, e, i)
            + if Concerns(capability, ctxs[n], emptyInput, c, e, i) then {n} else {}
  {
    assert forall k: nat :: k < n ==> ctxs[..n][k] == ctxs[k];
  }

  /** Counting by fields: publishing raises the failures found under `c:e:i` by exactly the
      number of failures that concern capability `c`, error type `e` and input `i`. */
  lemma FailuresByField(rs: seq<GuildRecord>, note: Notice, ctxs: seq<FailureContext>, emptyInput: string,
                        now: nat -> int, c: string, e: string, i: string)
    requires UniqueKeys(rs) && ColonFree(e) && ColonFree(i) && AllPlain(note.capability, ctxs, emptyInput)
    requires |note.capability| > 0 ==> c == note.capability
    ensures FailuresAt(ReportAll(rs, note, ctxs, emptyInput, now), c + ":" + e + ":" + i) ==
            FailuresAt(rs, c + ":" + e + ":" + i) + |Positions(note.capability, ctxs, emptyInput, c, e, i)|
  {
    ReportAllCounts(rs, note, ctxs, emptyInput, now, c + ":" + e + ":" + i);
    CountIsPositions(note, ctxs, emptyInput, c, e, i);
  }

  // ----- what a counted record says ---------------------------------------------

  function Newer<T>(a: Option<T>, b: Option<T>): Option<T> {
    if a.Some? then a else b
  }

  /** The record that one more failure leaves under its key, field by field. */
  lemma ReportedRecord(rs: seq<GuildRecord>, note: Notice, f: Fingerprint, now: int)
    ensures
      var key := f.capability + ":" + f.errorType + ":" + f.inputFingerprint;
      var was, found := Find(rs, key), Find(Report(rs, note, f, now), key);
      && found.Some?
      && var r := found.value;
         && r.fingerprint == (if was.Some? then was.value.fingerprint else f)
         && r.failures == 1 + (if was.Some? then was.value.failures else 0)
         && r.successes == (if was.Some? then was.value.successes else 0)
         && r.createdAt == (if was.Some? then was.value.createdAt else now) && r.updatedAt == now
         && r.hint == Newer(note.hint, if was.Some? then was.value.hint else None)
         && r.role == Newer(note.role, if was.Some? then was.value.role else None)
         && r.project == Newer(note.project, if was.Some? then was.value.project else None)
         && r.adjustment == (if was.Some? then was.value.adjustment else map[])
                            + (if note.adjustment.Some? then note.adjustment.value else map[])
  {
    ReportStored(rs, note, f, now);
  }

  /** The record that one success leaves, field by field.  A repeated success keeps the time of
      creation, by which eviction goes. */
  lemma SuccessRecord(rs: seq<GuildRecord>, note: Notice, input: string, now: int)
    ensures
      var key := note.capability + ":_success:" + input;
      var was, found := Find(rs, key), Find(ReportSuccess(rs, note, input, now), key);
      && found.Some?
      && var r := found.value;
         && r.fingerprint ==
            (if was.Some? then was.value.fingerprint else Fingerprint(note.capability, "_success", input))
         && r.successes == 1 + (if was.Some? then was.value.successes else 0)
         && r.failures == (if was.Some? then was.value.failures else 0)
         && r.createdAt == (if was.Some? then was.value.createdAt else now) && r.updatedAt == now
         && r.role == Newer(note.role, if was.Some? then was.value.role else None)
         && r.project == Newer(note.project, if was.Some? then was.value.project else None)
         && r.hint == (if was.Some? then was.value.hint else None)
         && r.adjustment == (if was.Some? then was.value.adjustment else map[])
  {
    var f := Fingerprint(note.capability, "_success", input);
    SuccessKey(note.capability, input);
    FindMember(rs, ToKey(f));
    match Find(rs, ToKey(f))
    case Some(e) =>
      PutFacts(rs, e.(successes := e.successes + 1, updatedAt := now,
                      role := if note.role.Some? then note.role else e.role,
                      project := if note.project.Some? then note.project else e.project), ToKey(f));
    case None =>
      PutFacts(rs, GuildRecord(f, None, map[], note.role, note.project, 1, 0, now, now), ToKey(f));
  }

  lemma SuccessKey(capability: string, input: string)
    ensures ToKey(Fingerprint(capability, "_success", input)) == capability + ":_success:" + input
  {
  }

  // ----- what a run teaches -----------------------------------------------------

  /** The fingerprint of the input of attempt `k`, or of an empty input. */
  function TriedInput(cfg: Config, world: World, r: TaskRecord, k: nat, emptyInput: string): string
    requires 1 <= k
  {
    var i := cfg.fingerprint(InputAt(cfg, world, r, FirstInput(world, r), k));
    if |i| > 0 then i else emptyInput
  }

  /** The attempts, counted from 0, of a run of `n` failures that raised `e` on input `i`. */
  function Tries(cfg: Config, world: World, r: TaskRecord, n: nat, e: string, i: string, emptyInput: string)
    : set<nat>
  {
    set k: nat | k < n && Raised(cfg, world, r, k, e, i, emptyInput)
  }

  /** The attempt after `k` others raised `e` on an input with fingerprint `i`. */
  predicate Raised(cfg: Config, world: World, r: TaskRecord, k: nat, e: string, i: string, emptyInput: string) {
    && world.attempts(k + 1).Fails? && world.attempts(k + 1).errorType == e
    && TriedInput(cfg, world, r, k + 1, emptyInput) == i
  }

  lemma TriesArePositions(cfg: Config, world: World, r: TaskRecord, failures: seq<FailureContext>,
                          c: string, e: string, i: string, emptyInput: string)
    requires FailuresOn(cfg, world, r, FirstInput(world, r), failures) && |c| > 0
    ensures Positions(c, failures, emptyInput, c, e, i) == Tries(cfg, world, r, |failures|, e, i, emptyInput)
  {
    forall k: nat | k < |failures|
      ensures k in Positions(c, failures, emptyInput, c, e, i) <==>
              k in Tries(cfg, world, r, |failures|, e, i, emptyInput)
    {
      assert FailureOn(cfg, world, r, FirstInput(world, r), failures[k], k + 1);
    }
  }

  /** A run that fails or is escalated, and evicts nothing, raises the failures found under
      `capability:e:i` by exactly the number of its attempts that raised `e` on an input with
      fingerprint `i`. */
  lemma FailedRunTeaches(cfg: Config, world: World, r: TaskRecord, n: nat, g: GuildSettings, rs: seq<GuildRecord>,
                         e: string, i: string)
    requires Launches(cfg, world, r) && r.attempt == 0
    requires Run(cfg, world, r, n).error == None && Run(cfg, world, r, n).rec.status != Completed
    requires g.enabled && UniqueKeys(rs) && Evicted(g, cfg, world, rs, r, n) == 0 && ColonFree(e) && ColonFree(i)
    ensures
      var key := r.capability + ":" + e + ":" + i;
      var limit := Limit(r.maxRetries, cfg.escalation);
      FailuresAt(GuildAfter(g, cfg, world, rs, r, n), key) ==
      FailuresAt(rs, key) + |Tries(cfg, world, r, limit, e, i, g.emptyInput)|
  {
    var o := Run(cfg, world, r, n);
    RunOutcome(cfg, world, r, n);
    RunInputs(cfg, world, r, n);
    RunKeepsTask(cfg, world, r, n);
    assert |r.capability| > 0;
    var hint := Some(if o.rec.status == Escalated then ESCALATED_HINT else FAILED_HINT);
    var note := NoticeOf(g, r.capability, hint);
    FailuresByField(rs, note, o.failures, g.emptyInput, world.guildClock, r.capability, e, i);
    TriesArePositions(cfg, world, r, o.failures, r.capability, e, i, g.emptyInput);
    FailuresTaught(g, cfg.fingerprint, rs, o.rec, o.failures, world.guildClock);
  }

  function SuccessesAt(rs: seq<GuildRecord>, key: string): nat {
    if Find(rs, key).Some? then Find(rs, key).value.successes else 0
  }

  /** A run that completes, and evicts nothing, raises the successes found under
      `capability:_success:i` by one, where `i` is the fingerprint of the input of the attempt
      that succeeded. */
  lemma CompletedRunTeaches(cfg: Config, world: World, r: TaskRecord, n: nat, g: GuildSettings, rs: seq<GuildRecord>)
    requires Launches(cfg, world, r) && r.attempt == 0
    requires Run(cfg, world, r, n).error == None && Run(cfg, world, r, n).rec.status == Completed
    requires g.enabled && UniqueKeys(rs) && Evicted(g, cfg, world, rs, r, n) == 0
    ensures
      var s := Decisive(world.attempts, 1, Limit(r.maxRetries, cfg.escalation));
      var key := r.capability + ":_success:" + cfg.fingerprint(InputAt(cfg, world, r, FirstInput(world, r), s));
      SuccessesAt(GuildAfter(g, cfg, world, rs, r, n), key) == SuccessesAt(rs, key) + 1
  {
    var o := Run(cfg, world, r, n);
    RunOutcome(cfg, world, r, n);
    RunInputs(cfg, world, r, n);
    RunKeepsTask(cfg, world, r, n);
    SuccessRecord(rs, NoticeOf(g, r.capability, None), cfg.fingerprint(o.rec.input), world.guildClock(0));
    SuccessTaught(g, cfg.fingerprint, rs, o.rec, o.failures, world.guildClock);
  }

  lemma {:induction false} AllHinted(rs: seq<GuildRecord>, note: Notice, ctxs: seq<FailureContext>, emptyInput: string,
                                     now: nat -> int, k: nat)
    requires note.hint.Some? && k < |ctxs|
    ensures
      var found := Find(ReportAll(rs, note, ctxs, emptyInput, now), KeyOf(note, ctxs[k], emptyInput));
      found.Some? && found.value.hint == note.hint
  {
    var n := |ctxs| - 1;
    var before := ReportAll(rs, note, ctxs[..n], emptyInput, now);
    var f := FingerprintOf(note, ctxs[n], emptyInput);
    var key := KeyOf(note, ctxs[k], emptyInput);
    if key == ToKey(f) {
      ReportStored(before, note, f, now(n));
    } else {
      AllHinted(rs, note, ctxs[..n], emptyInput, now, k);
      ReportCounts(before, note, f, now(n), key);
    }
  }

  /** Every failure of such a run leaves, under its key, the advice that goes with the way the
      run ended. */
  lemma FailedRunAdvises(cfg: Config, world: World, r: TaskRecord, n: nat, g: GuildSettings, rs: seq<GuildRecord>,
                         k: nat)
    requires Launches(cfg, world, r) && r.attempt == 0 && k < Limit(r.maxRetries, cfg.escalation)
    requires Run(cfg, world, r, n).error == None && Run(cfg, world, r, n).rec.status != Completed
    requires g.enabled && UniqueKeys(rs) && Evicted(g, cfg, world, rs, r, n) == 0
    ensures world.attempts(k + 1).Fails?
    ensures
      var input := TriedInput(cfg, world, r, k + 1, g.emptyInput);
      var key := r.capability + ":" + world.attempts(k + 1).errorType + ":" + input;
      var found := Find(GuildAfter(g, cfg, world, rs, r, n), key);
      found.Some? && found.value.hint == Some(
        if Run(cfg, world, r, n).rec.status == Escalated then "Escalated \U{2014} no further retries attempted"
        else "All retries exhausted \U{2014} task failed")
  {
    var o := Run(cfg, world, r, n);
    RunOutcome(cfg, world, r, n);
    RunInputs(cfg, world, r, n);
    RunKeepsTask(cfg, world, r, n);
    assert |r.capability| > 0;
    var hint := Some(if o.rec.status == Escalated then ESCALATED_HINT else FAILED_HINT);
    assert FailureOn(cfg, world, r, FirstInput(world, r), o.failures[k], k + 1);
    AllHinted(rs, NoticeOf(g, r.capability, hint), o.failures, g.emptyInput, world.guildClock, k);
    FailuresTaught(g, cfg.fingerprint, rs, o.rec, o.failures, world.guildClock);
  }
}

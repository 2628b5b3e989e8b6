/** Guild knowledge (engine/guild/interface.py, store.py, knowledge.py): fingerprints and
    their keys, the record dictionary in insertion order, publishing and eviction. */
module Guild {
  import opened Tasks
  import opened Sorting

  datatype Fingerprint = Fingerprint(capability: string, errorType: string, inputFingerprint: string)

  function ToKey(f: Fingerprint): string {
    f.capability + ":" + f.errorType + ":" + f.inputFingerprint
  }

  datatype GuildRecord = GuildRecord(
    fingerprint: Fingerprint,
    hint: Option<string>,
    adjustment: Payload,
    role: Option<string>,
    project: Option<string>,
    successes: nat,
    failures: nat,
    createdAt: int,
    updatedAt: int)

  function Key(r: GuildRecord): string {
    ToKey(r.fingerprint)
  }

  // ---------------------------------------------------------------------------
  // Keys
  // ---------------------------------------------------------------------------

  predicate ColonFree(s: string) {
    ':' !in s
  }

  lemma LongerTailHasColon(x: string, y: string, x': string, y': string)
    requires x + ":" + y == x' + ":" + y' && |y| < |y'|
    ensures ':' in y'
  {
    var z := x + ":" + y;
    assert z[|z| - 1 - |y|] == ':';
    assert z[|z| - 1 - |y|] == y'[|y'| - 1 - |y|];
  }

  /** A string has one reading as `x ":" y` with a colon-free `y`. */
  lemma SplitAtLastColon(x: string, y: string, x': string, y': string)
    requires ColonFree(y) && ColonFree(y') && x + ":" + y == x' + ":" + y'
    ensures x == x' && y == y'
  {
    if |y| < |y'| {
      LongerTailHasColon(x, y, x', y');
    } else if |y'| < |y| {
      LongerTailHasColon(x', y', x, y);
    } else {
      var z := x + ":" + y;
      assert x == z[..|x|] && x' == z[..|x|];
      assert y == z[|x| + 1..] && y' == z[|x| + 1..];
    }
  }

  /** Keys identify fingerprints whose error type and input fingerprint have no colon. */
  lemma KeyInjective(f: Fingerprint, g: Fingerprint)
    requires ColonFree(f.errorType) && ColonFree(f.inputFingerprint)
    requires ColonFree(g.errorType) && ColonFree(g.inputFingerprint)
    requires ToKey(f) == ToKey(g)
    ensures f == g
  {
    SplitAtLastColon(f.capability + ":" + f.errorType, f.inputFingerprint,
                     g.capability + ":" + g.errorType, g.inputFingerprint);
    SplitAtLastColon(f.capability, f.errorType, g.capability, g.errorType);
  }

  function Colons(s: string): nat {
    if s == "" then 0 else Colons(s[..|s| - 1]) + if s[|s| - 1] == ':' then 1 else 0
  }

  lemma {:induction false} ColonsConcat(s: string, t: string)
    ensures Colons(s + t) == Colons(s) + Colons(t)
  {
    if t == "" {
      assert s + t == s;
    } else {
      assert (s + t)[..|s + t| - 1] == s + t[..|t| - 1];
      ColonsConcat(s, t[..|t| - 1]);
    }
  }

  lemma {:induction false} NoColons(s: string)
    ensures Colons(s) == 0 <==> ColonFree(s)
  {
    if s != "" {
      var p := s[..|s| - 1];
      NoColons(p);
      assert s == p + [s[|s| - 1]];
    }
  }

  lemma ColonsOfKey(f: Fingerprint)
    ensures Colons(ToKey(f)) == Colons(f.capability) + Colons(f.errorType) + Colons(f.inputFingerprint) + 2
  {
    ColonsConcat(f.capability + ":" + f.errorType + ":", f.inputFingerprint);
    ColonsConcat(f.capability + ":" + f.errorType, ":");
    ColonsConcat(f.capability + ":", f.errorType);
    ColonsConcat(f.capability, ":");
    assert ":"[..0] == "";
    assert Colons(":") == 1;
  }

  /** The text around a colon. */
  lemma CutAtColon(s: string) returns (before: string, after: string)
    requires !ColonFree(s)
    ensures s == before + ":" + after
  {
    var i :| 0 <= i < |s| && s[i] == ':';
    before, after := s[..i], s[i + 1..];
  }

  /** Another fingerprint with the same key, when some field has a colon. */
  lemma Confusable(f: Fingerprint) returns (g: Fingerprint)
    requires !(ColonFree(f.capability) && ColonFree(f.errorType) && ColonFree(f.inputFingerprint))
    ensures g != f && ToKey(g) == ToKey(f)
  {
    var c, e, i := f.capability, f.errorType, f.inputFingerprint;
    if !ColonFree(e) {
      var e1, e2 := CutAtColon(e);
      g := Fingerprint(c + ":" + e1, e2, i);
      assert ToKey(f) == c + ":" + (e1 + ":" + e2) + ":" + i == c + ":" + e1 + ":" + e2 + ":" + i;
      assert |g.capability| > |c|;
    } else if !ColonFree(i) {
      var i1, i2 := CutAtColon(i);
      g := Fingerprint(c + ":" + e, i1, i2);
      assert ToKey(f) == c + ":" + e + ":" + (i1 + ":" + i2) == c + ":" + e + ":" + i1 + ":" + i2;
      assert |g.capability| > |c|;
    } else {
      var c1, c2 := CutAtColon(c);
      g := Fingerprint(c1, c2, e + ":" + i);
      assert ToKey(f) == c1 + ":" + c2 + ":" + e + ":" + i == c1 + ":" + c2 + ":" + (e + ":" + i);
      assert |g.capability| < |c|;
    }
  }

  /** Without restriction on the other fingerprint, a key is unambiguous exactly when
      none of the three fields contains a colon. */
  lemma KeyUnambiguousIff(f: Fingerprint)
    ensures (forall g :: ToKey(g) == ToKey(f) ==> g == f) <==>
            ColonFree(f.capability) && ColonFree(f.errorType) && ColonFree(f.inputFingerprint)
  {
    if ColonFree(f.capability) && ColonFree(f.errorType) && ColonFree(f.inputFingerprint) {
      forall g | ToKey(g) == ToKey(f) ensures g == f {
        ColonsOfKey(f);
        ColonsOfKey(g);
        NoColons(f.capability);
        NoColons(f.errorType);
        NoColons(f.inputFingerprint);
        NoColons(g.errorType);
        NoColons(g.inputFingerprint);
        KeyInjective(f, g);
      }
    } else {
      var g := Confusable(f);
    }
  }

  // ---------------------------------------------------------------------------
  // The record dictionary
  // ---------------------------------------------------------------------------

  /** A dictionary in insertion order: at most one record per key. */
  predicate UniqueKeys(rs: seq<GuildRecord>) {
    forall i, j :: 0 <= i < j < |rs| ==> Key(rs[i]) != Key(rs[j])
  }

  function Find(rs: seq<GuildRecord>, key: string): Option<GuildRecord> {
    if rs == [] then None
    else if Key(rs[0]) == key then Some(rs[0])
    else Find(rs[1..], key)
  }

  /** Overwrite in place, or append. */
  function Put(rs: seq<GuildRecord>, r: GuildRecord): seq<GuildRecord> {
    if rs == [] then [r]
    else if Key(rs[0]) == Key(r) then [r] + rs[1..]
    else [rs[0]] + Put(rs[1..], r)
  }

  function Remove(rs: seq<GuildRecord>, key: string): seq<GuildRecord> {
    if rs == [] then []
    else if Key(rs[0]) == key then rs[1..]
    else [rs[0]] + Remove(rs[1..], key)
  }

  function TotalFailures(rs: seq<GuildRecord>): nat {
    if rs == [] then 0 else rs[0].failures + TotalFailures(rs[1..])
  }

  function TotalSuccesses(rs: seq<GuildRecord>): nat {
    if rs == [] then 0 else rs[0].successes + TotalSuccesses(rs[1..])
  }

  function FailuresAt(rs: seq<GuildRecord>, key: string): nat {
    if Find(rs, key).Some? then Find(rs, key).value.failures else 0
  }

  lemma {:induction false} FindMember(rs: seq<GuildRecord>, key: string)
    ensures Find(rs, key).Some? <==> exists i :: 0 <= i < |rs| && Key(rs[i]) == key
    ensures Find(rs, key).Some? ==> Key(Find(rs, key).value) == key && Find(rs, key).value in rs
  {
    if rs != [] && Key(rs[0]) != key {
      FindMember(rs[1..], key);
      assert forall i :: 1 <= i < |rs| ==> rs[i] == rs[1..][i - 1];
      if i :| 0 <= i < |rs| && Key(rs[i]) == key {
        assert Key(rs[1..][i - 1]) == key;
      }
    }
  }

  /** What a save changes: the record under that key and nothing else. */
  lemma {:induction false} PutFacts(rs: seq<GuildRecord>, r: GuildRecord, key: string)
    ensures Find(Put(rs, r), key) == if key == Key(r) then Some(r) else Find(rs, key)
    ensures |Put(rs, r)| == |rs| + if Find(rs, Key(r)).Some? then 0 else 1
  {
    if rs != [] && Key(rs[0]) != Key(r) {
      PutFacts(rs[1..], r, key);
      assert Put(rs, r)[1..] == Put(rs[1..], r);
    } else if rs != [] {
      assert Put(rs, r)[1..] == rs[1..];
    }
  }

  lemma {:induction false} PutUnique(rs: seq<GuildRecord>, r: GuildRecord)
    requires UniqueKeys(rs)
    ensures UniqueKeys(Put(rs, r))
    ensures forall x :: x in Put(rs, r) ==> x == r || x in rs
  {
    if rs != [] {
      if Key(rs[0]) == Key(r) {
        assert forall i :: 1 <= i < |rs| ==> Put(rs, r)[i] == rs[i];
      } else {
        var tail := Put(rs[1..], r);
        PutUnique(rs[1..], r);
        forall i | 0 <= i < |tail| ensures Key(tail[i]) != Key(rs[0]) {
          assert tail[i] in tail;
        }
      }
    }
  }

  lemma {:induction false} PutTotals(rs: seq<GuildRecord>, r: GuildRecord)
    ensures
      var e := Find(rs, Key(r));
      && TotalFailures(Put(rs, r)) + (if e.Some? then e.value.failures else 0) == TotalFailures(rs) + r.failures
      && TotalSuccesses(Put(rs, r)) + (if e.Some? then e.value.successes else 0) == TotalSuccesses(rs) + r.successes
  {
    if rs == [] {
      assert [r][1..] == [];
    } else if Key(rs[0]) == Key(r) {
      assert Put(rs, r)[1..] == rs[1..];
    } else {
      PutTotals(rs[1..], r);
      assert Put(rs, r)[1..] == Put(rs[1..], r);
    }
  }

  // ---------------------------------------------------------------------------
  // Publishing
  // ---------------------------------------------------------------------------

  /** What one call of `publish` says about all its contexts. */
  datatype Notice = Notice(
    capability: string,
    role: Option<string>,
    hint: Option<string>,
    adjustment: Option<Payload>,
    project: Option<string>)

  /** `emptyInput` is the fingerprint of an empty input. */
  function FingerprintOf(note: Notice, ctx: FailureContext, emptyInput: string): Fingerprint {
    Fingerprint(if note.capability != "" then note.capability else ctx.capability,
                ctx.errorType, OrElse(ctx.inputFingerprint, emptyInput))
  }

  function KeyOf(note: Notice, ctx: FailureContext, emptyInput: string): string {
    ToKey(FingerprintOf(note, ctx, emptyInput))
  }

  function FirstReport(note: Notice, f: Fingerprint, now: int): GuildRecord {
    GuildRecord(f, note.hint, if note.adjustment.Some? then note.adjustment.value else map[],
                note.role, note.project, 0, 1, now, now)
  }

  function ReportAgain(e: GuildRecord, note: Notice, now: int): GuildRecord {
    e.(failures := e.failures + 1, updatedAt := now,
       hint := if note.hint.Some? then note.hint else e.hint,
       adjustment := if note.adjustment.Some? then e.adjustment + note.adjustment.value else e.adjustment,
       role := if note.role.Some? then note.role else e.role,
       project := if note.project.Some? then note.project else e.project)
  }

  /** The simple account of one context: look the key up, count it, save. */
  function Report(rs: seq<GuildRecord>, note: Notice, f: Fingerprint, now: int): seq<GuildRecord> {
    match Find(rs, ToKey(f))
    case Some(e) => Put(rs, ReportAgain(e, note, now))
    case None => Put(rs, FirstReport(note, f, now))
  }

  function ReportAll(rs: seq<GuildRecord>, note: Notice, ctxs: seq<FailureContext>, emptyInput: string,
                     now: nat -> int): seq<GuildRecord>
  {
    if ctxs == [] then rs
    else
      var n := |ctxs| - 1;
      Report(ReportAll(rs, note, ctxs[..n], emptyInput, now), note, FingerprintOf(note, ctxs[n], emptyInput), now(n))
  }

  function CountKey(note: Notice, ctxs: seq<FailureContext>, emptyInput: string, key: string): nat {
    if ctxs == [] then 0
    else
      var n := |ctxs| - 1;
      CountKey(note, ctxs[..n], emptyInput, key) + if KeyOf(note, ctxs[n], emptyInput) == key then 1 else 0
  }

  lemma ReportCounts(rs: seq<GuildRecord>, note: Notice, f: Fingerprint, now: int, key: string)
    ensures FailuresAt(Report(rs, note, f, now), key) == FailuresAt(rs, key) + if key == ToKey(f) then 1 else 0
    ensures key != ToKey(f) ==> Find(Report(rs, note, f, now), key) == Find(rs, key)
    ensures TotalFailures(Report(rs, note, f, now)) == TotalFailures(rs) + 1
    ensures TotalSuccesses(Report(rs, note, f, now)) == TotalSuccesses(rs)
    ensures UniqueKeys(rs) ==> UniqueKeys(Report(rs, note, f, now))
  {
    FindMember(rs, ToKey(f));
    var e := Find(rs, ToKey(f));
    var r := if e.Some? then ReportAgain(e.value, note, now) else FirstReport(note, f, now);
    PutFacts(rs, r, key);
    PutTotals(rs, r);
    if UniqueKeys(rs) {
      PutUnique(rs, r);
    }
  }

  /** Counts are conserved: each key's failures go up by exactly the number of contexts
      with that key, a key without contexts keeps its record untouched, and the totals
      move by the number of contexts. */
  lemma {:induction false} ReportAllCounts(rs: seq<GuildRecord>, note: Notice, ctxs: seq<FailureContext>,
                                           emptyInput: string, now: nat -> int, key: string)
    requires UniqueKeys(rs)
    ensures
      var after := ReportAll(rs, note, ctxs, emptyInput, now);
      && UniqueKeys(after)
      && FailuresAt(after, key) == FailuresAt(rs, key) + CountKey(note, ctxs, emptyInput, key)
      && (CountKey(note, ctxs, emptyInput, key) == 0 ==> Find(after, key) == Find(rs, key))
      && (CountKey(note, ctxs, emptyInput, key) > 0 ==> Find(after, key).Some?)
      && TotalFailures(after) == TotalFailures(rs) + |ctxs|
      && TotalSuccesses(after) == TotalSuccesses(rs)
  {
    if ctxs != [] {
      var n := |ctxs| - 1;
      ReportAllCounts(rs, note, ctxs[..n], emptyInput, now, key);
      var before := ReportAll(rs, note, ctxs[..n], emptyInput, now);
      var f := FingerprintOf(note, ctxs[n], emptyInput);
      ReportCounts(before, note, f, now(n), key);
      ReportStored(before, note, f, now(n));
    }
  }

  lemma ReportStored(rs: seq<GuildRecord>, note: Notice, f: Fingerprint, now: int)
    ensures
      var e := Find(rs, ToKey(f));
      var r := if e.Some? then ReportAgain(e.value, note, now) else FirstReport(note, f, now);
      Find(Report(rs, note, f, now), ToKey(f)) == Some(r)
  {
    FindMember(rs, ToKey(f));
    var e := Find(rs, ToKey(f));
    var r := if e.Some? then ReportAgain(e.value, note, now) else FirstReport(note, f, now);
    PutFacts(rs, r, ToKey(f));
  }

  lemma {:induction false} CountKeyConcat(note: Notice, xs: seq<FailureContext>, ys: seq<FailureContext>,
                                          emptyInput: string, key: string)
    ensures CountKey(note, xs + ys, emptyInput, key) ==
            CountKey(note, xs, emptyInput, key) + CountKey(note, ys, emptyInput, key)
  {
    if ys == [] {
      assert xs + ys == xs;
    } else {
      var n := |ys| - 1;
      assert (xs + ys)[..|xs + ys| - 1] == xs + ys[..n];
      CountKeyConcat(note, xs, ys[..n], emptyInput, key);
    }
  }

  /** Publishing xs + ys counts the same as publishing xs and then ys. */
  lemma PublishSplits(rs: seq<GuildRecord>, note: Notice, xs: seq<FailureContext>, ys: seq<FailureContext>,
                      emptyInput: string, t: nat -> int, u: nat -> int, v: nat -> int, key: string)
    requires UniqueKeys(rs)
    ensures FailuresAt(ReportAll(rs, note, xs + ys, emptyInput, t), key) ==
            FailuresAt(ReportAll(ReportAll(rs, note, xs, emptyInput, u), note, ys, emptyInput, v), key)
  {
    ReportAllCounts(rs, note, xs + ys, emptyInput, t, key);
    ReportAllCounts(rs, note, xs, emptyInput, u, key);
    ReportAllCounts(ReportAll(rs, note, xs, emptyInput, u), note, ys, emptyInput, v, key);
    CountKeyConcat(note, xs, ys, emptyInput, key);
  }

  const SUCCESS := "_success"

  /** `publish_success`: count a success under the `_success` key of the input. */
  function ReportSuccess(rs: seq<GuildRecord>, note: Notice, input: string, now: int): seq<GuildRecord> {
    var f := Fingerprint(note.capability, SUCCESS, input);
    match Find(rs, ToKey(f))
    case Some(e) =>
      Put(rs, e.(successes := e.successes + 1, updatedAt := now,
                 role := if note.role.Some? then note.role else e.role,
                 project := if note.project.Some? then note.project else e.project))
    case None => Put(rs, GuildRecord(f, None, map[], note.role, note.project, 1, 0, now, now))
  }

  /** One success adds one to the success total and leaves all failures alone. */
  lemma ReportSuccessCounts(rs: seq<GuildRecord>, note: Notice, input: string, now: int, key: string)
    requires UniqueKeys(rs)
    ensures
      var after := ReportSuccess(rs, note, input, now);
      && UniqueKeys(after)
      && TotalSuccesses(after) == TotalSuccesses(rs) + 1
      && TotalFailures(after) == TotalFailures(rs)
      && FailuresAt(after, key) == FailuresAt(rs, key)
      && (key != ToKey(Fingerprint(note.capability, SUCCESS, input)) ==> Find(after, key) == Find(rs, key))
  {
    var f := Fingerprint(note.capability, SUCCESS, input);
    FindMember(rs, ToKey(f));
    match Find(rs, ToKey(f))
    case Some(e) =>
      var r := e.(successes := e.successes + 1, updatedAt := now,
                  role := if note.role.Some? then note.role else e.role,
                  project := if note.project.Some? then note.project else e.project);
      PutFacts(rs, r, key);
      PutTotals(rs, r);
      PutUnique(rs, r);
    case None =>
      var r := GuildRecord(f, None, map[], note.role, note.project, 1, 0, now, now);
      PutFacts(rs, r, key);
      PutTotals(rs, r);
      PutUnique(rs, r);
  }

  // ---------------------------------------------------------------------------
  // Eviction
  // ---------------------------------------------------------------------------

  const OLDER: (GuildRecord, GuildRecord) -> bool := (a: GuildRecord, b: GuildRecord) => a.createdAt <= b.createdAt

  predicate ByAge(rs: seq<GuildRecord>) {
    forall i, j :: 0 <= i < j < |rs| ==> rs[i].createdAt <= rs[j].createdAt
  }

  /** `sorted(records, key=created_at)`. */
  function SortByAge(rs: seq<GuildRecord>): (out: seq<GuildRecord>)
    ensures |out| == |rs|
  {
    Sort(rs, OLDER)
  }

  lemma SortSorts(rs: seq<GuildRecord>)
    ensures ByAge(SortByAge(rs)) && multiset(SortByAge(rs)) == multiset(rs)
  {
    SortIsSorted(rs, OLDER);
    SortPermutes(rs, OLDER);
    var out := SortByAge(rs);
    forall i, j | 0 <= i < j < |out| ensures out[i].createdAt <= out[j].createdAt {
      assert OLDER(out[i], out[j]);
    }
  }

  function RemoveAll(rs: seq<GuildRecord>, victims: seq<GuildRecord>): seq<GuildRecord> {
    if victims == [] then rs
    else Remove(RemoveAll(rs, victims[..|victims| - 1]), Key(victims[|victims| - 1]))
  }

  /** `_enforce_limit`: drop the oldest records beyond the limit, if there is one. */
  function Evict(rs: seq<GuildRecord>, maxRecords: int): seq<GuildRecord> {
    if maxRecords <= 0 || |rs| <= maxRecords then rs
    else RemoveAll(rs, SortByAge(rs)[..|rs| - maxRecords])
  }

  lemma {:induction false} RemoveWithin(rs: seq<GuildRecord>, key: string)
    ensures forall i :: 0 <= i < |Remove(rs, key)| ==> Remove(rs, key)[i] in rs
    ensures UniqueKeys(rs) ==> UniqueKeys(Remove(rs, key))
  {
    if rs != [] && Key(rs[0]) != key {
      RemoveWithin(rs[1..], key);
      var tail := Remove(rs[1..], key);
      if UniqueKeys(rs) {
        forall i | 0 <= i < |tail| ensures Key(tail[i]) != Key(rs[0]) {
          var k :| 0 <= k < |rs[1..]| && rs[1..][k] == tail[i];
          assert rs[k + 1] == tail[i];
        }
      }
    }
  }

  lemma {:induction false} RemoveFacts(rs: seq<GuildRecord>, r: GuildRecord)
    requires UniqueKeys(rs) && r in rs
    ensures |Remove(rs, Key(r))| == |rs| - 1
    ensures multiset(Remove(rs, Key(r))) == multiset(rs) - multiset{r}
  {
    assert rs == [rs[0]] + rs[1..];
    if Key(rs[0]) == Key(r) {
      var i :| 0 <= i < |rs| && rs[i] == r;
      assert i == 0;
    } else {
      RemoveFacts(rs[1..], r);
    }
  }

  lemma {:induction false} RemoveAllFacts(rs: seq<GuildRecord>, victims: seq<GuildRecord>)
    requires UniqueKeys(rs) && multiset(victims) <= multiset(rs)
    ensures |RemoveAll(rs, victims)| == |rs| - |victims| && UniqueKeys(RemoveAll(rs, victims))
    ensures multiset(RemoveAll(rs, victims)) == multiset(rs) - multiset(victims)
  {
    if victims != [] {
      var n := |victims| - 1;
      assert victims == victims[..n] + [victims[n]];
      RemoveAllFacts(rs, victims[..n]);
      var left := RemoveAll(rs, victims[..n]);
      assert victims[n] in multiset(left);
      RemoveFacts(left, victims[n]);
      RemoveWithin(left, Key(victims[n]));
    }
  }

  predicate NoneOlder(removed: multiset<GuildRecord>, kept: seq<GuildRecord>) {
    forall x :: x in removed ==> forall k :: 0 <= k < |kept| ==> x.createdAt <= kept[k].createdAt
  }

  /** Cutting a list sorted by age leaves nothing older than what was cut off. */
  lemma CutByAge(sorted: seq<GuildRecord>, n: nat, kept: seq<GuildRecord>)
    requires ByAge(sorted) && n <= |sorted| && multiset(kept) == multiset(sorted[n..])
    ensures NoneOlder(multiset(sorted[..n]), kept)
  {
    forall x | x in multiset(sorted[..n])
      ensures forall k :: 0 <= k < |kept| ==> x.createdAt <= kept[k].createdAt
    {
      var i :| 0 <= i < n && sorted[i] == x;
      forall k | 0 <= k < |kept| ensures x.createdAt <= kept[k].createdAt {
        assert kept[k] in multiset(kept);
        assert kept[k] in sorted[n..];
        var l :| n <= l < |sorted| && sorted[l] == kept[k];
      }
    }
  }

  lemma SplitPermutation(rs: seq<GuildRecord>, sorted: seq<GuildRecord>, n: nat, after: seq<GuildRecord>)
    requires multiset(sorted) == multiset(rs) && n <= |sorted|
    requires multiset(after) == multiset(rs) - multiset(sorted[..n])
    ensures multiset(sorted[..n]) <= multiset(rs)
    ensures multiset(after) == multiset(sorted[n..])
    ensures multiset(rs) - multiset(after) == multiset(sorted[..n])
    ensures multiset(after) + multiset(sorted[..n]) == multiset(rs)
  {
    assert sorted == sorted[..n] + sorted[n..];
  }

  lemma PrefixWithin(rs: seq<GuildRecord>, sorted: seq<GuildRecord>, n: nat)
    requires multiset(sorted) == multiset(rs) && n <= |sorted|
    ensures multiset(sorted[..n]) <= multiset(rs)
  {
    assert sorted == sorted[..n] + sorted[n..];
  }

  lemma EvictsOldest(rs: seq<GuildRecord>, sorted: seq<GuildRecord>, n: nat, after: seq<GuildRecord>)
    requires ByAge(sorted) && multiset(sorted) == multiset(rs) && n <= |sorted|
    requires multiset(after) == multiset(rs) - multiset(sorted[..n])
    ensures
      var removed := multiset(rs) - multiset(after);
      multiset(after) + removed == multiset(rs) && NoneOlder(removed, after)
  {
    SplitPermutation(rs, sorted, n, after);
    CutByAge(sorted, n, after);
  }

  /** What a limit on the number of records promises of the records kept. */
  predicate Trimmed(rs: seq<GuildRecord>, after: seq<GuildRecord>, maxRecords: nat) {
    && |after| == (if |rs| <= maxRecords then |rs| else maxRecords)
    && UniqueKeys(after)
    && multiset(after) <= multiset(rs)
    && NoneOlder(multiset(rs) - multiset(after), after)
  }

  lemma NothingEvicted(rs: seq<GuildRecord>, maxRecords: nat)
    requires UniqueKeys(rs) && |rs| <= maxRecords
    ensures Trimmed(rs, rs, maxRecords)
  {
    assert multiset(rs) - multiset(rs) == multiset{};
  }

  lemma TrimmedBySorting(rs: seq<GuildRecord>, sorted: seq<GuildRecord>, n: nat, after: seq<GuildRecord>)
    requires UniqueKeys(rs) && ByAge(sorted) && multiset(sorted) == multiset(rs) && n <= |sorted| == |rs|
    requires after == RemoveAll(rs, sorted[..n])
    ensures Trimmed(rs, after, |rs| - n)
  {
    PrefixWithin(rs, sorted, n);
    RemoveAllFacts(rs, sorted[..n]);
    EvictsOldest(rs, sorted, n, after);
  }

  /** Eviction is exact: min(n, limit) records remain, each one of those there before with
      its contents unchanged, and no survivor is older than any record removed. */
  lemma EvictionExact(rs: seq<GuildRecord>, maxRecords: int)
    requires UniqueKeys(rs) && maxRecords > 0
    ensures Trimmed(rs, Evict(rs, maxRecords), maxRecords)
  {
    if |rs| <= maxRecords {
      NothingEvicted(rs, maxRecords);
    } else {
      var sorted, n := SortByAge(rs), |rs| - maxRecords;
      SortSorts(rs);
      TrimmedBySorting(rs, sorted, n, Evict(rs, maxRecords));
    }
  }

  lemma {:induction false} OneOfEach(rs: seq<GuildRecord>, r: GuildRecord)
    requires UniqueKeys(rs)
    ensures multiset(rs)[r] <= 1
  {
    if rs != [] {
      assert rs == [rs[0]] + rs[1..];
      OneOfEach(rs[1..], r);
      assert rs[0] !in rs[1..];
    }
  }

  /** Which records eviction takes, told by position: age first, and among records of the same
      age those stored first.  A record that is kept keeps every later-stored record that is no
      older. */
  lemma EvictionByAgeAndPosition(rs: seq<GuildRecord>, maxRecords: int, i: nat, j: nat)
    requires UniqueKeys(rs) && i < j < |rs| && rs[i].createdAt <= rs[j].createdAt
    requires rs[i] in Evict(rs, maxRecords)
    ensures rs[j] in Evict(rs, maxRecords)
  {
    if maxRecords > 0 && |rs| > maxRecords {
      var sorted, n := SortByAge(rs), |rs| - maxRecords;
      SortSorts(rs);
      PrefixWithin(rs, sorted, n);
      RemoveAllFacts(rs, sorted[..n]);
      SortStable(rs, OLDER, i, j);
      var p, q :| 0 <= p < q < |sorted| && sorted[p] == rs[i] && sorted[q] == rs[j];
      KeptIff(rs, sorted, n, p);
      KeptIff(rs, sorted, n, q);
    }
  }

  lemma KeptIff(rs: seq<GuildRecord>, sorted: seq<GuildRecord>, n: nat, p: nat)
    requires UniqueKeys(rs) && multiset(sorted) == multiset(rs) && n <= |sorted| && p < |sorted|
    requires multiset(RemoveAll(rs, sorted[..n])) == multiset(rs) - multiset(sorted[..n])
    ensures sorted[p] in RemoveAll(rs, sorted[..n]) <==> n <= p
  {
    var kept := RemoveAll(rs, sorted[..n]);
    OneOfEach(rs, sorted[p]);
    InOnePart(sorted, n, p);
    assert sorted[p] in kept <==> sorted[p] in multiset(kept);
  }

  /** An element that occurs once lies in the part that holds its position. */
  lemma InOnePart(s: seq<GuildRecord>, n: nat, p: nat)
    requires n <= |s| && p < |s| && multiset(s)[s[p]] <= 1
    ensures multiset(s[..n])[s[p]] == if p < n then 1 else 0
  {
    assert s == s[..n] + s[n..];
    if p < n {
      assert s[p] == s[..n][p] && s[p] in multiset(s[..n]);
    } else {
      assert s[p] == s[n..][p - n] && s[p] in multiset(s[n..]);
    }
  }
}

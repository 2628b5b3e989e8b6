/** The guild knowledge base as an object (engine/guild/knowledge.py): `publish` keeps a
    cache of the records it has already touched; its effect is that of the plain
    look-up-and-count fold `ReportAll`, followed by eviction. */
module Knowledge {
  import opened Tasks
  import opened Guild

  /** Reporting again under the same notice changes nothing but count and time. */
  ghost predicate Steady(r: GuildRecord, note: Notice) {
    forall now :: ReportAgain(r, note, now) == r.(failures := r.failures + 1, updatedAt := now)
  }

  lemma ReportIsSteady(rs: seq<GuildRecord>, note: Notice, f: Fingerprint, now: int)
    ensures Steady(FirstReport(note, f, now), note)
    ensures forall e :: Steady(ReportAgain(e, note, now), note)
  {
    forall e, t
      ensures ReportAgain(ReportAgain(e, note, now), note, t) ==
              ReportAgain(e, note, now).(failures := e.failures + 2, updatedAt := t)
    {
      if note.adjustment.Some? {
        assert e.adjustment + note.adjustment.value + note.adjustment.value == e.adjustment + note.adjustment.value;
      }
    }
    if note.adjustment.Some? {
      assert note.adjustment.value + note.adjustment.value == note.adjustment.value;
    }
  }

  /** The cache agrees with the dictionary: one entry per key seen, as stored. */
  ghost predicate CacheOk(published: seq<GuildRecord>, seen: set<string>, rs: seq<GuildRecord>, note: Notice) {
    && UniqueKeys(published)
    && (forall i :: 0 <= i < |published| ==>
          Key(published[i]) in seen && Find(rs, Key(published[i])) == Some(published[i]) && Steady(published[i], note))
    && (forall key :: key in seen ==> exists i :: 0 <= i < |published| && Key(published[i]) == key)
  }

  lemma CacheAppend(published: seq<GuildRecord>, seen: set<string>, rs: seq<GuildRecord>, note: Notice, r: GuildRecord)
    requires CacheOk(published, seen, rs, note) && Key(r) !in seen && Steady(r, note)
    ensures CacheOk(published + [r], seen + {Key(r)}, Put(rs, r), note)
  {
    var p := published + [r];
    forall i | 0 <= i < |p| ensures Find(Put(rs, r), Key(p[i])) == Some(p[i]) {
      PutFacts(rs, r, Key(p[i]));
    }
    forall key | key in seen + {Key(r)} ensures exists i :: 0 <= i < |p| && Key(p[i]) == key {
      if key == Key(r) {
        assert Key(p[|published|]) == key;
      } else {
        var i :| 0 <= i < |published| && Key(published[i]) == key;
        assert Key(p[i]) == key;
      }
    }
  }

  lemma CacheUpdate(published: seq<GuildRecord>, seen: set<string>, rs: seq<GuildRecord>, note: Notice,
                    m: nat, now: int)
    requires CacheOk(published, seen, rs, note) && m < |published|
    ensures
      var r := published[m].(failures := published[m].failures + 1, updatedAt := now);
      CacheOk(published[m := r], seen, Put(rs, r), note)
  {
    var r := published[m].(failures := published[m].failures + 1, updatedAt := now);
    var p := published[m := r];
    assert Steady(published[m], note);
    assert Steady(r, note) by {
      forall t ensures ReportAgain(r, note, t) == r.(failures := r.failures + 1, updatedAt := t) {
        assert ReportAgain(published[m], note, t) ==
               published[m].(failures := published[m].failures + 1, updatedAt := t);
      }
    }
    forall i | 0 <= i < |p|
      ensures Find(Put(rs, r), Key(p[i])) == Some(p[i]) && Steady(p[i], note) && Key(p[i]) in seen
    {
      PutFacts(rs, r, Key(p[i]));
    }
    forall key | key in seen ensures exists i :: 0 <= i < |p| && Key(p[i]) == key {
      var i :| 0 <= i < |published| && Key(published[i]) == key;
      assert Key(p[i]) == key;
    }
  }

  /** A context whose key was seen: counting the cached record is what reporting does. */
  lemma CacheSeen(published: seq<GuildRecord>, seen: set<string>, rs: seq<GuildRecord>, note: Notice,
                  f: Fingerprint, now: int, m: nat)
    requires CacheOk(published, seen, rs, note) && m < |published| && Key(published[m]) == ToKey(f)
    ensures
      var r := published[m].(failures := published[m].failures + 1, updatedAt := now);
      && Put(rs, r) == Report(rs, note, f, now)
      && CacheOk(published[m := r], seen, Report(rs, note, f, now), note)
  {
    assert Steady(published[m], note);
    assert ReportAgain(published[m], note, now) ==
           published[m].(failures := published[m].failures + 1, updatedAt := now);
    CacheUpdate(published, seen, rs, note, m, now);
  }

  /** The record the other branch saves. */
  function Reported(rs: seq<GuildRecord>, note: Notice, f: Fingerprint, now: int): GuildRecord {
    var existing := Find(rs, ToKey(f));
    if existing.Some? then ReportAgain(existing.value, note, now) else FirstReport(note, f, now)
  }

  lemma CacheFresh(published: seq<GuildRecord>, seen: set<string>, rs: seq<GuildRecord>, note: Notice,
                   f: Fingerprint, now: int)
    requires CacheOk(published, seen, rs, note) && ToKey(f) !in seen
    ensures
      var r := Reported(rs, note, f, now);
      && Put(rs, r) == Report(rs, note, f, now)
      && CacheOk(published + [r], seen + {ToKey(f)}, Report(rs, note, f, now), note)
  {
    FindMember(rs, ToKey(f));
    ReportIsSteady(rs, note, f, now);
    CacheAppend(published, seen, rs, note, Reported(rs, note, f, now));
  }

  ghost predicate SeenOk(seen: set<string>, note: Notice, ctxs: seq<FailureContext>, emptyInput: string) {
    forall key :: key in seen <==> CountKey(note, ctxs, emptyInput, key) > 0
  }

  lemma SeenStep(seen: set<string>, note: Notice, ctxs: seq<FailureContext>, emptyInput: string, i: nat)
    requires i < |ctxs| && SeenOk(seen, note, ctxs[..i], emptyInput)
    ensures SeenOk(seen + {KeyOf(note, ctxs[i], emptyInput)}, note, ctxs[..i + 1], emptyInput)
  {
    assert ctxs[..i + 1][..i] == ctxs[..i];
  }

  class KnowledgeBase {
    const enabled: bool
    const project: Option<string>
    const maxRecords: int
    const emptyInput: string
    var records: seq<GuildRecord>

    ghost predicate Valid()
      reads this
    {
      UniqueKeys(records)
    }

    constructor (enabled: bool, project: Option<string>, maxRecords: int, emptyInput: string)
      ensures Valid() && records == []
      ensures this.enabled == enabled && this.project == project
      ensures this.maxRecords == maxRecords && this.emptyInput == emptyInput
    {
      this.enabled, this.project, this.maxRecords, this.emptyInput := enabled, project, maxRecords, emptyInput;
      records := [];
    }

    /** `publish`: the dictionary ends as after reporting every context one by one and then
        evicting; one record is returned per distinct key among the contexts. */
    method Publish(note: Notice, ctxs: seq<FailureContext>, now: nat -> int) returns (published: seq<GuildRecord>)
      requires Valid()
      modifies this
      ensures Valid()
      ensures !enabled ==> records == old(records) && published == []
      ensures enabled ==>
        records == Evict(ReportAll(old(records), note.(project := project), ctxs, emptyInput, now), maxRecords)
      ensures enabled && maxRecords > 0 ==> |records| <= maxRecords
      ensures enabled ==> UniqueKeys(published)
      ensures enabled ==> forall i :: 0 <= i < |published| ==>
        && CountKey(note.(project := project), ctxs, emptyInput, Key(published[i])) > 0
        && Find(ReportAll(old(records), note.(project := project), ctxs, emptyInput, now), Key(published[i])) ==
           Some(published[i])
      ensures enabled ==> forall key :: CountKey(note.(project := project), ctxs, emptyInput, key) > 0 ==>
        exists i :: 0 <= i < |published| && Key(published[i]) == key
    {
      published := [];
      if !enabled {
        return;
      }
      ghost var seen;
      published, seen := ReportEach(note.(project := project), ctxs, now);
      ReportAllCounts(old(records), note.(project := project), ctxs, emptyInput, now, "");
      EnforceLimit();
    }

    /** The loop of `publish` over its contexts, before the limit is enforced. */
    method ReportEach(note: Notice, ctxs: seq<FailureContext>, now: nat -> int)
      returns (published: seq<GuildRecord>, ghost known: set<string>)
      modifies this
      ensures records == ReportAll(old(records), note, ctxs, emptyInput, now)
      ensures CacheOk(published, known, records, note) && SeenOk(known, note, ctxs, emptyInput)
    {
      published := [];
      var seen: set<string> := {};
      var i := 0;
      while i < |ctxs|
        invariant 0 <= i <= |ctxs|
        invariant records == ReportAll(old(records), note, ctxs[..i], emptyInput, now)
        invariant CacheOk(published, seen, records, note)
        invariant SeenOk(seen, note, ctxs[..i], emptyInput)
      {
        assert ctxs[..i + 1][..i] == ctxs[..i];
        SeenStep(seen, note, ctxs, emptyInput, i);
        published, seen := ReportOne(published, seen, note, FingerprintOf(note, ctxs[i], emptyInput), now(i));
        i := i + 1;
      }
      assert ctxs[..i] == ctxs;
      known := seen;
    }

    /** One context. */
    method ReportOne(published: seq<GuildRecord>, seen: set<string>, note: Notice, f: Fingerprint, now: int)
      returns (published': seq<GuildRecord>, seen': set<string>)
      requires CacheOk(published, seen, records, note)
      modifies this
      ensures records == Report(old(records), note, f, now) && seen' == seen + {ToKey(f)}
      ensures CacheOk(published', seen', records, note)
    {
      var key := ToKey(f);
      seen' := seen + {key};
      if key in seen {
        ghost var m :| 0 <= m < |published| && Key(published[m]) == key;
        CacheSeen(published, seen, records, note, f, now, m);
        assert seen' == seen;
        published' := CountAgain(published, key, now, m);
      } else {
        CacheFresh(published, seen, records, note, f, now);
        var existing := Find(records, key);
        var r := FirstReport(note, f, now);
        if existing.Some? {
          r := ReportAgain(existing.value, note, now);
        }
        records := Put(records, r);
        published' := published + [r];
      }
    }

    /** The branch for a key already seen: find its record in the cache, count, save. */
    method CountAgain(published: seq<GuildRecord>, key: string, now: int, ghost m: nat) returns (out: seq<GuildRecord>)
      requires UniqueKeys(published) && m < |published| && Key(published[m]) == key
      modifies this
      ensures
        var r := published[m].(failures := published[m].failures + 1, updatedAt := now);
        out == published[m := r] && records == Put(old(records), r)
    {
      out := published;
      ghost var r := published[m].(failures := published[m].failures + 1, updatedAt := now);
      var k := 0;
      while k < |out|
        invariant 0 <= k <= |out| == |published|
        invariant out == if k <= m then published else published[m := r]
        invariant records == if k <= m then old(records) else Put(old(records), r)
      {
        if Key(out[k]) == key {
          assert k == m;
          out := out[k := out[k].(failures := out[k].failures + 1, updatedAt := now)];
          records := Put(records, out[k]);
        }
        k := k + 1;
      }
    }

    /** `publish_success`. */
    method PublishSuccess(note: Notice, input: string, now: int)
      requires Valid()
      modifies this
      ensures Valid()
      ensures records ==
        if enabled then Evict(ReportSuccess(old(records), note.(project := project), input, now), maxRecords)
        else old(records)
      ensures enabled && maxRecords > 0 ==> |records| <= maxRecords
    {
      if !enabled {
        return;
      }
      ReportSuccessCounts(records, note.(project := project), input, now, "");
      var f := Fingerprint(note.capability, SUCCESS, input);
      var existing := Find(records, ToKey(f));
      if existing.Some? {
        var e := existing.value;
        records := Put(records, e.(successes := e.successes + 1, updatedAt := now,
                                   role := if note.role.Some? then note.role else e.role,
                                   project := if project.Some? then project else e.project));
      } else {
        records := Put(records, GuildRecord(f, None, map[], note.role, project, 1, 0, now, now));
      }
      EnforceLimit();
    }

    /** `_enforce_limit`: delete the oldest records, one by one, down to the limit. */
    method EnforceLimit()
      requires Valid()
      modifies this
      ensures Valid() && records == Evict(old(records), maxRecords)
      ensures maxRecords > 0 ==> Trimmed(old(records), records, maxRecords)
    {
      if maxRecords > 0 {
        EvictionExact(records, maxRecords);
      }
      if maxRecords <= 0 || |records| <= maxRecords {
        return;
      }
      var sorted := SortByAge(records);
      var excess := |sorted| - maxRecords;
      var k := 0;
      while k < excess
        invariant 0 <= k <= excess
        invariant records == RemoveAll(old(records), sorted[..k])
      {
        assert sorted[..k + 1][..k] == sorted[..k];
        records := Remove(records, Key(sorted[k]));
        k := k + 1;
      }
    }
  }
}

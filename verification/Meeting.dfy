/** Guild meetings (engine/guild/meeting.py): records are grouped by capability, each group
    is totalled, and thresholds on the totals give insights. */
module Meeting {
  import opened Tasks
  import opened Grouping
  import opened TaskStores
  import opened Guild

  const CAPABILITY: GuildRecord -> Option<string> := (r: GuildRecord) => Some(r.fingerprint.capability)

  datatype Profile = Profile(capability: string, successes: nat, failures: nat)

  datatype Report = Report(
    totalRecords: nat,
    profiles: seq<Profile>,
    highFailure: seq<string>,
    highSuccess: seq<string>,
    successes: nat,
    failures: nat)

  /** The thresholds of the two insights. */
  predicate FailsOften(p: Profile) {
    p.successes + p.failures >= 5 && p.failures > p.successes
  }

  predicate SucceedsOften(p: Profile) {
    p.successes + p.failures >= 5 && p.successes > p.failures * 3
  }

  function ProfileFailures(ps: seq<Profile>): nat {
    if ps == [] then 0 else ps[0].failures + ProfileFailures(ps[1..])
  }

  function ProfileSuccesses(ps: seq<Profile>): nat {
    if ps == [] then 0 else ps[0].successes + ProfileSuccesses(ps[1..])
  }

  lemma {:induction false} TotalsConcat(a: seq<GuildRecord>, b: seq<GuildRecord>)
    ensures TotalFailures(a + b) == TotalFailures(a) + TotalFailures(b)
    ensures TotalSuccesses(a + b) == TotalSuccesses(a) + TotalSuccesses(b)
  {
    if a == [] {
      assert a + b == b;
    } else {
      assert (a + b)[1..] == a[1..] + b;
      TotalsConcat(a[1..], b);
    }
  }

  lemma TotalsOne(a: seq<GuildRecord>, r: GuildRecord)
    ensures TotalFailures(a + [r]) == TotalFailures(a) + r.failures
    ensures TotalSuccesses(a + [r]) == TotalSuccesses(a) + r.successes
  {
    TotalsConcat(a, [r]);
    assert [r][1..] == [];
  }

  /** The profile of each listed capability over the records. */
  function Profiles(rs: seq<GuildRecord>, ids: seq<string>): (ps: seq<Profile>)
    ensures |ps| == |ids|
  {
    if ids == [] then []
    else
      var own := Select(rs, CAPABILITY, ids[0]);
      [Profile(ids[0], TotalSuccesses(own), TotalFailures(own))] + Profiles(rs, ids[1..])
  }

  /** One more record adds its counts to the one profile of its capability. */
  lemma {:induction false} ProfilesGain(rs: seq<GuildRecord>, r: GuildRecord, ids: seq<string>)
    requires Distinct(ids)
    ensures
      var more := if r.fingerprint.capability in ids then r else r.(failures := 0, successes := 0);
      && ProfileFailures(Profiles(rs + [r], ids)) == ProfileFailures(Profiles(rs, ids)) + more.failures
      && ProfileSuccesses(Profiles(rs + [r], ids)) == ProfileSuccesses(Profiles(rs, ids)) + more.successes
  {
    if ids != [] {
      ProfilesGain(rs, r, ids[1..]);
      assert (rs + [r])[..|rs|] == rs;
      TotalsOne(Select(rs, CAPABILITY, ids[0]), r);
      assert ids == [ids[0]] + ids[1..];
    }
  }

  /** Aggregation loses nothing: the per-capability totals add up to the global ones. */
  lemma {:induction false} TotalsAddUp(rs: seq<GuildRecord>, ids: seq<string>)
    requires Distinct(ids) && forall i :: 0 <= i < |rs| ==> rs[i].fingerprint.capability in ids
    ensures ProfileFailures(Profiles(rs, ids)) == TotalFailures(rs)
    ensures ProfileSuccesses(Profiles(rs, ids)) == TotalSuccesses(rs)
  {
    if rs == [] {
      EmptyProfiles(ids);
    } else {
      var n := |rs| - 1;
      TotalsAddUp(rs[..n], ids);
      ProfilesGain(rs[..n], rs[n], ids);
      TotalsOne(rs[..n], rs[n]);
      assert rs == rs[..n] + [rs[n]];
    }
  }

  lemma {:induction false} EmptyProfiles(ids: seq<string>)
    ensures ProfileFailures(Profiles([], ids)) == 0 && ProfileSuccesses(Profiles([], ids)) == 0
  {
    if ids != [] {
      EmptyProfiles(ids[1..]);
    }
  }

  lemma {:induction false} ProfileAt(rs: seq<GuildRecord>, ids: seq<string>, i: nat)
    requires i < |ids|
    ensures
      var own := Select(rs, CAPABILITY, ids[i]);
      Profiles(rs, ids)[i] == Profile(ids[i], TotalSuccesses(own), TotalFailures(own))
  {
    if i > 0 {
      ProfileAt(rs, ids[1..], i - 1);
    }
  }

  lemma {:induction false} ProfilesExtend(rs: seq<GuildRecord>, ids: seq<string>, x: string)
    ensures
      var own := Select(rs, CAPABILITY, x);
      Profiles(rs, ids + [x]) == Profiles(rs, ids) + [Profile(x, TotalSuccesses(own), TotalFailures(own))]
  {
    if ids == [] {
      assert [x][1..] == [];
    } else {
      assert (ids + [x])[1..] == ids[1..] + [x];
      ProfilesExtend(rs, ids[1..], x);
    }
  }

  /** What a report over the records must say. */
  ghost predicate ReportOk(rs: seq<GuildRecord>, r: Report) {
    && r.totalRecords == |rs| && r.successes == TotalSuccesses(rs) && r.failures == TotalFailures(rs)
    && (forall i, j :: 0 <= i < j < |r.profiles| ==> Less(r.profiles[i].capability, r.profiles[j].capability))
    && (forall i :: 0 <= i < |r.profiles| ==>
          var own := Select(rs, CAPABILITY, r.profiles[i].capability);
          own != [] && r.profiles[i].successes == TotalSuccesses(own) && r.profiles[i].failures == TotalFailures(own))
    && (forall i :: 0 <= i < |rs| ==>
          exists j :: 0 <= j < |r.profiles| && r.profiles[j].capability == rs[i].fingerprint.capability)
    && ProfileSuccesses(r.profiles) == r.successes && ProfileFailures(r.profiles) == r.failures
    && (forall c :: c in r.highFailure <==>
          exists i :: 0 <= i < |r.profiles| && r.profiles[i].capability == c && FailsOften(r.profiles[i]))
    && (forall c :: c in r.highSuccess <==>
          exists i :: 0 <= i < |r.profiles| && r.profiles[i].capability == c && SucceedsOften(r.profiles[i]))
    && (forall c :: !(c in r.highFailure && c in r.highSuccess))
  }

  /** When a capability with a profile is named in an insight: it has at least five outcomes,
      and more failures than successes, or more than three times as many successes as failures. */
  lemma InsightsMean(rs: seq<GuildRecord>, r: Report, i: nat)
    requires ReportOk(rs, r) && i < |r.profiles|
    ensures
      var p := r.profiles[i];
      && (p.capability in r.highFailure <==> p.successes + p.failures >= 5 && p.failures > p.successes)
      && (p.capability in r.highSuccess <==> p.successes + p.failures >= 5 && p.successes > 3 * p.failures)
  {
    forall j | 0 <= j < |r.profiles| && r.profiles[j].capability == r.profiles[i].capability ensures j == i {
      LessTotal(r.profiles[i].capability, r.profiles[j].capability);
    }
  }

  /** `hold_meeting`, as far as it counts: nothing when the guild is disabled, an empty report
      when it has no records, and otherwise totals that lose nothing and insights that never
      contradict each other. */
  method HoldMeeting(enabled: bool, rs: seq<GuildRecord>) returns (report: Option<Report>)
    ensures !enabled ==> report == None
    ensures enabled ==> report.Some? && ReportOk(rs, report.value)
  {
    if !enabled {
      return None;
    }
    var groups := GroupBy(rs, CAPABILITY);
    var ids := SortIds(groups.Keys);
    forall i | 0 <= i < |rs| ensures rs[i].fingerprint.capability in ids {
      InItsGroup(rs, CAPABILITY, i);
      assert rs[i].fingerprint.capability in groups.Keys;
    }
    AscendingIsDistinct(ids);
    TotalsAddUp(rs, ids);
    var profiles := BuildProfiles(rs, ids, groups);
    var highFailure := Pick(profiles, FailsOften);
    var highSuccess := Pick(profiles, SucceedsOften);
    report := Some(Report(|rs|, profiles, highFailure, highSuccess, TotalSuccesses(rs), TotalFailures(rs)));
    ProfilesOk(rs, ids, groups);
    Exclusive(ids, profiles, highFailure, highSuccess);
  }

  lemma AscendingIsDistinct(ids: seq<string>)
    requires Ascending(ids)
    ensures Distinct(ids)
  {
    forall i, j | 0 <= i < j < |ids| ensures ids[i] != ids[j] {
      LessTotal(ids[i], ids[j]);
    }
  }

  lemma ProfilesOk(rs: seq<GuildRecord>, ids: seq<string>, groups: map<string, seq<GuildRecord>>)
    requires Grouped(rs, CAPABILITY, groups) && Lists(ids, groups.Keys)
    ensures
      var ps := Profiles(rs, ids);
      && (forall i :: 0 <= i < |ps| ==> ps[i].capability == ids[i])
      && (forall i, j :: 0 <= i < j < |ps| ==> Less(ps[i].capability, ps[j].capability))
      && (forall i :: 0 <= i < |ps| ==>
            var own := Select(rs, CAPABILITY, ps[i].capability);
            own != [] && ps[i].successes == TotalSuccesses(own) && ps[i].failures == TotalFailures(own))
  {
    forall i | 0 <= i < |ids|
      ensures Profiles(rs, ids)[i].capability == ids[i] && Select(rs, CAPABILITY, ids[i]) != []
      ensures Profiles(rs, ids)[i].successes == TotalSuccesses(Select(rs, CAPABILITY, ids[i]))
      ensures Profiles(rs, ids)[i].failures == TotalFailures(Select(rs, CAPABILITY, ids[i]))
    {
      ProfileAt(rs, ids, i);
      assert ids[i] in groups.Keys;
    }
  }

  lemma Exclusive(ids: seq<string>, ps: seq<Profile>, high: seq<string>, low: seq<string>)
    requires |ps| == |ids| && Distinct(ids) && forall i :: 0 <= i < |ps| ==> ps[i].capability == ids[i]
    requires forall c :: c in high <==> exists i :: 0 <= i < |ps| && ps[i].capability == c && FailsOften(ps[i])
    requires forall c :: c in low <==> exists i :: 0 <= i < |ps| && ps[i].capability == c && SucceedsOften(ps[i])
    ensures forall c :: !(c in high && c in low)
  {
    forall c | c in high ensures c !in low {
      var i :| 0 <= i < |ps| && ps[i].capability == c && FailsOften(ps[i]);
      forall j | 0 <= j < |ps| && ps[j].capability == c ensures !SucceedsOften(ps[j]) {
        SameIndex(ids, i, j);
      }
    }
  }

  lemma SameIndex(ids: seq<string>, i: nat, j: nat)
    requires Distinct(ids) && i < |ids| && j < |ids| && ids[i] == ids[j]
    ensures i == j
  {
  }

  /** One profile per capability, in order. */
  method BuildProfiles(rs: seq<GuildRecord>, ids: seq<string>, groups: map<string, seq<GuildRecord>>)
    returns (ps: seq<Profile>)
    requires Grouped(rs, CAPABILITY, groups) && Lists(ids, groups.Keys)
    ensures ps == Profiles(rs, ids)
  {
    ps := [];
    var i := 0;
    while i < |ids|
      invariant 0 <= i <= |ids| && ps == Profiles(rs, ids[..i])
    {
      assert ids[i] in groups.Keys;
      var own := groups[ids[i]];
      ProfilesExtend(rs, ids[..i], ids[i]);
      assert ids[..i] + [ids[i]] == ids[..i + 1];
      ps := ps + [Profile(ids[i], TotalSuccesses(own), TotalFailures(own))];
      i := i + 1;
    }
    assert ids[..i] == ids;
  }

  /** The capabilities whose profile meets a threshold. */
  method Pick(ps: seq<Profile>, test: Profile -> bool) returns (picked: seq<string>)
    ensures forall c :: c in picked <==> exists i :: 0 <= i < |ps| && ps[i].capability == c && test(ps[i])
  {
    picked := [];
    var k := 0;
    while k < |ps|
      invariant 0 <= k <= |ps|
      invariant forall c :: c in picked <==> exists i :: 0 <= i < k && ps[i].capability == c && test(ps[i])
    {
      if test(ps[k]) {
        picked := picked + [ps[k].capability];
      }
      k := k + 1;
    }
  }
}

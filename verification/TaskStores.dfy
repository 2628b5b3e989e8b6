/** Task stores as objects (engine/runtime/store.py): in memory, in a JSON file, and in
    Redis.  Each is a representation of one map from ids to records, and each answers `get`
    and `list` from that map alone. */
module TaskStores {
  import opened Tasks

  type Records = map<string, TaskRecord>

  // ---------------------------------------------------------------------------
  // Sorted ids
  // ---------------------------------------------------------------------------

  /** Lexicographic order by code point. */
  predicate Less(a: string, b: string) {
    b != "" && (a == "" || a[0] < b[0] || (a[0] == b[0] && Less(a[1..], b[1..])))
  }

  lemma {:induction false} LessTotal(a: string, b: string)
    ensures Less(a, b) || Less(b, a) || a == b
    ensures !(Less(a, b) && Less(b, a)) && !Less(a, a)
  {
    if a != "" && b != "" {
      LessTotal(a[1..], b[1..]);
      LessTotal(a[1..], a[1..]);
      assert a == [a[0]] + a[1..] && b == [b[0]] + b[1..];
    } else if a != "" {
      LessTotal(a[1..], a[1..]);
    }
  }

  lemma {:induction false} LessTransitive(a: string, b: string, c: string)
    requires Less(a, b) && Less(b, c)
    ensures Less(a, c)
  {
    if a != "" && a[0] == b[0] == c[0] {
      LessTransitive(a[1..], b[1..], c[1..]);
    }
  }

  predicate Ascending(ids: seq<string>) {
    forall i, j :: 0 <= i < j < |ids| ==> Less(ids[i], ids[j])
  }

  ghost predicate Lists(ids: seq<string>, s: set<string>) {
    Ascending(ids) && forall x :: x in s <==> x in ids
  }

  lemma NothingListed(b: seq<string>, s: set<string>)
    requires Lists(b, s) && Lists([], s)
    ensures b == []
  {
    if b != [] {
      SomeMember(b);
    }
  }

  lemma SomeMember(b: seq<string>)
    requires b != []
    ensures exists x :: x in b
  {
    assert b[0] in b;
  }

  /** There is only one sorted list of a set. */
  lemma {:induction false} SortedIsUnique(a: seq<string>, b: seq<string>, s: set<string>)
    requires Lists(a, s) && Lists(b, s)
    ensures a == b
    decreases |a|
  {
    if a == [] {
      NothingListed(b, s);
    } else {
      assert a[0] in a && a[0] in b;
      assert b[0] in b && b[0] in a;
      var k :| 0 <= k < |b| && b[k] == a[0];
      var l :| 0 <= l < |a| && a[l] == b[0];
      LessTotal(a[0], b[0]);
      assert k == 0;
      var s' := s - {a[0]};
      TailLists(a, s);
      TailLists(b, s);
      SortedIsUnique(a[1..], b[1..], s');
      assert a == [a[0]] + a[1..] && b == [b[0]] + b[1..];
    }
  }

  lemma TailLists(a: seq<string>, s: set<string>)
    requires Lists(a, s) && a != []
    ensures Lists(a[1..], s - {a[0]})
  {
    assert a == [a[0]] + a[1..];
    forall x ensures x in s - {a[0]} <==> x in a[1..] {
      if x in a[1..] {
        var i :| 1 <= i < |a| && a[i] == x;
        LessTotal(a[0], x);
      }
    }
  }

  function InsertId(ids: seq<string>, x: string): seq<string> {
    if ids == [] || Less(x, ids[0]) then [x] + ids else [ids[0]] + InsertId(ids[1..], x)
  }

  lemma {:induction false} InsertIdLists(ids: seq<string>, s: set<string>, x: string)
    requires Lists(ids, s) && x !in s
    ensures Lists(InsertId(ids, x), s + {x})
    decreases |ids|
  {
    if ids == [] {
    } else if Less(x, ids[0]) {
      forall j | 0 <= j < |ids| ensures Less(x, ids[j]) {
        if j > 0 { LessTransitive(x, ids[0], ids[j]); }
      }
    } else {
      LessTotal(x, ids[0]);
      assert ids[0] in ids;
      TailLists(ids, s);
      InsertIdLists(ids[1..], s - {ids[0]}, x);
      var tail := InsertId(ids[1..], x);
      forall j | 0 <= j < |tail| ensures Less(ids[0], tail[j]) {
        assert tail[j] in tail;
        if tail[j] != x {
          assert tail[j] in ids[1..];
        }
      }
      assert s + {x} == (s - {ids[0]} + {x}) + {ids[0]};
    }
  }

  /** Python's `sorted` on a set of ids. */
  method SortIds(s: set<string>) returns (ids: seq<string>)
    ensures Lists(ids, s)
  {
    ids := [];
    var rest := s;
    while rest != {}
      invariant rest <= s && Lists(ids, s - rest)
      decreases |rest|
    {
      var x :| x in rest;
      InsertIdLists(ids, s - rest, x);
      assert s - (rest - {x}) == s - rest + {x};
      ids := InsertId(ids, x);
      rest := rest - {x};
    }
    assert s - {} == s;
  }

  // ---------------------------------------------------------------------------
  // Filtering and paging
  // ---------------------------------------------------------------------------

  /** Python's `s[k:]`. */
  function From<T>(s: seq<T>, k: int): seq<T> {
    if k >= |s| then []
    else if k >= 0 then s[k..]
    else if -k >= |s| then s
    else s[|s| + k..]
  }

  /** Python's `s[:k]`. */
  function UpTo<T>(s: seq<T>, k: int): seq<T> {
    if k >= |s| then s
    else if k >= 0 then s[..k]
    else if -k >= |s| then []
    else s[..|s| + k]
  }

  function WithStatus(rs: seq<TaskRecord>, status: Option<Status>): seq<TaskRecord> {
    if rs == [] then []
    else if status.None? || rs[0].status == status.value then [rs[0]] + WithStatus(rs[1..], status)
    else WithStatus(rs[1..], status)
  }

  /** `_filter_records`. */
  function FilterRecords(rs: seq<TaskRecord>, limit: Option<int>, offset: int, status: Option<Status>)
    : seq<TaskRecord>
  {
    var page := From(WithStatus(rs, status), offset);
    if limit.Some? then UpTo(page, limit.value) else page
  }

  /** The offset after `k` pages: their product. */
  function Reach(size: nat, k: nat): (n: nat)
    ensures n == k * size
  {
    if k == 0 then 0 else Reach(size, k - 1) + size
  }

  /** The first `k` pages of `size` records, one after another. */
  function Pages(rs: seq<TaskRecord>, size: nat, k: nat, status: Option<Status>): seq<TaskRecord> {
    if k == 0 then []
    else Pages(rs, size, k - 1, status) + FilterRecords(rs, Some(size), Reach(size, k - 1), status)
  }

  lemma {:induction false} PagesAreAPrefix(rs: seq<TaskRecord>, size: nat, k: nat, status: Option<Status>)
    ensures Pages(rs, size, k, status) == UpTo(WithStatus(rs, status), Reach(size, k))
  {
    var all := WithStatus(rs, status);
    if k > 0 {
      PagesAreAPrefix(rs, size, k - 1, status);
      NextPage(all, Reach(size, k - 1), size);
    }
  }

  lemma NextPage<T>(all: seq<T>, done: nat, size: nat)
    ensures UpTo(all, done) + UpTo(From(all, done), size) == UpTo(all, done + size)
  {
  }

  /** Consecutive pages rebuild the filtered list, each record exactly where it belongs, as
      soon as they reach its end. */
  lemma PagesRebuild(rs: seq<TaskRecord>, size: nat, k: nat, status: Option<Status>)
    requires k * size >= |WithStatus(rs, status)|
    ensures Pages(rs, size, k, status) == FilterRecords(rs, None, 0, status)
  {
    PagesAreAPrefix(rs, size, k, status);
  }

  // ---------------------------------------------------------------------------
  // What a store must answer
  // ---------------------------------------------------------------------------

  function Lookup(m: Records, id: string): Option<TaskRecord> {
    if id in m then Some(m[id]) else None
  }

  function InOrderOf(m: Records, ids: seq<string>): (rs: seq<TaskRecord>)
    requires forall i :: 0 <= i < |ids| ==> ids[i] in m
    ensures |rs| == |ids| && forall i :: 0 <= i < |ids| ==> rs[i] == m[ids[i]]
  {
    seq(|ids|, i requires 0 <= i < |ids| => m[ids[i]])
  }

  /** The records in order of their ids. */
  ghost predicate Sorted(m: Records, rs: seq<TaskRecord>) {
    exists ids :: Lists(ids, m.Keys) && (forall i :: 0 <= i < |ids| ==> ids[i] in m) && rs == InOrderOf(m, ids)
  }

  lemma SortedUnique(m: Records, a: seq<TaskRecord>, b: seq<TaskRecord>)
    requires Sorted(m, a) && Sorted(m, b)
    ensures a == b
  {
    var i :| Lists(i, m.Keys) && (forall k :: 0 <= k < |i| ==> i[k] in m) && a == InOrderOf(m, i);
    var j :| Lists(j, m.Keys) && (forall k :: 0 <= k < |j| ==> j[k] in m) && b == InOrderOf(m, j);
    SortedIsUnique(i, j, m.Keys);
  }

  /** The answer `list` must give on the abstract map. */
  ghost predicate IsListing(m: Records, limit: Option<int>, offset: int, status: Option<Status>,
                            page: seq<TaskRecord>)
  {
    exists rs :: Sorted(m, rs) && page == FilterRecords(rs, limit, offset, status)
  }

  lemma ListingUnique(m: Records, limit: Option<int>, offset: int, status: Option<Status>,
                      a: seq<TaskRecord>, b: seq<TaskRecord>)
    requires IsListing(m, limit, offset, status, a) && IsListing(m, limit, offset, status, b)
    ensures a == b
  {
    var r :| Sorted(m, r) && a == FilterRecords(r, limit, offset, status);
    var s :| Sorted(m, s) && b == FilterRecords(s, limit, offset, status);
    SortedUnique(m, r, s);
  }

  // ----- what a listing is ------------------------------------------------------

  /** `all` are the records with the wanted status - all of them when none is asked for -
      each once, in strict order of id; `ids` are their ids. */
  ghost predicate Selection(m: Records, status: Option<Status>, ids: seq<string>, all: seq<TaskRecord>) {
    && Ascending(ids) && |all| == |ids|
    && (forall i :: 0 <= i < |ids| ==> ids[i] in m && all[i] == m[ids[i]])
    && (forall id :: id in ids <==> id in m && (status == None || status == Some(m[id].status)))
  }

  function Least(a: int, b: int): int {
    if a <= b then a else b
  }

  function Greatest(a: int, b: int): int {
    if a <= b then b else a
  }

  /** Where a page of a list of length `n` begins; a negative offset counts from the end. */
  function PageStart(n: nat, offset: int): (i: nat)
    ensures i <= n
  {
    if offset >= 0 then Least(offset, n) else Greatest(n + offset, 0)
  }

  /** Where it ends; a negative limit leaves out that many at the end. */
  function PageEnd(n: nat, offset: int, limit: Option<int>): (i: nat)
    ensures PageStart(n, offset) <= i <= n
  {
    var start := PageStart(n, offset);
    match limit
    case None => n
    case Some(l) => if l >= 0 then Least(start + l, n) else Greatest(n + l, start)
  }

  /** The page is the slice that offset and limit cut from the selection. */
  ghost predicate IsPage(m: Records, limit: Option<int>, offset: int, status: Option<Status>, page: seq<TaskRecord>) {
    exists ids, all :: Selection(m, status, ids, all)
                       && page == all[PageStart(|all|, offset)..PageEnd(|all|, offset, limit)]
  }

  /** `kept` are the ids among `ids` whose record has the wanted status, and `all` their records. */
  ghost predicate Kept(m: Records, ids: seq<string>, status: Option<Status>, kept: seq<string>, all: seq<TaskRecord>) {
    && Ascending(kept) && |all| == |kept|
    && (forall i :: 0 <= i < |kept| ==> kept[i] in m && all[i] == m[kept[i]])
    && (forall id :: id in kept <==> id in ids && id in m && (status == None || status == Some(m[id].status)))
  }

  lemma KeepOne(m: Records, ids: seq<string>, status: Option<Status>, rest: seq<string>, all: seq<TaskRecord>)
    requires Ascending(ids) && ids != [] && ids[0] in m && Kept(m, ids[1..], status, rest, all)
    requires status == None || status == Some(m[ids[0]].status)
    ensures Kept(m, ids, status, [ids[0]] + rest, [m[ids[0]]] + all)
  {
    forall j | 0 <= j < |rest| ensures Less(ids[0], rest[j]) {
      assert rest[j] in rest && rest[j] in ids[1..];
    }
    assert ids == [ids[0]] + ids[1..];
  }

  lemma KeepNone(m: Records, ids: seq<string>, status: Option<Status>, rest: seq<string>, all: seq<TaskRecord>)
    requires Ascending(ids) && ids != [] && ids[0] in m && Kept(m, ids[1..], status, rest, all)
    requires status != None && status != Some(m[ids[0]].status)
    ensures Kept(m, ids, status, rest, all)
  {
    assert ids == [ids[0]] + ids[1..];
  }

  /** Filtering the records of ascending ids by status selects from them. */
  lemma {:induction false} FilterSelects(m: Records, ids: seq<string>, status: Option<Status>)
    returns (kept: seq<string>)
    requires Ascending(ids) && forall i :: 0 <= i < |ids| ==> ids[i] in m
    ensures Kept(m, ids, status, kept, WithStatus(InOrderOf(m, ids), status))
  {
    if ids == [] {
      kept := [];
    } else {
      var rs := InOrderOf(m, ids);
      var rest := FilterSelects(m, ids[1..], status);
      assert rs[1..] == InOrderOf(m, ids[1..]);
      if status == None || status == Some(m[ids[0]].status) {
        kept := [ids[0]] + rest;
        KeepOne(m, ids, status, rest, WithStatus(rs[1..], status));
      } else {
        kept := rest;
        KeepNone(m, ids, status, rest, WithStatus(rs[1..], status));
      }
    }
  }

  lemma FilterCuts(rs: seq<TaskRecord>, limit: Option<int>, offset: int, status: Option<Status>)
    ensures
      var all := WithStatus(rs, status);
      FilterRecords(rs, limit, offset, status) == all[PageStart(|all|, offset)..PageEnd(|all|, offset, limit)]
  {
    var all := WithStatus(rs, status);
    var start, end := PageStart(|all|, offset), PageEnd(|all|, offset, limit);
    assert From(all, offset) == all[start..];
    assert all[start..][..end - start] == all[start..end];
    if limit.Some? {
      assert UpTo(all[start..], limit.value) == all[start..][..end - start];
    }
  }

  /** What every `list` answers is a page of the selection. */
  lemma ListingIsPage(m: Records, limit: Option<int>, offset: int, status: Option<Status>, page: seq<TaskRecord>)
    requires IsListing(m, limit, offset, status, page)
    ensures IsPage(m, limit, offset, status, page)
  {
    var rs :| Sorted(m, rs) && page == FilterRecords(rs, limit, offset, status);
    var ids :| Lists(ids, m.Keys) && (forall i :: 0 <= i < |ids| ==> ids[i] in m) && rs == InOrderOf(m, ids);
    var kept := FilterSelects(m, ids, status);
    FilterCuts(rs, limit, offset, status);
    assert Selection(m, status, kept, WithStatus(rs, status));
  }

  lemma SelectionUnique(m: Records, status: Option<Status>, i: seq<string>, a: seq<TaskRecord>,
                        j: seq<string>, b: seq<TaskRecord>)
    requires Selection(m, status, i, a) && Selection(m, status, j, b)
    ensures a == b
  {
    SortedIsUnique(i, j, set id | id in i);
  }

  /** The order of ids is that of strings: a proper prefix comes first, and otherwise the
      first difference decides. */
  lemma {:induction false} LessMeans(a: string, b: string, k: nat)
    requires k <= |a| && k <= |b| && a[..k] == b[..k]
    ensures k < |a| && k < |b| && a[k] != b[k] ==> (Less(a, b) <==> a[k] < b[k])
    ensures k == |a| ==> (Less(a, b) <==> |a| < |b|)
  {
    if k > 0 {
      assert a[0] == a[..k][0] == b[..k][0] == b[0];
      assert a[1..][..k - 1] == a[..k][1..] == b[..k][1..] == b[1..][..k - 1];
      LessMeans(a[1..], b[1..], k - 1);
    }
  }

  // ---------------------------------------------------------------------------
  // The stores
  // ---------------------------------------------------------------------------

  class MemoryTaskStore {
    var tasks: Records

    constructor ()
      ensures tasks == map[]
    {
      tasks := map[];
    }

    method Save(task: TaskRecord)
      modifies this
      ensures tasks == old(tasks)[task.id := task]
    {
      tasks := tasks[task.id := task];
    }

    method Get(id: string) returns (r: Option<TaskRecord>)
      ensures r == Lookup(tasks, id)
    {
      r := if id in tasks then Some(tasks[id]) else None;
    }

    method List(limit: Option<int>, offset: int, status: Option<Status>) returns (page: seq<TaskRecord>)
      ensures IsListing(tasks, limit, offset, status, page)
      ensures IsPage(tasks, limit, offset, status, page)
    {
      var ids := SortIds(tasks.Keys);
      var rs := InOrderOf(tasks, ids);
      assert Sorted(tasks, rs);
      page := FilterRecords(rs, limit, offset, status);
      ListingIsPage(tasks, limit, offset, status, page);
    }
  }

  /** The file as one user sees it between locked operations: no file yet, or the text of an
      encoded document.  The encoding is any with a left inverse. */
  class LocalTaskStore {
    const encode: Records -> string
    const decode: string -> Records
    var text: Option<string>

    ghost predicate Valid()
      reads this
    {
      && (forall m :: decode(encode(m)) == m)
      && (text.Some? ==> exists m :: text.value == encode(m))
    }

    ghost function Abstract(): Records
      reads this
    {
      if text.Some? then decode(text.value) else map[]
    }

    constructor (encode: Records -> string, decode: string -> Records)
      requires forall m :: decode(encode(m)) == m
      ensures Valid() && Abstract() == map[]
    {
      this.encode, this.decode, text := encode, decode, None;
    }

    method ReadDocument() returns (m: Records)
      ensures m == Abstract()
    {
      m := if text.Some? then decode(text.value) else map[];
    }

    method Save(task: TaskRecord)
      requires Valid()
      modifies this
      ensures Valid() && Abstract() == old(Abstract())[task.id := task]
    {
      var payload := ReadDocument();
      payload := payload[task.id := task];
      text := Some(encode(payload));
    }

    method Get(id: string) returns (r: Option<TaskRecord>)
      requires Valid()
      ensures r == Lookup(Abstract(), id)
    {
      var payload := ReadDocument();
      r := if id in payload then Some(payload[id]) else None;
    }

    method List(limit: Option<int>, offset: int, status: Option<Status>) returns (page: seq<TaskRecord>)
      requires Valid()
      ensures IsListing(Abstract(), limit, offset, status, page)
      ensures IsPage(Abstract(), limit, offset, status, page)
    {
      var payload := ReadDocument();
      var ids := SortIds(payload.Keys);
      var rs := InOrderOf(payload, ids);
      assert Sorted(payload, rs);
      page := FilterRecords(rs, limit, offset, status);
      ListingIsPage(Abstract(), limit, offset, status, page);
    }
  }

  datatype RedisValue = Text(text: string) | Members(members: set<string>)

  function RecordKey(namespace: string, id: string): string {
    namespace + ":record:" + id
  }

  function IndexKey(namespace: string): string {
    namespace + ":ids"
  }

  /** Record keys are one per id, and none of them is the index key. */
  lemma KeysApart(namespace: string, a: string, b: string)
    ensures RecordKey(namespace, a) == RecordKey(namespace, b) ==> a == b
    ensures RecordKey(namespace, a) != IndexKey(namespace)
  {
    var p := namespace + ":record:";
    assert RecordKey(namespace, a)[|p|..] == a;
    assert RecordKey(namespace, b)[|p|..] == b;
    assert RecordKey(namespace, a)[|namespace| + 1] == 'r';
    assert IndexKey(namespace)[|namespace| + 1] == 'i';
  }

  type Encoder = TaskRecord -> string
  type Decoder = string -> TaskRecord

  /** How ids and the index are laid out in the key space. */
  datatype Layout = Layout(recordKey: string -> string, indexKey: string)

  function LayoutOf(namespace: string): Layout {
    Layout(id => RecordKey(namespace, id), IndexKey(namespace))
  }

  ghost predicate Apart(l: Layout) {
    forall a, b :: l.recordKey(a) != l.indexKey && (l.recordKey(a) == l.recordKey(b) ==> a == b)
  }

  lemma LayoutApart(namespace: string)
    ensures Apart(LayoutOf(namespace))
  {
    forall a, b
      ensures RecordKey(namespace, a) != IndexKey(namespace)
      ensures RecordKey(namespace, a) == RecordKey(namespace, b) ==> a == b
    {
      KeysApart(namespace, a, b);
    }
  }

  /** The ids `smembers` returns. */
  function Index(l: Layout, keys: map<string, RedisValue>): set<string> {
    if l.indexKey in keys && keys[l.indexKey].Members? then keys[l.indexKey].members else {}
  }

  /** Every record key holds the text of a record. */
  ghost predicate Coded(l: Layout, encode: Encoder, keys: map<string, RedisValue>) {
    forall id :: l.recordKey(id) in keys ==>
      keys[l.recordKey(id)].Text? && exists r :: keys[l.recordKey(id)].text == encode(r)
  }

  /** Between saves the index names exactly the ids that have a record. */
  ghost predicate Indexed(l: Layout, keys: map<string, RedisValue>) {
    forall id :: id in Index(l, keys) <==> l.recordKey(id) in keys
  }

  ghost function RecordsIn(l: Layout, encode: Encoder, decode: Decoder, keys: map<string, RedisValue>): Records
    requires Coded(l, encode, keys) && Indexed(l, keys)
  {
    map id | id in Index(l, keys) :: decode(keys[l.recordKey(id)].text)
  }

  /** The two writes of a save, `set` then `sadd`. */
  function WithRecord(l: Layout, encode: Encoder, keys: map<string, RedisValue>, task: TaskRecord)
    : map<string, RedisValue>
  {
    keys[l.recordKey(task.id) := Text(encode(task))]
  }

  function WithMember(l: Layout, keys: map<string, RedisValue>, id: string): map<string, RedisValue> {
    keys[l.indexKey := Members(Index(l, keys) + {id})]
  }

  /** After the first write alone, the record is readable but its id is not listed yet. */
  lemma HalfSaved(l: Layout, encode: Encoder, keys: map<string, RedisValue>, task: TaskRecord)
    requires Apart(l) && Coded(l, encode, keys)
    ensures
      var half := WithRecord(l, encode, keys, task);
      && Coded(l, encode, half) && Index(l, half) == Index(l, keys)
      && half[l.recordKey(task.id)] == Text(encode(task))
  {
    assert l.recordKey(task.id) != l.indexKey;
  }

  lemma FullySaved(l: Layout, encode: Encoder, keys: map<string, RedisValue>, task: TaskRecord, id: string)
    requires Apart(l) && Coded(l, encode, keys) && Indexed(l, keys)
    ensures
      var full := WithMember(l, WithRecord(l, encode, keys, task), task.id);
      && Index(l, full) == Index(l, keys) + {task.id}
      && (l.recordKey(id) in full <==> id == task.id || l.recordKey(id) in keys)
      && (l.recordKey(id) in full ==>
            full[l.recordKey(id)] == if id == task.id then Text(encode(task)) else keys[l.recordKey(id)])
  {
    HalfSaved(l, encode, keys, task);
    assert l.recordKey(id) != l.indexKey;
    assert l.recordKey(id) == l.recordKey(task.id) ==> id == task.id;
  }

  /** After both, the index is right again and the map has gained the record. */
  lemma SaveKeeps(l: Layout, encode: Encoder, decode: Decoder, keys: map<string, RedisValue>, task: TaskRecord)
    requires Apart(l) && (forall r :: decode(encode(r)) == r) && Coded(l, encode, keys) && Indexed(l, keys)
    ensures
      var full := WithMember(l, WithRecord(l, encode, keys, task), task.id);
      && Coded(l, encode, full) && Indexed(l, full)
      && RecordsIn(l, encode, decode, full) == RecordsIn(l, encode, decode, keys)[task.id := task]
  {
    var full := WithMember(l, WithRecord(l, encode, keys, task), task.id);
    assert Coded(l, encode, full) by {
      forall id | l.recordKey(id) in full
        ensures full[l.recordKey(id)].Text? && exists r :: full[l.recordKey(id)].text == encode(r)
      {
        FullySaved(l, encode, keys, task, id);
      }
    }
    assert Indexed(l, full) by {
      forall id ensures id in Index(l, full) <==> l.recordKey(id) in full {
        FullySaved(l, encode, keys, task, id);
      }
    }
    MapGains(l, encode, decode, keys, task, full);
  }

  lemma MapGains(l: Layout, encode: Encoder, decode: Decoder, keys: map<string, RedisValue>, task: TaskRecord,
                 full: map<string, RedisValue>)
    requires Apart(l) && (forall r :: decode(encode(r)) == r) && Coded(l, encode, keys) && Indexed(l, keys)
    requires full == WithMember(l, WithRecord(l, encode, keys, task), task.id)
    requires Coded(l, encode, full) && Indexed(l, full)
    ensures RecordsIn(l, encode, decode, full) == RecordsIn(l, encode, decode, keys)[task.id := task]
  {
    var a, b := RecordsIn(l, encode, decode, full), RecordsIn(l, encode, decode, keys)[task.id := task];
    forall id ensures Lookup(a, id) == Lookup(b, id) {
      GainsAt(l, encode, decode, keys, task, full, id);
    }
    SameLookups(a, b);
  }

  lemma SameLookups(a: Records, b: Records)
    requires forall id :: Lookup(a, id) == Lookup(b, id)
    ensures a == b
  {
    forall id ensures id in a <==> id in b {
      assert Lookup(a, id) == Lookup(b, id);
    }
    forall id | id in a ensures a[id] == b[id] {
      assert Lookup(a, id) == Lookup(b, id);
    }
  }

  lemma GainsAt(l: Layout, encode: Encoder, decode: Decoder, keys: map<string, RedisValue>, task: TaskRecord,
                full: map<string, RedisValue>, id: string)
    requires Apart(l) && (forall r :: decode(encode(r)) == r) && Coded(l, encode, keys) && Indexed(l, keys)
    requires full == WithMember(l, WithRecord(l, encode, keys, task), task.id)
    requires Coded(l, encode, full) && Indexed(l, full)
    ensures Lookup(RecordsIn(l, encode, decode, full), id) ==
            Lookup(RecordsIn(l, encode, decode, keys)[task.id := task], id)
  {
    FullySaved(l, encode, keys, task, id);
    RecordAt(l, encode, decode, full, id);
    RecordAt(l, encode, decode, keys, id);
  }

  lemma RecordAt(l: Layout, encode: Encoder, decode: Decoder, keys: map<string, RedisValue>, id: string)
    requires Coded(l, encode, keys) && Indexed(l, keys)
    ensures id in RecordsIn(l, encode, decode, keys) <==> id in Index(l, keys)
    ensures id in Index(l, keys) ==>
      l.recordKey(id) in keys && RecordsIn(l, encode, decode, keys)[id] == decode(keys[l.recordKey(id)].text)
  {
  }

  /** Redis: one key space holding a text per record and the set of ids. */
  class RedisTaskStore {
    const namespace: string
    const encode: Encoder
    const decode: Decoder
    var keys: map<string, RedisValue>

    ghost predicate Valid()
      reads this
    {
      && (forall r :: decode(encode(r)) == r)
      && Coded(LayoutOf(namespace), encode, keys) && Indexed(LayoutOf(namespace), keys)
    }

    ghost function Abstract(): Records
      requires Valid()
      reads this
    {
      RecordsIn(LayoutOf(namespace), encode, decode, keys)
    }

    constructor (namespace: string, encode: Encoder, decode: Decoder)
      requires forall r :: decode(encode(r)) == r
      ensures Valid() && Abstract() == map[]
    {
      this.namespace, this.encode, this.decode, keys := namespace, encode, decode, map[];
    }

    method Save(task: TaskRecord)
      requires Valid()
      modifies this
      ensures Valid() && Abstract() == old(Abstract())[task.id := task]
    {
      var l := LayoutOf(namespace);
      LayoutApart(namespace);
      SaveKeeps(l, encode, decode, keys, task);
      keys := keys[l.recordKey(task.id) := Text(encode(task))];
      keys := keys[l.indexKey := Members(Index(l, keys) + {task.id})];
    }

    method Get(id: string) returns (r: Option<TaskRecord>)
      requires Valid()
      ensures r == Lookup(Abstract(), id)
    {
      var key := LayoutOf(namespace).recordKey(id);
      r := if key in keys then Some(decode(keys[key].text)) else None;
    }

    method List(limit: Option<int>, offset: int, status: Option<Status>) returns (page: seq<TaskRecord>)
      requires Valid()
      ensures IsListing(Abstract(), limit, offset, status, page)
      ensures IsPage(Abstract(), limit, offset, status, page)
    {
      var ids := SortIds(Index(LayoutOf(namespace), keys));
      var rs: seq<TaskRecord> := [];
      var i := 0;
      assert forall k :: 0 <= k < |ids| ==> ids[k] in Abstract();
      while i < |ids|
        invariant 0 <= i <= |ids| == |InOrderOf(Abstract(), ids)|
        invariant rs == InOrderOf(Abstract(), ids)[..i]
      {
        assert ids[i] in Abstract();
        var r := Get(ids[i]);
        if r.Some? {
          rs := rs + [r.value];
        }
        i := i + 1;
      }
      assert Abstract().Keys == Index(LayoutOf(namespace), keys);
      assert Sorted(Abstract(), rs);
      page := FilterRecords(rs, limit, offset, status);
      ListingIsPage(Abstract(), limit, offset, status, page);
    }
  }

  // ---------------------------------------------------------------------------
  // The three agree
  // ---------------------------------------------------------------------------

  /** The map a history of saves amounts to. */
  function SavedBy(start: Records, history: seq<TaskRecord>): Records {
    if history == [] then start
    else SavedBy(start, history[..|history| - 1])[history[|history| - 1].id := history[|history| - 1]]
  }

  lemma SavedByStep(start: Records, history: seq<TaskRecord>, i: nat)
    requires i < |history|
    ensures SavedBy(start, history[..i + 1]) == SavedBy(start, history[..i])[history[i].id := history[i]]
  {
    assert history[..i + 1][..i] == history[..i];
  }

  ghost predicate Agree(memory: MemoryTaskStore, local: LocalTaskStore, redis: RedisTaskStore, m: Records)
    reads memory, local, redis
  {
    local.Valid() && redis.Valid() && memory.tasks == m && local.Abstract() == m && redis.Abstract() == m
  }

  method SaveEverywhere(memory: MemoryTaskStore, local: LocalTaskStore, redis: RedisTaskStore, task: TaskRecord,
                        ghost m: Records)
    requires Agree(memory, local, redis, m)
    modifies memory, local, redis
    ensures Agree(memory, local, redis, m[task.id := task])
  {
    memory.Save(task);
    local.Save(task);
    redis.Save(task);
  }

  /** After the same history of saves every store holds the map that history amounts to. */
  method SaveHistory(memory: MemoryTaskStore, local: LocalTaskStore, redis: RedisTaskStore, history: seq<TaskRecord>,
                     ghost start: Records)
    requires Agree(memory, local, redis, start)
    modifies memory, local, redis
    ensures Agree(memory, local, redis, SavedBy(start, history))
  {
    var i := 0;
    while i < |history|
      invariant 0 <= i <= |history| && Agree(memory, local, redis, SavedBy(start, history[..i]))
    {
      SavedByStep(start, history, i);
      SaveEverywhere(memory, local, redis, history[i], SavedBy(start, history[..i]));
      i := i + 1;
    }
    assert history[..i] == history;
  }

  /** Stores that hold the same map give the same `get` and the same `list` for every
      status, limit and offset. */
  method Compare(memory: MemoryTaskStore, local: LocalTaskStore, redis: RedisTaskStore,
                 id: string, limit: Option<int>, offset: int, status: Option<Status>, ghost m: Records)
    returns (found: Option<TaskRecord>, page: seq<TaskRecord>, same: bool)
    requires Agree(memory, local, redis, m)
    ensures same && found == Lookup(m, id) && IsListing(m, limit, offset, status, page)
    ensures IsPage(m, limit, offset, status, page)
  {
    found := memory.Get(id);
    var found2 := local.Get(id);
    var found3 := redis.Get(id);
    page := memory.List(limit, offset, status);
    var page2 := local.List(limit, offset, status);
    var page3 := redis.List(limit, offset, status);
    ListingUnique(memory.tasks, limit, offset, status, page, page2);
    ListingUnique(memory.tasks, limit, offset, status, page, page3);
    same := found == found2 == found3 && page == page2 == page3;
  }
}

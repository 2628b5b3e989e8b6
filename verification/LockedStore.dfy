/** The JSON task store shared by many processes (engine/runtime/store.py, LocalTaskStore):
    every operation takes an exclusive lock, a save reads the whole document, writes a new
    one to a temporary file, syncs it and renames it over the old one.  Operations of any
    number of processes interleave at the granularity of these steps, and a process may
    die between any two of them. */
module LockedStore {
  import opened Tasks

  type Document = map<string, TaskRecord>

  /** What is at the store's path.  `Torn` would be a half-written document. */
  datatype File = Missing | Blank | Torn | Doc(doc: Document)

  /** A read of the path; a missing or blank file counts as an empty document. */
  function Contents(f: File): Document {
    if f.Doc? then f.doc else map[]
  }

  datatype Operation = Save(rec: TaskRecord) | Read

  datatype Phase =
    | Waiting                     // wants the lock
    | Holding                     // has the lock, has not read
    | Loaded(doc: Document)       // has read
    | Writing(doc: Document)      // temporary file created, partly written
    | Synced(doc: Document)       // temporary file complete and flushed
    | Swapped                     // renamed over the store's path
    | Finished(seen: Document)    // lock released; what the operation had read
    | Dead(committed: bool)       // the process died; whether its rename had happened

  /** `began` and `saw` remember how many saves had taken effect when the operation began
      and when it read. */
  datatype Process = Process(op: Operation, phase: Phase, began: nat, saw: nat)

  /** Operations are numbered; a temporary file belongs to the operation that made it. */
  datatype State = State(
    file: File,
    lock: Option<nat>,
    processes: map<nat, Process>,
    temps: map<nat, File>,
    acquired: seq<nat>,
    committed: seq<nat>)

  datatype Step =
    | Begin(p: nat, op: Operation)
    | Acquire(p: nat)
    | Load(p: nat)
    | OpenTemp(p: nat)
    | SyncTemp(p: nat)
    | Replace(p: nat)
    | Release(p: nat)
    | Die(p: nat)

  predicate HasLock(ph: Phase) {
    ph.Holding? || ph.Loaded? || ph.Writing? || ph.Synced? || ph.Swapped?
  }

  predicate Enabled(s: State, e: Step) {
    match e
    case Begin(p, _) => p !in s.processes
    case Acquire(p) => p in s.processes && s.processes[p].phase == Waiting && s.lock == None
    case Load(p) => p in s.processes && s.processes[p].phase == Holding
    case OpenTemp(p) => p in s.processes && s.processes[p].phase.Loaded? && s.processes[p].op.Save?
    case SyncTemp(p) => p in s.processes && s.processes[p].phase.Writing? && s.processes[p].op.Save?
    case Replace(p) => p in s.processes && s.processes[p].phase.Synced? && p in s.temps
    case Release(p) =>
      p in s.processes
      && (s.processes[p].phase.Swapped? || (s.processes[p].op.Read? && s.processes[p].phase.Loaded?))
    case Die(p) => p in s.processes && !s.processes[p].phase.Finished? && !s.processes[p].phase.Dead?
  }

  function At(s: State, p: nat, ph: Phase): map<nat, Process>
    requires p in s.processes
  {
    s.processes[p := s.processes[p].(phase := ph)]
  }

  function Next(s: State, e: Step): State
    requires Enabled(s, e)
  {
    match e
    case Begin(p, op) =>
      s.(processes := s.processes[p := Process(op, Waiting, |s.committed|, 0)])
    case Acquire(p) =>
      s.(lock := Some(p), processes := At(s, p, Holding), acquired := s.acquired + [p])
    case Load(p) =>
      s.(processes := s.processes[p := s.processes[p].(phase := Loaded(Contents(s.file)), saw := |s.committed|)])
    case OpenTemp(p) =>
      s.(processes := At(s, p, Writing(s.processes[p].phase.doc)), temps := s.temps[p := Torn])
    case SyncTemp(p) =>
      var doc := s.processes[p].phase.doc;
      var rec := s.processes[p].op.rec;
      s.(processes := At(s, p, Synced(doc)), temps := s.temps[p := Doc(doc[rec.id := rec])])
    case Replace(p) =>
      s.(file := s.temps[p], temps := s.temps - {p}, processes := At(s, p, Swapped), committed := s.committed + [p])
    case Release(p) =>
      var seen := if s.processes[p].phase.Loaded? then s.processes[p].phase.doc else map[];
      s.(lock := None, processes := At(s, p, Finished(seen)))
    case Die(p) =>
      s.(lock := if HasLock(s.processes[p].phase) then None else s.lock,
         processes := At(s, p, Dead(s.processes[p].phase.Swapped?)))
  }

  /** The state after a schedule; none if some step was not enabled when its turn came. */
  function Run(s: State, steps: seq<Step>): Option<State> {
    if steps == [] then Some(s)
    else
      var n := |steps| - 1;
      var t := Run(s, steps[..n]);
      if t.Some? && Enabled(t.value, steps[n]) then Some(Next(t.value, steps[n])) else None
  }

  predicate Initial(s: State) {
    && s.file != Torn && s.lock == None && s.processes == map[] && s.temps == map[]
    && s.acquired == [] && s.committed == []
  }

  // ---------------------------------------------------------------------------
  // The sequential reference
  // ---------------------------------------------------------------------------

  /** Saves applied one after another to a document. */
  function Replayed(start: Document, s: State, order: seq<nat>): Document
    requires forall i :: 0 <= i < |order| ==> order[i] in s.processes && s.processes[order[i]].op.Save?
  {
    if order == [] then start
    else
      var n := |order| - 1;
      var rec := s.processes[order[n]].op.rec;
      Replayed(start, s, order[..n])[rec.id := rec]
  }

  predicate CommittedKnown(s: State) {
    forall i :: 0 <= i < |s.committed| ==> s.committed[i] in s.processes && s.processes[s.committed[i]].op.Save?
  }

  predicate DidCommit(ph: Phase, op: Operation) {
    op.Save? && (ph.Swapped? || ph.Finished? || (ph.Dead? && ph.committed))
  }

  /** `a` is listed in `s`, in order. */
  predicate InOrder(a: seq<nat>, b: seq<nat>) {
    if a == [] then true
    else if b == [] then false
    else if a[|a| - 1] == b[|b| - 1] then InOrder(a[..|a| - 1], b[..|b| - 1])
    else InOrder(a, b[..|b| - 1])
  }

  ghost predicate Invariant(start: Document, s: State) {
    && CommittedKnown(s)
    && s.file != Torn
    && Contents(s.file) == Replayed(start, s, s.committed)
    && (forall p :: p in s.processes ==> ProcessOk(s, p))
    && (forall p :: s.lock == Some(p) ==> p in s.processes && HasLock(s.processes[p].phase))
    && (forall i, j :: 0 <= i < j < |s.committed| ==> s.committed[i] != s.committed[j])
  }

  ghost predicate ProcessOk(s: State, p: nat)
    requires p in s.processes
  {
    var x := s.processes[p];
    && (HasLock(x.phase) ==> s.lock == Some(p))
    && (x.phase.Loaded? || x.phase.Writing? || x.phase.Synced? ==> x.phase.doc == Contents(s.file))
    && (x.phase.Writing? || x.phase.Synced? || x.phase.Swapped? ==> x.op.Save?)
    && (x.phase.Synced? && p in s.temps ==> s.temps[p] == Doc(x.phase.doc[x.op.rec.id := x.op.rec]))
    && (DidCommit(x.phase, x.op) <==> p in s.committed)
    && x.began <= |s.committed|
  }

  lemma {:induction false} ReplayedFrame(start: Document, s: State, t: State, order: seq<nat>)
    requires forall i :: 0 <= i < |order| ==> order[i] in s.processes && s.processes[order[i]].op.Save?
    requires forall p :: p in s.processes ==> p in t.processes && t.processes[p].op == s.processes[p].op
    ensures Replayed(start, s, order) == Replayed(start, t, order)
  {
    if order != [] {
      ReplayedFrame(start, s, t, order[..|order| - 1]);
    }
  }

  /** A step of one operation leaves what is known of the others intact. */
  lemma OtherProcess(start: Document, s: State, e: Step, p: nat)
    requires Invariant(start, s) && Enabled(s, e) && p in s.processes && p != e.p
    ensures p in Next(s, e).processes && ProcessOk(Next(s, e), p)
  {
    assert ProcessOk(s, p);
    if e.p in s.processes {
      assert ProcessOk(s, e.p);
    }
  }

  lemma OwnProcess(start: Document, s: State, e: Step)
    requires Invariant(start, s) && Enabled(s, e)
    ensures e.p in Next(s, e).processes && ProcessOk(Next(s, e), e.p)
  {
    if e.p in s.processes {
      assert ProcessOk(s, e.p);
    } else {
      assert forall i :: 0 <= i < |s.committed| ==> s.committed[i] in s.processes;
    }
  }

  lemma FileFollows(start: Document, s: State, e: Step)
    requires Invariant(start, s) && Enabled(s, e)
    ensures
      var t := Next(s, e);
      CommittedKnown(t) && t.file != Torn && Contents(t.file) == Replayed(start, t, t.committed)
  {
    var t := Next(s, e);
    ReplayedFrame(start, s, t, s.committed);
    if e.Replace? {
      assert ProcessOk(s, e.p);
      assert t.committed[..|s.committed|] == s.committed;
    }
  }

  lemma CommitsDistinct(start: Document, s: State, e: Step)
    requires Invariant(start, s) && Enabled(s, e)
    ensures
      var c := Next(s, e).committed;
      forall i, j :: 0 <= i < j < |c| ==> c[i] != c[j]
  {
    if e.Replace? {
      assert ProcessOk(s, e.p);
      assert e.p !in s.committed;
    }
  }

  lemma StepKeepsInvariant(start: Document, s: State, e: Step)
    requires Invariant(start, s) && Enabled(s, e)
    ensures Invariant(start, Next(s, e))
  {
    var t := Next(s, e);
    FileFollows(start, s, e);
    CommitsDistinct(start, s, e);
    OwnProcess(start, s, e);
    forall p | p in t.processes ensures ProcessOk(t, p) {
      if p != e.p {
        OtherProcess(start, s, e, p);
      }
    }
  }

  lemma {:induction false} RunKeepsInvariant(s: State, steps: seq<Step>)
    requires Initial(s) && Run(s, steps).Some?
    ensures Invariant(Contents(s.file), Run(s, steps).value)
  {
    if steps != [] {
      var n := |steps| - 1;
      RunKeepsInvariant(s, steps[..n]);
      StepKeepsInvariant(Contents(s.file), Run(s, steps[..n]).value, steps[n]);
    }
  }

  // ---------------------------------------------------------------------------
  // Lock order and reads
  // ---------------------------------------------------------------------------

  lemma {:induction false} InOrderDrop(a: seq<nat>, b: seq<nat>)
    requires InOrder(a, b) && a != []
    ensures InOrder(a[..|a| - 1], b)
    decreases |b|, 0
  {
    var f := a[..|a| - 1];
    if a[|a| - 1] == b[|b| - 1] {
      InOrderMore(f, b[..|b| - 1], b[|b| - 1]);
      assert b[..|b| - 1] + [b[|b| - 1]] == b;
    } else {
      InOrderDrop(a, b[..|b| - 1]);
      InOrderMore(f, b[..|b| - 1], b[|b| - 1]);
      assert b[..|b| - 1] + [b[|b| - 1]] == b;
    }
  }

  lemma {:induction false} InOrderMore(a: seq<nat>, b: seq<nat>, x: nat)
    requires InOrder(a, b)
    ensures InOrder(a, b + [x])
    decreases |b|, 1
  {
    assert (b + [x])[..|b|] == b;
    if a != [] && a[|a| - 1] == x {
      InOrderDrop(a, b);
    }
  }

  /** Renames happen in the order in which the lock was taken. */
  predicate LockOrder(s: State) {
    match s.lock
    case None => InOrder(s.committed, s.acquired)
    case Some(p) =>
      && s.acquired != [] && s.acquired[|s.acquired| - 1] == p
      && InOrder(if p in s.committed then s.committed[..|s.committed| - 1] else s.committed,
                 s.acquired[..|s.acquired| - 1])
      && (p in s.committed ==> s.committed[|s.committed| - 1] == p)
  }

  /** Lock order holds also while the lock is taken. */
  lemma LockOrderAlways(s: State)
    requires LockOrder(s)
    ensures InOrder(s.committed, s.acquired)
  {
    if s.lock.Some? {
      var n := |s.acquired| - 1;
      assert s.acquired == s.acquired[..n] + [s.acquired[n]];
      if s.lock.value !in s.committed {
        InOrderMore(s.committed, s.acquired[..n], s.acquired[n]);
      }
    }
  }

  lemma AcquireKeepsLockOrder(start: Document, s: State, e: Step)
    requires Invariant(start, s) && LockOrder(s) && Enabled(s, e) && e.Acquire?
    ensures LockOrder(Next(s, e))
  {
    assert ProcessOk(s, e.p);
    assert Next(s, e).acquired[..|s.acquired|] == s.acquired;
    assert e.p !in s.committed;
  }

  lemma ReplaceKeepsLockOrder(start: Document, s: State, e: Step)
    requires Invariant(start, s) && LockOrder(s) && Enabled(s, e) && e.Replace?
    ensures LockOrder(Next(s, e))
  {
    assert ProcessOk(s, e.p);
    assert s.lock == Some(e.p) && e.p !in s.committed;
    assert Next(s, e).committed[..|s.committed|] == s.committed;
  }

  lemma StepKeepsLockOrder(start: Document, s: State, e: Step)
    requires Invariant(start, s) && LockOrder(s) && Enabled(s, e)
    ensures LockOrder(Next(s, e))
  {
    var t := Next(s, e);
    if e.Acquire? {
      AcquireKeepsLockOrder(start, s, e);
    } else if e.Replace? {
      ReplaceKeepsLockOrder(start, s, e);
    } else if s.lock.Some? && t.lock.None? {
      LockOrderAlways(s);
    } else {
      assert t.lock == s.lock && t.acquired == s.acquired && t.committed == s.committed;
    }
  }

  /** A read sees the document after some number of saves, no fewer than had taken effect
      when it began. */
  ghost predicate ReadOk(start: Document, s: State, p: nat)
    requires p in s.processes && CommittedKnown(s)
  {
    var x := s.processes[p];
    x.op.Read? && (x.phase.Loaded? || x.phase.Finished?) ==>
      && x.began <= x.saw <= |s.committed|
      && (if x.phase.Loaded? then x.phase.doc else x.phase.seen) == Replayed(start, s, s.committed[..x.saw])
  }

  ghost predicate ReadsOk(start: Document, s: State)
    requires CommittedKnown(s)
  {
    forall p :: p in s.processes ==> ReadOk(start, s, p)
  }

  lemma StepKeepsReads(start: Document, s: State, e: Step)
    requires Invariant(start, s) && ReadsOk(start, s) && Enabled(s, e)
    ensures CommittedKnown(Next(s, e)) && ReadsOk(start, Next(s, e))
  {
    var t := Next(s, e);
    FileFollows(start, s, e);
    forall p | p in t.processes ensures ReadOk(start, t, p) {
      if p in s.processes {
        assert ReadOk(start, s, p) && ProcessOk(s, p);
        ReadKept(start, s, e, p);
      }
    }
  }

  lemma ReadKept(start: Document, s: State, e: Step, p: nat)
    requires Invariant(start, s) && Enabled(s, e) && p in s.processes && ReadOk(start, s, p) && ProcessOk(s, p)
    requires CommittedKnown(Next(s, e))
    ensures p in Next(s, e).processes && ReadOk(start, Next(s, e), p)
  {
    var t := Next(s, e);
    if e == Load(p) {
      assert s.committed[..|s.committed|] == s.committed;
      ReplayedFrame(start, s, t, s.committed);
    } else {
      StillSeen(start, s, t, p);
    }
  }

  /** What a read saw does not change as more saves take effect. */
  lemma StillSeen(start: Document, s: State, t: State, p: nat)
    requires CommittedKnown(s) && CommittedKnown(t) && s.committed <= t.committed
    requires forall q :: q in s.processes ==> q in t.processes && t.processes[q].op == s.processes[q].op
    requires p in s.processes && ReadOk(start, s, p)
    requires t.processes[p].saw == s.processes[p].saw && t.processes[p].began == s.processes[p].began
    requires t.processes[p].phase.Loaded? ==> t.processes[p].phase == s.processes[p].phase
    requires t.processes[p].phase.Finished? && t.processes[p].op.Read? ==>
      (s.processes[p].phase.Finished? && t.processes[p].phase == s.processes[p].phase)
      || (s.processes[p].phase.Loaded? && t.processes[p].phase.seen == s.processes[p].phase.doc)
    ensures ReadOk(start, t, p)
  {
    var x := s.processes[p];
    if x.op.Read? && (x.phase.Loaded? || x.phase.Finished?) {
      assert t.committed[..x.saw] == s.committed[..x.saw];
      ReplayedFrame(start, s, t, s.committed[..x.saw]);
    }
  }

  lemma {:induction false} RunKeepsAll(s: State, steps: seq<Step>)
    requires Initial(s) && Run(s, steps).Some?
    ensures
      var t := Run(s, steps).value;
      Invariant(Contents(s.file), t) && LockOrder(t) && ReadsOk(Contents(s.file), t)
  {
    if steps != [] {
      var n := |steps| - 1;
      RunKeepsAll(s, steps[..n]);
      var t := Run(s, steps[..n]).value;
      StepKeepsInvariant(Contents(s.file), t, steps[n]);
      StepKeepsLockOrder(Contents(s.file), t, steps[n]);
      StepKeepsReads(Contents(s.file), t, steps[n]);
    }
  }

  // ---------------------------------------------------------------------------
  // Linearizability
  // ---------------------------------------------------------------------------

  lemma {:induction false} ReplayedLookup(start: Document, s: State, order: seq<nat>, id: string)
    requires forall i :: 0 <= i < |order| ==> order[i] in s.processes && s.processes[order[i]].op.Save?
    ensures id in start ==> id in Replayed(start, s, order)
    ensures forall i :: 0 <= i < |order| && s.processes[order[i]].op.rec.id == id ==> id in Replayed(start, s, order)
    ensures forall i ::
      (0 <= i < |order| && s.processes[order[i]].op.rec.id == id
       && forall j :: i < j < |order| ==> s.processes[order[j]].op.rec.id != id) ==>
      Replayed(start, s, order)[id] == s.processes[order[i]].op.rec
  {
    if order != [] {
      var n := |order| - 1;
      ReplayedLookup(start, s, order[..n], id);
      forall i | 0 <= i < |order| && s.processes[order[i]].op.rec.id == id ensures id in Replayed(start, s, order) {
        if i < n { assert order[..n][i] == order[i]; }
      }
      forall i | 0 <= i < |order| && s.processes[order[i]].op.rec.id == id
                 && (forall j :: i < j < |order| ==> s.processes[order[j]].op.rec.id != id)
        ensures Replayed(start, s, order)[id] == s.processes[order[i]].op.rec
      {
        if i < n { assert order[..n][i] == order[i]; }
      }
    }
  }

  /** For every schedule the file is a complete document, equal to the saves that took
      effect applied one by one, in lock order, to what was there at first; a save that
      returned has taken effect, exactly once; and nothing saved is ever lost: each saved
      id is in the file, with the record of the last save of that id. */
  lemma Linearizable(s: State, steps: seq<Step>)
    requires Initial(s) && Run(s, steps).Some?
    ensures
      var t := Run(s, steps).value;
      && CommittedKnown(t)
      && t.file != Torn && Contents(t.file) == Replayed(Contents(s.file), t, t.committed)
      && (forall i, j :: 0 <= i < j < |t.committed| ==> t.committed[i] != t.committed[j])
      && InOrder(t.committed, t.acquired)
      && (forall p :: p in t.processes && t.processes[p].op.Save? && t.processes[p].phase.Finished? ==>
            p in t.committed)
      && Contents(s.file).Keys <= Contents(t.file).Keys
      && (forall i :: 0 <= i < |t.committed| ==> t.processes[t.committed[i]].op.rec.id in Contents(t.file))
  {
    RunKeepsAll(s, steps);
    var t := Run(s, steps).value;
    LockOrderAlways(t);
    forall id | id in Contents(s.file) ensures id in Contents(t.file) {
      ReplayedLookup(Contents(s.file), t, t.committed, id);
    }
    forall i | 0 <= i < |t.committed| ensures t.processes[t.committed[i]].op.rec.id in Contents(t.file) {
      ReplayedLookup(Contents(s.file), t, t.committed, t.processes[t.committed[i]].op.rec.id);
    }
    forall p | p in t.processes && t.processes[p].op.Save? && t.processes[p].phase.Finished? ensures p in t.committed {
      assert ProcessOk(t, p);
    }
  }

  /** The record found under an id is that of the last save of it to take effect. */
  lemma LastSaveWins(s: State, steps: seq<Step>, i: nat)
    requires Initial(s) && Run(s, steps).Some?
    requires CommittedKnown(Run(s, steps).value) && i < |Run(s, steps).value.committed|
    requires
      var t := Run(s, steps).value;
      forall j :: i < j < |t.committed| ==>
        t.processes[t.committed[j]].op.rec.id != t.processes[t.committed[i]].op.rec.id
    ensures
      var t := Run(s, steps).value;
      var rec := t.processes[t.committed[i]].op.rec;
      rec.id in Contents(t.file) && Contents(t.file)[rec.id] == rec
  {
    RunKeepsAll(s, steps);
    var t := Run(s, steps).value;
    ReplayedLookup(Contents(s.file), t, t.committed, t.processes[t.committed[i]].op.rec.id);
  }

  /** A process that dies between any two steps leaves the file as it is: with its own save
      either wholly in or wholly out, according to whether the rename had happened. */
  lemma DeathIsAtomic(s: State, steps: seq<Step>, p: nat)
    requires Initial(s) && Run(s, steps).Some? && Enabled(Run(s, steps).value, Die(p))
    ensures
      var t := Run(s, steps).value;
      var u := Next(t, Die(p));
      && CommittedKnown(u)
      && u.file == t.file && u.file != Torn && Contents(u.file) == Replayed(Contents(s.file), u, u.committed)
      && (p in u.committed <==> t.processes[p].phase.Swapped?)
      && u.lock != Some(p)
  {
    RunKeepsAll(s, steps);
    var t := Run(s, steps).value;
    assert ProcessOk(t, p);
    FileFollows(Contents(s.file), t, Die(p));
  }

  /** How a state extends an earlier one. */
  predicate Extends(m: State, t: State) {
    && m.committed <= t.committed
    && (forall p :: p in m.processes ==> p in t.processes)
    && (forall p :: p in t.processes && p !in m.processes ==> |m.committed| <= t.processes[p].began)
  }

  lemma {:induction false} RunExtends(s: State, steps: seq<Step>, more: seq<Step>)
    requires Run(s, steps + more).Some?
    ensures Run(s, steps).Some? && Extends(Run(s, steps).value, Run(s, steps + more).value)
    decreases |more|
  {
    if more == [] {
      assert steps + more == steps;
    } else {
      var n := |more| - 1;
      assert (steps + more)[..|steps + more| - 1] == steps + more[..n];
      RunExtends(s, steps, more[..n]);
      StepExtends(Run(s, steps).value, Run(s, steps + more[..n]).value, more[n]);
    }
  }

  lemma StepExtends(m: State, t: State, e: Step)
    requires Extends(m, t) && Enabled(t, e)
    ensures Extends(m, Next(t, e))
  {
  }

  lemma EarlierCommit(a: seq<nat>, b: seq<nat>, p: nat) returns (i: nat)
    requires a <= b && p in a
    ensures i < |a| && b[i] == p
  {
    i :| i < |a| && a[i] == p;
  }

  lemma LaterCommit(a: seq<nat>, b: seq<nat>, q: nat)
    requires a <= b && q !in a
    ensures forall j :: 0 <= j < |b| && b[j] == q ==> |a| <= j
  {
    assert forall j :: 0 <= j < |a| ==> b[j] == a[j];
  }

  /** Real-time order: a save that returned before another operation began takes effect
      before it, and a read that began later sees it. */
  lemma RealTimeOrder(s: State, steps: seq<Step>, more: seq<Step>, p: nat, q: nat)
    requires Initial(s) && Run(s, steps + more).Some? && Run(s, steps).Some?
    requires
      var m := Run(s, steps).value;
      p in m.processes && m.processes[p].op.Save? && m.processes[p].phase.Finished? && q !in m.processes
    ensures
      var t := Run(s, steps + more).value;
      exists i :: 0 <= i < |t.committed| && t.committed[i] == p
        && (forall j :: 0 <= j < |t.committed| && t.committed[j] == q ==> i < j)
        && (q in t.processes && t.processes[q].op.Read? && t.processes[q].phase.Finished? ==> i < t.processes[q].saw)
  {
    RunExtends(s, steps, more);
    RunKeepsAll(s, steps);
    RunKeepsAll(s, steps + more);
    var m, t := Run(s, steps).value, Run(s, steps + more).value;
    assert ProcessOk(m, p);
    var i := EarlierCommit(m.committed, t.committed, p);
    LaterCommit(m.committed, t.committed, q);
    if q in t.processes && t.processes[q].op.Read? && t.processes[q].phase.Finished? {
      assert ReadOk(Contents(s.file), t, q);
    }
  }

  /** The same for a read that returned: a read that began later sees at least what it saw,
      and a save that began later takes effect after everything it saw. */
  lemma ReadsInRealTime(s: State, steps: seq<Step>, more: seq<Step>, p: nat, q: nat)
    requires Initial(s) && Run(s, steps + more).Some? && Run(s, steps).Some?
    requires
      var m := Run(s, steps).value;
      p in m.processes && m.processes[p].op.Read? && m.processes[p].phase.Finished? && q !in m.processes
    ensures
      var m, t := Run(s, steps).value, Run(s, steps + more).value;
      var saw := m.processes[p].saw;
      && (forall j :: 0 <= j < |t.committed| && t.committed[j] == q ==> saw <= j)
      && (q in t.processes && t.processes[q].op.Read? && t.processes[q].phase.Finished? ==> saw <= t.processes[q].saw)
  {
    RunExtends(s, steps, more);
    RunKeepsAll(s, steps);
    RunKeepsAll(s, steps + more);
    var m, t := Run(s, steps).value, Run(s, steps + more).value;
    assert ReadOk(Contents(s.file), m, p);
    LaterCommit(m.committed, t.committed, q);
    if q in t.processes && t.processes[q].op.Read? && t.processes[q].phase.Finished? {
      assert ReadOk(Contents(s.file), t, q);
    }
  }

  /** A read that returned saw the document after some prefix of the saves, no shorter than
      what had taken effect when it began. */
  lemma ReadsAreConsistent(s: State, steps: seq<Step>, q: nat)
    requires Initial(s) && Run(s, steps).Some?
    requires q in Run(s, steps).value.processes
    requires Run(s, steps).value.processes[q].op.Read? && Run(s, steps).value.processes[q].phase.Finished?
    ensures
      var t := Run(s, steps).value;
      var x := t.processes[q];
      && CommittedKnown(t) && x.began <= x.saw <= |t.committed|
      && x.phase.seen == Replayed(Contents(s.file), t, t.committed[..x.saw])
  {
    RunKeepsAll(s, steps);
    assert ReadOk(Contents(s.file), Run(s, steps).value, q);
  }

  // ---------------------------------------------------------------------------
  // Nothing is stuck
  // ---------------------------------------------------------------------------

  lemma RunMore(s: State, steps: seq<Step>, t: State, e: Step)
    requires Run(s, steps) == Some(t) && Enabled(t, e)
    ensures Run(s, steps + [e]) == Some(Next(t, e))
  {
    assert (steps + [e])[..|steps|] == steps;
  }

  /** A waiting operation can take the lock and read, if the lock is free. */
  lemma CanLoad(s: State, p: nat) returns (t: State)
    requires p in s.processes && s.processes[p].phase == Waiting && s.lock == None
    ensures Run(s, [Acquire(p)] + [Load(p)]) == Some(t)
    ensures t.file == s.file && t.lock == Some(p) && t.committed == s.committed
    ensures p in t.processes && t.processes[p].phase == Loaded(Contents(s.file))
    ensures t.processes[p].op == s.processes[p].op
  {
    var a := Next(s, Acquire(p));
    assert [] + [Acquire(p)] == [Acquire(p)];
    RunMore(s, [], s, Acquire(p));
    RunMore(s, [Acquire(p)], a, Load(p));
    t := Next(a, Load(p));
  }

  /** With the lock free, a waiting save can run to its end by itself, and then the file is the
      old document with its record in it. */
  lemma SaveCompletes(s: State, p: nat)
    requires p in s.processes && s.processes[p].op.Save? && s.processes[p].phase == Waiting && s.lock == None
    ensures
      var steps := [Acquire(p)] + [Load(p)] + [OpenTemp(p)] + [SyncTemp(p)] + [Replace(p)] + [Release(p)];
      && Run(s, steps).Some?
      && var t := Run(s, steps).value;
         var rec := s.processes[p].op.rec;
         && t.file == Doc(Contents(s.file)[rec.id := rec]) && t.lock == None
         && p in t.processes && t.processes[p].phase.Finished? && t.committed == s.committed + [p]
  {
    var steps := [Acquire(p)] + [Load(p)];
    var t := CanLoad(s, p);
    var u := CanWrite(s, steps, t, p);
    steps := steps + [OpenTemp(p)] + [SyncTemp(p)];
    RunMore(s, steps, u, Replace(p));
    RunMore(s, steps + [Replace(p)], Next(u, Replace(p)), Release(p));
  }

  lemma CanWrite(s: State, steps: seq<Step>, t: State, p: nat) returns (u: State)
    requires Run(s, steps) == Some(t) && p in t.processes && t.processes[p].phase.Loaded? && t.processes[p].op.Save?
    ensures Run(s, steps + [OpenTemp(p)] + [SyncTemp(p)]) == Some(u)
    ensures
      var doc, rec := t.processes[p].phase.doc, t.processes[p].op.rec;
      && p in u.temps && u.temps[p] == Doc(doc[rec.id := rec]) && u.committed == t.committed
      && p in u.processes && u.processes[p].phase.Synced?
  {
    RunMore(s, steps, t, OpenTemp(p));
    RunMore(s, steps + [OpenTemp(p)], Next(t, OpenTemp(p)), SyncTemp(p));
    u := Next(Next(t, OpenTemp(p)), SyncTemp(p));
  }

  /** So can a waiting read, which returns the document in the file. */
  lemma ReadCompletes(s: State, p: nat)
    requires p in s.processes && s.processes[p].op.Read? && s.processes[p].phase == Waiting && s.lock == None
    ensures
      var steps := [Acquire(p)] + [Load(p)] + [Release(p)];
      && Run(s, steps).Some?
      && var t := Run(s, steps).value;
         && p in t.processes && t.processes[p].phase == Finished(Contents(s.file))
         && t.file == s.file && t.lock == None
  {
    var t := CanLoad(s, p);
    RunMore(s, [Acquire(p)] + [Load(p)], t, Release(p));
  }

  /** Whoever holds the lock can give it up: by dying at the latest, which leaves the file. */
  lemma LockIsFreed(s: State, p: nat)
    requires s.lock == Some(p) && p in s.processes && HasLock(s.processes[p].phase)
    ensures Run(s, [Die(p)]).Some? && Run(s, [Die(p)]).value.lock == None && Run(s, [Die(p)]).value.file == s.file
  {
    assert [] + [Die(p)] == [Die(p)];
    RunMore(s, [], s, Die(p));
  }
}

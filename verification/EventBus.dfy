/** The broadcast bus behind the live event stream (engine/api/bus.py) and the consumer
    loop of one client (engine/api/routes/events.py).  Emitting threads, subscribers and the
    event loop interleave at the granularity of the bus's critical sections and of single
    loop callbacks. */
module EventBus {
  import opened Tasks

  /** A task event, or the sentinel that `shutdown` pushes. */
  type Item = Option<TaskEvent>

  datatype Message = Message(thread: nat, item: Item)

  /** A callback scheduled on the loop: put `message` into `queue`. */
  datatype Callback = Callback(queue: nat, message: Message)

  /** A thread inside `emit` or `shutdown`, after its snapshot: the item and the queues it
      has yet to schedule. */
  datatype Emission = Emission(item: Item, remaining: seq<nat>)

  /** What the bus has been told, in order. */
  datatype Past = Joined(queue: nat) | Left(queue: nat) | Snapshot(thread: nat, item: Item)

  datatype Bus = Bus(
    running: bool,
    subscribers: seq<nat>,
    emissions: map<nat, Emission>,
    callbacks: seq<Callback>,
    queues: map<nat, seq<Message>>,
    past: seq<Past>)

  datatype Step =
    | AttachLoop
    | Subscribe(queue: nat)
    | Unsubscribe(queue: nat)
    | Emit(thread: nat, item: Item)
    | ScheduleNext(thread: nat)
    | RunCallback

  function Without(s: seq<nat>, x: nat): seq<nat> {
    if s == [] then [] else if s[0] == x then s[1..] else [s[0]] + Without(s[1..], x)
  }

  predicate Enabled(b: Bus, e: Step) {
    match e
    case AttachLoop => true
    case Subscribe(q) => q !in b.queues
    case Unsubscribe(q) => q in b.queues
    case Emit(t, _) => t !in b.emissions
    case ScheduleNext(t) => t in b.emissions
    case RunCallback => b.callbacks != [] && b.callbacks[0].queue in b.queues
  }

  function Next(b: Bus, e: Step): Bus
    requires Enabled(b, e)
  {
    match e
    case AttachLoop => b.(running := true)
    case Subscribe(q) =>
      b.(subscribers := b.subscribers + [q], queues := b.queues[q := []], past := b.past + [Joined(q)])
    case Unsubscribe(q) =>
      if q in b.subscribers then b.(subscribers := Without(b.subscribers, q), past := b.past + [Left(q)]) else b
    case Emit(t, item) =>
      if !b.running then b
      else b.(emissions := b.emissions[t := Emission(item, b.subscribers)], past := b.past + [Snapshot(t, item)])
    case ScheduleNext(t) =>
      var x := b.emissions[t];
      if x.remaining == [] then b.(emissions := b.emissions - {t})
      else b.(callbacks := b.callbacks + [Callback(x.remaining[0], Message(t, x.item))],
              emissions := b.emissions[t := Emission(x.item, x.remaining[1..])])
    case RunCallback =>
      var c := b.callbacks[0];
      b.(callbacks := b.callbacks[1..], queues := b.queues[c.queue := b.queues[c.queue] + [c.message]])
  }

  function Run(b: Bus, steps: seq<Step>): Option<Bus> {
    if steps == [] then Some(b)
    else
      var n := |steps| - 1;
      var c := Run(b, steps[..n]);
      if c.Some? && Enabled(c.value, steps[n]) then Some(Next(c.value, steps[n])) else None
  }

  const FRESH := Bus(false, [], map[], [], map[], [])

  // ---------------------------------------------------------------------------
  // What ought to be delivered
  // ---------------------------------------------------------------------------

  /** Is the queue registered at the end of this past? */
  predicate Subscribed(past: seq<Past>, q: nat) {
    if past == [] then false
    else
      var n := |past| - 1;
      match past[n]
      case Joined(p) => p == q || Subscribed(past[..n], q)
      case Left(p) => p != q && Subscribed(past[..n], q)
      case Snapshot(_, _) => Subscribed(past[..n], q)
  }

  /** The items thread `t` emitted at moments when `q` was registered, in order. */
  function Due(past: seq<Past>, q: nat, t: nat): seq<Item> {
    if past == [] then []
    else
      var n := |past| - 1;
      var before := Due(past[..n], q, t);
      if past[n].Snapshot? && past[n].thread == t && Subscribed(past[..n], q) then before + [past[n].item] else before
  }

  function From(messages: seq<Message>, t: nat): seq<Item> {
    if messages == [] then []
    else if messages[0].thread == t then [messages[0].item] + From(messages[1..], t)
    else From(messages[1..], t)
  }

  function Scheduled(callbacks: seq<Callback>, q: nat): seq<Message> {
    if callbacks == [] then []
    else if callbacks[0].queue == q then [callbacks[0].message] + Scheduled(callbacks[1..], q)
    else Scheduled(callbacks[1..], q)
  }

  function InFlight(b: Bus, q: nat, t: nat): seq<Item> {
    if t in b.emissions && q in b.emissions[t].remaining then [b.emissions[t].item] else []
  }

  ghost predicate Shape(b: Bus) {
    && Distinct(b.subscribers)
    && (forall q :: q in b.subscribers ==> q in b.queues)
    && (forall q :: q in b.subscribers <==> Subscribed(b.past, q))
    && (forall t :: t in b.emissions ==> Distinct(b.emissions[t].remaining))
    && (forall t, q :: t in b.emissions && q in b.emissions[t].remaining ==> q in b.queues)
    && (forall i :: 0 <= i < |b.callbacks| ==> b.callbacks[i].queue in b.queues)
    && (forall q, t :: q !in b.queues ==> Due(b.past, q, t) == [])
  }

  /** What a queue has, what is scheduled for it and what is about to be scheduled for it
      together are exactly what is due to it, emitter by emitter and in order. */
  predicate Balanced(b: Bus, q: nat, t: nat) {
    q in b.queues ==>
      From(b.queues[q], t) + From(Scheduled(b.callbacks, q), t) + InFlight(b, q, t) == Due(b.past, q, t)
  }

  ghost predicate Invariant(b: Bus) {
    Shape(b) && forall q, t :: Balanced(b, q, t)
  }

  // ---------------------------------------------------------------------------
  // Lists
  // ---------------------------------------------------------------------------

  lemma {:induction false} FromConcat(a: seq<Message>, b: seq<Message>, t: nat)
    ensures From(a + b, t) == From(a, t) + From(b, t)
  {
    if a == [] {
      assert a + b == b;
    } else {
      assert (a + b)[1..] == a[1..] + b;
      FromConcat(a[1..], b, t);
    }
  }

  lemma {:induction false} ScheduledConcat(a: seq<Callback>, b: seq<Callback>, q: nat)
    ensures Scheduled(a + b, q) == Scheduled(a, q) + Scheduled(b, q)
  {
    if a == [] {
      assert a + b == b;
    } else {
      assert (a + b)[1..] == a[1..] + b;
      ScheduledConcat(a[1..], b, q);
    }
  }

  lemma {:induction false} NothingScheduled(cs: seq<Callback>, q: nat)
    requires forall i :: 0 <= i < |cs| ==> cs[i].queue != q
    ensures Scheduled(cs, q) == []
  {
    if cs != [] {
      NothingScheduled(cs[1..], q);
    }
  }

  lemma {:induction false} WithoutFacts(s: seq<nat>, x: nat)
    requires Distinct(s)
    ensures Distinct(Without(s, x))
    ensures forall y :: y in Without(s, x) <==> y in s && y != x
  {
    if s != [] {
      assert s == [s[0]] + s[1..];
      if s[0] == x {
        assert forall i :: 1 <= i < |s| ==> s[i] != x;
      } else {
        WithoutFacts(s[1..], x);
        var w := Without(s[1..], x);
        forall i | 0 <= i < |w| ensures w[i] != s[0] {
          assert w[i] in w;
          assert w[i] in s[1..];
        }
      }
    }
  }

  // ---------------------------------------------------------------------------
  // Every step keeps the account
  // ---------------------------------------------------------------------------

  lemma PastGrows(past: seq<Past>, x: Past)
    ensures (past + [x])[..|past|] == past
  {
  }

  lemma PastStepKeepsShape(b: Bus, e: Step)
    requires Shape(b) && Enabled(b, e) && (e.Subscribe? || e.Unsubscribe? || e.Emit?)
    ensures Shape(Next(b, e))
  {
    match e
    case Subscribe(q) =>
      PastGrows(b.past, Joined(q));
    case Unsubscribe(q) =>
      PastGrows(b.past, Left(q));
      WithoutFacts(b.subscribers, q);
    case Emit(t, item) =>
      PastGrows(b.past, Snapshot(t, item));
  }

  lemma StepKeepsShape(b: Bus, e: Step)
    requires Shape(b) && Enabled(b, e)
    ensures Shape(Next(b, e))
  {
    if e.Subscribe? || e.Unsubscribe? || e.Emit? {
      PastStepKeepsShape(b, e);
    }
  }

  lemma SubscribeBalanced(b: Bus, p: nat, q: nat, t: nat)
    requires Invariant(b) && Enabled(b, Subscribe(p))
    ensures Balanced(Next(b, Subscribe(p)), q, t)
  {
    assert Balanced(b, q, t);
    PastGrows(b.past, Joined(p));
    if q == p {
      NothingScheduled(b.callbacks, p);
    }
  }

  lemma UnsubscribeBalanced(b: Bus, p: nat, q: nat, t: nat)
    requires Invariant(b) && Enabled(b, Unsubscribe(p))
    ensures Balanced(Next(b, Unsubscribe(p)), q, t)
  {
    assert Balanced(b, q, t);
    PastGrows(b.past, Left(p));
  }

  lemma EmitBalanced(b: Bus, u: nat, item: Item, q: nat, t: nat)
    requires Invariant(b) && Enabled(b, Emit(u, item))
    ensures Balanced(Next(b, Emit(u, item)), q, t)
  {
    assert Balanced(b, q, t);
    PastGrows(b.past, Snapshot(u, item));
    assert q in b.subscribers <==> Subscribed(b.past, q);
  }

  lemma ScheduledOne(cs: seq<Callback>, c: Callback, q: nat, t: nat)
    ensures From(Scheduled(cs + [c], q), t) ==
      From(Scheduled(cs, q), t) + if c.queue == q && c.message.thread == t then [c.message.item] else []
  {
    ScheduledConcat(cs, [c], q);
    assert [c][1..] == [];
    FromConcat(Scheduled(cs, q), Scheduled([c], q), t);
    assert [c.message][1..] == [];
  }

  lemma RemainingShrinks(remaining: seq<nat>, q: nat)
    requires Distinct(remaining) && remaining != []
    ensures q in remaining[1..] <==> q in remaining && q != remaining[0]
  {
    assert remaining == [remaining[0]] + remaining[1..];
  }

  /** Scheduling moves one item from in flight to scheduled. */
  lemma ScheduleBalanced(b: Bus, u: nat, q: nat, t: nat)
    requires Invariant(b) && Enabled(b, ScheduleNext(u))
    ensures Balanced(Next(b, ScheduleNext(u)), q, t)
  {
    assert Balanced(b, q, t);
    var x := b.emissions[u];
    if x.remaining != [] {
      assert Distinct(x.remaining);
      RemainingShrinks(x.remaining, q);
      ScheduledOne(b.callbacks, Callback(x.remaining[0], Message(u, x.item)), q, t);
    }
  }

  lemma DeliveredOne(delivered: seq<Message>, cs: seq<Callback>, q: nat, t: nat)
    requires cs != []
    ensures From(if cs[0].queue == q then delivered + [cs[0].message] else delivered, t)
            + From(Scheduled(cs[1..], q), t)
            == From(delivered, t) + From(Scheduled(cs, q), t)
  {
    if cs[0].queue == q {
      var m := cs[0].message;
      FromConcat(delivered, [m], t);
      FromConcat([m], Scheduled(cs[1..], q), t);
    }
  }

  /** Running a callback moves one message from scheduled to delivered. */
  lemma CallbackBalanced(b: Bus, q: nat, t: nat)
    requires Invariant(b) && Enabled(b, RunCallback)
    ensures Balanced(Next(b, RunCallback), q, t)
  {
    assert Balanced(b, q, t);
    if q in b.queues {
      DeliveredOne(b.queues[q], b.callbacks, q, t);
    }
  }

  lemma StepKeepsInvariant(b: Bus, e: Step)
    requires Invariant(b) && Enabled(b, e)
    ensures Invariant(Next(b, e))
  {
    StepKeepsShape(b, e);
    forall q, t ensures Balanced(Next(b, e), q, t) {
      match e
      case AttachLoop => assert Balanced(b, q, t);
      case Subscribe(p) => SubscribeBalanced(b, p, q, t);
      case Unsubscribe(p) => UnsubscribeBalanced(b, p, q, t);
      case Emit(u, item) => EmitBalanced(b, u, item, q, t);
      case ScheduleNext(u) => ScheduleBalanced(b, u, q, t);
      case RunCallback => CallbackBalanced(b, q, t);
    }
  }

  lemma {:induction false} RunKeepsInvariant(steps: seq<Step>)
    requires Run(FRESH, steps).Some?
    ensures Invariant(Run(FRESH, steps).value)
  {
    if steps != [] {
      var n := |steps| - 1;
      RunKeepsInvariant(steps[..n]);
      StepKeepsInvariant(Run(FRESH, steps[..n]).value, steps[n]);
    }
  }

  // ---------------------------------------------------------------------------
  // What is due, told from the schedule alone
  // ---------------------------------------------------------------------------

  /** Has the loop been attached? */
  predicate Attached(steps: seq<Step>) {
    AttachLoop in steps
  }

  /** Is the queue subscribed and not unsubscribed since? */
  predicate Registered(steps: seq<Step>, q: nat) {
    if steps == [] then false
    else
      var n := |steps| - 1;
      match steps[n]
      case Subscribe(p) => p == q || Registered(steps[..n], q)
      case Unsubscribe(p) => p != q && Registered(steps[..n], q)
      case _ => Registered(steps[..n], q)
  }

  /** The items of thread `t`'s calls of `emit`, made once the loop was attached and while `q`
      was registered, in order. */
  function DueTo(steps: seq<Step>, q: nat, t: nat): seq<Item> {
    if steps == [] then []
    else
      var n := |steps| - 1;
      var before := DueTo(steps[..n], q, t);
      if steps[n].Emit? && steps[n].thread == t && Attached(steps[..n]) && Registered(steps[..n], q)
      then before + [steps[n].item] else before
  }

  /** One more entry of the log. */
  lemma PastAdds(past: seq<Past>, x: Past, q: nat, t: nat)
    ensures Subscribed(past + [x], q) ==
            if x == Joined(q) then true else if x == Left(q) then false else Subscribed(past, q)
    ensures Due(past + [x], q, t) ==
            Due(past, q, t) + if x.Snapshot? && x.thread == t && Subscribed(past, q) then [x.item] else []
  {
    PastGrows(past, x);
  }

  /** One more step of the schedule. */
  lemma ScheduleAdds(steps: seq<Step>, e: Step, q: nat, t: nat)
    ensures Attached(steps + [e]) == (Attached(steps) || e == AttachLoop)
    ensures Registered(steps + [e], q) ==
            if e == Subscribe(q) then true else if e == Unsubscribe(q) then false else Registered(steps, q)
    ensures DueTo(steps + [e], q, t) ==
            DueTo(steps, q, t)
            + if e.Emit? && e.thread == t && Attached(steps) && Registered(steps, q) then [e.item] else []
  {
    assert (steps + [e])[..|steps|] == steps;
  }

  /** The bus's state and log agree with the schedule so far. */
  predicate Told(b: Bus, steps: seq<Step>, q: nat, t: nat) {
    && b.running == Attached(steps) && Subscribed(b.past, q) == Registered(steps, q)
    && Due(b.past, q, t) == DueTo(steps, q, t)
  }

  lemma TellOne(b: Bus, steps: seq<Step>, e: Step, q: nat, t: nat)
    requires Shape(b) && Enabled(b, e) && Told(b, steps, q, t)
    ensures Told(Next(b, e), steps + [e], q, t)
  {
    ScheduleAdds(steps, e, q, t);
    match e
    case AttachLoop =>
    case Subscribe(p) => PastAdds(b.past, Joined(p), q, t);
    case Unsubscribe(p) => PastAdds(b.past, Left(p), q, t);
    case Emit(u, item) => PastAdds(b.past, Snapshot(u, item), q, t);
    case ScheduleNext(_) =>
    case RunCallback =>
  }

  /** The bus's own log obliges it to exactly what the schedule says is due. */
  lemma {:induction false} DueIsTold(steps: seq<Step>, q: nat, t: nat)
    requires Run(FRESH, steps).Some?
    ensures Told(Run(FRESH, steps).value, steps, q, t)
  {
    if steps != [] {
      var n := |steps| - 1;
      DueIsTold(steps[..n], q, t);
      RunKeepsInvariant(steps[..n]);
      TellOne(Run(FRESH, steps[..n]).value, steps[..n], steps[n], q, t);
      assert steps == steps[..n] + [steps[n]];
    }
  }

  /** Delivery, for every interleaving: what a queue holds from one emitter is a prefix of
      what that emitter emitted while the queue was registered - so in emission order,
      without duplicates, and nothing else - and all of it once no callback and no emission
      by that thread is outstanding. */
  lemma Delivery(steps: seq<Step>, q: nat, t: nat)
    requires Run(FRESH, steps).Some? && q in Run(FRESH, steps).value.queues
    ensures
      var b := Run(FRESH, steps).value;
      && From(b.queues[q], t) <= DueTo(steps, q, t)
      && (b.callbacks == [] && t !in b.emissions ==> From(b.queues[q], t) == DueTo(steps, q, t))
  {
    RunKeepsInvariant(steps);
    DueIsTold(steps, q, t);
    var b := Run(FRESH, steps).value;
    assert Balanced(b, q, t);
    var got, due := From(b.queues[q], t), DueTo(steps, q, t);
    assert due[..|got|] == got;
  }

  // ---------------------------------------------------------------------------
  // The client's loop
  // ---------------------------------------------------------------------------

  /** What one wait on the queue brings: a heartbeat timeout or an item. */
  datatype Arrival = Timeout | Got(item: Item)

  datatype Frame = Heartbeat | Event(event: TaskEvent)

  /** The items among the arrivals. */
  function Items(arrivals: seq<Arrival>): seq<Item> {
    if arrivals == [] then []
    else
      var n := |arrivals| - 1;
      if arrivals[n].Got? then Items(arrivals[..n]) + [arrivals[n].item] else Items(arrivals[..n])
  }

  /** The events before the first sentinel that the filter lets through. */
  function Wanted(items: seq<Item>, filter: Option<set<EventKind>>): seq<TaskEvent> {
    if items == [] || items[0] == None then []
    else
      var rest := Wanted(items[1..], filter);
      if filter.None? || items[0].value.kind in filter.value then [items[0].value] + rest else rest
  }

  function EventsOf(frames: seq<Frame>): seq<TaskEvent> {
    if frames == [] then []
    else
      var n := |frames| - 1;
      if frames[n].Event? then EventsOf(frames[..n]) + [frames[n].event] else EventsOf(frames[..n])
  }

  function Heartbeats(frames: seq<Frame>): nat {
    if frames == [] then 0
    else Heartbeats(frames[..|frames| - 1]) + if frames[|frames| - 1].Heartbeat? then 1 else 0
  }

  /** The timeouts before the first sentinel. */
  function Timeouts(arrivals: seq<Arrival>): nat {
    if arrivals == [] || arrivals[0] == Got(None) then 0
    else Timeouts(arrivals[1..]) + if arrivals[0].Timeout? then 1 else 0
  }

  lemma {:induction false} TimeoutsConcat(a: seq<Arrival>, b: seq<Arrival>)
    requires Got(None) !in a
    ensures Timeouts(a + b) == Timeouts(a) + Timeouts(b)
  {
    if a == [] {
      assert a + b == b;
    } else {
      assert (a + b)[1..] == a[1..] + b;
      TimeoutsConcat(a[1..], b);
    }
  }

  lemma TimeoutsOne(arrivals: seq<Arrival>, i: nat)
    requires i < |arrivals| && Got(None) !in arrivals[..i]
    ensures arrivals[i] != Got(None) ==>
      Timeouts(arrivals[..i + 1]) == Timeouts(arrivals[..i]) + if arrivals[i].Timeout? then 1 else 0
    ensures arrivals[i] == Got(None) ==> Timeouts(arrivals) == Timeouts(arrivals[..i])
  {
    assert arrivals[..i + 1] == arrivals[..i] + [arrivals[i]];
    TimeoutsConcat(arrivals[..i], [arrivals[i]]);
    assert [arrivals[i]][1..] == [];
    assert arrivals == arrivals[..i] + arrivals[i..];
    TimeoutsConcat(arrivals[..i], arrivals[i..]);
  }

  lemma {:induction false} WantedConcat(a: seq<Item>, b: seq<Item>, filter: Option<set<EventKind>>)
    requires None !in a
    ensures Wanted(a + b, filter) == Wanted(a, filter) + Wanted(b, filter)
  {
    if a == [] {
      assert a + b == b;
    } else {
      assert (a + b)[1..] == a[1..] + b;
      WantedConcat(a[1..], b, filter);
    }
  }

  lemma WantedOne(a: seq<Item>, x: Item, filter: Option<set<EventKind>>)
    requires None !in a
    ensures Wanted(a + [x], filter) ==
      Wanted(a, filter) + if x.Some? && (filter.None? || x.value.kind in filter.value) then [x.value] else []
  {
    WantedConcat(a, [x], filter);
    assert [x][1..] == [];
  }

  /** What fixes `Wanted`: it adds up over items before a sentinel, keeps an event exactly when
      there is no filter or its kind is in it, and ends at a sentinel. */
  lemma WantedLaws(a: seq<Item>, b: seq<Item>, e: TaskEvent, filter: Option<set<EventKind>>)
    ensures None !in a ==> Wanted(a + b, filter) == Wanted(a, filter) + Wanted(b, filter)
    ensures Wanted([Some(e)], filter) ==
            if filter == None || (filter.Some? && e.kind in filter.value) then [e] else []
    ensures Wanted([None] + b, filter) == []
  {
    if None !in a {
      WantedConcat(a, b, filter);
    }
    assert [Some(e)][1..] == [];
  }

  /** `_event_generator` over the arrivals it waits for: heartbeats aside, the client is sent
      exactly the wanted events, and the loop ends at the first sentinel. */
  method StreamEvents(arrivals: seq<Arrival>, filter: Option<set<EventKind>>) returns (frames: seq<Frame>, ended: bool)
    ensures EventsOf(frames) == Wanted(Items(arrivals), filter)
    ensures Heartbeats(frames) == Timeouts(arrivals)
    ensures ended <==> None in Items(arrivals)
  {
    frames, ended := [], false;
    var i := 0;
    while i < |arrivals|
      invariant 0 <= i <= |arrivals| && !ended
      invariant None !in Items(arrivals[..i]) && Got(None) !in arrivals[..i]
      invariant Heartbeats(frames) == Timeouts(arrivals[..i])
      invariant EventsOf(frames) == Wanted(Items(arrivals[..i]), filter)
    {
      assert arrivals[..i + 1][..i] == arrivals[..i];
      var arrival := arrivals[i];
      TimeoutsOne(arrivals, i);
      if arrival.Timeout? {
        assert (frames + [Heartbeat])[..|frames|] == frames;
        frames := frames + [Heartbeat];
      } else if arrival.item.None? {
        ended := true;
        EndsAtSentinel(arrivals, i, filter);
        return;
      } else {
        WantedOne(Items(arrivals[..i]), arrival.item, filter);
        if filter.None? || arrival.item.value.kind in filter.value {
          assert (frames + [Event(arrival.item.value)])[..|frames|] == frames;
          frames := frames + [Event(arrival.item.value)];
        }
      }
      i := i + 1;
    }
    assert arrivals[..i] == arrivals;
  }

  lemma {:induction false} ItemsConcat(a: seq<Arrival>, b: seq<Arrival>)
    ensures Items(a + b) == Items(a) + Items(b)
  {
    if b == [] {
      assert a + b == a;
    } else {
      var n := |b| - 1;
      assert (a + b)[..|a + b| - 1] == a + b[..n];
      ItemsConcat(a, b[..n]);
    }
  }

  lemma EndsAtSentinel(arrivals: seq<Arrival>, i: nat, filter: Option<set<EventKind>>)
    requires i < |arrivals| && arrivals[i] == Got(None) && None !in Items(arrivals[..i])
    ensures None in Items(arrivals) && Wanted(Items(arrivals), filter) == Wanted(Items(arrivals[..i]), filter)
  {
    var rest := arrivals[i..];
    assert arrivals == arrivals[..i] + rest;
    ItemsConcat(arrivals[..i], rest);
    assert rest == [Got(None)] + arrivals[i + 1..];
    ItemsConcat([Got(None)], arrivals[i + 1..]);
    assert [Got(None)][..0] == [];
    assert Items(rest)[0] == None;
    WantedConcat(Items(arrivals[..i]), Items(rest), filter);
    assert Items(arrivals)[|Items(arrivals[..i])|] == None;
  }

  // ---------------------------------------------------------------------------
  // From emitters to a client
  // ---------------------------------------------------------------------------

  function ItemsOf(ms: seq<Message>): (items: seq<Item>)
    ensures |items| == |ms|
  {
    if ms == [] then [] else [ms[0].item] + ItemsOf(ms[1..])
  }

  /** The messages ahead of the first sentinel. */
  function Ahead(ms: seq<Message>): seq<Message> {
    if ms == [] || ms[0].item == None then [] else [ms[0]] + Ahead(ms[1..])
  }

  /** The messages a client is sent as events. */
  function Sent(ms: seq<Message>, filter: Option<set<EventKind>>): seq<Message> {
    if ms == [] || ms[0].item == None then []
    else
      var rest := Sent(ms[1..], filter);
      if filter.None? || ms[0].item.value.kind in filter.value then [ms[0]] + rest else rest
  }

  lemma {:induction false} SentIsWanted(ms: seq<Message>, filter: Option<set<EventKind>>)
    ensures None !in ItemsOf(Sent(ms, filter))
    ensures Wanted(ItemsOf(ms), filter) == Wanted(ItemsOf(Sent(ms, filter)), None)
  {
    if ms != [] && ms[0].item.Some? {
      SentIsWanted(ms[1..], filter);
      assert ItemsOf(ms)[1..] == ItemsOf(ms[1..]);
      var sent := Sent(ms, filter);
      if filter.None? || ms[0].item.value.kind in filter.value {
        assert sent[1..] == Sent(ms[1..], filter);
        assert ItemsOf(sent)[1..] == ItemsOf(sent[1..]);
      }
    }
  }

  /** Filtering and picking out one emitter commute. */
  lemma {:induction false} SentFrom(ms: seq<Message>, filter: Option<set<EventKind>>, t: nat)
    ensures None !in From(Ahead(ms), t) && None !in From(Sent(ms, filter), t)
    ensures Wanted(From(Sent(ms, filter), t), None) == Wanted(From(Ahead(ms), t), filter)
  {
    if ms != [] && ms[0].item.Some? {
      SentFrom(ms[1..], filter, t);
      var m, ahead, sent := ms[0], Ahead(ms[1..]), Sent(ms[1..], filter);
      assert ([m] + ahead)[1..] == ahead && ([m] + sent)[1..] == sent;
      assert ([m.item] + From(ahead, t))[1..] == From(ahead, t);
      assert ([m.item] + From(sent, t))[1..] == From(sent, t);
    }
  }

  lemma {:induction false} AheadIsPrefix(ms: seq<Message>)
    ensures Ahead(ms) <= ms
    ensures None !in ItemsOf(ms) ==> Ahead(ms) == ms
  {
    if ms != [] && ms[0].item.Some? {
      AheadIsPrefix(ms[1..]);
      assert ms == [ms[0]] + ms[1..];
      assert ItemsOf(ms)[1..] == ItemsOf(ms[1..]);
    }
  }

  lemma FromPrefix(a: seq<Message>, b: seq<Message>, t: nat)
    requires a <= b
    ensures From(a, t) <= From(b, t)
  {
    assert b == a + b[|a|..];
    FromConcat(a, b[|a|..], t);
  }

  lemma {:induction false} ItemsOfPrefix(ms: seq<Message>, n: nat)
    requires n <= |ms|
    ensures ItemsOf(ms[..n]) == ItemsOf(ms)[..n]
  {
    if n > 0 {
      ItemsOfPrefix(ms[1..], n - 1);
      assert ms[..n][1..] == ms[1..][..n - 1];
    }
  }

  /** From end to end, for every interleaving: when a client's arrivals are the first items of
      its queue, what it is sent are the messages `sent`.  Those of any one emitter are exactly
      the filtered part of a prefix of what that emitter emitted while the client was
      registered, with no sentinel in it; and of all of it, once the client has consumed its
      queue, met no sentinel, and nothing of that emitter is outstanding. */
  lemma ClientIsSent(steps: seq<Step>, q: nat, t: nat, arrivals: seq<Arrival>, filter: Option<set<EventKind>>)
    requires Run(FRESH, steps).Some? && q in Run(FRESH, steps).value.queues
    requires Items(arrivals) <= ItemsOf(Run(FRESH, steps).value.queues[q])
    ensures
      var b := Run(FRESH, steps).value;
      var ms := b.queues[q][..|Items(arrivals)|];
      var sent, seen, due := Sent(ms, filter), From(Ahead(ms), t), DueTo(steps, q, t);
      && Wanted(Items(arrivals), filter) == Wanted(ItemsOf(sent), None)
      && seen <= due && None !in seen
      && Wanted(From(sent, t), None) == Wanted(seen, filter)
      && (ms == b.queues[q] && None !in Items(arrivals) && b.callbacks == [] && t !in b.emissions ==> seen == due)
  {
    var b := Run(FRESH, steps).value;
    var ms := b.queues[q][..|Items(arrivals)|];
    ItemsOfPrefix(b.queues[q], |Items(arrivals)|);
    assert ItemsOf(ms) == Items(arrivals);
    SentIsWanted(ms, filter);
    SentFrom(ms, filter, t);
    AheadIsPrefix(ms);
    FromPrefix(Ahead(ms), b.queues[q], t);
    Delivery(steps, q, t);
  }

  // ---------------------------------------------------------------------------
  // Nothing is stuck
  // ---------------------------------------------------------------------------

  predicate Internal(e: Step) {
    e.ScheduleNext? || e.RunCallback?
  }

  predicate AllInternal(steps: seq<Step>) {
    forall i :: 0 <= i < |steps| ==> Internal(steps[i])
  }

  lemma {:induction false} RunConcat(b: Bus, a: seq<Step>, c: seq<Step>)
    requires Run(b, a).Some?
    ensures Run(b, a + c) == Run(Run(b, a).value, c)
    decreases |c|
  {
    if c == [] {
      assert a + c == a;
    } else {
      var n := |c| - 1;
      assert (a + c)[..|a + c| - 1] == a + c[..n];
      RunConcat(b, a, c[..n]);
    }
  }

  lemma OneStep(b: Bus, e: Step)
    requires Enabled(b, e)
    ensures Run(b, [e]) == Some(Next(b, e))
  {
    assert [e][..0] == [];
  }

  /** Thread `t` finishes its emission by its own steps. */
  lemma {:induction false} ThreadFinishes(b: Bus, t: nat) returns (steps: seq<Step>)
    requires Invariant(b) && t in b.emissions
    ensures AllInternal(steps) && Run(b, steps).Some?
    ensures
      var c := Run(b, steps).value;
      && Invariant(c) && c.emissions == b.emissions - {t}
      && c.past == b.past && c.queues.Keys == b.queues.Keys
    decreases |b.emissions[t].remaining|
  {
    var e := ScheduleNext(t);
    var c := Next(b, e);
    StepKeepsInvariant(b, e);
    OneStep(b, e);
    if b.emissions[t].remaining == [] {
      steps := [e];
    } else {
      var more := ThreadFinishes(c, t);
      RunConcat(b, [e], more);
      steps := [e] + more;
      assert c.emissions - {t} == b.emissions - {t};
    }
  }

  lemma {:induction false} ThreadsFinish(b: Bus) returns (steps: seq<Step>)
    requires Invariant(b)
    ensures AllInternal(steps) && Run(b, steps).Some?
    ensures
      var c := Run(b, steps).value;
      Invariant(c) && c.emissions == map[] && c.past == b.past && c.queues.Keys == b.queues.Keys
    decreases |b.emissions|
  {
    if b.emissions == map[] {
      steps := [];
    } else {
      var t :| t in b.emissions;
      var first := ThreadFinishes(b, t);
      var c := Run(b, first).value;
      assert c.emissions.Keys == b.emissions.Keys - {t};
      assert |c.emissions| < |b.emissions|;
      var more := ThreadsFinish(c);
      RunConcat(b, first, more);
      steps := first + more;
    }
  }

  lemma {:induction false} CallbacksRun(b: Bus) returns (steps: seq<Step>)
    requires Invariant(b) && b.emissions == map[]
    ensures AllInternal(steps) && Run(b, steps).Some?
    ensures
      var c := Run(b, steps).value;
      && Invariant(c) && c.emissions == map[] && c.callbacks == []
      && c.past == b.past && c.queues.Keys == b.queues.Keys
    decreases |b.callbacks|
  {
    if b.callbacks == [] {
      steps := [];
    } else {
      var c := Next(b, RunCallback);
      StepKeepsInvariant(b, RunCallback);
      OneStep(b, RunCallback);
      var more := CallbacksRun(c);
      RunConcat(b, [RunCallback], more);
      steps := [RunCallback] + more;
    }
  }

  /** From any point of any schedule the threads under way and the loop can finish by
      themselves, and then every queue, still registered or not, holds from each emitter
      exactly what was due to it. */
  lemma EverythingArrives(steps: seq<Step>) returns (more: seq<Step>)
    requires Run(FRESH, steps).Some?
    ensures AllInternal(more) && Run(FRESH, steps + more).Some?
    ensures
      var b, c := Run(FRESH, steps).value, Run(FRESH, steps + more).value;
      && c.queues.Keys == b.queues.Keys
      && forall q, t :: q in b.queues ==> From(c.queues[q], t) == DueTo(steps, q, t)
  {
    RunKeepsInvariant(steps);
    var b := Run(FRESH, steps).value;
    var first := ThreadsFinish(b);
    var then' := CallbacksRun(Run(b, first).value);
    RunConcat(b, first, then');
    more := first + then';
    RunConcat(FRESH, steps, more);
    var c := Run(FRESH, steps + more).value;
    forall q, t | q in b.queues ensures From(c.queues[q], t) == DueTo(steps, q, t) {
      assert Balanced(c, q, t);
      DueIsTold(steps, q, t);
    }
  }
}

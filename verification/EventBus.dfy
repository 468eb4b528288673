/** The event bus as a machine of interleaved steps (internal/eventbus/bus.go): publishers,
    the dispatch goroutine, one worker for each subscriber, and Subscribe, Unsubscribe and
    Stop under the bus lock. An event is named by its place among those the bus accepted. */
module EventBus {
  import opened Text

  const QUEUE_SIZE: nat := 64
  const DEFAULT_BUFFER_SIZE: nat := 256

  datatype Worker = Waiting | Handling | Exited

  /** One subscriber: the first event it can see, the events waiting in its queue, those its
      handler was given, those dropped because the queue was full, and how often its quit
      channel was closed. */
  datatype Subscriber = Subscriber(
    id: string, joined: int, queue: seq<nat>, handled: seq<nat>, dropped: set<nat>, quits: nat, worker: Worker)

  /** The dispatch goroutine waits for an event, waits for the read lock with one it has
      taken, or holds that lock with an event it has still to hand to some subscribers. */
  datatype Dispatch = Idle | Taken(event: nat) | Fanning(event: nat, remaining: seq<int>) | Ended

  datatype State = State(
    size: nat,
    accepted: nat,
    buffer: seq<nat>,
    subs: seq<int>,
    objects: map<int, Subscriber>,
    dispatch: Dispatch,
    stopped: bool,
    done: bool)

  function New(bufSize: int): State {
    State(if bufSize <= 0 then DEFAULT_BUFFER_SIZE else bufSize, 0, [], [], map[], Idle, false, false)
  }

  datatype Event =
    | Publish
    | Subscribe(id: string, object': int)
    | Unsubscribe(id: string)
    | Take
    | Lock
    | Fan
    | EndDispatch
    | Handle(object': int)
    | Return(object': int)
    | EndWorker(object': int)
    | MarkStopped
    | CloseDone

  /** The next event the dispatch goroutine will take. */
  function Next(s: State): int { s.accepted - |s.buffer| }

  /** The first event a subscriber that joins now can see. */
  function Entering(s: State): int { if s.dispatch.Taken? then s.dispatch.event else Next(s) }

  function Put(s: State, o: int, sub: Subscriber): State { s.(objects := s.objects[o := sub]) }

  /** The position of the subscriber with that id, or -1. */
  function Position(s: State, id: string, from: nat): (i: int)
    requires from <= |s.subs| && forall k | 0 <= k < |s.subs| :: s.subs[k] in s.objects
    ensures i == -1 || (from <= i < |s.subs| && s.objects[s.subs[i]].id == id)
    ensures i == -1 ==> forall k | from <= k < |s.subs| :: s.objects[s.subs[k]].id != id
    decreases |s.subs| - from
  {
    if from == |s.subs| then -1
    else if s.objects[s.subs[from]].id == id then from
    else Position(s, id, from + 1)
  }

  /** Closes the quit channel of the subscriber at position i and takes it off the list. */
  function Drop(s: State, i: nat): State
    requires i < |s.subs| && s.subs[i] in s.objects
  {
    var o := s.subs[i];
    Put(s, o, s.objects[o].(quits := s.objects[o].quits + 1)).(subs := s.subs[..i] + s.subs[i + 1..])
  }

  function Without(s: State, id: string): State
    requires Listed(s)
  {
    var i := Position(s, id, 0);
    if i < 0 then s else Drop(s, i)
  }

  predicate Listed(s: State) { forall k | 0 <= k < |s.subs| :: s.subs[k] in s.objects }

  /** One step of the bus; an event that is not possible now changes nothing. The write lock
      is free exactly while the dispatch goroutine is not handing out an event. */
  function Step(s: State, ev: Event): State
    requires Listed(s)
  {
    match ev
    case Publish =>
      if |s.buffer| >= s.size then s
      else s.(buffer := s.buffer + [s.accepted], accepted := s.accepted + 1)
    case Subscribe(id, o) =>
      if s.dispatch.Fanning? || s.stopped || o in s.objects then s
      else
        var rest := Without(s, id);
        Put(rest, o, Subscriber(id, Entering(s), [], [], {}, 0, Waiting)).(subs := rest.subs + [o])
    case Unsubscribe(id) =>
      if s.dispatch.Fanning? then s else Without(s, id)
    case Take =>
      if s.dispatch.Idle? && s.buffer != [] then s.(buffer := s.buffer[1..], dispatch := Taken(s.buffer[0])) else s
    case Lock =>
      if s.dispatch.Taken? then s.(dispatch := Fanning(s.dispatch.event, s.subs)) else s
    case Fan =>
      if !s.dispatch.Fanning? then s
      else if s.dispatch.remaining == [] then s.(dispatch := Idle)
      else if s.dispatch.remaining[0] !in s.objects then s
      else
        var o, e := s.dispatch.remaining[0], s.dispatch.event;
        var sub := s.objects[o];
        Put(s, o,
            if |sub.queue| < QUEUE_SIZE then sub.(queue := sub.queue + [e]) else sub.(dropped := sub.dropped + {e}))
          .(dispatch := Fanning(e, s.dispatch.remaining[1..]))
    case EndDispatch =>
      if s.dispatch.Idle? && s.done then s.(dispatch := Ended) else s
    case Handle(o) =>
      if o in s.objects && s.objects[o].worker.Waiting? && s.objects[o].queue != [] then
        var sub := s.objects[o];
        Put(s, o, sub.(queue := sub.queue[1..], handled := sub.handled + [sub.queue[0]], worker := Handling))
      else s
    case Return(o) =>
      if o in s.objects && s.objects[o].worker.Handling? then Put(s, o, s.objects[o].(worker := Waiting)) else s
    case EndWorker(o) =>
      if o in s.objects && s.objects[o].worker.Waiting? && (s.objects[o].quits > 0 || s.done) then
        Put(s, o, s.objects[o].(worker := Exited))
      else s
    case MarkStopped =>
      if s.dispatch.Fanning? then s else s.(stopped := true)
    case CloseDone =>
      if s.stopped then s.(done := true) else s
  }

  // ---- What every step keeps -------------------------------------------------

  predicate Ascending(l: seq<nat>) { forall i, j | 0 <= i < j < |l| :: l[i] < l[j] }

  predicate Below(l: seq<nat>, bound: int) { forall i | 0 <= i < |l| :: l[i] < bound }

  /** Everything the subscriber was given, handled first, then queued. */
  function Given(sub: Subscriber): seq<nat> { sub.handled + sub.queue }

  /** The first event the subscriber has not been offered yet. */
  function Offered(s: State, o: int): int {
    if s.dispatch.Taken? || (s.dispatch.Fanning? && o in s.dispatch.remaining) then s.dispatch.event else Next(s)
  }

  predicate SubscriberFits(s: State, o: int)
    requires o in s.objects
  {
    var sub := s.objects[o];
    && |sub.queue| <= QUEUE_SIZE
    && Ascending(Given(sub)) && Below(Given(sub), Offered(s, o))
    && sub.quits <= 1
    && (o in s.subs ==> sub.quits == 0 && sub.joined <= Offered(s, o))
  }

  /** Every event the subscriber was offered reached its queue, or was dropped at a full one. */
  predicate Accounted(s: State, o: int)
    requires o in s.objects
  {
    var sub := s.objects[o];
    && (forall e | e in Given(sub) :: sub.joined <= e)
    && (forall e | e in sub.dropped :: e < Offered(s, o))
    && (o in s.subs ==> forall e: nat | sub.joined <= e < Offered(s, o) :: e in Given(sub) <==> e !in sub.dropped)
  }

  /** The buffer holds the latest accepted events in order. */
  predicate BufferFits(s: State) {
    && |s.buffer| <= s.size && |s.buffer| <= s.accepted
    && (forall i | 0 <= i < |s.buffer| :: s.buffer[i] == s.accepted - |s.buffer| + i)
  }

  predicate Distinct(l: seq<int>) { forall i, j | 0 <= i < j < |l| :: l[i] != l[j] }

  predicate UniqueIds(s: State)
    requires Listed(s)
  {
    forall i, j | 0 <= i < j < |s.subs| :: s.objects[s.subs[i]].id != s.objects[s.subs[j]].id
  }

  predicate DispatchFits(s: State) {
    && (s.dispatch.Taken? || s.dispatch.Fanning? ==> s.dispatch.event == Next(s) - 1)
    && (s.dispatch.Fanning? ==>
      Distinct(s.dispatch.remaining) && forall o | o in s.dispatch.remaining :: o in s.subs)
  }

  predicate Inv(s: State) {
    && Listed(s) && UniqueIds(s) && BufferFits(s) && DispatchFits(s)
    && (forall o | o in s.objects :: SubscriberFits(s, o) && Accounted(s, o))
  }

  lemma BufferKept(s: State, ev: Event)
    requires Inv(s)
    ensures BufferFits(Step(s, ev))
  {
    hide SubscriberFits, Accounted, UniqueIds, Listed, DispatchFits;
  }

  ghost predicate SubFits(s: State, o: int)
    requires o in s.objects
  {
    SubscriberFits(s, o) && Accounted(s, o)
  }

  /** A subscriber no step has touched still fits while what it was offered has not changed. */
  lemma Untouched(s: State, after: State, o: int)
    requires o in s.objects && o in after.objects && after.objects[o] == s.objects[o] && SubFits(s, o)
    requires o in after.subs ==> o in s.subs && Offered(after, o) == Offered(s, o)
    requires Offered(after, o) >= Offered(s, o) && Next(after) >= Next(s)
    ensures SubFits(after, o)
  {
  }

  lemma PublishKept(s: State, o: int)
    requires Inv(s) && o in s.objects
    ensures SubFits(Step(s, Publish), o)
  {
    hide SubscriberFits, Accounted;
    Untouched(s, Step(s, Publish), o);
  }

  lemma TakeKept(s: State, o: int)
    requires Inv(s) && o in s.objects
    ensures SubFits(Step(s, Take), o)
  {
    hide SubscriberFits, Accounted;
    assert SubFits(s, o);
    if s.dispatch.Idle? && s.buffer != [] {
      Untouched(s, Step(s, Take), o);
    }
  }

  lemma LockKept(s: State, o: int)
    requires Inv(s) && o in s.objects
    ensures SubFits(Step(s, Lock), o)
  {
    hide SubscriberFits, Accounted;
    assert SubFits(s, o);
    if s.dispatch.Taken? {
      Untouched(s, Step(s, Lock), o);
    }
  }

  lemma FanKept(s: State, o: int)
    requires Inv(s) && o in s.objects && s.dispatch.Fanning?
    ensures SubFits(Step(s, Fan), o)
  {
    assert SubFits(s, o);
    var after := Step(s, Fan);
    var rest := s.dispatch.remaining;
    if rest != [] {
      assert rest[0] in rest && s.dispatch.remaining[0] in s.subs;
      assert rest == [rest[0]] + rest[1..];
      if o == rest[0] {
        FanOne(s, o);
      } else {
        hide SubscriberFits, Accounted;
        Untouched(s, after, o);
      }
    } else {
      hide SubscriberFits, Accounted;
      Untouched(s, after, o);
    }
  }

  /** The subscriber the event is handed to. */
  lemma FanOne(s: State, o: int)
    requires Inv(s) && o in s.objects && s.dispatch.Fanning? && s.dispatch.remaining != []
      && s.dispatch.remaining[0] == o
    ensures SubFits(Step(s, Fan), o)
  {
    assert SubFits(s, o);
    var after, e, sub := Step(s, Fan), s.dispatch.event, s.objects[o];
    assert o !in s.dispatch.remaining[1..] && o in s.dispatch.remaining;
    var given := Given(sub);
    var now := Given(after.objects[o]);
    if |sub.queue| < QUEUE_SIZE {
      assert now == given + [e];
      assert forall d: nat :: d in now <==> d in given || d == e;
    } else {
      assert now == given;
    }
    assert forall i | 0 <= i < |given| :: given[i] < e;
    assert e !in given;
  }

  lemma HandleKept(s: State, ev: Event, o: int)
    requires Inv(s) && o in s.objects && (ev.Handle? || ev.Return? || ev.EndWorker?)
    ensures SubFits(Step(s, ev), o)
  {
    assert SubFits(s, o);
    var sub, after := s.objects[o], Step(s, ev);
    if sub.queue != [] {
      assert sub.handled + [sub.queue[0]] + sub.queue[1..] == sub.handled + sub.queue;
    }
    hide Inv, SubscriberFits, Accounted, Ascending, Below;
    assert Given(after.objects[o]) == Given(sub);
    SameGiven(s, after, o);
  }

  lemma SameGiven(s: State, after: State, o: int)
    requires o in s.objects && o in after.objects && SubFits(s, o)
    requires after.subs == s.subs && Offered(after, o) == Offered(s, o)
      && Given(after.objects[o]) == Given(s.objects[o])
    requires after.objects[o]
      == s.objects[o].(queue := after.objects[o].queue, handled := after.objects[o].handled,
        worker := after.objects[o].worker)
    requires |after.objects[o].queue| <= |s.objects[o].queue|
    ensures SubFits(after, o)
  {
    hide Given, Offered, Ascending, Below;
  }

  lemma WithoutKept(s: State, id: string, o: int)
    requires Inv(s) && !s.dispatch.Fanning? && o in s.objects
    ensures SubFits(Without(s, id), o) && o in Without(s, id).objects
    ensures o in Without(s, id).subs ==> s.objects[o].id != id && o in s.subs
  {
    assert SubFits(s, o);
    var i := Position(s, id, 0);
    var after := Without(s, id);
    if i >= 0 {
      assert forall k | 0 <= k < |after.subs| :: after.subs[k] == s.subs[if k < i then k else k + 1];
      if o != s.subs[i] {
        hide SubscriberFits, Accounted;
        Untouched(s, after, o);
      } else {
        assert o in s.subs;
      }
    }
  }

  lemma SubscribeStep(s: State, id: string, n: int)
    requires Listed(s) && !s.dispatch.Fanning? && !s.stopped && n !in s.objects
    ensures var rest := Without(s, id);
      Step(s, Subscribe(id, n))
      == Put(rest, n, Subscriber(id, Entering(s), [], [], {}, 0, Waiting)).(subs := rest.subs + [n])
  {
  }

  /** A new subscriber fits: nothing was given to it, and nothing offered. */
  lemma NewFits(rest: State, id: string, n: int)
    requires !rest.dispatch.Fanning?
    ensures SubFits(Put(rest, n, Subscriber(id, Entering(rest), [], [], {}, 0, Waiting)).(subs := rest.subs + [n]), n)
  {
  }

  /** The subscribers there were fit beside it. */
  lemma BesideNew(rest: State, id: string, n: int, o: int)
    requires o in rest.objects && o != n && SubFits(rest, o)
    ensures SubFits(Put(rest, n, Subscriber(id, Entering(rest), [], [], {}, 0, Waiting)).(subs := rest.subs + [n]), o)
  {
    hide SubscriberFits, Accounted;
    var after := Put(rest, n, Subscriber(id, Entering(rest), [], [], {}, 0, Waiting)).(subs := rest.subs + [n]);
    assert o in after.subs ==> o in rest.subs;
    Untouched(rest, after, o);
  }

  lemma WithoutEnters(s: State, id: string)
    requires Listed(s)
    ensures Entering(Without(s, id)) == Entering(s) && Without(s, id).dispatch == s.dispatch
  {
  }

  lemma SubscribeKept(s: State, id: string, n: int, o: int)
    requires Inv(s) && o in Step(s, Subscribe(id, n)).objects
    ensures SubFits(Step(s, Subscribe(id, n)), o)
  {
    assert o in s.objects ==> SubFits(s, o);
    hide SubscriberFits, Accounted, UniqueIds, BufferFits, DispatchFits;
    if !s.dispatch.Fanning? && !s.stopped && n !in s.objects {
      SubscribeStep(s, id, n);
      WithoutEnters(s, id);
      DropUnique(s, id);
      if o == n {
        NewFits(Without(s, id), id, n);
      } else {
        WithoutKept(s, id, o);
        hide Step, Without, Inv;
        BesideNew(Without(s, id), id, n, o);
      }
    }
  }

  lemma OthersKept(s: State, ev: Event, o: int)
    requires Inv(s) && o in s.objects
      && (ev.EndDispatch? || ev.MarkStopped? || ev.CloseDone? || (ev.Fan? && !s.dispatch.Fanning?))
    ensures SubFits(Step(s, ev), o)
  {
    assert SubFits(s, o);
    hide SubscriberFits, Accounted;
    Untouched(s, Step(s, ev), o);
  }

  lemma SubscriberKept(s: State, ev: Event, o: int)
    requires Inv(s) && o in Step(s, ev).objects
    ensures SubFits(Step(s, ev), o)
  {
    hide SubscriberFits, Accounted, UniqueIds, BufferFits, DispatchFits;
    match ev {
      case Publish => PublishKept(s, o);
      case Subscribe(id, n) => SubscribeKept(s, id, n, o);
      case Unsubscribe(id) =>
        if s.dispatch.Fanning? {
          assert SubFits(s, o);
        } else {
          WithoutKept(s, id, o);
        }
      case Take => TakeKept(s, o);
      case Lock => LockKept(s, o);
      case Fan =>
        if s.dispatch.Fanning? {
          FanKept(s, o);
        } else {
          OthersKept(s, ev, o);
        }
      case Handle(_) => HandleKept(s, ev, o);
      case Return(_) => HandleKept(s, ev, o);
      case EndWorker(_) => HandleKept(s, ev, o);
      case _ => OthersKept(s, ev, o);
    }
  }

  /** Taking one position off a list. */
  lemma Cutting(l: seq<int>, i: nat)
    requires i < |l|
    ensures var cut := l[..i] + l[i + 1..];
      |cut| == |l| - 1 && forall k | 0 <= k < |cut| :: cut[k] == l[if k < i then k else k + 1]
  {
  }

  lemma DropIds(s: State, i: nat)
    requires Listed(s) && i < |s.subs|
    ensures Drop(s, i).objects.Keys == s.objects.Keys
    ensures forall o | o in s.objects :: Drop(s, i).objects[o].id == s.objects[o].id
    ensures Drop(s, i).subs == s.subs[..i] + s.subs[i + 1..]
  {
  }

  lemma DroppedUnique(s: State, i: nat, after: State)
    requires Listed(s) && UniqueIds(s) && i < |s.subs|
    requires after.subs == s.subs[..i] + s.subs[i + 1..] && after.objects.Keys == s.objects.Keys
    requires forall o | o in s.objects :: after.objects[o].id == s.objects[o].id
    ensures Listed(after) && UniqueIds(after)
    ensures forall k | 0 <= k < |after.subs| :: after.objects[after.subs[k]].id != s.objects[s.subs[i]].id
  {
    Cutting(s.subs, i);
    forall k | 0 <= k < |after.subs|
      ensures after.subs[k] in after.objects
        && after.objects[after.subs[k]].id == s.objects[s.subs[if k < i then k else k + 1]].id
    {
      assert s.subs[if k < i then k else k + 1] in s.objects;
    }
  }

  lemma WithoutIs(s: State, id: string)
    requires Listed(s)
    ensures var i := Position(s, id, 0);
      Without(s, id) == if i < 0 then s else Drop(s, i)
  {
  }

  lemma Absent(s: State, id: string)
    requires Listed(s) && Position(s, id, 0) < 0
    ensures forall k | 0 <= k < |s.subs| :: s.objects[s.subs[k]].id != id
  {
  }

  lemma DropUnique(s: State, id: string)
    requires Listed(s) && UniqueIds(s)
    ensures Listed(Without(s, id)) && UniqueIds(Without(s, id))
    ensures forall k | 0 <= k < |Without(s, id).subs| :: Without(s, id).objects[Without(s, id).subs[k]].id != id
    ensures Without(s, id).objects.Keys == s.objects.Keys
  {
    hide Position, Drop, Without, UniqueIds;
    WithoutIs(s, id);
    var i := Position(s, id, 0);
    if i < 0 {
      Absent(s, id);
    } else {
      DropIds(s, i);
      DroppedUnique(s, i, Drop(s, i));
    }
  }

  lemma SubscribeUnique(s: State, id: string, o: int)
    requires Inv(s)
    ensures Listed(Step(s, Subscribe(id, o))) && UniqueIds(Step(s, Subscribe(id, o)))
  {
    hide SubscriberFits, Accounted, BufferFits, DispatchFits, Position, Drop;
    DropUnique(s, id);
    if !s.dispatch.Fanning? && !s.stopped && o !in s.objects {
      var rest := Without(s, id);
      hide Without, Inv;
      var after := Put(rest, o, Subscriber(id, Entering(s), [], [], {}, 0, Waiting)).(subs := rest.subs + [o]);
      assert forall k | 0 <= k < |rest.subs| ::
        after.subs[k] == rest.subs[k] && after.objects[after.subs[k]] == rest.objects[rest.subs[k]];
    }
  }

  lemma SameIds(s: State, after: State)
    requires Listed(s) && UniqueIds(s) && after.subs == s.subs
    requires forall o | o in s.objects :: o in after.objects && after.objects[o].id == s.objects[o].id
    ensures Listed(after) && UniqueIds(after)
  {
    forall k | 0 <= k < |s.subs|
      ensures s.subs[k] in s.objects && s.subs[k] in after.objects
        && after.objects[s.subs[k]].id == s.objects[s.subs[k]].id
    {
      var o := s.subs[k];
      assert o in s.objects;
      assert o in after.objects;
    }
    forall i, j | 0 <= i < j < |after.subs|
      ensures after.objects[after.subs[i]].id != after.objects[after.subs[j]].id
    {
      assert s.objects[s.subs[i]].id != s.objects[s.subs[j]].id;
    }
  }

  lemma UniqueKept(s: State, ev: Event)
    requires Inv(s)
    ensures Listed(Step(s, ev)) && UniqueIds(Step(s, ev))
  {
    hide SubscriberFits, Accounted, BufferFits, DispatchFits, Position, UniqueIds, Without;
    match ev {
      case Subscribe(id, o) => SubscribeUnique(s, id, o);
      case Unsubscribe(id) => DropUnique(s, id);
      case _ => SameIds(s, Step(s, ev));
    }
  }

  lemma DispatchKept(s: State, ev: Event)
    requires Inv(s)
    ensures DispatchFits(Step(s, ev))
  {
    hide SubscriberFits, Accounted;
    if ev.Lock? && s.dispatch.Taken? {
      assert Distinct(s.subs);
    }
  }

  lemma StepKeeps(s: State, ev: Event)
    requires Inv(s)
    ensures Inv(Step(s, ev))
  {
    UniqueKept(s, ev);
    BufferKept(s, ev);
    DispatchKept(s, ev);
    hide SubscriberFits, Accounted, UniqueIds, BufferFits, DispatchFits, Step;
    forall o | o in Step(s, ev).objects
      ensures SubscriberFits(Step(s, ev), o) && Accounted(Step(s, ev), o)
    {
      SubscriberKept(s, ev, o);
    }
  }

  ghost function After(s: State, events: seq<Event>): (end: State)
    requires Inv(s)
    ensures Inv(end) && end.size == s.size
    decreases |events|
  {
    if events == [] then s
    else
      StepKeeps(s, events[0]);
      After(Step(s, events[0]), events[1..])
  }

  /** Any interleaving from a new bus. */
  ghost function Run(bufSize: int, events: seq<Event>): (end: State)
    ensures Inv(end)
  {
    assert Inv(New(bufSize));
    After(New(bufSize), events)
  }

  /** What a subscriber has handled followed by its queue is an in-order selection of the
      accepted events, none twice. */
  lemma InOrder(bufSize: int, events: seq<Event>, o: int)
    requires o in Run(bufSize, events).objects
    ensures var s := Run(bufSize, events);
      Ascending(Given(s.objects[o])) && Below(Given(s.objects[o]), s.accepted)
  {
    var s := Run(bufSize, events);
    assert SubFits(s, o);
  }

  /** A registered subscriber misses an event it was offered exactly when its queue was full. */
  lemma NothingElseLost(bufSize: int, events: seq<Event>, o: int, e: nat)
    requires var s := Run(bufSize, events);
      o in s.objects && o in s.subs && s.objects[o].joined <= e < Offered(s, o)
    ensures var s := Run(bufSize, events);
      e in Given(s.objects[o]) <==> e !in s.objects[o].dropped
  {
    var s := Run(bufSize, events);
    assert SubFits(s, o);
  }

  // ---- When events are accepted, delivered and dropped -----------------------

  lemma {:induction false} AfterOne(s: State, events: seq<Event>, ev: Event)
    requires Inv(s)
    ensures After(s, events + [ev]) == Step(After(s, events), ev)
    decreases |events|
  {
    hide SubscriberFits, Accounted, UniqueIds, BufferFits, DispatchFits, Step;
    if events == [] {
      assert events + [ev] == [ev] && [ev][1..] == [];
      StepKeeps(s, ev);
    } else {
      StepKeeps(s, events[0]);
      AfterOne(Step(s, events[0]), events[1..], ev);
      assert (events + [ev])[1..] == events[1..] + [ev];
    }
  }

  /** A published event is accepted if and only if the buffer has room, and then it is the last
      in it; otherwise it changes nothing. */
  lemma AcceptedWithRoom(bufSize: int, events: seq<Event>)
    ensures var s, after := Run(bufSize, events), Run(bufSize, events + [Publish]);
      if |s.buffer| < (if bufSize <= 0 then 256 else bufSize)
        then after.buffer == s.buffer + [s.accepted] && after.accepted == s.accepted + 1
      else after == s
  {
    AfterOne(New(bufSize), events, Publish);
  }

  /** Whatever the bus is at, unless an event is just being handed out, Unsubscribe closes the
      quit channel of the subscriber with that id, takes it off the list, and leaves every other
      as it was. */
  lemma Unsubscribed(bufSize: int, events: seq<Event>, id: string, o: int)
    requires var s := Run(bufSize, events); !s.dispatch.Fanning? && o in s.subs
    ensures var s, after := Run(bufSize, events), Run(bufSize, events + [Unsubscribe(id)]);
      && o in s.objects && o in after.objects
      && (o in after.subs <==> s.objects[o].id != id)
      && after.objects[o] == s.objects[o].(quits := if s.objects[o].id == id then 1 else 0)
  {
    var s := Run(bufSize, events);
    AfterOne(New(bufSize), events, Unsubscribe(id));
    assert SubFits(s, o);
    UnsubscribeStep(s, id);
    hide After, Step, SubscriberFits, Accounted, BufferFits, DispatchFits, Without;
    DropsOne(s, id, o);
  }

  lemma UnsubscribeStep(s: State, id: string)
    requires Listed(s) && !s.dispatch.Fanning?
    ensures Step(s, Unsubscribe(id)) == Without(s, id)
  {
  }

  lemma DropsOne(s: State, id: string, o: int)
    requires Listed(s) && UniqueIds(s) && o in s.subs && s.objects[o].quits == 0
    ensures var after := Without(s, id);
      && o in after.objects && (o in after.subs <==> s.objects[o].id != id)
      && after.objects[o] == s.objects[o].(quits := if s.objects[o].id == id then 1 else 0)
  {
    var i, k := Position(s, id, 0), PlaceOf(s.subs, o);
    hide Position, UniqueIds;
    if i < 0 {
      Absent(s, id);
    } else {
      Cutting(s.subs, i);
      SameIdSamePlace(s, i, k);
      var cut := s.subs[..i] + s.subs[i + 1..];
      assert k < i ==> cut[k] == o;
      assert k > i ==> cut[k - 1] == o;
      forall j | 0 <= j < |cut| && cut[j] == o
        ensures i != k
      {
        SameIdSamePlace(s, if j < i then j else j + 1, k);
      }
    }
  }

  function PlaceOf(l: seq<int>, o: int): (k: nat)
    requires o in l
    ensures k < |l| && l[k] == o
  {
    if l[0] == o then 0 else 1 + PlaceOf(l[1..], o)
  }

  lemma SameIdSamePlace(s: State, i: nat, k: nat)
    requires Listed(s) && UniqueIds(s) && i < |s.subs| && k < |s.subs|
    ensures s.objects[s.subs[i]].id == s.objects[s.subs[k]].id ==> i == k
  {
    assert i < k ==> s.objects[s.subs[i]].id != s.objects[s.subs[k]].id;
    assert k < i ==> s.objects[s.subs[k]].id != s.objects[s.subs[i]].id;
  }

  /** Unless the bus is stopped, Subscribe registers a new subscriber under the id, with an empty
      queue and a running worker, and takes the place of the one that had it. */
  lemma Subscribed(bufSize: int, events: seq<Event>, id: string, n: int, o: int)
    requires var s := Run(bufSize, events); !s.dispatch.Fanning? && !s.stopped && n !in s.objects
    ensures var s, after := Run(bufSize, events), Run(bufSize, events + [Subscribe(id, n)]);
      && n in after.subs && n in after.objects
      && after.objects[n] == Subscriber(id, Entering(s), [], [], {}, 0, Waiting)
      && (o in s.subs ==>
        && o in s.objects && o in after.objects
        && (o in after.subs <==> s.objects[o].id != id)
        && after.objects[o] == s.objects[o].(quits := if s.objects[o].id == id then 1 else 0))
  {
    var s := Run(bufSize, events);
    AfterOne(New(bufSize), events, Subscribe(id, n));
    assert o in s.subs ==> SubFits(s, o);
    SubscribeStep(s, id, n);
    hide After, Step, SubscriberFits, Accounted, BufferFits, DispatchFits;
    if o in s.subs {
      DropsOne(s, id, o);
      hide Without, Listed, UniqueIds;
      var rest := Without(s, id);
      assert o in rest.subs + [n] <==> o in rest.subs;
    }
  }

  function Fans(n: nat): (events: seq<Event>)
    ensures |events| == n && forall i | 0 <= i < n :: events[i] == Fan
  {
    seq(n, i => Fan)
  }

  /** The subscriber after it was handed the event. */
  function Handed(sub: Subscriber, e: nat): Subscriber {
    if |sub.queue| < 64 then sub.(queue := sub.queue + [e]) else sub.(dropped := sub.dropped + {e})
  }

  /** The rest of a hand-out gives the event once to each subscriber it has still to reach, and
      touches no other. */
  lemma {:induction false} HandedOut(s: State, o: int)
    requires Inv(s) && s.dispatch.Fanning? && o in s.objects
    ensures var e, remaining := s.dispatch.event, s.dispatch.remaining;
      var after := After(s, Fans(|remaining|));
      && o in after.objects
      && after.objects[o] == if o in remaining then Handed(s.objects[o], e) else s.objects[o]
    decreases |s.dispatch.remaining|
  {
    var remaining := s.dispatch.remaining;
    if remaining != [] {
      var next := Step(s, Fan);
      StepKeeps(s, Fan);
      assert remaining == [remaining[0]] + remaining[1..];
      assert remaining[0] in remaining && remaining[0] in s.subs && remaining[0] !in remaining[1..];
      assert next.dispatch == Fanning(s.dispatch.event, remaining[1..]);
      assert Fans(|remaining|)[1..] == Fans(|remaining| - 1);
      assert next.objects[o] == if o == remaining[0] then Handed(s.objects[o], s.dispatch.event) else s.objects[o];
      hide Inv, Step;
      HandedOut(next, o);
    }
  }

  /** An event published to a bus at rest reaches, once the dispatch goroutine has run, the
      queue of every registered subscriber that has room, and is dropped for the others. */
  lemma Delivered(bufSize: int, events: seq<Event>, o: int)
    requires var s := Run(bufSize, events); s.dispatch.Idle? && s.buffer == [] && o in s.subs
    ensures var s := Run(bufSize, events);
      var after := Run(bufSize, events + ([Publish, Take, Lock] + Fans(|s.subs|)));
      && o in s.objects && o in after.objects
      && after.objects[o] == Handed(s.objects[o], s.accepted)
  {
    var s := Run(bufSize, events);
    AfterBoth(New(bufSize), events, [Publish, Take, Lock] + Fans(|s.subs|));
    HandOutStarts(s);
    var begun := After(s, [Publish, Take, Lock]);
    AfterBoth(s, [Publish, Take, Lock], Fans(|s.subs|));
    hide SubscriberFits, Accounted, UniqueIds, BufferFits, DispatchFits, Step, After;
    HandedOut(begun, o);
  }

  lemma HandOutStarts(s: State)
    requires Inv(s) && s.dispatch.Idle? && s.buffer == [] && s.size > 0
    ensures After(s, [Publish, Take, Lock])
      == s.(accepted := s.accepted + 1, dispatch := Fanning(s.accepted, s.subs))
  {
    AfterOne(s, [], Publish);
    AfterOne(s, [Publish], Take);
    AfterOne(s, [Publish, Take], Lock);
    assert [] + [Publish] == [Publish] && [Publish] + [Take] == [Publish, Take];
    assert [Publish, Take] + [Lock] == [Publish, Take, Lock];
    StartSteps(s);
    hide Step, Inv;
  }

  lemma StartSteps(s: State)
    requires Listed(s) && s.dispatch.Idle? && s.buffer == [] && s.size > 0
    ensures var published := Step(s, Publish);
      && Listed(published) && Listed(Step(published, Take))
      && Step(Step(published, Take), Lock) == s.(accepted := s.accepted + 1, dispatch := Fanning(s.accepted, s.subs))
  {
    var published := Step(s, Publish);
    assert published.buffer == [s.accepted];
    assert Step(published, Take).buffer == [];
  }

  lemma {:induction false} AfterBoth(s: State, first: seq<Event>, second: seq<Event>)
    requires Inv(s)
    ensures After(s, first + second) == After(After(s, first), second)
    decreases |first|
  {
    if first == [] {
      assert first + second == second;
    } else {
      StepKeeps(s, first[0]);
      hide SubscriberFits, Accounted, UniqueIds, BufferFits, DispatchFits, Step;
      AfterBoth(Step(s, first[0]), first[1..], second);
      assert (first + second)[1..] == first[1..] + second;
    }
  }

  /** The dispatch goroutine hands event e to a subscriber whose queue holds 64 others. */
  predicate MeetsFull(s: State, ev: Event, o: int, e: nat) {
    && ev.Fan? && s.dispatch.Fanning? && s.dispatch.event == e
    && s.dispatch.remaining != [] && s.dispatch.remaining[0] == o
    && o in s.objects && |s.objects[o].queue| == 64
  }

  lemma WithoutDrops(s: State, id: string, o: int)
    requires Listed(s)
    ensures Without(s, id).objects.Keys == s.objects.Keys
    ensures o in s.objects ==> Without(s, id).objects[o].dropped == s.objects[o].dropped
  {
  }

  lemma StepDrops(s: State, ev: Event, o: int, e: nat)
    requires Inv(s) && o in Step(s, ev).objects
    ensures e in Step(s, ev).objects[o].dropped
      <==> MeetsFull(s, ev, o, e) || (o in s.objects && e in s.objects[o].dropped)
  {
    assert o in s.objects ==> SubFits(s, o);
    hide Accounted, UniqueIds, BufferFits, DispatchFits, Ascending, Below, Position, Without;
    if ev.Subscribe? || ev.Unsubscribe? {
      WithoutDrops(s, ev.id, o);
    }
  }

  lemma ObjectsStay(s: State, ev: Event, o: int)
    requires Inv(s) && o in s.objects
    ensures o in Step(s, ev).objects
  {
    hide SubscriberFits, Accounted, UniqueIds, BufferFits, DispatchFits, Position, Without;
    if ev.Subscribe? || ev.Unsubscribe? {
      WithoutDrops(s, ev.id, o);
    }
  }

  /** A subscriber lost an event if and only if its queue was full of 64 events when the event
      was handed to it. */
  lemma {:induction false} DroppedWhenFull(bufSize: int, events: seq<Event>, o: int, e: nat)
    ensures o in Run(bufSize, events).objects && e in Run(bufSize, events).objects[o].dropped
      <==> exists k | 0 <= k < |events| :: MeetsFull(Run(bufSize, events[..k]), events[k], o, e)
    decreases |events|
  {
    if events != [] {
      var init, last := events[..|events| - 1], events[|events| - 1];
      DroppedWhenFull(bufSize, init, o, e);
      AfterOne(New(bufSize), init, last);
      var s := Run(bufSize, init);
      hide Step, Inv, MeetsFull, After;
      assert events == init + [last];
      LastMeets(bufSize, init, last, o, e);
      if o in Step(s, last).objects {
        StepDrops(s, last, o, e);
      } else if o in s.objects {
        ObjectsStay(s, last, o);
      }
    }
  }

  lemma LastMeets(bufSize: int, init: seq<Event>, last: Event, o: int, e: nat)
    ensures MeetsFull(Run(bufSize, init), last, o, e) ==> o in Step(Run(bufSize, init), last).objects
    ensures var events := init + [last];
      (exists k | 0 <= k < |events| :: MeetsFull(Run(bufSize, events[..k]), events[k], o, e)) <==>
        (|| MeetsFull(Run(bufSize, init), last, o, e)
         || exists k | 0 <= k < |init| :: MeetsFull(Run(bufSize, init[..k]), init[k], o, e))
  {
    var events, s := init + [last], Run(bufSize, init);
    if MeetsFull(s, last, o, e) {
      ObjectsStay(s, last, o);
    }
    hide *;
    assert forall k | 0 <= k < |init| :: events[..k] == init[..k] && events[k] == init[k];
    assert events[..|init|] == init && events[|init|] == last;
  }

  /** Both stages stay within their bounds, whatever runs. */
  lemma Bounded(bufSize: int, events: seq<Event>, o: int)
    requires o in Run(bufSize, events).objects
    ensures var s := Run(bufSize, events);
      |s.buffer| <= (if bufSize <= 0 then DEFAULT_BUFFER_SIZE else bufSize) && |s.objects[o].queue| <= QUEUE_SIZE
  {
    var s := Run(bufSize, events);
    assert SubFits(s, o);
  }

  /** Registered ids are unique, and no quit channel is closed twice: the next Subscribe or
      Unsubscribe only ever closes one that is still open. */
  lemma ClosedOnce(bufSize: int, events: seq<Event>, o: int, p: int)
    requires var s := Run(bufSize, events); o in s.objects && p in s.objects
    ensures var s := Run(bufSize, events);
      && s.objects[o].quits <= 1 && (o in s.subs ==> s.objects[o].quits == 0)
      && (o in s.subs && p in s.subs && s.objects[o].id == s.objects[p].id ==> o == p)
  {
    var s := Run(bufSize, events);
    assert SubFits(s, o) && SubFits(s, p);
  }
}

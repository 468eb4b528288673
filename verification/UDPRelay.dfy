/** The UDP relay's session map as a machine of interleaved steps
    (internal/amneziawgnet/relay.go). A step is one critical section of the relay's lock, or
    one thing a goroutine does outside it. */
module UDPRelay {
  import opened Text

  const MAX_SESSIONS: nat := 1024

  /** A tunnel-internal source, and a SOCKS5 association. */
  type Source = int
  type Session = int

  /** Where an associate goroutine, and then its session's pump, stands. */
  datatype Pc =
    | Dialing(src: Source)
    | Publishing(src: Source, session: Session)
    | Pumping(src: Source, session: Session)
    | Retiring(src: Source, session: Session)
    | Closing(session: Session)

  /** sessions is the relay's map; open holds the sessions not yet closed; born remembers
      which goroutine opened each session there ever was. */
  datatype State = State(
    sessions: map<Source, Session>,
    open: set<Session>,
    born: map<Session, int>,
    threads: map<int, Pc>)

  const INITIAL: State := State(map[], {}, map[], map[])

  datatype Event =
    | Handle(src: Source, thread: int)
    | Run(thread: int, fails: bool, dialed: Session)
    | CloseAll

  function Goto(s: State, t: int, pc: Pc): State { s.(threads := s.threads[t := pc]) }

  function Mapped(s: State): set<Session> { set src | src in s.sessions :: s.sessions[src] }

  /** Handle: a datagram of an unknown source starts an associate unless the map is full. */
  function HandleStep(s: State, src: Source, t: int): State {
    if t in s.threads || src in s.sessions || |s.sessions| >= MAX_SESSIONS then s
    else Goto(s, t, Dialing(src))
  }

  function RunStep(s: State, t: int, fails: bool, dialed: Session): State
    requires t in s.threads
  {
    match s.threads[t]
    case Dialing(src) =>
      if fails then s.(threads := s.threads - {t})
      else if dialed in s.born then s
      else Goto(s.(open := s.open + {dialed}, born := s.born[dialed := t]), t, Publishing(src, dialed))
    case Publishing(src, session) =>
      if src in s.sessions || |s.sessions| >= MAX_SESSIONS then Goto(s, t, Closing(session))
      else Goto(s.(sessions := s.sessions[src := session]), t, Pumping(src, session))
    case Pumping(src, session) =>
      if fails then Goto(s, t, Retiring(src, session)) else s
    case Retiring(src, session) =>
      if src in s.sessions && s.sessions[src] == session
        then Goto(s.(sessions := s.sessions - {src}), t, Closing(session))
      else Goto(s, t, Closing(session))
    case Closing(session) =>
      s.(open := s.open - {session}, threads := s.threads - {t})
  }

  /** One step of the relay; an event that is not possible now changes nothing. */
  function Step(s: State, ev: Event): State {
    match ev
    case Handle(src, t) => HandleStep(s, src, t)
    case Run(t, fails, dialed) => if t in s.threads then RunStep(s, t, fails, dialed) else s
    case CloseAll => s.(sessions := map[], open := s.open - Mapped(s))
  }

  function SessionOf(pc: Pc): Option<Session> {
    match pc
    case Dialing(_) => None
    case _ => Some(pc.session)
  }

  /** A mapped session is open and has a pump of its own, for that source. */
  predicate MappedFits(s: State, src: Source)
    requires src in s.sessions
  {
    var session := s.sessions[src];
    && session in s.open && session in s.born && s.born[session] in s.threads
    && (s.threads[s.born[session]] == Pumping(src, session) || s.threads[s.born[session]] == Retiring(src, session))
  }

  /** An open session is in the hands of the goroutine that opened it. */
  predicate OpenFits(s: State, session: Session) {
    session in s.born && s.born[session] in s.threads && SessionOf(s.threads[s.born[session]]) == Some(session)
  }

  predicate ThreadFits(s: State, t: int)
    requires t in s.threads
  {
    SessionOf(s.threads[t]).Some? ==>
      var session := SessionOf(s.threads[t]).value;
      && session in s.born && s.born[session] == t
      && (s.threads[t].Publishing? ==> session in s.open)
  }

  predicate Inv(s: State) {
    && |s.sessions| <= MAX_SESSIONS
    && (forall src | src in s.sessions :: MappedFits(s, src))
    && (forall session | session in s.open :: OpenFits(s, session))
    && (forall t | t in s.threads :: ThreadFits(s, t))
  }

  lemma OneMore(m: map<Source, Session>, src: Source, session: Session)
    requires src !in m
    ensures |m[src := session]| == |m| + 1
  {
    assert m[src := session].Keys == m.Keys + {src};
    assert |m[src := session]| == |m[src := session].Keys| && |m| == |m.Keys|;
  }

  lemma OneLess(m: map<Source, Session>, src: Source)
    requires src in m
    ensures |m - {src}| == |m| - 1
  {
    assert (m - {src}).Keys == m.Keys - {src};
    assert |m - {src}| == |(m - {src}).Keys| && |m| == |m.Keys|;
  }

  lemma StepKeeps(s: State, ev: Event)
    requires Inv(s)
    ensures Inv(Step(s, ev))
  {
    var after := Step(s, ev);
    match ev {
      case Handle(src, t) =>
      case Run(t, fails, dialed) =>
        if t in s.threads {
          RunKeeps(s, t, fails, dialed);
        }
      case CloseAll =>
        forall t | t in s.threads
          ensures ThreadFits(after, t)
        {
          assert ThreadFits(s, t);
          assert forall src | src in s.sessions :: MappedFits(s, src);
        }
    }
  }

  lemma SizeKept(s: State, t: int, fails: bool, dialed: Session)
    requires t in s.threads && |s.sessions| <= MAX_SESSIONS
    ensures |RunStep(s, t, fails, dialed).sessions| <= MAX_SESSIONS
  {
    match s.threads[t] {
      case Publishing(src, session) =>
        if src !in s.sessions {
          OneMore(s.sessions, src, session);
        }
      case Retiring(src, session) =>
        if src in s.sessions {
          OneLess(s.sessions, src);
        }
      case _ =>
    }
  }

  lemma MappedKept(s: State, t: int, fails: bool, dialed: Session, src: Source)
    requires Inv(s) && t in s.threads && src in RunStep(s, t, fails, dialed).sessions
    ensures MappedFits(RunStep(s, t, fails, dialed), src)
  {
    assert ThreadFits(s, t);
    assert src in s.sessions ==> MappedFits(s, src);
    hide Inv;
  }

  lemma OpenKept(s: State, t: int, fails: bool, dialed: Session, session: Session)
    requires Inv(s) && t in s.threads && session in RunStep(s, t, fails, dialed).open
    ensures OpenFits(RunStep(s, t, fails, dialed), session)
  {
    assert ThreadFits(s, t);
    assert session in s.open ==> OpenFits(s, session);
    hide Inv;
  }

  lemma ThreadKept(s: State, t: int, fails: bool, dialed: Session, u: int)
    requires Inv(s) && t in s.threads && u in RunStep(s, t, fails, dialed).threads
    ensures ThreadFits(RunStep(s, t, fails, dialed), u)
  {
    assert ThreadFits(s, t) && ThreadFits(s, u);
    hide Inv;
  }

  lemma RunKeeps(s: State, t: int, fails: bool, dialed: Session)
    requires Inv(s) && t in s.threads
    ensures Inv(RunStep(s, t, fails, dialed))
  {
    var after := RunStep(s, t, fails, dialed);
    SizeKept(s, t, fails, dialed);
    hide RunStep, MappedFits, OpenFits, ThreadFits;
    forall src | src in after.sessions
      ensures MappedFits(after, src)
    {
      MappedKept(s, t, fails, dialed, src);
    }
    forall session | session in after.open
      ensures OpenFits(after, session)
    {
      OpenKept(s, t, fails, dialed, session);
    }
    forall u | u in after.threads
      ensures ThreadFits(after, u)
    {
      ThreadKept(s, t, fails, dialed, u);
    }
  }

  ghost function After(s: State, events: seq<Event>): (end: State)
    requires Inv(s)
    ensures Inv(end)
    decreases |events|
  {
    if events == [] then s
    else
      StepKeeps(s, events[0]);
      After(Step(s, events[0]), events[1..])
  }

  /** Any interleaving from an empty relay. */
  ghost function Interleaving(events: seq<Event>): (end: State)
    ensures Inv(end)
  {
    assert Inv(INITIAL);
    After(INITIAL, events)
  }

  /** The map never exceeds its cap, and never holds a closed session. */
  lemma MapBounded(events: seq<Event>, src: Source)
    ensures var s := Interleaving(events);
      |s.sessions| <= MAX_SESSIONS && (src in s.sessions ==> s.sessions[src] in s.open)
  {
    var s := Interleaving(events);
    assert src in s.sessions ==> MappedFits(s, src);
  }

  /** While the map has room, a datagram of an unknown source gets a session: its associate,
      when the dial succeeds and nothing else runs, ends up pumping the dialed session, which
      is open and the one mapped to the source. Another source's session stays as it was. */
  lemma NewSourceServed(events: seq<Event>, src: Source, t: int, dialed: Session, other: Source)
    requires var s := Interleaving(events);
      src !in s.sessions && |s.sessions| < 1024 && t !in s.threads && dialed !in s.born
    ensures var s, after := Interleaving(events),
        Interleaving(events + [Handle(src, t), Run(t, false, dialed), Run(t, false, dialed)]);
      && src in after.sessions && after.sessions[src] == dialed && dialed in after.open
      && t in after.threads && after.threads[t] == Pumping(src, dialed)
      && (other in s.sessions ==> other in after.sessions && after.sessions[other] == s.sessions[other])
  {
    var s := Interleaving(events);
    var handled := Step(s, Handle(src, t));
    var published := Step(handled, Run(t, false, dialed));
    AfterThree(INITIAL, events, Handle(src, t), Run(t, false, dialed), Run(t, false, dialed));
  }

  /** A datagram of a known source, or one that finds the map full, starts nothing, and an
      associate that finds the map full or its source taken closes what it dialed. */
  lemma NoRoomNoSession(events: seq<Event>, src: Source, t: int)
    requires var s := Interleaving(events); src in s.sessions || |s.sessions| == 1024
    ensures var s := Interleaving(events);
      && Interleaving(events + [Handle(src, t)]) == s
      && forall session: Session | t in s.threads && s.threads[t] == Publishing(src, session) ::
        var after := Interleaving(events + [Run(t, false, session)] + [Run(t, false, session)]);
        session !in after.open && after.sessions == s.sessions && t !in after.threads
  {
    AfterOne(INITIAL, events, Handle(src, t));
    var s := Interleaving(events);
    forall session: Session | t in s.threads && s.threads[t] == Publishing(src, session)
      ensures var after := Interleaving(events + [Run(t, false, session)] + [Run(t, false, session)]);
        session !in after.open && after.sessions == s.sessions && t !in after.threads
    {
      var ev := Run(t, false, session);
      AfterOne(INITIAL, events, ev);
      AfterOne(INITIAL, events + [ev], ev);
    }
  }

  lemma {:induction false} AfterOne(s: State, events: seq<Event>, ev: Event)
    requires Inv(s)
    ensures After(s, events + [ev]) == Step(After(s, events), ev)
    decreases |events|
  {
    hide Inv, Step;
    if events == [] {
      assert events + [ev] == [ev] && [ev][1..] == [];
      StepKeeps(s, ev);
    } else {
      StepKeeps(s, events[0]);
      AfterOne(Step(s, events[0]), events[1..], ev);
      assert (events + [ev])[1..] == events[1..] + [ev];
    }
  }

  lemma AfterThree(s: State, events: seq<Event>, a: Event, b: Event, c: Event)
    requires Inv(s)
    ensures After(s, events + [a, b, c]) == Step(Step(Step(After(s, events), a), b), c)
  {
    hide Inv, Step, After;
    AfterOne(s, events, a);
    AfterOne(s, events + [a], b);
    AfterOne(s, events + [a] + [b], c);
    assert events + [a] + [b] + [c] == events + [a, b, c];
  }

  /** A goroutine's step takes no other goroutine's session out of the map, and closes none. */
  lemma OnlyOwnRetired(events: seq<Event>, t: int, fails: bool, dialed: Session, src: Source, session: Session)
    requires var s := Interleaving(events); t in s.threads && session in s.born && s.born[session] != t
    ensures var s, after := Interleaving(events), Step(Interleaving(events), Run(t, fails, dialed));
      && (src in s.sessions && s.sessions[src] == session ==> src in after.sessions && after.sessions[src] == session)
      && (session in s.open ==> session in after.open)
  {
    var s := Interleaving(events);
    assert ThreadFits(s, t);
    hide *;
    RunIsStep(s, t, fails, dialed);
    RetiresOwn(s, t, fails, dialed, src, session);
  }

  lemma RunIsStep(s: State, t: int, fails: bool, dialed: Session)
    requires t in s.threads
    ensures Step(s, Run(t, fails, dialed)) == RunStep(s, t, fails, dialed)
  {
  }

  lemma RetiresOwn(s: State, t: int, fails: bool, dialed: Session, src: Source, session: Session)
    requires t in s.threads && ThreadFits(s, t) && session in s.born && s.born[session] != t
    ensures var after := RunStep(s, t, fails, dialed);
      && (src in s.sessions && s.sessions[src] == session ==> src in after.sessions && after.sessions[src] == session)
      && (session in s.open ==> session in after.open)
  {
  }

  /** Two sources never share a session. */
  lemma SessionsApart(events: seq<Event>, a: Source, b: Source)
    requires var s := Interleaving(events); a in s.sessions && b in s.sessions && s.sessions[a] == s.sessions[b]
    ensures a == b
  {
    var s := Interleaving(events);
    assert MappedFits(s, a) && MappedFits(s, b);
  }

  /** Once every associate and pump has ended, no session is open or mapped. */
  lemma NothingLeft(events: seq<Event>)
    requires Interleaving(events).threads == map[]
    ensures Interleaving(events).sessions == map[] && Interleaving(events).open == {}
  {
    var s := Interleaving(events);
    forall src
      ensures src !in s.sessions
    {
      assert src in s.sessions ==> MappedFits(s, src);
    }
    forall session
      ensures session !in s.open
    {
      assert session in s.open ==> OpenFits(s, session);
    }
  }
}

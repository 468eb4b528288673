/** The sidecar supervisor as a machine of interleaved steps (internal/sidecar/manager.go,
    internal/sidecar/process.go). A step is one critical section of the registry lock or of a
    process lock, one wait on an inbound's start lock, or one thing a child process does. */
module Sidecar {
  import opened Text

  /** What Ensure is asked for: the inbound and the fingerprint of its wanted launch. */
  datatype Inst = Inst(id: int, fingerprint: int)

  /** One managed entry and its Proc: the start lock's holder, the committed fingerprint,
      and the child Proc last published. home is the inbound it was created for. */
  datatype Entry = Entry(home: int, holder: Option<int>, fingerprint: int, cmd: Option<int>, running: bool)

  /** Where a stop goes on: to the rest of the launch, or to the end of the call and the
      inbounds StopAll has still to remove. */
  datatype Then = ToPrepare(inst: Inst) | ToRelease(rest: seq<int>)

  /** Where a call stands. */
  datatype Pc =
    | Lookup(inst: Inst)
    | GetEntry(inst: Inst)
    | WaitStart(inst: Inst, entry: int)
    | Recheck(inst: Inst, entry: int)
    | Resolve(inst: Inst, entry: int)
    | CheckRunning(inst: Inst, entry: int)
    | StopRead(entry: int, next: Then)
    | StopWait(entry: int, child: int, next: Then)
    | Prepare(inst: Inst, entry: int)
    | StartCheck(inst: Inst, entry: int)
    | Spawn(inst: Inst, entry: int)
    | Publish(inst: Inst, entry: int, child: int)
    | Commit(inst: Inst, entry: int, failed: bool)
    | RemoveLookup(id: int, rest: seq<int>)
    | RemoveWait(entry: int, rest: seq<int>)
    | Collect

  /** The entry a child was spawned by, and the fingerprint it was spawned for. */
  datatype Launch = Launch(entry: int, fingerprint: int)

  /** procs is the registry; launched remembers every child ever spawned and live those still
      running; watchers are the goroutines that reap a child, true once the exit is published;
      closed are the children whose done channel is closed; threads are the calls in progress. */
  datatype State = State(
    procs: map<int, int>,
    entries: map<int, Entry>,
    live: set<int>,
    launched: map<int, Launch>,
    watchers: map<int, bool>,
    closed: set<int>,
    threads: map<int, Pc>)

  datatype Call = Ensure(inst: Inst) | Remove(id: int) | StopAll

  /** What a step leaves to chance: a retry still deferred, a command that fails, the
      identity of a new child or entry, and the order a map is listed in. */
  datatype Choice = Choice(deferred: bool, fails: bool, child: int, entry: int, ids: seq<int>)

  datatype Event =
    | Begin(thread: int, call: Call)
    | Act(thread: int, choice: Choice)
    | Exit(child: int)
    | Reap(child: int)
    | Close(child: int)

  const INITIAL: State := State(map[], map[], {}, map[], map[], {}, map[])

  // ---- Steps -----------------------------------------------------------------

  function First(call: Call): Pc {
    match call
    case Ensure(inst) => Lookup(inst)
    case Remove(id) => RemoveLookup(id, [])
    case StopAll => Collect
  }

  function Goto(s: State, t: int, pc: Pc): State { s.(threads := s.threads[t := pc]) }

  function Finish(s: State, t: int): State { s.(threads := s.threads - {t}) }

  /** StopAll's loop over the inbounds it collected. */
  function Continue(s: State, t: int, rest: seq<int>): State {
    if rest == [] then Finish(s, t) else Goto(s, t, RemoveLookup(rest[0], rest[1..]))
  }

  function Update(s: State, e: int, entry: Entry): State { s.(entries := s.entries[e := entry]) }

  /** Releases the start lock of e and goes on with the remaining removals. */
  function Release(s: State, t: int, e: int, rest: seq<int>): State
    requires e in s.entries
  {
    Continue(Update(s, e, s.entries[e].(holder := None)), t, rest)
  }

  function Resume(s: State, t: int, e: int, next: Then): State
    requires e in s.entries
  {
    match next
    case ToPrepare(inst) => Goto(s, t, Prepare(inst, e))
    case ToRelease(rest) => Release(s, t, e, rest)
  }

  /** The registry has e for inbound id. */
  predicate IsIn(s: State, id: int, e: int) { id in s.procs && s.procs[id] == e }

  predicate Registered(s: State, e: int) { e in s.entries && IsIn(s, s.entries[e].home, e) }

  /** aliveLocked: a live child with the unchanged fingerprint. */
  predicate Handled(e: Entry, inst: Inst) { e.fingerprint == inst.fingerprint && e.running }

  /** The retry of a failed launch is still deferred. */
  predicate Deferred(e: Entry, inst: Inst, choice: Choice) {
    e.fingerprint == inst.fingerprint && !e.running && choice.deferred
  }

  /** One step of the launch, by a thread that holds the start lock of e. */
  function LaunchStep(s: State, t: int, pc: Pc, choice: Choice): State
    requires pc.Resolve? || pc.CheckRunning? || pc.Prepare? || pc.StartCheck? || pc.Spawn? || pc.Publish?
    requires pc.entry in s.entries
  {
    var e, entry := pc.entry, s.entries[pc.entry];
    match pc
    case Resolve(inst, _) => Goto(s, t, if choice.fails then Commit(inst, e, true) else CheckRunning(inst, e))
    case CheckRunning(inst, _) => Goto(s, t, if entry.running then StopRead(e, ToPrepare(inst)) else Prepare(inst, e))
    case Prepare(inst, _) => Goto(s, t, if choice.fails then Commit(inst, e, true) else StartCheck(inst, e))
    case StartCheck(inst, _) => Goto(s, t, if entry.running then Commit(inst, e, true) else Spawn(inst, e))
    case Spawn(inst, _) =>
      if choice.fails then Goto(s, t, Commit(inst, e, true))
      else if choice.child in s.launched then s
      else
        Goto(s.(live := s.live + {choice.child}, launched := s.launched[choice.child := Launch(e, inst.fingerprint)]),
             t, Publish(inst, e, choice.child))
    case Publish(inst, _, child) =>
      Goto(Update(s, e, entry.(cmd := Some(child), running := true)).(watchers := s.watchers[child := false]),
           t, Commit(inst, e, false))
  }

  /** One step of Ensure around the launch. */
  function EnsureStep(s: State, t: int, pc: Pc, choice: Choice): State
    requires AroundLaunch(pc)
    requires EntryOf(pc).Some? ==> EntryOf(pc).value in s.entries
    requires forall id | id in s.procs :: s.procs[id] in s.entries
  {
    match pc
    case Lookup(inst) =>
      if inst.id <= 0 then Finish(s, t)
      else if inst.id in s.procs
        && (Handled(s.entries[s.procs[inst.id]], inst) || Deferred(s.entries[s.procs[inst.id]], inst, choice))
          then Finish(s, t)
      else Goto(s, t, GetEntry(inst))
    case GetEntry(inst) =>
      if inst.id in s.procs then Goto(s, t, WaitStart(inst, s.procs[inst.id]))
      else if choice.entry in s.entries then s
      else
        Goto(Update(s, choice.entry, Entry(inst.id, None, inst.fingerprint, None, false))
               .(procs := s.procs[inst.id := choice.entry]),
             t, WaitStart(inst, choice.entry))
    case WaitStart(inst, e) =>
      if s.entries[e].holder.Some? then s
      else Goto(Update(s, e, s.entries[e].(holder := Some(t))), t, Recheck(inst, e))
    case Recheck(inst, e) =>
      if !IsIn(s, inst.id, e) || Handled(s.entries[e], inst) || Deferred(s.entries[e], inst, choice)
        then Release(s, t, e, [])
      else Goto(s, t, Resolve(inst, e))
    case Commit(inst, e, failed) =>
      if !IsIn(s, inst.id, e) then Goto(s, t, StopRead(e, ToRelease([])))
      else Release(Update(s, e, s.entries[e].(fingerprint := inst.fingerprint)), t, e, [])
  }

  predicate AroundLaunch(pc: Pc) {
    pc.Lookup? || pc.GetEntry? || pc.WaitStart? || pc.Recheck? || pc.Commit?
  }

  /** One step of Proc.Stop, of Remove or of StopAll. */
  function RemoveStep(s: State, t: int, pc: Pc, choice: Choice): State
    requires !IsLaunch(pc) && !AroundLaunch(pc)
    requires EntryOf(pc).Some? ==> EntryOf(pc).value in s.entries
  {
    match pc
    case StopRead(e, next) =>
      if s.entries[e].running && s.entries[e].cmd.Some? then Goto(s, t, StopWait(e, s.entries[e].cmd.value, next))
      else Resume(s, t, e, next)
    case StopWait(e, child, next) =>
      if child in s.closed then Resume(s, t, e, next) else s
    case RemoveLookup(id, rest) =>
      if id !in s.procs then Continue(s, t, rest)
      else Goto(s.(procs := s.procs - {id}), t, RemoveWait(s.procs[id], rest))
    case RemoveWait(e, rest) =>
      if s.entries[e].holder.Some? then s
      else Goto(Update(s, e, s.entries[e].(holder := Some(t))), t, StopRead(e, ToRelease(rest)))
    case Collect =>
      if (set id | id in choice.ids) == s.procs.Keys then Continue(s, t, choice.ids) else s
  }

  predicate IsLaunch(pc: Pc) {
    pc.Resolve? || pc.CheckRunning? || pc.Prepare? || pc.StartCheck? || pc.Spawn? || pc.Publish?
  }

  function EntryOf(pc: Pc): Option<int> {
    match pc
    case Lookup(_) => None
    case GetEntry(_) => None
    case RemoveLookup(_, _) => None
    case Collect => None
    case _ => Some(pc.entry)
  }

  /** The start lock the thread holds. */
  function Holding(pc: Pc): Option<int> {
    match pc
    case WaitStart(_, _) => None
    case RemoveWait(_, _) => None
    case _ => EntryOf(pc)
  }

  /** One step of the whole machine; an event that is not possible now changes nothing. */
  function Step(s: State, ev: Event): State
    requires Sane(s)
  {
    match ev
    case Begin(t, call) => if t in s.threads then s else Goto(s, t, First(call))
    case Act(t, choice) =>
      if t !in s.threads then s
      else if IsLaunch(s.threads[t]) then LaunchStep(s, t, s.threads[t], choice)
      else if AroundLaunch(s.threads[t]) then EnsureStep(s, t, s.threads[t], choice)
      else RemoveStep(s, t, s.threads[t], choice)
    case Exit(c) => s.(live := s.live - {c})
    case Reap(c) =>
      if c !in s.watchers || c in s.live || c !in s.launched || s.launched[c].entry !in s.entries then s
      else
        var e := s.launched[c].entry;
        Update(s, e, if s.entries[e].cmd == Some(c) then s.entries[e].(running := false) else s.entries[e])
          .(watchers := s.watchers[c := true])
    case Close(c) =>
      if c in s.watchers && s.watchers[c] then s.(watchers := s.watchers - {c}, closed := s.closed + {c}) else s
  }

  /** Every reference resolves. */
  predicate Sane(s: State) {
    && (forall id | id in s.procs :: s.procs[id] in s.entries && s.entries[s.procs[id]].home == id)
    && (forall t | t in s.threads && EntryOf(s.threads[t]).Some? :: EntryOf(s.threads[t]).value in s.entries)
  }

  // ---- What every step keeps -------------------------------------------------

  /** The instance a thread carries to an entry is for the entry's own inbound. */
  predicate InstFits(s: State, pc: Pc) {
    match pc
    case StopRead(e, ToPrepare(inst)) => HomeFits(s, inst, e)
    case StopWait(e, _, ToPrepare(inst)) => HomeFits(s, inst, e)
    case WaitStart(inst, e) => HomeFits(s, inst, e)
    case Recheck(inst, e) => HomeFits(s, inst, e)
    case Commit(inst, e, _) => HomeFits(s, inst, e)
    case _ => IsLaunch(pc) ==> HomeFits(s, pc.inst, pc.entry)
  }

  predicate HomeFits(s: State, inst: Inst, e: int) { e in s.entries && s.entries[e].home == inst.id }

  /** The start locks are held by exactly the threads that are between lock and unlock. */
  predicate Locks(s: State) {
    && (forall t | t in s.threads :: LockFits(s, t))
    && (forall e | e in s.entries :: HolderFits(s, e))
  }

  /** The old child is gone from here to the end of the launch. */
  predicate PastStop(pc: Pc) {
    pc.Prepare? || pc.StartCheck? || pc.Spawn? || pc.Publish?
  }

  /** What a thread past a check relies on. */
  predicate ThreadFits(s: State, t: int)
    requires t in s.threads
  {
    var pc := s.threads[t];
    && (PastStop(pc) ==> pc.entry in s.entries && !s.entries[pc.entry].running)
    && (pc.Publish? ==>
          && pc.child in s.launched && s.launched[pc.child] == Launch(pc.entry, pc.inst.fingerprint)
          && pc.child !in s.watchers && pc.child !in s.closed)
    && (pc.StopWait? ==>
          && pc.entry in s.entries && s.entries[pc.entry].cmd == Some(pc.child)
          && (pc.child in s.watchers || pc.child in s.closed))
  }

  /** A Proc says it runs until its own child's exit has been published. */
  predicate EntryFits(e: int, entry: Entry, launched: map<int, Launch>, watchers: map<int, bool>) {
    && (entry.cmd.Some? ==> entry.cmd.value in launched && launched[entry.cmd.value].entry == e)
    && (entry.running ==> entry.cmd.Some? && entry.cmd.value in watchers && !watchers[entry.cmd.value])
  }

  /** Only spawned children are watched, and only exited ones reaped and closed. */
  predicate Watching(s: State) {
    && (forall c | c in s.launched :: s.launched[c].entry in s.entries)
    && (forall c | c in s.watchers :: c in s.launched && c !in s.closed)
    && (forall c | c in s.watchers && s.watchers[c] :: c !in s.live)
    && (forall c | c in s.closed :: c in s.launched && c !in s.live)
  }

  /** A live child is the one its entry's Proc says runs, or the one the thread that holds
      the entry's start lock has just spawned. */
  predicate ChildFits(s: State, c: int)
    requires c in s.live
  {
    && c in s.launched && s.launched[c].entry in s.entries
    && var e := s.entries[s.launched[c].entry];
    if e.running then e.cmd == Some(c) else e.holder.Some? && Publishing(s, e.holder.value, s.launched[c].entry, c)
  }

  predicate Publishing(s: State, t: int, e: int, c: int) {
    t in s.threads && s.threads[t].Publish? && s.threads[t].entry == e && s.threads[t].child == c
  }

  /** The thread is inside the launch of e. */
  predicate Launching(pc: Pc, e: int) {
    (IsLaunch(pc) || pc.Commit? || (pc.StopRead? && pc.next.ToPrepare?) || (pc.StopWait? && pc.next.ToPrepare?))
      && pc.entry == e
  }

  /** The thread will stop e's child before it lets go of e. */
  predicate WillStop(pc: Pc, e: int) {
    (pc.RemoveWait? || (pc.StopRead? && pc.next.ToRelease?) || (pc.StopWait? && pc.next.ToRelease?)) && pc.entry == e
  }

  ghost predicate Quiet(s: State, e: int) {
    && (forall c | c in s.live && c in s.launched :: s.launched[c].entry != e)
    && (forall t | t in s.threads :: !Launching(s.threads[t], e))
  }

  /** An entry the registry has dropped is quiet, or some thread will still stop its child. */
  ghost predicate DroppedFits(s: State, e: int) {
    Registered(s, e) || Quiet(s, e) || exists t :: t in s.threads && WillStop(s.threads[t], e)
  }

  predicate InstsFit(s: State) { forall t | t in s.threads :: InstFits(s, s.threads[t]) }

  predicate ThreadsFit(s: State) { forall t | t in s.threads :: ThreadFits(s, t) }

  predicate EntriesFit(s: State) { forall e | e in s.entries :: EntryFits(e, s.entries[e], s.launched, s.watchers) }

  predicate ChildrenFit(s: State) { forall c | c in s.live :: ChildFits(s, c) }

  ghost predicate AllDroppedFit(s: State) { forall e | e in s.entries :: DroppedFits(s, e) }

  ghost predicate Inv(s: State) {
    Sane(s) && InstsFit(s) && Locks(s) && ThreadsFit(s) && EntriesFit(s) && Watching(s) && ChildrenFit(s)
      && AllDroppedFit(s)
  }

  lemma Gather(s: State)
    requires Sane(s) && InstsFit(s) && Locks(s) && ThreadsFit(s) && EntriesFit(s) && Watching(s) && ChildrenFit(s)
      && AllDroppedFit(s)
    ensures Inv(s)
  {
  }

  lemma InvSane(s: State)
    requires Inv(s)
    ensures Sane(s)
  {
  }

  // ---- One lemma for each kind of step ---------------------------------------

  /** What a thread may become: nothing, or a call that stands at no entry. */
  predicate Left(s: State, t: int) {
    t in s.threads ==> EntryOf(s.threads[t]).None?
  }

  predicate OnlyThread(s: State, after: State, t: int) {
    s.threads - {t} == after.threads - {t}
  }

  lemma OtherThreads(s: State, after: State, t: int)
    requires OnlyThread(s, after, t)
    ensures forall u | u != t :: u in s.threads <==> u in after.threads
    ensures forall u | u != t && u in s.threads :: s.threads[u] == after.threads[u]
  {
    assert forall u | u != t :: u in s.threads <==> u in s.threads - {t};
    assert forall u | u != t :: u in after.threads <==> u in after.threads - {t};
    assert forall u | u != t && u in s.threads :: (s.threads - {t})[u] == (after.threads - {t})[u];
  }

  /** The lock a thread holds, if it is running at all. */
  function HeldBy(s: State, t: int): Option<int> {
    if t in s.threads then Holding(s.threads[t]) else None
  }

  /** Dropped entries stay looked after while a thread moves. */
  lemma DroppedMoved(s: State, after: State, t: int)
    requires AllDroppedFit(s) && OnlyThread(s, after, t)
    requires after.procs == s.procs && after.live == s.live && after.launched == s.launched
      && after.entries.Keys == s.entries.Keys
    requires forall e | e in s.entries :: after.entries[e].home == s.entries[e].home
    requires forall e | t in s.threads && WillStop(s.threads[t], e) ::
      (t in after.threads && WillStop(after.threads[t], e)) || Quiet(after, e)
    requires forall e | t in after.threads && Launching(after.threads[t], e) ::
      Registered(s, e) || (t in s.threads && Launching(s.threads[t], e))
    ensures AllDroppedFit(after)
  {
    OtherThreads(s, after, t);
    hide WillStop, Launching;
    forall e | e in after.entries
      ensures DroppedFits(after, e)
    {
      assert DroppedFits(s, e);
      if u :| u in s.threads && WillStop(s.threads[u], e) {
        assert u != t ==> u in after.threads && WillStop(after.threads[u], e);
      }
    }
  }

  predicate LockFits(s: State, t: int)
    requires t in s.threads
  {
    Holding(s.threads[t]).Some? ==>
      Holding(s.threads[t]).value in s.entries && s.entries[Holding(s.threads[t]).value].holder == Some(t)
  }

  predicate HolderFits(s: State, e: int)
    requires e in s.entries
  {
    s.entries[e].holder.Some? ==> HeldBy(s, s.entries[e].holder.value) == Some(e)
  }

  /** The locks still fit when thread t, which holds lock of at most entry e before and
      after, is e's holder exactly if it holds it. */
  lemma LocksMoved(s: State, after: State, t: int)
    requires Locks(s) && OnlyThread(s, after, t) && after.entries.Keys == s.entries.Keys
    requires forall e | e in s.entries && s.entries[e].holder != after.entries[e].holder ::
      (s.entries[e].holder.None? || s.entries[e].holder == Some(t))
        && (after.entries[e].holder.None? || after.entries[e].holder == Some(t))
    requires forall e | e in s.entries :: after.entries[e].holder == Some(t) <==> HeldBy(after, t) == Some(e)
    requires HeldBy(after, t).Some? ==> HeldBy(after, t).value in s.entries
    ensures Locks(after)
  {
    OtherThreads(s, after, t);
    hide Holding;
    forall u | u in after.threads
      ensures LockFits(after, u)
    {
      if u != t {
        assert LockFits(s, u);
      }
    }
    forall e | e in after.entries
      ensures HolderFits(after, e)
    {
      assert HolderFits(s, e);
    }
  }

  /** The checks of the other threads, entries and homes survive a move. */
  lemma MoveThreads(s: State, after: State, t: int)
    requires Sane(s) && InstsFit(s) && ThreadsFit(s) && OnlyThread(s, after, t)
    requires after.entries.Keys == s.entries.Keys && after.launched == s.launched && after.watchers == s.watchers
      && after.closed == s.closed
    requires forall e | e in s.entries ::
      after.entries[e] == s.entries[e].(holder := after.entries[e].holder, fingerprint := after.entries[e].fingerprint)
    requires t in after.threads ==> InstFits(after, after.threads[t]) && ThreadFits(after, t)
    ensures InstsFit(after) && ThreadsFit(after)
  {
    OtherThreads(s, after, t);
    forall u | u in after.threads
      ensures InstFits(after, after.threads[u]) && ThreadFits(after, u)
    {
      if u != t {
        assert InstFits(s, s.threads[u]) && ThreadFits(s, u);
      }
    }
  }

  /** The children stay accounted for: t was publishing none. */
  lemma ChildrenMoved(s: State, after: State, t: int)
    requires ChildrenFit(s) && OnlyThread(s, after, t) && after.live == s.live && after.launched == s.launched
    requires after.entries.Keys == s.entries.Keys && (t in s.threads ==> !s.threads[t].Publish?)
    requires forall e | e in s.entries ::
      after.entries[e].cmd == s.entries[e].cmd && after.entries[e].running == s.entries[e].running
    requires forall e | e in s.entries && s.entries[e].holder != after.entries[e].holder ::
      s.entries[e].holder.None? || s.entries[e].holder == Some(t)
    ensures ChildrenFit(after)
  {
    OtherThreads(s, after, t);
    forall c | c in after.live
      ensures ChildFits(after, c)
    {
      assert ChildFits(s, c);
      var e := s.launched[c].entry;
      assert after.entries[e].cmd == s.entries[e].cmd && after.entries[e].running == s.entries[e].running;
      assert !s.entries[e].running ==> s.entries[e].holder.Some? && s.entries[e].holder != Some(t);
    }
  }

  /** A thread moves on, perhaps taking or releasing the start lock of one entry. */
  lemma MoveKept(s: State, after: State, t: int)
    requires Inv(s) && OnlyThread(s, after, t) && after == s.(entries := after.entries, threads := after.threads)
    requires after.entries.Keys == s.entries.Keys
    requires forall e | e in s.entries ::
      after.entries[e] == s.entries[e].(holder := after.entries[e].holder, fingerprint := after.entries[e].fingerprint)
    requires forall e | e in s.entries && s.entries[e].holder != after.entries[e].holder ::
      (s.entries[e].holder.None? || s.entries[e].holder == Some(t))
        && (after.entries[e].holder.None? || after.entries[e].holder == Some(t))
    requires forall e | e in s.entries :: after.entries[e].holder == Some(t) <==> HeldBy(after, t) == Some(e)
    requires t in s.threads ==> !s.threads[t].Publish?
    requires t in after.threads ==>
      && (EntryOf(after.threads[t]).Some? ==> EntryOf(after.threads[t]).value in s.entries)
      && InstFits(after, after.threads[t]) && ThreadFits(after, t)
    requires forall e | t in s.threads && WillStop(s.threads[t], e) ::
      (t in after.threads && WillStop(after.threads[t], e)) || Quiet(after, e)
    requires forall e | t in after.threads && Launching(after.threads[t], e) ::
      Registered(s, e) || (t in s.threads && Launching(s.threads[t], e))
    ensures Inv(after)
  {
    assert HeldBy(after, t).Some? ==> HeldBy(after, t) == EntryOf(after.threads[t]);
    hide WillStop, Launching, Holding, DroppedFits, AllDroppedFit, PastStop, InstFits, ThreadFits, InstsFit, ThreadsFit,
      Locks, ChildrenFit, Quiet;
    OtherThreads(s, after, t);
    DroppedMoved(s, after, t);
    MoveThreads(s, after, t);
    ChildrenMoved(s, after, t);
    LocksMoved(s, after, t);
    forall e | e in after.entries
      ensures EntryFits(e, after.entries[e], after.launched, after.watchers)
    {
      assert EntryFits(e, s.entries[e], s.launched, s.watchers);
    }
    Gather(after);
  }

  /** A thread moves on without taking or releasing a start lock. */
  lemma InsideKept(s: State, t: int, pc: Pc)
    requires Inv(s) && HeldBy(s, t) == Holding(pc) && (t in s.threads ==> !s.threads[t].Publish?)
    requires EntryOf(pc).Some? ==> EntryOf(pc).value in s.entries
    requires InstFits(s, pc) && ThreadFits(Goto(s, t, pc), t)
    requires forall e | t in s.threads && WillStop(s.threads[t], e) :: WillStop(pc, e)
    requires forall e | Launching(pc, e) :: Registered(s, e) || (t in s.threads && Launching(s.threads[t], e))
    ensures Inv(Goto(s, t, pc))
  {
    hide WillStop, Launching, DroppedFits, PastStop, ThreadFits, InstsFit, ThreadsFit, Locks, ChildrenFit, Quiet,
         EntriesFit, AllDroppedFit, Registered, Watching;
    var after := Goto(s, t, pc);
    assert OnlyThread(s, after, t);
    forall e | e in s.entries
      ensures s.entries[e].holder == Some(t) <==> HeldBy(s, t) == Some(e)
    {
      HolderOf(s, e, t);
    }
    assert InstFits(after, pc);
    MoveKept(s, after, t);
  }

  lemma HolderOf(s: State, e: int, t: int)
    requires Locks(s) && e in s.entries
    ensures s.entries[e].holder == Some(t) <==> HeldBy(s, t) == Some(e)
  {
    assert HolderFits(s, e);
    assert t in s.threads ==> LockFits(s, t);
  }

  /** Resolve to Commit, when no child is spawned or published. */
  lemma LaunchKept(s: State, t: int, choice: Choice)
    requires Inv(s) && t in s.threads && IsLaunch(s.threads[t])
    requires !s.threads[t].Publish? && (s.threads[t].Spawn? ==> choice.fails || choice.child in s.launched)
    ensures Inv(LaunchStep(s, t, s.threads[t], choice))
  {
    hide Watching, ChildrenFit, AllDroppedFit, EntriesFit, Quiet, Registered, Locks, InstsFit, ThreadsFit;
    var pc := s.threads[t];
    HereFits(s, t);
    match pc {
      case Resolve(inst, e) => InsideKept(s, t, if choice.fails then Commit(inst, e, true) else CheckRunning(inst, e));
      case CheckRunning(inst, e) =>
        InsideKept(s, t, if s.entries[e].running then StopRead(e, ToPrepare(inst)) else Prepare(inst, e));
      case Prepare(inst, e) => InsideKept(s, t, if choice.fails then Commit(inst, e, true) else StartCheck(inst, e));
      case StartCheck(inst, e) => InsideKept(s, t, Spawn(inst, e));
      case Spawn(inst, e) =>
        if choice.fails {
          InsideKept(s, t, Commit(inst, e, true));
        }
    }
  }

  lemma HereFits(s: State, t: int)
    requires InstsFit(s) && ThreadsFit(s) && Locks(s) && t in s.threads
    ensures InstFits(s, s.threads[t]) && ThreadFits(s, t) && LockFits(s, t)
  {
  }

  /** Nobody else launches e while t holds its lock. */
  lemma HolderLaunches(s: State, t: int, e: int, u: int)
    requires Locks(s) && HeldBy(s, t) == Some(e) && u in s.threads && Launching(s.threads[u], e)
    ensures u == t
  {
    assert LockFits(s, t) && LockFits(s, u);
  }

  lemma LeftFits(s: State, t: int)
    requires t in s.threads ==> s.threads[t].RemoveLookup?
    ensures t in s.threads ==> InstFits(s, s.threads[t]) && ThreadFits(s, t)
  {
  }

  /** A thread ends its call, or goes on to the next removal. */
  lemma ContinueKept(s: State, t: int, rest: seq<int>)
    requires Inv(s) && t in s.threads && HeldBy(s, t).None? && !s.threads[t].RemoveWait?
    ensures Inv(Continue(s, t, rest))
  {
    hide DroppedFits, PastStop, ThreadFits, InstsFit, ThreadsFit, Locks, ChildrenFit, Quiet, EntriesFit, AllDroppedFit,
         Registered, Watching;
    var after := Continue(s, t, rest);
    assert OnlyThread(s, after, t);
    forall e | e in s.entries
      ensures s.entries[e].holder != Some(t)
    {
      HolderOf(s, e, t);
    }
    LeftFits(after, t);
    MoveKept(s, after, t);
  }

  /** A thread lets go of e: at the end of Ensure, or after a stop that left no child running. */
  lemma ReleaseKept(s: State, t: int, e: int, fingerprint: int, rest: seq<int>)
    requires Inv(s) && HeldBy(s, t) == Some(e) && e in s.entries && !s.threads[t].Publish?
    requires WillStop(s.threads[t], e) ==> !s.entries[e].running
    ensures Inv(Release(Update(s, e, s.entries[e].(fingerprint := fingerprint)), t, e, rest))
  {
    hide DroppedFits, PastStop, ThreadFits, InstsFit, ThreadsFit, Locks, ChildrenFit, EntriesFit, AllDroppedFit,
         Registered, Watching;
    var after := Release(Update(s, e, s.entries[e].(fingerprint := fingerprint)), t, e, rest);
    assert OnlyThread(s, after, t);
    forall d | d in s.entries
      ensures s.entries[d].holder == Some(t) <==> d == e
    {
      HolderOf(s, d, t);
    }
    LeftFits(after, t);
    assert forall d | WillStop(s.threads[t], d) :: d == e;
    assert forall d | t in after.threads :: !Launching(after.threads[t], d);
    hide WillStop, Launching, InstFits, Holding, EntryFits;
    if WillStop(s.threads[t], e) {
      StoppedQuiet(s, after, t, e);
    }
    MoveKept(s, after, t);
  }

  lemma StoppedQuiet(s: State, after: State, t: int, e: int)
    requires Inv(s) && HeldBy(s, t) == Some(e) && e in s.entries && !s.threads[t].Publish? && !s.entries[e].running
    requires after.live == s.live && after.launched == s.launched && OnlyThread(s, after, t) && Left(after, t)
    ensures Quiet(after, e)
  {
    OtherThreads(s, after, t);
    hide DroppedFits, AllDroppedFit, InstsFit, ThreadsFit, EntriesFit, Watching;
    forall c | c in after.live
      ensures c in after.launched ==> after.launched[c].entry != e
    {
      assert ChildFits(s, c);
      HolderOf(s, e, t);
    }
    forall u | u in after.threads
      ensures !Launching(after.threads[u], e)
    {
      if u != t && Launching(s.threads[u], e) {
        HolderLaunches(s, t, e, u);
      }
    }
  }

  /** A thread that waited takes the start lock of its entry. */
  lemma AcquireKept(s: State, t: int, e: int, pc: Pc)
    requires Inv(s) && t in s.threads && e in s.entries && s.entries[e].holder.None?
    requires (s.threads[t].WaitStart? && pc == Recheck(s.threads[t].inst, e))
      || (s.threads[t].RemoveWait? && pc == StopRead(e, ToRelease(s.threads[t].rest)))
    requires s.threads[t].entry == e
    ensures Inv(Goto(Update(s, e, s.entries[e].(holder := Some(t))), t, pc))
  {
    hide DroppedFits, InstsFit, ThreadsFit, Locks, ChildrenFit, Quiet, EntriesFit, AllDroppedFit, Registered, Watching;
    var after := Goto(Update(s, e, s.entries[e].(holder := Some(t))), t, pc);
    assert OnlyThread(s, after, t);
    forall d | d in s.entries
      ensures s.entries[d].holder != Some(t)
    {
      HolderOf(s, d, t);
    }
    HereFits(s, t);
    assert InstFits(after, pc) && ThreadFits(after, t);
    MoveKept(s, after, t);
  }

  /** The steps around the launch that create no entry. */
  lemma EnsureKept(s: State, t: int, choice: Choice)
    requires Inv(s) && t in s.threads && AroundLaunch(s.threads[t])
    requires s.threads[t].GetEntry? ==> s.threads[t].inst.id in s.procs
    ensures Inv(EnsureStep(s, t, s.threads[t], choice))
  {
    hide Watching, ChildrenFit, AllDroppedFit, Quiet, Locks, InstsFit, ThreadsFit, EntriesFit, EntryFits, LockFits;
    var pc := s.threads[t];
    HereFits(s, t);
    match pc {
      case Lookup(inst) =>
        ContinueKept(s, t, []);
        InsideKept(s, t, GetEntry(inst));
      case GetEntry(inst) => InsideKept(s, t, WaitStart(inst, s.procs[inst.id]));
      case WaitStart(inst, e) =>
        if s.entries[e].holder.None? {
          AcquireKept(s, t, e, Recheck(inst, e));
        }
      case Recheck(inst, e) =>
        ReleaseKept(s, t, e, s.entries[e].fingerprint, []);
        assert Update(s, e, s.entries[e].(fingerprint := s.entries[e].fingerprint)) == s;
        if IsIn(s, inst.id, e) {
          InsideKept(s, t, Resolve(inst, e));
        }
      case Commit(inst, e, failed) =>
        ReleaseKept(s, t, e, inst.fingerprint, []);
        InsideKept(s, t, StopRead(e, ToRelease([])));
    }
  }

  /** The steps of Remove and StopAll that drop no entry. */
  lemma RemoveKept(s: State, t: int, choice: Choice)
    requires Inv(s) && t in s.threads
      && (s.threads[t].RemoveLookup? || s.threads[t].RemoveWait? || s.threads[t].Collect?)
    requires s.threads[t].RemoveLookup? ==> s.threads[t].id !in s.procs
    ensures Inv(RemoveStep(s, t, s.threads[t], choice))
  {
    hide Watching, ChildrenFit, AllDroppedFit, Quiet, Locks, InstsFit, ThreadsFit, EntriesFit, EntryFits, LockFits;
    match s.threads[t] {
      case RemoveLookup(id, rest) => ContinueKept(s, t, rest);
      case RemoveWait(e, rest) =>
        if s.entries[e].holder.None? {
          AcquireKept(s, t, e, StopRead(e, ToRelease(rest)));
        }
      case Collect => ContinueKept(s, t, choice.ids);
    }
  }

  /** The two halves of a stop: reading what runs, and waiting for its exit. */
  lemma StopKept(s: State, t: int, choice: Choice)
    requires Inv(s) && t in s.threads && (s.threads[t].StopRead? || s.threads[t].StopWait?)
    ensures Inv(RemoveStep(s, t, s.threads[t], choice))
  {
    hide Watching, ChildrenFit, AllDroppedFit, Quiet, Locks, InstsFit, ThreadsFit, EntriesFit, LockFits;
    var pc := s.threads[t];
    HereFits(s, t);
    EntryHere(s, pc.entry);
    match pc {
      case StopRead(e, next) =>
        if s.entries[e].running {
          InsideKept(s, t, StopWait(e, s.entries[e].cmd.value, next));
        } else {
          ResumeKept(s, t, e, next);
        }
      case StopWait(e, child, next) =>
        if child in s.closed {
          ClosedUnwatched(s, child);
          ResumeKept(s, t, e, next);
        }
    }
  }

  lemma EntryHere(s: State, e: int)
    requires EntriesFit(s) && e in s.entries
    ensures EntryFits(e, s.entries[e], s.launched, s.watchers)
  {
  }

  lemma ClosedUnwatched(s: State, c: int)
    requires Watching(s) && c in s.closed
    ensures c !in s.watchers && c !in s.live
  {
  }

  lemma ResumeKept(s: State, t: int, e: int, next: Then)
    requires Inv(s) && t in s.threads && e in s.entries && !s.entries[e].running
    requires s.threads[t] == StopRead(e, next)
      || (s.threads[t].StopWait? && s.threads[t].entry == e && s.threads[t].next == next)
    ensures Inv(Resume(s, t, e, next))
  {
    hide Watching, ChildrenFit, AllDroppedFit, Quiet, Locks, InstsFit, ThreadsFit, EntriesFit, LockFits;
    HereFits(s, t);
    match next {
      case ToPrepare(inst) => InsideKept(s, t, Prepare(inst, e));
      case ToRelease(rest) =>
        ReleaseKept(s, t, e, s.entries[e].fingerprint, rest);
        assert Update(s, e, s.entries[e].(fingerprint := s.entries[e].fingerprint)) == s;
    }
  }

  // ---- Steps that create or end something ------------------------------------

  lemma SpawnDropped(s: State, t: int, choice: Choice)
    requires Inv(s) && t in s.threads && s.threads[t].Spawn? && !choice.fails && choice.child !in s.launched
    ensures AllDroppedFit(LaunchStep(s, t, s.threads[t], choice))
  {
    hide Watching, ChildrenFit, Locks, InstsFit, ThreadsFit, EntriesFit;
    var after := LaunchStep(s, t, s.threads[t], choice);
    assert OnlyThread(s, after, t);
    OtherThreads(s, after, t);
    forall d | d in after.entries
      ensures DroppedFits(after, d)
    {
      assert DroppedFits(s, d);
      if u :| u in s.threads && WillStop(s.threads[u], d) {
        assert u in after.threads && WillStop(after.threads[u], d);
      }
    }
  }

  lemma SpawnThreads(s: State, t: int, choice: Choice)
    requires Inv(s) && t in s.threads && s.threads[t].Spawn? && !choice.fails && choice.child !in s.launched
    ensures InstsFit(LaunchStep(s, t, s.threads[t], choice)) && ThreadsFit(LaunchStep(s, t, s.threads[t], choice))
  {
    hide AllDroppedFit, ChildrenFit, Locks;
    var after := LaunchStep(s, t, s.threads[t], choice);
    assert OnlyThread(s, after, t);
    OtherThreads(s, after, t);
    HereFits(s, t);
    forall u | u in after.threads
      ensures InstFits(after, after.threads[u]) && ThreadFits(after, u)
    {
      if u != t {
        assert InstFits(s, s.threads[u]) && ThreadFits(s, u);
      }
    }
  }

  lemma SpawnChildren(s: State, t: int, choice: Choice)
    requires Inv(s) && t in s.threads && s.threads[t].Spawn? && !choice.fails && choice.child !in s.launched
    ensures ChildrenFit(LaunchStep(s, t, s.threads[t], choice))
  {
    hide AllDroppedFit, InstFits, InstsFit, EntriesFit;
    var after := LaunchStep(s, t, s.threads[t], choice);
    assert OnlyThread(s, after, t);
    OtherThreads(s, after, t);
    HereFits(s, t);
    forall d | d in after.live
      ensures ChildFits(after, d)
    {
      assert d != choice.child ==> ChildFits(s, d);
    }
  }

  /** A child is born under a thread that found its Proc idle. */
  lemma SpawnKept(s: State, t: int, choice: Choice)
    requires Inv(s) && t in s.threads && s.threads[t].Spawn? && !choice.fails && choice.child !in s.launched
    ensures Inv(LaunchStep(s, t, s.threads[t], choice))
  {
    SpawnDropped(s, t, choice);
    SpawnThreads(s, t, choice);
    SpawnChildren(s, t, choice);
    hide AllDroppedFit, InstFits, InstsFit, ThreadsFit, ChildrenFit;
    var after := LaunchStep(s, t, s.threads[t], choice);
    assert OnlyThread(s, after, t);
    forall d | d in s.entries
      ensures s.entries[d].holder == Some(t) <==> d == s.threads[t].entry
    {
      HolderOf(s, d, t);
    }
    LocksMoved(s, after, t);
    Gather(after);
  }

  lemma PublishThreads(s: State, t: int, choice: Choice)
    requires Inv(s) && t in s.threads && s.threads[t].Publish?
    ensures InstsFit(LaunchStep(s, t, s.threads[t], choice)) && ThreadsFit(LaunchStep(s, t, s.threads[t], choice))
  {
    hide AllDroppedFit, ChildrenFit, Locks, EntriesFit;
    var after := LaunchStep(s, t, s.threads[t], choice);
    assert OnlyThread(s, after, t);
    OtherThreads(s, after, t);
    HereFits(s, t);
    forall u | u in after.threads
      ensures InstFits(after, after.threads[u]) && ThreadFits(after, u)
    {
      if u != t {
        HereFits(s, u);
      }
    }
  }

  lemma PublishChildren(s: State, t: int, choice: Choice)
    requires Inv(s) && t in s.threads && s.threads[t].Publish?
    ensures ChildrenFit(LaunchStep(s, t, s.threads[t], choice))
  {
    hide AllDroppedFit, InstFits, InstsFit, EntriesFit;
    var after := LaunchStep(s, t, s.threads[t], choice);
    assert OnlyThread(s, after, t);
    OtherThreads(s, after, t);
    HereFits(s, t);
    forall d | d in after.live
      ensures ChildFits(after, d)
    {
      assert ChildFits(s, d);
    }
  }

  lemma PublishEntries(s: State, t: int, choice: Choice)
    requires Inv(s) && t in s.threads && s.threads[t].Publish?
    ensures EntriesFit(LaunchStep(s, t, s.threads[t], choice)) && Watching(LaunchStep(s, t, s.threads[t], choice))
  {
    HereFits(s, t);
    hide AllDroppedFit, ChildrenFit, Locks, InstsFit, InstFits;
    var after := LaunchStep(s, t, s.threads[t], choice);
    forall e | e in after.entries
      ensures EntryFits(e, after.entries[e], after.launched, after.watchers)
    {
      assert EntryFits(e, s.entries[e], s.launched, s.watchers);
    }
  }

  /** The spawned child becomes the one its Proc says runs. */
  lemma PublishKept(s: State, t: int, choice: Choice)
    requires Inv(s) && t in s.threads && s.threads[t].Publish?
    ensures Inv(LaunchStep(s, t, s.threads[t], choice))
  {
    PublishThreads(s, t, choice);
    PublishChildren(s, t, choice);
    PublishEntries(s, t, choice);
    HereFits(s, t);
    hide InstFits, InstsFit, ThreadsFit, ChildrenFit, EntriesFit, Watching;
    var after := LaunchStep(s, t, s.threads[t], choice);
    assert OnlyThread(s, after, t);
    forall d | d in s.entries
      ensures s.entries[d].holder == Some(t) <==> d == s.threads[t].entry
    {
      HolderOf(s, d, t);
    }
    LocksMoved(s, after, t);
    assert AllDroppedFit(after) by {
      DroppedMoved(s, after, t);
    }
    hide AllDroppedFit;
    Gather(after);
  }

  lemma SameLocks(s: State, after: State)
    requires Locks(s) && after.threads == s.threads && s.entries.Keys <= after.entries.Keys
    requires forall e | e in s.entries :: after.entries[e].holder == s.entries[e].holder
    requires forall e | e in after.entries && e !in s.entries :: after.entries[e].holder.None?
    ensures Locks(after)
  {
    forall e | e in after.entries
      ensures HolderFits(after, e)
    {
      assert e in s.entries ==> HolderFits(s, e);
    }
    forall t | t in after.threads
      ensures LockFits(after, t)
    {
      assert LockFits(s, t);
    }
  }

  /** entry() registers a fresh entry for an inbound that has none. */
  lemma NewEntryKept(s: State, t: int, choice: Choice)
    requires Inv(s) && t in s.threads && s.threads[t].GetEntry? && s.threads[t].inst.id !in s.procs
      && choice.entry !in s.entries
    ensures Inv(EnsureStep(s, t, s.threads[t], choice))
  {
    var inst, e := s.threads[t].inst, choice.entry;
    var mid := Update(s, e, Entry(inst.id, None, inst.fingerprint, None, false)).(procs := s.procs[inst.id := e]);
    RegisteredKept(s, mid, e);
    hide AllDroppedFit, ChildrenFit, Locks, EntriesFit, InstsFit, ThreadsFit;
    InsideKept(mid, t, WaitStart(inst, e));
  }

  lemma RegisteredKept(s: State, mid: State, e: int)
    requires Inv(s) && e !in s.entries && e in mid.entries
    requires mid.entries[e].home !in s.procs
    requires mid.entries[e] == Entry(mid.entries[e].home, None, mid.entries[e].fingerprint, None, false)
    requires mid == s.(entries := s.entries[e := mid.entries[e]], procs := s.procs[mid.entries[e].home := e])
    ensures Inv(mid)
  {
    SameLocks(s, mid);
    forall u | u in mid.threads
      ensures InstFits(mid, mid.threads[u]) && ThreadFits(mid, u)
    {
      HereFits(s, u);
    }
    hide InstsFit, ThreadsFit, Locks;
    forall c | c in mid.live
      ensures ChildFits(mid, c)
    {
      assert ChildFits(s, c);
    }
    forall d | d in mid.entries
      ensures DroppedFits(mid, d)
    {
      assert d in s.entries ==> DroppedFits(s, d);
    }
    Gather(mid);
  }

  /** Remove takes the entry out of the registry, and from there on will stop its child. */
  lemma DropKept(s: State, t: int, choice: Choice)
    requires Inv(s) && t in s.threads && s.threads[t].RemoveLookup? && s.threads[t].id in s.procs
    ensures Inv(RemoveStep(s, t, s.threads[t], choice))
  {
    var id, e := s.threads[t].id, s.procs[s.threads[t].id];
    var after := RemoveStep(s, t, s.threads[t], choice);
    assert OnlyThread(s, after, t);
    OtherThreads(s, after, t);
    MoveThreads(s, after, t);
    ChildrenMoved(s, after, t);
    forall d | d in s.entries
      ensures s.entries[d].holder != Some(t)
    {
      HolderOf(s, d, t);
    }
    LocksMoved(s, after, t);
    hide InstsFit, ThreadsFit, Locks, ChildrenFit, EntriesFit, Watching, Launching;
    forall d | d in after.entries
      ensures DroppedFits(after, d)
    {
      assert DroppedFits(s, d);
      if u :| u in s.threads && WillStop(s.threads[u], d) {
        assert u in after.threads && WillStop(after.threads[u], d);
      }
      assert d == e ==> WillStop(after.threads[t], d);
    }
    Gather(after);
  }

  lemma ChildEventThreads(s: State, ev: Event)
    requires Inv(s) && (ev.Exit? || ev.Reap? || ev.Close?)
    ensures InstsFit(Step(s, ev)) && ThreadsFit(Step(s, ev)) && Locks(Step(s, ev))
  {
    hide ChildrenFit, AllDroppedFit;
    var after := Step(s, ev);
    SameLocks(s, after);
    hide Locks;
    forall u | u in after.threads
      ensures InstFits(after, after.threads[u]) && ThreadFits(after, u)
    {
      HereFits(s, u);
    }
  }

  lemma ChildEventDropped(s: State, ev: Event)
    requires Inv(s) && (ev.Exit? || ev.Reap? || ev.Close?)
    ensures AllDroppedFit(Step(s, ev))
  {
    hide ChildrenFit, Locks, InstsFit, ThreadsFit, EntriesFit, Watching;
    var after := Step(s, ev);
    forall d | d in after.entries
      ensures DroppedFits(after, d)
    {
      assert DroppedFits(s, d);
    }
  }

  /** A child exits, its exit is published, its done channel is closed. */
  lemma ChildEventKept(s: State, ev: Event)
    requires Inv(s) && (ev.Exit? || ev.Reap? || ev.Close?)
    ensures Inv(Step(s, ev))
  {
    var after := Step(s, ev);
    ChildEventThreads(s, ev);
    ChildEventDropped(s, ev);
    hide InstsFit, ThreadsFit, Locks, AllDroppedFit;
    forall c | c in after.live
      ensures ChildFits(after, c)
    {
      assert ChildFits(s, c);
    }
    forall e | e in after.entries
      ensures EntryFits(e, after.entries[e], after.launched, after.watchers)
    {
      assert EntryFits(e, s.entries[e], s.launched, s.watchers);
    }
    Gather(after);
  }

  /** Every step of every interleaving keeps the invariant. */
  lemma StepKeeps(s: State, ev: Event)
    requires Inv(s)
    ensures Inv(Step(s, ev))
  {
    hide Watching, ChildrenFit, AllDroppedFit, EntriesFit, Locks, InstsFit, ThreadsFit, LaunchStep, EnsureStep,
         RemoveStep;
    match ev {
      case Begin(t, call) =>
        if t !in s.threads {
          BeginKept(s, t, call);
        }
      case Act(t, choice) =>
        if t in s.threads {
          ActKept(s, t, choice);
        }
      case _ => ChildEventKept(s, ev);
    }
  }

  lemma BeginKept(s: State, t: int, call: Call)
    requires Inv(s) && t !in s.threads
    ensures Inv(Goto(s, t, First(call)))
  {
    hide Watching, ChildrenFit, AllDroppedFit, EntriesFit, Locks, InstsFit, ThreadsFit;
    InsideKept(s, t, First(call));
  }

  lemma ActKept(s: State, t: int, choice: Choice)
    requires Inv(s) && t in s.threads
    ensures Inv(Step(s, Act(t, choice)))
  {
    hide Watching, ChildrenFit, AllDroppedFit, EntriesFit, Locks, InstsFit, ThreadsFit;
    var pc := s.threads[t];
    if pc.Publish? {
      PublishKept(s, t, choice);
    } else if pc.Spawn? && !choice.fails && choice.child !in s.launched {
      SpawnKept(s, t, choice);
    } else if IsLaunch(pc) {
      LaunchKept(s, t, choice);
    } else if pc.StopRead? || pc.StopWait? {
      StopKept(s, t, choice);
    } else if pc.GetEntry? && pc.inst.id !in s.procs {
      if choice.entry !in s.entries {
        NewEntryKept(s, t, choice);
      }
    } else if pc.RemoveLookup? && pc.id in s.procs {
      DropKept(s, t, choice);
    } else if AroundLaunch(pc) {
      EnsureKept(s, t, choice);
    } else {
      RemoveKept(s, t, choice);
    }
  }

  // ---- Whole runs ------------------------------------------------------------

  /** Any interleaving of any calls and child events. */
  ghost function After(s: State, events: seq<Event>): (end: State)
    requires Inv(s)
    ensures Inv(end)
    decreases |events|
  {
    if events == [] then s
    else
      StepKeeps(s, events[0]);
      After(Step(s, events[0]), events[1..])
  }

  lemma {:induction false} AfterBoth(s: State, a: seq<Event>, b: seq<Event>)
    requires Inv(s)
    ensures After(s, a + b) == After(After(s, a), b)
    decreases |a|
  {
    InvSane(s);
    hide Inv, Step;
    if a == [] {
      assert a + b == b;
    } else {
      StepKeeps(s, a[0]);
      assert (a + b)[1..] == a[1..] + b;
      AfterBoth(Step(s, a[0]), a[1..], b);
    }
  }

  lemma AfterOne(s: State, ev: Event)
    requires Inv(s)
    ensures After(s, [ev]) == Step(s, ev)
  {
    StepKeeps(s, ev);
    hide Inv, Step;
    assert [ev][1..] == [];
  }

  /** A run from an empty registry. */
  ghost function Run(events: seq<Event>): (end: State)
    ensures Inv(end)
  {
    assert Inv(INITIAL);
    After(INITIAL, events)
  }

  /** A Proc never has two live children. */
  lemma OneLiveChild(events: seq<Event>, c: int, d: int)
    requires var s := Run(events);
      c in s.live && d in s.live && c in s.launched && d in s.launched && s.launched[c].entry == s.launched[d].entry
    ensures c == d
  {
    var s := Run(events);
    assert ChildFits(s, c) && ChildFits(s, d);
  }

  /** A live child's entry is registered, or a thread inside Remove, StopAll or a superseded
      Ensure will still stop it before it lets go of the entry. */
  lemma NoOrphan(s: State, c: int)
    requires Inv(s) && c in s.live
    ensures c in s.launched && s.launched[c].entry in s.entries
    ensures var e := s.launched[c].entry;
      Registered(s, e) || exists t :: t in s.threads && WillStop(s.threads[t], e)
  {
    hide Locks, InstsFit, ThreadsFit, EntriesFit;
    assert ChildFits(s, c);
    assert DroppedFits(s, s.launched[c].entry);
  }

  /** When no call is in progress, every live child is the one its registered entry says
      runs, and no inbound has two. */
  lemma AtRest(events: seq<Event>, c: int)
    requires Run(events).threads == map[] && c in Run(events).live
    ensures var s := Run(events);
      && c in s.launched && Registered(s, s.launched[c].entry)
      && s.entries[s.launched[c].entry].running && s.entries[s.launched[c].entry].cmd == Some(c)
      && forall d | d in s.live && d in s.launched && s.launched[d].entry in s.entries
           && s.entries[s.launched[d].entry].home == s.entries[s.launched[c].entry].home :: d == c
  {
    var s := Run(events);
    NoOrphan(s, c);
    assert ChildFits(s, c);
    forall d | d in s.live && d in s.launched && s.launched[d].entry in s.entries
      && s.entries[s.launched[d].entry].home == s.entries[s.launched[c].entry].home
      ensures d == c
    {
      NoOrphan(s, d);
      assert ChildFits(s, d);
    }
  }

  // ---- StopAll alone ---------------------------------------------------------

  predicate Names(ids: set<int>, rest: seq<int>) { forall id | id in ids :: id in rest }

  /** The only call in progress is t's StopAll, and it has every registered inbound ahead. */
  predicate OnlyStopAll(s: State, t: int) {
    && s.threads.Keys <= {t}
    && if t !in s.threads then Names(s.procs.Keys, [])
       else
         match s.threads[t]
         case Collect => true
         case RemoveLookup(id, rest) => Names(s.procs.Keys - {id}, rest)
         case RemoveWait(_, rest) => Names(s.procs.Keys, rest)
         case StopRead(_, ToRelease(rest)) => Names(s.procs.Keys, rest)
         case StopWait(_, _, ToRelease(rest)) => Names(s.procs.Keys, rest)
         case _ => false
  }

  lemma OnlyStopAllContinue(s: State, t: int, rest: seq<int>)
    requires s.threads.Keys <= {t} && Names(s.procs.Keys, rest)
    ensures OnlyStopAll(Continue(s, t, rest), t)
  {
    assert rest != [] ==> forall id | id in rest :: id == rest[0] || id in rest[1..];
  }

  lemma OnlyStopAllStep(s: State, t: int, ev: Event)
    requires Inv(s) && OnlyStopAll(s, t) && !ev.Begin?
    ensures OnlyStopAll(Step(s, ev), t)
  {
    hide Watching, ChildrenFit, AllDroppedFit, EntriesFit, Locks, InstsFit, ThreadsFit, Names, Continue;
    if ev.Act? && ev.thread in s.threads {
      assert ev.thread == t;
      match s.threads[t] {
        case Collect =>
          CollectedNames(s.procs.Keys, ev.choice.ids);
          if (set id | id in ev.choice.ids) == s.procs.Keys {
            OnlyStopAllContinue(s, t, ev.choice.ids);
          }
        case RemoveLookup(id, rest) =>
          assert (s.procs - {id}).Keys == s.procs.Keys - {id};
          if id !in s.procs {
            assert s.procs.Keys - {id} == s.procs.Keys;
            OnlyStopAllContinue(s, t, rest);
          }
        case RemoveWait(_, _) =>
        case StopRead(e, next) =>
          OnlyStopAllContinue(Update(s, e, s.entries[e].(holder := None)), t, next.rest);
        case StopWait(e, _, next) =>
          OnlyStopAllContinue(Update(s, e, s.entries[e].(holder := None)), t, next.rest);
      }
    }
  }

  lemma CollectedNames(ids: set<int>, listing: seq<int>)
    ensures (set id | id in listing) == ids ==> Names(ids, listing)
  {
    assert forall id | id in listing :: id in (set i | i in listing);
  }

  /** A StopAll nothing else interferes with leaves no entry and no child. */
  lemma {:induction false} StopAllStops(s: State, t: int, events: seq<Event>)
    requires Inv(s) && OnlyStopAll(s, t) && forall ev | ev in events :: !ev.Begin?
    requires After(s, events).threads == map[]
    ensures After(s, events).procs.Keys == {} && After(s, events).live == {}
    decreases |events|
  {
    if events == [] {
      assert forall id :: id in s.procs.Keys ==> id in [];
      forall c
        ensures c !in s.live
      {
        if c in s.live {
          NoOrphan(s, c);
        }
      }
    } else {
      OnlyStopAllStep(s, t, events[0]);
      StepKeeps(s, events[0]);
      StopAllStops(Step(s, events[0]), t, events[1..]);
    }
  }

  // ---- The two locks never deadlock ------------------------------------------

  lemma {:induction false} FreshAbove(s: set<int>) returns (x: int)
    ensures forall y | y in s :: y < x
    decreases |s|
  {
    if s == {} {
      x := 0;
    } else {
      SomeMember(s);
      var z :| z in s;
      var top := FreshAbove(s - {z});
      x := if top > z then top else z + 1;
      assert forall y | y in s :: y == z || y in s - {z};
    }
  }

  lemma SameMembers(l: seq<int>, s: set<int>)
    requires forall x :: x in l <==> x in s
    ensures (set x | x in l) == s
  {
    forall x
      ensures x in (set y | y in l) <==> x in s
    {
    }
  }

  lemma {:induction false} Listing(s: set<int>) returns (l: seq<int>)
    ensures forall x :: x in l <==> x in s
    decreases |s|
  {
    if s == {} {
      l := [];
    } else {
      SomeMember(s);
      var z :| z in s;
      var rest := Listing(s - {z});
      l := [z] + rest;
    }
  }

  /** The call can take a step of its own. */
  ghost predicate CallMoves(s: State, t: int)
    requires Sane(s)
  {
    t in s.threads && exists choice :: Step(s, Act(t, choice)) != s
  }

  /** The call waits for its child's exit, and that very child can still exit, be reaped or
      have its done channel closed. */
  predicate ExitMoves(s: State, t: int)
    requires Sane(s)
  {
    t in s.threads && s.threads[t].StopWait?
    && var c := s.threads[t].child;
    Step(s, Exit(c)) != s || Step(s, Reap(c)) != s || Step(s, Close(c)) != s
  }

  /** The start lock the call waits for is held by u. */
  predicate WaitsFor(s: State, t: int, u: int) {
    && t in s.threads && (s.threads[t].WaitStart? || s.threads[t].RemoveWait?)
    && s.threads[t].entry in s.entries && s.entries[s.threads[t].entry].holder == Some(u)
  }

  lemma ExitComing(s: State, t: int)
    requires Inv(s) && t in s.threads && s.threads[t].StopWait? && s.threads[t].child !in s.closed
    ensures ExitMoves(s, t)
  {
    hide ChildrenFit, AllDroppedFit, EntriesFit, Locks;
    HereFits(s, t);
    var c := s.threads[t].child;
    if c in s.live {
      assert c !in Step(s, Exit(c)).live;
    } else if !s.watchers[c] {
      assert Step(s, Reap(c)).watchers[c];
    } else {
      assert c in Step(s, Close(c)).closed;
    }
  }

  /** A thread that does not wait for a lock or an exit can move. */
  lemma ThreadMoves(s: State, t: int)
    requires Inv(s) && t in s.threads && !s.threads[t].WaitStart? && !s.threads[t].RemoveWait?
    requires s.threads[t].StopWait? ==> s.threads[t].child in s.closed
    ensures CallMoves(s, t)
  {
    hide ChildrenFit, AllDroppedFit, EntriesFit, Locks, Watching, InstsFit, ThreadsFit, Registered, IsIn;
    var e := FreshAbove(s.entries.Keys);
    var ids := Listing(s.procs.Keys);
    SameMembers(ids, s.procs.Keys);
    var choice := Choice(false, true, 0, e, ids);
    var after := Step(s, Act(t, choice));
    if s.threads[t].Publish? {
      assert after.threads[t].Commit?;
    } else {
      assert t !in after.threads || after.threads[t] != s.threads[t];
    }
  }

  lemma LockFree(s: State, t: int)
    requires Inv(s) && t in s.threads && (s.threads[t].WaitStart? || s.threads[t].RemoveWait?)
    requires s.entries[s.threads[t].entry].holder.None?
    ensures CallMoves(s, t)
  {
    hide ChildrenFit, AllDroppedFit, EntriesFit, Locks, Watching, InstsFit, ThreadsFit;
    var after := Step(s, Act(t, Choice(false, false, 0, 0, [])));
    assert after.threads[t] != s.threads[t];
  }

  lemma NotWaiting(s: State, t: int)
    requires Inv(s) && t in s.threads && !s.threads[t].WaitStart? && !s.threads[t].RemoveWait?
    ensures CallMoves(s, t) || ExitMoves(s, t)
  {
    hide Inv, Step;
    if s.threads[t].StopWait? && s.threads[t].child !in s.closed {
      ExitComing(s, t);
    } else {
      ThreadMoves(s, t);
    }
  }

  /** Whatever the interleaving, no call is stuck: it can take a step of its own, or the child
      it waits for can still be reaped, or the lock it waits for is held by another call of
      which one of the two is true. So the two kinds of lock never deadlock. */
  lemma NoDeadlock(events: seq<Event>, t: int)
    requires t in Run(events).threads
    ensures var s := Run(events);
      || CallMoves(s, t) || ExitMoves(s, t)
      || exists u :: u != t && WaitsFor(s, t, u) && (CallMoves(s, u) || ExitMoves(s, u))
  {
    var s := Run(events);
    var pc := s.threads[t];
    if pc.WaitStart? || pc.RemoveWait? {
      if s.entries[pc.entry].holder.None? {
        LockFree(s, t);
      } else {
        var u := s.entries[pc.entry].holder.value;
        HolderHolds(s, pc.entry);
        hide Inv, Step;
        NotWaiting(s, u);
        assert u != t && WaitsFor(s, t, u);
      }
    } else {
      NotWaiting(s, t);
    }
  }

  /** A start lock's holder is a call that waits for no start lock. */
  lemma HolderHolds(s: State, e: int)
    requires Inv(s) && e in s.entries && s.entries[e].holder.Some?
    ensures var u := s.entries[e].holder.value;
      u in s.threads && !s.threads[u].WaitStart? && !s.threads[u].RemoveWait?
  {
    assert HolderFits(s, e);
  }

  /** A state in which a call waits for a lock nobody will release. */
  lemma StuckIsStuck(s: State, t: int, gone: int)
    requires Sane(s) && WaitsFor(s, t, gone) && gone !in s.threads
    ensures !CallMoves(s, t) && !ExitMoves(s, t) && !CallMoves(s, gone) && !ExitMoves(s, gone) && !Inv(s)
  {
    assert !HolderFits(s, s.threads[t].entry);
  }

  // ---- Calls only go forward -------------------------------------------------

  /** How many steps of its own a call has ahead at most, once StopAll has its list. */
  function Ahead(pc: Pc): nat {
    match pc
    case Lookup(_) => 17
    case GetEntry(_) => 16
    case WaitStart(_, _) => 15
    case Recheck(_, _) => 14
    case Resolve(_, _) => 13
    case CheckRunning(_, _) => 12
    case StopRead(_, next) => if next.ToPrepare? then 11 else 2 + 4 * |next.rest|
    case StopWait(_, _, next) => if next.ToPrepare? then 10 else 1 + 4 * |next.rest|
    case Prepare(_, _) => 9
    case StartCheck(_, _) => 8
    case Spawn(_, _) => 7
    case Publish(_, _, _) => 6
    case Commit(_, _, _) => 5
    case RemoveLookup(_, rest) => 4 + 4 * |rest|
    case RemoveWait(_, rest) => 3 + 4 * |rest|
    case Collect => 0
  }

  predicate Advances(pc: Pc, next: Pc) { !next.Collect? && (pc.Collect? || Ahead(next) < Ahead(pc)) }

  lemma ContinueAdvances(s: State, t: int, rest: seq<int>)
    ensures var after := Continue(s, t, rest);
      t in after.threads ==> after.threads[t].RemoveLookup? && Ahead(after.threads[t]) == 4 * |rest|
  {
  }

  lemma ResumeAdvances(s: State, t: int, e: int, next: Then)
    requires e in s.entries
    ensures var after := Resume(s, t, e, next);
      t in after.threads ==>
        !after.threads[t].Collect? && Ahead(after.threads[t]) == if next.ToPrepare? then 9 else 4 * |next.rest|
  {
    hide Continue;
    if next.ToRelease? {
      ContinueAdvances(Update(s, e, s.entries[e].(holder := None)), t, next.rest);
    }
  }

  lemma RemoveAdvances(s: State, t: int, choice: Choice)
    requires Sane(s) && t in s.threads && !IsLaunch(s.threads[t]) && !AroundLaunch(s.threads[t])
    ensures var after := RemoveStep(s, t, s.threads[t], choice);
      after == s || t !in after.threads || Advances(s.threads[t], after.threads[t])
  {
    assert EntryOf(s.threads[t]).Some? ==> EntryOf(s.threads[t]).value in s.entries;
    hide Sane, Resume, Continue;
    match s.threads[t] {
      case StopRead(e, next) => ResumeAdvances(s, t, e, next);
      case StopWait(e, _, next) => ResumeAdvances(s, t, e, next);
      case RemoveLookup(_, rest) => ContinueAdvances(s, t, rest);
      case RemoveWait(_, _) =>
      case Collect => ContinueAdvances(s, t, choice.ids);
    }
  }

  lemma EnsureAdvances(s: State, t: int, choice: Choice)
    requires Sane(s) && t in s.threads && AroundLaunch(s.threads[t])
    ensures var after := EnsureStep(s, t, s.threads[t], choice);
      after == s || t !in after.threads || Advances(s.threads[t], after.threads[t])
  {
    hide Handled, Deferred, IsIn, Sane;
  }

  /** A step of a call ends it or leaves it fewer steps of its own than before: nobody spins. */
  lemma StepAdvances(s: State, t: int, choice: Choice)
    requires Sane(s) && t in s.threads
    ensures var after := Step(s, Act(t, choice));
      after == s || t !in after.threads || Advances(s.threads[t], after.threads[t])
  {
    hide EnsureStep, RemoveStep, Advances;
    if AroundLaunch(s.threads[t]) {
      hide LaunchStep;
      EnsureAdvances(s, t, choice);
    } else if !IsLaunch(s.threads[t]) {
      hide LaunchStep;
      RemoveAdvances(s, t, choice);
    } else {
      LaunchAdvances(s, t, choice);
    }
  }

  lemma LaunchAdvances(s: State, t: int, choice: Choice)
    requires Sane(s) && t in s.threads && IsLaunch(s.threads[t])
    ensures var after := LaunchStep(s, t, s.threads[t], choice);
      after == s || t !in after.threads || Advances(s.threads[t], after.threads[t])
  {
  }
}

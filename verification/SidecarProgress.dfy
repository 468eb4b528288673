/** What an Ensure does when nothing hinders it: it starts the inbound's child
    (internal/sidecar/manager.go). */
module SidecarProgress {
  import opened Text
  import opened Sidecar

  /** The inbound is registered, and its entry runs a live child spawned for this launch. */
  predicate Started(s: State, inst: Inst, past: set<int>) {
    && inst.id in s.procs && s.procs[inst.id] in s.entries
    && var e := s.procs[inst.id];
    && s.entries[e].running && s.entries[e].fingerprint == inst.fingerprint
    && s.entries[e].cmd.Some? && Fresh(s, inst, e, s.entries[e].cmd.value, past)
  }

  /** A live child of e spawned for inst, none of the past ones. */
  predicate Fresh(s: State, inst: Inst, e: int, c: int, past: set<int>) {
    c in s.live && c !in past && c in s.launched && s.launched[c] == Launch(e, inst.fingerprint)
  }

  /** An event of a run in which only t's call acts, nothing fails, no retry is deferred, and of
      the children only the past ones exit, are reaped and are closed. */
  predicate Smooth(ev: Event, t: int, past: set<int>) {
    match ev
    case Begin(_, _) => false
    case Act(u, choice) => u == t && !choice.fails && !choice.deferred
    case Exit(c) => c in past
    case Reap(c) => c in past
    case Close(c) => c in past
  }

  ghost predicate AllSmooth(events: seq<Event>, t: int, past: set<int>) {
    forall ev | ev in events :: Smooth(ev, t, past)
  }

  /** No running child has the wanted fingerprint. */
  predicate Needed(s: State, inst: Inst) {
    inst.id in s.procs ==> s.procs[inst.id] in s.entries && !Handled(s.entries[s.procs[inst.id]], inst)
  }

  /** Where t's lone Ensure can stand, and what holds there. */
  predicate On(s: State, pc: Pc, inst: Inst, past: set<int>) {
    match pc
    case Lookup(i) => i == inst && Needed(s, inst)
    case GetEntry(i) => i == inst && Needed(s, inst)
    case WaitStart(i, e) => i == inst && IsIn(s, inst.id, e) && Needed(s, inst)
    case Recheck(i, e) => i == inst && IsIn(s, inst.id, e) && Needed(s, inst)
    case Resolve(i, e) => i == inst && IsIn(s, inst.id, e)
    case CheckRunning(i, e) => i == inst && IsIn(s, inst.id, e)
    case StopRead(e, ToPrepare(i)) => i == inst && IsIn(s, inst.id, e)
    case StopWait(e, _, ToPrepare(i)) => i == inst && IsIn(s, inst.id, e)
    case Prepare(i, e) => i == inst && IsIn(s, inst.id, e)
    case StartCheck(i, e) => i == inst && IsIn(s, inst.id, e)
    case Spawn(i, e) => i == inst && IsIn(s, inst.id, e)
    case Publish(i, e, c) => i == inst && IsIn(s, inst.id, e) && Fresh(s, inst, e, c, past)
    case Commit(i, e, failed) =>
      && i == inst && !failed && IsIn(s, inst.id, e) && e in s.entries && s.entries[e].running
      && s.entries[e].cmd.Some? && Fresh(s, inst, e, s.entries[e].cmd.value, past)
    case _ => false
  }

  /** The call has not come to spawn its child. */
  predicate Before(pc: Pc) { !pc.Publish? && !pc.Commit? }

  predicate Lone(s: State, t: int, inst: Inst, past: set<int>) {
    && inst.id > 0 && past <= s.launched.Keys && s.threads.Keys <= {t}
    && (t in s.threads && Before(s.threads[t]) ==> s.launched.Keys == past)
    && if t in s.threads then On(s, s.threads[t], inst, past) else Started(s, inst, past)
  }

  lemma OneThread(s: State, t: int, pc: Pc)
    requires s.threads.Keys <= {t}
    ensures Goto(s, t, pc).threads.Keys == {t} && Finish(s, t).threads == map[]
  {
  }

  lemma LoneLaunch(s: State, t: int, choice: Choice, inst: Inst, past: set<int>)
    requires Inv(s) && Lone(s, t, inst, past) && t in s.threads && IsLaunch(s.threads[t]) && !choice.fails
    ensures Lone(LaunchStep(s, t, s.threads[t], choice), t, inst, past)
  {
    HereFits(s, t);
    hide ChildrenFit, AllDroppedFit, EntriesFit, Locks, Watching, InstsFit;
    assert ThreadFits(s, t);
    hide ThreadsFit, Inv;
  }

  lemma LoneEnsure(s: State, t: int, choice: Choice, inst: Inst, past: set<int>)
    requires Inv(s) && Lone(s, t, inst, past) && t in s.threads && AroundLaunch(s.threads[t]) && !choice.deferred
    ensures Lone(EnsureStep(s, t, s.threads[t], choice), t, inst, past)
  {
    HereFits(s, t);
    hide ChildrenFit, AllDroppedFit, EntriesFit, Locks, Watching, InstsFit;
    assert ThreadFits(s, t);
    hide ThreadsFit, Inv, LockFits, InstFits;
  }

  lemma LoneStop(s: State, t: int, choice: Choice, inst: Inst, past: set<int>)
    requires Inv(s) && Lone(s, t, inst, past) && t in s.threads && !IsLaunch(s.threads[t])
      && !AroundLaunch(s.threads[t])
    ensures Lone(RemoveStep(s, t, s.threads[t], choice), t, inst, past)
  {
    HereFits(s, t);
    hide ChildrenFit, AllDroppedFit, EntriesFit, Locks, Watching, InstsFit, ThreadsFit;
  }

  lemma LoneChild(s: State, ev: Event, t: int, inst: Inst, past: set<int>)
    requires Inv(s) && Lone(s, t, inst, past) && Smooth(ev, t, past) && !ev.Act?
    ensures Lone(Step(s, ev), t, inst, past)
  {
    hide ChildrenFit, AllDroppedFit, EntriesFit, Locks, Watching, InstsFit, ThreadsFit;
  }

  /** Every smooth step keeps a lone Ensure on its way, or done. */
  lemma LoneKept(s: State, ev: Event, t: int, inst: Inst, past: set<int>)
    requires Inv(s) && Lone(s, t, inst, past) && Smooth(ev, t, past)
    ensures Lone(Step(s, ev), t, inst, past)
  {
    if ev.Act? {
      if t in s.threads {
        if IsLaunch(s.threads[t]) {
          LoneLaunch(s, t, ev.choice, inst, past);
        } else if AroundLaunch(s.threads[t]) {
          LoneEnsure(s, t, ev.choice, inst, past);
        } else {
          LoneStop(s, t, ev.choice, inst, past);
        }
      }
    } else {
      LoneChild(s, ev, t, inst, past);
    }
    hide Lone, Inv, LaunchStep, EnsureStep, RemoveStep;
  }

  lemma LoneBegins(s: State, t: int, inst: Inst)
    requires Inv(s) && s.threads == map[] && inst.id > 0 && Needed(s, inst)
    ensures Lone(Step(s, Begin(t, Ensure(inst))), t, inst, s.launched.Keys)
    ensures Inv(Step(s, Begin(t, Ensure(inst))))
  {
    StepKeeps(s, Begin(t, Ensure(inst)));
    hide ChildrenFit, AllDroppedFit, EntriesFit, Locks, Watching, InstsFit, ThreadsFit;
  }

  lemma {:induction false} LoneRun(s: State, t: int, inst: Inst, past: set<int>, events: seq<Event>)
    requires Inv(s) && Lone(s, t, inst, past) && AllSmooth(events, t, past)
    ensures Lone(After(s, events), t, inst, past)
    decreases |events|
  {
    InvSane(s);
    hide Inv, Lone, Smooth, Step;
    if events != [] {
      assert events[0] in events;
      LoneKept(s, events[0], t, inst, past);
      StepKeeps(s, events[0]);
      LoneRun(Step(s, events[0]), t, inst, past, events[1..]);
    }
  }

  /** An Ensure that nothing hinders starts what it was asked for: whatever stood there before
      (no entry, an idle one, or one that runs another launch), and in whatever order its steps
      and the exits of former children come, it ends only with the inbound registered and a new
      live child of its own running in it. */
  lemma EnsureStarts(s: State, t: int, inst: Inst, events: seq<Event>)
    requires Inv(s) && s.threads == map[] && inst.id > 0 && Needed(s, inst)
    requires AllSmooth(events, t, s.launched.Keys)
    ensures Inv(Step(s, Begin(t, Ensure(inst))))
    ensures var end := After(Step(s, Begin(t, Ensure(inst))), events);
      end.threads.Keys <= {t} && (end.threads == map[] ==> Started(end, inst, s.launched.Keys))
  {
    LoneBegins(s, t, inst);
    LoneRun(Step(s, Begin(t, Ensure(inst))), t, inst, s.launched.Keys, events);
    hide Inv, After, On, Started, Step;
  }

  // ---- And it ends -----------------------------------------------------------

  /** The child whose exit the call waits for exits, is reaped and is closed. */
  function Exits(c: int): seq<Event> { [Exit(c), Reap(c), Close(c)] }

  lemma ExitsClose(s: State, t: int, inst: Inst, past: set<int>)
    requires Inv(s) && Lone(s, t, inst, past) && t in s.threads && s.threads[t].StopWait?
      && s.threads[t].child !in s.closed
    ensures var c := s.threads[t].child; AllSmooth(Exits(c), t, past)
    ensures var c, end := s.threads[t].child, After(s, Exits(s.threads[t].child));
      c in end.closed && end.threads == s.threads
  {
    var c := s.threads[t].child;
    HereFits(s, t);
    assert c in s.watchers && c in s.launched && s.launched[c].entry in s.entries;
    AfterExits(s, c);
    hide Lone, On;
    InvSane(s);
    InvSane(Step(s, Exit(c)));
    InvSane(Step(Step(s, Exit(c)), Reap(c)));
    hide Inv;
    ExitsSteps(s, c);
    hide Step, After;
  }

  lemma ExitsSteps(s: State, c: int)
    requires Sane(s) && Sane(Step(s, Exit(c))) && Sane(Step(Step(s, Exit(c)), Reap(c)))
    requires c in s.watchers && c in s.launched && s.launched[c].entry in s.entries
    ensures var exited := Step(s, Exit(c));
      var reaped := Step(exited, Reap(c));
      c in Step(reaped, Close(c)).closed && Step(reaped, Close(c)).threads == s.threads
  {
    hide Sane;
  }

  lemma AfterExits(s: State, c: int)
    requires Inv(s)
    ensures Inv(Step(s, Exit(c))) && Inv(Step(Step(s, Exit(c)), Reap(c)))
    ensures After(s, Exits(c)) == Step(Step(Step(s, Exit(c)), Reap(c)), Close(c))
  {
    var exited := Step(s, Exit(c));
    StepKeeps(s, Exit(c));
    var reaped := Step(exited, Reap(c));
    StepKeeps(exited, Reap(c));
    hide Inv, Step;
    AfterOne(reaped, Close(c));
    AfterOne(exited, Reap(c));
    AfterOne(s, Exit(c));
    AfterBoth(s, [Exit(c)], [Reap(c)]);
    AfterBoth(s, [Exit(c)] + [Reap(c)], [Close(c)]);
    assert [Exit(c)] + [Reap(c)] + [Close(c)] == Exits(c);
  }

  /** With a child and an entry at hand that are new, the call moves whenever it waits for no
      exit. */
  lemma SmoothMoves(s: State, t: int, inst: Inst, past: set<int>, choice: Choice)
    requires Inv(s) && Lone(s, t, inst, past) && t in s.threads
    requires s.threads[t].StopWait? ==> s.threads[t].child in s.closed
    requires choice.child !in s.launched && choice.entry !in s.entries && !choice.fails && !choice.deferred
    ensures Step(s, Act(t, choice)) != s
  {
    assert s.threads[t].WaitStart? ==> HolderFits(s, s.threads[t].entry);
    hide ChildrenFit, AllDroppedFit, EntriesFit, Locks, Watching, InstsFit, ThreadsFit;
    var after := Step(s, Act(t, choice));
    assert t !in after.threads || after.threads[t] != s.threads[t];
  }

  /** Its next step, after the exit it may wait for. */
  lemma LoneNext(s: State, t: int, inst: Inst, past: set<int>) returns (events: seq<Event>)
    requires Inv(s) && Lone(s, t, inst, past) && t in s.threads
    ensures AllSmooth(events, t, past)
    ensures var next := After(s, events); t in next.threads ==> Ahead(next.threads[t]) < Ahead(s.threads[t])
  {
    var waited := [];
    var c := if s.threads[t].StopWait? then s.threads[t].child else 0;
    if s.threads[t].StopWait? && c !in s.closed {
      ExitsClose(s, t, inst, past);
      waited := Exits(c);
    }
    var ready := After(s, waited);
    assert ready.threads == s.threads && (s.threads[t].StopWait? ==> c in ready.closed);
    LoneRun(s, t, inst, past, waited);
    InvSane(ready);
    assert !s.threads[t].Collect?;
    hide Inv, Lone, After, Step;
    var child := FreshAbove(ready.launched.Keys);
    var entry := FreshAbove(ready.entries.Keys);
    assert child !in ready.launched.Keys && entry !in ready.entries.Keys;
    var act := Act(t, Choice(false, false, child, entry, []));
    SmoothMoves(ready, t, inst, past, act.choice);
    StepAdvances(ready, t, act.choice);
    events := waited + [act];
    AfterBoth(s, waited, [act]);
    AfterOne(ready, act);
  }

  lemma {:induction false} LoneEnds(s: State, t: int, inst: Inst, past: set<int>) returns (events: seq<Event>)
    requires Inv(s) && Lone(s, t, inst, past)
    ensures AllSmooth(events, t, past) && After(s, events).threads == map[]
    decreases if t in s.threads then 1 + Ahead(s.threads[t]) else 0
  {
    assert t !in s.threads ==> s.threads == map[];
    assert After(s, []) == s;
    hide Inv, Lone, After, Smooth;
    if t !in s.threads {
      events := [];
    } else {
      var first := LoneNext(s, t, inst, past);
      LoneRun(s, t, inst, past, first);
      var rest := LoneEnds(After(s, first), t, inst, past);
      events := first + rest;
      AfterBoth(s, first, rest);
    }
  }

  /** There is such a run to its end: so an Ensure nothing hinders does start the inbound. */
  lemma EnsureEnds(s: State, t: int, inst: Inst) returns (events: seq<Event>)
    requires Inv(s) && s.threads == map[] && inst.id > 0 && Needed(s, inst)
    ensures AllSmooth(events, t, s.launched.Keys) && Inv(Step(s, Begin(t, Ensure(inst))))
    ensures var end := After(Step(s, Begin(t, Ensure(inst))), events);
      end.threads == map[] && Started(end, inst, s.launched.Keys)
  {
    LoneBegins(s, t, inst);
    events := LoneEnds(Step(s, Begin(t, Ensure(inst))), t, inst, s.launched.Keys);
    EnsureStarts(s, t, inst, events);
    hide Inv, Started, Step, After;
  }

  /** A retry that is deferred starts nothing: the call ends at its first check. */
  lemma DeferredWaits(s: State, t: int, inst: Inst, choice: Choice)
    requires Inv(s) && s.threads == map[] && inst.id > 0 && choice.deferred && inst.id in s.procs
    requires var entry := s.entries[s.procs[inst.id]]; !entry.running && entry.fingerprint == inst.fingerprint
    ensures Inv(Step(s, Begin(t, Ensure(inst)))) && Step(Step(s, Begin(t, Ensure(inst))), Act(t, choice)) == s
  {
    StepKeeps(s, Begin(t, Ensure(inst)));
    hide Inv;
    assert s.threads[t := Lookup(inst)] - {t} == s.threads;
  }

  // ---- Remove ----------------------------------------------------------------

  /** The only call in progress is t's removal of the inbound, or it is over. */
  predicate OnlyRemove(s: State, t: int, id: int) {
    && s.threads.Keys <= {t}
    && if t in s.threads && s.threads[t].RemoveLookup? then s.threads[t] == RemoveLookup(id, [])
       else
         && id !in s.procs
         && (t in s.threads ==>
               match s.threads[t]
               case RemoveWait(_, rest) => rest == []
               case StopRead(_, next) => next == ToRelease([])
               case StopWait(_, _, next) => next == ToRelease([])
               case _ => false)
  }

  lemma OnlyRemoveStep(s: State, t: int, id: int, ev: Event)
    requires Inv(s) && OnlyRemove(s, t, id) && !ev.Begin?
    ensures OnlyRemove(Step(s, ev), t, id)
  {
    hide Watching, ChildrenFit, AllDroppedFit, EntriesFit, Locks, InstsFit, ThreadsFit;
  }

  /** A Remove nothing else interferes with leaves the inbound without entry and without child. */
  lemma {:induction false} RemoveStops(s: State, t: int, id: int, events: seq<Event>)
    requires Inv(s) && OnlyRemove(s, t, id) && forall ev | ev in events :: !ev.Begin?
    requires After(s, events).threads == map[]
    ensures var end := After(s, events);
      && id !in end.procs
      && forall c | c in end.live ::
        c in end.launched && end.launched[c].entry in end.entries && end.entries[end.launched[c].entry].home != id
    decreases |events|
  {
    if events == [] {
      forall c | c in s.live
        ensures c in s.launched && s.launched[c].entry in s.entries && s.entries[s.launched[c].entry].home != id
      {
        NoOrphan(s, c);
      }
    } else {
      InvSane(s);
      hide Inv, OnlyRemove, Step;
      assert events[0] in events;
      OnlyRemoveStep(s, t, id, events[0]);
      StepKeeps(s, events[0]);
      RemoveStops(Step(s, events[0]), t, id, events[1..]);
    }
  }
}

/** What the supervisor's fast path may conclude: whether the running child was spawned for
    the fingerprint the entry carries (internal/sidecar/manager.go). */
module SidecarFingerprint {
  import opened Text
  import opened Sidecar

  /** The child e's Proc says runs was spawned for this fingerprint. */
  predicate RunsFor(s: State, e: int, fingerprint: int)
    requires e in s.entries
  {
    s.entries[e].running ==>
      && s.entries[e].cmd.Some? && s.entries[e].cmd.value in s.launched
      && s.launched[s.entries[e].cmd.value].fingerprint == fingerprint
  }

  predicate Committing(s: State, e: int)
    requires e in s.entries
  {
    s.entries[e].holder.Some? && s.entries[e].holder.value in s.threads
    && s.threads[s.entries[e].holder.value].Commit? && s.threads[s.entries[e].holder.value].entry == e
  }

  predicate FingerprintFits(s: State, e: int)
    requires e in s.entries
  {
    Registered(s, e) && !Committing(s, e) ==> RunsFor(s, e, s.entries[e].fingerprint)
  }

  predicate CommitFits(s: State, t: int)
    requires t in s.threads
  {
    s.threads[t].Commit? && s.threads[t].entry in s.entries ==>
      RunsFor(s, s.threads[t].entry, s.threads[t].inst.fingerprint)
  }

  predicate CommitsAt(s: State, t: int, e: int) { t in s.threads && s.threads[t].Commit? && s.threads[t].entry == e }

  /** What is stored for e, or about to be, is what its child was spawned for. */
  ghost predicate Truthful(s: State, e: int) {
    e in s.entries ==> FingerprintFits(s, e) && forall t | CommitsAt(s, t, e) :: CommitFits(s, t)
  }

  /** A launch for e fails before it stops the old child, and that child runs for another
      fingerprint than the one asked for. */
  predicate EarlyFailure(s: State, ev: Event, e: int) {
    ev.Act? && ev.thread in s.threads && ev.choice.fails
    && match s.threads[ev.thread]
       case Resolve(inst, entry) => entry == e && e in s.entries && !RunsFor(s, e, inst.fingerprint)
       case _ => false
  }

  /** A launch for e reaches its commit in any other way. */
  predicate Mends(s: State, ev: Event, e: int)
    requires Sane(s)
  {
    && ev.Act? && ev.thread in s.threads && IsLaunch(s.threads[ev.thread]) && s.threads[ev.thread].entry == e
    && CommitsAt(Step(s, ev), ev.thread, e) && !EarlyFailure(s, ev, e)
  }

  /** What a step may do to an entry whose lock its thread does not hold. */
  predicate LeftAlone(s: State, after: State, e: int)
    requires e in s.entries
  {
    && e in after.entries && after.entries[e].home == s.entries[e].home
    && after.entries[e].cmd == s.entries[e].cmd && after.entries[e].fingerprint == s.entries[e].fingerprint
    && (after.entries[e].running ==> s.entries[e].running)
    && (s.entries[e].holder.Some? ==> after.entries[e].holder == s.entries[e].holder)
    && (Registered(after, e) ==> Registered(s, e))
    && (s.entries[e].cmd.Some? && s.entries[e].cmd.value in s.launched ==>
          s.entries[e].cmd.value in after.launched
            && after.launched[s.entries[e].cmd.value] == s.launched[s.entries[e].cmd.value])
  }

  lemma LaunchLeavesAlone(s: State, t: int, choice: Choice, e: int)
    requires Sane(s) && e in s.entries && t in s.threads && IsLaunch(s.threads[t]) && s.threads[t].entry != e
    ensures LeftAlone(s, LaunchStep(s, t, s.threads[t], choice), e)
  {
  }

  lemma EnsureLeavesAlone(s: State, t: int, choice: Choice, e: int)
    requires Sane(s) && e in s.entries && t in s.threads && AroundLaunch(s.threads[t]) && HeldBy(s, t) != Some(e)
    ensures LeftAlone(s, EnsureStep(s, t, s.threads[t], choice), e)
  {
    hide Handled, Deferred;
  }

  lemma RemoveLeavesAlone(s: State, t: int, choice: Choice, e: int)
    requires Sane(s) && e in s.entries && t in s.threads && HeldBy(s, t) != Some(e)
    requires !IsLaunch(s.threads[t]) && !AroundLaunch(s.threads[t])
    ensures LeftAlone(s, RemoveStep(s, t, s.threads[t], choice), e)
  {
  }

  lemma LeavesAlone(s: State, ev: Event, e: int)
    requires Sane(s) && e in s.entries && !(ev.Act? && HeldBy(s, ev.thread) == Some(e))
    ensures LeftAlone(s, Step(s, ev), e)
  {
    hide LaunchStep, EnsureStep, RemoveStep;
    if ev.Act? && ev.thread in s.threads {
      hide LeftAlone;
      if IsLaunch(s.threads[ev.thread]) {
        LaunchLeavesAlone(s, ev.thread, ev.choice, e);
      } else if AroundLaunch(s.threads[ev.thread]) {
        EnsureLeavesAlone(s, ev.thread, ev.choice, e);
      } else {
        RemoveLeavesAlone(s, ev.thread, ev.choice, e);
      }
    }
  }

  predicate SameThread(s: State, after: State, u: int) {
    (u in s.threads <==> u in after.threads) && (u in s.threads ==> after.threads[u] == s.threads[u])
  }

  lemma LaunchOthers(s: State, t: int, choice: Choice, u: int)
    requires Sane(s) && t in s.threads && IsLaunch(s.threads[t]) && u != t
    ensures SameThread(s, LaunchStep(s, t, s.threads[t], choice), u)
  {
  }

  lemma EnsureOthers(s: State, t: int, choice: Choice, u: int)
    requires Sane(s) && t in s.threads && AroundLaunch(s.threads[t]) && u != t
    ensures SameThread(s, EnsureStep(s, t, s.threads[t], choice), u)
  {
    hide Handled, Deferred, IsIn;
  }

  lemma RemoveOthers(s: State, t: int, choice: Choice, u: int)
    requires Sane(s) && t in s.threads && !IsLaunch(s.threads[t]) && !AroundLaunch(s.threads[t]) && u != t
    ensures SameThread(s, RemoveStep(s, t, s.threads[t], choice), u)
  {
  }

  lemma OthersStay(s: State, ev: Event, u: int)
    requires Sane(s) && !(ev.Act? && ev.thread == u)
    ensures u in s.threads ==> SameThread(s, Step(s, ev), u)
    ensures u in Step(s, ev).threads && u !in s.threads ==> !Step(s, ev).threads[u].Commit?
  {
    hide LaunchStep, EnsureStep, RemoveStep;
    if ev.Act? && ev.thread in s.threads {
      if IsLaunch(s.threads[ev.thread]) {
        LaunchOthers(s, ev.thread, ev.choice, u);
      } else if AroundLaunch(s.threads[ev.thread]) {
        EnsureOthers(s, ev.thread, ev.choice, u);
      } else {
        RemoveOthers(s, ev.thread, ev.choice, u);
      }
    }
  }

  /** After one step, an entry the step left alone. */
  lemma EntryLeft(s: State, ev: Event, e: int)
    requires Inv(s) && e in s.entries && FingerprintFits(s, e)
    requires !(ev.Act? && HeldBy(s, ev.thread) == Some(e))
    ensures e in Step(s, ev).entries && FingerprintFits(Step(s, ev), e)
  {
    hide Watching, ChildrenFit, AllDroppedFit, InstsFit, ThreadsFit, Locks, Step;
    LeavesAlone(s, ev, e);
    assert EntryFits(e, s.entries[e], s.launched, s.watchers);
    if Committing(s, e) {
      HolderOf(s, e, s.entries[e].holder.value);
      OthersStay(s, ev, s.entries[e].holder.value);
    }
  }

  /** After one step of the thread that holds e's lock. */
  lemma EntryHeld(s: State, t: int, choice: Choice, e: int)
    requires Inv(s) && e in s.entries && HeldBy(s, t) == Some(e) && !EarlyFailure(s, Act(t, choice), e)
    requires FingerprintFits(s, e) && CommitFits(s, t)
    ensures e in Step(s, Act(t, choice)).entries && FingerprintFits(Step(s, Act(t, choice)), e)
  {
    hide Watching, ChildrenFit, AllDroppedFit, InstsFit, ThreadsFit, Locks, Handled, Deferred, EntriesFit;
    HolderOf(s, e, t);
    HereFits(s, t);
  }

  /** After one step, a commit of another thread. */
  lemma CommitLeft(s: State, ev: Event, u: int)
    requires Inv(s) && u in s.threads && CommitFits(s, u) && !(ev.Act? && ev.thread == u)
    ensures u in Step(s, ev).threads && CommitFits(Step(s, ev), u)
  {
    hide Watching, ChildrenFit, AllDroppedFit, InstsFit, ThreadsFit, Locks, EntriesFit, Step;
    OthersStay(s, ev, u);
    HereFits(s, u);
    if s.threads[u].Commit? {
      var e := s.threads[u].entry;
      HolderOf(s, e, u);
      if ev.Act? {
        HolderOf(s, e, ev.thread);
      }
      LeavesAlone(s, ev, e);
    }
  }

  /** A thread that has just reached its commit. */
  lemma CommitReached(s: State, t: int, choice: Choice)
    requires Inv(s) && t in s.threads && CommitFits(s, t)
    requires EntryOf(s.threads[t]).Some? ==> !EarlyFailure(s, Act(t, choice), EntryOf(s.threads[t]).value)
    requires t in Step(s, Act(t, choice)).threads
    ensures CommitFits(Step(s, Act(t, choice)), t)
  {
    HereFits(s, t);
    hide InstFits, Watching, ChildrenFit, AllDroppedFit, InstsFit, ThreadsFit, Locks, EntriesFit;
    if IsLaunch(s.threads[t]) {
      hide EnsureStep, RemoveStep;
    } else {
      hide LaunchStep, RunsFor, EnsureStep, RemoveStep, CommitFits;
      NoCallCommits(s, t, choice);
    }
  }

  lemma NoEnsureCommits(s: State, t: int, choice: Choice)
    requires Sane(s) && t in s.threads && AroundLaunch(s.threads[t])
    requires t in EnsureStep(s, t, s.threads[t], choice).threads
    ensures EnsureStep(s, t, s.threads[t], choice) == s || !EnsureStep(s, t, s.threads[t], choice).threads[t].Commit?
  {
    hide Handled, Deferred, IsIn, Sane;
  }

  predicate NoCommit(s: State, t: int) { t in s.threads ==> !s.threads[t].Commit? }

  lemma ContinueNoCommit(s: State, t: int, rest: seq<int>)
    ensures NoCommit(Continue(s, t, rest), t)
  {
  }

  lemma ResumeNoCommit(s: State, t: int, e: int, next: Then)
    requires e in s.entries
    ensures NoCommit(Resume(s, t, e, next), t)
  {
    hide Continue;
    if next.ToRelease? {
      ContinueNoCommit(Update(s, e, s.entries[e].(holder := None)), t, next.rest);
    }
  }

  lemma NoRemoveCommits(s: State, t: int, choice: Choice)
    requires Sane(s) && t in s.threads && !IsLaunch(s.threads[t]) && !AroundLaunch(s.threads[t])
    ensures RemoveStep(s, t, s.threads[t], choice) == s || NoCommit(RemoveStep(s, t, s.threads[t], choice), t)
  {
    assert EntryOf(s.threads[t]).Some? ==> EntryOf(s.threads[t]).value in s.entries;
    hide Sane, Resume, Continue;
    match s.threads[t] {
      case StopRead(e, next) => ResumeNoCommit(s, t, e, next);
      case StopWait(e, _, next) => ResumeNoCommit(s, t, e, next);
      case RemoveLookup(_, rest) => ContinueNoCommit(s, t, rest);
      case RemoveWait(_, _) =>
      case Collect => ContinueNoCommit(s, t, choice.ids);
    }
  }

  /** Only the launch reaches the commit. */
  lemma NoCallCommits(s: State, t: int, choice: Choice)
    requires Sane(s) && t in s.threads && !IsLaunch(s.threads[t]) && CommitFits(s, t)
    requires t in Step(s, Act(t, choice)).threads
    ensures CommitFits(Step(s, Act(t, choice)), t)
  {
    hide LaunchStep, EnsureStep, RemoveStep, RunsFor;
    if AroundLaunch(s.threads[t]) {
      NoEnsureCommits(s, t, choice);
    } else {
      NoRemoveCommits(s, t, choice);
    }
  }

  /** Every step but an early failure keeps what is stored for e truthful. */
  lemma TruthKept(s: State, ev: Event, e: int)
    requires Inv(s) && Truthful(s, e) && !EarlyFailure(s, ev, e)
    ensures Truthful(Step(s, ev), e)
  {
    hide EarlyFailure, FingerprintFits, CommitFits, Step, Inv;
    InvSane(s);
    var after := Step(s, ev);
    if e in after.entries {
      if e !in s.entries {
        EntryNew(s, ev, e);
      } else if ev.Act? && HeldBy(s, ev.thread) == Some(e) {
        NotCommitting(s, ev.thread);
        EntryHeld(s, ev.thread, ev.choice, e);
      } else {
        EntryLeft(s, ev, e);
      }
      forall u | CommitsAt(after, u, e)
        ensures CommitFits(after, u)
      {
        CommitStays(s, ev, u, e);
      }
    }
  }

  lemma NotCommitting(s: State, t: int)
    ensures t in s.threads && !s.threads[t].Commit? ==> CommitFits(s, t)
  {
  }

  /** After a step, whoever stands at the commit of e. */
  lemma CommitStays(s: State, ev: Event, u: int, e: int)
    requires Inv(s) && Truthful(s, e) && !EarlyFailure(s, ev, e) && CommitsAt(Step(s, ev), u, e)
    ensures CommitFits(Step(s, ev), u)
  {
    hide EarlyFailure, FingerprintFits, CommitFits, Step, Inv;
    InvSane(s);
    NotCommitting(s, u);
    if u !in s.threads {
      IdleActs(s, u, if ev.Act? then ev.choice else Choice(false, false, 0, 0, []));
      CommitNew(s, ev, u);
    } else if ev.Act? && ev.thread == u {
      CommitOrigin(s, u, ev.choice, e);
      CommitReached(s, u, ev.choice);
    } else {
      OthersStay(s, ev, u);
      CommitLeft(s, ev, u);
    }
  }

  /** The entry whose commit a thread reaches is the one it stood at. */
  lemma CommitOrigin(s: State, t: int, choice: Choice, e: int)
    requires Inv(s) && t in s.threads && CommitsAt(Step(s, Act(t, choice)), t, e)
    ensures EntryOf(s.threads[t]) == Some(e)
  {
    InvSane(s);
    hide Inv, Sane, EnsureStep, RemoveStep;
    if IsLaunch(s.threads[t]) {
    } else {
      hide LaunchStep;
      if AroundLaunch(s.threads[t]) {
        NoEnsureCommits(s, t, choice);
      } else {
        NoRemoveCommits(s, t, choice);
      }
    }
  }

  /** A launch that reaches its commit without an early failure makes it so. */
  lemma TruthMended(s: State, ev: Event, e: int)
    requires Inv(s) && Mends(s, ev, e)
    ensures Truthful(Step(s, ev), e)
  {
    var t, after := ev.thread, Step(s, ev);
    HereFits(s, t);
    NotCommitting(s, t);
    InvSane(s);
    assert e in after.entries && Committing(after, e) by {
      hide EnsureStep, RemoveStep, Inv, Sane;
    }
    hide Step, Inv, EarlyFailure, CommitFits, Sane;
    CommitReached(s, t, ev.choice);
    forall u | CommitsAt(after, u, e)
      ensures u == t
    {
      if u != t {
        OthersStay(s, ev, u);
        HereFits(s, u);
      }
    }
  }

  lemma IdleActs(s: State, t: int, choice: Choice)
    requires Sane(s)
    ensures t !in s.threads ==> Step(s, Act(t, choice)) == s
  {
    hide LaunchStep, EnsureStep, RemoveStep;
  }

  lemma EntryNew(s: State, ev: Event, e: int)
    requires Inv(s) && e in Step(s, ev).entries && e !in s.entries
    ensures FingerprintFits(Step(s, ev), e)
  {
    hide Watching, ChildrenFit, AllDroppedFit, InstsFit, ThreadsFit, Locks, EntriesFit, Handled, Deferred, Registered,
         Committing, LaunchStep, RemoveStep;
    assert ev.Act? && ev.thread in s.threads && AroundLaunch(s.threads[ev.thread]) by {
      LaunchNoEntry(s, ev);
    }
  }

  lemma LaunchNoEntry(s: State, ev: Event)
    requires Sane(s)
    ensures !(ev.Act? && ev.thread in s.threads && AroundLaunch(s.threads[ev.thread])) ==>
      Step(s, ev).entries.Keys == s.entries.Keys
  {
    hide EnsureStep;
  }

  lemma CommitNew(s: State, ev: Event, u: int)
    requires Inv(s) && u in Step(s, ev).threads && u !in s.threads && !(ev.Act? && ev.thread == u)
    ensures CommitFits(Step(s, ev), u)
  {
    hide Step;
    OthersStay(s, ev, u);
  }

  lemma RunOneMore(events: seq<Event>, n: nat)
    requires n < |events|
    ensures Run(events[..n + 1]) == Step(Run(events[..n]), events[n])
  {
    assert Inv(INITIAL);
    InvSane(Run(events[..n]));
    hide Inv, Step;
    assert events[..n + 1] == events[..n] + [events[n]];
    AfterBoth(INITIAL, events[..n], [events[n]]);
    AfterOne(Run(events[..n]), events[n]);
  }

  /** Step i is an early failure at e, and no step before n mends it. */
  ghost predicate Masked(events: seq<Event>, i: nat, n: nat, e: int)
    requires i < n <= |events|
  {
    && EarlyFailure(Run(events[..i]), events[i], e)
    && forall k | i < k < n :: !MendedIn(events, k, e)
  }

  ghost predicate MendedIn(events: seq<Event>, k: nat, e: int)
    requires k < |events|
  {
    Mends(Run(events[..k]), events[k], e)
  }

  /** Whatever fails early elsewhere: when no early failure at e is left unmended, what is stored
      for e is truthful. */
  lemma {:induction false} TruthIn(events: seq<Event>, n: nat, e: int)
    requires n <= |events| && forall i | 0 <= i < n :: !Masked(events, i, n, e)
    ensures Truthful(Run(events[..n]), e)
  {
    hide *;
    if n == 0 {
      StartTruthful(events, e);
    } else {
      var s, ev := Run(events[..n - 1]), events[n - 1];
      RunOneMore(events, n - 1);
      MaskedNow(events, n, e);
      if MendedIn(events, n - 1, e) {
        MendedMeans(events, n - 1, e);
        TruthMended(s, ev, e);
      } else {
        var before := n - 1;
        forall i | 0 <= i < before
          ensures !Masked(events, i, before, e)
        {
          MaskedNext(events, i, n, e);
        }
        TruthIn(events, n - 1, e);
        TruthKept(s, ev, e);
      }
    }
  }

  lemma StartTruthful(events: seq<Event>, e: int)
    ensures Truthful(Run(events[..0]), e)
  {
    assert events[..0] == [];
  }

  lemma MendedMeans(events: seq<Event>, k: nat, e: int)
    requires k < |events|
    ensures MendedIn(events, k, e) <==> Mends(Run(events[..k]), events[k], e)
  {
    hide Run, Mends;
  }

  lemma MaskedNow(events: seq<Event>, n: nat, e: int)
    requires 0 < n <= |events|
    ensures Masked(events, n - 1, n, e) <==> EarlyFailure(Run(events[..n - 1]), events[n - 1], e)
  {
    hide Run, EarlyFailure, MendedIn;
  }

  lemma MaskedNext(events: seq<Event>, i: nat, n: nat, e: int)
    requires i < n - 1 && n <= |events|
    ensures Masked(events, i, n, e) <==> Masked(events, i, n - 1, e) && !MendedIn(events, n - 1, e)
  {
    hide Run, EarlyFailure, MendedIn;
  }

  /** No early failure at e is left unmended. */
  ghost predicate Unmasked(events: seq<Event>, e: int) {
    forall i | 0 <= i < |events| :: !Masked(events, i, |events|, e)
  }

  lemma TruthNow(events: seq<Event>, e: int)
    requires Unmasked(events, e)
    ensures Truthful(Run(events), e)
  {
    hide Run, Truthful, Masked;
    TruthIn(events, |events|, e);
    assert events[..|events|] == events;
  }

  /** An Ensure that holds the start lock and finds its fingerprint running finds a child
      spawned for exactly that fingerprint, unless an early failure at its entry is unmended. */
  lemma RecheckTruthful(events: seq<Event>, t: int)
    requires var s := Run(events);
      t in s.threads && s.threads[t].Recheck? && Handled(s.entries[s.threads[t].entry], s.threads[t].inst)
      && IsIn(s, s.threads[t].inst.id, s.threads[t].entry)
    requires Unmasked(events, Run(events).threads[t].entry)
    ensures var s := Run(events);
      RunsFor(s, s.threads[t].entry, s.threads[t].inst.fingerprint)
  {
    var s := Run(events);
    TruthNow(events, s.threads[t].entry);
    HereFits(s, t);
    assert FingerprintFits(s, s.threads[t].entry);
  }

  /** The launch that stands before its commit on e was asked for another fingerprint. */
  predicate CommitsOther(s: State, e: int, fingerprint: int)
    requires e in s.entries
  {
    Committing(s, e) && s.threads[s.entries[e].holder.value].inst.fingerprint != fingerprint
  }

  /** The first check of Ensure holds no start lock. With no early failure at the entry unmended,
      an Ensure it sends away as handled leaves a child spawned for its fingerprint if and only
      if no launch for another fingerprint stands between its start and its commit. */
  lemma FastPathExact(events: seq<Event>, t: int, choice: Choice)
    requires var s := Run(events);
      && t in s.threads && s.threads[t].Lookup? && s.threads[t].inst.id in s.procs
      && Handled(s.entries[s.procs[s.threads[t].inst.id]], s.threads[t].inst)
      && Unmasked(events, s.procs[s.threads[t].inst.id])
    ensures var s := Run(events);
      var inst := s.threads[t].inst;
      && Step(s, Act(t, choice)) == Finish(s, t)
      && (RunsFor(s, s.procs[inst.id], inst.fingerprint) <==> !CommitsOther(s, s.procs[inst.id], inst.fingerprint))
  {
    var s := Run(events);
    var e := s.procs[s.threads[t].inst.id];
    TruthNow(events, e);
    LookupExact(s, e, s.threads[t].inst);
    EnsureActs(s, t, choice);
    hide Inv, RunsFor, CommitsOther, Step;
  }

  lemma LookupExact(s: State, e: int, inst: Inst)
    requires Inv(s) && Truthful(s, e) && IsIn(s, inst.id, e) && Handled(s.entries[e], inst)
    ensures RunsFor(s, e, inst.fingerprint) <==> !CommitsOther(s, e, inst.fingerprint)
  {
    hide Watching, ChildrenFit, AllDroppedFit, InstsFit, ThreadsFit, Locks;
    assert FingerprintFits(s, e) && EntryFits(e, s.entries[e], s.launched, s.watchers);
    if Committing(s, e) {
      assert CommitsAt(s, s.entries[e].holder.value, e);
    }
  }

  /** The events of one Ensure whose binary cannot be resolved, run alone. */
  function FailedLaunch(t: int, inst: Inst): (events: seq<Event>) {
    var ok, failed := Choice(false, false, 0, 0, []), Choice(false, true, 0, 0, []);
    [Begin(t, Ensure(inst)), Act(t, ok), Act(t, ok), Act(t, ok), Act(t, ok), Act(t, failed), Act(t, ok)]
  }

  /** The machine after the first n of those events. */
  function Stage(s: State, t: int, e: int, inst: Inst, n: nat): State
    requires e in s.entries
  {
    var held := s.(entries := s.entries[e := s.entries[e].(holder := Some(t))]);
    if n == 0 then s
    else if n == 1 then s.(threads := map[t := Lookup(inst)])
    else if n == 2 then s.(threads := map[t := GetEntry(inst)])
    else if n == 3 then s.(threads := map[t := WaitStart(inst, e)])
    else if n == 4 then held.(threads := map[t := Recheck(inst, e)])
    else if n == 5 then held.(threads := map[t := Resolve(inst, e)])
    else if n == 6 then held.(threads := map[t := Commit(inst, e, true)])
    else s.(entries := s.entries[e := s.entries[e].(fingerprint := inst.fingerprint)])
  }

  /** The situation in which an Ensure asks for another fingerprint than the stored one. */
  predicate Asked(s: State, e: int, inst: Inst) {
    && e in s.entries && s.threads == map[] && Sane(s) && Registered(s, e) && s.entries[e].holder.None?
    && inst.id > 0 && s.entries[e].home == inst.id && s.entries[e].fingerprint != inst.fingerprint
  }

  /** The machine with one call in progress. */
  function Alone(s: State, t: int, pc: Pc): State { s.(threads := map[t := pc]) }

  lemma AloneSane(s: State, t: int, pc: Pc)
    requires Sane(s) && (EntryOf(pc).Some? ==> EntryOf(pc).value in s.entries)
    ensures Sane(Alone(s, t, pc))
  {
  }

  lemma AloneMoves(s: State, t: int, pc: Pc, next: Pc)
    ensures Goto(Alone(s, t, pc), t, next) == Alone(s, t, next)
  {
    assert map[t := pc][t := next] == map[t := next];
  }

  lemma EnsureActs(s: State, t: int, choice: Choice)
    requires Sane(s) && t in s.threads && AroundLaunch(s.threads[t])
    ensures Step(s, Act(t, choice)) == EnsureStep(s, t, s.threads[t], choice)
  {
    hide Sane, EnsureStep, LaunchStep, RemoveStep;
  }

  /** The entry whose start lock t has taken. */
  function Held(s: State, t: int, e: int): State
    requires e in s.entries
  {
    Update(s, e, s.entries[e].(holder := Some(t)))
  }

  lemma HeldSane(s: State, t: int, e: int)
    requires Sane(s) && e in s.entries
    ensures Sane(Held(s, t, e))
  {
  }

  lemma EarlySteps(s: State, t: int, e: int, inst: Inst, choice: Choice)
    requires Asked(s, e, inst) && !choice.deferred
    ensures EnsureStep(Alone(s, t, Lookup(inst)), t, Lookup(inst), choice) == Alone(s, t, GetEntry(inst))
    ensures EnsureStep(Alone(s, t, GetEntry(inst)), t, GetEntry(inst), choice) == Alone(s, t, WaitStart(inst, e))
    ensures EnsureStep(Alone(s, t, WaitStart(inst, e)), t, WaitStart(inst, e), choice)
      == Alone(Held(s, t, e), t, Recheck(inst, e))
  {
    AloneMoves(s, t, Lookup(inst), GetEntry(inst));
    AloneMoves(s, t, GetEntry(inst), WaitStart(inst, e));
    AloneMoves(Held(s, t, e), t, WaitStart(inst, e), Recheck(inst, e));
    hide Sane, Goto;
    assert Alone(s, t, Lookup(inst)).procs == s.procs && Alone(s, t, Lookup(inst)).entries == s.entries;
    assert Update(Alone(s, t, WaitStart(inst, e)), e, s.entries[e].(holder := Some(t)))
      == Alone(Held(s, t, e), t, WaitStart(inst, e));
  }

  lemma RecheckStep(s: State, t: int, e: int, inst: Inst, choice: Choice)
    requires Asked(s, e, inst) && !choice.deferred
    ensures EnsureStep(Alone(Held(s, t, e), t, Recheck(inst, e)), t, Recheck(inst, e), choice)
      == Alone(Held(s, t, e), t, Resolve(inst, e))
  {
    AloneMoves(Held(s, t, e), t, Recheck(inst, e), Resolve(inst, e));
    hide Sane, Goto;
    var held := Held(s, t, e);
    assert held.procs == s.procs && held.entries[e] == s.entries[e].(holder := Some(t));
  }

  lemma ResolveStep(s: State, t: int, e: int, inst: Inst, choice: Choice)
    requires Asked(s, e, inst) && choice.fails && Sane(Alone(Held(s, t, e), t, Resolve(inst, e)))
    ensures Step(Alone(Held(s, t, e), t, Resolve(inst, e)), Act(t, choice))
      == Alone(Held(s, t, e), t, Commit(inst, e, true))
  {
    AloneMoves(Held(s, t, e), t, Resolve(inst, e), Commit(inst, e, true));
    hide Sane, Goto, EnsureStep, RemoveStep;
  }

  lemma CommitStep(s: State, t: int, e: int, inst: Inst, choice: Choice)
    requires Asked(s, e, inst)
    ensures EnsureStep(Alone(Held(s, t, e), t, Commit(inst, e, true)), t, Commit(inst, e, true), choice)
      == Update(s, e, s.entries[e].(fingerprint := inst.fingerprint))
  {
    hide Sane;
    var at := Alone(Held(s, t, e), t, Commit(inst, e, true));
    var held := s.entries[e].(holder := Some(t));
    var done := s.entries[e].(fingerprint := inst.fingerprint);
    assert at.procs == s.procs && at.entries[e] == held;
    assert s.entries[e := held][e := held.(fingerprint := inst.fingerprint)][e := done] == s.entries[e := done];
    assert at.threads - {t} == map[];
  }

  /** What the stages are. */
  lemma StageIs(s: State, t: int, e: int, inst: Inst)
    requires Asked(s, e, inst)
    ensures Stage(s, t, e, inst, 0) == s && Stage(s, t, e, inst, 1) == Alone(s, t, Lookup(inst))
    ensures Stage(s, t, e, inst, 2) == Alone(s, t, GetEntry(inst))
      && Stage(s, t, e, inst, 3) == Alone(s, t, WaitStart(inst, e))
    ensures Stage(s, t, e, inst, 4) == Alone(Held(s, t, e), t, Recheck(inst, e))
    ensures Stage(s, t, e, inst, 5) == Alone(Held(s, t, e), t, Resolve(inst, e))
    ensures Stage(s, t, e, inst, 6) == Alone(Held(s, t, e), t, Commit(inst, e, true))
    ensures Stage(s, t, e, inst, 7) == Update(s, e, s.entries[e].(fingerprint := inst.fingerprint))
  {
    hide Sane;
  }

  lemma StageSane(s: State, t: int, e: int, inst: Inst, n: nat)
    requires Asked(s, e, inst) && n < 7
    ensures Sane(Stage(s, t, e, inst, n))
  {
    hide Stage, Sane, Held, Alone;
    StageIs(s, t, e, inst);
    HeldSane(s, t, e);
    var held := Held(s, t, e);
    assert e in held.entries by {
      HeldEntries(s, t, e);
    }
    AloneSane(s, t, Lookup(inst));
    AloneSane(s, t, GetEntry(inst));
    AloneSane(s, t, WaitStart(inst, e));
    AloneSane(held, t, Recheck(inst, e));
    AloneSane(held, t, Resolve(inst, e));
    AloneSane(held, t, Commit(inst, e, true));
  }

  lemma HeldEntries(s: State, t: int, e: int)
    requires e in s.entries
    ensures e in Held(s, t, e).entries
  {
  }

  lemma BeginStep(s: State, t: int, inst: Inst)
    requires Sane(s) && s.threads == map[]
    ensures Step(s, Begin(t, Ensure(inst))) == Alone(s, t, Lookup(inst))
  {
    hide Sane;
    assert s.threads[t := Lookup(inst)] == map[t := Lookup(inst)];
  }

  lemma StageStep(s: State, t: int, e: int, inst: Inst, n: nat)
    requires Asked(s, e, inst) && n < 7
    ensures Sane(Stage(s, t, e, inst, n))
      && Step(Stage(s, t, e, inst, n), FailedLaunch(t, inst)[n]) == Stage(s, t, e, inst, n + 1)
  {
    var ok, failed := Choice(false, false, 0, 0, []), Choice(false, true, 0, 0, []);
    StageIs(s, t, e, inst);
    StageSane(s, t, e, inst, n);
    assert FailedLaunch(t, inst)[n] == if n == 0 then Begin(t, Ensure(inst)) else Act(t, if n == 5 then failed else ok);
    EarlySteps(s, t, e, inst, ok);
    RecheckStep(s, t, e, inst, ok);
    CommitStep(s, t, e, inst, ok);
    hide Stage, Sane, Step, EnsureStep, Held, FailedLaunch;
    if n == 0 {
      BeginStep(s, t, inst);
    } else if n == 5 {
      ResolveStep(s, t, e, inst, failed);
    } else {
      EnsureActs(Stage(s, t, e, inst, n), t, ok);
    }
  }

  lemma {:induction false} StagesRun(s: State, t: int, e: int, inst: Inst, n: nat)
    requires Asked(s, e, inst) && n <= 7 && Inv(Stage(s, t, e, inst, n))
    ensures After(Stage(s, t, e, inst, n), FailedLaunch(t, inst)[n..]) == Stage(s, t, e, inst, 7)
    decreases 7 - n
  {
    hide Inv, Stage, Step, FailedLaunch, Registered;
    var events := FailedLaunch(t, inst);
    SevenEvents(t, inst);
    if n < 7 {
      StageStep(s, t, e, inst, n);
      StepKeeps(Stage(s, t, e, inst, n), events[n]);
      assert events[n..][1..] == events[n + 1..];
      StagesRun(s, t, e, inst, n + 1);
    }
  }

  lemma SevenEvents(t: int, inst: Inst)
    ensures |FailedLaunch(t, inst)| == 7
  {
  }

  /** After an early failure the entry carries the new fingerprint over the old child: it
      speaks the truth exactly when that child already ran for the new fingerprint, and the
      next Ensure for it will launch nothing. */
  lemma EarlyFailureMasks(s: State, t: int, e: int, inst: Inst)
    requires Inv(s) && s.threads == map[] && Registered(s, e) && s.entries[e].running
    requires inst.id > 0 && s.entries[e].home == inst.id && s.entries[e].fingerprint != inst.fingerprint
    ensures var after := After(s, FailedLaunch(t, inst));
      && after == s.(entries := s.entries[e := s.entries[e].(fingerprint := inst.fingerprint)])
      && Handled(after.entries[e], inst)
      && (RunsFor(after, e, after.entries[e].fingerprint) <==> RunsFor(s, e, inst.fingerprint))
  {
    assert HolderFits(s, e);
    hide Watching, ChildrenFit, AllDroppedFit, InstsFit, ThreadsFit, Locks, EntriesFit;
    StagesRun(s, t, e, inst, 0);
    assert FailedLaunch(t, inst)[0..] == FailedLaunch(t, inst);
  }

  // ---- A launch seen before its commit ---------------------------------------

  /** The events of one Ensure that launches child c for an idle entry, up to its commit. */
  function Relaunch(t: int, inst: Inst, c: int): (events: seq<Event>)
    ensures |events| == 11
  {
    var ok := Choice(false, false, c, 0, []);
    [Begin(t, Ensure(inst)), Act(t, ok), Act(t, ok), Act(t, ok), Act(t, ok), Act(t, ok), Act(t, ok), Act(t, ok),
      Act(t, ok), Act(t, ok), Act(t, ok)]
  }

  /** Child c has been spawned for inst, and then published by e's Proc. */
  function Born(s: State, e: int, inst: Inst, c: int): State {
    s.(live := s.live + {c}, launched := s.launched[c := Launch(e, inst.fingerprint)])
  }

  function Up(s: State, e: int, inst: Inst, c: int): State
    requires e in s.entries
  {
    var born := Born(s, e, inst, c);
    Update(born, e, s.entries[e].(cmd := Some(c), running := true)).(watchers := s.watchers[c := false])
  }

  /** The machine after the first n of those events. */
  function LaunchStage(s: State, t: int, e: int, inst: Inst, c: int, n: nat): State
    requires e in s.entries
  {
    if n == 0 then s
    else if n == 1 then Alone(s, t, Lookup(inst))
    else if n == 2 then Alone(s, t, GetEntry(inst))
    else if n == 3 then Alone(s, t, WaitStart(inst, e))
    else if n == 4 then Alone(Held(s, t, e), t, Recheck(inst, e))
    else if n == 5 then Alone(Held(s, t, e), t, Resolve(inst, e))
    else if n == 6 then Alone(Held(s, t, e), t, CheckRunning(inst, e))
    else if n == 7 then Alone(Held(s, t, e), t, Prepare(inst, e))
    else if n == 8 then Alone(Held(s, t, e), t, StartCheck(inst, e))
    else if n == 9 then Alone(Held(s, t, e), t, Spawn(inst, e))
    else if n == 10 then Alone(Born(Held(s, t, e), e, inst, c), t, Publish(inst, e, c))
    else Alone(Up(Held(s, t, e), e, inst, c), t, Commit(inst, e, false))
  }

  lemma LaunchActs(s: State, t: int, choice: Choice)
    requires Sane(s) && t in s.threads && IsLaunch(s.threads[t])
    ensures Step(s, Act(t, choice)) == LaunchStep(s, t, s.threads[t], choice)
  {
    hide Sane, EnsureStep, LaunchStep, RemoveStep;
  }

  /** The steps of the launch itself, on a machine whose only call holds the lock of idle e. */
  lemma LaunchSteps(h: State, t: int, e: int, inst: Inst, c: int, choice: Choice)
    requires e in h.entries && !h.entries[e].running && c !in h.launched && choice == Choice(false, false, c, 0, [])
    ensures LaunchStep(Alone(h, t, Resolve(inst, e)), t, Resolve(inst, e), choice) == Alone(h, t, CheckRunning(inst, e))
    ensures LaunchStep(Alone(h, t, CheckRunning(inst, e)), t, CheckRunning(inst, e), choice)
      == Alone(h, t, Prepare(inst, e))
    ensures LaunchStep(Alone(h, t, Prepare(inst, e)), t, Prepare(inst, e), choice) == Alone(h, t, StartCheck(inst, e))
    ensures LaunchStep(Alone(h, t, StartCheck(inst, e)), t, StartCheck(inst, e), choice) == Alone(h, t, Spawn(inst, e))
  {
    AloneMoves(h, t, Resolve(inst, e), CheckRunning(inst, e));
    AloneMoves(h, t, CheckRunning(inst, e), Prepare(inst, e));
    AloneMoves(h, t, Prepare(inst, e), StartCheck(inst, e));
    AloneMoves(h, t, StartCheck(inst, e), Spawn(inst, e));
    hide Goto;
  }

  lemma BirthSteps(h: State, t: int, e: int, inst: Inst, c: int, choice: Choice)
    requires e in h.entries && !h.entries[e].running && c !in h.launched && choice == Choice(false, false, c, 0, [])
    ensures LaunchStep(Alone(h, t, Spawn(inst, e)), t, Spawn(inst, e), choice)
      == Alone(Born(h, e, inst, c), t, Publish(inst, e, c))
    ensures LaunchStep(Alone(Born(h, e, inst, c), t, Publish(inst, e, c)), t, Publish(inst, e, c), choice)
      == Alone(Up(h, e, inst, c), t, Commit(inst, e, false))
  {
    assert map[t := Spawn(inst, e)][t := Publish(inst, e, c)] == map[t := Publish(inst, e, c)];
    assert map[t := Publish(inst, e, c)][t := Commit(inst, e, false)] == map[t := Commit(inst, e, false)];
  }

  /** An Ensure asks for another fingerprint than the stored one, and no child runs. */
  predicate AskedIdle(s: State, e: int, inst: Inst, c: int) {
    Asked(s, e, inst) && !s.entries[e].running && c !in s.launched
  }

  lemma LaunchStageStep(s: State, t: int, e: int, inst: Inst, c: int, n: nat)
    requires AskedIdle(s, e, inst, c) && n < 11 && Sane(LaunchStage(s, t, e, inst, c, n))
    ensures Step(LaunchStage(s, t, e, inst, c, n), Relaunch(t, inst, c)[n]) == LaunchStage(s, t, e, inst, c, n + 1)
  {
    var ok := Choice(false, false, c, 0, []);
    var held := Held(s, t, e);
    assert Relaunch(t, inst, c)[n] == if n == 0 then Begin(t, Ensure(inst)) else Act(t, ok);
    EarlySteps(s, t, e, inst, ok);
    RecheckStep(s, t, e, inst, ok);
    LaunchSteps(held, t, e, inst, c, ok);
    BirthSteps(held, t, e, inst, c, ok);
    hide Sane, Step, EnsureStep, LaunchStep, Held, Born, Up, Relaunch;
    if n == 0 {
      BeginStep(s, t, inst);
    } else if n < 5 {
      EnsureActs(LaunchStage(s, t, e, inst, c, n), t, ok);
    } else {
      LaunchActs(LaunchStage(s, t, e, inst, c, n), t, ok);
    }
  }

  lemma {:induction false} LaunchRun(s: State, t: int, e: int, inst: Inst, c: int, n: nat)
    requires AskedIdle(s, e, inst, c) && n <= 11
    requires Inv(LaunchStage(s, t, e, inst, c, n)) && Truthful(LaunchStage(s, t, e, inst, c, n), e)
    ensures After(LaunchStage(s, t, e, inst, c, n), Relaunch(t, inst, c)[n..]) == LaunchStage(s, t, e, inst, c, 11)
    ensures Truthful(LaunchStage(s, t, e, inst, c, 11), e)
    decreases 11 - n
  {
    var events, at := Relaunch(t, inst, c), LaunchStage(s, t, e, inst, c, n);
    if n < 11 {
      assert !EarlyFailure(at, events[n], e);
      InvSane(at);
      hide Inv, Truthful, LaunchStage, Step, Relaunch, Asked, Sane;
      LaunchStageStep(s, t, e, inst, c, n);
      TruthKept(at, events[n], e);
      StepKeeps(at, events[n]);
      assert events[n..][1..] == events[n + 1..];
      LaunchRun(s, t, e, inst, c, n + 1);
    }
  }

  /** Without any failure, an Ensure that asks for the stored fingerprint again while a launch
      for another one stands before its commit is sent away as handled, and the child that
      runs was spawned for the other one. */
  lemma CommitMasks(s: State, t: int, u: int, e: int, inst: Inst, again: Inst, c: int, choice: Choice)
    requires Inv(s) && Truthful(s, e) && s.threads == map[] && Registered(s, e) && !s.entries[e].running
      && c !in s.launched
    requires inst.id > 0 && s.entries[e].home == inst.id == again.id
    requires s.entries[e].fingerprint == again.fingerprint != inst.fingerprint && u != t
    ensures var up := After(s, Relaunch(t, inst, c));
      && e in up.entries && Truthful(up, e) && Handled(up.entries[e], again) && !RunsFor(up, e, again.fingerprint)
        && CommitsOther(up, e, again.fingerprint)
      && var asked := Step(up, Begin(u, Ensure(again)));
      Inv(asked) && Step(asked, Act(u, choice)) == up
  {
    assert HolderFits(s, e);
    InvSane(s);
    LaunchRun(s, t, e, inst, c, 0);
    assert Relaunch(t, inst, c)[0..] == Relaunch(t, inst, c);
    var up := After(s, Relaunch(t, inst, c));
    UpShows(s, t, e, inst, again, c);
    hide Truthful, Relaunch, After, LaunchStage, RunsFor, CommitsOther;
    StepKeeps(up, Begin(u, Ensure(again)));
    hide Inv;
    HandledEnds(up, u, again, e, choice);
  }

  lemma UpShows(s: State, t: int, e: int, inst: Inst, again: Inst, c: int)
    requires Sane(s) && Registered(s, e) && s.entries[e].fingerprint == again.fingerprint != inst.fingerprint
      && s.entries[e].home == again.id
    ensures var up := LaunchStage(s, t, e, inst, c, 11);
      && e in up.entries && Handled(up.entries[e], again) && !RunsFor(up, e, again.fingerprint)
        && CommitsOther(up, e, again.fingerprint)
      && IsIn(up, again.id, e) && up.threads == map[t := Commit(inst, e, false)]
  {
  }

  /** An Ensure that its first check sends away leaves the machine as it was. */
  lemma HandledEnds(s: State, u: int, inst: Inst, e: int, choice: Choice)
    requires Sane(s) && u !in s.threads && IsIn(s, inst.id, e) && Handled(s.entries[e], inst)
    requires Sane(Step(s, Begin(u, Ensure(inst))))
    ensures Step(Step(s, Begin(u, Ensure(inst))), Act(u, choice)) == s
  {
    var asked := Step(s, Begin(u, Ensure(inst)));
    assert asked == Goto(s, u, Lookup(inst));
    EnsureActs(asked, u, choice);
    hide Sane, Step;
    assert s.threads[u := Lookup(inst)] - {u} == s.threads;
  }
}

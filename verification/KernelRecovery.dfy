/** Whole runs: process after process on one machine, each dying at any command, and the
    one that repairs what they left (internal/amneziawgkern/manager.go). */
module KernelRecovery {
  import opened Text
  import opened AmneziaTypes
  import opened KernelConfig
  import opened KernelHost
  import opened KernelSpec
  import opened KernelManager
  import opened KernelWanted

  datatype Operation = Ensure(d: Desired) | Reconcile(desired: seq<Desired>) | Remove(id: int) | StopAll

  /** What a boot brings besides the files and the operator's own links: the operator's rules,
      or None when the whole FORWARD chain is restored as it stood. */
  datatype Boot = Boot(rules: Option<seq<Rule>>, moduleLoaded: bool, ipForward: bool)

  /** One process: the boot it starts after, if any, the number of commands it lives for, and
      the operations it starts. */
  datatype Life = Life(boot: Option<Boot>, fuel: nat, operations: seq<Operation>)

  /** After a boot the kernel has no link, table or rule of the panel's making. */
  function Booted(h: Host, foreign: map<int, Link>, boot: Boot): Host {
    h.(links := foreign, tables := map[], rules := if boot.rules.Some? then boot.rules.value else h.rules,
       moduleLoaded := boot.moduleLoaded, ipForward := boot.ipForward)
  }

  /** The operator's own rules carry no tag of the panel's. */
  predicate Untagged(rules: seq<Rule>) { forall r | r in rules :: r.owner.None? }

  lemma {:induction false} UntaggedMine(rules: seq<Rule>, id: int)
    requires Untagged(rules)
    ensures Mine(rules, id) == []
  {
    if rules != [] {
      UntaggedMine(rules[1..], id);
    }
  }

  ghost predicate AllRecoverable(h: Host, derive: Derivation, foreign: map<int, Link>) {
    forall i :: RecoverableAt(h, derive, foreign, i)
  }

  /** A boot leaves everything the panel left provably its own, and recoverable. */
  lemma BootKeeps(h: Host, derive: Derivation, foreign: map<int, Link>, boot: Boot)
    requires Safe(h, derive, foreign) && (boot.rules.Some? ==> Untagged(boot.rules.value))
    ensures Safe(Booted(h, foreign, boot), derive, foreign)
    ensures AllRecoverable(h, derive, foreign) ==> AllRecoverable(Booted(h, foreign, boot), derive, foreign)
  {
    hide ValidOwned, ConfKey, Mine;
    var after := Booted(h, foreign, boot);
    forall id
      ensures SafeAt(after, derive, foreign, id)
      ensures RecoverableAt(h, derive, foreign, id) ==> RecoverableAt(after, derive, foreign, id)
    {
      assert SafeAt(h, derive, foreign, id);
      if boot.rules.Some? {
        UntaggedMine(boot.rules.value, id);
      }
    }
  }

  predicate OperationPrintable(op: Operation) {
    match op
    case Ensure(d) => Printable(d)
    case Reconcile(desired) => forall d | d in desired :: Printable(d)
    case _ => true
  }

  ghost predicate OperationUsable(derive: Derivation, op: Operation) {
    match op
    case Ensure(d) => UsableKey(derive, d)
    case Reconcile(desired) => forall d | d in desired :: UsableKey(derive, d)
    case _ => true
  }

  method PerformRemove(m: Manager, id: int)
    requires m.Inv()
    modifies m
    ensures m.Inv()
    ensures AllRecoverable(old(m.host), m.derive, m.foreign) ==> AllRecoverable(m.host, m.derive, m.foreign)
  {
    hide SameElsewhere, RecoverableAt, ConfKey, ValidOwned, SafeAt, IsSpec, Tracked, SameAt;
    var ok := m.Remove(id);
    m.InvSafe(id);
    forall i | RecoverableAt(old(m.host), m.derive, m.foreign, i)
      ensures RecoverableAt(m.host, m.derive, m.foreign, i)
    {
      if i != id {
        m.SameElsewhereSameAt(old(m.host), m.host, id, i);
      }
      m.RecoverableKept(old(m.host), m.host, id, i);
    }
  }

  /** One operation of a running process. */
  method Perform(m: Manager, op: Operation)
    requires m.Inv() && OperationPrintable(op)
    modifies m
    ensures m.Inv()
    ensures OperationUsable(m.derive, op) && AllRecoverable(old(m.host), m.derive, m.foreign) ==>
      AllRecoverable(m.host, m.derive, m.foreign)
  {
    hide RecoverableAt, BuildSpec, Matches, Printable, Buildable, Runs, Safe, Clean, SameAt, UsableKey, Last;
    match op
    case Ensure(d) => m.EnsureOne(d);
    case Reconcile(desired) => m.Reconcile(desired);
    case Remove(id) => PerformRemove(m, id);
    case StopAll => m.StopAll();
  }

  ghost predicate LivesPrintable(lives: seq<Life>) {
    && (forall n, k | 0 <= n < |lives| && 0 <= k < |lives[n].operations| :: OperationPrintable(lives[n].operations[k]))
    && (forall n | 0 <= n < |lives| && lives[n].boot.Some? && lives[n].boot.value.rules.Some? ::
      Untagged(lives[n].boot.value.rules.value))
  }

  ghost predicate LivesUsable(derive: Derivation, lives: seq<Life>) {
    forall n, k | 0 <= n < |lives| && 0 <= k < |lives[n].operations| :: OperationUsable(derive, lives[n].operations[k])
  }

  lemma FuelKeepsSafe(h: Host, derive: Derivation, foreign: map<int, Link>, fuel: nat)
    requires Safe(h, derive, foreign)
    ensures Safe(h.(fuel := fuel), derive, foreign)
    ensures AllRecoverable(h, derive, foreign) ==> AllRecoverable(h.(fuel := fuel), derive, foreign)
  {
    hide ValidOwned, ConfKey, Mine;
    forall id
      ensures SafeAt(h.(fuel := fuel), derive, foreign, id)
    {
      assert SafeAt(h, derive, foreign, id);
    }
    forall id | RecoverableAt(h, derive, foreign, id)
      ensures RecoverableAt(h.(fuel := fuel), derive, foreign, id)
    {
    }
  }

  /** A fresh process that executes just fuel commands ensures one inbound. Wherever it dies,
      the inbound stays recoverable when its key is usable; and when it dies with the link of a
      new inbound added and not loaded, it stays so if and only if the key is usable, for no
      later process can then remove it or bring it to any wanted state. */
  method CrashInEnsure(h: Host, derive: Derivation, ghost foreign: map<int, Link>, d: Desired, ghost later: Desired,
                       fuel: nat)
      returns (after: Host, ghost m: Manager)
    requires Safe(h, derive, foreign) && d.inst.id !in foreign && RecoverableAt(h, derive, foreign, d.inst.id)
    requires Printable(d) && BuildSpec(d).Some? && later.inst.id == d.inst.id
    ensures m.derive == derive && m.foreign == foreign
    ensures UsableKey(derive, d) ==> RecoverableAt(after, derive, foreign, d.inst.id)
    ensures fuel == 2 && Clean(h, d.inst.id) && h.moduleLoaded ==>
      && (RecoverableAt(after, derive, foreign, d.inst.id) <==> UsableKey(derive, d))
      && (m.Removable(after, d.inst.id) <==> UsableKey(derive, d))
      && (!UsableKey(derive, d) ==> !m.Ensurable(after, map[], later))
  {
    hide RecoverableAt, BuildSpec, Printable, Safe, Matches, ConfKey, Mine, SameElsewhere, ValidOwned, DeadAtAdd,
         ConfigKeptOr;
    FuelKeepsSafe(h, derive, foreign, fuel);
    FuelKeepsAt(h, derive, foreign, fuel, d.inst.id);
    var manager := new Manager(h.(fuel := fuel), derive, foreign);
    m := manager;
    var ok := manager.Ensure(d);
    after := manager.host;
    manager.InvIsSafe();
    if UsableKey(derive, d) {
      manager.EnsureRecoverable(h.(fuel := fuel), after, d, d.inst.id);
    }
    if fuel == 2 && Clean(h, d.inst.id) && h.moduleLoaded {
      manager.DeadAtAddExact(h.(fuel := fuel), d, later);
    }
  }

  lemma FuelKeepsAt(h: Host, derive: Derivation, foreign: map<int, Link>, fuel: nat, id: int)
    requires RecoverableAt(h, derive, foreign, id)
    ensures RecoverableAt(h.(fuel := fuel), derive, foreign, id)
    ensures Clean(h.(fuel := fuel), id) <==> Clean(h, id)
  {
    hide ValidOwned, ConfKey, Mine;
  }

  /** A run of any number of processes, each with its own memory, each dying at any command or
      file write, and any of them started after a boot: at the end everything the panel left is
      still provably its own. */
  method Live(start: Host, derive: Derivation, foreign: map<int, Link>, lives: seq<Life>) returns (h: Host)
    requires Safe(start, derive, foreign) && LivesPrintable(lives)
    ensures Safe(h, derive, foreign)
    ensures LivesUsable(derive, lives) && AllRecoverable(start, derive, foreign) ==> AllRecoverable(h, derive, foreign)
  {
    hide Safe, AllRecoverable, OperationPrintable, OperationUsable, Untagged;
    h := start;
    for n := 0 to |lives|
      invariant Safe(h, derive, foreign)
      invariant LivesUsable(derive, lives) && AllRecoverable(start, derive, foreign) ==>
        AllRecoverable(h, derive, foreign)
    {
      if lives[n].boot.Some? {
        BootKeeps(h, derive, foreign, lives[n].boot.value);
        h := Booted(h, foreign, lives[n].boot.value);
      }
      FuelKeepsSafe(h, derive, foreign, lives[n].fuel);
      var m := new Manager(h.(fuel := lives[n].fuel), derive, foreign);
      for k := 0 to |lives[n].operations|
        invariant m.Inv() && fresh(m) && m.derive == derive && m.foreign == foreign
        invariant LivesUsable(derive, lives) && AllRecoverable(start, derive, foreign) ==>
          AllRecoverable(m.host, derive, foreign)
      {
        Perform(m, lives[n].operations[k]);
      }
      m.InvIsSafe();
      h := m.host;
    }
  }

  /** One Reconcile by a fresh process that gets through it. */
  method Recover(crashed: Host, derive: Derivation, ghost foreign: map<int, Link>, desired: seq<Desired>)
    returns (h: Host)
    requires Safe(crashed, derive, foreign) && AllRecoverable(crashed, derive, foreign)
    requires forall d | d in desired :: Printable(d)
    ensures Safe(h, derive, foreign)
    ensures Alive(h) ==> forall i | i !in foreign && (forall d | d in desired :: d.inst.id != i) :: Clean(h, i)
    ensures Alive(h) ==> forall k | 0 <= k < |desired| && Last(desired, k) && Startable(derive, desired[k])
      && desired[k].inst.id !in foreign :: AsWanted(h, derive, desired[k])
  {
    hide RecoverableAt, BuildSpec, Printable, Startable, AsWanted, Wantable, Safe, Clean, Last;
    var m := new Manager(crashed, derive, foreign);
    m.Reconcile(desired);
    m.InvIsSafe();
    h := m.host;
  }

  /** From a machine the panel never ran on, through any crashes, to what is wanted now. */
  method CrashAndRecover(start: Host, derive: Derivation, lives: seq<Life>, fuel: nat, desired: seq<Desired>)
    returns (h: Host)
    requires start.confs == map[] && start.tables == map[] && (forall i :: Mine(start.rules, i) == [])
    requires LivesPrintable(lives) && LivesUsable(derive, lives) && forall d | d in desired :: Printable(d)
    ensures Safe(h, derive, start.links)
    ensures Alive(h) ==> forall i | i !in start.links && (forall d | d in desired :: d.inst.id != i) :: Clean(h, i)
    ensures Alive(h) ==> forall k | 0 <= k < |desired| && Last(desired, k) && Startable(derive, desired[k])
      && desired[k].inst.id !in start.links :: AsWanted(h, derive, desired[k])
  {
    hide Mine, BuildSpec, Printable, Startable, AsWanted, Clean, Last, ConfKey, ValidOwned, Matches;
    h := Live(start, derive, start.links, lives);
    FuelKeepsSafe(h, derive, start.links, fuel);
    h := Recover(h.(fuel := fuel), derive, start.links, desired);
  }
}

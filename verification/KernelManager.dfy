/** The kernel manager: the commands each operation issues, in order
    (internal/amneziawgkern/manager.go). Every contract holds for every value of
    host.fuel, so it speaks about every point at which the process may die. */
module KernelManager {
  import opened Text
  import opened AmneziaTypes
  import opened KernelConfig
  import opened KernelHost
  import opened KernelSpec
  import opened KernelWanted

  /** One interface the running process manages. */
  datatype Managed = Managed(spec: Spec, generation: nat, baselinePending: bool)

  /** What the process remembers of a live interface is what the host has. */
  ghost predicate TrackedAt(h: Host, derive: Derivation, m: Managed, generation: nat) {
    && m.generation <= generation
    && RulesRun(h, m.spec.id, m.spec.forward)
    && (m.spec.id in h.links ==> Matches(h, derive, m.spec))
  }

  ghost predicate Tracked(h: Host, derive: Derivation, ifaces: map<int, Managed>, generation: nat) {
    && (forall id | id in ifaces :: TrackedAt(h, derive, ifaces[id], generation))
    && forall a, b | a in ifaces && b in ifaces && a != b :: ifaces[a].generation != ifaces[b].generation
  }

  /** Work on one inbound leaves what is tracked of the others. */
  lemma TrackedElsewhere(h: Host, after: Host, derive: Derivation, ifaces: map<int, Managed>, now: map<int, Managed>,
                         generation: nat, generationNow: nat, id: int)
    requires Tracked(h, derive, ifaces, generation) && SameElsewhere(h, after, id)
    requires forall i | i in ifaces :: ifaces[i].spec.id == i
    requires ifaces - {id} == now - {id} && generation <= generationNow
    requires id in now ==> now[id].spec.id == id && TrackedAt(after, derive, now[id], generationNow)
    requires id in now ==>
      now[id].generation > generation || (id in ifaces && now[id].generation == ifaces[id].generation)
    ensures Tracked(after, derive, now, generationNow)
  {
    hide ConfKey, TrackedAt, SameElsewhere;
    assert forall i | i != id :: (i in now <==> i in now - {id}) && (i in ifaces <==> i in ifaces - {id});
    assert forall i | i != id && i in now :: (now - {id})[i] == (ifaces - {id})[i];
    forall i | i in now
      ensures TrackedAt(after, derive, now[i], generationNow)
      ensures i != id ==> now[i].generation <= generation
    {
      if i != id {
        TrackedStays(h, after, derive, ifaces[i], generation, generationNow, id);
      }
    }
  }

  lemma TrackedStays(h: Host, after: Host, derive: Derivation, m: Managed, generation: nat, generationNow: nat, id: int)
    requires TrackedAt(h, derive, m, generation) && SameElsewhere(h, after, id) && m.spec.id != id
    requires generation <= generationNow
    ensures TrackedAt(after, derive, m, generationNow) && m.generation <= generation
  {
    SameElsewhereAt(h, after, id, m.spec.id);
    hide ConfKey;
  }

  /** A process that has just two commands left and no link to delete first. */
  predicate DiesAtAdd(h: Host, id: int) { h.fuel == 2 && h.moduleLoaded && id !in h.links }

  /** What it leaves when it starts an inbound: it dies with the link added and not loaded. */
  function DeadAtAdd(h: Host, derive: Derivation, s: Spec): Host {
    Step(Step(h, derive, InstallConf(s.id, s.conf)), derive, LinkAdd(s.id))
  }

  class Manager {
    var ifaces: map<int, Managed>
    var generation: nat
    var host: Host
    const derive: Derivation
    /** The operator's links, which no operation may touch. */
    ghost const foreign: map<int, Link>

    constructor (host: Host, derive: Derivation, ghost foreign: map<int, Link>)
      requires Safe(host, derive, foreign)
      ensures this.host == host && this.derive == derive && this.foreign == foreign
      ensures ifaces == map[] && Inv()
    {
      this.host, this.derive, this.foreign := host, derive, foreign;
      ifaces, generation := map[], 0;
    }

    /** Holds between operations, and at every command a process may die at. */
    ghost predicate Inv()
      reads this
    {
      && Safe(host, derive, foreign)
      && (forall id | id in ifaces :: id !in foreign && IsSpec(ifaces[id].spec) && ifaces[id].spec.id == id)
      && (Alive(host) ==> Tracked(host, derive, ifaces, generation))
    }

    method Run(c: Command) returns (ok: bool)
      modifies this`host
      ensures host == Step(old(host), derive, c)
      ensures Alive(host) ==> (ok <==> !Fails(old(host), derive, c))
    {
      ok := !Fails(host, derive, c);
      host := Step(host, derive, c);
    }

    lemma SafeNow(id: int)
      requires Safe(host, derive, foreign)
      ensures SafeHere(id)
      ensures id in foreign ==> id in host.links && !Owned(host, id)
      ensures id in host.links && id !in foreign ==> Owned(host, id)
    {
    }

    lemma InvSafe(id: int)
      requires Inv()
      ensures id in host.links && id !in foreign ==> id in host.confs
    {
      SafeNow(id);
    }

    ghost predicate SafeHere(id: int)
      reads this
    {
      SafeAt(host, derive, foreign, id)
    }

    // ---- Links ---------------------------------------------------------------

    /** Deletes a link and checks it is gone. */
    method DeleteLink(id: int) returns (ok: bool)
      requires SafeHere(id) && id in host.links && id !in foreign
      modifies this`host
      ensures SafeHere(id) && SameElsewhere(old(host), host, id)
      ensures host.confs == old(host).confs && host.tables == old(host).tables && host.rules == old(host).rules
      ensures !Alive(old(host)) ==> host == old(host)
      ensures Alive(host) ==> ok && id !in host.links
    {
      var ran := Run(LinkDel(id));
      ok := id !in host.links;
    }

    /** writeConf: the rename is the one step other readers can see. */
    method WriteConf(id: int, text: string)
      requires id > 0 && id !in foreign && ValidOwned(text, id) && SafeHere(id)
      requires Alive(host) && id in host.links ==>
        host.links[id].key.None? || host.links[id].key == ConfKey(derive, text)
      modifies this`host
      ensures SafeHere(id) && SameElsewhere(old(host), host, id)
      ensures host.links == old(host).links && host.tables == old(host).tables && host.rules == old(host).rules
      ensures ConfigKeptOr(old(host), host, id, text)
      ensures !Alive(old(host)) ==> host == old(host)
      ensures Alive(host) ==> id in host.confs && host.confs[id] == text
      ensures host == Step(old(host), derive, InstallConf(id, text))
    {
      var ran := Run(InstallConf(id, text));
    }

    /** Adds a fresh link's addresses one by one. */
    method AddAddresses(s: Spec) returns (ok: bool)
      requires Alive(host) ==> s.id in host.links && host.links[s.id].addresses == {}
      modifies this`host
      ensures OnlyLink(old(host), host, s.id)
      ensures s.id in host.links ==>
        && s.id in old(host).links
        && host.links[s.id] == old(host).links[s.id].(addresses := host.links[s.id].addresses)
      ensures !Alive(old(host)) ==> host == old(host)
      ensures Alive(host) ==> s.id in host.links
      ensures Alive(host) ==> (ok <==> forall i, j | 0 <= i < j < |s.addresses| :: s.addresses[i] != s.addresses[j])
      ensures Alive(host) && ok ==> forall a | a in s.addresses :: a in host.links[s.id].addresses
    {
      ok := true;
      for i := 0 to |s.addresses|
        invariant OnlyLink(old(host), host, s.id)
        invariant s.id in host.links ==>
          && s.id in old(host).links
          && host.links[s.id] == old(host).links[s.id].(addresses := host.links[s.id].addresses)
        invariant !Alive(old(host)) ==> host == old(host)
        invariant Alive(host) ==> s.id in host.links
        invariant Alive(host) ==> forall a :: a in host.links[s.id].addresses <==> a in s.addresses[..i]
        invariant Alive(host) ==> forall k, j | 0 <= k < j < i :: s.addresses[k] != s.addresses[j]
        invariant ok
      {
        ok := Run(AddressAdd(s.id, s.addresses[i]));
        assert s.addresses[..i + 1] == s.addresses[..i] + [s.addresses[i]];
        if !ok {
          return;
        }
      }
    }

    /** createLink, on a machine whose link is gone and whose config is already installed. */
    method CreateLink(s: Spec) returns (ok: bool)
      requires s.id > 0 && SafeHere(s.id) && s.id !in foreign
      requires Alive(host) ==> s.id !in host.links && Owned(host, s.id) && host.confs[s.id] == s.conf
      modifies this`host
      ensures OnlyLink(old(host), host, s.id) && SafeHere(s.id)
      ensures !Alive(old(host)) ==> host == old(host)
      ensures Alive(host) ==> (ok <==> Acceptable(derive, s))
      ensures Alive(host) && ok ==> LinkRuns(host, derive, s) && host.links[s.id].up
      ensures old(host).fuel == 1 && old(host).moduleLoaded ==> host == Step(old(host), derive, LinkAdd(s.id))
    {
      hide ValidOwned, ConfKey, SafeAt;
      if !host.moduleLoaded {
        var ran := Run(Modprobe);
      }
      ok := BuildLink(s);
      OnlyLinkSafe(old(host), host, derive, foreign, s.id);
    }

    method BuildLink(s: Spec) returns (ok: bool)
      requires Alive(host) ==> s.id !in host.links && s.id in host.confs && host.confs[s.id] == s.conf
      modifies this`host
      ensures OnlyLink(old(host), host, s.id)
      ensures s.id in host.links && s.id !in old(host).links ==> Alive(old(host)) && KeyFits(host, derive, s.id)
      ensures !Alive(old(host)) ==> host == old(host)
      ensures Alive(host) ==> (ok <==> Acceptable(derive, s))
      ensures Alive(host) && ok ==> LinkRuns(host, derive, s) && host.links[s.id].up
      ensures old(host).fuel == 1 ==> host == Step(old(host), derive, LinkAdd(s.id))
    {
      hide ConfKey, OnlyLink;
      LinkStep(host, derive, LinkAdd(s.id), s.id);
      ok := Run(LinkAdd(s.id));
      if !ok {
        return;
      }
      ghost var added := host;
      LinkStep(host, derive, SetConf(s.id), s.id);
      ok := Run(SetConf(s.id));
      OnlyLinkTransitive(old(host), added, host, s.id);
      if !ok {
        return;
      }
      ghost var set' := host;
      ok := AddAddresses(s);
      OnlyLinkTransitive(old(host), set', host, s.id);
      if !ok {
        return;
      }
      ghost var addressed := host;
      LinkStep(host, derive, LinkUp(s.id, s.mtu), s.id);
      ok := Run(LinkUp(s.id, s.mtu));
      OnlyLinkTransitive(old(host), addressed, host, s.id);
    }

    // ---- NAT and FORWARD rules -----------------------------------------------

    /** Deletes the listed rules of one inbound, first to last. */
    method RemoveForwardRules(id: int)
      modifies this`host
      ensures OnlyEgress(old(host), host, id) && host == old(host).(rules := host.rules, fuel := host.fuel)
      ensures !Alive(old(host)) ==> host == old(host)
      ensures Mine(old(host).rules, id) == [] ==> host == old(host)
      ensures Alive(host) ==> (host.iptables ==> Mine(host.rules, id) == [])
    {
      hide Step, Mine, Others, Fails;
      if !host.iptables {
        return;
      }
      var listing := Mine(host.rules, id);
      for i := 0 to |listing|
        invariant host == old(host).(rules := host.rules, fuel := host.fuel) && host.fuel <= old(host).fuel
        invariant Others(old(host).rules, id) == Others(host.rules, id)
        invariant !Alive(old(host)) || i == 0 ==> host == old(host)
        invariant Alive(host) ==> Mine(host.rules, id) == listing[i..]
      {
        RuleDeleteStep(host, derive, id, listing[i]);
        var ran := Run(RuleDelete(listing[i]));
      }
    }

    /** Replaces the tagged rules of one inbound by the ones f asks for. */
    method SyncForwardRules(id: int, f: ForwardRules)
      modifies this`host
      ensures OnlyEgress(old(host), host, id) && host == old(host).(rules := host.rules, fuel := host.fuel)
      ensures !Alive(old(host)) ==> host == old(host)
      ensures Alive(host) ==> RulesRun(host, id, f)
    {
      hide Step, Mine, Others, Fails;
      if !host.iptables {
        return;
      }
      RemoveForwardRules(id);
      var list := ForwardList(id, f);
      for i := 0 to |list|
        invariant host == old(host).(rules := host.rules, fuel := host.fuel) && host.fuel <= old(host).fuel
        invariant Others(old(host).rules, id) == Others(host.rules, id)
        invariant !Alive(old(host)) ==> host == old(host)
        invariant Alive(host) ==>
          Mine(host.rules, id) == if i == 0 then [] else if i == 1 then [list[0]] else [list[1], list[0]]
      {
        RuleInsertStep(host, derive, id, list[i]);
        var ran := Run(RuleInsert(list[i]));
      }
    }

    /** applyEgress: NAT, when it changed, and the tagged rules of an owned inbound. */
    method ApplyEgress(s: Spec, prev: ForwardRules, natChanged: bool)
      requires s.id > 0 && SafeHere(s.id) && s.id !in foreign && (Alive(host) ==> Owned(host, s.id))
      modifies this`host
      ensures host.links == old(host).links && host.confs == old(host).confs && host.iptables == old(host).iptables
      ensures SafeHere(s.id) && SameElsewhere(old(host), host, s.id)
      ensures Alive(host) ==> if natChanged then NatRuns(host, s) else host.tables == old(host).tables
      ensures Alive(host) ==>
        if prev != s.forward then RulesRun(host, s.id, s.forward) else host.rules == old(host).rules
      ensures !Alive(old(host)) ==> host == old(host)
      ensures Alive(host) ==> (s.forward.egress != "" ==> host.ipForward)
    {
      hide Owned, SafeAt, Mine, Others, ValidOwned;
      assert OnlyEgress(host, host, s.id);
      if natChanged {
        var ran := Run(Nft(s.id, s.chain));
      }
      if s.forward.egress != "" {
        var ran := Run(EnableForwarding);
      }
      if prev != s.forward {
        SyncForwardRules(s.id, s.forward);
      }
      OnlyEgressSafe(old(host), host, derive, foreign, s.id);
    }

    // ---- One inbound ---------------------------------------------------------

    /** verifyLiveInterface: compares the live key with the one the config derives. */
    method VerifyLive(id: int, config: string) returns (ok: bool)
      requires id in host.links
      ensures ok <==> Verified(host, derive, id, config)
    {
      var private := ReadPrivateKey(config);
      if private.None? || derive(private.value).None? {
        return false;
      }
      var got := host.links[id].key;
      return got.None? || got == derive(private.value);
    }

    lemma SentinelDiffers(s: Spec)
      requires IsSpec(s)
      ensures s.forward != ForwardRules(InterfaceName(s.id), "")
    {
      assert InterfaceName(s.id)[0] == 'x';
    }

    /** Installs the config and loads it into the live link: what adopt and reconfigure share. */
    method LoadConf(s: Spec) returns (ok: bool)
      requires s.id > 0 && ValidOwned(s.conf, s.id) && SafeHere(s.id) && s.id !in foreign
      requires Alive(host) ==> s.id in host.links && ConfKey(derive, s.conf).Some?
      requires s.id in host.links ==> host.links[s.id].key.None? || host.links[s.id].key == ConfKey(derive, s.conf)
      modifies this`host
      ensures SafeHere(s.id) && SameElsewhere(old(host), host, s.id) && ConfigKeptOr(old(host), host, s.id, s.conf)
      ensures host.tables == old(host).tables && host.rules == old(host).rules
      ensures !Alive(old(host)) ==> host == old(host)
      ensures Alive(host) ==> ok && s.id in host.confs && host.confs[s.id] == s.conf
      ensures Alive(host) ==> s.id in host.links && s.id in old(host).links
      ensures Alive(host) ==> host.links[s.id] == old(host).links[s.id].(key := ConfKey(derive, s.conf), conf := s.conf)
    {
      hide ValidOwned, InterfaceSection, FingerprintText, ConfKey, SameElsewhere, Mine, Others, SafeAt, Step, Fails;
      WriteConf(s.id, s.conf);
      ghost var written := host;
      SyncSafe(host, s.id);
      ok := Run(SyncConf(s.id));
      SameElsewhereTransitive(old(host), written, host, s.id);
    }

    /** adopt takes over a verified link with the same interface section, addresses and MTU. */
    method Adopt(s: Spec) returns (ok: bool)
      requires IsSpec(s) && SafeHere(s.id) && s.id !in foreign && s.id in host.links
      requires Owned(host, s.id) && Verified(host, derive, s.id, host.confs[s.id])
      requires InterfaceSection(host.confs[s.id]) == InterfaceSection(s.conf)
      requires LinkMatches(host, s)
      modifies this`host
      ensures SafeHere(s.id) && SameElsewhere(old(host), host, s.id) && ConfigKeptOr(old(host), host, s.id, s.conf)
      ensures !Alive(old(host)) ==> host == old(host)
      ensures Alive(host) ==> ok && Matches(host, derive, s)
    {
      hide ValidOwned, InterfaceSection, FingerprintText, ConfKey, SameElsewhere, OnlyEgress, Mine, Others, SafeAt,
           Installed;
      SameKey(host.confs[s.id], s);
      ok := LoadConf(s);
      if !ok {
        return;
      }
      ghost var loaded := host;
      SentinelDiffers(s);
      ApplyEgress(s, ForwardRules(InterfaceName(s.id), ""), true);
      SameElsewhereTransitive(old(host), loaded, host, s.id);
    }

    lemma SameKey(conf: string, s: Spec)
      requires IsSpec(s) && ValidOwned(conf, s.id) && InterfaceSection(conf) == InterfaceSection(s.conf)
      ensures ConfKey(derive, conf) == ConfKey(derive, s.conf)
    {
      SameSectionSameKey(conf, s.conf, s.id);
    }

    /** One syncconf from the config on disk. */
    lemma SyncSafe(h: Host, id: int)
      requires SafeAt(h, derive, foreign, id) && id !in foreign
      ensures var after := Step(h, derive, SyncConf(id));
        && SafeAt(after, derive, foreign, id) && SameElsewhere(h, after, id)
        && after.confs == h.confs && after.tables == h.tables && after.rules == h.rules
        && (id in after.links <==> id in h.links)
      ensures h.fuel > 1 && id in h.links && id in h.confs && ConfKey(derive, h.confs[id]).Some? ==>
        var after := Step(h, derive, SyncConf(id));
        && !Fails(h, derive, SyncConf(id))
        && after.links[id] == h.links[id].(key := ConfKey(derive, h.confs[id]), conf := h.confs[id])
      ensures Alive(Step(h, derive, SyncConf(id))) ==> h.fuel > 1
      ensures !Alive(h) ==> Step(h, derive, SyncConf(id)) == h
    {
      hide ValidOwned, ConfKey;
    }

    /** reconfigure: a managed link is kept, and only its config and egress change. */
    method Reconfigure(prev: Spec, s: Spec) returns (ok: bool)
      requires IsSpec(prev) && IsSpec(s) && prev.id == s.id && prev.structFP == s.structFP
      requires SafeHere(s.id) && s.id !in foreign
      requires Alive(host) ==> Matches(host, derive, prev)
      modifies this`host
      ensures SafeHere(s.id) && SameElsewhere(old(host), host, s.id) && ConfigKeptOr(old(host), host, s.id, s.conf)
      ensures Alive(host) ==> ok && Matches(host, derive, s)
      ensures !Alive(old(host)) ==> host == old(host)
    {
      if !Alive(host) {
        return true;
      }
      hide ValidOwned, InterfaceSection, FingerprintText, ConfKey, SameElsewhere, OnlyEgress, Mine, Others, SafeAt,
           Installed;
      FingerprintInjective(prev.conf, prev.addresses, prev.mtu, s.conf, s.addresses, s.mtu);
      SameKey(prev.conf, s);
      SameElsewhereReflexive(host, s.id);
      ok := true;
      if prev.conf != s.conf {
        ok := LoadConf(s);
        if !ok {
          return;
        }
      }
      ghost var loaded := host;
      ApplyEgress(s, prev.forward, prev.chain != s.chain);
      SameElsewhereTransitive(old(host), loaded, host, s.id);
    }

    lemma SameElsewhereReflexive(h: Host, id: int)
      ensures SameElsewhere(h, h, id)
    {
    }

    /** The rebuild: until the link is deleted its own config proves it, and the next link is
        made under the next config. */
    method Rebuild(s: Spec, prev: ForwardRules) returns (ok: bool)
      requires IsSpec(s) && SafeHere(s.id) && s.id !in foreign
      requires Alive(host) && prev == s.forward ==> RulesRun(host, s.id, prev)
      modifies this`host
      ensures SafeHere(s.id) && SameElsewhere(old(host), host, s.id) && ConfigKeptOr(old(host), host, s.id, s.conf)
      ensures host.iptables == old(host).iptables
      ensures !Alive(old(host)) ==> host == old(host)
      ensures Alive(host) ==> Alive(old(host)) && (ok <==> Acceptable(derive, s))
      ensures Alive(host) && ok ==> Matches(host, derive, s) && host.links[s.id].up
      ensures Alive(host) && !ok ==>
        && s.id !in host.links && s.id in host.confs && host.confs[s.id] == s.conf
        && host.tables == old(host).tables && host.rules == old(host).rules
      ensures DiesAtAdd(old(host), s.id) ==> host == DeadAtAdd(old(host), derive, s)
    {
      hide ValidOwned, FingerprintText, ConfKey, SameElsewhere, OnlyEgress, Mine, Others, SafeAt, Installed, Acceptable;
      SameElsewhereReflexive(host, s.id);
      if s.id in host.links {
        ok := DeleteLink(s.id);
        if !ok {
          return;
        }
      }
      ghost var deleted := host;
      WriteConf(s.id, s.conf);
      SameElsewhereTransitive(old(host), deleted, host, s.id);
      ghost var written := host;
      ok := CreateLink(s);
      OnlyLinkElsewhere(written, host, s.id);
      SameElsewhereTransitive(old(host), written, host, s.id);
      ghost var created := host;
      if !ok {
        if s.id in host.links {
          DropSafe(host, s.id);
          var ran := Run(LinkDel(s.id));
          SameElsewhereTransitive(old(host), created, host, s.id);
        }
        return;
      }
      ApplyEgress(s, prev, true);
      SameElsewhereTransitive(old(host), created, host, s.id);
    }

    lemma OnlyLinkElsewhere(a: Host, b: Host, id: int)
      requires OnlyLink(a, b, id)
      ensures SameElsewhere(a, b, id)
    {
    }

    lemma DropSafe(h: Host, id: int)
      requires SafeAt(h, derive, foreign, id) && id !in foreign && id in h.links
      ensures var after := Step(h, derive, LinkDel(id));
        && SafeAt(after, derive, foreign, id) && SameElsewhere(h, after, id)
        && after.confs == h.confs && after.tables == h.tables && after.rules == h.rules && after.iptables == h.iptables
        && (Alive(after) ==> id !in after.links)
        && (!Alive(h) ==> after == h)
        && (id in after.links ==> id in h.links)
    {
      hide ValidOwned, ConfKey;
    }

    // ---- Ensure --------------------------------------------------------------

    lemma TrackedNow(id: int)
      requires Inv() && id in ifaces
      ensures Alive(host) ==> TrackedAt(host, derive, ifaces[id], generation)
    {
    }

    /** Closes an operation on one inbound. */
    lemma Settle(before: Host, ifacesBefore: map<int, Managed>, generationBefore: nat, id: int)
      requires Safe(before, derive, foreign) && SafeHere(id) && SameElsewhere(before, host, id)
      requires forall i | i in ifacesBefore ::
        i !in foreign && IsSpec(ifacesBefore[i].spec) && ifacesBefore[i].spec.id == i
      requires ifacesBefore - {id} == ifaces - {id} && generationBefore <= generation
      requires id in ifaces ==> id !in foreign && IsSpec(ifaces[id].spec) && ifaces[id].spec.id == id
      requires Alive(host) ==> Tracked(before, derive, ifacesBefore, generationBefore)
      requires Alive(host) && id in ifaces ==>
        && TrackedAt(host, derive, ifaces[id], generation)
        && (ifaces[id].generation > generationBefore
          || (id in ifacesBefore && ifaces[id].generation == ifacesBefore[id].generation))
      ensures Inv()
    {
      hide SafeAt, SameElsewhere, IsSpec, TrackedAt, Safe, Tracked;
      SafeElsewhere(before, host, derive, foreign, id);
      if Alive(host) {
        TrackedElsewhere(before, host, derive, ifacesBefore, ifaces, generationBefore, generation, id);
      }
      assert forall i | i != id && i in ifaces :: i in ifaces - {id} && (ifaces - {id})[i] == ifaces[i];
      assert forall i | i != id && i in ifaces :: i in ifacesBefore && ifacesBefore[i] == (ifacesBefore - {id})[i];
    }

    /** A config file the panel did not write is in the way of nothing here. */
    ghost predicate Readable(h: Host, id: int) {
      id in h.confs ==> ValidOwned(h.confs[id], id)
    }

    /** A link this process does not manage yet is proven the panel's own by its config. */
    ghost predicate Provable(h: Host, managed: map<int, Managed>, id: int) {
      id in h.links && id !in managed ==> id in h.confs && Verified(h, derive, id, h.confs[id])
    }

    /** The live link can be kept: managed with the same fingerprint, or adoptable. */
    ghost predicate Reusable(h: Host, managed: map<int, Managed>, s: Spec) {
      s.id in h.links &&
      if s.id in managed then managed[s.id].spec.structFP == s.structFP
      else s.id in h.confs && InterfaceSection(h.confs[s.id]) == InterfaceSection(s.conf) && LinkMatches(h, s)
    }

    /** What Ensure answers while the process lives. */
    ghost predicate Ensurable(h: Host, managed: map<int, Managed>, d: Desired) {
      && BuildSpec(d).Some?
      && Readable(h, d.inst.id)
      && Provable(h, managed, d.inst.id)
      && (Reusable(h, managed, BuildSpec(d).value) || Acceptable(derive, BuildSpec(d).value))
    }

    /** The rebuild path of ensureLocked: a new link under a new traffic generation. */
    method Start(s: Spec) returns (ok: bool)
      requires Inv() && IsSpec(s) && s.id !in foreign
      modifies this`host, this`ifaces, this`generation
      ensures Inv() && SameElsewhere(old(host), host, s.id)
      ensures ifaces - {s.id} == old(ifaces) - {s.id}
      ensures Alive(host) ==> (ok <==> Acceptable(derive, s))
      ensures ok ==>
        s.id in ifaces && ifaces[s.id] == Managed(s, generation, false) && generation == old(generation) + 1
      ensures ok && Alive(host) ==> Matches(host, derive, s)
      ensures !ok ==> ifaces == old(ifaces) && generation == old(generation)
      ensures ConfigKeptOr(old(host), host, s.id, s.conf)
      ensures Alive(host) && !ok ==> s.id !in host.links
      ensures !Alive(old(host)) ==> host == old(host)
      ensures DiesAtAdd(old(host), s.id) ==> host == DeadAtAdd(old(host), derive, s)
    {
      hide ValidOwned, FingerprintText, ConfKey, SameElsewhere, Mine, Others, SafeAt, Acceptable, Safe, Tracked,
        LinkRuns, NatRuns, Installed, IsSpec;
      var id := s.id;
      var prev := if id in ifaces then ifaces[id].spec.forward else ForwardRules(InterfaceName(id), "");
      if id in ifaces {
        TrackedNow(id);
      } else {
        SentinelDiffers(s);
      }
      SafeNow(id);
      ok := Rebuild(s, prev);
      if !ok {
        Settle(old(host), ifaces, generation, id);
        return;
      }
      generation := generation + 1;
      ifaces := ifaces[id := Managed(s, generation, false)];
      Settle(old(host), old(ifaces), old(generation), id);
    }

    /** Ensure: keep, adopt or rebuild one inbound's interface. */
    method Ensure(d: Desired) returns (ok: bool)
      requires Inv() && Printable(d)
      modifies this`host, this`ifaces, this`generation
      ensures Inv() && SameElsewhere(old(host), host, d.inst.id)
      ensures ifaces - {d.inst.id} == old(ifaces) - {d.inst.id}
      ensures Alive(host) ==> (ok <==> Ensurable(old(host), old(ifaces), d))
      ensures ok ==> BuildSpec(d).Some? && d.inst.id in ifaces && ifaces[d.inst.id].spec == BuildSpec(d).value
      ensures ok && Alive(host) ==> Matches(host, derive, BuildSpec(d).value) && AsWanted(host, derive, d)
      ensures !ok ==> ifaces == old(ifaces) && generation == old(generation)
      ensures BuildSpec(d).None? || !Readable(old(host), d.inst.id) || !Provable(old(host), old(ifaces), d.inst.id) ==>
        host == old(host)
      ensures BuildSpec(d).Some? ==> ConfigKeptOr(old(host), host, d.inst.id, BuildSpec(d).value.conf)
      ensures Alive(host) && !ok && host != old(host) ==> d.inst.id !in host.links
      ensures !Alive(old(host)) ==> host == old(host)
      ensures DiesAtAdd(old(host), d.inst.id) && d.inst.id !in old(host).confs && BuildSpec(d).Some? ==>
        host == DeadAtAdd(old(host), derive, BuildSpec(d).value)
    {
      hide ValidOwned, FingerprintText, ConfKey, SameElsewhere, Mine, Others, SafeAt, Acceptable, Safe, Tracked,
        BuildSpec, LinkRuns, NatRuns, Installed, LinkMatches, InterfaceSection, Printable, AsWanted, Wantable;
      SameElsewhereReflexive(host, d.inst.id);
      var built := BuildSpec(d);
      if built.None? {
        return false;
      }
      var s, id := built.value, d.inst.id;
      BuildSpecIsSpec(d);
      var isManaged := id in ifaces;
      var linkUp := id in host.links;
      if id in host.confs {
        var valid := ValidOwnedConfig(host.confs[id], id);
        if !valid {
          return false;
        }
      }
      SafeNow(id);
      if linkUp && !isManaged {
        if id !in host.confs {
          return false;
        }
        var verified := VerifyLive(id, host.confs[id]);
        if !verified {
          return false;
        }
      }
      assert id !in foreign;
      if linkUp && isManaged && ifaces[id].spec.structFP == s.structFP {
        var cur := ifaces[id];
        TrackedNow(id);
        ok := Reconfigure(cur.spec, s);
        if !ok {
          Settle(old(host), ifaces, generation, id);
          return;
        }
        ifaces := ifaces[id := cur.(spec := s)];
        Settle(old(host), old(ifaces), old(generation), id);
        WantedNow(d);
        return true;
      }
      if linkUp && !isManaged && InterfaceSection(host.confs[id]) == InterfaceSection(s.conf) && LinkMatches(host, s) {
        ok := Adopt(s);
        if ok {
          generation := generation + 1;
          ifaces := ifaces[id := Managed(s, generation, true)];
          Settle(old(host), old(ifaces), old(generation), id);
          WantedNow(d);
          return true;
        }
        Settle(old(host), ifaces, generation, id);
      }
      ghost var before := host;
      ok := Start(s);
      SameElsewhereTransitive(old(host), before, host, id);
      WantedNow(d);
    }

    /** What matches the spec is as wanted. */
    lemma WantedNow(d: Desired)
      requires Printable(d)
      ensures BuildSpec(d).Some? && Matches(host, derive, BuildSpec(d).value) ==> AsWanted(host, derive, d)
    {
      hide Printable, BuildSpec, Matches, AsWanted, Wantable;
      if BuildSpec(d).Some? && Matches(host, derive, BuildSpec(d).value) {
        MatchesWanted(host, derive, d);
      }
    }

    // ---- Teardown and the whole set ------------------------------------------

    /** A teardown is refused by an untrusted config file or a link it cannot prove. */
    ghost predicate Removable(h: Host, id: int) {
      && Readable(h, id)
      && (id in h.links ==> id in h.confs && Verified(h, derive, id, h.confs[id]))
    }

    /** teardown: the config goes last, after everything it proves to be the panel's. */
    method Teardown(id: int) returns (ok: bool)
      requires Inv()
      modifies this`host, this`ifaces
      ensures Inv() && SameElsewhere(old(host), host, id)
      ensures ifaces == if ok then old(ifaces) - {id} else old(ifaces)
      ensures Alive(host) ==> (ok <==> Removable(old(host), id))
      ensures Alive(host) && ok ==> Clean(host, id)
      ensures id in foreign || !Alive(old(host)) ==> host == old(host)
      ensures !ok && Alive(host) ==> host == old(host)
      ensures id in host.links ==> id in old(host).links
      ensures id in host.confs ==> id in old(host).confs && host.confs[id] == old(host).confs[id]
    {
      hide ValidOwned, FingerprintText, ConfKey, SameElsewhere, Mine, Others, Safe, Tracked, IsSpec, OnlyEgress,
           TrackedAt;
      SameElsewhereReflexive(host, id);
      SafeNow(id);
      var found := id in host.confs;
      if found {
        var valid := ValidOwnedConfig(host.confs[id], id);
        if !valid {
          return false;
        }
      }
      var isManaged := id in ifaces;
      if !found && !isManaged {
        ok := id !in host.links;
        MapMinusAbsent(ifaces, id);
        return;
      }
      if id in host.links {
        if found {
          var verified := VerifyLive(id, host.confs[id]);
          if !verified {
            return false;
          }
        }
        assert id !in foreign;
        ok := DeleteLink(id);
        if !ok {
          Settle(old(host), ifaces, generation, id);
          return;
        }
      }
      ghost var unlinked := host;
      Release(id, found);
      SameElsewhereTransitive(old(host), unlinked, host, id);
      ifaces := ifaces - {id};
      Settle(old(host), old(ifaces), generation, id);
      ok := true;
    }

    lemma MapMinusAbsent(m: map<int, Managed>, id: int)
      requires id !in m
      ensures m - {id} == m
    {
    }

    /** Deletes the NAT table, the tagged rules and then the config of an unlinked inbound. */
    method Release(id: int, found: bool)
      requires SafeHere(id) && id !in foreign
      requires Alive(host) ==> id !in host.links && (found <==> id in host.confs)
      modifies this`host
      ensures SafeHere(id) && SameElsewhere(old(host), host, id) && host.links == old(host).links
      ensures !Alive(old(host)) ==> host == old(host)
      ensures Alive(host) ==> Clean(host, id)
      ensures id in host.confs ==> id in old(host).confs && host.confs[id] == old(host).confs[id]
    {
      hide ValidOwned, ConfKey;
      ReleaseEgress(id);
      ghost var bare := host;
      if found {
        var ran := Run(RemoveConf(id));
        assert SameElsewhere(bare, host, id);
      }
      SameElsewhereReflexive(host, id);
      SameElsewhereTransitive(old(host), bare, host, id);
    }

    method ReleaseEgress(id: int)
      requires SafeHere(id) && id !in foreign
      modifies this`host
      ensures SafeHere(id) && SameElsewhere(old(host), host, id)
      ensures host.links == old(host).links && host.confs == old(host).confs
      ensures !Alive(old(host)) ==> host == old(host)
      ensures Alive(host) ==> id !in host.tables && Mine(host.rules, id) == []
    {
      hide ValidOwned, ConfKey;
      var ran := Run(Nft(id, None));
      assert OnlyEgress(old(host), host, id);
      OnlyEgressSafe(old(host), host, derive, foreign, id);
      ghost var bare := host;
      RemoveForwardRules(id);
      OnlyEgressSafe(bare, host, derive, foreign, id);
      SameElsewhereTransitive(old(host), bare, host, id);
    }

    /** Remove: the teardown of one inbound. */
    method Remove(id: int) returns (ok: bool)
      requires Inv()
      modifies this`host, this`ifaces
      ensures Inv() && SameElsewhere(old(host), host, id)
      ensures ifaces == if ok then old(ifaces) - {id} else old(ifaces)
      ensures Alive(host) ==> (ok <==> Removable(old(host), id)) && (ok ==> Clean(host, id))
      ensures id in host.links ==> id in old(host).links
      ensures id in host.confs ==> id in old(host).confs && host.confs[id] == old(host).confs[id]
    {
      ok := Teardown(id);
    }

    /** Tears down a set of inbounds, in any order. */
    method TeardownAll(ids: set<int>)
      requires Inv()
      modifies this`host, this`ifaces
      ensures Inv() && (Alive(host) ==> Alive(old(host)))
      ensures forall i | i !in ids :: SameAt(old(host), host, i)
      ensures ifaces.Keys <= old(ifaces).Keys
      ensures forall i | i in old(ifaces) && i !in ids :: i in ifaces
      ensures Alive(host) ==> forall i | i in ids && Removable(old(host), i) :: Clean(host, i) && i !in ifaces
      ensures forall i | RecoverableAt(old(host), derive, foreign, i) :: RecoverableAt(host, derive, foreign, i)
    {
      hide SameElsewhere, Clean, Inv, Mine, Removable, RecoverableAt, SameAt;
      var todo := ids;
      forall i
        ensures SameAt(host, host, i)
      {
        SameAtReflexive(host, i);
      }
      while todo != {}
        invariant todo <= ids && Inv() && (Alive(host) ==> Alive(old(host)))
        invariant forall i | i !in ids || i in todo :: SameAt(old(host), host, i)
        invariant ifaces.Keys <= old(ifaces).Keys
        invariant forall i | i in old(ifaces) && i !in ids :: i in ifaces
        invariant Alive(host) ==> forall i | i in ids - todo && Removable(old(host), i) ::
          Clean(host, i) && i !in ifaces
        invariant forall i | RecoverableAt(old(host), derive, foreign, i) :: RecoverableAt(host, derive, foreign, i)
      {
        SomeMember(todo);
        var id :| id in todo;
        ghost var before, ifacesBefore := host, ifaces;
        RemovableSame(old(host), host, id);
        var ok := Teardown(id);
        todo := todo - {id};
        InvSafe(id);
        forall i | i != id
          ensures SameAt(before, host, i)
        {
          SameElsewhereSameAt(before, host, id, i);
        }
        forall i | i !in ids || i in todo
          ensures SameAt(old(host), host, i)
        {
          SameAtTransitive(old(host), before, host, i);
        }
        forall i | i in ids - todo && Removable(old(host), i) && Alive(host)
          ensures Clean(host, i) && i !in ifaces
        {
          if i != id {
            CleanSame(before, host, i);
          }
        }
        forall i | RecoverableAt(before, derive, foreign, i)
          ensures RecoverableAt(host, derive, foreign, i)
        {
          RecoverableKept(before, host, id, i);
        }
      }
    }

    lemma SameAtReflexive(h: Host, i: int)
      ensures SameAt(h, h, i)
    {
    }

    lemma SameElsewhereSameAt(a: Host, b: Host, id: int, i: int)
      requires SameElsewhere(a, b, id) && i != id
      ensures SameAt(a, b, i)
    {
      SameElsewhereAt(a, b, id, i);
    }

    lemma SameAtTransitive(a: Host, b: Host, c: Host, i: int)
      requires SameAt(a, b, i) && SameAt(b, c, i)
      ensures SameAt(a, c, i)
    {
    }

    lemma RemovableSame(a: Host, b: Host, i: int)
      requires SameAt(a, b, i)
      ensures Removable(a, i) <==> Removable(b, i)
    {
      hide ConfKey, ValidOwned, Mine;
    }

    lemma CleanSame(a: Host, b: Host, i: int)
      requires SameAt(a, b, i)
      ensures Clean(a, i) <==> Clean(b, i)
    {
      hide Mine;
    }

    /** Work on inbound id that drops or keeps its config keeps every inbound recoverable. */
    lemma RecoverableKept(a: Host, b: Host, id: int, i: int)
      requires RecoverableAt(a, derive, foreign, i)
      requires i != id ==> SameAt(a, b, i)
      requires id in b.links ==> id in a.links && (id !in foreign ==> id in b.confs)
      requires id in b.confs ==> id in a.confs && b.confs[id] == a.confs[id]
      ensures RecoverableAt(b, derive, foreign, i)
    {
      hide ConfKey, ValidOwned, Mine;
    }

    /** Work of Ensure keeps its inbound recoverable: always while the process lives, and
        at a crash too when the wanted key is usable. */
    lemma EnsureRecoverable(a: Host, b: Host, d: Desired, i: int)
      requires Safe(b, derive, foreign) && SameElsewhere(a, b, d.inst.id) && Printable(d)
      requires RecoverableAt(a, derive, foreign, i)
      requires BuildSpec(d).None? ==> a == b
      requires BuildSpec(d).Some? ==> ConfigKeptOr(a, b, d.inst.id, BuildSpec(d).value.conf)
      requires BuildSpec(d).Some? && ConfKey(derive, BuildSpec(d).value.conf).None? ==>
        a == b || d.inst.id !in b.links || Matches(b, derive, BuildSpec(d).value)
      ensures RecoverableAt(b, derive, foreign, i)
    {
      hide ConfKey, ValidOwned, Mine, SameElsewhere, BuildSpec, Printable, NatRuns, RulesRun;
      assert SafeAt(b, derive, foreign, i);
      if BuildSpec(d).Some? {
        BuildSpecIsSpec(d);
      }
      if i != d.inst.id {
        SameElsewhereAt(a, b, d.inst.id, i);
      }
    }

    lemma BuildableEnsurable(h: Host, managed: map<int, Managed>, d: Desired)
      requires Safe(h, derive, foreign) && RecoverableAt(h, derive, foreign, d.inst.id)
      requires d.inst.id !in foreign && Buildable(derive, d)
      ensures Ensurable(h, managed, d)
    {
      hide ConfKey, ValidOwned, Mine, BuildSpec, LinkMatches, InterfaceSection, Acceptable;
      assert SafeAt(h, derive, foreign, d.inst.id);
    }

    lemma MatchesSame(a: Host, b: Host, s: Spec)
      requires SameAt(a, b, s.id) && Matches(a, derive, s)
      ensures Matches(b, derive, s)
    {
      hide ConfKey, Mine;
    }

    /** One Ensure as the whole set sees it; a failure is logged and skipped. */
    method EnsureOne(d: Desired)
      requires Inv() && Printable(d)
      modifies this`host, this`ifaces, this`generation
      ensures Inv() && (Alive(host) ==> Alive(old(host)))
      ensures forall i | i != d.inst.id :: SameAt(old(host), host, i)
      ensures
        Alive(host) && Buildable(derive, d) && d.inst.id !in foreign
        && RecoverableAt(old(host), derive, foreign, d.inst.id) ==>
        Runs(host, derive, d)
      ensures Alive(host) || UsableKey(derive, d) ==>
        forall i | RecoverableAt(old(host), derive, foreign, i) :: RecoverableAt(host, derive, foreign, i)
    {
      hide SameElsewhere, Inv, Mine, RecoverableAt, SameAt, BuildSpec, Matches, Printable, Ensurable, Buildable,
           Readable, Provable, ConfKey,
        Acceptable, ConfigKeptOr, IsSpec, Safe;
      InvIsSafe();
      if d.inst.id !in foreign && Buildable(derive, d) && RecoverableAt(host, derive, foreign, d.inst.id) {
        BuildableEnsurable(host, ifaces, d);
      }
      var ok := Ensure(d);
      InvIsSafe();
      forall i | i != d.inst.id
        ensures SameAt(old(host), host, i)
      {
        SameElsewhereSameAt(old(host), host, d.inst.id, i);
      }
      forall i | RecoverableAt(old(host), derive, foreign, i) && (Alive(host) || UsableKey(derive, d))
        ensures RecoverableAt(host, derive, foreign, i)
      {
        EnsureRecoverable(old(host), host, d, i);
      }
    }

    /** Ensures each wanted inbound in turn. */
    method EnsureAll(desired: seq<Desired>)
      requires Inv() && forall d | d in desired :: Printable(d)
      modifies this`host, this`ifaces, this`generation
      ensures Inv() && (Alive(host) ==> Alive(old(host)))
      ensures forall i | forall d | d in desired :: d.inst.id != i :: SameAt(old(host), host, i)
      ensures Alive(host) ==> forall k | 0 <= k < |desired| && Last(desired, k) && Buildable(derive, desired[k])
        && desired[k].inst.id !in foreign && RecoverableAt(old(host), derive, foreign, desired[k].inst.id) ::
          Runs(host, derive, desired[k])
      ensures Alive(host) || (forall d | d in desired :: UsableKey(derive, d)) ==>
        forall i | RecoverableAt(old(host), derive, foreign, i) :: RecoverableAt(host, derive, foreign, i)
    {
      hide Inv, RecoverableAt, SameAt, Runs, Printable, Buildable, UsableKey, Last;
      forall i
        ensures SameAt(host, host, i)
      {
        SameAtReflexive(host, i);
      }
      for n := 0 to |desired|
        invariant Inv() && (Alive(host) ==> Alive(old(host)))
        invariant forall i | forall d | d in desired :: d.inst.id != i :: SameAt(old(host), host, i)
        invariant Alive(host) ==> forall k | 0 <= k < n && Last(desired[..n], k) && Buildable(derive, desired[k])
          && desired[k].inst.id !in foreign && RecoverableAt(old(host), derive, foreign, desired[k].inst.id) ::
            Runs(host, derive, desired[k])
        invariant Alive(host) || (forall d | d in desired :: UsableKey(derive, d)) ==>
          forall i | RecoverableAt(old(host), derive, foreign, i) :: RecoverableAt(host, derive, foreign, i)
      {
        ghost var before := host;
        EnsureOne(desired[n]);
        forall i | forall d | d in desired :: d.inst.id != i
          ensures SameAt(old(host), host, i)
        {
          SameAtTransitive(old(host), before, host, i);
        }
        forall k | 0 <= k < n + 1 && Alive(host) && Last(desired[..n + 1], k) && Buildable(derive, desired[k])
          && desired[k].inst.id !in foreign && RecoverableAt(old(host), derive, foreign, desired[k].inst.id)
          ensures Runs(host, derive, desired[k])
        {
          if k < n {
            LastBefore(desired, n, k);
            RunsSame(before, host, desired[k]);
          }
        }
      }
      assert desired[..|desired|] == desired;
    }

    lemma LastBefore(desired: seq<Desired>, n: nat, k: nat)
      requires k < n < |desired| && Last(desired[..n + 1], k)
      ensures Last(desired[..n], k) && desired[n].inst.id != desired[k].inst.id
    {
      assert desired[..n + 1][n] == desired[n];
      assert forall j | k < j < n :: desired[..n][j] == desired[..n + 1][j];
    }

    lemma InvIsSafe()
      requires Inv()
      ensures Safe(host, derive, foreign)
    {
    }

    lemma RunsSame(a: Host, b: Host, d: Desired)
      requires SameAt(a, b, d.inst.id) && Runs(a, derive, d)
      ensures Runs(b, derive, d)
    {
      MatchesSame(a, b, BuildSpec(d).value);
    }

    // ---- Reconcile -----------------------------------------------------------

    /** What a fresh process can take over it can also remove. */
    lemma RecoverableRemovable(h: Host, i: int)
      requires Safe(h, derive, foreign) && RecoverableAt(h, derive, foreign, i) && i !in foreign
      ensures Removable(h, i)
    {
      hide ConfKey, ValidOwned, Mine;
      assert SafeAt(h, derive, foreign, i);
    }

    /** Without a config of the panel's there is nothing of the panel's. */
    lemma UnownedClean(h: Host, i: int)
      requires Safe(h, derive, foreign) && RecoverableAt(h, derive, foreign, i) && i !in foreign
      requires !(i in h.confs && i > 0 && ValidOwned(h.confs[i], i))
      ensures Clean(h, i)
    {
      hide ConfKey, ValidOwned, Mine;
      assert SafeAt(h, derive, foreign, i);
    }

    /** ownedConfigIDs: the inbounds whose config on disk the panel recognises. */
    method OwnedConfigIDs() returns (ids: set<int>)
      ensures forall i :: i in ids <==> i in host.confs && i > 0 && ValidOwned(host.confs[i], i)
    {
      ids := {};
      var todo: set<int> := host.confs.Keys;
      while todo != {}
        invariant todo <= host.confs.Keys
        invariant forall i :: i in ids <==> i in host.confs.Keys - todo && i > 0 && ValidOwned(host.confs[i], i)
      {
        SomeMember(todo);
        var i :| i in todo;
        todo := todo - {i};
        if i > 0 {
          var valid := ValidOwnedConfig(host.confs[i], i);
          if valid {
            ids := ids + {i};
          }
        }
      }
    }

    /** Reconcile: remove what is not wanted, whether this process or an earlier one made it,
        then ensure what is. */
    method Reconcile(desired: seq<Desired>)
      requires Inv() && forall d | d in desired :: Printable(d)
      modifies this`host, this`ifaces, this`generation
      ensures Inv()
      ensures Alive(host) ==> forall i | (forall d | d in desired :: d.inst.id != i) && i !in foreign
        && RecoverableAt(old(host), derive, foreign, i) :: Clean(host, i)
      ensures Alive(host) ==> forall k | 0 <= k < |desired| && Last(desired, k) && Startable(derive, desired[k])
        && desired[k].inst.id !in foreign && RecoverableAt(old(host), derive, foreign, desired[k].inst.id) ::
          AsWanted(host, derive, desired[k])
      ensures Alive(host) || (forall d | d in desired :: UsableKey(derive, d)) ==>
        forall i | RecoverableAt(old(host), derive, foreign, i) :: RecoverableAt(host, derive, foreign, i)
    {
      hide SameElsewhere, Clean, Inv, Mine, Removable, RecoverableAt, SameAt, BuildSpec, Matches, Printable, Buildable,
           Runs, ValidOwned, UsableKey, Last, Startable, AsWanted, Wantable;
      var want := set d | d in desired :: d.inst.id;
      var attempted := ifaces.Keys - want;
      InvIsSafe();
      TeardownAll(attempted);
      ghost var managed := host;
      InvIsSafe();
      var ids := OwnedConfigIDs();
      TeardownAll(ids - want - attempted);
      ghost var recovered := host;
      EnsureAll(desired);
      forall i | (forall d | d in desired :: d.inst.id != i) && i !in foreign
        && RecoverableAt(old(host), derive, foreign, i) && Alive(host)
        ensures Clean(host, i)
      {
        if i in attempted {
          RecoverableRemovable(old(host), i);
          CleanSame(managed, recovered, i);
        } else if i in ids {
          RecoverableRemovable(managed, i);
        } else {
          UnownedClean(managed, i);
          CleanSame(managed, recovered, i);
        }
        CleanSame(recovered, host, i);
      }
      forall k | 0 <= k < |desired|
        ensures Startable(derive, desired[k]) <==> Buildable(derive, desired[k])
        ensures Runs(host, derive, desired[k]) ==> AsWanted(host, derive, desired[k])
      {
        assert desired[k] in desired;
        BuildableMeans(derive, desired[k]);
        RunsMeans(host, derive, desired[k]);
      }
    }

    /** StopAll: the teardown of every managed inbound. */
    method StopAll()
      requires Inv()
      modifies this`host, this`ifaces
      ensures Inv()
      ensures forall i | i !in old(ifaces) :: SameAt(old(host), host, i)
      ensures Alive(host) ==> forall i | i in old(ifaces) && Removable(old(host), i) :: Clean(host, i) && i !in ifaces
      ensures forall i | RecoverableAt(old(host), derive, foreign, i) :: RecoverableAt(host, derive, foreign, i)
    {
      TeardownAll(ifaces.Keys);
    }

    /** Why recovery needs usable keys: a process that dies between link add and setconf of
        an inbound whose key derives no public key leaves a link that no later process can
        remove, nor bring to any wanted state; with a usable key it leaves one that every later
        process can take over. */
    lemma DeadAtAddExact(h: Host, d: Desired, later: Desired)
      requires Printable(d) && BuildSpec(d).Some? && Clean(h, d.inst.id) && DiesAtAdd(h, d.inst.id)
      requires later.inst.id == d.inst.id && d.inst.id !in foreign
      ensures var dead, usable := DeadAtAdd(h, derive, BuildSpec(d).value), UsableKey(derive, d);
        && !Alive(dead) && d.inst.id in dead.links
        && (RecoverableAt(dead, derive, foreign, d.inst.id) <==> usable)
        && (Removable(dead, d.inst.id) <==> usable)
        && (!usable ==> !Ensurable(dead, map[], later))
    {
      hide ValidOwned, ConfKey, Mine, BuildSpec, Printable, LinkMatches, Acceptable;
      BuildSpecIsSpec(d);
    }
  }
}

/** The machine and the disk the kernel manager drives: one step per host command or file
    write, any of which may be the last one before the process dies. */
module KernelHost {
  import opened Text
  import opened AmneziaTypes
  import opened KernelConfig

  /** The private-to-public key derivation, left uninterpreted; None for an unusable key. */
  type Derivation = string -> Option<string>

  /** A live interface: its public key (None while keyless), the config last loaded into
      it, its addresses, MTU and up flag. */
  datatype Link = Link(key: Option<string>, conf: string, addresses: set<string>, mtu: int, up: bool)

  /** One FORWARD rule; owner is the inbound whose comment tag it carries. */
  datatype Rule = Rule(owner: Option<int>, from: string, to: string, established: bool)

  /** An inbound's NAT chain: the tunnel prefixes masqueraded out of an egress NIC. */
  datatype Nat = Nat(addresses: seq<Prefix>, egress: string)

  /** Links, nft tables and configs are keyed by the inbound id their name encodes
      (KernelConfig.InterfaceNameInjective). fuel counts the commands the process still
      executes; at 0 it is dead and changes nothing any more. */
  datatype Host = Host(
    links: map<int, Link>,
    tables: map<int, Nat>,
    rules: seq<Rule>,
    confs: map<int, string>,
    iptables: bool,
    moduleLoaded: bool,
    ipForward: bool,
    fuel: nat)

  datatype Command =
    | Modprobe
    | LinkAdd(id: int)
    | LinkDel(id: int)
    | SetConf(id: int)
    | SyncConf(id: int)
    | AddressAdd(id: int, address: string)
    | LinkUp(id: int, mtu: int)
    | Nft(id: int, chain: Option<Nat>)
    | EnableForwarding
    | RuleInsert(rule: Rule)
    | RuleDelete(rule: Rule)
    | InstallConf(id: int, text: string)
    | RemoveConf(id: int)

  const DEFAULT_LINK_MTU: int := 1420

  /** The public key an owned config stands for (configInterfacePublicKey). */
  function ConfKey(derive: Derivation, conf: string): (key: Option<string>) {
    match ConfigPrivateKey(conf)
    case None => None
    case Some(private) => derive(private)
  }

  /** When a command refuses, as a function of the machine it meets. */
  predicate Fails(h: Host, derive: Derivation, c: Command) {
    match c
    case LinkAdd(id) => id in h.links
    case LinkDel(id) => id !in h.links
    case SetConf(id) => id !in h.links || id !in h.confs || ConfKey(derive, h.confs[id]).None?
    case SyncConf(id) => id !in h.links || id !in h.confs || ConfKey(derive, h.confs[id]).None?
    case AddressAdd(id, a) => id !in h.links || a in h.links[id].addresses
    case LinkUp(id, _) => id !in h.links
    case RuleDelete(r) => r !in h.rules
    case RemoveConf(id) => id !in h.confs
    case _ => false
  }

  function DeleteFirst(rules: seq<Rule>, r: Rule): seq<Rule> {
    if rules == [] then []
    else if rules[0] == r then rules[1..]
    else [rules[0]] + DeleteFirst(rules[1..], r)
  }

  function Effect(h: Host, derive: Derivation, c: Command): (after: Host)
    requires !Fails(h, derive, c)
  {
    match c
    case Modprobe => h.(moduleLoaded := true)
    case LinkAdd(id) => h.(links := h.links[id := Link(None, "", {}, DEFAULT_LINK_MTU, false)])
    case LinkDel(id) => h.(links := h.links - {id})
    case SetConf(id) =>
      h.(links := h.links[id := h.links[id].(key := ConfKey(derive, h.confs[id]), conf := h.confs[id])])
    case SyncConf(id) =>
      h.(links := h.links[id := h.links[id].(key := ConfKey(derive, h.confs[id]), conf := h.confs[id])])
    case AddressAdd(id, a) => h.(links := h.links[id := h.links[id].(addresses := h.links[id].addresses + {a})])
    case LinkUp(id, mtu) => h.(links := h.links[id := h.links[id].(mtu := mtu, up := true)])
    case Nft(id, chain) => h.(tables := if chain.Some? then h.tables[id := chain.value] else h.tables - {id})
    case EnableForwarding => h.(ipForward := true)
    case RuleInsert(r) => h.(rules := [r] + h.rules)
    case RuleDelete(r) => h.(rules := DeleteFirst(h.rules, r))
    case InstallConf(id, text) => h.(confs := h.confs[id := text])
    case RemoveConf(id) => h.(confs := h.confs - {id})
  }

  /** One command of a process that may already be dead. */
  function Step(h: Host, derive: Derivation, c: Command): (after: Host) {
    if h.fuel == 0 then h
    else (if Fails(h, derive, c) then h else Effect(h, derive, c)).(fuel := h.fuel - 1)
  }

  predicate Alive(h: Host) { h.fuel > 0 }

  // ---- FORWARD rules of one inbound ------------------------------------------

  /** The rules tagged for id, and all the others, both in list order. */
  function Mine(rules: seq<Rule>, id: int): (mine: seq<Rule>)
    ensures forall r | r in mine :: r.owner == Some(id) && r in rules
  {
    if rules == [] then []
    else (if rules[0].owner == Some(id) then [rules[0]] else []) + Mine(rules[1..], id)
  }

  function Others(rules: seq<Rule>, id: int): seq<Rule> {
    if rules == [] then []
    else (if rules[0].owner == Some(id) then [] else [rules[0]]) + Others(rules[1..], id)
  }

  lemma {:induction false} OthersKeepMine(a: seq<Rule>, b: seq<Rule>, id: int, other: int)
    requires Others(a, id) == Others(b, id) && other != id
    ensures Mine(a, other) == Mine(b, other)
  {
    MineOfOthers(a, id, other);
    MineOfOthers(b, id, other);
  }

  lemma {:induction false} MineOfOthers(rules: seq<Rule>, id: int, other: int)
    requires other != id
    ensures Mine(Others(rules, id), other) == Mine(rules, other)
  {
    if rules != [] {
      MineOfOthers(rules[1..], id, other);
      var rest := Others(rules[1..], id);
      if rules[0].owner != Some(id) {
        assert Others(rules, id)[1..] == rest;
      } else {
        assert Others(rules, id) == rest;
      }
    }
  }

  /** Deleting the first rule of an inbound's listing removes just that one. */
  lemma {:induction false} DeleteFirstMine(rules: seq<Rule>, id: int)
    requires Mine(rules, id) != []
    ensures var r := Mine(rules, id)[0];
      && r in rules
      && Mine(DeleteFirst(rules, r), id) == Mine(rules, id)[1..]
      && Others(DeleteFirst(rules, r), id) == Others(rules, id)
  {
    var r := Mine(rules, id)[0];
    if rules[0].owner == Some(id) {
      assert rules[0] == r;
    } else {
      DeleteFirstMine(rules[1..], id);
      var d := DeleteFirst(rules[1..], r);
      assert Mine(rules, id) == Mine(rules[1..], id);
      assert DeleteFirst(rules, r) == [rules[0]] + d;
      assert ([rules[0]] + d)[1..] == d;
    }
  }

  /** One deletion of a rule listed for id, in a process that may die there. */
  lemma RuleDeleteStep(h: Host, derive: Derivation, id: int, r: Rule)
    requires h.fuel > 0 ==> Mine(h.rules, id) != [] && r == Mine(h.rules, id)[0]
    ensures var after := Step(h, derive, RuleDelete(r));
      && after == h.(rules := after.rules, fuel := after.fuel) && after.fuel <= h.fuel
      && Others(after.rules, id) == Others(h.rules, id)
      && (h.fuel == 0 ==> after == h)
      && (h.fuel > 0 ==> Mine(after.rules, id) == Mine(h.rules, id)[1..])
  {
    if h.fuel > 0 {
      DeleteFirstMine(h.rules, id);
    }
  }

  /** One insertion at the head of the chain. */
  lemma RuleInsertStep(h: Host, derive: Derivation, id: int, r: Rule)
    requires r.owner == Some(id)
    ensures var after := Step(h, derive, RuleInsert(r));
      && after == h.(rules := after.rules, fuel := after.fuel) && after.fuel <= h.fuel
      && Others(after.rules, id) == Others(h.rules, id)
      && (h.fuel == 0 ==> after == h)
      && (h.fuel > 0 ==> Mine(after.rules, id) == [r] + Mine(h.rules, id))
  {
    assert ([r] + h.rules)[1..] == h.rules;
  }

  // ---- What the panel must always be able to prove ---------------------------

  /** A config the panel recognises as its own proves inbound id's ownership. */
  predicate Owned(h: Host, id: int) {
    id in h.confs && ValidOwned(h.confs[id], id)
  }

  /** Everything of inbound id on this machine is covered by an owned config and a live
      link is keyless or carries that config's key. A link the operator already had under
      this name is still there, unchanged. */
  predicate SafeAt(h: Host, derive: Derivation, foreign: map<int, Link>, id: int) {
    && (!h.iptables ==> Mine(h.rules, id) == [])
    && if id in foreign then
         && id in h.links && h.links[id] == foreign[id]
         && !Owned(h, id) && id !in h.tables && Mine(h.rules, id) == []
       else
         && (id in h.links || id in h.tables || Mine(h.rules, id) != [] ==> id > 0 && Owned(h, id))
         && (id in h.links ==> h.links[id].key.None? || h.links[id].key == ConfKey(derive, h.confs[id]))
  }

  ghost predicate Safe(h: Host, derive: Derivation, foreign: map<int, Link>) {
    forall id :: SafeAt(h, derive, foreign, id)
  }

  /** The two machines agree on everything that is not inbound id's. */
  predicate SameElsewhere(before: Host, after: Host, id: int) {
    && before.links - {id} == after.links - {id}
    && before.tables - {id} == after.tables - {id}
    && before.confs - {id} == after.confs - {id}
    && Others(before.rules, id) == Others(after.rules, id)
    && before.iptables == after.iptables
  }

  lemma SameElsewhereAt(before: Host, after: Host, id: int, other: int)
    requires SameElsewhere(before, after, id) && other != id
    ensures other in before.links <==> other in after.links
    ensures other in before.links ==> before.links[other] == after.links[other]
    ensures other in before.tables <==> other in after.tables
    ensures other in before.tables ==> before.tables[other] == after.tables[other]
    ensures other in before.confs <==> other in after.confs
    ensures other in before.confs ==> before.confs[other] == after.confs[other]
    ensures Mine(before.rules, other) == Mine(after.rules, other)
  {
    OthersKeepMine(before.rules, after.rules, id, other);
    assert other in before.links <==> other in before.links - {id};
    assert other in after.links <==> other in after.links - {id};
    assert other in before.tables <==> other in before.tables - {id};
    assert other in after.tables <==> other in after.tables - {id};
    assert other in before.confs <==> other in before.confs - {id};
    assert other in after.confs <==> other in after.confs - {id};
    assert other in before.links ==> (before.links - {id})[other] == (after.links - {id})[other];
    assert other in before.tables ==> (before.tables - {id})[other] == (after.tables - {id})[other];
    assert other in before.confs ==> (before.confs - {id})[other] == (after.confs - {id})[other];
  }

  /** Only inbound id's link, the module and the fuel differ. */
  predicate OnlyLink(before: Host, after: Host, id: int) {
    && after == before.(links := after.links, moduleLoaded := after.moduleLoaded, fuel := after.fuel)
    && before.links - {id} == after.links - {id}
    && after.fuel <= before.fuel
  }

  /** A live link of id is keyless or carries the key of the config on disk. */
  predicate KeyFits(h: Host, derive: Derivation, id: int) {
    id in h.links ==> h.links[id].key.None? || (id in h.confs && h.links[id].key == ConfKey(derive, h.confs[id]))
  }

  /** Only inbound id's NAT table, its tagged rules, forwarding and the fuel differ. */
  predicate OnlyEgress(before: Host, after: Host, id: int) {
    && after == before.(tables := after.tables, rules := after.rules, ipForward := after.ipForward, fuel := after.fuel)
    && before.tables - {id} == after.tables - {id}
    && Others(before.rules, id) == Others(after.rules, id)
    && (!before.iptables ==> before.rules == after.rules)
    && after.fuel <= before.fuel
  }

  /** Egress work on an inbound whose ownership is on disk is safe whatever it leaves. */
  lemma OnlyEgressSafe(before: Host, after: Host, derive: Derivation, foreign: map<int, Link>, id: int)
    requires OnlyEgress(before, after, id) && SafeAt(before, derive, foreign, id) && id !in foreign
    requires (id > 0 && Owned(before, id)) || (Mine(after.rules, id) == [] && id !in after.tables) || before == after
    ensures SafeAt(after, derive, foreign, id) && SameElsewhere(before, after, id)
  {
    hide ConfKey, ValidOwned;
  }

  predicate LinkCommand(c: Command, id: int) {
    c == LinkAdd(id) || c == LinkDel(id) || c == SetConf(id) || c == SyncConf(id)
    || (c.AddressAdd? && c.id == id) || (c.LinkUp? && c.id == id)
  }

  lemma LinkStep(h: Host, derive: Derivation, c: Command, id: int)
    requires LinkCommand(c, id)
    ensures OnlyLink(h, Step(h, derive, c), id)
  {
    hide ConfKey;
  }

  lemma OnlyLinkTransitive(a: Host, b: Host, c: Host, id: int)
    requires OnlyLink(a, b, id) && OnlyLink(b, c, id)
    ensures OnlyLink(a, c, id)
  {
  }

  lemma OnlyLinkSafe(before: Host, after: Host, derive: Derivation, foreign: map<int, Link>, id: int)
    requires OnlyLink(before, after, id) && SafeAt(before, derive, foreign, id) && id !in foreign
    requires id in after.links ==>
      || (id in before.links && after.links[id] == before.links[id])
      || (id > 0 && Owned(before, id) && KeyFits(after, derive, id))
    ensures SafeAt(after, derive, foreign, id) && SameElsewhere(before, after, id)
  {
    hide ConfKey, ValidOwned;
  }

  /** Work on one inbound that stays safe there keeps the whole machine safe. */
  lemma SafeElsewhere(before: Host, after: Host, derive: Derivation, foreign: map<int, Link>, id: int)
    requires Safe(before, derive, foreign) && SameElsewhere(before, after, id) && SafeAt(after, derive, foreign, id)
    ensures Safe(after, derive, foreign)
  {
    forall other
      ensures SafeAt(after, derive, foreign, other)
    {
      assert SafeAt(before, derive, foreign, other);
      if other != id {
        SameElsewhereAt(before, after, id, other);
      }
    }
  }

  lemma SameElsewhereTransitive(a: Host, b: Host, c: Host, id: int)
    requires SameElsewhere(a, b, id) && SameElsewhere(b, c, id)
    ensures SameElsewhere(a, c, id)
  {
  }

  /** Nothing of inbound id differs between the two machines. */
  predicate SameAt(a: Host, b: Host, id: int) {
    && (id in a.links <==> id in b.links) && (id in a.links ==> a.links[id] == b.links[id])
    && (id in a.tables <==> id in b.tables) && (id in a.tables ==> a.tables[id] == b.tables[id])
    && (id in a.confs <==> id in b.confs) && (id in a.confs ==> a.confs[id] == b.confs[id])
    && Mine(a.rules, id) == Mine(b.rules, id)
    && a.iptables == b.iptables
  }

  // ---- What a fresh process can take over ------------------------------------

  /** No file the panel did not write stands at inbound id's config path, and a live
      link's config carries a usable key. */
  ghost predicate RecoverableAt(h: Host, derive: Derivation, foreign: map<int, Link>, id: int) {
    && (id in h.confs ==> id > 0 && Owned(h, id))
    && (id in h.links && id !in foreign ==> id in h.confs && ConfKey(derive, h.confs[id]).Some?)
  }

  /** verifyLiveInterface: the config's key is usable and the link is keyless or carries it. */
  predicate Verified(h: Host, derive: Derivation, id: int, config: string)
    requires id in h.links
  {
    && ConfKey(derive, config).Some?
    && (h.links[id].key.None? || h.links[id].key == ConfKey(derive, config))
  }

  /** Inbound id's config is the old one or the given one, and only the given one can
      come with a link that was not there. */
  predicate ConfigKeptOr(before: Host, after: Host, id: int, conf: string) {
    && (id in after.confs ==> after.confs[id] == conf || (id in before.confs && after.confs[id] == before.confs[id]))
    && (id in after.links && id !in before.links ==> id in after.confs && after.confs[id] == conf)
  }
}

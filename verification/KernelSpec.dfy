/** What one inbound's kernel interface is built from (buildSpec in
    internal/amneziawgkern/config.go). */
module KernelSpec {
  import opened Text
  import opened AmneziaTypes
  import opened KernelConfig
  import opened KernelHost

  /** One inbound's wanted state. defaultInterface is what DetectDefaultInterface reports,
      which is never blank. */
  datatype Desired = Desired(inst: Instance, egressInterface: string, routeThroughXray: bool, defaultInterface: string)

  datatype ForwardRules = ForwardRules(tunnel: string, egress: string)

  const NO_FORWARD: ForwardRules := ForwardRules("", "")

  datatype Spec = Spec(
    id: int,
    conf: string,
    addresses: seq<Prefix>,
    mtu: int,
    structFP: string,
    chain: Option<Nat>,
    forward: ForwardRules)

  predicate InterfaceChar(c: char) {
    'A' <= c <= 'Z' || 'a' <= c <= 'z' || '0' <= c <= '9' || c in "_.@:-"
  }

  /** amneziawg.ValidateInterfaceName: blank, or 1 to 15 plain characters. */
  predicate ValidInterfaceName(name: string) {
    name == "" || (|name| <= 15 && forall c | c in name :: InterfaceChar(c))
  }

  predicate NeedsPinnedBind(listen: string) {
    Trim(listen) !in ["", "0.0.0.0", "::", "::0"]
  }

  const DEFAULT_MTU: int := 1420

  function Max(a: int, b: int): int { if a >= b then a else b }

  function EffectiveMTU(configured: int, s4: int): int {
    if configured > 0 then configured else Max(DEFAULT_MTU - Max(s4, 0), 1280)
  }

  function IPv4Prefixes(addresses: seq<Address>): (r: Option<seq<Prefix>>)
  {
    if addresses == [] then Some([])
    else
      var init := IPv4Prefixes(addresses[..|addresses| - 1]);
      match addresses[|addresses| - 1]
      case Blank => init
      case IPv4(p) => if init.None? then None else Some(init.value + [p])
      case _ => None
  }

  /** interfaceAddresses: every non-blank address must be an IPv4 prefix, and there must be one. */
  function Addresses(inst: Instance): (r: Option<seq<Prefix>>)
    ensures r.Some? ==> r.value != []
  {
    var r := IPv4Prefixes(inst.address);
    if r.Some? && r.value != [] then r else None
  }

  lemma {:induction false} RefusedStays(addresses: seq<Address>, i: nat)
    requires i <= |addresses| && IPv4Prefixes(addresses[..i]).None?
    ensures IPv4Prefixes(addresses).None?
    decreases |addresses| - i
  {
    if i == |addresses| {
      assert addresses[..i] == addresses;
    } else {
      assert addresses[..i + 1][..i] == addresses[..i];
      RefusedStays(addresses, i + 1);
    }
  }

  method InterfaceAddresses(inst: Instance) returns (r: Option<seq<Prefix>>)
    ensures r == Addresses(inst)
  {
    var out: seq<Prefix> := [];
    for i := 0 to |inst.address|
      invariant IPv4Prefixes(inst.address[..i]) == Some(out)
    {
      assert inst.address[..i + 1][..i] == inst.address[..i];
      match inst.address[i] {
        case Blank =>
        case IPv4(p) => out := out + [p];
        case _ =>
          RefusedStays(inst.address, i + 1);
          return None;
      }
    }
    assert inst.address[..|inst.address|] == inst.address;
    return if out == [] then None else Some(out);
  }

  function BuildSpec(d: Desired): (r: Option<Spec>)
  {
    var inst := d.inst;
    if inst.id <= 0 || !ValidInterfaceName(InterfaceName(inst.id)) || NeedsPinnedBind(inst.listen) || !Renderable(inst)
      then None
    else
      match Addresses(inst)
      case None => None
      case Some(addresses) =>
        var conf := Rendered(inst);
        var mtu := EffectiveMTU(inst.mtu, inst.obfuscation.s4);
        var fp := FingerprintText(conf, addresses, mtu);
        if d.routeThroughXray then
          Some(Spec(inst.id, conf, addresses, mtu, fp, None, NO_FORWARD))
        else
          var egress := if d.egressInterface == "" then d.defaultInterface else d.egressInterface;
          if !ValidInterfaceName(egress) then None
          else Some(Spec(inst.id, conf, addresses, mtu, fp, Some(Nat(addresses, egress)),
            ForwardRules(InterfaceName(inst.id), egress)))
  }

  /** The instances whose text the panel will recognise again (KernelConfig.RenderedIsOwned). */
  predicate Printable(d: Desired) {
    d.defaultInterface != "" && forall p | p in d.inst.peers :: PrintsAllowedIPs(p)
  }

  /** What the manager relies on about every spec it holds. */
  ghost predicate IsSpec(s: Spec) {
    && s.id > 0
    && ValidOwned(s.conf, s.id)
    && s.addresses != []
    && s.structFP == FingerprintText(s.conf, s.addresses, s.mtu)
    && (s.forward == NO_FORWARD || (s.forward.tunnel == InterfaceName(s.id) && s.forward.egress != ""))
  }

  lemma BuildSpecIsSpec(d: Desired)
    requires Printable(d) && BuildSpec(d).Some?
    ensures IsSpec(BuildSpec(d).value) && BuildSpec(d).value.id == d.inst.id
    ensures ConfigPrivateKey(BuildSpec(d).value.conf) == Some(d.inst.privateKey)
  {
    hide Renderable, ValidOwned, Rendered, ConfigPrivateKey, FingerprintText;
    RenderedIsOwned(d.inst);
    KeyReadBack(d.inst);
  }

  /** A spec the host accepts command by command: its key derives a public key and no
      address is listed twice. */
  predicate Acceptable(derive: Derivation, s: Spec) {
    && ConfKey(derive, s.conf).Some?
    && forall i, j | 0 <= i < j < |s.addresses| :: s.addresses[i] != s.addresses[j]
  }

  function ForwardList(id: int, f: ForwardRules): seq<Rule> {
    if f.egress == "" then []
    else [Rule(Some(id), f.tunnel, f.egress, false), Rule(Some(id), f.egress, f.tunnel, true)]
  }

  /** What syncForwardRules leaves: each rule is inserted at the head of the chain. */
  function Installed(id: int, f: ForwardRules): seq<Rule> {
    if f.egress == "" then []
    else [Rule(Some(id), f.egress, f.tunnel, true), Rule(Some(id), f.tunnel, f.egress, false)]
  }

  /** The live link runs exactly this spec's config, MTU and addresses. */
  ghost predicate LinkRuns(h: Host, derive: Derivation, s: Spec) {
    && s.id in h.links
    && h.links[s.id].conf == s.conf
    && h.links[s.id].key == ConfKey(derive, s.conf) && h.links[s.id].key.Some?
    && h.links[s.id].mtu == s.mtu
    && forall a | a in s.addresses :: a in h.links[s.id].addresses
  }

  /** linkMatches: the live link already has the wanted addresses and MTU. */
  predicate LinkMatches(h: Host, s: Spec)
    requires s.id in h.links
  {
    h.links[s.id].mtu == s.mtu && s.addresses != [] && forall a | a in s.addresses :: a in h.links[s.id].addresses
  }

  predicate NatRuns(h: Host, s: Spec) {
    if s.chain.Some? then s.id in h.tables && h.tables[s.id] == s.chain.value else s.id !in h.tables
  }

  predicate RulesRun(h: Host, id: int, f: ForwardRules) {
    h.iptables ==> Mine(h.rules, id) == Installed(id, f)
  }

  /** Everything of the inbound on this machine is what the spec asks for. */
  ghost predicate Matches(h: Host, derive: Derivation, s: Spec) {
    && s.id in h.confs && h.confs[s.id] == s.conf
    && LinkRuns(h, derive, s)
    && NatRuns(h, s)
    && RulesRun(h, s.id, s.forward)
  }

  /** Nothing of the inbound is left. */
  predicate Clean(h: Host, id: int) {
    id !in h.links && id !in h.tables && id !in h.confs && Mine(h.rules, id) == []
  }

  /** A desired inbound the host can run: it builds, its key is usable, no address twice. */
  ghost predicate Buildable(derive: Derivation, d: Desired) {
    BuildSpec(d).Some? && Acceptable(derive, BuildSpec(d).value)
  }

  /** The wanted config carries a key a public key can be derived from. */
  ghost predicate UsableKey(derive: Derivation, d: Desired) {
    BuildSpec(d).Some? ==> ConfKey(derive, BuildSpec(d).value.conf).Some?
  }

  /** The inbound runs exactly as wanted. */
  ghost predicate Runs(h: Host, derive: Derivation, d: Desired) {
    BuildSpec(d).Some? && Matches(h, derive, BuildSpec(d).value)
  }

  /** No later entry of the list is for the same inbound. */
  ghost predicate Last(desired: seq<Desired>, k: nat)
    requires k < |desired|
  {
    forall j | k < j < |desired| :: desired[j].inst.id != desired[k].inst.id
  }
}

/** What it means on the machine that an inbound runs as wanted, told by its settings alone
    (buildSpec and interfaceAddresses in internal/amneziawgkern/config.go, EffectiveMTU in
    internal/amneziawg/params.go). */
module KernelWanted {
  import opened Text
  import opened AmneziaTypes
  import opened KernelConfig
  import opened KernelHost
  import opened KernelSpec

  /** The NIC a direct inbound's traffic leaves by. */
  function Nic(d: Desired): string { if d.egressInterface == "" then d.defaultInterface else d.egressInterface }

  /** The IPv4 prefixes among the addresses, in order. */
  function Prefixes(addresses: seq<Address>): (ps: seq<Prefix>) {
    if addresses == [] then []
    else (if addresses[0].IPv4? then [addresses[0].prefix] else []) + Prefixes(addresses[1..])
  }

  /** The settings an interface can be built from. */
  ghost predicate Wantable(d: Desired) {
    var inst, listen := d.inst, Trim(d.inst.listen);
    && inst.id > 0 && |InterfaceName(inst.id)| <= 15 && Renderable(inst)
    && (listen == "" || listen == "0.0.0.0" || listen == "::" || listen == "::0")
    && (forall a | a in inst.address :: a.Blank? || a.IPv4?) && (exists a :: a in inst.address && a.IPv4?)
    && (!d.routeThroughXray ==> |Nic(d)| <= 15 && forall c | c in Nic(d) :: InterfaceChar(c))
  }

  /** And with which a host can start it: a public key derives, and no prefix is listed twice. */
  ghost predicate Startable(derive: Derivation, d: Desired) {
    && Wantable(d) && derive(d.inst.privateKey).Some?
    && var ps := Prefixes(d.inst.address); forall i, j | 0 <= i < j < |ps| :: ps[i] != ps[j]
  }

  /** The inbound's link has its key, MTU and addresses and runs the text rendered for it. */
  ghost predicate LinkAsWanted(h: Host, derive: Derivation, inst: Instance) {
    && inst.id in h.links
    && var link := h.links[inst.id];
    && link.conf == Rendered(inst) && link.key == derive(inst.privateKey) && link.key.Some?
    && (inst.mtu > 0 ==> link.mtu == inst.mtu)
    && (inst.mtu <= 0 ==>
          var s4 := inst.obfuscation.s4;
          link.mtu == if s4 <= 0 then 1420 else if s4 <= 140 then 1420 - s4 else 1280)
    && forall a | a in inst.address && a.IPv4? :: a.prefix in link.addresses
  }

  /** A direct inbound's prefixes are masqueraded out of its NIC, and its two rules let its
      traffic out and the answers back in. One routed through Xray has neither. */
  ghost predicate EgressAsWanted(h: Host, d: Desired) {
    var id, tunnel, nic := d.inst.id, InterfaceName(d.inst.id), Nic(d);
    if d.routeThroughXray then id !in h.tables && (h.iptables ==> Mine(h.rules, id) == [])
    else
      && id in h.tables && h.tables[id].addresses == Prefixes(d.inst.address) && h.tables[id].egress == nic
      && (h.iptables ==>
            Mine(h.rules, id)
            == [Rule(owner := Some(id), from := nic, to := tunnel, established := true),
                Rule(owner := Some(id), from := tunnel, to := nic, established := false)])
  }

  ghost predicate AsWanted(h: Host, derive: Derivation, d: Desired) {
    && d.inst.id in h.confs && h.confs[d.inst.id] == Rendered(d.inst)
    && LinkAsWanted(h, derive, d.inst) && EgressAsWanted(h, d)
  }

  lemma PrefixesStep(first: Address, rest: seq<Address>)
    ensures Prefixes([first] + rest) == (if first.IPv4? then [first.prefix] else []) + Prefixes(rest)
  {
    assert ([first] + rest)[1..] == rest;
  }

  lemma {:induction false} PrefixesSnoc(addresses: seq<Address>, a: Address)
    ensures Prefixes(addresses + [a]) == Prefixes(addresses) + (if a.IPv4? then [a.prefix] else [])
  {
    if addresses == [] {
      PrefixesStep(a, []);
      assert addresses + [a] == [a] + [];
    } else {
      var first, rest := addresses[0], addresses[1..];
      PrefixesSnoc(rest, a);
      PrefixesStep(first, rest);
      PrefixesStep(first, rest + [a]);
      hide Prefixes;
      assert addresses == [first] + rest && addresses + [a] == [first] + (rest + [a]);
    }
  }

  /** The scan accepts exactly blank and IPv4 addresses, and lists the prefixes in order. */
  lemma {:induction false} ScanIs(addresses: seq<Address>)
    ensures IPv4Prefixes(addresses).Some? <==> forall a | a in addresses :: a.Blank? || a.IPv4?
    ensures IPv4Prefixes(addresses).Some? ==> IPv4Prefixes(addresses).value == Prefixes(addresses)
  {
    if addresses != [] {
      var init, last := addresses[..|addresses| - 1], addresses[|addresses| - 1];
      ScanIs(init);
      assert addresses == init + [last];
      PrefixesSnoc(init, last);
    }
  }

  lemma {:induction false} PrefixesListed(addresses: seq<Address>, p: Prefix)
    ensures p in Prefixes(addresses) <==> exists a :: a in addresses && a.IPv4? && a.prefix == p
  {
    if addresses != [] {
      var first, rest := addresses[0], addresses[1..];
      PrefixesListed(rest, p);
      assert addresses == [first] + rest;
    }
  }

  lemma AddressesAre(inst: Instance)
    ensures Addresses(inst).Some? <==>
      (forall a | a in inst.address :: a.Blank? || a.IPv4?) && (exists a :: a in inst.address && a.IPv4?)
    ensures Addresses(inst).Some? ==> Addresses(inst).value == Prefixes(inst.address)
  {
    ScanIs(inst.address);
    hide IPv4Prefixes;
    if a :| a in inst.address && a.IPv4? {
      PrefixesListed(inst.address, a.prefix);
    } else if Prefixes(inst.address) != [] {
      PrefixesListed(inst.address, Prefixes(inst.address)[0]);
    }
  }

  lemma NameChars(id: int)
    requires id >= 0
    ensures InterfaceName(id) != "" && forall c | c in InterfaceName(id) :: InterfaceChar(c)
  {
    assert forall c | c in Itoa(id) :: IsDigit(c);
    assert forall c | c in INTERFACE_PREFIX :: InterfaceChar(c);
  }

  /** A spec is built from exactly the wantable settings. */
  lemma BuildsExactly(d: Desired)
    ensures BuildSpec(d).Some? <==> Wantable(d)
  {
    AddressesAre(d.inst);
    hide Addresses, Renderable, Rendered, FingerprintText, InterfaceName, Prefixes;
    if d.inst.id > 0 {
      NameChars(d.inst.id);
    }
  }

  /** The spec's fields, told by the settings. */
  lemma SpecIs(d: Desired)
    requires Printable(d) && Wantable(d)
    ensures BuildSpec(d).Some?
    ensures var s, inst := BuildSpec(d).value, d.inst;
      && s.id == inst.id && s.conf == Rendered(inst) && s.addresses == Prefixes(inst.address)
      && s.mtu == EffectiveMTU(inst.mtu, inst.obfuscation.s4)
      && s.chain == (if d.routeThroughXray then None else Some(Nat(Prefixes(inst.address), Nic(d))))
      && s.forward == (if d.routeThroughXray then NO_FORWARD else ForwardRules(InterfaceName(inst.id), Nic(d)))
  {
    BuildsExactly(d);
    AddressesAre(d.inst);
    hide Addresses, Renderable, Rendered, FingerprintText, InterfaceName, Prefixes, EffectiveMTU;
  }

  lemma KeyIs(d: Desired, derive: Derivation)
    requires Printable(d) && Wantable(d)
    ensures ConfKey(derive, Rendered(d.inst)) == derive(d.inst.privateKey)
  {
    hide Rendered, ConfigPrivateKey, Renderable;
    KeyReadBack(d.inst);
  }

  lemma LinkIs(h: Host, derive: Derivation, d: Desired, s: Spec)
    requires s.id == d.inst.id && s.conf == Rendered(d.inst) && s.addresses == Prefixes(d.inst.address)
    requires s.mtu == EffectiveMTU(d.inst.mtu, d.inst.obfuscation.s4)
    requires ConfKey(derive, Rendered(d.inst)) == derive(d.inst.privateKey)
    ensures LinkRuns(h, derive, s) <==> LinkAsWanted(h, derive, d.inst)
  {
    hide Rendered, ConfKey, Prefixes;
    var addresses := d.inst.address;
    forall p: Prefix
      ensures p in Prefixes(addresses) <==> exists a :: a in addresses && a.IPv4? && a.prefix == p
    {
      PrefixesListed(addresses, p);
    }
    if s.id in h.links && forall a | a in addresses && a.IPv4? :: a.prefix in h.links[s.id].addresses {
      assert forall p | p in s.addresses :: p in h.links[s.id].addresses;
    }
    if s.id in h.links && forall p | p in s.addresses :: p in h.links[s.id].addresses {
      assert forall a | a in addresses && a.IPv4? :: a.prefix in s.addresses;
    }
  }

  lemma EgressIs(h: Host, d: Desired, s: Spec)
    requires Printable(d) && s.id == d.inst.id
    requires if d.routeThroughXray then s.chain.None? && s.forward == NO_FORWARD
      else
        && s.chain == Some(Nat(Prefixes(d.inst.address), Nic(d)))
        && s.forward == ForwardRules(InterfaceName(d.inst.id), Nic(d))
    ensures NatRuns(h, s) && RulesRun(h, s.id, s.forward) <==> EgressAsWanted(h, d)
  {
    hide Prefixes, InterfaceName, Mine;
  }

  /** To run exactly as wanted means all this on the machine, and nothing less or more. */
  lemma RunsMeans(h: Host, derive: Derivation, d: Desired)
    requires Printable(d)
    ensures Runs(h, derive, d) <==> Wantable(d) && AsWanted(h, derive, d)
  {
    hide Wantable, Printable, LinkAsWanted, EgressAsWanted, LinkRuns, NatRuns, RulesRun, Rendered, BuildSpec;
    BuildsExactly(d);
    if Wantable(d) {
      var s := BuildSpec(d).value;
      SpecIs(d);
      KeyIs(d, derive);
      LinkIs(h, derive, d, s);
      EgressIs(h, d, s);
    }
  }

  lemma MatchesWanted(h: Host, derive: Derivation, d: Desired)
    requires Printable(d) && BuildSpec(d).Some? && Matches(h, derive, BuildSpec(d).value)
    ensures Wantable(d) && AsWanted(h, derive, d)
  {
    hide Wantable, Printable, AsWanted, Matches, BuildSpec;
    RunsMeans(h, derive, d);
  }

  /** A host can start exactly the startable settings. */
  lemma BuildableMeans(derive: Derivation, d: Desired)
    requires Printable(d)
    ensures Buildable(derive, d) <==> Startable(derive, d)
  {
    hide Wantable, Printable, Rendered, BuildSpec, ConfKey, Prefixes;
    BuildsExactly(d);
    if Wantable(d) {
      SpecIs(d);
      KeyIs(d, derive);
    }
  }
}

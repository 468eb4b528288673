/** The `awg setconf` text one inbound is built from, and the two readers that recognise
    it after a crash (internal/amneziawgkern/config.go and ownership.go). */
module KernelConfig {
  import opened Text
  import opened AmneziaTypes

  // ---- Names -----------------------------------------------------------------

  const INTERFACE_PREFIX: string := "xui-awg"

  function InterfaceName(id: int): (name: string) { INTERFACE_PREFIX + Itoa(id) }

  function OwnershipMarker(id: int): (line: string) { "# 3x-ui-owned-amneziawg: " + InterfaceName(id) }

  function ParseInterfaceName(name: string): (id: Option<int>) {
    if !(INTERFACE_PREFIX <= name) then None
    else
      match ParseInt(name[|INTERFACE_PREFIX|..])
      case None => None
      case Some(id) => if id <= 0 || InterfaceName(id) != name then None else Some(id)
  }

  /** Only the name the panel itself would give an inbound is read back as that inbound. */
  lemma ParseInterfaceNameExact(name: string, id: int)
    requires id <= MAX_INT64
    ensures ParseInterfaceName(name) == Some(id) <==> id > 0 && name == InterfaceName(id)
  {
    if id > 0 && name == InterfaceName(id) {
      ParseItoa(id);
      assert name[|INTERFACE_PREFIX|..] == Itoa(id);
    }
  }

  lemma InterfaceNameInjective(a: int, b: int)
    requires InterfaceName(a) == InterfaceName(b)
    ensures a == b
  {
    assert InterfaceName(a)[|INTERFACE_PREFIX|..] == Itoa(a);
    assert InterfaceName(b)[|INTERFACE_PREFIX|..] == Itoa(b);
    ItoaInjective(a, b);
  }

  // ---- What the text says ----------------------------------------------------

  type Setting = (string, string)

  function SettingLine(s: Setting): string { s.0 + " = " + s.1 }

  function SettingLines(settings: seq<Setting>): (lines: seq<string>)
    ensures |lines| == |settings|
    ensures forall i | 0 <= i < |lines| :: lines[i] == SettingLine(settings[i])
  {
    seq(|settings|, i requires 0 <= i < |settings| => SettingLine(settings[i]))
  }

  function HeaderOrDefault(v: string, n: nat): (r: string)
    ensures r != ""
  {
    var s := Trim(v);
    if s != "" then s else Digits(n)
  }

  function HeaderSettings(values: seq<string>, n: nat): seq<Setting>
    requires n <= |values|
  {
    if n == 0 then [] else HeaderSettings(values, n - 1) + [("H" + Digits(n), HeaderOrDefault(values[n - 1], n))]
  }

  function SignatureSettings(values: seq<string>, n: nat): seq<Setting>
    requires n <= |values|
  {
    if n == 0 then []
    else SignatureSettings(values, n - 1) + (if values[n - 1] != "" then [("I" + Digits(n), values[n - 1])] else [])
  }

  function TrimmedSettings(pairs: seq<Setting>, n: nat): seq<Setting>
    requires n <= |pairs|
  {
    if n == 0 then []
    else
      var v := Trim(pairs[n - 1].1);
      TrimmedSettings(pairs, n - 1) + (if v != "" then [(pairs[n - 1].0, v)] else [])
  }

  function OptionalPairs(o: Obfuscation31): seq<Setting> {
    [("HeaderProtectionKey", o.headerProtectionKey),
     ("ContentPaddingAddition", o.contentPaddingAddition),
     ("RekeyAfterTime", o.rekeyAfterTime),
     ("RekeyTimeout", o.rekeyTimeout),
     ("RejectAfterTime", o.rejectAfterTime),
     ("KeepaliveTimeout", o.keepaliveTimeout),
     ("MaxHandshakeAttempts", o.maxHandshakeAttempts)]
  }

  function JunkSettings(o: Obfuscation31): seq<Setting> {
    [("Jc", Itoa(o.jc)), ("Jmin", Itoa(o.jmin)), ("Jmax", Itoa(o.jmax)), ("S1", Itoa(o.s1)), ("S2", Itoa(o.s2))]
    + (if o.s3 > 0 then [("S3", Itoa(o.s3))] else [])
    + (if o.s4 > 0 then [("S4", Itoa(o.s4))] else [])
  }

  function FlagSettings(o: Obfuscation31): seq<Setting> {
    (if o.randomTrailers then [("RandomTrailers", "on")] else [])
    + (if o.disableCookies then [("DisableCookies", "on")] else [])
  }

  function ObfuscationSettings(o: Obfuscation31): seq<Setting> {
    JunkSettings(o)
    + HeaderSettings(o.Headers(), 4)
    + SignatureSettings(o.Signatures(), 5)
    + TrimmedSettings(OptionalPairs(o), 7)
    + FlagSettings(o)
  }

  /** The rendered interface settings, in order. */
  function InterfaceSettings(inst: Instance): seq<Setting> {
    [("PrivateKey", inst.privateKey), ("ListenPort", Itoa(inst.listenPort))] + ObfuscationSettings(inst.obfuscation)
  }

  function HeadLines(inst: Instance): seq<string> {
    [OwnershipMarker(inst.id), "[Interface]"] + SettingLines(InterfaceSettings(inst))
  }

  predicate RendersPeer(p: Peer) { p.publicKey != "" && p.allowedIPs != [] }

  function EmailLines(p: Peer): seq<string> { if p.email != "" then ["# " + p.email] else [] }

  function PresharedLines(p: Peer): seq<string> {
    if p.presharedKey != "" then ["PresharedKey = " + p.presharedKey] else []
  }

  function AllowedLines(p: Peer): seq<string> { ["AllowedIPs = " + Join(p.allowedIPs, ", ")] }

  function PeerLines(p: Peer): seq<string> {
    if !RendersPeer(p) then []
    else
      ["", "[Peer]"] + EmailLines(p) + ["PublicKey = " + p.publicKey] + PresharedLines(p) + AllowedLines(p)
  }

  function PeersLines(peers: seq<Peer>): seq<string> {
    if peers == [] then [] else PeersLines(peers[..|peers| - 1]) + PeerLines(peers[|peers| - 1])
  }

  function ConfigLines(inst: Instance): seq<string> { HeadLines(inst) + PeersLines(inst.peers) }

  function Rendered(inst: Instance): string { Unlines(ConfigLines(inst)) }

  // ---- Render, as the builder writes it --------------------------------------

  predicate PlainPeer(p: Peer) {
    PlainValue(p.email) && PlainValue(p.publicKey) && PlainValue(p.presharedKey)
    && forall a | a in p.allowedIPs :: PlainValue(a)
  }

  predicate PlainInterface(inst: Instance) {
    && PlainValue(inst.privateKey)
    && (forall v | v in inst.obfuscation.Headers() :: PlainValue(v))
    && (forall v | v in inst.obfuscation.Signatures() :: PlainValue(v))
    && (forall kv | kv in OptionalPairs(inst.obfuscation) :: PlainValue(kv.1))
  }

  /** The instances Render accepts. */
  predicate Renderable(inst: Instance) {
    inst.privateKey != "" && PlainInterface(inst) && forall p | p in inst.peers :: PlainPeer(p)
  }

  /** writeObfuscation: the parameter block, one "key = value" line at a time. */
  method WriteObfuscation(o: Obfuscation31) returns (b: seq<Setting>)
    ensures b == ObfuscationSettings(o)
  {
    hide *;
    var junk := WriteJunk(o);
    var headers := WriteHeaders(o.Headers());
    var signatures := WriteSignatures(o.Signatures());
    var trimmed := WriteTrimmed(OptionalPairs(o));
    var flags := WriteFlags(o);
    b := junk + headers + signatures + trimmed + flags;
    Pieces(o);
  }

  lemma Pieces(o: Obfuscation31)
    ensures |o.Headers()| == 4 && |o.Signatures()| == 5 && |OptionalPairs(o)| == 7
    ensures ObfuscationSettings(o)
      == JunkSettings(o) + HeaderSettings(o.Headers(), 4) + SignatureSettings(o.Signatures(), 5)
         + TrimmedSettings(OptionalPairs(o), 7) + FlagSettings(o)
  {
    hide JunkSettings, HeaderSettings, SignatureSettings, TrimmedSettings, FlagSettings;
  }

  method WriteJunk(o: Obfuscation31) returns (junk: seq<Setting>)
    ensures junk == JunkSettings(o)
  {
    hide Itoa;
    junk := [("Jc", Itoa(o.jc)), ("Jmin", Itoa(o.jmin)), ("Jmax", Itoa(o.jmax)), ("S1", Itoa(o.s1)),
      ("S2", Itoa(o.s2))];
    if o.s3 > 0 {
      junk := junk + [("S3", Itoa(o.s3))];
    }
    if o.s4 > 0 {
      junk := junk + [("S4", Itoa(o.s4))];
    }
  }

  method WriteFlags(o: Obfuscation31) returns (flags: seq<Setting>)
    ensures flags == FlagSettings(o)
  {
    flags := [];
    if o.randomTrailers {
      flags := flags + [("RandomTrailers", "on")];
    }
    if o.disableCookies {
      flags := flags + [("DisableCookies", "on")];
    }
  }

  method WriteHeaders(hs: seq<string>) returns (headers: seq<Setting>)
    ensures headers == HeaderSettings(hs, |hs|)
  {
    headers := [];
    for i := 0 to |hs|
      invariant headers == HeaderSettings(hs, i)
    {
      headers := headers + [("H" + Digits(i + 1), HeaderOrDefault(hs[i], i + 1))];
    }
  }

  method WriteSignatures(sigs: seq<string>) returns (signatures: seq<Setting>)
    ensures signatures == SignatureSettings(sigs, |sigs|)
  {
    signatures := [];
    for i := 0 to |sigs|
      invariant signatures == SignatureSettings(sigs, i)
    {
      if sigs[i] != "" {
        signatures := signatures + [("I" + Digits(i + 1), sigs[i])];
      }
    }
  }

  method WriteTrimmed(pairs: seq<Setting>) returns (trimmed: seq<Setting>)
    ensures trimmed == TrimmedSettings(pairs, |pairs|)
  {
    trimmed := [];
    for i := 0 to |pairs|
      invariant trimmed == TrimmedSettings(pairs, i)
    {
      var v := Trim(pairs[i].1);
      if v != "" {
        trimmed := trimmed + [(pairs[i].0, v)];
      }
    }
  }

  /** One peer's section, nothing for a peer without a key or addresses. */
  method WritePeer(p: Peer) returns (section: seq<string>)
    ensures section == PeerLines(p)
  {
    if p.publicKey == "" || p.allowedIPs == [] {
      return [];
    }
    section := ["", "[Peer]"];
    if p.email != "" {
      section := section + ["# " + p.email];
    }
    section := section + ["PublicKey = " + p.publicKey];
    if p.presharedKey != "" {
      section := section + ["PresharedKey = " + p.presharedKey];
    }
    section := section + ["AllowedIPs = " + Join(p.allowedIPs, ", ")];
  }

  /** validateConfigValues. */
  method ValidateConfigValues(inst: Instance) returns (ok: bool)
    ensures ok <==> PlainInterface(inst) && forall p | p in inst.peers :: PlainPeer(p)
  {
    if !PlainInterface(inst) {
      return false;
    }
    for i := 0 to |inst.peers|
      invariant forall j | 0 <= j < i :: PlainPeer(inst.peers[j])
    {
      if !PlainPeer(inst.peers[i]) {
        return false;
      }
    }
    return true;
  }

  method WritePeers(peers: seq<Peer>) returns (sections: seq<string>)
    ensures sections == PeersLines(peers)
  {
    sections := [];
    for i := 0 to |peers|
      invariant sections == PeersLines(peers[..i])
    {
      assert peers[..i + 1][..i] == peers[..i];
      var section := WritePeer(peers[i]);
      sections := sections + section;
    }
    assert peers[..|peers|] == peers;
  }

  /** Render: the text of an inbound, or a refusal. */
  method Render(inst: Instance) returns (conf: Option<string>)
    ensures conf == if Renderable(inst) then Some(Rendered(inst)) else None
  {
    if inst.privateKey == "" {
      return None;
    }
    var ok := ValidateConfigValues(inst);
    if !ok {
      return None;
    }
    var block := WriteObfuscation(inst.obfuscation);
    var settings := [("PrivateKey", inst.privateKey), ("ListenPort", Itoa(inst.listenPort))] + block;
    var b := [OwnershipMarker(inst.id), "[Interface]"] + SettingLines(settings);
    var sections := WritePeers(inst.peers);
    conf := Some(Unlines(b + sections));
  }

  // ---- The readers -----------------------------------------------------------

  const BASIC_KEYS: set<string> := {"PrivateKey", "ListenPort", "Jc", "Jmin", "Jmax", "S1", "S2", "S3", "S4"}
  const PACKET_KEYS: set<string> := {"H1", "H2", "H3", "H4", "I1", "I2", "I3", "I4", "I5"}
  const KEY_KEYS: set<string> := {"HeaderProtectionKey", "ContentPaddingAddition", "RekeyAfterTime", "RekeyTimeout"}
  const LIMIT_KEYS: set<string> := {"RejectAfterTime", "KeepaliveTimeout", "MaxHandshakeAttempts", "RandomTrailers",
    "DisableCookies"}

  /** Every key Render emits above the peers, and every key it emits in a peer's section. */
  predicate InterfaceKey(k: string) { k in BASIC_KEYS || k in PACKET_KEYS || k in KEY_KEYS || k in LIMIT_KEYS }

  predicate PeerKey(k: string) { k in {"PublicKey", "PresharedKey", "AllowedIPs"} }

  datatype Section = Top | InInterface | InPeer

  /** Where a scan of an owned config stands; Bad once a line gave it away. */
  datatype Scan = Bad | At(section: Section, interfaces: nat)

  function ScanLine(st: Scan, line: string): (next: Scan) {
    if st.Bad? || line == "" then st
    else if "#" <= line then (if st.section == InPeer then st else Bad)
    else if line == "[Interface]" then
      (if st.interfaces != 0 || st.section != Top then Bad else At(InInterface, 1))
    else if line == "[Peer]" then
      (if st.section == Top then Bad else At(InPeer, st.interfaces))
    else
      match Cut(line, " = ")
      case None => Bad
      case Some((key, value)) =>
        if value == "" then Bad
        else if st.section == InInterface && InterfaceKey(key) then st
        else if st.section == InPeer && PeerKey(key) then st
        else Bad
  }

  function ScanFrom(st: Scan, lines: seq<string>): (end: Scan)
    decreases lines
  {
    if lines == [] then st else ScanFrom(ScanLine(st, lines[0]), lines[1..])
  }

  /** What validOwnedConfig accepts as written by the panel for inbound id. */
  predicate ValidOwned(config: string, id: int) {
    && OwnershipMarker(id) + "\n" <= config
    && '\r' !in config && '\0' !in config
    && var end := ScanFrom(At(Top, 0), Split(config, NEWLINE)[1..]);
    end.At? && end.interfaces == 1
  }

  method ValidOwnedConfig(config: string, id: int) returns (ok: bool)
    ensures ok <==> ValidOwned(config, id)
  {
    if !(OwnershipMarker(id) + "\n" <= config) || '\r' in config || '\0' in config {
      return false;
    }
    var section, interfaceCount := Top, 0;
    var lines := Split(config, NEWLINE)[1..];
    for i := 0 to |lines|
      invariant ScanFrom(At(Top, 0), lines) == ScanFrom(At(section, interfaceCount), lines[i..])
    {
      var line := lines[i];
      ghost var rest := lines[i + 1..];
      assert lines[i..] == [line] + rest;
      BadStaysBad(rest);
      if line == "" {
        continue;
      }
      if "#" <= line {
        if section != InPeer {
          return false;
        }
        continue;
      }
      if line == "[Interface]" {
        interfaceCount := interfaceCount + 1;
        if interfaceCount != 1 || section != Top {
          return false;
        }
        section := InInterface;
        continue;
      }
      if line == "[Peer]" {
        if section == Top {
          return false;
        }
        section := InPeer;
        continue;
      }
      var cut := Cut(line, " = ");
      if cut.None? || cut.value.1 == "" {
        return false;
      }
      var key := cut.value.0;
      if (section == InInterface && !InterfaceKey(key)) || (section == InPeer && !PeerKey(key)) || section == Top {
        return false;
      }
    }
    return interfaceCount == 1;
  }

  lemma BadStaysBad(lines: seq<string>)
    ensures ScanFrom(Bad, lines) == Bad
  {
  }

  const KEY_LINE: string := "PrivateKey = "

  function ReadKey(lines: seq<string>, key: string): (r: Option<string>) {
    if lines == [] then Some(key)
    else if KEY_LINE <= lines[0] then
      (if key != "" then None else ReadKey(lines[1..], lines[0][|KEY_LINE|..]))
    else ReadKey(lines[1..], key)
  }

  /** The private key an owned config carries; None when it carries several. */
  function ConfigPrivateKey(config: string): (r: Option<string>) {
    ReadKey(Split(config, NEWLINE), "")
  }

  /** The loop of configInterfacePublicKey, up to the key derivation. */
  method ReadPrivateKey(config: string) returns (r: Option<string>)
    ensures r == ConfigPrivateKey(config)
  {
    var privateKey := "";
    var lines := Split(config, NEWLINE);
    for i := 0 to |lines|
      invariant ReadKey(lines, "") == ReadKey(lines[i..], privateKey)
    {
      assert lines[i..] == [lines[i]] + lines[i + 1..];
      if !(KEY_LINE <= lines[i]) {
        continue;
      }
      if privateKey != "" {
        return None;
      }
      privateKey := lines[i][|KEY_LINE|..];
    }
    return Some(privateKey);
  }

  /** The config above its first [Peer]. */
  function InterfaceSection(conf: string): (head: string) { Before(conf, "\n[Peer]") }

  // ---- Printer and readers agree ---------------------------------------------

  ghost predicate PlainLine(line: string) { forall c | c in line :: c != NEWLINE && c != '\r' && c != '\0' }

  ghost predicate GoodSetting(s: Setting) {
    InterfaceKey(s.0) && s.1 != "" && PlainLine(s.1)
  }

  ghost predicate AllGood(settings: seq<Setting>) { forall s | s in settings :: GoodSetting(s) }

  lemma AllGoodAppend(a: seq<Setting>, b: seq<Setting>)
    requires AllGood(a) && AllGood(b)
    ensures AllGood(a + b)
  {
    hide InterfaceKey;
  }

  lemma {:induction false} HeadersGood(hs: seq<string>, n: nat)
    requires n <= |hs| == 4 && forall v | v in hs :: PlainValue(v)
    ensures AllGood(HeaderSettings(hs, n))
  {
    if n > 0 {
      HeadersGood(hs, n - 1);
      assert hs[n - 1] in hs;
      assert Digits(n) == [DigitChar(n)];
      if n == 1 {
        assert "H" + Digits(n) == "H1";
      } else if n == 2 {
        assert "H" + Digits(n) == "H2";
      } else if n == 3 {
        assert "H" + Digits(n) == "H3";
      } else if n == 4 {
        assert "H" + Digits(n) == "H4";
      }
    }
  }

  lemma {:induction false} SignaturesGood(sigs: seq<string>, n: nat)
    requires n <= |sigs| == 5 && forall v | v in sigs :: PlainValue(v)
    ensures AllGood(SignatureSettings(sigs, n))
  {
    if n > 0 {
      SignaturesGood(sigs, n - 1);
      assert sigs[n - 1] in sigs;
      assert Digits(n) == [DigitChar(n)];
      if n == 1 {
        assert "I" + Digits(n) == "I1";
      } else if n == 2 {
        assert "I" + Digits(n) == "I2";
      } else if n == 3 {
        assert "I" + Digits(n) == "I3";
      } else if n == 4 {
        assert "I" + Digits(n) == "I4";
      } else if n == 5 {
        assert "I" + Digits(n) == "I5";
      }
    }
  }

  lemma {:induction false} TrimmedGood(pairs: seq<Setting>, n: nat)
    requires n <= |pairs| && forall s | s in pairs :: InterfaceKey(s.0) && PlainValue(s.1)
    ensures AllGood(TrimmedSettings(pairs, n))
  {
    hide InterfaceKey, GoodSetting, PlainValue, Trim;
    if n > 0 {
      TrimmedGood(pairs, n - 1);
      assert pairs[n - 1] in pairs;
      if Trim(pairs[n - 1].1) != "" {
        TrimmedOne(pairs[n - 1]);
      }
    }
  }

  lemma TrimmedOne(s: Setting)
    requires InterfaceKey(s.0) && PlainValue(s.1) && Trim(s.1) != ""
    ensures GoodSetting((s.0, Trim(s.1)))
  {
    hide InterfaceKey;
  }

  lemma JunkGood(o: Obfuscation31)
    ensures AllGood(JunkSettings(o))
  {
    ItoaPlain(o.jc);
    ItoaPlain(o.jmin);
    ItoaPlain(o.jmax);
    ItoaPlain(o.s1);
    ItoaPlain(o.s2);
    ItoaPlain(o.s3);
    ItoaPlain(o.s4);
  }

  lemma ItoaPlain(n: int)
    ensures Itoa(n) != "" && PlainLine(Itoa(n))
  {
  }

  lemma FlagsGood(o: Obfuscation31)
    ensures AllGood(FlagSettings(o))
  {
  }

  lemma OptionalGood(inst: Instance)
    requires PlainInterface(inst)
    ensures AllGood(TrimmedSettings(OptionalPairs(inst.obfuscation), 7))
  {
    var pairs := OptionalPairs(inst.obfuscation);
    assert forall s | s in pairs :: InterfaceKey(s.0);
    TrimmedGood(pairs, 7);
  }

  lemma FirstGood(inst: Instance)
    requires Renderable(inst)
    ensures AllGood([("PrivateKey", inst.privateKey), ("ListenPort", Itoa(inst.listenPort))])
  {
    ItoaPlain(inst.listenPort);
  }

  lemma SettingsGood(inst: Instance)
    requires Renderable(inst)
    ensures AllGood(InterfaceSettings(inst))
  {
    hide InterfaceKey, GoodSetting;
    var o := inst.obfuscation;
    var headers, signatures := HeaderSettings(o.Headers(), 4), SignatureSettings(o.Signatures(), 5);
    var trimmed := TrimmedSettings(OptionalPairs(o), 7);
    JunkGood(o);
    FlagsGood(o);
    HeadersGood(o.Headers(), 4);
    SignaturesGood(o.Signatures(), 5);
    OptionalGood(inst);
    AllGoodAppend(JunkSettings(o), headers);
    AllGoodAppend(JunkSettings(o) + headers, signatures);
    AllGoodAppend(JunkSettings(o) + headers + signatures, trimmed);
    AllGoodAppend(JunkSettings(o) + headers + signatures + trimmed, FlagSettings(o));
    FirstGood(inst);
    AllGoodAppend([("PrivateKey", inst.privateKey), ("ListenPort", Itoa(inst.listenPort))], ObfuscationSettings(o));
  }

  lemma {:induction false} ScanAppend(st: Scan, a: seq<string>, b: seq<string>)
    ensures ScanFrom(st, a + b) == ScanFrom(ScanFrom(st, a), b)
    decreases a
  {
    if a == [] {
      assert a + b == b;
    } else {
      assert (a + b)[1..] == a[1..] + b;
      ScanAppend(ScanLine(st, a[0]), a[1..], b);
    }
  }

  ghost predicate KeyShaped(k: string) { k != "" && k[0] != '#' && k[0] != '[' && ' ' !in k && PlainLine(k) }

  lemma BasicShape(k: string)
    requires k in BASIC_KEYS
    ensures KeyShaped(k)
  {
  }

  lemma PacketShape(k: string)
    requires k in PACKET_KEYS
    ensures KeyShaped(k)
  {
  }

  lemma KeyKeyShape(k: string)
    requires k in KEY_KEYS
    ensures KeyShaped(k)
  {
  }

  lemma LimitShape(k: string)
    requires k in LIMIT_KEYS
    ensures KeyShaped(k)
  {
  }

  lemma PeerKeyShape(k: string)
    requires PeerKey(k)
    ensures KeyShaped(k)
  {
  }

  lemma KeyShape(k: string)
    requires InterfaceKey(k) || PeerKey(k)
    ensures KeyShaped(k)
  {
    if k in BASIC_KEYS {
      BasicShape(k);
    } else if k in PACKET_KEYS {
      PacketShape(k);
    } else if k in KEY_KEYS {
      KeyKeyShape(k);
    } else if k in LIMIT_KEYS {
      LimitShape(k);
    } else {
      PeerKeyShape(k);
    }
  }

  lemma KeyLineScans(st: Scan, key: string, value: string)
    requires st.At? && (if st.section == InInterface then InterfaceKey(key) else st.section == InPeer && PeerKey(key))
    ensures ScanLine(st, key + " = " + value) == if value == "" then Bad else st
  {
    hide InterfaceKey, PeerKey;
    KeyShape(key);
    CutAtSeparator(key, " = ", value);
    assert (key + " = " + value)[0] == key[0];
  }

  lemma {:induction false} SettingsScan(settings: seq<Setting>)
    requires AllGood(settings)
    ensures ScanFrom(At(InInterface, 1), SettingLines(settings)) == At(InInterface, 1)
  {
    hide InterfaceKey;
    if settings != [] {
      assert settings[0] in settings;
      KeyLineScans(At(InInterface, 1), settings[0].0, settings[0].1);
      SettingsScan(settings[1..]);
      assert SettingLines(settings)[1..] == SettingLines(settings[1..]);
    }
  }

  lemma HeadScan(inst: Instance)
    requires Renderable(inst)
    ensures ScanFrom(At(Top, 0), HeadLines(inst)[1..]) == At(InInterface, 1)
  {
    hide *;
    var settings := InterfaceSettings(inst);
    SettingsGood(inst);
    SettingsScan(settings);
    HeadTail(inst);
    ScanAppend(At(Top, 0), ["[Interface]"], SettingLines(settings));
    InterfaceOpens();
  }

  lemma HeadTail(inst: Instance)
    ensures HeadLines(inst)[1..] == ["[Interface]"] + SettingLines(InterfaceSettings(inst))
  {
    hide InterfaceSettings, SettingLines, OwnershipMarker;
  }

  lemma InterfaceOpens()
    ensures ScanFrom(At(Top, 0), ["[Interface]"]) == At(InInterface, 1)
  {
    hide InterfaceKey, PeerKey, Cut;
    SingleScan(At(Top, 0), ["[Interface]"]);
    assert "[Interface]"[0] != '#';
  }

  /** The one shape Render prints and the reader rejects: a lone empty allowed-IP entry. */
  predicate PrintsAllowedIPs(p: Peer) { RendersPeer(p) ==> p.allowedIPs != [""] }

  lemma JoinEmpty(ips: seq<string>)
    requires ips != []
    ensures Join(ips, ", ") == "" <==> ips == [""]
  {
  }

  lemma PeerScan(sec: Section, p: Peer)
    requires sec != Top && PlainPeer(p)
    ensures RendersPeer(p) ==>
      ScanFrom(At(sec, 1), PeerLines(p)) == if PrintsAllowedIPs(p) then At(InPeer, 1) else Bad
  {
    hide Join, ScanFrom, ScanLine, EmailLines, PresharedLines, AllowedLines, PlainPeer;
    if RendersPeer(p) {
      var st, top := At(InPeer, 1), ["", "[Peer]"];
      var email, key, psk, last := EmailLines(p), ["PublicKey = " + p.publicKey], PresharedLines(p), AllowedLines(p);
      ScanAppend(At(sec, 1), top + email + key + psk, last);
      ScanAppend(At(sec, 1), top + email + key, psk);
      ScanAppend(At(sec, 1), top + email, key);
      ScanAppend(At(sec, 1), top, email);
      PeerOpens(sec);
      EmailScans(p);
      KeysScan(p);
      AllowedScans(p);
    }
  }

  lemma PeerOpens(sec: Section)
    requires sec != Top
    ensures ScanFrom(At(sec, 1), ["", "[Peer]"]) == At(InPeer, 1)
  {
    hide InterfaceKey, PeerKey, Cut;
    var st := At(sec, 1);
    ScanAppend(st, [""], ["[Peer]"]);
    SingleScan(st, [""]);
    SingleScan(st, ["[Peer]"]);
    assert ["", "[Peer]"] == [""] + ["[Peer]"];
    assert |"[Peer]"| != |"[Interface]"| && "[Peer]"[0] != '#';
  }

  lemma EmailScans(p: Peer)
    ensures ScanFrom(At(InPeer, 1), EmailLines(p)) == At(InPeer, 1)
  {
    hide InterfaceKey, PeerKey, Cut;
    SingleScan(At(InPeer, 1), EmailLines(p));
    assert p.email != "" ==> "#" <= EmailLines(p)[0];
  }

  lemma KeysScan(p: Peer)
    requires p.publicKey != ""
    ensures ScanFrom(At(InPeer, 1), ["PublicKey = " + p.publicKey]) == At(InPeer, 1)
    ensures ScanFrom(At(InPeer, 1), PresharedLines(p)) == At(InPeer, 1)
  {
    hide ScanFrom, ScanLine;
    var st := At(InPeer, 1);
    SingleScan(st, ["PublicKey = " + p.publicKey]);
    SingleScan(st, PresharedLines(p));
    assert "PublicKey" + " = " == "PublicKey = " && "PresharedKey" + " = " == "PresharedKey = ";
    KeyLineScans(st, "PublicKey", p.publicKey);
    KeyLineScans(st, "PresharedKey", p.presharedKey);
  }

  lemma AllowedScans(p: Peer)
    requires RendersPeer(p)
    ensures ScanFrom(At(InPeer, 1), AllowedLines(p)) == if PrintsAllowedIPs(p) then At(InPeer, 1) else Bad
  {
    hide ScanFrom, ScanLine, Join;
    var st, ips := At(InPeer, 1), Join(p.allowedIPs, ", ");
    JoinEmpty(p.allowedIPs);
    SingleScan(st, AllowedLines(p));
    assert "AllowedIPs" + " = " == "AllowedIPs = ";
    KeyLineScans(st, "AllowedIPs", ips);
  }

  lemma SingleScan(st: Scan, lines: seq<string>)
    ensures lines == [] ==> ScanFrom(st, lines) == st
    ensures |lines| == 1 ==> ScanFrom(st, lines) == ScanLine(st, lines[0])
  {
    if |lines| == 1 {
      assert lines[1..] == [];
    }
  }

  lemma {:induction false} PeersScan(peers: seq<Peer>)
    requires forall p | p in peers :: PlainPeer(p)
    ensures
      var end := ScanFrom(At(InInterface, 1), PeersLines(peers));
      if forall p | p in peers :: PrintsAllowedIPs(p) then end.At? && end.section != Top && end.interfaces == 1
      else end == Bad
  {
    hide InterfaceKey;
    if peers != [] {
      var init, p := peers[..|peers| - 1], peers[|peers| - 1];
      PeersScan(init);
      var mid := ScanFrom(At(InInterface, 1), PeersLines(init));
      ScanAppend(At(InInterface, 1), PeersLines(init), PeerLines(p));
      assert forall q | q in peers :: q in init || q == p;
      if mid == Bad {
        BadStaysBad(PeerLines(p));
      } else {
        PeerScan(mid.section, p);
      }
    }
  }

  // ---- The whole text --------------------------------------------------------

  lemma {:induction false} JoinPlain(ips: seq<string>)
    requires forall a | a in ips :: PlainLine(a)
    ensures PlainLine(Join(ips, ", "))
  {
    if ips != [] {
      assert ips[0] in ips;
      JoinPlain(ips[1..]);
    }
  }

  lemma PeerLinesPlain(p: Peer)
    requires PlainPeer(p)
    ensures AllPlain(PeerLines(p))
  {
    JoinPlain(p.allowedIPs);
    PlainAfter("# ", p.email);
    PlainAfter("PublicKey = ", p.publicKey);
    PlainAfter("PresharedKey = ", p.presharedKey);
    PlainAfter("AllowedIPs = ", Join(p.allowedIPs, ", "));
    assert PlainLine("") && PlainLine("[Peer]");
    hide PlainLine, PlainValue;
  }

  lemma PlainAfter(tag: string, value: string)
    requires PlainLine(tag) && PlainLine(value)
    ensures PlainLine(tag + value)
  {
  }

  lemma {:induction false} PeersLinesPlain(peers: seq<Peer>)
    requires forall p | p in peers :: PlainPeer(p)
    ensures AllPlain(PeersLines(peers))
  {
    if peers != [] {
      PeersLinesPlain(peers[..|peers| - 1]);
      PeerLinesPlain(peers[|peers| - 1]);
    }
  }

  ghost predicate AllPlain(lines: seq<string>) { forall line | line in lines :: PlainLine(line) }

  lemma SettingLinesPlain(settings: seq<Setting>)
    requires AllGood(settings)
    ensures AllPlain(SettingLines(settings))
  {
    hide InterfaceKey, PeerKey;
    forall line | line in SettingLines(settings)
      ensures PlainLine(line)
    {
      var i :| 0 <= i < |settings| && line == SettingLine(settings[i]);
      assert GoodSetting(settings[i]);
      KeyShape(settings[i].0);
    }
  }

  lemma HeadLinesPlain(inst: Instance)
    requires Renderable(inst)
    ensures AllPlain(HeadLines(inst))
  {
    hide InterfaceKey, PeerKey, InterfaceSettings, Renderable, PlainLine, OwnershipMarker, SettingLines;
    SettingsGood(inst);
    SettingLinesPlain(InterfaceSettings(inst));
    MarkerPlain(inst.id);
  }

  lemma MarkerPlain(id: int)
    ensures PlainLine(OwnershipMarker(id)) && PlainLine("[Interface]")
  {
    hide PlainLine, Itoa;
    ItoaPlain(id);
    TitlesPlain();
    PlainJoin(INTERFACE_PREFIX, Itoa(id));
    PlainJoin("# 3x-ui-owned-amneziawg: ", InterfaceName(id));
  }

  lemma TitlesPlain()
    ensures PlainLine("# 3x-ui-owned-amneziawg: ") && PlainLine(INTERFACE_PREFIX) && PlainLine("[Interface]")
  {
  }

  lemma PlainJoin(a: string, b: string)
    requires PlainLine(a) && PlainLine(b)
    ensures PlainLine(a + b)
  {
  }

  lemma {:induction false} UnlinesPlain(lines: seq<string>)
    requires AllPlain(lines)
    ensures SingleLines(lines)
    ensures '\r' !in Unlines(lines) && '\0' !in Unlines(lines)
  {
    if lines != [] {
      assert lines[0] in lines;
      UnlinesPlain(lines[1..]);
    }
  }

  lemma ConfigLinesPlain(inst: Instance)
    requires Renderable(inst)
    ensures SingleLines(ConfigLines(inst)) && SingleLines(HeadLines(inst))
    ensures '\r' !in Rendered(inst) && '\0' !in Rendered(inst)
  {
    hide HeadLines, PeersLines, PlainLine, PlainPeer;
    HeadLinesPlain(inst);
    PeersLinesPlain(inst.peers);
    UnlinesPlain(HeadLines(inst));
    UnlinesPlain(ConfigLines(inst));
  }

  lemma ScanTail(st: Scan)
    ensures ScanFrom(st, [""]) == st
  {
    SingleScan(st, [""]);
  }

  lemma MarkerFirst(inst: Instance)
    ensures HeadLines(inst) != [] && OwnershipMarker(inst.id) + "\n" <= Rendered(inst)
  {
    hide InterfaceSettings, PeersLines, OwnershipMarker;
    assert ConfigLines(inst)[0] == OwnershipMarker(inst.id);
  }

  /** The text Render prints is recognised as the panel's own for its inbound, except
      exactly when a rendered peer's only allowed IP is the empty text. */
  lemma RenderedIsOwned(inst: Instance)
    requires Renderable(inst)
    ensures ValidOwned(Rendered(inst), inst.id) <==> forall p | p in inst.peers :: PrintsAllowedIPs(p)
  {
    hide ScanLine, HeadLines, PeersLines, PlainPeer, PrintsAllowedIPs;
    var head, peers := HeadLines(inst), PeersLines(inst.peers);
    ConfigLinesPlain(inst);
    MarkerFirst(inst);
    SplitUnlines(ConfigLines(inst));
    assert (head + peers + [""])[1..] == head[1..] + (peers + [""]);
    ScanAppend(At(Top, 0), head[1..], peers + [""]);
    HeadScan(inst);
    ScanAppend(At(InInterface, 1), peers, [""]);
    PeersScan(inst.peers);
    ScanTail(ScanFrom(At(InInterface, 1), peers));
  }

  // ---- The interface section and the key it carries --------------------------

  function UpToPeer(lines: seq<string>): seq<string> {
    if lines == [] || "[Peer]" <= lines[0] then [] else [lines[0]] + UpToPeer(lines[1..])
  }

  /** The lines of the interface section. */
  function HeadOf(lines: seq<string>): seq<string>
    requires lines != []
  {
    [lines[0]] + UpToPeer(lines[1..])
  }

  lemma {:induction false} SectionLines(c: string)
    ensures Split(InterfaceSection(c), NEWLINE) == HeadOf(Split(c, NEWLINE))
  {
    if c != "" {
      var t := c[1..];
      SectionLines(t);
      BeforeStep(c, "\n[Peer]");
      FirstPieceStarts(t, "[Peer]", NEWLINE);
      HeaderNext(c, t);
    }
  }

  lemma HeaderNext(c: string, t: string)
    requires c != "" && t == c[1..]
    ensures "\n[Peer]" <= c <==> c[0] == NEWLINE && "[Peer]" <= t
  {
    assert "\n[Peer]" == [NEWLINE] + "[Peer]" && c == [c[0]] + t;
  }

  lemma {:induction false} UpToPeerPrefix(lines: seq<string>)
    ensures var head := UpToPeer(lines);
      head <= lines && (head == lines || "[Peer]" <= lines[|head|])
  {
    if lines != [] && !("[Peer]" <= lines[0]) {
      UpToPeerPrefix(lines[1..]);
    }
  }

  ghost predicate NoKeyLine(lines: seq<string>) { forall i | 0 <= i < |lines| :: !(KEY_LINE <= lines[i]) }

  lemma {:induction false} ReadKeyAppend(a: seq<string>, b: seq<string>, key: string)
    requires NoKeyLine(b)
    ensures ReadKey(a + b, key) == ReadKey(a, key)
  {
    if a == [] {
      assert a + b == b;
      ReadNoKey(b, key);
    } else {
      assert (a + b)[1..] == a[1..] + b;
      ReadKeyAppend(a[1..], b, key);
      if KEY_LINE <= a[0] {
        ReadKeyAppend(a[1..], b, a[0][|KEY_LINE|..]);
      }
    }
  }

  lemma {:induction false} ReadNoKey(lines: seq<string>, key: string)
    requires NoKeyLine(lines)
    ensures ReadKey(lines, key) == Some(key)
  {
    if lines != [] {
      ReadNoKey(lines[1..], key);
    }
  }

  lemma KeyLineKey(line: string)
    requires KEY_LINE <= line
    ensures Cut(line, " = ").Some? && Cut(line, " = ").value.0 == "PrivateKey"
    ensures line[0] == 'P'
  {
    var value := line[|KEY_LINE|..];
    assert "PrivateKey" + " = " == KEY_LINE;
    assert line == "PrivateKey" + " = " + value;
    CutAtSeparator("PrivateKey", " = ", value);
  }

  lemma {:induction false} PeersCarryNoKey(st: Scan, lines: seq<string>)
    requires st.At? && st.section == InPeer && ScanFrom(st, lines) != Bad
    ensures NoKeyLine(lines)
    decreases lines
  {
    hide InterfaceKey;
    assert !PeerKey("PrivateKey");
    if lines != [] {
      BadStaysBad(lines[1..]);
      if KEY_LINE <= lines[0] {
        KeyLineKey(lines[0]);
      }
      PeersCarryNoKey(ScanLine(st, lines[0]), lines[1..]);
    }
  }

  /** A line that starts like a peer header opens a peer section or is no line of ours. */
  lemma PeerHeaderScans(st: Scan, line: string)
    requires "[Peer]" <= line
    ensures ScanLine(st, line) == Bad || (ScanLine(st, line).section == InPeer && !(KEY_LINE <= line))
  {
    hide InterfaceKey, PeerKey;
    assert line[0] == '[' && "[Interface]"[1] != "[Peer]"[1];
    var cut := Cut(line, " = ");
    if cut.Some? && (InterfaceKey(cut.value.0) || PeerKey(cut.value.0)) {
      KeyShape(cut.value.0);
    }
  }

  /** Everything an owned config says about its private key stands above its peers. */
  lemma KeyInSection(c: string, id: int)
    requires ValidOwned(c, id)
    ensures ConfigPrivateKey(c) == ConfigPrivateKey(InterfaceSection(c))
  {
    hide ScanLine, OwnershipMarker, InterfaceSection, ScanFrom, ReadKey, NoKeyLine, Split;
    var lines := Split(c, NEWLINE);
    SectionLines(c);
    UpToPeerPrefix(lines[1..]);
    var above := UpToPeer(lines[1..]);
    var rest := lines[1..][|above|..];
    assert lines[1..] == above + rest;
    assert lines == HeadOf(lines) + rest;
    ScanAppend(At(Top, 0), above, rest);
    PeerPartHasNoKey(ScanFrom(At(Top, 0), above), rest);
    ReadKeyAppend(HeadOf(lines), rest, "");
  }

  lemma PeerPartHasNoKey(st: Scan, rest: seq<string>)
    requires ScanFrom(st, rest) != Bad && (rest != [] ==> "[Peer]" <= rest[0])
    ensures NoKeyLine(rest)
  {
    hide ScanLine;
    if rest != [] {
      PeerHeaderScans(st, rest[0]);
      BadStaysBad(rest[1..]);
      PeersCarryNoKey(ScanLine(st, rest[0]), rest[1..]);
    }
  }

  ghost predicate NotKeySetting(s: Setting) { s.0 != "" && s.0[0] != 'P' && s.0[0] != '[' }

  ghost predicate NotKeySettings(settings: seq<Setting>) {
    forall i | 0 <= i < |settings| :: NotKeySetting(settings[i])
  }

  lemma NotKeyAppend(a: seq<Setting>, b: seq<Setting>)
    requires NotKeySettings(a) && NotKeySettings(b)
    ensures NotKeySettings(a + b)
  {
  }

  lemma {:induction false} HeadersNotKey(hs: seq<string>, n: nat)
    requires n <= |hs|
    ensures NotKeySettings(HeaderSettings(hs, n))
  {
    if n > 0 {
      HeadersNotKey(hs, n - 1);
    }
  }

  lemma {:induction false} SignaturesNotKey(sigs: seq<string>, n: nat)
    requires n <= |sigs|
    ensures NotKeySettings(SignatureSettings(sigs, n))
  {
    if n > 0 {
      SignaturesNotKey(sigs, n - 1);
    }
  }

  lemma {:induction false} TrimmedNotKey(pairs: seq<Setting>, n: nat)
    requires n <= |pairs| && NotKeySettings(pairs)
    ensures NotKeySettings(TrimmedSettings(pairs, n))
  {
    if n > 0 {
      TrimmedNotKey(pairs, n - 1);
    }
  }

  lemma ObfuscationNotKey(o: Obfuscation31)
    ensures NotKeySettings(ObfuscationSettings(o))
  {
    hide NotKeySetting, HeaderSettings, SignatureSettings, TrimmedSettings;
    var headers, signatures := HeaderSettings(o.Headers(), 4), SignatureSettings(o.Signatures(), 5);
    var trimmed := TrimmedSettings(OptionalPairs(o), 7);
    JunkNotKey(o);
    HeadersNotKey(o.Headers(), 4);
    SignaturesNotKey(o.Signatures(), 5);
    PairsNotKey(o);
    TrimmedNotKey(OptionalPairs(o), 7);
    NotKeyAppend(JunkSettings(o), headers);
    NotKeyAppend(JunkSettings(o) + headers, signatures);
    NotKeyAppend(JunkSettings(o) + headers + signatures, trimmed);
    NotKeyAppend(JunkSettings(o) + headers + signatures + trimmed, FlagSettings(o));
  }

  lemma JunkNotKey(o: Obfuscation31)
    ensures NotKeySettings(JunkSettings(o)) && NotKeySettings(FlagSettings(o))
  {
  }

  lemma PairsNotKey(o: Obfuscation31)
    ensures NotKeySettings(OptionalPairs(o))
  {
  }

  lemma {:induction false} OtherLinesSkipped(settings: seq<Setting>, rest: seq<string>, key: string)
    requires NotKeySettings(settings)
    ensures ReadKey(SettingLines(settings) + rest, key) == ReadKey(rest, key)
    ensures UpToPeer(SettingLines(settings) + rest) == SettingLines(settings) + UpToPeer(rest)
  {
    var lines := SettingLines(settings);
    if settings != [] {
      assert NotKeySetting(settings[0]);
      assert lines[0][0] == settings[0].0[0];
      assert (lines + rest)[1..] == SettingLines(settings[1..]) + rest;
      OtherLinesSkipped(settings[1..], rest, key);
      assert lines == [lines[0]] + SettingLines(settings[1..]);
    } else {
      assert lines + rest == rest;
    }
  }

  lemma {:induction false} PeersOpenWithHeader(peers: seq<Peer>)
    ensures var lines := PeersLines(peers);
      lines == [] || (|lines| >= 2 && lines[0] == "" && lines[1] == "[Peer]")
  {
    if peers != [] {
      PeersOpenWithHeader(peers[..|peers| - 1]);
    }
  }

  lemma PeersSectionEnds(peers: seq<Peer>)
    ensures UpToPeer(PeersLines(peers) + [""]) == [""]
  {
    PeersOpenWithHeader(peers);
    var lines := PeersLines(peers) + [""];
    assert lines[0] == "" && !("[Peer]" <= lines[0]);
    if PeersLines(peers) == [] {
      assert lines[1..] == [];
    } else {
      assert lines[1] == "[Peer]" && "[Peer]" <= lines[1..][0];
      assert UpToPeer(lines[1..]) == [];
    }
  }

  lemma HeadLinesShape(inst: Instance)
    ensures exists others ::
      && NotKeySettings(others)
      && HeadLines(inst)
         == [OwnershipMarker(inst.id), "[Interface]", KEY_LINE + inst.privateKey] + SettingLines(others)
  {
    hide ObfuscationSettings, OwnershipMarker, SettingLines, Itoa;
    ObfuscationNotKey(inst.obfuscation);
    var port: seq<Setting> := [("ListenPort", Itoa(inst.listenPort))];
    var others := port + ObfuscationSettings(inst.obfuscation);
    NotKeyAppend(port, ObfuscationSettings(inst.obfuscation));
    var settings := InterfaceSettings(inst);
    assert settings == [("PrivateKey", inst.privateKey)] + others;
    KeySettingLine(inst.privateKey, others);
  }

  lemma KeySettingLine(key: string, others: seq<Setting>)
    ensures SettingLines([("PrivateKey", key)] + others) == [KEY_LINE + key] + SettingLines(others)
  {
    assert "PrivateKey" + " = " == KEY_LINE;
  }

  lemma HeadOfConfig(inst: Instance)
    ensures HeadLines(inst) != []
    ensures HeadOf(ConfigLines(inst) + [""]) == HeadLines(inst) + [""]
  {
    hide HeadLines, PeersLines, OwnershipMarker, UpToPeer, HeadOf, SettingLines, NotKeySettings;
    var top := [OwnershipMarker(inst.id), "[Interface]", KEY_LINE + inst.privateKey];
    HeadLinesShape(inst);
    var others :| NotKeySettings(others) && HeadLines(inst) == top + SettingLines(others);
    var lines := SettingLines(others);
    var peers := PeersLines(inst.peers) + [""];
    OtherLinesSkipped(others, peers, "");
    PeersSectionEnds(inst.peers);
    TopStays(OwnershipMarker(inst.id), inst.privateKey, lines + peers);
    assert ConfigLines(inst) + [""] == top + (lines + peers);
    assert HeadLines(inst) + [""] == top + (lines + [""]);
  }

  /** The interface section is the text without its peers, whatever the peers are. */
  lemma SectionOfRendered(inst: Instance)
    requires Renderable(inst)
    ensures InterfaceSection(Rendered(inst)) == Unlines(HeadLines(inst))
  {
    hide HeadLines, PeersLines, HeadOf, Unlines;
    HeadOfConfig(inst);
    ConfigLinesPlain(inst);
    SplitUnlines(ConfigLines(inst));
    SplitUnlines(HeadLines(inst));
    SectionLines(Rendered(inst));
    SplitInjective(InterfaceSection(Rendered(inst)), Unlines(HeadLines(inst)), NEWLINE);
  }

  lemma TopStays(marker: string, key: string, rest: seq<string>)
    ensures HeadOf([marker, "[Interface]", KEY_LINE + key] + rest)
      == [marker, "[Interface]", KEY_LINE + key] + UpToPeer(rest)
  {
    hide UpToPeer;
    var middle := ["[Interface]", KEY_LINE + key];
    OpeningKept(key);
    PlainLinesKept(middle, rest);
    assert ([marker, "[Interface]", KEY_LINE + key] + rest)[1..] == middle + rest;
  }

  lemma OpeningKept(key: string)
    ensures !("[Peer]" <= "[Interface]") && !("[Peer]" <= KEY_LINE + key)
  {
    assert "[Interface]"[1] != "[Peer]"[1];
    assert (KEY_LINE + key)[0] == 'P' && "[Peer]"[0] != 'P';
  }

  lemma {:induction false} PlainLinesKept(a: seq<string>, b: seq<string>)
    requires forall i | 0 <= i < |a| :: !("[Peer]" <= a[i])
    ensures UpToPeer(a + b) == a + UpToPeer(b)
  {
    if a == [] {
      assert a + b == b;
    } else {
      assert (a + b)[1..] == a[1..] + b;
      PlainLinesKept(a[1..], b);
    }
  }

  /** The reader gets back exactly the private key that was printed. */
  lemma KeyReadBack(inst: Instance)
    requires Renderable(inst) && forall p | p in inst.peers :: PrintsAllowedIPs(p)
    ensures ConfigPrivateKey(Rendered(inst)) == Some(inst.privateKey)
  {
    hide HeadLines, OwnershipMarker, ValidOwned;
    RenderedIsOwned(inst);
    KeyInSection(Rendered(inst), inst.id);
    SectionOfRendered(inst);
    ConfigLinesPlain(inst);
    SplitUnlines(HeadLines(inst));
    var top := [OwnershipMarker(inst.id), "[Interface]", KEY_LINE + inst.privateKey];
    HeadLinesShape(inst);
    var others :| NotKeySettings(others) && HeadLines(inst) == top + SettingLines(others);
    assert HeadLines(inst) + [""] == top + (SettingLines(others) + [""]);
    OtherLinesSkipped(others, [""], inst.privateKey);
    TopReads(inst, SettingLines(others) + [""]);
    ReadNoKey([""], inst.privateKey);
  }

  lemma TopReads(inst: Instance, rest: seq<string>)
    ensures ReadKey([OwnershipMarker(inst.id), "[Interface]", KEY_LINE + inst.privateKey] + rest, "")
      == ReadKey(rest, inst.privateKey)
  {
    var line := KEY_LINE + inst.privateKey;
    assert OwnershipMarker(inst.id)[0] == '#' && KEY_LINE[0] == 'P' && "[Interface]"[0] == '[';
    hide OwnershipMarker;
    var lines := [OwnershipMarker(inst.id), "[Interface]", line] + rest;
    assert lines[1..] == ["[Interface]", line] + rest;
    assert lines[1..][1..] == [line] + rest;
    assert lines[1..][1..][1..] == rest;
    assert line[|KEY_LINE|..] == inst.privateKey;
    assert ReadKey(lines[1..][1..], "") == ReadKey(rest, inst.privateKey);
    assert ReadKey(lines[1..], "") == ReadKey(lines[1..][1..], "");
  }

  /** Two owned configs with the same interface section carry the same key. */
  lemma SameSectionSameKey(a: string, b: string, id: int)
    requires ValidOwned(a, id) && ValidOwned(b, id) && InterfaceSection(a) == InterfaceSection(b)
    ensures ConfigPrivateKey(a) == ConfigPrivateKey(b)
  {
    hide ValidOwned;
    KeyInSection(a, id);
    KeyInSection(b, id);
  }

  // ---- The structural fingerprint --------------------------------------------

  /** The text structuralFingerprint hashes; the hash itself is taken to be injective. */
  function FingerprintText(conf: string, addresses: seq<Prefix>, mtu: int): string {
    InterfaceSection(conf) + "\naddress=" + Join(addresses, ",") + "\nmtu=" + Itoa(mtu)
  }

  lemma {:induction false} JoinOneLine(parts: seq<Prefix>)
    ensures NEWLINE !in Join(parts, ",")
  {
    if parts != [] {
      JoinOneLine(parts[1..]);
    }
  }

  lemma FingerprintInjective(c1: string, a1: seq<Prefix>, m1: int, c2: string, a2: seq<Prefix>, m2: int)
    requires a1 != [] && a2 != []
    requires FingerprintText(c1, a1, m1) == FingerprintText(c2, a2, m2)
    ensures InterfaceSection(c1) == InterfaceSection(c2) && a1 == a2 && m1 == m2
  {
    hide InterfaceSection, Itoa, Join;
    JoinOneLine(a1);
    JoinOneLine(a2);
    ItoaPlain(m1);
    ItoaPlain(m2);
    var s1, s2 := InterfaceSection(c1), InterfaceSection(c2);
    var j1, j2 := Join(a1, ","), Join(a2, ",");
    var x1, x2 := s1 + "\n" + "address=" + j1, s2 + "\n" + "address=" + j2;
    assert FingerprintText(c1, a1, m1) == x1 + "\n" + ("mtu=" + Itoa(m1));
    assert FingerprintText(c2, a2, m2) == x2 + "\n" + ("mtu=" + Itoa(m2));
    LastPieceUnique(x1, "mtu=" + Itoa(m1), x2, "mtu=" + Itoa(m2), NEWLINE);
    assert Itoa(m1) == ("mtu=" + Itoa(m1))[4..] && Itoa(m2) == ("mtu=" + Itoa(m2))[4..];
    ItoaInjective(m1, m2);
    assert x1 == s1 + "\n" + ("address=" + j1) && x2 == s2 + "\n" + ("address=" + j2);
    LastPieceUnique(s1, "address=" + j1, s2, "address=" + j2, NEWLINE);
    assert j1 == ("address=" + j1)[8..] && j2 == ("address=" + j2)[8..];
    SplitJoin(a1, ',');
    SplitJoin(a2, ',');
  }

  lemma {:induction false} SettingLinesInjective(a: seq<Setting>, b: seq<Setting>)
    requires AllGood(a) && AllGood(b) && SettingLines(a) == SettingLines(b)
    ensures a == b
  {
    hide InterfaceKey, PeerKey;
    assert |a| == |b|;
    forall i | 0 <= i < |a|
      ensures a[i] == b[i]
    {
      assert a[i] in a && b[i] in b;
      assert SettingLines(a)[i] == SettingLine(a[i]) && SettingLines(b)[i] == SettingLine(b[i]);
      KeyShape(a[i].0);
      KeyShape(b[i].0);
      CutAtSeparator(a[i].0, " = ", a[i].1);
      CutAtSeparator(b[i].0, " = ", b[i].1);
    }
  }

  /** The fingerprint of a rendered inbound changes exactly when a rendered interface
      setting, an address or the MTU changes; peers never move it. */
  lemma FingerprintExact(a: Instance, a1: seq<Prefix>, m1: int, b: Instance, a2: seq<Prefix>, m2: int)
    requires Renderable(a) && Renderable(b) && a.id == b.id && a1 != [] && a2 != []
    ensures FingerprintText(Rendered(a), a1, m1) == FingerprintText(Rendered(b), a2, m2)
      <==> InterfaceSettings(a) == InterfaceSettings(b) && a1 == a2 && m1 == m2
  {
    hide InterfaceSection, Unlines, Rendered, InterfaceSettings, OwnershipMarker, Renderable;
    SectionOfRendered(a);
    SectionOfRendered(b);
    if FingerprintText(Rendered(a), a1, m1) == FingerprintText(Rendered(b), a2, m2) {
      FingerprintInjective(Rendered(a), a1, m1, Rendered(b), a2, m2);
      ConfigLinesPlain(a);
      ConfigLinesPlain(b);
      UnlinesInjective(HeadLines(a), HeadLines(b));
      SettingsGood(a);
      SettingsGood(b);
      assert SettingLines(InterfaceSettings(a)) == HeadLines(a)[2..];
      assert SettingLines(InterfaceSettings(b)) == HeadLines(b)[2..];
      SettingLinesInjective(InterfaceSettings(a), InterfaceSettings(b));
    }
  }
}

/** What the rendered text says: reading it line by line, as the reader below does, gives back
    every setting of the interface and of each rendered peer (internal/amneziawgkern/config.go). */
module KernelMeaning {
  import opened Text
  import opened AmneziaTypes
  import opened KernelConfig

  /** One section of a configuration and its settings, in order. */
  datatype Block = Block(name: string, settings: seq<Setting>)

  function AddTo(blocks: seq<Block>, settings: seq<Setting>): (r: seq<Block>)
    requires blocks != []
    ensures |r| == |blocks|
  {
    var last := blocks[|blocks| - 1];
    blocks[..|blocks| - 1] + [last.(settings := last.settings + settings)]
  }

  /** One line: blank and comment lines say nothing, a bracketed one opens a section, any other
      sets a key of the section it stands in. */
  function ReadLine(blocks: seq<Block>, line: string): (r: seq<Block>) {
    if line == "" || "#" <= line then blocks
    else if line == "[Interface]" || line == "[Peer]" then blocks + [Block(line, [])]
    else
      match Cut(line, " = ")
      case Some((key, value)) => if blocks == [] then blocks else AddTo(blocks, [(key, value)])
      case None => blocks
  }

  function ReadLines(blocks: seq<Block>, lines: seq<string>): seq<Block>
    decreases lines
  {
    if lines == [] then blocks else ReadLines(ReadLine(blocks, lines[0]), lines[1..])
  }

  /** The sections of a configuration text. */
  function Meaning(conf: string): seq<Block> { ReadLines([], Split(conf, NEWLINE)) }

  function PeerSettings(p: Peer): seq<Setting> {
    [("PublicKey", p.publicKey)]
    + (if p.presharedKey != "" then [("PresharedKey", p.presharedKey)] else [])
    + [("AllowedIPs", Join(p.allowedIPs, ", "))]
  }

  /** One section for each peer that has a key and addresses, in list order. */
  function PeerBlocks(peers: seq<Peer>): seq<Block> {
    if peers == [] then []
    else
      var p := peers[|peers| - 1];
      PeerBlocks(peers[..|peers| - 1]) + (if RendersPeer(p) then [Block("[Peer]", PeerSettings(p))] else [])
  }

  lemma {:induction false} ReadAppend(blocks: seq<Block>, a: seq<string>, b: seq<string>)
    ensures ReadLines(blocks, a + b) == ReadLines(ReadLines(blocks, a), b)
    decreases a
  {
    hide ReadLine;
    if a == [] {
      assert a + b == b;
    } else {
      assert (a + b)[1..] == a[1..] + b;
      ReadAppend(ReadLine(blocks, a[0]), a[1..], b);
    }
  }

  lemma ReadOne(blocks: seq<Block>, line: string)
    ensures ReadLines(blocks, [line]) == ReadLine(blocks, line) && ReadLines(blocks, []) == blocks
  {
    hide ReadLine;
    assert [line][1..] == [];
  }

  lemma ReadSetting(blocks: seq<Block>, s: Setting)
    requires blocks != [] && (InterfaceKey(s.0) || PeerKey(s.0))
    ensures ReadLine(blocks, SettingLine(s)) == AddTo(blocks, [s])
  {
    hide InterfaceKey, PeerKey, AddTo;
    KeyShape(s.0);
    CutAtSeparator(s.0, " = ", s.1);
    assert SettingLine(s)[0] == s.0[0];
  }

  lemma AddTwice(blocks: seq<Block>, a: seq<Setting>, b: seq<Setting>)
    requires blocks != []
    ensures AddTo(AddTo(blocks, a), b) == AddTo(blocks, a + b) && AddTo(blocks, []) == blocks
  {
    var last := blocks[|blocks| - 1];
    assert (last.settings + a) + b == last.settings + (a + b) && last.settings + [] == last.settings;
  }

  lemma {:induction false} ReadSettings(blocks: seq<Block>, settings: seq<Setting>)
    requires blocks != [] && forall s | s in settings :: InterfaceKey(s.0) || PeerKey(s.0)
    ensures ReadLines(blocks, SettingLines(settings)) == AddTo(blocks, settings)
    decreases settings
  {
    hide InterfaceKey, PeerKey, AddTo, ReadLine, SettingLine;
    var lines := SettingLines(settings);
    if settings == [] {
      AddTwice(blocks, [], []);
    } else {
      ReadSetting(blocks, settings[0]);
      assert lines[1..] == SettingLines(settings[1..]);
      ReadSettings(AddTo(blocks, [settings[0]]), settings[1..]);
      AddTwice(blocks, [settings[0]], settings[1..]);
      assert settings == [settings[0]] + settings[1..];
    }
  }

  /** A rendered peer's section is its header, perhaps a comment, and its settings. */
  lemma PeerLinesAre(p: Peer)
    requires RendersPeer(p)
    ensures PeerLines(p) == ["", "[Peer]"] + (if p.email != "" then ["# " + p.email] else [])
      + SettingLines(PeerSettings(p))
  {
    assert "PublicKey" + " = " == "PublicKey = " && "PresharedKey" + " = " == "PresharedKey = "
      && "AllowedIPs" + " = " == "AllowedIPs = ";
    hide Join;
    var ips := Join(p.allowedIPs, ", ");
    assert SettingLine(("PublicKey", p.publicKey)) == "PublicKey = " + p.publicKey;
    assert SettingLine(("PresharedKey", p.presharedKey)) == "PresharedKey = " + p.presharedKey;
    assert SettingLine(("AllowedIPs", ips)) == "AllowedIPs = " + ips;
    hide SettingLine;
    assert SettingLines(PeerSettings(p))
      == ["PublicKey = " + p.publicKey] + (if p.presharedKey != "" then ["PresharedKey = " + p.presharedKey] else [])
        + ["AllowedIPs = " + ips];
  }

  lemma ReadHeader(blocks: seq<Block>, email: string)
    ensures ReadLines(blocks, ["", "[Peer]"] + (if email != "" then ["# " + email] else []))
      == blocks + [Block("[Peer]", [])]
  {
    var top, comment := ["", "[Peer]"], if email != "" then ["# " + email] else [];
    ReadAppend(blocks, top, comment);
    ReadAppend(blocks, [""], ["[Peer]"]);
    assert top == [""] + ["[Peer]"];
    ReadOne(blocks, "");
    ReadOne(blocks, "[Peer]");
    var begun := blocks + [Block("[Peer]", [])];
    assert "[Peer]"[0] == '[';
    assert ReadLine(blocks, "[Peer]") == begun;
    if email != "" {
      ReadOne(begun, "# " + email);
      assert "#" <= "# " + email;
    } else {
      ReadOne(begun, "");
    }
  }

  lemma ReadPeer(blocks: seq<Block>, p: Peer)
    requires RendersPeer(p)
    ensures ReadLines(blocks, PeerLines(p)) == blocks + [Block("[Peer]", PeerSettings(p))]
  {
    hide ReadLines, PeerSettings, SettingLines;
    var head := ["", "[Peer]"] + (if p.email != "" then ["# " + p.email] else []);
    var begun := blocks + [Block("[Peer]", [])];
    PeerLinesAre(p);
    ReadAppend(blocks, head, SettingLines(PeerSettings(p)));
    ReadHeader(blocks, p.email);
    PeerSettingsKeyed(p);
    ReadSettings(begun, PeerSettings(p));
    assert [] + PeerSettings(p) == PeerSettings(p);
  }

  lemma PeerSettingsKeyed(p: Peer)
    ensures forall s | s in PeerSettings(p) :: PeerKey(s.0)
  {
    hide Join;
  }

  lemma {:induction false} ReadPeers(blocks: seq<Block>, peers: seq<Peer>)
    ensures ReadLines(blocks, PeersLines(peers)) == blocks + PeerBlocks(peers)
  {
    hide ReadLine, PeerLines, PeerSettings;
    if peers == [] {
      ReadOne(blocks, "");
      assert blocks + [] == blocks;
    } else {
      var init, p := peers[..|peers| - 1], peers[|peers| - 1];
      ReadPeers(blocks, init);
      hide ReadLines;
      ReadAppend(blocks, PeersLines(init), PeerLines(p));
      var read := blocks + PeerBlocks(init);
      if RendersPeer(p) {
        ReadPeer(read, p);
        assert read + [Block("[Peer]", PeerSettings(p))]
          == blocks + (PeerBlocks(init) + [Block("[Peer]", PeerSettings(p))]);
      } else {
        ReadNothing(p);
        ReadOne(read, "");
        assert PeerBlocks(init) + [] == PeerBlocks(init);
      }
    }
  }

  lemma ReadNothing(p: Peer)
    requires !RendersPeer(p)
    ensures PeerLines(p) == []
  {
  }

  lemma ReadTop(id: int)
    ensures ReadLines([], [OwnershipMarker(id), "[Interface]"]) == [Block("[Interface]", [])]
  {
    var marker := OwnershipMarker(id);
    assert "#" <= marker && "[Interface]"[0] == '[';
    hide OwnershipMarker;
    assert [marker, "[Interface]"] == [marker] + ["[Interface]"];
    ReadAppend([], [marker], ["[Interface]"]);
    ReadOne([], marker);
    ReadOne([], "[Interface]");
    assert [] + [Block("[Interface]", [])] == [Block("[Interface]", [])];
  }

  lemma ReadUnderTop(id: int, settings: seq<Setting>)
    requires forall s | s in settings :: InterfaceKey(s.0)
    ensures ReadLines([], [OwnershipMarker(id), "[Interface]"] + SettingLines(settings))
      == [Block("[Interface]", settings)]
  {
    hide OwnershipMarker, ReadLines, SettingLines, InterfaceKey;
    ReadTop(id);
    ReadAppend([], [OwnershipMarker(id), "[Interface]"], SettingLines(settings));
    var begun := [Block("[Interface]", [])];
    ReadSettings(begun, settings);
    AddFirst("[Interface]", settings);
  }

  lemma AddFirst(name: string, settings: seq<Setting>)
    ensures AddTo([Block(name, [])], settings) == [Block(name, settings)]
  {
    assert [] + settings == settings;
  }

  lemma ReadHead(inst: Instance)
    requires Renderable(inst)
    ensures ReadLines([], HeadLines(inst)) == [Block("[Interface]", InterfaceSettings(inst))]
  {
    hide InterfaceSettings, OwnershipMarker, ReadLines, SettingLines, InterfaceKey, Renderable, AllGood;
    SettingsGood(inst);
    SettingsKeyed(InterfaceSettings(inst));
    ReadUnderTop(inst.id, InterfaceSettings(inst));
  }

  lemma SettingsKeyed(settings: seq<Setting>)
    requires AllGood(settings)
    ensures forall s | s in settings :: InterfaceKey(s.0)
  {
    hide InterfaceKey;
  }

  /** The rendered text says exactly the interface's settings and, peer by peer, the public
      key, the preshared key when there is one, and the allowed addresses. */
  lemma RenderedMeans(inst: Instance)
    requires Renderable(inst)
    ensures Meaning(Rendered(inst)) == [Block("[Interface]", InterfaceSettings(inst))] + PeerBlocks(inst.peers)
  {
    hide HeadLines, PeersLines, ReadLines, InterfaceSettings, PeerBlocks, Renderable;
    ConfigLinesPlain(inst);
    SplitUnlines(ConfigLines(inst));
    ReadHead(inst);
    ReadAppend([], ConfigLines(inst), [""]);
    ReadAppend([], HeadLines(inst), PeersLines(inst.peers));
    ReadPeers([Block("[Interface]", InterfaceSettings(inst))], inst.peers);
    BlankLast(ReadLines([], ConfigLines(inst)));
  }

  lemma BlankLast(blocks: seq<Block>)
    ensures ReadLines(blocks, [""]) == blocks
  {
    ReadOne(blocks, "");
  }
}

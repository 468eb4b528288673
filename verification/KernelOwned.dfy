/** What makes the kernel manager take a config for the panel's own, and what it reads from one,
    line by line instead of by scanning (internal/amneziawgkern/ownership.go). */
module KernelOwned {
  import opened Text
  import opened KernelConfig

  /** The line may stand below those above it: blank lines anywhere, comments among the peers,
      one interface section, peer sections below it, and settings only below a section, with a
      value and a key of the section they stand in. */
  predicate Belongs(above: seq<string>, line: string) {
    || line == ""
    || ("#" <= line && "[Peer]" in above)
    || (line == "[Interface]" && "[Interface]" !in above)
    || (line == "[Peer]" && "[Interface]" in above)
    || (!("#" <= line) && match Cut(line, " = ")
        case None => false
        case Some((key, value)) =>
          value != "" && if "[Peer]" in above then PeerKey(key) else "[Interface]" in above && InterfaceKey(key))
  }

  ghost predicate AllBelong(lines: seq<string>, n: nat)
    requires n <= |lines|
  {
    forall k | 0 <= k < n :: Belongs(lines[..k], lines[k])
  }

  lemma {:induction false} ScanAppend(st: Scan, lines: seq<string>, line: string)
    ensures ScanFrom(st, lines + [line]) == ScanLine(ScanFrom(st, lines), line)
    decreases |lines|
  {
    hide ScanLine;
    if lines == [] {
      assert lines + [line] == [line] && [line][1..] == [];
    } else {
      ScanAppend(ScanLine(st, lines[0]), lines[1..], line);
      assert (lines + [line])[1..] == lines[1..] + [line];
    }
  }

  /** Where a scan stands that has not been given away. */
  function Standing(above: seq<string>): Scan {
    At(if "[Peer]" in above then InPeer else if "[Interface]" in above then InInterface else Top,
       if "[Interface]" in above then 1 else 0)
  }

  lemma OneLine(above: seq<string>, line: string)
    requires "[Peer]" in above ==> "[Interface]" in above
    ensures ScanLine(Standing(above), line)
      == if Belongs(above, line) then Standing(above + [line]) else Bad
    ensures Belongs(above, line) && "[Peer]" in above + [line] ==> "[Interface]" in above + [line]
  {
    hide Cut, InterfaceKey, PeerKey;
    HeadingsPlain();
    var all := above + [line];
    InLonger(above, line, "[Interface]");
    InLonger(above, line, "[Peer]");
    assert "[Interface]"[1] == 'I' && "[Peer]"[1] == 'P' && "[Peer]"[0] == "[Interface]"[0] == '[';
    if line == "[Interface]" || line == "[Peer]" || line == "" {
      assert !("#" <= line);
    }
  }

  lemma InLonger(above: seq<string>, line: string, word: string)
    ensures word in above + [line] <==> word in above || word == line
  {
  }

  lemma HeadingsPlain()
    ensures Cut("[Interface]", " = ").None? && Cut("[Peer]", " = ").None? && Cut("", " = ").None?
  {
    FindSkips("[Interface]", "", " = ");
    assert "[Interface]" + "" == "[Interface]";
    FindSkips("[Peer]", "", " = ");
    assert "[Peer]" + "" == "[Peer]";
  }

  lemma {:induction false} ScanMeans(lines: seq<string>, n: nat)
    requires n <= |lines|
    ensures var st := ScanFrom(At(Top, 0), lines[..n]);
      st == if AllBelong(lines, n) then Standing(lines[..n]) else Bad
    ensures AllBelong(lines, n) && "[Peer]" in lines[..n] ==> "[Interface]" in lines[..n]
  {
    hide Belongs, ScanLine;
    if n > 0 {
      ScanMeans(lines, n - 1);
      assert lines[..n] == lines[..n - 1] + [lines[n - 1]];
      ScanAppend(At(Top, 0), lines[..n - 1], lines[n - 1]);
      assert AllBelong(lines, n) <==> AllBelong(lines, n - 1) && Belongs(lines[..n - 1], lines[n - 1]);
      if AllBelong(lines, n - 1) {
        OneLine(lines[..n - 1], lines[n - 1]);
      } else {
        BadLine(lines[n - 1]);
      }
    } else {
      assert lines[..n] == [];
    }
  }

  lemma BadLine(line: string)
    ensures ScanLine(Bad, line) == Bad
  {
  }

  /** A config is taken for the inbound's own exactly when the inbound's marker is its first
      line, it has no carriage return and no null character, there is an interface section, and
      every line belongs where it stands. */
  lemma OwnedMeans(config: string, id: int)
    ensures ValidOwned(config, id) <==>
      && OwnershipMarker(id) + "\n" <= config && '\r' !in config && '\0' !in config
      && var lines := Split(config, NEWLINE)[1..];
      "[Interface]" in lines && forall k | 0 <= k < |lines| :: Belongs(lines[..k], lines[k])
  {
    var lines := Split(config, NEWLINE)[1..];
    ScanMeans(lines, |lines|);
    assert lines[..|lines|] == lines;
    hide Split, OwnershipMarker, Belongs, ScanFrom;
  }

  // ---- The private key -------------------------------------------------------

  predicate KeyLine(line: string) { "PrivateKey = " <= line }

  function KeyOn(line: string): string
    requires KeyLine(line)
  {
    line[13..]
  }

  predicate HasKey(lines: seq<string>) { exists i | 0 <= i < |lines| :: KeyLine(lines[i]) }

  /** Line i has a key that is not blank, and a key line comes below it. */
  predicate Repeats(lines: seq<string>, i: nat)
    requires i < |lines|
  {
    KeyLine(lines[i]) && KeyOn(lines[i]) != "" && HasKey(lines[i + 1..])
  }

  /** Some line with a key stands above another key line. */
  predicate AnyRepeats(lines: seq<string>) { exists i | 0 <= i < |lines| :: Repeats(lines, i) }

  /** The key on the last line that has one, or the one given. */
  predicate LastKey(lines: seq<string>, given: string, key: string) {
    || (key == given && !HasKey(lines))
    || exists i | 0 <= i < |lines| :: KeyLine(lines[i]) && key == KeyOn(lines[i]) && !HasKey(lines[i + 1..])
  }

  lemma LongerHas(line: string, rest: seq<string>)
    ensures HasKey([line] + rest) <==> KeyLine(line) || HasKey(rest)
  {
    hide KeyLine;
    var lines := [line] + rest;
    assert lines[0] == line;
    assert forall i | 0 <= i < |rest| :: lines[i + 1] == rest[i];
  }

  lemma LongerAt(line: string, rest: seq<string>)
    ensures var lines := [line] + rest;
      && lines[0] == line && lines[1..] == rest
      && forall i | 0 <= i < |rest| :: lines[i + 1] == rest[i] && lines[i + 2..] == rest[i + 1..]
  {
  }

  lemma LongerRepeats(line: string, rest: seq<string>)
    ensures AnyRepeats([line] + rest) <==> (KeyLine(line) && KeyOn(line) != "" && HasKey(rest)) || AnyRepeats(rest)
  {
    hide KeyLine, KeyOn, HasKey;
    var lines := [line] + rest;
    LongerAt(line, rest);
    assert Repeats(lines, 0) <==> KeyLine(line) && KeyOn(line) != "" && HasKey(rest);
    if i :| 0 <= i < |lines| && Repeats(lines, i) {
      assert i > 0 ==> lines[i - 1 + 1] == rest[i - 1] && Repeats(rest, i - 1);
    }
    if i :| 0 <= i < |rest| && Repeats(rest, i) {
      assert Repeats(lines, i + 1);
    }
  }

  lemma LongerLast(line: string, rest: seq<string>, given: string, key: string)
    requires LastKey(rest, if KeyLine(line) then KeyOn(line) else given, key)
    ensures LastKey([line] + rest, given, key)
  {
    LongerHas(line, rest);
    hide KeyLine, KeyOn, HasKey;
    LongerAt(line, rest);
    var lines := [line] + rest;
    if i :| 0 <= i < |rest| && KeyLine(rest[i]) && key == KeyOn(rest[i]) && !HasKey(rest[i + 1..]) {
      assert KeyLine(lines[i + 1]) && key == KeyOn(lines[i + 1]) && !HasKey(lines[i + 1 + 1..]);
    }
  }

  lemma {:induction false} ReadKeyMeans(lines: seq<string>, given: string)
    ensures ReadKey(lines, given).None? <==> (given != "" && HasKey(lines)) || AnyRepeats(lines)
    ensures ReadKey(lines, given).Some? ==> LastKey(lines, given, ReadKey(lines, given).value)
  {
    if lines != [] {
      var line, rest := lines[0], lines[1..];
      assert lines == [line] + rest;
      var next := if KeyLine(line) then KeyOn(line) else given;
      assert KEY_LINE == "PrivateKey = " && |KEY_LINE| == 13;
      if !(KeyLine(line) && given != "") {
        ReadKeyMeans(rest, next);
        assert ReadKey(lines, given) == ReadKey(rest, next);
      }
      hide ReadKey, KeyOn, KeyLine, HasKey, AnyRepeats, LastKey;
      LongerHas(line, rest);
      LongerRepeats(line, rest);
      if ReadKey(lines, given).Some? {
        LongerLast(line, rest, given, ReadKey(lines, given).value);
      }
    }
  }

  /** The key of a config is the one on its last key line, none when it has no such line, and it
      is refused exactly when a line with a key stands above another key line. */
  lemma KeyReadExact(config: string)
    ensures var lines := Split(config, NEWLINE);
      && (ConfigPrivateKey(config).None? <==> AnyRepeats(lines))
      && (ConfigPrivateKey(config).Some? ==> LastKey(lines, "", ConfigPrivateKey(config).value))
  {
    hide Split, ReadKey, Repeats, LastKey;
    ReadKeyMeans(Split(config, NEWLINE), "");
  }
}

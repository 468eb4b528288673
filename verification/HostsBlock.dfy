/** The panel's block in the hosts file (internal/dnsresolver/dnsresolver.go). */
module HostsBlock {
  import opened Text

  /** A hash and fifty-six equals signs. */
  function Separator(): string { "# " + seq(56, _ => '=') }

  function Marker(): string { "# Auto-generated by Ex3-UI SmartDNS" }

  function OldMarker(): string { "# Auto-generated by Ex3-UI DNS Resolver" }

  function Note(): string { "# Do not edit manually" }

  function MarkerLine(): string { Marker() + " (Geo-unblock)" }

  function NoteLine(): string { Note() + " - managed automatically" }

  predicate IsSeparator(line: string) { Trim(line) == Separator() }

  predicate IsMarker(line: string) { Marker() <= Trim(line) || OldMarker() <= Trim(line) }

  predicate IsNote(line: string) { Note() <= Trim(line) }

  // ---- Finding the block -----------------------------------------------------

  /** A block header whose marker stands at line i. */
  predicate HeaderAt(lines: seq<string>, i: nat) {
    0 < i && i + 1 < |lines| && IsMarker(lines[i]) && IsSeparator(lines[i - 1]) && IsNote(lines[i + 1])
  }

  function FirstHeader(lines: seq<string>, from: nat): (i: Option<nat>)
    ensures i.Some? ==> from <= i.value < |lines|
    decreases |lines| - from
  {
    if from >= |lines| then None
    else if HeaderAt(lines, from) then Some(from)
    else FirstHeader(lines, from + 1)
  }

  lemma {:induction false} FirstHeaderIs(lines: seq<string>, from: nat)
    ensures var i := FirstHeader(lines, from);
      && (i.Some? ==> HeaderAt(lines, i.value) && forall k | from <= k < i.value :: !HeaderAt(lines, k))
      && (i.None? ==> forall k | from <= k :: !HeaderAt(lines, k))
    decreases |lines| - from
  {
    hide IsMarker, IsSeparator, IsNote;
    if from < |lines| {
      FirstHeaderIs(lines, from + 1);
    }
  }

  function FirstSeparator(lines: seq<string>, from: nat): (j: Option<nat>)
    ensures j.Some? ==> from <= j.value < |lines|
    decreases |lines| - from
  {
    if from >= |lines| then None
    else if IsSeparator(lines[from]) then Some(from)
    else FirstSeparator(lines, from + 1)
  }

  lemma {:induction false} FirstSeparatorIs(lines: seq<string>, from: nat)
    ensures var j := FirstSeparator(lines, from);
      && (j.Some? ==> IsSeparator(lines[j.value]) && forall k | from <= k < j.value :: !IsSeparator(lines[k]))
      && (j.None? ==> forall k | from <= k < |lines| :: !IsSeparator(lines[k]))
    decreases |lines| - from
  {
    hide IsSeparator;
    if from < |lines| {
      FirstSeparatorIs(lines, from + 1);
    }
  }

  /** The lines of the first complete block; none when the first header has no footer. */
  function Range(lines: seq<string>): (r: Option<(nat, nat)>) {
    match FirstHeader(lines, 0)
    case None => None
    case Some(i) =>
      match FirstSeparator(lines, i + 2)
      case None => None
      case Some(j) => if i == 0 then None else Some((i - 1, j + 1))
  }

  /** What is found is a whole block: a header's separator, marker and note first, a separator
      last, and none between. */
  lemma RangeIsBlock(lines: seq<string>)
    requires Range(lines).Some?
    ensures var s, e := Range(lines).value.0, Range(lines).value.1;
      && s + 4 <= e <= |lines| && IsSeparator(lines[s]) && IsMarker(lines[s + 1]) && IsNote(lines[s + 2])
        && IsSeparator(lines[e - 1])
      && forall k | s + 3 <= k < e - 1 :: !IsSeparator(lines[k])
  {
    hide IsMarker, IsSeparator, IsNote;
    FirstHeaderIs(lines, 0);
    FirstSeparatorIs(lines, FirstHeader(lines, 0).value + 2);
  }

  /** hostsBlockRange. */
  method HostsBlockRange(lines: seq<string>) returns (r: Option<(nat, nat)>)
    ensures r == Range(lines)
  {
    hide IsSeparator, IsMarker, IsNote;
    for i := 0 to |lines|
      invariant FirstHeader(lines, 0) == FirstHeader(lines, i)
    {
      if HeaderAt(lines, i) {
        for j := i + 2 to |lines|
          invariant FirstSeparator(lines, i + 2) == FirstSeparator(lines, j)
        {
          if IsSeparator(lines[j]) {
            return Some((i - 1, j + 1));
          }
        }
        return None;
      }
    }
    return None;
  }

  /** Lists that agree up to surrounding white space. */
  predicate SameTrimmed(a: seq<string>, b: seq<string>) {
    |a| == |b| && forall i | 0 <= i < |a| :: Trim(a[i]) == Trim(b[i])
  }

  lemma {:induction false} HeadersAgree(a: seq<string>, b: seq<string>, from: nat)
    requires SameTrimmed(a, b)
    ensures FirstHeader(a, from) == FirstHeader(b, from)
    decreases |a| - from
  {
    hide Trim, Separator, Marker, OldMarker, Note;
    if from < |a| {
      assert HeaderAt(a, from) <==> HeaderAt(b, from);
      HeadersAgree(a, b, from + 1);
    }
  }

  lemma {:induction false} SeparatorsAgree(a: seq<string>, b: seq<string>, from: nat)
    requires SameTrimmed(a, b)
    ensures FirstSeparator(a, from) == FirstSeparator(b, from)
    decreases |a| - from
  {
    hide Trim, Separator;
    if from < |a| {
      assert Trim(a[from]) == Trim(b[from]);
      SeparatorsAgree(a, b, from + 1);
    }
  }

  lemma RangesAgree(a: seq<string>, b: seq<string>)
    requires SameTrimmed(a, b)
    ensures Range(a) == Range(b)
  {
    hide SameTrimmed, FirstHeader, FirstSeparator, HeaderAt, IsSeparator;
    HeadersAgree(a, b, 0);
    if FirstHeader(a, 0).Some? {
      SeparatorsAgree(a, b, FirstHeader(a, 0).value + 2);
    }
  }

  // ---- Lines with their newlines ---------------------------------------------

  /** strings.SplitAfter(content, "\n"): the lines, each but the last with its newline. */
  function SplitAfter(content: string): (lines: seq<string>)
    ensures |lines| == |Split(content, NEWLINE)|
  {
    var pieces := Split(content, NEWLINE);
    seq(|pieces|, i requires 0 <= i < |pieces| => if i + 1 < |pieces| then pieces[i] + "\n" else pieces[i])
  }

  lemma {:induction false} TrimLeftNewline(line: string)
    ensures TrimLeft(line + "\n") == if TrimLeft(line) == "" then "" else TrimLeft(line) + "\n"
  {
    if line != "" {
      assert (line + "\n")[1..] == line[1..] + "\n";
      TrimLeftNewline(line[1..]);
    } else {
      assert line + "\n" == "\n";
      assert "\n"[1..] == "";
    }
  }

  lemma TrimNewline(line: string)
    ensures Trim(line + "\n") == Trim(line)
  {
    TrimLeftNewline(line);
    var s := TrimLeft(line);
    if s != "" {
      assert (s + "\n")[..|s|] == s;
    }
  }

  lemma SplitAfterTrimmed(content: string)
    ensures SameTrimmed(SplitAfter(content), Split(content, NEWLINE))
  {
    var pieces := Split(content, NEWLINE);
    forall i | 0 <= i < |pieces|
      ensures Trim(SplitAfter(content)[i]) == Trim(pieces[i])
    {
      TrimNewline(pieces[i]);
    }
  }

  /** The texts one after the other, from position n on. */
  function Concat(lines: seq<string>, n: nat): string
    requires n <= |lines|
    decreases |lines| - n
  {
    if n == |lines| then "" else lines[n] + Concat(lines, n + 1)
  }

  lemma {:induction false} ConcatAfter(content: string, n: nat)
    requires n <= |SplitAfter(content)|
    ensures Concat(SplitAfter(content), n) == Join(Split(content, NEWLINE)[n..], "\n")
    decreases |SplitAfter(content)| - n
  {
    var pieces := Split(content, NEWLINE);
    if n < |pieces| {
      ConcatAfter(content, n + 1);
      assert pieces[n..][1..] == pieces[n + 1..];
      assert pieces[n..][0] == pieces[n];
    }
  }

  lemma {:induction false} ConcatBefore(content: string, n: nat)
    requires n < |SplitAfter(content)|
    ensures ConcatTo(SplitAfter(content), n) == Unlines(Split(content, NEWLINE)[..n])
  {
    var pieces := Split(content, NEWLINE);
    hide Split;
    if n > 0 {
      ConcatBefore(content, n - 1);
      NextUnline(pieces, n);
      Associative(Unlines(pieces[..n - 1]), pieces[n - 1], "\n");
    }
  }

  lemma Associative(a: string, b: string, c: string)
    ensures a + b + c == a + (b + c)
  {
  }

  lemma NextUnline(pieces: seq<string>, n: nat)
    requires 0 < n <= |pieces|
    ensures Unlines(pieces[..n]) == Unlines(pieces[..n - 1]) + pieces[n - 1] + "\n"
  {
    assert pieces[..n] == pieces[..n - 1] + [pieces[n - 1]];
    UnlinesAppend(pieces[..n - 1], [pieces[n - 1]]);
    assert Unlines([pieces[n - 1]]) == pieces[n - 1] + "\n" + Unlines([]);
  }

  /** The first n texts one after the other. */
  function ConcatTo(lines: seq<string>, n: nat): string
    requires n <= |lines|
  {
    if n == 0 then "" else ConcatTo(lines, n - 1) + lines[n - 1]
  }

  // ---- Stripping and writing -------------------------------------------------

  /** The text without its first complete block: the lines above it, then those below. */
  function Stripped(content: string): string {
    var lines := Split(content, NEWLINE);
    match Range(lines)
    case None => content
    case Some((s, e)) => Unlines(lines[..s]) + Join(lines[e..], "\n")
  }

  /** stripHostsBlock. */
  method StripHostsBlock(content: string) returns (cleaned: string)
    ensures cleaned == Stripped(content)
  {
    hide Range, SplitAfter, Split, Join, Unlines, SameTrimmed, HeaderAt, IsSeparator, IsMarker, IsNote;
    var lines := SplitAfter(content);
    SplitAfterTrimmed(content);
    RangesAgree(lines, Split(content, NEWLINE));
    var range := HostsBlockRange(lines);
    if range.None? {
      return content;
    }
    var (start, end) := range.value;
    RangeIsBlock(lines);
    ConcatBefore(content, start);
    ConcatAfter(content, end);
    cleaned := "";
    for i := 0 to |lines|
      invariant cleaned == ConcatTo(lines, if i < start then i else start) + Between(lines, end, i)
    {
      if start <= i < end {
        continue;
      }
      if i < start {
        assert Between(lines, end, i + 1) == "" && Between(lines, end, i) == "";
      }
      cleaned := cleaned + lines[i];
    }
    BetweenAll(lines, end, |lines|);
  }

  /** The texts from position from up to n. */
  function Between(lines: seq<string>, from: nat, n: nat): string
    requires n <= |lines|
  {
    if n <= from then "" else Between(lines, from, n - 1) + lines[n - 1]
  }

  lemma {:induction false} BetweenAll(lines: seq<string>, from: nat, n: nat)
    requires from <= n <= |lines|
    ensures Between(lines, from, n) + Concat(lines, n) == Concat(lines, from)
    decreases n
  {
    hide *;
    NextBetween(lines, from, n);
    if n > from {
      BetweenAll(lines, from, n - 1);
      Associative(Between(lines, from, n - 1), lines[n - 1], Concat(lines, n));
    } else {
      assert "" + Concat(lines, n) == Concat(lines, from);
    }
  }

  lemma NextBetween(lines: seq<string>, from: nat, n: nat)
    requires from <= n <= |lines|
    ensures n == from ==> Between(lines, from, n) == ""
    ensures n > from ==> Between(lines, from, n) == Between(lines, from, n - 1) + lines[n - 1]
    ensures n > from ==> Concat(lines, n - 1) == lines[n - 1] + Concat(lines, n)
  {
  }

  /** strings.TrimRight(s, "\n"). */
  function TrimNewlines(s: string): (r: string)
    ensures r <= s && (r != "" ==> r[|r| - 1] != NEWLINE)
  {
    if s != "" && s[|s| - 1] == NEWLINE then TrimNewlines(s[..|s| - 1]) else s
  }

  datatype Entry = Entry(ip: string, domain: string)

  /** The lines of the entries that have both an address and a name. */
  function EntryLines(entries: seq<Entry>): (lines: seq<string>) {
    if entries == [] then []
    else
      var e := entries[|entries| - 1];
      EntryLines(entries[..|entries| - 1]) + (if e.ip != "" && e.domain != "" then [e.ip + " " + e.domain] else [])
  }

  function BlockLines(lines: seq<string>): seq<string> {
    [Separator(), MarkerLine(), NoteLine()] + lines + [Separator()]
  }

  /** What updateHostsBlock writes over the file. */
  function Updated(content: string, entries: seq<Entry>): string {
    var cleaned, lines := Stripped(content), EntryLines(entries);
    if lines == [] then cleaned
    else
      var kept := TrimNewlines(cleaned);
      (if kept == "" then "" else kept + "\n\n") + Unlines(BlockLines(lines))
  }

  method UpdateHostsBlock(content: string, entries: seq<Entry>) returns (text: string)
    ensures text == Updated(content, entries)
  {
    hide Stripped, Unlines, TrimNewlines, BlockLines, Separator, Marker, OldMarker, Note, MarkerLine, NoteLine;
    var lines: seq<string> := [];
    for i := 0 to |entries|
      invariant lines == EntryLines(entries[..i])
    {
      assert entries[..i + 1][..i] == entries[..i];
      if entries[i].ip != "" && entries[i].domain != "" {
        lines := lines + [entries[i].ip + " " + entries[i].domain];
      }
    }
    assert entries[..|entries|] == entries;
    var cleaned := StripHostsBlock(content);
    if lines == [] {
      return cleaned;
    }
    text := TrimNewlines(cleaned);
    if text != "" {
      text := text + "\n\n";
    }
    text := WriteBlock(text, lines);
  }

  /** Appends the block to what stands above it. */
  method WriteBlock(above: string, lines: seq<string>) returns (text: string)
    ensures text == above + Unlines(BlockLines(lines))
  {
    hide Unlines, BlockLines, Separator, Marker, OldMarker, Note, MarkerLine, NoteLine;
    HeadAndFoot(lines);
    ghost var head := Separator() + "\n" + MarkerLine() + "\n" + NoteLine() + "\n";
    text := above + (Separator() + "\n" + MarkerLine() + "\n" + NoteLine() + "\n");
    ghost var start := text;
    for i := 0 to |lines|
      invariant text == start + Unlines(lines[..i])
    {
      UnlinesNext(lines, i);
      text := text + lines[i] + "\n";
    }
    assert lines[..|lines|] == lines;
    text := text + Separator() + "\n";
    assert head + Unlines(lines) + Separator() + "\n" == Unlines(BlockLines(lines));
  }

  lemma UnlinesNext(lines: seq<string>, i: nat)
    requires i < |lines|
    ensures Unlines(lines[..i + 1]) == Unlines(lines[..i]) + lines[i] + "\n" && Unlines(lines[..0]) == ""
  {
    assert lines[..i + 1] == lines[..i] + [lines[i]];
    UnlinesAppend(lines[..i], [lines[i]]);
    assert Unlines([lines[i]]) == lines[i] + "\n" + Unlines([]);
  }

  lemma HeadAndFoot(lines: seq<string>)
    ensures Unlines(BlockLines(lines)) == Separator() + "\n" + MarkerLine() + "\n" + NoteLine() + "\n" + Unlines(lines)
      + Separator() + "\n"
    ensures Unlines([]) == ""
  {
    hide Separator, Marker, OldMarker, Note, MarkerLine, NoteLine;
    var head := [Separator(), MarkerLine(), NoteLine()];
    UnlinesAppend(head + lines, [Separator()]);
    UnlinesAppend(head, lines);
    assert head == [Separator()] + [MarkerLine()] + [NoteLine()];
    UnlinesAppend([Separator()] + [MarkerLine()], [NoteLine()]);
    UnlinesAppend([Separator()], [MarkerLine()]);
    UnlinesOne(Separator());
    UnlinesOne(MarkerLine());
    UnlinesOne(NoteLine());
  }

  lemma UnlinesOne(line: string)
    ensures Unlines([line]) == line + "\n"
  {
    assert [line][1..] == [];
  }

  // ---- What stripping and writing keep ---------------------------------------

  /** Stripping takes out the lines of one complete block, from its header's separator to its
      footer, or nothing at all. */
  lemma StripKeepsLines(content: string)
    ensures var lines := Split(content, NEWLINE);
      if Range(lines).None? then Stripped(content) == content
      else
        var s, e := Range(lines).value.0, Range(lines).value.1;
        Split(Stripped(content), NEWLINE) == lines[..s] + (if e < |lines| then lines[e..] else [""])
  {
    hide Range, IsMarker, IsSeparator, IsNote;
    var lines := Split(content, NEWLINE);
    if Range(lines).Some? {
      var s, e := Range(lines).value.0, Range(lines).value.1;
      RangeIsBlock(lines);
      hide Split, Unlines, Join, IsMarker, IsSeparator, IsNote;
      assert SingleLines(lines[..s]) && SingleLines(lines[e..]);
      SplitUnlinesThen(lines[..s], Join(lines[e..], "\n"));
      if e < |lines| {
        SplitJoin(lines[e..], NEWLINE);
      } else {
        JoinNone();
      }
    }
  }

  lemma JoinNone()
    ensures Join([], "\n") == "" && Split("", NEWLINE) == [""]
  {
  }

  lemma {:induction false} SplitUnlinesThen(lines: seq<string>, rest: string)
    requires SingleLines(lines)
    ensures Split(Unlines(lines) + rest, NEWLINE) == lines + Split(rest, NEWLINE)
  {
    if lines == [] {
      UnlinesNone();
      assert "" + rest == rest;
      assert [] + Split(rest, NEWLINE) == Split(rest, NEWLINE);
    } else {
      var first, others := lines[0], lines[1..];
      assert NEWLINE !in first && SingleLines(others);
      assert Unlines(lines) == first + "\n" + Unlines(others);
      hide Unlines, Split, SingleLines;
      SplitUnlinesThen(others, rest);
      var tail := Unlines(others) + rest;
      assert first + "\n" + Unlines(others) + rest == first + [NEWLINE] + tail;
      SplitPiece(first, tail, NEWLINE);
      Prepend(first, others, Split(rest, NEWLINE));
      assert lines == [first] + others;
    }
  }

  lemma SinglesAppend(a: seq<string>, b: seq<string>)
    requires SingleLines(a) && SingleLines(b)
    ensures SingleLines(a + b)
  {
  }

  lemma Sides(a: seq<string>, b: seq<string>)
    ensures (a + b)[..|a|] == a && (a + b)[|a|..] == b && (a + b)[|a + b|..] == []
  {
  }

  lemma Prepend(first: string, others: seq<string>, rest: seq<string>)
    ensures [first] + (others + rest) == [first] + others + rest
  {
  }

  /** The text has no block header, with or without its footer. */
  ghost predicate NoHeaders(text: string) { Headless(Split(text, NEWLINE)) }

  ghost predicate Headless(lines: seq<string>) { forall i | 0 <= i < |lines| :: !HeaderAt(lines, i) }

  /** Every line the entries print is one line, and no separator. */
  predicate Writable(entries: seq<Entry>) {
    var lines := EntryLines(entries);
    forall i | 0 <= i < |lines| :: NEWLINE !in lines[i] && !IsSeparator(lines[i])
  }

  /** What stands above the block in a written file. */
  function Above(content: string): string {
    var kept := TrimNewlines(Stripped(content));
    if kept == "" then "" else kept + "\n\n"
  }

  lemma {:induction false} UnlinesSplit(s: string)
    ensures Unlines(Split(s, NEWLINE)) == s + "\n"
  {
    if s == "" {
      UnlinesOne("");
    } else {
      UnlinesSplit(s[1..]);
      var rest := Split(s[1..], NEWLINE);
      if s[0] == NEWLINE {
        assert ([""] + rest)[1..] == rest;
        assert s == "\n" + s[1..];
      } else {
        assert ([[s[0]] + rest[0]] + rest[1..])[1..] == rest[1..];
        assert s == [s[0]] + s[1..];
        var tail := Unlines(rest[1..]);
        assert ([s[0]] + rest[0]) + "\n" + tail == [s[0]] + (rest[0] + "\n" + tail);
      }
    }
  }

  lemma {:induction false} SplitNewline(s: string)
    ensures Split(s + "\n", NEWLINE) == Split(s, NEWLINE) + [""]
  {
    if s == "" {
      assert (s + "\n")[1..] == "";
    } else {
      SplitNewline(s[1..]);
      assert (s + "\n")[1..] == s[1..] + "\n";
    }
  }

  /** A blank line at the end is no part of a header. */
  lemma BlankEnd(lines: seq<string>)
    ensures Headless(lines + [""]) <==> Headless(lines)
  {
    BlankIsNothing();
    hide IsMarker, IsSeparator, IsNote;
    var all := lines + [""];
    forall i: nat | i + 1 < |lines|
      ensures HeaderAt(all, i) <==> HeaderAt(lines, i)
    {
      assert all[i] == lines[i] && all[i + 1] == lines[i + 1] && (0 < i ==> all[i - 1] == lines[i - 1]);
    }
    if |lines| > 0 {
      assert all[|lines| - 1 + 1] == "" && !HeaderAt(all, |lines| - 1);
    }
  }

  lemma BlankIsNothing()
    ensures !IsMarker("") && !IsNote("")
  {
    assert Trim("") == "" && |Marker()| > 0 && |OldMarker()| > 0 && |Note()| > 0;
  }

  lemma {:induction false} TrimKeepsHeaders(s: string)
    ensures NoHeaders(TrimNewlines(s)) <==> NoHeaders(s)
  {
    hide Headless, Split;
    if s != "" && s[|s| - 1] == NEWLINE {
      var shorter := s[..|s| - 1];
      assert s == shorter + "\n";
      SplitNewline(shorter);
      BlankEnd(Split(shorter, NEWLINE));
      TrimKeepsHeaders(shorter);
    }
  }

  lemma SeparatorLine()
    ensures IsSeparator(Separator()) && !IsMarker(Separator()) && NEWLINE !in Separator()
  {
    hide Trim;
    var line := Separator();
    assert line[2] == '=' && Marker()[2] == 'A' && OldMarker()[2] == 'A';
    assert line[0] == '#' && line[|line| - 1] == '=';
    TrimSolid(line);
  }

  lemma MarkerIsMarker()
    ensures IsMarker(MarkerLine()) && NEWLINE !in MarkerLine()
  {
    var line := MarkerLine();
    hide Trim;
    assert line[0] == '#' && line[|line| - 1] == ')';
    TrimSolid(line);
    assert NEWLINE !in Marker() && NEWLINE !in " (Geo-unblock)";
  }

  lemma NoteIsNote()
    ensures IsNote(NoteLine()) && NEWLINE !in NoteLine()
  {
    hide Trim;
    var line := NoteLine();
    assert line[0] == '#' && line[|line| - 1] == 'y';
    TrimSolid(line);
    assert NEWLINE !in Note() && NEWLINE !in " - managed automatically";
  }

  lemma TrimSolid(line: string)
    requires line != "" && !IsSpace(line[0]) && !IsSpace(line[|line| - 1])
    ensures Trim(line) == line
  {
  }

  /** What can stand above a written block: nothing, or lines that end in a blank one. */
  ghost predicate Clear(above: seq<string>) { above == [] || above[|above| - 1] == "" }

  lemma BlockHeader(above: seq<string>, lines: seq<string>)
    requires Clear(above) && Headless(above)
    ensures FirstHeader(above + BlockLines(lines) + [""], 0) == Some(|above| + 1)
  {
    SeparatorLine();
    MarkerIsMarker();
    NoteIsNote();
    BlankIsNothing();
    hide IsSeparator, IsMarker, IsNote, Separator, Marker, OldMarker, Note, MarkerLine, NoteLine;
    var block := BlockLines(lines);
    var all := above + block + [""];
    var a := |above|;
    assert all[a] == block[0] == Separator() && all[a + 1] == block[1] == MarkerLine()
      && all[a + 2] == block[2] == NoteLine();
    assert HeaderAt(all, a + 1);
    forall i: nat | i < a + 1
      ensures !HeaderAt(all, i)
    {
      if i + 1 < a {
        SameHeader(above, all, i);
      } else if i + 1 == a {
        assert all[i] == above[i] == "";
      }
    }
    hide HeaderAt;
    FirstHeaderIs(all, 0);
  }

  /** The lines stand in all from first on, over a separator. */
  ghost predicate Placed(all: seq<string>, first: nat, lines: seq<string>) {
    && |all| == first + |lines| + 2 && all[first + |lines|] == Separator()
    && forall k | first <= k < first + |lines| :: all[k] == lines[k - first]
  }

  /** Where the lines of a block stand in a written file. */
  lemma Layout(above: seq<string>, lines: seq<string>)
    ensures Placed(above + BlockLines(lines) + [""], |above| + 3, lines)
  {
    hide Separator, MarkerLine, NoteLine;
    var block, first := BlockLines(lines), |above| + 3;
    var all := above + block + [""];
    assert |block| == |lines| + 4;
    assert all[first + |lines|] == block[3 + |lines|];
    forall k | first <= k < first + |lines|
      ensures all[k] == lines[k - first]
    {
      assert all[k] == block[k - |above|];
    }
  }

  lemma BlockFooter(above: seq<string>, lines: seq<string>)
    requires forall i | 0 <= i < |lines| :: !IsSeparator(lines[i])
    ensures FirstSeparator(above + BlockLines(lines) + [""], |above| + 3) == Some(|above| + 3 + |lines|)
  {
    hide Placed, BlockLines, IsSeparator, FirstSeparator;
    Layout(above, lines);
    FooterAt(above + BlockLines(lines) + [""], |above| + 3, lines);
  }

  /** The separator after lines that are none is the first one. */
  lemma FooterAt(all: seq<string>, first: nat, lines: seq<string>)
    requires Placed(all, first, lines) && forall i | 0 <= i < |lines| :: !IsSeparator(lines[i])
    ensures FirstSeparator(all, first) == Some(first + |lines|)
  {
    hide IsSeparator, FirstSeparator, Separator;
    SeparatorLine();
    FirstSeparatorIs(all, first);
  }

  /** A block under lines without headers is the block that is found. */
  lemma BlockFound(above: seq<string>, lines: seq<string>)
    requires Clear(above) && Headless(above)
    requires forall i | 0 <= i < |lines| :: !IsSeparator(lines[i])
    ensures Range(above + BlockLines(lines) + [""]) == Some((|above|, |above| + |BlockLines(lines)|))
  {
    hide Clear, Headless, IsSeparator, FirstHeader, FirstSeparator, Separator, MarkerLine, NoteLine;
    BlockHeader(above, lines);
    BlockFooter(above, lines);
  }

  lemma SameHeader(above: seq<string>, all: seq<string>, i: nat)
    requires above <= all && i + 1 < |above|
    ensures HeaderAt(all, i) <==> HeaderAt(above, i)
  {
    hide IsSeparator, IsMarker, IsNote;
    assert all[i] == above[i] && all[i + 1] == above[i + 1] && (0 < i ==> all[i - 1] == above[i - 1]);
  }

  /** Stripping lines without headers over a block leaves those lines. */
  lemma StripBlock(above: seq<string>, lines: seq<string>)
    requires SingleLines(above) && Clear(above) && Headless(above)
    requires SingleLines(lines) && forall i | 0 <= i < |lines| :: !IsSeparator(lines[i])
    ensures Stripped(Unlines(above + BlockLines(lines))) == Unlines(above)
  {
    hide Range, Unlines, Headless, IsSeparator, IsNote, BlockLines, SingleLines, Stripped;
    var block := BlockLines(lines);
    BlockSingle(lines);
    BlockFound(above, lines);
    SinglesAppend(above, block);
    StripLines(above + block, |above|, |above + block|);
    Sides(above, block);
    UnlinesNone();
  }

  /** Under a header, it is that header's block that is found, and the written one stays. */
  lemma OtherFound(above: seq<string>, lines: seq<string>, h: nat)
    requires h < |above| && HeaderAt(above, h)
    ensures var r := Range(above + BlockLines(lines) + [""]);
      r.Some? && r.value.0 <= r.value.1 <= |above| + 1
  {
    SeparatorLine();
    hide IsSeparator, IsMarker, IsNote, Separator, Marker, OldMarker, Note, MarkerLine, NoteLine;
    var block := BlockLines(lines);
    var all := above + block + [""];
    assert above <= all && all[|above|] == block[0] == Separator();
    SameHeader(above, all, h);
    FirstHeaderIs(all, 0);
    var f := FirstHeader(all, 0).value;
    assert f <= h;
    FirstSeparatorIs(all, f + 2);
  }

  lemma StripOther(above: seq<string>, lines: seq<string>, h: nat)
    requires SingleLines(above) && Clear(above) && h < |above| && HeaderAt(above, h)
    requires SingleLines(lines)
    ensures Stripped(Unlines(above + BlockLines(lines))) != Unlines(above)
  {
    hide Range, Unlines, SingleLines, Stripped, Separator, HeaderAt, MarkerLine, NoteLine;
    var all := above + BlockLines(lines);
    BlockSingle(lines);
    OtherFound(above, lines, h);
    SinglesAppend(above, BlockLines(lines));
    var s, e := Range(all + [""]).value.0, Range(all + [""]).value.1;
    StripLines(all, s, e);
    UnlinesAppend(all[..s], all[e..]);
    var left := all[..s] + all[e..];
    assert left[|left| - 1] == all[|all| - 1] == Separator();
    PartsSingle(all, s, e);
    SeparatorLine();
    BlankSeparator();
    if Stripped(Unlines(all)) == Unlines(above) {
      UnlinesInjective(left, above);
      assert false;
    }
  }

  lemma PartsSingle(lines: seq<string>, s: nat, e: nat)
    requires SingleLines(lines) && s <= e <= |lines|
    ensures SingleLines(lines[..s] + lines[e..])
  {
  }

  lemma BlockSingle(lines: seq<string>)
    requires SingleLines(lines)
    ensures SingleLines(BlockLines(lines))
  {
    SeparatorLine();
    MarkerIsMarker();
    NoteIsNote();
    hide IsMarker, IsSeparator, IsNote, Separator, Marker, OldMarker, Note, MarkerLine, NoteLine;
    var block := BlockLines(lines);
    assert forall k | 3 <= k < |block| - 1 :: block[k] == lines[k - 3];
  }

  /** Stripping a written file gives back what stood above the block exactly when that had
      no header of its own: no second block, and none left without its footer. */
  lemma StripWritten(content: string, entries: seq<Entry>)
    requires Writable(entries) && EntryLines(entries) != []
    ensures Stripped(Updated(content, entries)) == Above(content) <==> NoHeaders(Stripped(content))
  {
    var kept := TrimNewlines(Stripped(content));
    TrimKeepsHeaders(Stripped(content));
    hide Stripped, Range, Split, Unlines, Join, TrimNewlines, IsSeparator, BlockLines, EntryLines, HeaderAt, Headless;
    var above := if kept == "" then [] else Split(kept, NEWLINE) + [""];
    AboveLines(kept);
    AboveHeaders(kept);
    UnlinesAppend(above, BlockLines(EntryLines(entries)));
    if Headless(above) {
      StripBlock(above, EntryLines(entries));
    } else {
      var h := SomeHeader(above);
      StripOther(above, EntryLines(entries), h);
    }
  }

  /** The block that is found in a written file is the one just written, and its lines are
      the entries', in order. */
  lemma EntriesReadBack(content: string, entries: seq<Entry>)
    requires NoHeaders(Stripped(content)) && Writable(entries) && EntryLines(entries) != []
    ensures var lines := Split(Updated(content, entries), NEWLINE);
      && Range(lines).Some?
      && var s, e := Range(lines).value.0, Range(lines).value.1;
      && s + 4 <= e <= |lines| && lines[s + 3..e - 1] == EntryLines(entries)
  {
    var kept := TrimNewlines(Stripped(content));
    TrimKeepsHeaders(Stripped(content));
    hide Stripped, Range, Split, Unlines, Join, TrimNewlines, IsSeparator, BlockLines, EntryLines, HeaderAt, Headless;
    var above, lines := if kept == "" then [] else Split(kept, NEWLINE) + [""], EntryLines(entries);
    AboveLines(kept);
    AboveHeaders(kept);
    UnlinesAppend(above, BlockLines(lines));
    BlockSingle(lines);
    SinglesAppend(above, BlockLines(lines));
    SplitUnlines(above + BlockLines(lines));
    BlockFound(above, lines);
    BlockMiddle(above, lines);
  }

  /** The entries that have both an address and a name. */
  function Complete(entries: seq<Entry>): (r: seq<Entry>) {
    if entries == [] then []
    else if entries[0].ip == "" || entries[0].domain == "" then Complete(entries[1..])
    else [entries[0]] + Complete(entries[1..])
  }

  lemma {:induction false} CompleteNext(init: seq<Entry>, last: Entry)
    ensures Complete(init + [last]) == Complete(init) + (if last.ip == "" || last.domain == "" then [] else [last])
  {
    if init == [] {
      assert init + [last] == [last] && [last][1..] == [];
    } else {
      CompleteNext(init[1..], last);
      assert (init + [last])[1..] == init[1..] + [last];
    }
  }

  lemma {:induction false} LinesAre(entries: seq<Entry>)
    ensures var lines, whole := EntryLines(entries), Complete(entries);
      |lines| == |whole| && forall k | 0 <= k < |lines| :: lines[k] == whole[k].ip + " " + whole[k].domain
  {
    if entries != [] {
      var init, last := entries[..|entries| - 1], entries[|entries| - 1];
      LinesAre(init);
      CompleteNext(init, last);
      assert entries == init + [last];
    }
  }

  /** A reader of the written block, which takes what stands before the first blank for the
      address and what stands after it for the name, gets back every entry that has both, in
      order. */
  lemma EntriesResolve(content: string, entries: seq<Entry>, k: nat)
    requires NoHeaders(Stripped(content)) && Writable(entries) && EntryLines(entries) != []
    requires k < |Complete(entries)| && ' ' !in Complete(entries)[k].ip
    ensures var lines := Split(Updated(content, entries), NEWLINE);
      && Range(lines).Some?
      && var s, e := Range(lines).value.0, Range(lines).value.1;
      && e == s + 4 + |Complete(entries)| <= |lines|
      && Cut(lines[s + 3 + k], " ") == Some((Complete(entries)[k].ip, Complete(entries)[k].domain))
  {
    EntriesReadBack(content, entries);
    LinesAre(entries);
    hide *;
    var lines := Split(Updated(content, entries), NEWLINE);
    var s, e := Range(lines).value.0, Range(lines).value.1;
    var entry := Complete(entries)[k];
    assert |lines[s + 3..e - 1]| == e - s - 4;
    assert lines[s + 3..e - 1][k] == lines[s + 3 + k];
    CutAtSeparator(entry.ip, " ", entry.domain);
  }

  lemma BlockMiddle(above: seq<string>, lines: seq<string>)
    ensures var all, a := above + BlockLines(lines) + [""], |above|;
      |BlockLines(lines)| == |lines| + 4 && |all| == a + |lines| + 5 && all[a + 3..a + 3 + |lines|] == lines
  {
    hide Separator, MarkerLine, NoteLine;
    Layout(above, lines);
    var all, a := above + BlockLines(lines) + [""], |above|;
    assert |BlockLines(lines)| == |lines| + 4;
    hide BlockLines;
    forall k | 0 <= k < |lines|
      ensures all[a + 3..a + 3 + |lines|][k] == lines[k]
    {
      assert all[a + 3 + k] == lines[a + 3 + k - (a + 3)];
    }
  }

  lemma SomeHeader(lines: seq<string>) returns (h: nat)
    requires !Headless(lines)
    ensures h < |lines| && HeaderAt(lines, h)
  {
    hide HeaderAt;
    h :| h < |lines| && HeaderAt(lines, h);
  }

  lemma AboveHeaders(kept: string)
    ensures var above := if kept == "" then [] else Split(kept, NEWLINE) + [""];
      SingleLines(above) && Clear(above) && (Headless(above) <==> NoHeaders(kept))
  {
    hide HeaderAt;
    if kept == "" {
      NothingHeads();
    } else {
      hide Headless;
      BlankEnd(Split(kept, NEWLINE));
      assert NEWLINE !in "";
    }
  }

  lemma NothingHeads()
    ensures NoHeaders("")
  {
  }

  lemma AboveLines(kept: string)
    ensures Unlines(if kept == "" then [] else Split(kept, NEWLINE) + [""]) == if kept == "" then "" else kept + "\n\n"
  {
    if kept != "" {
      UnlinesAppend(Split(kept, NEWLINE), [""]);
      UnlinesSplit(kept);
      UnlinesOne("");
    }
  }

  lemma TrimAbove(kept: string)
    requires kept != "" ==> kept[|kept| - 1] != NEWLINE
    ensures TrimNewlines(if kept == "" then "" else kept + "\n\n") == kept
  {
    if kept != "" {
      var s := kept + "\n\n";
      assert s[..|s| - 1] == kept + "\n";
      assert (kept + "\n")[..|kept|] == kept;
      assert TrimNewlines(s) == TrimNewlines(kept + "\n") == TrimNewlines(kept) == kept;
    }
  }

  /** Stripping a written file returns the user's text up to newlines at its end. */
  lemma UserTextKept(content: string, entries: seq<Entry>)
    requires NoHeaders(Stripped(content)) && Writable(entries) && EntryLines(entries) != []
    ensures TrimNewlines(Stripped(Updated(content, entries))) == TrimNewlines(Stripped(content))
  {
    hide Updated, Stripped;
    StripWritten(content, entries);
    TrimAbove(TrimNewlines(Stripped(content)));
  }

  /** Writing over a written file is writing over the user's text: the last block counts, and
      writing one twice changes nothing. */
  lemma LastWriteCounts(content: string, first: seq<Entry>, second: seq<Entry>)
    requires NoHeaders(Stripped(content)) && Writable(first) && EntryLines(first) != [] && EntryLines(second) != []
    ensures Updated(Updated(content, first), second) == Updated(content, second)
    ensures Updated(Updated(content, first), first) == Updated(content, first)
  {
    UserTextKept(content, first);
    hide Stripped, TrimNewlines, Unlines, EntryLines, BlockLines;
  }

  /** A block an earlier version wrote, under its own marker. */
  function OldBlock(tail: string, lines: seq<string>): seq<string> {
    [Separator(), OldMarker() + tail, NoteLine()] + lines + [Separator()]
  }

  lemma OldIsMarker(tail: string)
    requires tail == "" || !IsSpace(tail[|tail| - 1])
    ensures IsMarker(OldMarker() + tail)
  {
    hide Trim;
    var line := OldMarker() + tail;
    assert line[0] == '#' && (tail == "" ==> line[|line| - 1] == 'r');
    TrimSolid(line);
  }

  /** The lines hold the earlier version's block just below the user's. */
  ghost predicate Laid(all: seq<string>, users: seq<string>, tail: string, lines: seq<string>) {
    var u := |users|;
    && |all| >= u + |lines| + 4
    && (forall k | 0 <= k < u :: all[k] == users[k])
    && all[u] == Separator() && all[u + 1] == OldMarker() + tail && all[u + 2] == NoteLine()
    && (forall k | u + 3 <= k < u + 3 + |lines| :: all[k] == lines[k - u - 3])
    && all[u + 3 + |lines|] == Separator()
  }

  lemma OldBlockAt(users: seq<string>, tail: string, lines: seq<string>, rest: seq<string>)
    ensures var all, u := users + OldBlock(tail, lines) + rest, |users|;
      Laid(all, users, tail, lines) && all[..u] == users && all[u + |lines| + 4..] == rest
        && |all| == u + |lines| + 4 + |rest|
  {
    hide Separator, OldMarker, NoteLine;
  }

  lemma LaidFound(all: seq<string>, users: seq<string>, tail: string, lines: seq<string>)
    requires Laid(all, users, tail, lines) && Headless(users) && (tail == "" || !IsSpace(tail[|tail| - 1]))
    requires forall k | 0 <= k < |lines| :: !IsSeparator(lines[k])
    ensures Range(all) == Some((|users|, |users| + |lines| + 4))
  {
    hide IsSeparator, IsMarker, IsNote, Separator, Marker, OldMarker, Note, MarkerLine, NoteLine, Headless, Range,
      IsSpace;
    SeparatorLine();
    SeparatorNoNote();
    OldIsMarker(tail);
    NoteIsNote();
    FoundAt(all, users, |lines|);
  }

  lemma FoundAt(all: seq<string>, users: seq<string>, n: nat)
    requires Headless(users) && |users| + n + 4 <= |all| && forall k | 0 <= k < |users| :: all[k] == users[k]
    requires var u := |users|;
      && IsSeparator(all[u]) && !IsMarker(all[u]) && !IsNote(all[u])
      && IsMarker(all[u + 1]) && IsNote(all[u + 2]) && IsSeparator(all[u + 3 + n])
      && forall k | u + 3 <= k < u + 3 + n :: !IsSeparator(all[k])
    ensures Range(all) == Some((|users|, |users| + n + 4))
  {
    hide IsSeparator, IsMarker, IsNote;
    var u := |users|;
    forall k: nat | k <= u
      ensures !HeaderAt(all, k)
    {
      if k + 1 < u {
        assert !HeaderAt(users, k);
      }
    }
    assert HeaderAt(all, u + 1);
    FirstHeaderIs(all, 0);
    assert FirstHeader(all, 0) == Some(u + 1);
    FirstSeparatorIs(all, u + 3);
  }

  lemma SeparatorNoNote()
    ensures !IsNote(Separator())
  {
    hide Trim;
    var line := Separator();
    assert line[2] == '=' && Note()[2] == 'D' && line[0] == '#' && line[|line| - 1] == '=';
    TrimSolid(line);
  }

  /** A block an earlier version wrote goes as well, and the lines around it stay. */
  lemma OldBlockStripped(users: seq<string>, tail: string, lines: seq<string>, rest: seq<string>)
    requires Headless(users) && (tail == "" || !IsSpace(tail[|tail| - 1]))
    requires forall k | 0 <= k < |lines| :: !IsSeparator(lines[k])
    requires rest != [] && SingleLines(users + OldBlock(tail, lines) + rest)
    ensures Split(Stripped(Join(users + OldBlock(tail, lines) + rest, "\n")), NEWLINE) == users + rest
  {
    var all := users + OldBlock(tail, lines) + rest;
    OldBlockAt(users, tail, lines, rest);
    LaidFound(all, users, tail, lines);
    hide Laid, Range, Split, Join, Stripped, OldBlock, Headless, IsSeparator, IsSpace;
    assert forall p | p in all :: NEWLINE !in p;
    SplitJoin(all, NEWLINE);
    StripKeepsLines(Join(all, "\n"));
  }

  // ---- Why a stray header is dangerous ---------------------------------------

  /** A header left without its footer over the user's lines. */
  function Stray(users: seq<string>): seq<string> { [Separator(), MarkerLine(), NoteLine()] + users }

  lemma StrayHeader(users: seq<string>, rest: seq<string>)
    ensures FirstHeader(Stray(users) + rest, 0) == Some(1)
    ensures SingleLines([Separator(), MarkerLine(), NoteLine()])
  {
    SeparatorLine();
    MarkerIsMarker();
    NoteIsNote();
    hide IsSeparator, IsMarker, IsNote, Separator, Marker, OldMarker, Note, MarkerLine, NoteLine;
    var all := Stray(users) + rest;
    assert all[0] == Separator() && all[1] == MarkerLine() && all[2] == NoteLine();
    assert HeaderAt(all, 1) && !HeaderAt(all, 0);
    FirstHeaderIs(all, 0);
  }

  /** While the header has no footer the file is left alone. */
  lemma StrayKept(users: seq<string>)
    requires SingleLines(users) && forall i | 0 <= i < |users| :: !IsSeparator(users[i])
    ensures Stripped(Unlines(Stray(users))) == Unlines(Stray(users))
  {
    StrayHeader(users, [""]);
    StrayOpen(users);
    StraySingle(users);
    hide IsSeparator, Stray, Split, FirstHeader, FirstSeparator, Unlines, SingleLines;
    SplitUnlines(Stray(users));
  }

  lemma StraySingle(users: seq<string>)
    requires SingleLines(users)
    ensures SingleLines(Stray(users))
  {
    StrayHeader(users, []);
    hide Separator, MarkerLine, NoteLine;
    SinglesAppend([Separator(), MarkerLine(), NoteLine()], users);
  }

  /** A stray header has no footer. */
  lemma StrayOpen(users: seq<string>)
    requires forall i | 0 <= i < |users| :: !IsSeparator(users[i])
    ensures FirstSeparator(Stray(users) + [""], 3) == None
  {
    BlankSeparator();
    hide IsSeparator, Separator, MarkerLine, NoteLine, FirstSeparator;
    var all := Stray(users) + [""];
    assert forall k | 3 <= k < |all| :: all[k] == if k < |all| - 1 then users[k - 3] else "";
    FirstSeparatorIs(all, 3);
  }

  lemma BlankSeparator()
    ensures !IsSeparator("")
  {
    assert Trim("") == "" && |Separator()| > 0;
  }

  /** But the first write gives it one: the next strip takes the user's lines with it, and
      leaves the block's own lines behind. */
  lemma StraySwallows(users: seq<string>, entries: seq<Entry>)
    requires SingleLines(users) && (forall i | 0 <= i < |users| :: !IsSeparator(users[i])) && users != []
      && users[|users| - 1] != ""
    requires Writable(entries) && EntryLines(entries) != []
    ensures Stripped(Updated(Unlines(Stray(users)), entries)) == Unlines(Lower(EntryLines(entries)))
  {
    hide Stripped, IsSeparator, Unlines, TrimNewlines, BlockLines, EntryLines, Separator, MarkerLine, NoteLine;
    var lines, stray := EntryLines(entries), Stray(users);
    StrayKept(users);
    assert stray[|stray| - 1] == users[|users| - 1] && NEWLINE !in users[|users| - 1];
    assert SingleLines(lines);
    hide SingleLines, Stray, Writable, Lower;
    StripStray(users, lines);
    TrimmedLines(stray);
    WrittenOver(stray, BlockLines(lines));
  }

  /** Blank-line-separated blocks print as one list of lines. */
  lemma WrittenOver(above: seq<string>, block: seq<string>)
    requires TrimNewlines(Unlines(above)) + "\n" == Unlines(above)
    ensures TrimNewlines(Unlines(above)) + "\n\n" + Unlines(block) == Unlines(above + [""] + block)
  {
    hide Unlines, TrimNewlines;
    var kept := TrimNewlines(Unlines(above));
    UnlinesAppend(above + [""], block);
    UnlinesAppend(above, [""]);
    UnlinesOne("");
    assert kept + "\n\n" == kept + "\n" + "\n";
  }

  lemma Ending(a: string, b: string)
    ensures a + (b + "\n") == a + b + "\n"
    ensures b != "" ==> a + b != "" && (a + b)[|a + b| - 1] == b[|b| - 1]
  {
  }

  lemma TrimmedOnto(init: seq<string>, last: string)
    requires last != "" && last[|last| - 1] != NEWLINE
    ensures TrimNewlines(Unlines(init + [last])) + "\n" == Unlines(init + [last])
      && TrimNewlines(Unlines(init + [last])) != ""
  {
    hide Unlines, TrimNewlines;
    UnlinesAppend(init, [last]);
    UnlinesOne(last);
    Ending(Unlines(init), last);
    TrimOne(Unlines(init) + last);
  }

  /** Printed lines whose last is not blank end in one newline. */
  lemma TrimmedLines(lines: seq<string>)
    requires lines != [] && lines[|lines| - 1] != "" && NEWLINE !in lines[|lines| - 1]
    ensures TrimNewlines(Unlines(lines)) + "\n" == Unlines(lines) && TrimNewlines(Unlines(lines)) != ""
  {
    hide Unlines, TrimNewlines;
    var init, last := lines[..|lines| - 1], lines[|lines| - 1];
    LastKept(lines);
    LastIn(last);
    TrimmedOnto(init, last);
  }

  lemma LastKept(lines: seq<string>)
    requires lines != []
    ensures lines == lines[..|lines| - 1] + [lines[|lines| - 1]]
  {
  }

  lemma LastIn(s: string)
    requires s != ""
    ensures s[|s| - 1] in s
  {
  }

  lemma TrimOne(text: string)
    requires text != "" && text[|text| - 1] != NEWLINE
    ensures TrimNewlines(text + "\n") == text
  {
    assert (text + "\n")[..|text|] == text;
    assert TrimNewlines(text) == text;
  }

  /** Stripping printed lines whose block is known. */
  lemma StripLines(lines: seq<string>, s: nat, e: nat)
    requires SingleLines(lines) && Range(lines + [""]) == Some((s, e)) && s <= e <= |lines|
    ensures Stripped(Unlines(lines)) == Unlines(lines[..s]) + Unlines(lines[e..])
  {
    hide Range, Split, Unlines, Join, SingleLines;
    SplitUnlines(lines);
    Cut3(lines, s, e);
    JoinLast(lines[e..]);
  }

  lemma Cut3(lines: seq<string>, s: nat, e: nat)
    requires s <= e <= |lines|
    ensures (lines + [""])[..s] == lines[..s] && (lines + [""])[e..] == lines[e..] + [""]
  {
  }

  /** The block above and below its first separator, under a stray header. */
  function Upper(users: seq<string>): seq<string> { Stray(users) + [""] + [Separator()] }

  function Lower(lines: seq<string>): seq<string> { [MarkerLine(), NoteLine()] + lines + [Separator()] }

  lemma UpperLower(users: seq<string>, lines: seq<string>)
    ensures Stray(users) + [""] + BlockLines(lines) == Upper(users) + Lower(lines)
    ensures |Upper(users)| == 5 + |users|
  {
    hide Separator, MarkerLine, NoteLine;
    assert BlockLines(lines) == [Separator()] + Lower(lines);
  }

  lemma UpperSeparator(users: seq<string>, rest: seq<string>)
    requires forall i | 0 <= i < |users| :: !IsSeparator(users[i])
    ensures FirstSeparator(Upper(users) + rest, 3) == Some(4 + |users|)
  {
    SeparatorLine();
    BlankSeparator();
    hide IsSeparator, Separator, MarkerLine, NoteLine, FirstSeparator;
    UpperAt(users, rest);
    hide Upper;
    SeparatorAt(Upper(users) + rest, 3, 4 + |users|);
  }

  lemma SeparatorAt(all: seq<string>, from: nat, j: nat)
    requires from <= j < |all| && IsSeparator(all[j]) && forall k | from <= k < j :: !IsSeparator(all[k])
    ensures FirstSeparator(all, from) == Some(j)
  {
    hide IsSeparator, FirstSeparator;
    FirstSeparatorIs(all, from);
  }

  lemma UpperAt(users: seq<string>, rest: seq<string>)
    ensures var all, footer := Upper(users) + rest, 4 + |users|;
      && footer < |all| && all[footer] == Separator() && all[footer - 1] == ""
      && forall k | 3 <= k < footer - 1 :: all[k] == users[k - 3]
  {
    hide Separator, MarkerLine, NoteLine;
  }

  lemma UpperHeader(users: seq<string>, rest: seq<string>)
    ensures FirstHeader(Upper(users) + rest, 0) == Some(1)
  {
    hide FirstHeader, Separator, MarkerLine, NoteLine;
    StrayHeader(users, [""] + [Separator()] + rest);
    assert Stray(users) + ([""] + [Separator()] + rest) == Upper(users) + rest;
  }

  lemma StripStray(users: seq<string>, lines: seq<string>)
    requires SingleLines(users) && forall i | 0 <= i < |users| :: !IsSeparator(users[i])
    requires SingleLines(lines)
    ensures Stripped(Unlines(Stray(users) + [""] + BlockLines(lines))) == Unlines(Lower(lines))
  {
    hide Unlines, Stray, BlockLines, SingleLines, Stripped, IsSeparator, Separator, MarkerLine, NoteLine, FirstHeader,
         FirstSeparator, Upper, Lower;
    UpperLower(users, lines);
    UpperLowerSingle(users, lines);
    UpperHeader(users, Lower(lines) + [""]);
    UpperSeparator(users, Lower(lines) + [""]);
    var all := Upper(users) + Lower(lines);
    assert Upper(users) + (Lower(lines) + [""]) == all + [""];
    assert Range(all + [""]) == Some((0, 5 + |users|));
    StripLines(all, 0, 5 + |users|);
    Sides(Upper(users), Lower(lines));
    assert all[..0] == [];
    UnlinesNone();
  }

  lemma UpperLowerSingle(users: seq<string>, lines: seq<string>)
    requires SingleLines(users) && SingleLines(lines)
    ensures SingleLines(Upper(users) + Lower(lines))
  {
    SeparatorLine();
    MarkerIsMarker();
    NoteIsNote();
    hide IsSeparator, IsMarker, IsNote, Separator, Marker, OldMarker, Note, MarkerLine, NoteLine;
    SinglesAppend(Upper(users), Lower(lines));
  }

  lemma UnlinesNone()
    ensures Unlines([]) == ""
  {
  }

  lemma {:induction false} JoinLast(lines: seq<string>)
    ensures Join(lines + [""], "\n") == Unlines(lines)
  {
    if lines != [] {
      assert (lines + [""])[1..] == lines[1..] + [""];
      JoinLast(lines[1..]);
    }
  }
}

/** Forwarded ports: their specification, their expansion, and the listeners opened for them
    (internal/amneziawg/portfwd.go, internal/amneziawgnet/portfwd.go). */
module PortForward {
  import opened Text

  // ---- Port specifications ---------------------------------------------------

  datatype PortSpec = PortSpec(start: int, end: int)

  const MAX_PORTS: nat := 100

  function ParsePortNumber(s: string): (r: Option<int>)
    ensures r.Some? ==> 1 <= r.value <= 65535
  {
    match ParseInt(s)
    case None => None
    case Some(n) => if n < 1 || n > 65535 then None else Some(n)
  }

  function ParsePortToken(tok: string): (r: Option<PortSpec>)
    ensures r.Some? ==> 1 <= r.value.start <= r.value.end <= 65535
  {
    match Cut(tok, "-")
    case Some((before, after)) =>
      var start, end := ParsePortNumber(Trim(before)), ParsePortNumber(Trim(after));
      if start.None? || end.None? || start.value > end.value then None else Some(PortSpec(start.value, end.value))
    case None =>
      var p := ParsePortNumber(tok);
      if p.None? then None else Some(PortSpec(p.value, p.value))
  }

  /** strings.ReplaceAll(s, ";", ","). */
  function Commas(s: string): string
  {
    if s == "" then "" else [if s[0] == ';' then ',' else s[0]] + Commas(s[1..])
  }

  /** The tokens of a specification. */
  function Tokens(input: string): seq<string> { Split(Commas(input), ',') }

  /** What one token stands for; an invalid one is dropped. */
  function TokenSpec(tok: string): Option<PortSpec> {
    if Trim(tok) == "" then None else ParsePortToken(Trim(tok))
  }

  predicate InSpec(port: int, spec: PortSpec) { spec.start <= port <= spec.end }

  /** The token is the number of the port, or two port numbers with a dash between them and
      the port is none below the first and none above the second. */
  predicate Says(tok: string, port: int) {
    match Cut(Trim(tok), "-")
    case None => ParseInt(Trim(tok)) == Some(port) && 1 <= port <= 65535
    case Some((before, after)) =>
      var low, high := ParseInt(Trim(before)), ParseInt(Trim(after));
      low.Some? && high.Some? && 1 <= low.value <= port <= high.value <= 65535
  }

  /** Some token of the specification says the port. */
  predicate Covers(input: string, port: int) {
    exists i | 0 <= i < |Tokens(input)| :: Says(Tokens(input)[i], port)
  }

  /** What is made of a token is what the token says. */
  lemma TokenSays(tok: string, port: int)
    ensures TokenSpec(tok).Some? && InSpec(port, TokenSpec(tok).value) <==> Says(tok, port)
  {
    BlankIsNoNumber();
    hide Trim, ParseInt, Cut;
  }

  lemma BlankIsNoNumber()
    ensures ParseInt("").None? && Cut("", "-").None?
  {
  }

  // ---- What printed specifications cover -------------------------------------

  lemma {:induction false} CommasBoth(a: string, b: string)
    ensures Commas(a + b) == Commas(a) + Commas(b)
  {
    if a == "" {
      assert a + b == b;
    } else {
      CommasBoth(a[1..], b);
      assert (a + b)[1..] == a[1..] + b;
    }
  }

  lemma {:induction false} SplitBoth(a: string, b: string, sep: char)
    ensures Split(a + [sep] + b, sep) == Split(a, sep) + Split(b, sep)
  {
    var all := a + [sep] + b;
    SplitNext(all, sep);
    SplitNext(a, sep);
    hide Split;
    if a == "" {
      assert all[0] == sep && all[1..] == b;
    } else {
      SplitBoth(a[1..], b, sep);
      assert all[0] == a[0] && all[1..] == a[1..] + [sep] + b;
      Regroup(a[0], Split(a[1..], sep), Split(b, sep));
    }
  }

  lemma SplitNext(s: string, sep: char)
    ensures s == "" ==> Split(s, sep) == [""]
    ensures s != "" && s[0] == sep ==> Split(s, sep) == [""] + Split(s[1..], sep)
    ensures s != "" && s[0] != sep ==>
      Split(s, sep) == [[s[0]] + Split(s[1..], sep)[0]] + Split(s[1..], sep)[1..]
  {
  }

  lemma Regroup(c: char, first: seq<string>, second: seq<string>)
    requires first != []
    ensures [""] + (first + second) == [""] + first + second
    ensures [[c] + (first + second)[0]] + (first + second)[1..] == [[c] + first[0]] + first[1..] + second
  {
  }

  /** A comma or a semicolon joins two specifications: together they cover what one of them
      covers. */
  lemma CoversEither(a: string, sep: char, b: string, port: int)
    requires sep in ",;"
    ensures Covers(a + [sep] + b, port) <==> Covers(a, port) || Covers(b, port)
  {
    CommasBoth(a + [sep], b);
    CommasBoth(a, [sep]);
    OneComma(sep);
    SplitBoth(Commas(a), Commas(b), ',');
    hide Commas, Split, Says;
    var both, first, second := Tokens(a + [sep] + b), Tokens(a), Tokens(b);
    assert both == first + second;
    assert forall i | 0 <= i < |first| :: both[i] == first[i];
    assert forall i | 0 <= i < |second| :: both[|first| + i] == second[i];
    assert forall i | |first| <= i < |both| :: both[i] == second[i - |first|];
  }

  lemma OneComma(sep: char)
    requires sep in ",;"
    ensures Commas([sep]) == [',']
  {
    assert [sep][1..] == "";
  }

  lemma {:induction false} NoCommas(s: string)
    requires ';' !in s
    ensures Commas(s) == s
  {
    if s != "" {
      NoCommas(s[1..]);
      assert s == [s[0]] + s[1..];
    }
  }

  /** A printed number covers that port, and a printed range all its ports. */
  lemma CoversPrinted(low: int, high: int, port: int)
    requires 1 <= low <= high <= 65535
    ensures Covers(Itoa(low), port) <==> port == low
    ensures Covers(Itoa(low) + "-" + Itoa(high), port) <==> low <= port <= high
  {
    var one, range := Itoa(low), Itoa(low) + "-" + Itoa(high);
    NumberPlain(low);
    NumberPlain(high);
    CutAtSeparator(one, "-", Itoa(high));
    NoDash(one);
    hide Itoa, ParseInt, Trim, Cut, Commas, Split;
    assert range[0] == one[0] && range[|range| - 1] == Itoa(high)[|Itoa(high)| - 1];
    TrimSolid(range);
    CoversOne(one, port);
    CoversOne(range, port);
  }

  lemma CoversOne(s: string, port: int)
    requires ',' !in s && ';' !in s
    ensures Covers(s, port) <==> Says(s, port)
  {
    OneToken(s);
    hide Says;
    assert Tokens(s)[0] == s;
  }

  lemma NumberPlain(n: int)
    requires 1 <= n <= 65535
    ensures var s := Itoa(n);
      && s != "" && Trim(s) == s && ParseInt(s) == Some(n) && '-' !in s && ',' !in s && ';' !in s
      && !IsSpace(s[0]) && !IsSpace(s[|s| - 1])
  {
    ParseItoa(n);
    hide Itoa, ParseInt, Trim;
    var s := Itoa(n);
    assert s[0] in s && s[|s| - 1] in s;
    assert forall c | c in s :: IsDigit(c);
  }

  lemma TrimSolid(s: string)
    requires s != "" && !IsSpace(s[0]) && !IsSpace(s[|s| - 1])
    ensures Trim(s) == s
  {
  }

  lemma {:induction false} NoDash(s: string)
    requires '-' !in s
    ensures Cut(s, "-").None?
  {
    FindSkips(s, "", "-");
    assert s + "" == s;
  }

  lemma OneToken(s: string)
    requires ',' !in s && ';' !in s
    ensures Tokens(s) == [s]
  {
    NoCommas(s);
    SplitPiece(s, "", ',');
  }

  predicate SpecsCover(specs: seq<PortSpec>, port: int) { exists i | 0 <= i < |specs| :: InSpec(port, specs[i]) }

  predicate ValidSpecs(specs: seq<PortSpec>) {
    forall i | 0 <= i < |specs| :: 1 <= specs[i].start <= specs[i].end <= 65535
  }

  /** The specifications of the first n tokens, each once. */
  function SpecsOf(tokens: seq<string>, n: nat): (specs: seq<PortSpec>)
    requires n <= |tokens|
  {
    if n == 0 then []
    else
      var before, spec := SpecsOf(tokens, n - 1), TokenSpec(tokens[n - 1]);
      if spec.Some? && spec.value !in before then before + [spec.value] else before
  }

  function Specs(input: string): seq<PortSpec> { SpecsOf(Tokens(input), |Tokens(input)|) }

  /** The first n tokens cover the port. */
  predicate TokensCover(tokens: seq<string>, n: nat, port: int)
    requires n <= |tokens|
  {
    exists i | 0 <= i < n :: Says(tokens[i], port)
  }

  /** parseForwardedPorts: the valid specifications, without repetition, cover what the text
      covers. */
  method ParseForwardedPorts(input: string) returns (specs: seq<PortSpec>)
    ensures ValidSpecs(specs) && forall port :: SpecsCover(specs, port) <==> Covers(input, port)
    ensures specs == Specs(input)
  {
    hide TokenSpec, Says;
    var tokens := Tokens(input);
    specs := [];
    for i := 0 to |tokens|
      invariant ValidSpecs(specs)
      invariant specs == SpecsOf(tokens, i)
      invariant forall port :: SpecsCover(specs, port) <==> TokensCover(tokens, i, port)
    {
      var spec := TokenSpec(tokens[i]);
      TokenValid(tokens[i]);
      ghost var before := specs;
      if spec.Some? && spec.value !in specs {
        specs := specs + [spec.value];
      }
      forall port
        ensures SpecsCover(specs, port) <==> TokensCover(tokens, i + 1, port)
      {
        assert SpecsCover(before, port) <==> TokensCover(tokens, i, port);
        OneMoreToken(tokens, i, before, specs, port);
      }
    }
  }

  lemma TokenValid(tok: string)
    ensures TokenSpec(tok).Some? ==> 1 <= TokenSpec(tok).value.start <= TokenSpec(tok).value.end <= 65535
  {
    hide Trim;
  }

  lemma OneMoreToken(tokens: seq<string>, i: nat, before: seq<PortSpec>, specs: seq<PortSpec>, port: int)
    requires i < |tokens| && (SpecsCover(before, port) <==> TokensCover(tokens, i, port))
    requires var spec := TokenSpec(tokens[i]);
      specs == if spec.Some? && spec.value !in before then before + [spec.value] else before
    ensures SpecsCover(specs, port) <==> TokensCover(tokens, i + 1, port)
  {
    TokenSays(tokens[i], port);
    NextToken(tokens, i, port);
    hide TokenSpec, Says, SpecsCover, TokensCover, InSpec;
    var spec := TokenSpec(tokens[i]);
    if spec.Some? {
      NextSpec(before, spec.value, port);
    }
  }

  lemma NextToken(tokens: seq<string>, i: nat, port: int)
    requires i < |tokens|
    ensures TokensCover(tokens, i + 1, port) <==> TokensCover(tokens, i, port) || Says(tokens[i], port)
  {
    hide Says;
  }

  lemma NextSpec(before: seq<PortSpec>, spec: PortSpec, port: int)
    ensures SpecsCover(before + [spec], port) <==> SpecsCover(before, port) || InSpec(port, spec)
    ensures spec in before && InSpec(port, spec) ==> SpecsCover(before, port)
  {
    hide InSpec;
    var longer := before + [spec];
    assert longer[|before|] == spec;
    assert forall k | 0 <= k < |before| :: longer[k] == before[k];
  }

  method ForwardedPortsInclude(input: string, port: int) returns (found: bool)
    ensures found <==> Covers(input, port)
  {
    hide Covers, Specs;
    var specs := ParseForwardedPorts(input);
    assert SpecsCover(specs, port) <==> Covers(input, port);
    for i := 0 to |specs|
      invariant forall k | 0 <= k < i :: !InSpec(port, specs[k])
    {
      if InSpec(port, specs[i]) {
        return true;
      }
    }
    return false;
  }

  // ---- Expansion -------------------------------------------------------------

  /** Every port the specification covers. */
  ghost function Covered(input: string): (ports: set<int>) { set p: int | 1 <= p <= 65535 && Covers(input, p) }

  predicate Ascending(ports: seq<int>) { forall i, j | 0 <= i < j < |ports| :: ports[i] < ports[j] }

  predicate NoRepeats(ports: seq<int>) { forall i, j | 0 <= i < j < |ports| :: ports[i] != ports[j] }

  /** The position below which everything is smaller. */
  method Insert(sorted: seq<int>, p: int) returns (r: seq<int>)
    requires Ascending(sorted) && p !in sorted
    ensures Ascending(r) && forall q :: q in r <==> q in sorted || q == p
    ensures |r| == |sorted| + 1
  {
    var i := 0;
    while i < |sorted| && sorted[i] < p
      invariant 0 <= i <= |sorted| && forall k | 0 <= k < i :: sorted[k] < p
    {
      i := i + 1;
    }
    assert forall k | i <= k < |sorted| :: p < sorted[k];
    r := sorted[..i] + [p] + sorted[i..];
    Inserted(sorted, i, p);
  }

  lemma Inserted(sorted: seq<int>, i: nat, p: int)
    requires Ascending(sorted) && i <= |sorted|
    requires (forall k | 0 <= k < i :: sorted[k] < p) && (forall k | i <= k < |sorted| :: p < sorted[k])
    ensures var r := sorted[..i] + [p] + sorted[i..];
      |r| == |sorted| + 1 && Ascending(r) && forall q :: q in r <==> q in sorted || q == p
  {
    var r := sorted[..i] + [p] + sorted[i..];
    forall k | 0 <= k < |r|
      ensures r[k] == if k < i then sorted[k] else if k == i then p else sorted[k - 1]
    {
    }
    InsertedMembers(sorted, i, p);
  }

  lemma InsertedMembers(sorted: seq<int>, i: nat, p: int)
    requires i <= |sorted|
    ensures forall q :: q in sorted[..i] + [p] + sorted[i..] <==> q in sorted || q == p
  {
    assert sorted == sorted[..i] + sorted[i..];
  }

  /** sort.Ints on a list without repetition. */
  method SortInts(ports: seq<int>) returns (r: seq<int>)
    requires NoRepeats(ports)
    ensures Ascending(r) && |r| == |ports| && forall q :: q in r <==> q in ports
  {
    r := [];
    for i := 0 to |ports|
      invariant Ascending(r) && |r| == i && forall q :: q in r <==> q in ports[..i]
    {
      assert ports[..i + 1] == ports[..i] + [ports[i]];
      r := Insert(r, ports[i]);
    }
    assert ports[..|ports|] == ports;
  }

  /** The list grown by the ports from p on that it lacks, up to the limit. */
  function AddRange(ports: seq<int>, p: int, end: int, limit: nat): (r: seq<int>)
    decreases end - p + 1
  {
    if p > end || |ports| >= limit then ports
    else AddRange(if p in ports then ports else ports + [p], p + 1, end, limit)
  }

  /** The ports of the first n specifications in order, up to the limit. */
  function AddSpecs(specs: seq<PortSpec>, n: nat, limit: nat): (r: seq<int>)
    requires n <= |specs|
  {
    if n == 0 then [] else AddRange(AddSpecs(specs, n - 1, limit), specs[n - 1].start, specs[n - 1].end, limit)
  }

  /** What a range adds: its ports the list lacks, none twice, and all of them unless the limit
      is reached. */
  lemma {:induction false} AddRangeIs(ports: seq<int>, p: int, end: int, limit: nat)
    requires NoRepeats(ports) && |ports| <= limit
    ensures RangeAdded(ports, p, end, limit, AddRange(ports, p, end, limit))
    decreases end - p + 1
  {
    hide NoRepeats, RangeAdded;
    if p <= end && |ports| < limit {
      var next := if p in ports then ports else ports + [p];
      NextPort(ports, p);
      AddRangeIs(next, p + 1, end, limit);
      AddedNext(ports, next, p, end, limit, AddRange(next, p + 1, end, limit));
    } else {
      AddedNone(ports, p, end, limit);
    }
  }

  ghost predicate RangeAdded(ports: seq<int>, p: int, end: int, limit: nat, r: seq<int>) {
    && NoRepeats(r) && |ports| <= |r| <= limit
    && (forall q | q in ports :: q in r)
    && (forall q | q in r :: q in ports || p <= q <= end)
    && (|r| < limit ==> forall q | p <= q <= end :: q in r)
  }

  lemma NextPort(ports: seq<int>, p: int)
    requires NoRepeats(ports)
    ensures var next := if p in ports then ports else ports + [p];
      NoRepeats(next) && |ports| <= |next| <= |ports| + 1 && forall q :: q in next <==> q in ports || q == p
  {
  }

  lemma AddedNone(ports: seq<int>, p: int, end: int, limit: nat)
    requires NoRepeats(ports) && |ports| <= limit && (p > end || |ports| >= limit)
    ensures RangeAdded(ports, p, end, limit, ports)
  {
    hide NoRepeats;
  }

  lemma AddedNext(ports: seq<int>, next: seq<int>, p: int, end: int, limit: nat, r: seq<int>)
    requires |ports| <= |next| && (forall q :: q in next <==> q in ports || q == p)
    requires p <= end && RangeAdded(next, p + 1, end, limit, r)
    ensures RangeAdded(ports, p, end, limit, r)
  {
    hide NoRepeats;
    assert p in next;
  }

  /** What the specifications add: covered ports, none twice, and all of them unless the limit
      is reached. */
  lemma {:induction false} AddSpecsIs(specs: seq<PortSpec>, n: nat, limit: nat)
    requires n <= |specs|
    ensures var r := AddSpecs(specs, n, limit);
      && NoRepeats(r) && |r| <= limit
      && (forall q | q in r :: SpecsCover(specs[..n], q))
      && (|r| < limit ==> forall q | SpecsCover(specs[..n], q) :: q in r)
  {
    if n > 0 {
      AddSpecsIs(specs, n - 1, limit);
      var before, spec := AddSpecs(specs, n - 1, limit), specs[n - 1];
      AddRangeIs(before, spec.start, spec.end, limit);
      hide AddSpecs, AddRange, NoRepeats;
      forall q
        ensures SpecsCover(specs[..n], q) <==> SpecsCover(specs[..n - 1], q) || InSpec(q, spec)
      {
        LastSpec(specs, n, q);
      }
    }
  }

  lemma LastSpec(specs: seq<PortSpec>, n: nat, q: int)
    requires 0 < n <= |specs|
    ensures SpecsCover(specs[..n], q) <==> SpecsCover(specs[..n - 1], q) || InSpec(q, specs[n - 1])
  {
    var all, init := specs[..n], specs[..n - 1];
    assert all == init + [specs[n - 1]];
    if i :| 0 <= i < |init| && InSpec(q, init[i]) {
      assert InSpec(q, all[i]);
    }
    if InSpec(q, specs[n - 1]) {
      assert InSpec(q, all[n - 1]);
    }
  }

  lemma {:induction false} FullStays(specs: seq<PortSpec>, i: nat, n: nat, limit: nat)
    requires i <= n <= |specs| && |AddSpecs(specs, i, limit)| >= limit
    ensures AddSpecs(specs, n, limit) == AddSpecs(specs, i, limit)
  {
    if i < n {
      FullStays(specs, i, n - 1, limit);
    }
  }

  /** Collects ports of the specifications, in order, until limit are found. */
  method CollectPorts(specs: seq<PortSpec>, limit: nat) returns (ports: seq<int>)
    ensures ports == AddSpecs(specs, |specs|, limit)
  {
    ports := [];
    for i := 0 to |specs|
      invariant ports == AddSpecs(specs, i, limit)
    {
      var p := specs[i].start;
      while p <= specs[i].end
        invariant AddSpecs(specs, i + 1, limit) == AddRange(ports, p, specs[i].end, limit)
      {
        if |ports| >= limit {
          FullStays(specs, i + 1, |specs|, limit);
          return;
        }
        if p !in ports {
          ports := ports + [p];
        }
        p := p + 1;
      }
    }
  }

  lemma {:induction false} MembersSize(ports: seq<int>)
    requires NoRepeats(ports)
    ensures |Members(ports)| == |ports|
  {
    if ports == [] {
      assert Members(ports) == {};
    } else {
      var init, last := ports[..|ports| - 1], ports[|ports| - 1];
      MembersSize(init);
      assert ports == init + [last];
      assert Members(ports) == Members(init) + {last};
      assert last !in init;
    }
  }

  /** expandForwardedPorts: covered ports in strictly ascending order, as many as there are up
      to the limit. */
  method Expand(input: string, limit: nat) returns (ports: seq<int>)
    ensures Ascending(ports) && Members(ports) <= Covered(input)
    ensures |ports| == Smaller(limit, |Covered(input)|)
    ensures |Covered(input)| <= limit ==> Members(ports) == Covered(input)
    ensures Members(ports) == Members(AddSpecs(Specs(input), |Specs(input)|, limit))
  {
    hide Covers;
    var specs := ParseForwardedPorts(input);
    var found := CollectPorts(specs, limit);
    AddSpecsIs(specs, |specs|, limit);
    assert specs[..|specs|] == specs;
    hide AddSpecs, Specs;
    ports := SortInts(found);
    CoveredRange(specs);
    forall p | p in ports
      ensures p in Covered(input)
    {
      assert SpecsCover(specs, p);
    }
    forall q
      ensures q in Members(ports) <==> q in Members(found)
    {
    }
    MembersSize(found);
    SubsetSize(Members(found), Covered(input));
    if |found| < limit {
      forall p | p in Covered(input)
        ensures p in Members(found)
      {
        assert SpecsCover(specs, p);
      }
      assert Members(found) == Covered(input);
    }
  }

  lemma CoveredRange(specs: seq<PortSpec>)
    requires ValidSpecs(specs)
    ensures forall p | SpecsCover(specs, p) :: 1 <= p <= 65535
  {
  }

  /** The ports a peer's specification gets listeners for. */
  function Expanded(input: string): set<int> { Members(AddSpecs(Specs(input), |Specs(input)|, MAX_PORTS)) }

  /** ExpandForwardedPorts. */
  method ExpandForwardedPorts(input: string) returns (ports: seq<int>)
    ensures Ascending(ports) && Members(ports) <= Covered(input)
    ensures |ports| == Smaller(MAX_PORTS, |Covered(input)|)
    ensures |Covered(input)| <= MAX_PORTS ==> Members(ports) == Covered(input)
    ensures Members(ports) == Expanded(input)
  {
    ports := Expand(input, MAX_PORTS);
  }

  /** ExceedsForwardedPortsCap: exactly when more than the cap are covered. */
  method ExceedsForwardedPortsCap(input: string) returns (exceeds: bool)
    ensures exceeds <==> |Covered(input)| > MAX_PORTS
  {
    var ports := Expand(input, MAX_PORTS + 1);
    exceeds := |ports| > MAX_PORTS;
  }

  // ---- Listeners -------------------------------------------------------------

  /** A peer with its port specification and its first allowed IPv4 and IPv6 address. */
  datatype Peer = Peer(email: string, forwardedPorts: string, firstIPv4: string, firstIPv6: string)

  type Addr = int

  /** An inbound's peers, and how an address text parses. */
  datatype Instance = Instance(peers: seq<Peer>, ipv6Enabled: bool, parse: string -> Option<Addr>)

  datatype Proto = TCP | UDP

  datatype Key = Key(email: string, port: int, proto: Proto)

  function RawTarget(inst: Instance, p: Peer): string {
    if p.firstIPv4 == "" && inst.ipv6Enabled then p.firstIPv6 else p.firstIPv4
  }

  /** The peer's own address, when it has an email and one that parses. */
  function TargetOf(inst: Instance, p: Peer): Option<Addr> {
    if p.email == "" || RawTarget(inst, p) == "" then None else inst.parse(RawTarget(inst, p))
  }

  /** desiredPeerTargets, over the first n peers. */
  function Targets(inst: Instance, n: nat): (r: map<string, Addr>)
    requires n <= |inst.peers|
  {
    if n == 0 then map[]
    else
      var before, p := Targets(inst, n - 1), inst.peers[n - 1];
      if TargetOf(inst, p).Some? then before[p.email := TargetOf(inst, p).value] else before
  }

  method DesiredPeerTargets(inst: Instance) returns (out: map<string, Addr>)
    ensures out == Targets(inst, |inst.peers|)
  {
    out := map[];
    for i := 0 to |inst.peers|
      invariant out == Targets(inst, i)
    {
      var p := inst.peers[i];
      if p.email == "" {
        continue;
      }
      var raw := p.firstIPv4;
      if raw == "" && inst.ipv6Enabled {
        raw := p.firstIPv6;
      }
      if raw == "" {
        continue;
      }
      var addr := inst.parse(raw);
      if addr.None? {
        continue;
      }
      out := out[p.email := addr.value];
    }
  }

  /** forwardingPeers: the one gate a listener comes from. */
  predicate Forwards(inst: Instance, i: nat)
    requires i < |inst.peers|
  {
    var p := inst.peers[i];
    p.email != "" && p.forwardedPorts != "" && p.email in Targets(inst, |inst.peers|)
  }

  /** The peer has an email, and the address that counts parses: its first IPv4 address, or its
      first IPv6 address when it has no IPv4 one and the inbound carries IPv6. */
  predicate HasTarget(inst: Instance, p: Peer, addr: Addr) {
    && p.email != ""
    && if p.firstIPv4 != "" then inst.parse(p.firstIPv4) == Some(addr)
       else inst.ipv6Enabled && p.firstIPv6 != "" && inst.parse(p.firstIPv6) == Some(addr)
  }

  /** The target of an email is the address of the last peer of that email that has one. */
  lemma {:induction false} TargetsAre(inst: Instance, n: nat, email: string, addr: Addr)
    requires n <= |inst.peers|
    ensures email in Targets(inst, n) && Targets(inst, n)[email] == addr <==>
      exists i | 0 <= i < n ::
        && inst.peers[i].email == email && HasTarget(inst, inst.peers[i], addr)
        && forall j, other | i < j < n && inst.peers[j].email == email :: !HasTarget(inst, inst.peers[j], other)
  {
    if n > 0 {
      TargetsAre(inst, n - 1, email, addr);
      var p := inst.peers[n - 1];
      if p.email == email && TargetOf(inst, p).Some? {
        assert HasTarget(inst, p, TargetOf(inst, p).value);
      } else if p.email == email {
        assert forall other :: !HasTarget(inst, p, other);
      }
    }
  }

  /** The listeners the instance wants: a TCP and a UDP one for each expanded port of each
      forwarding peer. */
  ghost predicate Wanted(inst: Instance, key: Key) {
    exists i | 0 <= i < |inst.peers| ::
      Forwards(inst, i) && inst.peers[i].email == key.email && key.port in Expanded(inst.peers[i].forwardedPorts)
  }

  method DesiredPortForwardKeys(inst: Instance) returns (out: set<Key>)
    ensures forall key :: key in out <==> Wanted(inst, key)
  {
    hide Expanded, Targets, Covered;
    var targets := DesiredPeerTargets(inst);
    out := {};
    for i := 0 to |inst.peers|
      invariant forall key :: key in out <==> WantedBelow(inst, key, i)
    {
      var p := inst.peers[i];
      ghost var before := out;
      if p.email == "" || p.forwardedPorts == "" || p.email !in targets {
        forall key: Key
          ensures key in out <==> WantedBelow(inst, key, i + 1)
        {
          NextWanted(inst, key, i);
        }
        continue;
      }
      var ports := ExpandForwardedPorts(p.forwardedPorts);
      out := out + BothProtocols(p.email, Members(ports));
      forall key: Key
        ensures key in out <==> WantedBelow(inst, key, i + 1)
      {
        BothAre(p.email, Members(ports), key);
        assert key in before <==> WantedBelow(inst, key, i);
        NextWanted(inst, key, i);
      }
    }
  }

  function BothProtocols(email: string, ports: set<int>): (keys: set<Key>) {
    (set p | p in ports :: Key(email, p, TCP)) + (set p | p in ports :: Key(email, p, UDP))
  }

  lemma BothAre(email: string, ports: set<int>, key: Key)
    ensures key in BothProtocols(email, ports) <==> key.email == email && key.port in ports
  {
    assert key == Key(key.email, key.port, key.proto);
    assert key.port in ports && key.proto.TCP? ==>
      Key(email, key.port, TCP) in (set p | p in ports :: Key(email, p, TCP));
    assert key.port in ports && key.proto.UDP? ==>
      Key(email, key.port, UDP) in (set p | p in ports :: Key(email, p, UDP));
  }

  ghost predicate WantedBelow(inst: Instance, key: Key, n: nat)
    requires n <= |inst.peers|
  {
    exists i | 0 <= i < n :: Forwards(inst, i) && inst.peers[i].email == key.email
      && key.port in Expanded(inst.peers[i].forwardedPorts)
  }

  lemma NextWanted(inst: Instance, key: Key, i: nat)
    requires i < |inst.peers|
    ensures WantedBelow(inst, key, i + 1) <==>
      (WantedBelow(inst, key, i)
       || (Forwards(inst, i) && inst.peers[i].email == key.email && key.port in Expanded(inst.peers[i].forwardedPorts)))
  {
    hide Expanded, Targets;
  }

  /** ForwardedPortOwner names a peer exactly when a listener for the port is wanted, and then
      one that wants it. */
  method ForwardedPortOwner(inst: Instance, port: int) returns (owner: Option<string>)
    ensures owner.Some? ==> forall proto :: Wanted(inst, Key(owner.value, port, proto))
    ensures owner.None? ==> forall key: Key | key.port == port :: !Wanted(inst, key)
  {
    hide *;
    var targets := DesiredPeerTargets(inst);
    for i := 0 to |inst.peers|
      invariant NoneTo(inst, port, i)
    {
      var p := inst.peers[i];
      NextNone(inst, port, i);
      if p.email == "" || p.forwardedPorts == "" || p.email !in targets {
        continue;
      }
      var ports := ExpandForwardedPorts(p.forwardedPorts);
      InMembers(ports, port);
      if port in ports {
        OwnerWants(inst, port, i);
        return Some(p.email);
      }
    }
    NoneWants(inst, port);
    return None;
  }

  /** None of the first n peers forwards the port. */
  ghost predicate NoneTo(inst: Instance, port: int, n: nat)
    requires n <= |inst.peers|
    ensures n == 0 ==> NoneTo(inst, port, n)
  {
    forall k | 0 <= k < n && Forwards(inst, k) :: port !in Expanded(inst.peers[k].forwardedPorts)
  }

  lemma NextNone(inst: Instance, port: int, i: nat)
    requires i < |inst.peers| && NoneTo(inst, port, i)
    ensures var p := inst.peers[i];
      && (Forwards(inst, i) <==> p.email != "" && p.forwardedPorts != "" && p.email in Targets(inst, |inst.peers|))
      && (NoneTo(inst, port, i + 1) <==> !Forwards(inst, i) || port !in Expanded(p.forwardedPorts))
  {
    hide Expanded, Targets;
  }

  lemma OwnerWants(inst: Instance, port: int, i: nat)
    requires i < |inst.peers| && Forwards(inst, i) && port in Expanded(inst.peers[i].forwardedPorts)
    ensures forall proto :: Wanted(inst, Key(inst.peers[i].email, port, proto))
  {
    hide Expanded, Targets;
  }

  lemma NoneWants(inst: Instance, port: int)
    requires NoneTo(inst, port, |inst.peers|)
    ensures forall key: Key | key.port == port :: !Wanted(inst, key)
  {
    hide Expanded, Targets;
  }

  /** Open sockets, each a listener with an identity of its own. */
  class PortForwardSet {
    var peerTargets: map<string, Addr>
    var listeners: map<Key, int>
    /** The sockets of this process that are open, and the identity of the next. */
    var open: set<int>
    var nextSocket: int

    constructor ()
      ensures Valid() && listeners == map[] && open == {}
    {
      peerTargets, listeners, open, nextSocket := map[], map[], {}, 0;
    }

    /** The open sockets are exactly the listeners', each with one key. */
    ghost predicate Valid()
      reads this`listeners, this`open, this`nextSocket
    {
      && (forall key | key in listeners :: listeners[key] in open)
      && (forall s | s in open :: s < nextSocket && exists key :: key in listeners && listeners[key] == s)
      && (forall a, b | a in listeners && b in listeners && a != b :: listeners[a] != listeners[b])
    }

    /** Reconcile: binds are the keys whose sockets can be opened. */
    method Reconcile(inst: Instance, binds: set<Key>)
      requires Valid()
      modifies this
      ensures Valid() && peerTargets == Targets(inst, |inst.peers|)
      ensures forall key :: key in listeners <==> Wanted(inst, key) && (key in old(listeners) || key in binds)
      ensures forall key | key in old(listeners) && Wanted(inst, key) :: listeners[key] == old(listeners)[key]
      ensures forall key | key in old(listeners) && !Wanted(inst, key) :: old(listeners)[key] !in open
    {
      hide Wanted, Targets, Valid;
      peerTargets := DesiredPeerTargets(inst);
      var want := DesiredPortForwardKeys(inst);
      SocketsBelow();
      ghost var before, bound := listeners, nextSocket;
      CloseAll(listeners.Keys - want);
      ghost var unwanted := open;
      OpenAll(want - listeners.Keys, binds);
      forall key | key in before && key !in want
        ensures before[key] !in open
      {
        assert before[key] < bound && before[key] !in unwanted;
      }
    }

    lemma SocketsBelow()
      requires Valid()
      ensures forall key | key in listeners :: listeners[key] < nextSocket
    {
    }

    /** Closes the listeners of those keys and forgets them. */
    method CloseAll(keys: set<Key>)
      requires Valid() && keys <= listeners.Keys
      modifies this`listeners, this`open
      ensures Valid() && listeners == old(listeners) - keys
      ensures forall key | key in keys :: old(listeners)[key] !in open
    {
      var before := listeners;
      var closed := set key | key in keys :: before[key];
      open := open - closed;
      listeners := listeners - keys;
      assert forall key | key in keys :: before[key] in closed;
      forall s | s in open
        ensures exists key :: key in listeners && listeners[key] == s
      {
        var key :| key in before && before[key] == s;
        assert key in listeners && listeners[key] == s;
      }
    }

    /** Opens a listener for each of those keys whose bind succeeds. */
    method OpenAll(keys: set<Key>, binds: set<Key>)
      requires Valid() && keys !! listeners.Keys
      modifies this`listeners, this`open, this`nextSocket
      ensures Valid() && listeners.Keys == old(listeners).Keys + keys * binds
      ensures forall key | key in old(listeners) :: key in listeners && listeners[key] == old(listeners)[key]
      ensures forall s | s in open && s !in old(open) :: s >= old(nextSocket)
      ensures nextSocket >= old(nextSocket)
    {
      var todo := keys;
      while todo != {}
        invariant Valid() && todo <= keys && listeners.Keys == old(listeners).Keys + (keys - todo) * binds
        invariant forall key | key in old(listeners) :: key in listeners && listeners[key] == old(listeners)[key]
        invariant forall s | s in open && s !in old(open) :: s >= old(nextSocket)
        invariant nextSocket >= old(nextSocket)
        decreases todo
      {
        SomeKey(todo);
        var key :| key in todo;
        todo := todo - {key};
        if key in binds {
          Open(key);
        }
      }
    }

    method Open(key: Key)
      requires Valid() && key !in listeners
      modifies this`listeners, this`open, this`nextSocket
      ensures Valid() && listeners == old(listeners)[key := old(nextSocket)] && open == old(open) + {old(nextSocket)}
      ensures nextSocket == old(nextSocket) + 1
    {
      listeners := listeners[key := nextSocket];
      open := open + {nextSocket};
      nextSocket := nextSocket + 1;
      assert key in listeners;
      forall s | s in open
        ensures exists k :: k in listeners && listeners[k] == s
      {
        if s in old(open) {
          var k :| k in old(listeners) && old(listeners)[k] == s;
          assert k in listeners && listeners[k] == s;
        }
      }
    }

    /** Close leaves no listener open. */
    method Close()
      requires Valid()
      modifies this
      ensures Valid() && listeners == map[] && open == {} && peerTargets == old(peerTargets)
    {
      CloseAll(listeners.Keys);
      assert listeners == map[];
      assert forall s :: s !in open;
    }
  }

  lemma SomeKey(s: set<Key>)
    ensures s == {} || exists k :: k in s
  {
    if forall k :: k !in s {
      assert s == {};
    }
  }
}

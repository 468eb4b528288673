/** Making the proxy names of a Clash profile unique (internal/sub/clash_service.go). */
module UniqueNames {
  import opened Text

  /** A proxy's name ("" when it has none), and what its fallback name is made of; rest stands
      for its other entries. */
  datatype Proxy = Proxy(name: string, kind: string, server: string, port: string, rest: string)

  /** fallbackProxyName. */
  function FallbackName(p: Proxy, i: nat): (name: string)
    ensures name != ""
  {
    if p.kind != "" && p.server != "" then p.kind + "-" + p.server + "-" + p.port
    else "proxy-" + Itoa(i + 1)
  }

  function Base(p: Proxy, i: nat): (name: string)
    ensures name != ""
  {
    if p.name == "" then FallbackName(p, i) else p.name
  }

  /** The candidates for a name: the base, base-2, base-3, ... */
  function Candidate(base: string, n: nat): string
    requires n >= 1
  {
    if n == 1 then base else base + "-" + Itoa(n)
  }

  lemma CandidatesDiffer(base: string, m: nat, n: nat)
    requires 1 <= m && 1 <= n && Candidate(base, m) == Candidate(base, n)
    ensures m == n
  {
    if m > 1 && n > 1 {
      assert Candidate(base, m)[|base| + 1..] == Itoa(m);
      assert Candidate(base, n)[|base| + 1..] == Itoa(n);
      ItoaInjective(m, n);
    } else {
      assert |Itoa(m)| > 0 && |Itoa(n)| > 0;
    }
  }

  /** The first n candidates. */
  function Candidates(base: string, n: nat): (names: set<string>) {
    set k: nat | 1 <= k <= n :: Candidate(base, k)
  }

  lemma {:induction false} CandidatesMany(base: string, n: nat)
    ensures |Candidates(base, n)| == n
  {
    if n == 0 {
      assert Candidates(base, n) == {};
    } else {
      CandidatesMany(base, n - 1);
      NextCandidate(base, n);
      assert Candidates(base, n) == Candidates(base, n - 1) + {Candidate(base, n)};
    }
  }

  lemma NextCandidate(base: string, n: nat)
    requires n >= 1
    ensures Candidate(base, n) !in Candidates(base, n - 1)
  {
    forall k: nat | 1 <= k <= n - 1
      ensures Candidate(base, k) != Candidate(base, n)
    {
      if Candidate(base, k) == Candidate(base, n) {
        CandidatesDiffer(base, k, n);
      }
    }
  }

  /** Pigeonhole: no more candidates can be taken than there are names. */
  lemma TakenBound(base: string, seen: set<string>, n: nat)
    requires forall k | 1 <= k <= n :: Candidate(base, k) in seen
    ensures n <= |seen|
  {
    CandidatesMany(base, n);
    SubsetSize(Candidates(base, n), seen);
  }

  /** The first candidate from n on that is not taken. */
  function FirstFree(base: string, seen: set<string>, n: nat): (k: nat)
    requires n >= 1 && forall j | 1 <= j < n :: Candidate(base, j) in seen
    ensures k >= n && Candidate(base, k) !in seen && forall j | 1 <= j < k :: Candidate(base, j) in seen
    decreases |seen| + 1 - n
  {
    TakenBound(base, seen, n - 1);
    if Candidate(base, n) !in seen then n
    else
      TakenBound(base, seen, n);
      FirstFree(base, seen, n + 1)
  }

  function NameSet(proxies: seq<Proxy>): (names: set<string>) { set p | p in proxies :: p.name }

  /** The list with unique names, element by element. */
  function Renamed(proxies: seq<Proxy>): (r: seq<Proxy>)
    ensures |r| == |proxies|
  {
    if proxies == [] then []
    else
      var n := |proxies| - 1;
      var before := Renamed(proxies[..n]);
      var base := Base(proxies[n], n);
      before + [proxies[n].(name := Candidate(base, FirstFree(base, NameSet(before), 1)))]
  }

  predicate UniqueNames(proxies: seq<Proxy>) {
    && (forall i | 0 <= i < |proxies| :: proxies[i].name != "")
    && (forall i, j | 0 <= i < j < |proxies| :: proxies[i].name != proxies[j].name)
  }

  /** The numbering loop for one proxy. */
  method FreeName(base: string, seen: set<string>) returns (name: string)
    ensures name == Candidate(base, FirstFree(base, seen, 1))
  {
    name := base;
    var n := 2;
    while name in seen
      invariant n >= 2 && name == Candidate(base, n - 1)
      invariant forall k | 1 <= k < n - 1 :: Candidate(base, k) in seen
      invariant FirstFree(base, seen, 1) == FirstFree(base, seen, n - 1)
      decreases |seen| + 2 - n
    {
      TakenBound(base, seen, n - 1);
      name := base + "-" + Itoa(n);
      n := n + 1;
    }
  }

  /** ensureUniqueProxyNames, on the slice it is given. */
  method EnsureUniqueProxyNames(proxies: array<Proxy>)
    modifies proxies
    ensures proxies[..] == Renamed(old(proxies[..]))
  {
    hide Candidate, FirstFree, FallbackName, NameSet;
    ghost var given := proxies[..];
    var seen: set<string> := {};
    NamesNone();
    for i := 0 to proxies.Length
      invariant proxies[..i] == Renamed(given[..i]) && seen == NameSet(proxies[..i])
      invariant forall k | i <= k < proxies.Length :: proxies[k] == given[k]
    {
      var p := proxies[i];
      var base := p.name;
      if base == "" {
        base := FallbackName(p, i);
      }
      var name := FreeName(base, seen);
      ghost var before := proxies[..i];
      RenamedStep(given, i);
      proxies[i] := p.(name := name);
      assert proxies[..i + 1] == before + [proxies[i]];
      NamesGrow(before, proxies[i]);
      seen := seen + {name};
    }
    assert proxies[..proxies.Length] == proxies[..] && given[..proxies.Length] == given;
  }

  lemma RenamedStep(given: seq<Proxy>, i: nat)
    requires i < |given|
    ensures var before, base := Renamed(given[..i]), Base(given[i], i);
      Renamed(given[..i + 1]) == before + [given[i].(name := Candidate(base, FirstFree(base, NameSet(before), 1)))]
  {
    assert given[..i + 1][..i] == given[..i];
  }

  lemma NamesNone()
    ensures NameSet([]) == {}
  {
  }

  lemma NamesGrow(before: seq<Proxy>, p: Proxy)
    ensures NameSet(before + [p]) == NameSet(before) + {p.name}
  {
  }

  lemma UniqueGrow(before: seq<Proxy>, p: Proxy)
    requires UniqueNames(before) && p.name != "" && p.name !in NameSet(before)
    ensures UniqueNames(before + [p])
  {
    assert forall i | 0 <= i < |before| :: before[i] in before;
  }

  lemma CandidateNotEmpty(base: string, k: nat)
    requires k >= 1 && base != ""
    ensures Candidate(base, k) != ""
  {
  }

  /** The renamed list has every name non-empty and no two alike. */
  lemma {:induction false} RenamedUnique(proxies: seq<Proxy>)
    ensures UniqueNames(Renamed(proxies))
  {
    if proxies != [] {
      var n := |proxies| - 1;
      RenamedUnique(proxies[..n]);
      RenamedStep(proxies, n);
      assert proxies[..n + 1] == proxies;
      var before, base := Renamed(proxies[..n]), Base(proxies[n], n);
      var k := FirstFree(base, NameSet(before), 1);
      CandidateNotEmpty(base, k);
      hide UniqueNames, Candidate, NameSet, Renamed;
      UniqueGrow(before, proxies[n].(name := Candidate(base, k)));
    }
  }

  lemma {:induction false} RenamedIs(proxies: seq<Proxy>, i: nat)
    requires i < |proxies|
    ensures Renamed(proxies)[i] == NewProxy(proxies, i)
  {
    hide NewProxy;
    var n := |proxies| - 1;
    assert proxies[..n + 1] == proxies;
    RenamedNext(proxies, n);
    hide Renamed;
    if i < n {
      RenamedIs(proxies[..n], i);
      SamePrefix(proxies, n, i);
    }
  }

  /** It keeps the order and changes nothing but names. A proxy keeps its own name, or takes the
      one made of its type, server and port, or of its place, when no proxy before it has that
      one; otherwise it gets a hyphen and the first number from 2 on that no proxy before it has
      taken with that name. */
  lemma RenamedAt(proxies: seq<Proxy>, i: nat)
    requires i < |proxies|
    ensures var p, r := proxies[i], Renamed(proxies)[i];
      var base := if p.name != "" then p.name
        else if p.kind != "" && p.server != "" then p.kind + "-" + p.server + "-" + p.port
        else "proxy-" + Itoa(i + 1);
      && r == p.(name := r.name)
      && (if Free(proxies, i, base) then r.name == base
          else exists k: nat | k >= 2 ::
            && r.name == base + "-" + Itoa(k) && Free(proxies, i, r.name)
            && forall j | 2 <= j < k :: !Free(proxies, i, base + "-" + Itoa(j)))
  {
    RenamedIs(proxies, i);
    var base, seen := Base(proxies[i], i), NameSet(Renamed(proxies[..i]));
    forall name
      ensures Free(proxies, i, name) <==> name !in seen
    {
      FreeIs(proxies, i, name);
    }
    hide Itoa, Renamed, NameSet, Free, FirstFree, Candidate;
    FirstCandidate(base, seen);
  }

  lemma FirstCandidate(base: string, seen: set<string>)
    ensures var name := Candidate(base, FirstFree(base, seen, 1));
      && name !in seen && (base !in seen ==> name == base)
      && (base in seen ==> exists k: nat | k >= 2 ::
          name == base + "-" + Itoa(k) && forall j | 2 <= j < k :: base + "-" + Itoa(j) in seen)
  {
    var k := FirstFree(base, seen, 1);
    hide Itoa, FirstFree;
    assert Candidate(base, 1) == base;
    if base in seen {
      assert Candidate(base, k) == base + "-" + Itoa(k);
      forall j | 2 <= j < k
        ensures base + "-" + Itoa(j) in seen
      {
        assert Candidate(base, j) == base + "-" + Itoa(j);
      }
    }
  }

  /** No proxy before position i ends up with that name. */
  ghost predicate Free(proxies: seq<Proxy>, i: nat, name: string)
    requires i < |proxies|
  {
    forall j | 0 <= j < i :: Renamed(proxies)[j].name != name
  }

  lemma FreeIs(proxies: seq<Proxy>, i: nat, name: string)
    requires i < |proxies|
    ensures Free(proxies, i, name) <==> name !in NameSet(Renamed(proxies[..i]))
  {
    var before := Renamed(proxies[..i]);
    forall j | 0 <= j < i
      ensures before[j] == Renamed(proxies)[j]
    {
      RenamedIs(proxies, j);
      RenamedIs(proxies[..i], j);
      SamePrefix(proxies, i, j);
    }
    hide Renamed;
    assert forall j | 0 <= j < i :: before[j] in before;
  }

  /** The proxy at position i with the name it gets. */
  function NewProxy(proxies: seq<Proxy>, i: nat): Proxy
    requires i < |proxies|
  {
    var base, before := Base(proxies[i], i), Renamed(proxies[..i]);
    proxies[i].(name := Candidate(base, FirstFree(base, NameSet(before), 1)))
  }

  lemma RenamedNext(proxies: seq<Proxy>, n: nat)
    requires n < |proxies|
    ensures Renamed(proxies[..n + 1]) == Renamed(proxies[..n]) + [NewProxy(proxies, n)]
  {
    hide Candidate, FirstFree, Base, NameSet;
    RenamedStep(proxies, n);
  }

  lemma SamePrefix(proxies: seq<Proxy>, n: nat, i: nat)
    requires i < n <= |proxies|
    ensures NewProxy(proxies[..n], i) == NewProxy(proxies, i)
  {
    hide Candidate, FirstFree, Base, NameSet, Renamed;
    assert proxies[..n][..i] == proxies[..i];
  }

  /** A list whose names are already unique keeps them: renaming twice is renaming once. */
  lemma {:induction false} RenamedAgain(proxies: seq<Proxy>)
    requires UniqueNames(proxies)
    ensures Renamed(proxies) == proxies
  {
    if proxies != [] {
      var n := |proxies| - 1;
      RenamedAgain(proxies[..n]);
      assert proxies == proxies[..n] + [proxies[n]];
      assert Candidate(proxies[n].name, 1) !in NameSet(proxies[..n]);
    }
  }
}

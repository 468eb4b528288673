/** Merging a remote routing document into a generated Clash configuration
    (internal/sub/clash_service.go). */
module ClashMerge {
  import opened Text

  /** A YAML value; Scalar stands for numbers, booleans and null. */
  datatype Value = Str(text: string) | Seq(items: seq<Value>) | Map(entries: map<string, Value>) | Scalar(code: int)

  type Config = map<string, Value>

  function Get(config: Config, key: string): Option<Value> {
    if key in config then Some(config[key]) else None
  }

  /** asAnySlice: the items of any list. */
  function Items(v: Option<Value>): Option<seq<Value>> {
    if v.Some? && v.value.Seq? then Some(v.value.items) else None
  }

  function ItemsOrNone(v: Option<Value>): seq<Value> {
    if Items(v).Some? then Items(v).value else []
  }

  /** A text entry of a map value, trimmed; "" when there is none. */
  function TextEntry(v: Value, key: string): string {
    if v.Map? && key in v.entries && v.entries[key].Str? then Trim(v.entries[key].text) else ""
  }

  /** clashProxyGroupName. */
  function GroupName(v: Value): string { TextEntry(v, "name") }

  /** Simple case folding, as far as it meets an ASCII word: besides the capitals, the long s
      and the Kelvin sign. */
  function Fold(c: char): char {
    if 'A' <= c <= 'Z' then 'a' + (c - 'A')
    else if c == '\U{17F}' then 's'
    else if c == '\U{212A}' then 'k'
    else c
  }

  /** strings.EqualFold(s, word) for a lower-case ASCII word. */
  predicate Says(s: string, word: string) {
    |s| == |word| && forall i | 0 <= i < |s| :: Fold(s[i]) == word[i]
  }

  // ---- Rules -----------------------------------------------------------------

  /** The parts of a rule, trimmed. */
  function Parts(rule: string): (parts: seq<string>)
    ensures parts != []
  {
    var pieces := Split(rule, ',');
    seq(|pieces|, i requires 0 <= i < |pieces| => Trim(pieces[i]))
  }

  predicate IsMatch(rule: Value) { rule.Str? && Says(Parts(rule.text)[0], "match") }

  predicate HasMatch(rules: seq<Value>) { exists i | 0 <= i < |rules| :: IsMatch(rules[i]) }

  method HasClashMatchRule(rules: seq<Value>) returns (found: bool)
    ensures found <==> HasMatch(rules)
  {
    for i := 0 to |rules|
      invariant forall k | 0 <= k < i :: !IsMatch(rules[k])
    {
      if IsMatch(rules[i]) {
        return true;
      }
    }
    return false;
  }

  /** mergeClashRules: custom rules go first, and alone when they end the list themselves. */
  function MergedRules(base: seq<Value>, custom: seq<Value>): seq<Value> {
    if HasMatch(custom) then custom else custom + base
  }

  lemma MatchKept(base: seq<Value>, custom: seq<Value>)
    requires HasMatch(base)
    ensures HasMatch(MergedRules(base, custom))
  {
    if !HasMatch(custom) {
      var i :| 0 <= i < |base| && IsMatch(base[i]);
      assert (custom + base)[|custom| + i] == base[i];
    }
  }

  predicate IsFlag(part: string) { Says(part, "no-resolve") || Says(part, "src") }

  /** The last part, but one, ..., that is no option flag: position 0 when there is none. */
  function TargetIndex(parts: seq<string>, from: nat): (i: nat)
    requires from < |parts|
    ensures i <= from && (i == 0 || !IsFlag(parts[i])) && forall k | i < k <= from :: IsFlag(parts[k])
  {
    if from >= 1 && IsFlag(parts[from]) then TargetIndex(parts, from - 1) else from
  }

  // ---- Proxy groups ----------------------------------------------------------

  function Names(groups: seq<Value>): set<string> { set g | g in groups && GroupName(g) != "" :: GroupName(g) }

  /** The first group of each name. */
  function Firsts(groups: seq<Value>, n: nat): seq<Value>
    requires n <= |groups|
  {
    if n == 0 then []
    else
      var g := groups[n - 1];
      Firsts(groups, n - 1) + (if GroupName(g) == "" || GroupName(g) in Names(groups[..n - 1]) then [] else [g])
  }

  /** The last group with that name. */
  function LastNamed(groups: seq<Value>, n: nat, name: string): (g: Value)
    requires n <= |groups| && name in Names(groups[..n]) && name != ""
    ensures g in groups[..n] && GroupName(g) == name
  {
    if GroupName(groups[n - 1]) == name then groups[n - 1]
    else
      assert groups[..n] == groups[..n - 1] + [groups[n - 1]];
      LastNamed(groups, n - 1, name)
  }

  /** The named base groups among the first n that no remote group replaces. */
  function Unreplaced(base: seq<Value>, n: nat, replaced: set<string>): seq<Value>
    requires n <= |base|
  {
    if n == 0 then []
    else
      var name := GroupName(base[n - 1]);
      Unreplaced(base, n - 1, replaced) +
      (if name == "" || name in replaced then []
       else
         assert base[..|base|] == base && base[n - 1] in base;
         [LastNamed(base, |base|, name)])
  }

  /** mergeClashProxyGroups. */
  function MergedGroups(base: seq<Value>, remote: seq<Value>): seq<Value> {
    Firsts(remote, |remote|) + Unreplaced(base, |base|, Names(remote))
  }

  method MergeClashProxyGroups(base: seq<Value>, remote: seq<Value>) returns (merged: seq<Value>)
    ensures merged == MergedGroups(base, remote)
  {
    hide LastNamed, GroupName, Firsts, Unreplaced, Names, NamedOrder, Picked;
    var baseByName, baseOrder := IndexGroups(base);
    var first, seen := TakeRemote(remote);
    OrderFrom(base, |base|, seen);
    merged := first;
    assert Picked(base, baseOrder, 0, seen) == [] by {
      PickedNone(base, baseOrder, seen);
    }
    for i := 0 to |baseOrder|
      invariant merged == first + Picked(base, baseOrder, i, seen)
    {
      PickedNext(base, baseOrder, i, seen);
      if baseOrder[i] !in seen {
        merged := merged + [baseByName[baseOrder[i]]];
      }
    }
  }

  lemma PickedNone(base: seq<Value>, order: seq<string>, seen: set<string>)
    requires forall name | name in order :: name != "" && name in Names(base)
    ensures Picked(base, order, 0, seen) == []
  {
  }

  lemma PickedNext(base: seq<Value>, order: seq<string>, i: nat, seen: set<string>)
    requires i < |order| && forall name | name in order :: name != "" && name in Names(base)
    ensures base[..|base|] == base && order[i] in Names(base) && order[i] != ""
    ensures Picked(base, order, i + 1, seen)
      == Picked(base, order, i, seen) + (if order[i] in seen then [] else [LastNamed(base, |base|, order[i])])
  {
    assert base[..|base|] == base;
  }

  /** The last base group of each name, and the names in order. */
  method IndexGroups(base: seq<Value>) returns (byName: map<string, Value>, order: seq<string>)
    ensures byName.Keys == Names(base) && order == NamedOrder(base, |base|)
    ensures base[..|base|] == base && forall name | name in byName ::
      name != "" && byName[name] == LastNamed(base, |base|, name)
  {
    hide GroupName;
    byName, order := map[], [];
    for i := 0 to |base|
      invariant byName.Keys == Names(base[..i])
      invariant forall name | name in byName :: name != "" && byName[name] == LastNamed(base, i, name)
      invariant order == NamedOrder(base, i)
    {
      NamesNext(base, i);
      var name := GroupName(base[i]);
      if name != "" {
        byName := byName[name := base[i]];
        order := order + [name];
      }
    }
    assert base[..|base|] == base;
  }

  lemma NamesNext(groups: seq<Value>, i: nat)
    requires i < |groups|
    ensures Names(groups[..i + 1]) == Names(groups[..i])
      + (if GroupName(groups[i]) == "" then {} else {GroupName(groups[i])})
  {
    hide GroupName;
    assert groups[..i + 1] == groups[..i] + [groups[i]];
  }

  /** The first remote group of each name, and all their names. */
  method TakeRemote(remote: seq<Value>) returns (taken: seq<Value>, seen: set<string>)
    ensures taken == Firsts(remote, |remote|) && seen == Names(remote)
  {
    hide GroupName, Names;
    taken, seen := [], {};
    assert Names([]) == {} by {
      NoNames();
    }
    for i := 0 to |remote|
      invariant taken == Firsts(remote, i) && seen == Names(remote[..i])
    {
      NamesNext(remote, i);
      var name := GroupName(remote[i]);
      if name != "" && name !in seen {
        seen := seen + {name};
        taken := taken + [remote[i]];
      }
    }
    assert remote[..|remote|] == remote;
  }

  lemma NoNames()
    ensures Names([]) == {}
  {
  }

  /** The names of the named groups among the first n, in order. */
  function NamedOrder(base: seq<Value>, n: nat): (names: seq<string>)
    requires n <= |base|
    ensures forall name | name in names :: name != "" && name in Names(base)
  {
    if n == 0 then []
    else
      var name := GroupName(base[n - 1]);
      assert base[n - 1] in base;
      NamedOrder(base, n - 1) + (if name == "" then [] else [name])
  }

  function Picked(base: seq<Value>, order: seq<string>, n: nat, seen: set<string>): seq<Value>
    requires n <= |order| && forall name | name in order :: name != "" && name in Names(base)
  {
    if n == 0 then []
    else
      assert base[..|base|] == base;
      Picked(base, order, n - 1, seen) + (if order[n - 1] in seen then [] else [LastNamed(base, |base|, order[n - 1])])
  }

  lemma {:induction false} OrderFrom(base: seq<Value>, n: nat, seen: set<string>)
    requires n <= |base|
    ensures Picked(base, NamedOrder(base, n), |NamedOrder(base, n)|, seen) == Unreplaced(base, n, seen)
  {
    hide *;
    var order := NamedOrder(base, n);
    if n > 0 {
      OrderFrom(base, n - 1, seen);
      var before, name := NamedOrder(base, n - 1), GroupName(base[n - 1]);
      NextNamed(base, n);
      NextUnreplaced(base, n, seen);
      if name != "" {
        Front(before, name);
        PickedPrefix(base, before, order, |before|, seen);
        PickedNext(base, order, |before|, seen);
      }
    } else {
      PickedNone(base, order, seen);
      NothingNamed(base, seen);
    }
  }

  lemma NextNamed(base: seq<Value>, n: nat)
    requires 0 < n <= |base|
    ensures var name := GroupName(base[n - 1]);
      NamedOrder(base, n) == if name == "" then NamedOrder(base, n - 1) else NamedOrder(base, n - 1) + [name]
  {
    hide GroupName, Names;
  }

  lemma NextUnreplaced(base: seq<Value>, n: nat, seen: set<string>)
    requires 0 < n <= |base|
    ensures var name := GroupName(base[n - 1]);
      if name == "" || name in seen then Unreplaced(base, n, seen) == Unreplaced(base, n - 1, seen)
      else
        base[..|base|] == base && name in Names(base)
        && Unreplaced(base, n, seen) == Unreplaced(base, n - 1, seen) + [LastNamed(base, |base|, name)]
  {
    hide GroupName, LastNamed;
    assert base[..|base|] == base && base[n - 1] in base;
  }

  lemma NothingNamed(base: seq<Value>, seen: set<string>)
    ensures NamedOrder(base, 0) == [] && Unreplaced(base, 0, seen) == []
  {
  }

  lemma Front<T>(s: seq<T>, x: T)
    ensures s == (s + [x])[..|s|] && (s + [x])[|s|] == x && |s + [x]| == |s| + 1
  {
  }

  lemma {:induction false} PickedPrefix(base: seq<Value>, before: seq<string>, order: seq<string>, n: nat,
                                        seen: set<string>)
    requires n <= |before| <= |order| && before == order[..|before|] && forall name | name in order ::
      name != "" && name in Names(base)
    requires forall name | name in before :: name != "" && name in Names(base)
    ensures Picked(base, before, n, seen) == Picked(base, order, n, seen)
  {
    if n > 0 {
      PickedPrefix(base, before, order, n - 1, seen);
    }
  }

  /** No two groups have the same name. */
  predicate Apart(groups: seq<Value>) {
    forall i, j | 0 <= i < j < |groups| && GroupName(groups[i]) != "" :: GroupName(groups[i]) != GroupName(groups[j])
  }

  predicate AllNamed(groups: seq<Value>) { forall i | 0 <= i < |groups| :: GroupName(groups[i]) != "" }

  lemma ApartAppend(groups: seq<Value>, g: Value)
    requires Apart(groups) && AllNamed(groups) && GroupName(g) != "" && GroupName(g) !in Names(groups)
    ensures Apart(groups + [g]) && AllNamed(groups + [g]) && Names(groups + [g]) == Names(groups) + {GroupName(g)}
  {
    var l := groups + [g];
    assert forall i | 0 <= i < |groups| :: l[i] == groups[i] && groups[i] in groups;
    assert Names(l) == Names(groups) + {GroupName(g)};
    hide GroupName;
  }

  lemma {:induction false} FirstsApart(groups: seq<Value>, n: nat)
    requires n <= |groups|
    ensures Apart(Firsts(groups, n)) && AllNamed(Firsts(groups, n)) && Names(Firsts(groups, n)) == Names(groups[..n])
  {
    hide GroupName, Names, Apart, AllNamed;
    if n > 0 {
      FirstsApart(groups, n - 1);
      NamesNext(groups, n - 1);
      var g, before := groups[n - 1], Firsts(groups, n - 1);
      if GroupName(g) == "" || GroupName(g) in Names(groups[..n - 1]) {
        assert before + [] == before;
      } else {
        ApartAppend(before, g);
      }
    } else {
      assert groups[..n] == [];
      NothingApart();
    }
  }

  lemma NothingApart()
    ensures Apart([]) && AllNamed([]) && Names([]) == {}
  {
  }

  lemma {:induction false} UnreplacedApart(base: seq<Value>, n: nat, replaced: set<string>)
    requires n <= |base| && Apart(base)
    ensures Apart(Unreplaced(base, n, replaced)) && AllNamed(Unreplaced(base, n, replaced))
    ensures Names(Unreplaced(base, n, replaced)) == Names(base[..n]) - replaced
  {
    hide GroupName, Names, AllNamed;
    if n > 0 {
      UnreplacedApart(base, n - 1, replaced);
      NamesNext(base, n - 1);
      var name, before := GroupName(base[n - 1]), Unreplaced(base, n - 1, replaced);
      if name != "" && name !in replaced {
        NameNew(base, n - 1);
        assert base[..|base|] == base;
        assert name in Names(base) by {
          NamedIn(base, n - 1);
        }
        hide Apart;
        ApartAppend(before, LastNamed(base, |base|, name));
      } else {
        assert before + [] == before;
      }
    } else {
      assert base[..n] == [];
      NothingApart();
    }
  }

  lemma NamedIn(groups: seq<Value>, i: nat)
    requires i < |groups| && GroupName(groups[i]) != ""
    ensures GroupName(groups[i]) in Names(groups)
  {
    assert groups[i] in groups;
  }

  lemma NameNew(groups: seq<Value>, i: nat)
    requires i < |groups| && Apart(groups) && GroupName(groups[i]) != ""
    ensures GroupName(groups[i]) !in Names(groups[..i])
  {
    hide GroupName;
    var before := groups[..i];
    forall g | g in before
      ensures GroupName(g) != GroupName(groups[i])
    {
      var k :| 0 <= k < i && before[k] == g;
      assert groups[k] == g;
    }
  }

  /** The merged groups are named, no two alike, and have all the names of both lists. */
  lemma MergedApart(base: seq<Value>, remote: seq<Value>)
    requires Apart(base)
    ensures Apart(MergedGroups(base, remote)) && AllNamed(MergedGroups(base, remote))
    ensures Names(MergedGroups(base, remote)) == Names(base) + Names(remote)
  {
    FirstsApart(remote, |remote|);
    UnreplacedApart(base, |base|, Names(remote));
    assert remote[..|remote|] == remote && base[..|base|] == base;
    JoinApart(Firsts(remote, |remote|), Unreplaced(base, |base|, Names(remote)));
  }

  lemma JoinApart(a: seq<Value>, b: seq<Value>)
    requires Apart(a) && Apart(b) && AllNamed(a) && AllNamed(b) && Names(a) !! Names(b)
    ensures Apart(a + b) && AllNamed(a + b) && Names(a + b) == Names(a) + Names(b)
  {
    hide GroupName;
    forall i, j | 0 <= i < |a| && 0 <= j < |b|
      ensures GroupName(a[i]) != GroupName(b[j])
    {
      NamedIn(a, i);
      NamedIn(b, j);
    }
  }

  lemma {:induction false} FirstsKeep(groups: seq<Value>, n: nat, g: Value)
    requires n <= |groups| && Apart(groups)
    ensures g in Firsts(groups, n) <==> g in groups[..n] && GroupName(g) != ""
  {
    hide GroupName, Names, Apart;
    if n > 0 {
      FirstsKeep(groups, n - 1, g);
      assert groups[..n] == groups[..n - 1] + [groups[n - 1]];
      if GroupName(groups[n - 1]) != "" {
        NameNew(groups, n - 1);
      }
    }
  }

  lemma OnlyNamed(groups: seq<Value>, i: nat)
    requires i < |groups| && Apart(groups) && GroupName(groups[i]) != ""
    ensures groups[..|groups|] == groups && GroupName(groups[i]) in Names(groups)
    ensures LastNamed(groups, |groups|, GroupName(groups[i])) == groups[i]
  {
    hide GroupName;
    assert groups[..|groups|] == groups;
    NamedIn(groups, i);
    var g := LastNamed(groups, |groups|, GroupName(groups[i]));
    var k :| 0 <= k < |groups| && groups[k] == g;
    assert k < i ==> GroupName(groups[k]) != GroupName(groups[i]);
    assert i < k ==> GroupName(groups[i]) != GroupName(groups[k]);
  }

  lemma {:induction false} UnreplacedKeep(base: seq<Value>, n: nat, replaced: set<string>, g: Value)
    requires n <= |base| && Apart(base)
    ensures g in Unreplaced(base, n, replaced) <==> g in base[..n] && GroupName(g) != "" && GroupName(g) !in replaced
  {
    hide GroupName, Names, Apart, LastNamed;
    if n > 0 {
      UnreplacedKeep(base, n - 1, replaced, g);
      assert base[..n] == base[..n - 1] + [base[n - 1]];
      if GroupName(base[n - 1]) != "" {
        OnlyNamed(base, n - 1);
      }
    }
  }

  /** Every named remote group is in the result, and of the base groups exactly those whose name
      no remote group takes. */
  lemma GroupChosen(base: seq<Value>, remote: seq<Value>, g: Value)
    requires Apart(base) && Apart(remote)
    ensures g in MergedGroups(base, remote) <==>
      GroupName(g) != "" && (g in remote || (g in base && GroupName(g) !in Names(remote)))
  {
    hide GroupName, Names, Apart;
    FirstsKeep(remote, |remote|, g);
    UnreplacedKeep(base, |base|, Names(remote), g);
    assert remote[..|remote|] == remote && base[..|base|] == base;
  }

  // ---- The route graph -------------------------------------------------------

  const BUILT_IN: set<string> := {"DIRECT", "REJECT", "REJECT-DROP", "REJECT-TINYGIF", "PASS", "GLOBAL"}

  /** Everything a rule, a group or a provider may name. */
  function Known(config: Config): set<string> {
    BUILT_IN + Names(ItemsOrNone(Get(config, "proxies"))) + Names(ItemsOrNone(Get(config, "proxy-groups")))
  }

  function Providers(config: Config): map<string, Value> {
    if Get(config, "rule-providers").Some? && Get(config, "rule-providers").value.Map?
      then Get(config, "rule-providers").value.entries
    else map[]
  }

  predicate RefOk(ref: Value, known: set<string>) { ref.Str? && Trim(ref.text) != "" && Trim(ref.text) in known }

  predicate RefsOk(refs: seq<Value>, known: set<string>) { forall i | 0 <= i < |refs| :: RefOk(refs[i], known) }

  predicate GroupOk(g: Value, known: set<string>) {
    g.Map? && "proxies" in g.entries ==> g.entries["proxies"].Seq? && RefsOk(g.entries["proxies"].items, known)
  }

  predicate ProviderOk(p: Value, known: set<string>) { TextEntry(p, "proxy") != "" ==> TextEntry(p, "proxy") in known }

  /** A rule names a known target, and a rule set of a provider that is there. */
  predicate RuleOk(rule: Value, known: set<string>, providers: set<string>) {
    && rule.Str? && Trim(rule.text) != ""
    && var parts := Parts(rule.text);
    && |parts| >= 2
    && (Says(parts[0], "rule-set") ==> |parts| >= 3 && parts[1] in providers)
    && TargetIndex(parts, |parts| - 1) >= 1 && parts[TargetIndex(parts, |parts| - 1)] in known
  }

  predicate GroupsOk(groups: seq<Value>, known: set<string>) {
    forall i | 0 <= i < |groups| :: GroupOk(groups[i], known)
  }

  predicate ProvidersOk(providers: map<string, Value>, known: set<string>) {
    forall name | name in providers :: ProviderOk(providers[name], known)
  }

  predicate RulesOk(rules: seq<Value>, known: set<string>, providers: set<string>) {
    forall i | 0 <= i < |rules| :: RuleOk(rules[i], known, providers)
  }

  /** No reference of the configuration dangles. */
  predicate GraphOk(config: Config) {
    var known := Known(config);
    && GroupsOk(ItemsOrNone(Get(config, "proxy-groups")), known)
    && ProvidersOk(Providers(config), known)
    && RulesOk(ItemsOrNone(Get(config, "rules")), known, Providers(config).Keys)
  }

  method CollectNames(values: seq<Value>, known: set<string>) returns (all: set<string>)
    ensures all == known + Names(values)
  {
    hide GroupName, Names;
    all := known;
    NoNames();
    for i := 0 to |values|
      invariant all == known + Names(values[..i])
    {
      NamesNext(values, i);
      var name := GroupName(values[i]);
      if name != "" {
        all := all + {name};
      }
    }
    assert values[..|values|] == values;
  }

  method CheckGroups(groups: seq<Value>, known: set<string>) returns (ok: bool)
    ensures ok <==> GroupsOk(groups, known)
  {
    hide RefOk;
    for i := 0 to |groups|
      invariant forall k | 0 <= k < i :: GroupOk(groups[k], known)
    {
      var g := groups[i];
      if g.Map? && "proxies" in g.entries {
        var refs := g.entries["proxies"];
        if !refs.Seq? {
          return false;
        }
        for j := 0 to |refs.items|
          invariant forall k | 0 <= k < j :: RefOk(refs.items[k], known)
        {
          if !RefOk(refs.items[j], known) {
            return false;
          }
        }
      }
    }
    return true;
  }

  method CheckProviders(providers: map<string, Value>, known: set<string>) returns (ok: bool)
    ensures ok <==> ProvidersOk(providers, known)
  {
    var todo := providers.Keys;
    while todo != {}
      invariant todo <= providers.Keys
      invariant forall name | name in providers && name !in todo :: ProviderOk(providers[name], known)
      decreases todo
    {
      SomeText(todo);
      var name :| name in todo;
      todo := todo - {name};
      var via := TextEntry(providers[name], "proxy");
      if via != "" && via !in known {
        return false;
      }
    }
    return true;
  }

  method CheckRules(rules: seq<Value>, known: set<string>, providers: set<string>) returns (ok: bool)
    ensures ok <==> RulesOk(rules, known, providers)
  {
    hide RuleOk;
    for i := 0 to |rules|
      invariant forall k | 0 <= k < i :: RuleOk(rules[k], known, providers)
    {
      ok := CheckRule(rules[i], known, providers);
      if !ok {
        return false;
      }
    }
    return true;
  }

  /** One round of that loop. */
  method CheckRule(rule: Value, known: set<string>, providers: set<string>) returns (ok: bool)
    ensures ok <==> RuleOk(rule, known, providers)
  {
    hide Trim, Split, Says;
    if !rule.Str? || Trim(rule.text) == "" {
      return false;
    }
    var parts := Parts(rule.text);
    if |parts| < 2 || (Says(parts[0], "rule-set") && (|parts| < 3 || parts[1] !in providers)) {
      return false;
    }
    var target := |parts| - 1;
    while target >= 1 && IsFlag(parts[target])
      invariant 0 <= target < |parts|
      invariant TargetIndex(parts, |parts| - 1) == TargetIndex(parts, target)
    {
      target := target - 1;
    }
    return target >= 1 && parts[target] in known;
  }

  /** validateClashRouteGraph. */
  method ValidateRouteGraph(config: Config) returns (ok: bool)
    ensures ok <==> GraphOk(config)
  {
    hide GroupsOk, ProvidersOk, RulesOk, Names;
    var known := CollectNames(ItemsOrNone(Get(config, "proxies")), BUILT_IN);
    known := CollectNames(ItemsOrNone(Get(config, "proxy-groups")), known);
    ok := CheckGroups(ItemsOrNone(Get(config, "proxy-groups")), known);
    if ok {
      ok := CheckProviders(Providers(config), known);
    }
    if ok {
      ok := CheckRules(ItemsOrNone(Get(config, "rules")), known, Providers(config).Keys);
    }
  }

  // ---- Merging a remote document ---------------------------------------------

  predicate RouteKey(key: string) { key == "proxy-groups" || key == "rule-providers" || key == "rules" }

  predicate ClientKey(key: string) { key == "dns" || key == "sniffer" }

  /** The remote entry counts: an unknown key is ignored, and so is a malformed or unwanted
      client setting. */
  predicate Counts(key: string, value: Value, allow: bool) {
    RouteKey(key) || (ClientKey(key) && allow && value.Map?)
  }

  predicate RemoteGroupOk(g: Value) {
    && g.Map? && GroupName(g) != "" && TextEntry(g, "type") != ""
    && ("use" in g.entries ==> g.entries["use"] == Seq([]))
  }

  /** validateRemoteClashValue. */
  predicate ValueOk(key: string, value: Value) {
    match key
    case "rules" => value.Seq? && forall i | 0 <= i < |value.items| ::
      value.items[i].Str? && Trim(value.items[i].text) != ""
    case "proxy-groups" => value.Seq? && (forall i | 0 <= i < |value.items| :: RemoteGroupOk(value.items[i]))
      && Apart(value.items)
    case "rule-providers" => value.Map? && forall name | name in value.entries ::
      Trim(name) != "" && value.entries[name].Map?
    case _ => true
  }

  /** What a valid entry puts under its key; None leaves the key alone. */
  function NewEntry(base: Config, key: string, value: Value): (entry: Option<Value>) {
    if key == "rules" then
      var custom := ItemsOrNone(Some(value));
      if custom == [] then None else Some(Seq(MergedRules(ItemsOrNone(Get(base, "rules")), custom)))
    else if key == "proxy-groups"
      then Some(Seq(MergedGroups(ItemsOrNone(Get(base, "proxy-groups")), ItemsOrNone(Some(value)))))
    else Some(value)
  }

  /** The entry of the merged configuration once the keys in done were visited. */
  function MergedEntry(base: Config, remote: Config, allow: bool, done: set<string>, key: string): Option<Value> {
    if key in done && key in remote && Counts(key, remote[key], allow) && NewEntry(base, key, remote[key]).Some? then
      NewEntry(base, key, remote[key])
    else Get(base, key)
  }

  function Merged(base: Config, remote: Config, allow: bool, done: set<string>): (r: Config)
    ensures forall key :: Get(r, key) == MergedEntry(base, remote, allow, done, key)
  {
    map key | key in base.Keys + remote.Keys && MergedEntry(base, remote, allow, done, key).Some? ::
      MergedEntry(base, remote, allow, done, key).value
  }

  predicate RemoteOk(remote: Config, allow: bool) {
    remote != map[] && forall key | key in remote && Counts(key, remote[key], allow) :: ValueOk(key, remote[key])
  }

  lemma SameConfig(a: Config, b: Config)
    requires forall key :: Get(a, key) == Get(b, key)
    ensures a == b
  {
    forall key
      ensures key in a <==> key in b
      ensures key in a ==> a[key] == b[key]
    {
      assert Get(a, key) == Get(b, key);
    }
  }

  /** mergeRemoteClashRules: whatever order the remote keys are visited in, it succeeds exactly
      when every counting entry is well formed and no reference of the result dangles, and
      then with the same result. */
  method MergeRemoteClashRules(base: Config, remote: Config, allow: bool) returns (r: Option<Config>)
    ensures r.Some? <==> RemoteOk(remote, allow) && GraphOk(Merged(base, remote, allow, remote.Keys))
    ensures r.Some? ==> r.value == Merged(base, remote, allow, remote.Keys) && Routed(base, remote, allow, r.value)
  {
    hide ValueOk, GraphOk, MergedRules, MergedGroups, Counts, Routed;
    if remote == map[] {
      return None;
    }
    var config := base;
    var done: set<string> := {};
    SameConfig(base, Merged(base, remote, allow, {}));
    while done != remote.Keys
      invariant done <= remote.Keys && config == Merged(base, remote, allow, done)
      invariant forall key | key in done && Counts(key, remote[key], allow) :: ValueOk(key, remote[key])
      decreases remote.Keys - done
    {
      SomeText(remote.Keys - done);
      var key :| key in remote.Keys - done;
      ghost var before := config;
      if Counts(key, remote[key], allow) {
        var valid := ValidateRemoteValue(key, remote[key]);
        if !valid {
          return None;
        }
        config := ApplyEntry(config, key, remote[key]);
      }
      VisitKey(base, remote, allow, done, key, before, config);
      done := done + {key};
    }
    MergeRouted(base, remote, allow);
    var ok := ValidateRouteGraph(config);
    return if ok then Some(config) else None;
  }

  /** Writes one valid entry into the configuration. */
  method ApplyEntry(config: Config, key: string, value: Value) returns (after: Config)
    ensures var entry := NewEntry(config, key, value);
      after == if entry.Some? then config[key := entry.value] else config
  {
    hide MergedRules, MergedGroups;
    if key == "rules" {
      var custom := ItemsOrNone(Some(value));
      if custom == [] {
        return config;
      }
      var ends := HasClashMatchRule(custom);
      RulesAlone(ItemsOrNone(Get(config, "rules")), custom);
      after := config["rules" := Seq(if ends then custom else custom + ItemsOrNone(Get(config, "rules")))];
    } else if key == "proxy-groups" {
      var merged := MergeClashProxyGroups(ItemsOrNone(Get(config, "proxy-groups")), ItemsOrNone(Some(value)));
      after := config["proxy-groups" := Seq(merged)];
    } else {
      after := config[key := value];
    }
  }

  lemma RulesAlone(base: seq<Value>, custom: seq<Value>)
    ensures MergedRules(base, custom) == if HasMatch(custom) then custom else custom + base
  {
  }

  lemma VisitKey(base: Config, remote: Config, allow: bool, done: set<string>, key: string, before: Config,
                 after: Config)
    requires key in remote && key !in done && before == Merged(base, remote, allow, done)
    requires var entry := NewEntry(before, key, remote[key]);
      after == if Counts(key, remote[key], allow) && entry.Some? then before[key := entry.value] else before
    ensures after == Merged(base, remote, allow, done + {key})
  {
    hide MergedRules, MergedGroups, Counts;
    var goal := Merged(base, remote, allow, done + {key});
    assert Get(before, key) == MergedEntry(base, remote, allow, done, key) == Get(base, key);
    assert NewEntry(before, key, remote[key]) == NewEntry(base, key, remote[key]);
    forall k
      ensures Get(after, k) == Get(goal, k)
    {
      assert Get(before, k) == MergedEntry(base, remote, allow, done, k);
      assert Get(goal, k) == MergedEntry(base, remote, allow, done + {key}, k);
    }
    SameConfig(after, goal);
  }

  /** validateRemoteClashValue. */
  method ValidateRemoteValue(key: string, value: Value) returns (ok: bool)
    ensures ok <==> ValueOk(key, value)
  {
    hide Trim, GroupName, TextEntry;
    if key == "rules" {
      if !value.Seq? {
        return false;
      }
      for i := 0 to |value.items|
        invariant forall k | 0 <= k < i :: value.items[k].Str? && Trim(value.items[k].text) != ""
      {
        if !value.items[i].Str? || Trim(value.items[i].text) == "" {
          return false;
        }
      }
      return true;
    }
    if key == "proxy-groups" {
      if !value.Seq? {
        return false;
      }
      ok := ValidateRemoteGroups(value.items);
      return;
    }
    if key == "rule-providers" {
      return value.Map? && forall name | name in value.entries :: Trim(name) != "" && value.entries[name].Map?;
    }
    return true;
  }

  method ValidateRemoteGroups(groups: seq<Value>) returns (ok: bool)
    ensures ok <==> (forall i | 0 <= i < |groups| :: RemoteGroupOk(groups[i])) && Apart(groups)
  {
    hide GroupName, TextEntry, Names;
    var seen: set<string> := {};
    NoNames();
    for i := 0 to |groups|
      invariant seen == Names(groups[..i])
      invariant forall k | 0 <= k < i :: RemoteGroupOk(groups[k])
      invariant forall a, b | 0 <= a < b < i :: GroupName(groups[a]) != GroupName(groups[b])
    {
      var g := groups[i];
      if !g.Map? || GroupName(g) == "" || TextEntry(g, "type") == "" {
        return false;
      }
      NamesNext(groups, i);
      if GroupName(g) in seen {
        SeenBefore(groups, i);
        return false;
      }
      forall a | 0 <= a < i
        ensures GroupName(groups[a]) != GroupName(g)
      {
        assert GroupName(groups[a]) != "";
        assert groups[..i][a] == groups[a];
        NamedIn(groups[..i], a);
      }
      seen := seen + {GroupName(g)};
      if "use" in g.entries && g.entries["use"] != Seq([]) {
        return false;
      }
    }
    return true;
  }

  lemma SeenBefore(groups: seq<Value>, i: nat)
    requires i < |groups| && GroupName(groups[i]) in Names(groups[..i])
    ensures !Apart(groups)
  {
    hide GroupName;
    var g :| g in groups[..i] && GroupName(g) != "" && GroupName(g) == GroupName(groups[i]);
    var k :| 0 <= k < i && groups[..i][k] == g;
    assert groups[k] == g;
  }

  // ---- What a successful merge promises --------------------------------------

  /** A merge that succeeds on uniquely named groups and a rule list that ends in MATCH leaves
      both so, with the generated proxies and every entry outside the routing and client keys
      unchanged; that no reference dangles is what it checked. */
  lemma MergeSound(base: Config, remote: Config, allow: bool)
    requires RemoteOk(remote, allow) && Apart(ItemsOrNone(Get(base, "proxy-groups")))
      && HasMatch(ItemsOrNone(Get(base, "rules")))
    ensures var merged := Merged(base, remote, allow, remote.Keys);
      && Apart(ItemsOrNone(Get(merged, "proxy-groups")))
      && HasMatch(ItemsOrNone(Get(merged, "rules")))
      && Get(merged, "proxies") == Get(base, "proxies")
      && (forall key | !RouteKey(key) && !(ClientKey(key) && allow) :: Get(merged, key) == Get(base, key))
  {
    hide Apart, HasMatch, ValueOk, MergedRules, MergedGroups;
    var merged := Merged(base, remote, allow, remote.Keys);
    assert Get(merged, "proxy-groups") == MergedEntry(base, remote, allow, remote.Keys, "proxy-groups");
    assert Get(merged, "rules") == MergedEntry(base, remote, allow, remote.Keys, "rules");
    assert Get(merged, "proxies") == MergedEntry(base, remote, allow, remote.Keys, "proxies");
    if "proxy-groups" in remote {
      MergedApart(ItemsOrNone(Get(base, "proxy-groups")), ItemsOrNone(Some(remote["proxy-groups"])));
    }
    if "rules" in remote {
      MatchKept(ItemsOrNone(Get(base, "rules")), ItemsOrNone(Some(remote["rules"])));
    }
  }

  // ---- What a successful merge puts there ------------------------------------

  function RuleList(config: Config): seq<Value> {
    if "rules" in config && config["rules"].Seq? then config["rules"].items else []
  }

  function GroupList(config: Config): seq<Value> {
    if "proxy-groups" in config && config["proxy-groups"].Seq? then config["proxy-groups"].items else []
  }

  predicate SameEntry(a: Config, b: Config, key: string) { (key in a <==> key in b) && (key in a ==> a[key] == b[key]) }

  /** The remote rules come first, and the base's follow in order unless one of the remote ones
      is a MATCH rule; no remote rule leaves the base's. */
  ghost predicate RulesRouted(base: Config, remote: Config, merged: Config) {
    if RuleList(remote) == [] then SameEntry(base, merged, "rules")
    else
      && RuleList(remote) <= RuleList(merged)
      && RuleList(merged)[|RuleList(remote)|..]
         == if exists i :: 0 <= i < |RuleList(remote)| && IsMatch(RuleList(remote)[i]) then [] else RuleList(base)
  }

  /** The groups with a name no remote group has, in order. */
  function Spared(groups: seq<Value>, remote: seq<Value>): seq<Value> {
    if groups == [] then []
    else
      var g, rest := groups[0], Spared(groups[1..], remote);
      if GroupName(g) != "" && forall r | r in remote :: GroupName(r) != GroupName(g) then [g] + rest else rest
  }

  /** The remote groups come first, then the base's whose names they leave. */
  predicate GroupsRouted(base: Config, remote: Config, merged: Config) {
    if "proxy-groups" !in remote then SameEntry(base, merged, "proxy-groups")
    else GroupList(merged) == GroupList(remote) + Spared(GroupList(base), GroupList(remote))
  }

  /** Providers are taken as they are, client settings too when they are wanted and maps. */
  predicate RestRouted(base: Config, remote: Config, allow: bool, merged: Config) {
    && SameEntry(if "rule-providers" in remote then remote else base, merged, "rule-providers")
    && SameEntry(if allow && "dns" in remote && remote["dns"].Map? then remote else base, merged, "dns")
    && SameEntry(if allow && "sniffer" in remote && remote["sniffer"].Map? then remote else base, merged, "sniffer")
    && forall key | key in base.Keys + remote.Keys + merged.Keys && key !in ROUTED :: SameEntry(base, merged, key)
  }

  const ROUTED: set<string> := {"rules", "proxy-groups", "rule-providers", "dns", "sniffer"}

  lemma EntryIs(base: Config, remote: Config, allow: bool, key: string)
    ensures var merged := Merged(base, remote, allow, remote.Keys);
      Get(merged, key) == MergedEntry(base, remote, allow, remote.Keys, key)
  {
  }

  lemma MergeRules(base: Config, remote: Config, allow: bool)
    requires RemoteOk(remote, allow)
    ensures RulesRouted(base, remote, Merged(base, remote, allow, remote.Keys))
  {
    var merged := Merged(base, remote, allow, remote.Keys);
    EntryIs(base, remote, allow, "rules");
    hide Merged, IsMatch, GraphOk, RemoteOk, MergedGroups;
    if RuleList(remote) != [] {
      var custom := RuleList(remote);
      assert HasMatch(custom) <==> exists i :: 0 <= i < |custom| && IsMatch(custom[i]);
      assert RuleList(merged) == MergedRules(RuleList(base), custom);
      hide RuleList;
      assert (custom + RuleList(base))[|custom|..] == RuleList(base) && custom[|custom|..] == [];
    }
  }

  lemma {:induction false} FirstsSelf(groups: seq<Value>, n: nat)
    requires n <= |groups| && Apart(groups) && AllNamed(groups)
    ensures Firsts(groups, n) == groups[..n]
  {
    hide GroupName;
    if n > 0 {
      FirstsSelf(groups, n - 1);
      assert groups[..n] == groups[..n - 1] + [groups[n - 1]];
      if GroupName(groups[n - 1]) in Names(groups[..n - 1]) {
        SeenBefore(groups, n - 1);
      }
    }
  }

  lemma {:induction false} SparedSnoc(groups: seq<Value>, g: Value, remote: seq<Value>)
    ensures Spared(groups + [g], remote)
      == Spared(groups, remote)
         + (if GroupName(g) != "" && forall r | r in remote :: GroupName(r) != GroupName(g) then [g] else [])
  {
    hide GroupName;
    if groups == [] {
      assert groups + [g] == [g] && [g][1..] == [];
    } else {
      assert (groups + [g])[1..] == groups[1..] + [g];
      SparedSnoc(groups[1..], g, remote);
    }
  }

  lemma NamedBy(remote: seq<Value>, name: string)
    requires name != ""
    ensures name in Names(remote) <==> exists r :: r in remote && GroupName(r) == name
  {
    hide GroupName;
  }

  lemma {:induction false} UnreplacedSpared(base: seq<Value>, n: nat, remote: seq<Value>)
    requires n <= |base| && Apart(base)
    ensures Unreplaced(base, n, Names(remote)) == Spared(base[..n], remote)
  {
    hide GroupName, Names, Apart, LastNamed;
    if n > 0 {
      UnreplacedSpared(base, n - 1, remote);
      NextUnreplaced(base, n, Names(remote));
      assert base[..n] == base[..n - 1] + [base[n - 1]];
      SparedSnoc(base[..n - 1], base[n - 1], remote);
      if GroupName(base[n - 1]) != "" {
        NamedBy(remote, GroupName(base[n - 1]));
        OnlyNamed(base, n - 1);
      }
    }
  }

  lemma GroupsAre(ours: seq<Value>, theirs: seq<Value>)
    requires Apart(ours) && Apart(theirs) && AllNamed(theirs)
    ensures MergedGroups(ours, theirs) == theirs + Spared(ours, theirs)
  {
    FirstsSelf(theirs, |theirs|);
    UnreplacedSpared(ours, |ours|, theirs);
    hide GroupName, Apart, AllNamed, Firsts, Unreplaced, Spared, Names;
    assert theirs[..|theirs|] == theirs && ours[..|ours|] == ours;
  }

  lemma ValidGroups(value: Value)
    requires ValueOk("proxy-groups", value)
    ensures value.Seq? && Apart(value.items) && AllNamed(value.items)
  {
    hide GroupName, TextEntry, Apart;
  }

  lemma MergeGroups(base: Config, remote: Config, allow: bool)
    requires RemoteOk(remote, allow) && Apart(GroupList(base))
    ensures GroupsRouted(base, remote, Merged(base, remote, allow, remote.Keys))
  {
    EntryIs(base, remote, allow, "proxy-groups");
    hide Merged, MergedGroups, Apart, AllNamed, Spared, ValueOk;
    if "proxy-groups" in remote {
      assert ValueOk("proxy-groups", remote["proxy-groups"]);
      ValidGroups(remote["proxy-groups"]);
      GroupsAre(GroupList(base), GroupList(remote));
    }
  }

  lemma MergeRest(base: Config, remote: Config, allow: bool)
    ensures RestRouted(base, remote, allow, Merged(base, remote, allow, remote.Keys))
  {
    var merged := Merged(base, remote, allow, remote.Keys);
    EntryIs(base, remote, allow, "rule-providers");
    EntryIs(base, remote, allow, "dns");
    EntryIs(base, remote, allow, "sniffer");
    forall key | key in base.Keys + remote.Keys + merged.Keys && key !in ROUTED
      ensures SameEntry(base, merged, key)
    {
      EntryIs(base, remote, allow, key);
    }
    hide Merged, MergedRules, MergedGroups;
  }

  /** What a successful merge puts there, told by the two documents and the result alone. */
  ghost predicate Routed(base: Config, remote: Config, allow: bool, merged: Config) {
    && RulesRouted(base, remote, merged) && RestRouted(base, remote, allow, merged)
    && (Apart(GroupList(base)) ==> GroupsRouted(base, remote, merged))
  }

  lemma MergeRouted(base: Config, remote: Config, allow: bool)
    requires RemoteOk(remote, allow)
    ensures Routed(base, remote, allow, Merged(base, remote, allow, remote.Keys))
  {
    hide RulesRouted, RestRouted, GroupsRouted, RemoteOk, Merged, Apart;
    MergeRules(base, remote, allow);
    MergeRest(base, remote, allow);
    if Apart(GroupList(base)) {
      MergeGroups(base, remote, allow);
    }
  }
}

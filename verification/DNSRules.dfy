/** Translating a legacy dns outbound policy into first-match rules
    (internal/database/db.go). */
module DNSRules {
  import opened Text

  datatype Action = Drop | Return(rCode: int) | Hijack | Direct

  /** A rule's qType as JSON carries it. */
  datatype QType = Number(n: int) | List(text: string)

  datatype Rule = Rule(action: Action, qType: Option<QType>)

  datatype Mode = RejectMode | DropMode | SkipMode

  const REFUSED: int := 5

  // ---- What the core makes of rules ------------------------------------------

  /** The query type is one of the comma-separated numbers. */
  predicate Lists(text: string, q: int) {
    exists i | 0 <= i < |Split(text, ',')| :: ParseInt(Trim(Split(text, ',')[i])) == Some(q)
  }

  /** To the core a numeric 0 is no type at all, and a rule with no type covers all queries. */
  predicate Matches(rule: Rule, q: int) {
    match rule.qType
    case None => true
    case Some(Number(n)) => n == 0 || n == q
    case Some(List(text)) => Lists(text, q)
  }

  /** The action of the first matching rule. */
  function Answer(rules: seq<Rule>, q: int): (a: Option<Action>) {
    if rules == [] then None
    else if Matches(rules[0], q) then Some(rules[0].action)
    else Answer(rules[1..], q)
  }

  // ---- The translation -------------------------------------------------------

  /** dnsQTypeValue: a lone type stays a number, except 0. */
  function QTypeValue(blockTypes: seq<int>): QType {
    if |blockTypes| == 1 && blockTypes[0] != 0 then Number(blockTypes[0])
    else List(Join(Printed(blockTypes, |blockTypes|), ","))
  }

  function Printed(blockTypes: seq<int>, n: nat): (parts: seq<string>)
    requires n <= |blockTypes|
    ensures |parts| == n && forall i | 0 <= i < n :: parts[i] == Itoa(blockTypes[i])
  {
    if n == 0 then [] else Printed(blockTypes, n - 1) + [Itoa(blockTypes[n - 1])]
  }

  function ModeAnswer(mode: Mode): Action {
    match mode
    case RejectMode => Return(REFUSED)
    case DropMode => Drop
    case SkipMode => Direct
  }

  /** legacyDNSOutboundRules. */
  function LegacyRules(mode: Mode, blockTypes: seq<int>): (rules: seq<Rule>) {
    (if blockTypes == [] then []
     else [Rule(if mode == RejectMode then Return(REFUSED) else Drop, Some(QTypeValue(blockTypes)))])
    + [Rule(Hijack, Some(List("1,28"))), Rule(ModeAnswer(mode), None)]
  }

  method LegacyDNSOutboundRules(mode: Mode, blockTypes: seq<int>) returns (rules: seq<Rule>)
    ensures rules == LegacyRules(mode, blockTypes)
  {
    rules := [];
    if blockTypes != [] {
      var rule := Rule(Drop, Some(QTypeValue(blockTypes)));
      if mode == RejectMode {
        rule := rule.(action := Return(REFUSED));
      }
      rules := rules + [rule];
    }
    rules := rules + [Rule(Hijack, Some(List("1,28")))];
    rules := rules + [Rule(ModeAnswer(mode), None)];
  }

  /** The legacy policy: a blocked type is refused with code 5 in reject mode and dropped in the
      others, then addresses are resolved, then the mode decides. */
  function LegacyAnswer(mode: Mode, blocked: bool, q: int): Action {
    if blocked then (if mode.RejectMode? then Return(5) else Drop)
    else if q == 1 || q == 28 then Hijack
    else if mode.RejectMode? then Return(5)
    else if mode.DropMode? then Drop
    else Direct
  }

  predicate QueryTypes(blockTypes: seq<int>) { forall i | 0 <= i < |blockTypes| :: 0 <= blockTypes[i] <= 65535 }

  lemma PrintedNumber(n: int)
    requires 0 <= n <= 65535
    ensures ParseInt(Trim(Itoa(n))) == Some(n) && ',' !in Itoa(n)
  {
    ParseItoa(n);
    hide Itoa, ParseInt;
    DigitsSolid(Itoa(n));
  }

  lemma DigitsSolid(s: string)
    requires s != "" && AllDigits(s)
    ensures Trim(s) == s && ',' !in s
  {
    assert s[0] in s && s[|s| - 1] in s;
  }

  /** A printed list lists exactly its types. */
  lemma PrintedLists(blockTypes: seq<int>, q: int)
    requires QueryTypes(blockTypes) && blockTypes != []
    ensures Lists(Join(Printed(blockTypes, |blockTypes|), ","), q) <==> q in blockTypes
  {
    hide Itoa, ParseInt, Trim, Split, Join;
    var parts := Printed(blockTypes, |blockTypes|);
    forall i | 0 <= i < |blockTypes|
      ensures ParseInt(Trim(parts[i])) == Some(blockTypes[i]) && ',' !in parts[i]
    {
      PrintedNumber(blockTypes[i]);
    }
    SplitJoin(parts, ',');
    if q in blockTypes {
      var i :| 0 <= i < |blockTypes| && blockTypes[i] == q;
      assert ParseInt(Trim(Split(Join(parts, ","), ',')[i])) == Some(q);
    }
  }

  lemma BlockedMatches(blockTypes: seq<int>, q: int, action: Action)
    requires QueryTypes(blockTypes) && blockTypes != []
    ensures Matches(Rule(action, Some(QTypeValue(blockTypes))), q) <==> q in blockTypes
  {
    hide Lists, Join;
    if !(|blockTypes| == 1 && blockTypes[0] != 0) {
      PrintedLists(blockTypes, q);
    }
  }

  lemma AddressMatches(q: int)
    ensures Lists("1,28", q) <==> q == 1 || q == 28
  {
    hide Lists, Itoa, Join;
    PrintedLists([1, 28], q);
    TwoNumbers();
    var parts := Printed([1, 28], 2);
    assert parts == ["1", "28"];
    JoinTwo("1", "28");
    assert "1" + "," + "28" == "1,28";
    assert q in [1, 28] <==> q == 1 || q == 28;
  }

  lemma JoinTwo(a: string, b: string)
    ensures Join([a, b], ",") == a + "," + b
  {
    assert [a, b][1..] == [b];
  }

  lemma TwoNumbers()
    ensures Itoa(1) == "1" && Itoa(28) == "28"
  {
    assert Digits(28) == Digits(2) + [DigitChar(8)];
  }

  /** Whatever the mode, the list and the query, the rules answer as the legacy policy did. */
  lemma RulesAnswer(mode: Mode, blockTypes: seq<int>, q: int)
    requires QueryTypes(blockTypes)
    ensures Answer(LegacyRules(mode, blockTypes), q) == Some(LegacyAnswer(mode, q in blockTypes, q))
  {
    hide Lists, QTypeValue;
    AddressMatches(q);
    var rules := LegacyRules(mode, blockTypes);
    var tail := [Rule(Hijack, Some(List("1,28"))), Rule(ModeAnswer(mode), None)];
    assert tail[1..] == [Rule(ModeAnswer(mode), None)];
    assert Answer(tail, q) == Some(if q == 1 || q == 28 then Hijack else ModeAnswer(mode));
    if blockTypes == [] {
      assert rules == tail;
    } else {
      BlockedMatches(blockTypes, q, rules[0].action);
      assert rules[1..] == tail;
    }
  }

  /** The list [0], had it stayed a number, would have blocked every query. */
  lemma NumericZeroBlocksAll(mode: Mode, q: int)
    ensures Answer([Rule(Drop, Some(Number(0)))] + LegacyRules(mode, []), q) == Some(Drop)
    ensures QTypeValue([0]) == List("0")
  {
    assert Printed([0], 1) == [Itoa(0)];
    assert Itoa(0) == "0";
  }

  // ---- Reading the legacy keys -----------------------------------------------

  /** What one printed part contributes. */
  function PartType(part: string): Option<int> {
    match ParseInt(Trim(part))
    case None => None
    case Some(n) => if n < 0 || n > 65535 then None else Some(n)
  }

  function PartTypes(parts: seq<string>, n: nat): seq<int>
    requires n <= |parts|
  {
    if n == 0 then []
    else
      var t := PartType(parts[n - 1]);
      PartTypes(parts, n - 1) + (if t.Some? then [t.value] else [])
  }

  /** The types of the first n items, each a printed number or a comma-separated list. */
  function ItemTypes(items: seq<string>, n: nat): seq<int>
    requires n <= |items|
  {
    if n == 0 then []
    else ItemTypes(items, n - 1) + PartTypes(Split(items[n - 1], ','), |Split(items[n - 1], ',')|)
  }

  /** legacyDNSBlockTypes, on the items as they print. */
  method LegacyDNSBlockTypes(items: seq<string>) returns (out: seq<int>)
    ensures out == ItemTypes(items, |items|)
  {
    hide Split, PartType;
    out := [];
    for i := 0 to |items|
      invariant out == ItemTypes(items, i)
    {
      var parts := Split(items[i], ',');
      ghost var before := out;
      for j := 0 to |parts|
        invariant out == before + PartTypes(parts, j)
      {
        var t := PartType(parts[j]);
        if t.Some? {
          out := out + [t.value];
        }
      }
    }
  }

  lemma QueryTypesJoin(a: seq<int>, b: seq<int>)
    requires QueryTypes(a) && QueryTypes(b)
    ensures QueryTypes(a + b)
  {
  }

  lemma PartTypeFits(part: string)
    ensures var t := PartType(part); QueryTypes(if t.Some? then [t.value] else []) && QueryTypes([])
  {
    hide ParseInt, Trim;
  }

  lemma {:induction false} PartTypesValid(parts: seq<string>, n: nat)
    requires n <= |parts|
    ensures QueryTypes(PartTypes(parts, n))
  {
    hide PartType, QueryTypes;
    if n > 0 {
      PartTypesValid(parts, n - 1);
      var t := PartType(parts[n - 1]);
      PartTypeFits(parts[n - 1]);
      QueryTypesJoin(PartTypes(parts, n - 1), if t.Some? then [t.value] else []);
    } else {
      PartTypeFits("");
    }
  }

  /** Whatever was stored, the types read from it are query types. */
  lemma {:induction false} ItemTypesValid(items: seq<string>, n: nat)
    requires n <= |items|
    ensures QueryTypes(ItemTypes(items, n))
  {
    if n > 0 {
      hide QueryTypes, PartTypes, Split;
      ItemTypesValid(items, n - 1);
      var parts := Split(items[n - 1], ',');
      PartTypesValid(parts, |parts|);
      QueryTypesJoin(ItemTypes(items, n - 1), PartTypes(parts, |parts|));
    } else {
      assert ItemTypes(items, n) == [];
    }
  }

  /** One of the stored items names the type, alone or between commas. */
  ghost predicate Names(items: seq<string>, q: int) {
    0 <= q <= 65535 && exists i | 0 <= i < |items| :: Lists(items[i], q)
  }

  lemma {:induction false} PartTypesAre(parts: seq<string>, n: nat, q: int)
    requires n <= |parts|
    ensures q in PartTypes(parts, n)
      <==> 0 <= q <= 65535 && exists j | 0 <= j < n :: ParseInt(Trim(parts[j])) == Some(q)
  {
    hide ParseInt, Trim;
    if n > 0 {
      PartTypesAre(parts, n - 1, q);
    }
  }

  /** The types read are exactly those the items name. */
  lemma {:induction false} TypesAre(items: seq<string>, n: nat, q: int)
    requires n <= |items|
    ensures q in ItemTypes(items, n) <==> Names(items[..n], q)
  {
    hide PartTypes, Split, Lists;
    if n > 0 {
      TypesAre(items, n - 1, q);
      PartsAre(items[n - 1], q);
      var all, init := items[..n], items[..n - 1];
      assert all == init + [items[n - 1]];
      assert forall i | 0 <= i < |init| :: all[i] == init[i];
      assert all[n - 1] == items[n - 1];
    }
  }

  lemma PartsAre(item: string, q: int)
    ensures var parts := Split(item, ','); q in PartTypes(parts, |parts|) <==> 0 <= q <= 65535 && Lists(item, q)
  {
    hide PartTypes, Split, ParseInt, Trim;
    PartTypesAre(Split(item, ','), |Split(item, ',')|, q);
  }

  /** So every legacy policy that is read is answered faithfully. */
  lemma ReadPolicyAnswers(mode: Mode, items: seq<string>, q: int)
    ensures Answer(LegacyRules(mode, ItemTypes(items, |items|)), q) == Some(LegacyAnswer(mode, Names(items, q), q))
  {
    hide ItemTypes, LegacyRules, LegacyAnswer, Answer, Names;
    ItemTypesValid(items, |items|);
    RulesAnswer(mode, ItemTypes(items, |items|), q);
    TypesAre(items, |items|, q);
    assert items[..|items|] == items;
  }

  // ---- Repairing a stored numeric 0 ------------------------------------------

  datatype Outbound = Outbound(dns: bool, rules: seq<Rule>)

  predicate NumericZero(rule: Rule) { rule.qType == Some(Number(0)) }

  function Repaired(rule: Rule): Rule {
    if NumericZero(rule) then rule.(qType := Some(List("0"))) else rule
  }

  function RepairedRules(rules: seq<Rule>): (r: seq<Rule>)
    ensures |r| == |rules| && forall i | 0 <= i < |rules| :: r[i] == Repaired(rules[i])
  {
    seq(|rules|, i requires 0 <= i < |rules| => Repaired(rules[i]))
  }

  function RepairedAll(outbounds: seq<Outbound>): (r: seq<Outbound>)
    ensures |r| == |outbounds|
    ensures forall i | 0 <= i < |outbounds| ::
      r[i] == if outbounds[i].dns then outbounds[i].(rules := RepairedRules(outbounds[i].rules)) else outbounds[i]
  {
    seq(|outbounds|, i requires 0 <= i < |outbounds| =>
      if outbounds[i].dns then outbounds[i].(rules := RepairedRules(outbounds[i].rules)) else outbounds[i])
  }

  predicate Broken(o: Outbound) { o.dns && exists j | 0 <= j < |o.rules| :: NumericZero(o.rules[j]) }

  /** RewriteDNSOutboundQTypeZero: changed exactly when some dns rule held a numeric 0. */
  method RewriteQTypeZero(outbounds: seq<Outbound>) returns (r: seq<Outbound>, changed: bool)
    ensures r == RepairedAll(outbounds)
    ensures changed <==> exists i | 0 <= i < |outbounds| :: Broken(outbounds[i])
  {
    r, changed := [], false;
    for i := 0 to |outbounds|
      invariant |r| == i && forall k | 0 <= k < i :: r[k] == RepairedAll(outbounds)[k]
      invariant changed <==> exists k | 0 <= k < i :: Broken(outbounds[k])
    {
      var o := outbounds[i];
      if o.dns {
        var rules, touched := RewriteRules(o.rules);
        r, changed := r + [o.(rules := rules)], changed || touched;
      } else {
        r := r + [o];
      }
    }
  }

  method RewriteRules(rules: seq<Rule>) returns (r: seq<Rule>, changed: bool)
    ensures r == RepairedRules(rules)
    ensures changed <==> exists j | 0 <= j < |rules| :: NumericZero(rules[j])
  {
    r, changed := [], false;
    for j := 0 to |rules|
      invariant |r| == j && forall k | 0 <= k < j :: r[k] == Repaired(rules[k])
      invariant changed <==> exists k | 0 <= k < j :: NumericZero(rules[k])
    {
      if NumericZero(rules[j]) {
        r, changed := r + [rules[j].(qType := Some(List("0")))], true;
      } else {
        r := r + [rules[j]];
      }
    }
  }

  /** Repairing once is enough: nothing is broken afterwards, and nothing changes again. */
  lemma RepairIdempotent(outbounds: seq<Outbound>)
    ensures RepairedAll(RepairedAll(outbounds)) == RepairedAll(outbounds)
    ensures forall i | 0 <= i < |outbounds| :: !Broken(RepairedAll(outbounds)[i])
  {
    forall i | 0 <= i < |outbounds|
      ensures RepairedAll(RepairedAll(outbounds))[i] == RepairedAll(outbounds)[i]
    {
      var rules := outbounds[i].rules;
      assert RepairedRules(RepairedRules(rules)) == RepairedRules(rules);
    }
  }

  /** A repaired rule matches what it was stored for; every other rule matches as before. */
  lemma RepairedMatches(rule: Rule, q: int)
    ensures Matches(Repaired(rule), q) <==> if NumericZero(rule) then q == 0 else Matches(rule, q)
  {
    PrintedLists([0], q);
    assert Printed([0], 1) == [Itoa(0)];
    assert Itoa(0) == "0";
    assert Join(["0"], ",") == "0";
  }

  // ---- Rewriting a dns outbound's settings -----------------------------------

  /** The legacy keys, absent when missing or null, and the rules; types as they print. */
  datatype Settings = Settings(nonIPQuery: Option<string>, blockTypes: Option<seq<string>>, rules: Option<seq<Rule>>)

  /** dnsNonIPQueryMode, on the stored mode in lower case. */
  function ModeOf(nonIPQuery: Option<string>): Mode {
    if nonIPQuery.Some? && Trim(nonIPQuery.value) == "drop" then DropMode
    else if nonIPQuery.Some? && Trim(nonIPQuery.value) == "skip" then SkipMode
    else RejectMode
  }

  function TypesOf(blockTypes: Option<seq<string>>): seq<int> {
    if blockTypes.Some? then ItemTypes(blockTypes.value, |blockTypes.value|) else []
  }

  /** What rewriteDNSOutboundLegacyKeys makes of one dns outbound's settings. */
  function Rewritten(s: Settings): Settings {
    if s.nonIPQuery.None? && s.blockTypes.None? then s
    else
      Settings(None, None,
               if s.rules.Some? then s.rules else Some(LegacyRules(ModeOf(s.nonIPQuery), TypesOf(s.blockTypes))))
  }

  /** The mode is the given word, white space around it apart. */
  ghost predicate HasMode(s: Settings, word: string) { s.nonIPQuery.Some? && Trim(s.nonIPQuery.value) == word }

  /** The policy the settings stand for: real rules win over the legacy keys, which are read
      here as they are stored. A mode other than drop and skip rejects. */
  ghost function PolicyAnswer(s: Settings, q: int): Option<Action> {
    var drops, skips := HasMode(s, "drop"), HasMode(s, "skip");
    if s.rules.Some? then Answer(s.rules.value, q)
    else if s.nonIPQuery.None? && s.blockTypes.None? then None
    else if s.blockTypes.Some? && Names(s.blockTypes.value, q) then Some(if drops || skips then Drop else Return(5))
    else if q == 1 || q == 28 then Some(Hijack)
    else Some(if drops then Drop else if skips then Direct else Return(5))
  }

  /** Rewriting keeps every query's answer, leaves no legacy key, and need not be repeated. */
  lemma RewriteKeepsPolicy(s: Settings, q: int)
    ensures PolicyAnswer(Rewritten(s), q) == PolicyAnswer(s, q)
    ensures Rewritten(s).nonIPQuery.None? && Rewritten(s).blockTypes.None? && Rewritten(Rewritten(s)) == Rewritten(s)
  {
    hide LegacyRules, Answer, ItemTypes, Names, Trim;
    if s.rules.None? && !(s.nonIPQuery.None? && s.blockTypes.None?) {
      if s.blockTypes.Some? {
        ReadPolicyAnswers(ModeOf(s.nonIPQuery), s.blockTypes.value, q);
      } else {
        RulesAnswer(ModeOf(s.nonIPQuery), [], q);
      }
    }
  }
}

/** What the rendered text says, key by key: which setting each key of the interface section and
    of a peer's section carries (Render and writeObfuscation in internal/amneziawgkern/config.go). */
module KernelKeys {
  import opened Text
  import opened AmneziaTypes
  import opened KernelConfig
  import opened KernelMeaning

  /** The values a key is given, in order. */
  function Values(settings: seq<Setting>, key: string): (values: seq<string>) {
    if settings == [] then []
    else (if settings[0].0 == key then [settings[0].1] else []) + Values(settings[1..], key)
  }

  /** The key stands there once with this value. */
  predicate Says(settings: seq<Setting>, key: string, value: string) { Values(settings, key) == [value] }

  /** The key stands there at most once, and just then, with this value. */
  predicate SaysIf(settings: seq<Setting>, key: string, given: bool, value: string) {
    Values(settings, key) == if given then [value] else []
  }

  lemma {:induction false} ValuesAppend(a: seq<Setting>, b: seq<Setting>, key: string)
    ensures Values(a + b, key) == Values(a, key) + Values(b, key)
  {
    if a == [] {
      assert a + b == b;
    } else {
      assert (a + b)[1..] == a[1..] + b;
      ValuesAppend(a[1..], b, key);
    }
  }

  lemma ValuesOne(s: Setting, key: string)
    ensures Values([s], key) == if s.0 == key then [s.1] else []
  {
    assert [s][1..] == [];
  }

  /** The parts of the interface section, told apart by their keys. */
  function Part(key: string): nat {
    if |key| < 2 then 6
    else if |key| <= 4 then (if key[0] == 'H' then 2 else if key[0] == 'I' then 3 else 1)
    else if key[0] == 'P' || key[0] == 'L' then 0
    else if key[0] == 'D' || (key[0] == 'R' && key[1] == 'a') then 5
    else 4
  }

  ghost predicate AllIn(settings: seq<Setting>, part: nat) { forall s | s in settings :: Part(s.0) == part }

  lemma {:induction false} NotHere(settings: seq<Setting>, part: nat, key: string)
    requires AllIn(settings, part) && Part(key) != part
    ensures Values(settings, key) == []
  {
    hide Part;
    if settings != [] {
      assert settings[0] in settings;
      NotHere(settings[1..], part, key);
    }
  }

  lemma AllInAppend(a: seq<Setting>, b: seq<Setting>, part: nat)
    requires AllIn(a, part) && AllIn(b, part)
    ensures AllIn(a + b, part)
  {
    hide Part;
  }

  // ---- The parts -------------------------------------------------------------

  /** A key, whether it is printed, and its value. */
  type Entry = (string, bool, string)

  function Shown(entries: seq<Entry>): (settings: seq<Setting>) {
    if entries == [] then []
    else (if entries[0].1 then [(entries[0].0, entries[0].2)] else []) + Shown(entries[1..])
  }

  ghost predicate Distinct(entries: seq<Entry>) { forall i, j | 0 <= i < j < |entries| :: entries[i].0 != entries[j].0 }

  lemma {:induction false} ShownLacks(entries: seq<Entry>, key: string)
    requires forall e | e in entries :: e.0 != key
    ensures Values(Shown(entries), key) == []
  {
    if entries != [] {
      var e := entries[0];
      assert e in entries;
      ShownLacks(entries[1..], key);
      if e.1 {
        ValuesAppend([(e.0, e.2)], Shown(entries[1..]), key);
        ValuesOne((e.0, e.2), key);
      } else {
        assert [] + Shown(entries[1..]) == Shown(entries[1..]);
      }
    }
  }

  /** Each entry of a list of different keys is what its key says. */
  lemma {:induction false} ShownSays(entries: seq<Entry>, i: nat)
    requires Distinct(entries) && i < |entries|
    ensures SaysIf(Shown(entries), entries[i].0, entries[i].1, entries[i].2)
  {
    var e, rest := entries[0], entries[1..];
    var first := if e.1 then [(e.0, e.2)] else [];
    ValuesAppend(first, Shown(rest), entries[i].0);
    if e.1 {
      ValuesOne((e.0, e.2), entries[i].0);
    }
    if i == 0 {
      assert forall r | r in rest :: r.0 != e.0;
      ShownLacks(rest, e.0);
    } else {
      ShownSays(rest, i - 1);
    }
  }

  lemma {:induction false} ShownIn(entries: seq<Entry>, part: nat)
    requires forall e | e in entries :: Part(e.0) == part
    ensures AllIn(Shown(entries), part)
  {
    hide Part;
    if entries != [] {
      assert entries[0] in entries;
      ShownIn(entries[1..], part);
    }
  }

  lemma ShownStep(e: Entry, rest: seq<Entry>)
    ensures Shown([e] + rest) == (if e.1 then [(e.0, e.2)] else []) + Shown(rest)
  {
    assert ([e] + rest)[1..] == rest;
  }

  function FirstEntries(inst: Instance): seq<Entry> {
    [("PrivateKey", true, inst.privateKey), ("ListenPort", true, Itoa(inst.listenPort))]
  }

  function JunkEntries(o: Obfuscation31): seq<Entry> {
    [("Jc", true, Itoa(o.jc)), ("Jmin", true, Itoa(o.jmin)), ("Jmax", true, Itoa(o.jmax)), ("S1", true, Itoa(o.s1)),
     ("S2", true, Itoa(o.s2)), ("S3", o.s3 > 0, Itoa(o.s3)), ("S4", o.s4 > 0, Itoa(o.s4))]
  }

  function HeaderEntries(o: Obfuscation31): seq<Entry> {
    [("H1", true, if Trim(o.h1) != "" then Trim(o.h1) else "1"),
     ("H2", true, if Trim(o.h2) != "" then Trim(o.h2) else "2"),
     ("H3", true, if Trim(o.h3) != "" then Trim(o.h3) else "3"),
     ("H4", true, if Trim(o.h4) != "" then Trim(o.h4) else "4")]
  }

  function SignatureEntries(o: Obfuscation31): seq<Entry> {
    [("I1", o.i1 != "", o.i1), ("I2", o.i2 != "", o.i2), ("I3", o.i3 != "", o.i3), ("I4", o.i4 != "", o.i4),
     ("I5", o.i5 != "", o.i5)]
  }

  function Optional(key: string, value: string): Entry { (key, Trim(value) != "", Trim(value)) }

  function OptionalEntries(o: Obfuscation31): seq<Entry> {
    [Optional("HeaderProtectionKey", o.headerProtectionKey),
     Optional("ContentPaddingAddition", o.contentPaddingAddition),
     Optional("RekeyAfterTime", o.rekeyAfterTime),
     Optional("RekeyTimeout", o.rekeyTimeout),
     Optional("RejectAfterTime", o.rejectAfterTime),
     Optional("KeepaliveTimeout", o.keepaliveTimeout),
     Optional("MaxHandshakeAttempts", o.maxHandshakeAttempts)]
  }

  function FlagEntries(o: Obfuscation31): seq<Entry> {
    [("RandomTrailers", o.randomTrailers, "on"), ("DisableCookies", o.disableCookies, "on")]
  }

  lemma FirstParts(inst: Instance)
    ensures Distinct(FirstEntries(inst)) && forall e | e in FirstEntries(inst) :: Part(e.0) == 0
  {
    assert "PrivateKey"[0] == 'P' && "ListenPort"[0] == 'L';
    hide Itoa;
  }

  lemma JunkParts(o: Obfuscation31)
    ensures Distinct(JunkEntries(o)) && forall e | e in JunkEntries(o) :: Part(e.0) == 1
  {
    assert "Jmin"[2] == 'i' && "Jmax"[2] == 'a' && "Jc"[0] == 'J';
    assert "S1"[1] == '1' && "S2"[1] == '2' && "S3"[1] == '3' && "S4"[1] == '4' && "S1"[0] == 'S';
    hide Itoa;
  }

  lemma HeaderParts(o: Obfuscation31)
    ensures Distinct(HeaderEntries(o)) && forall e | e in HeaderEntries(o) :: Part(e.0) == 2
  {
    hide Trim;
    assert "H1"[1] == '1' && "H2"[1] == '2' && "H3"[1] == '3' && "H4"[1] == '4';
    assert Part("H1") == Part("H2") == Part("H3") == Part("H4") == 2;
    hide Part;
  }

  lemma SignatureParts(o: Obfuscation31)
    ensures Distinct(SignatureEntries(o)) && forall e | e in SignatureEntries(o) :: Part(e.0) == 3
  {
    assert "I1"[1] == '1' && "I2"[1] == '2' && "I3"[1] == '3' && "I4"[1] == '4' && "I5"[1] == '5';
  }

  const OPTIONAL_KEYS: seq<string> := [
    "HeaderProtectionKey", "ContentPaddingAddition", "RekeyAfterTime", "RekeyTimeout", "RejectAfterTime",
    "KeepaliveTimeout", "MaxHandshakeAttempts"]

  /** The optional keys differ in length. */
  function Length(i: nat): nat {
    if i == 0 then 19 else if i == 1 then 22 else if i == 2 then 14 else if i == 3 then 12 else if i == 4 then 15
    else if i == 5 then 16 else 20
  }

  lemma OptionalKey(i: nat)
    requires i < 7
    ensures |OPTIONAL_KEYS| == 7 && |OPTIONAL_KEYS[i]| == Length(i) && Part(OPTIONAL_KEYS[i]) == 4
  {
  }

  lemma OptionalParts(o: Obfuscation31)
    ensures Distinct(OptionalEntries(o)) && forall e | e in OptionalEntries(o) :: Part(e.0) == 4
  {
    var entries := OptionalEntries(o);
    forall i: nat | i < 7
      ensures |entries| == 7 && entries[i].0 == OPTIONAL_KEYS[i]
    {
      OptionalAt(o, i);
    }
    hide Part, Trim, OptionalEntries;
    forall i: nat | i < 7
      ensures |entries[i].0| == Length(i) && Part(entries[i].0) == 4
    {
      OptionalKey(i);
    }
  }

  lemma OptionalAt(o: Obfuscation31, i: nat)
    requires i < 7
    ensures |OptionalEntries(o)| == |OPTIONAL_KEYS| == 7 && OptionalEntries(o)[i].0 == OPTIONAL_KEYS[i]
  {
    hide Trim;
  }

  lemma FlagParts(o: Obfuscation31)
    ensures Distinct(FlagEntries(o)) && forall e | e in FlagEntries(o) :: Part(e.0) == 5
  {
    assert "RandomTrailers"[0] == 'R' && "RandomTrailers"[1] == 'a' && "DisableCookies"[0] == 'D';
  }

  // ---- What is printed -------------------------------------------------------

  lemma {:induction false} ShownAppend(a: seq<Entry>, b: seq<Entry>)
    ensures Shown(a + b) == Shown(a) + Shown(b)
  {
    if a == [] {
      assert a + b == b;
    } else {
      assert a + b == [a[0]] + (a[1..] + b) && a == [a[0]] + a[1..];
      ShownStep(a[0], a[1..] + b);
      ShownStep(a[0], a[1..]);
      ShownAppend(a[1..], b);
    }
  }

  lemma ShownOne(e: Entry)
    ensures Shown([e]) == if e.1 then [(e.0, e.2)] else []
  {
    assert [e][1..] == [];
  }

  /** The first n entries one by one. */
  lemma ShownNext(entries: seq<Entry>, n: nat)
    requires 0 < n <= |entries|
    ensures Shown(entries[..n])
      == Shown(entries[..n - 1]) + (if entries[n - 1].1 then [(entries[n - 1].0, entries[n - 1].2)] else [])
    ensures Shown(entries[..0]) == []
  {
    assert entries[..n] == entries[..n - 1] + [entries[n - 1]];
    ShownAppend(entries[..n - 1], [entries[n - 1]]);
    ShownOne(entries[n - 1]);
  }

  lemma FirstIs(inst: Instance)
    ensures FirstEntries(inst) == FirstEntries(inst)[..2]
    ensures Shown(FirstEntries(inst)) == [("PrivateKey", inst.privateKey), ("ListenPort", Itoa(inst.listenPort))]
  {
    var entries := FirstEntries(inst);
    hide Shown, Itoa;
    ShownNext(entries, 1);
    ShownNext(entries, 2);
    assert entries[..2] == entries;
  }

  lemma JunkIs(o: Obfuscation31)
    ensures JunkSettings(o) == Shown(JunkEntries(o))
  {
    var entries := JunkEntries(o);
    hide Shown, Itoa;
    ShownNext(entries, 1);
    ShownNext(entries, 2);
    ShownNext(entries, 3);
    ShownNext(entries, 4);
    ShownNext(entries, 5);
    ShownNext(entries, 6);
    ShownNext(entries, 7);
    assert entries[..7] == entries;
    assert Shown(entries[..5]) == [("Jc", Itoa(o.jc)), ("Jmin", Itoa(o.jmin)), ("Jmax", Itoa(o.jmax)),
                                   ("S1", Itoa(o.s1)), ("S2", Itoa(o.s2))];
  }

  lemma HeaderAt(o: Obfuscation31, n: nat)
    requires 0 < n <= 4
    ensures |o.Headers()| == |HeaderEntries(o)| == 4
    ensures HeaderEntries(o)[n - 1] == ("H" + Digits(n), true, HeaderOrDefault(o.Headers()[n - 1], n))
  {
    hide Trim;
    assert Digits(n) == [DigitChar(n)];
    assert "H" + "1" == "H1" && "H" + "2" == "H2" && "H" + "3" == "H3" && "H" + "4" == "H4";
  }

  lemma {:induction false} HeadersAre(o: Obfuscation31, n: nat)
    requires n <= 4 == |o.Headers()| == |HeaderEntries(o)|
    ensures HeaderSettings(o.Headers(), n) == Shown(HeaderEntries(o)[..n])
  {
    hide Shown, HeaderEntries, Digits, HeaderOrDefault;
    if n > 0 {
      HeadersAre(o, n - 1);
      HeaderAt(o, n);
      ShownNext(HeaderEntries(o), n);
    } else {
      ShownNext(HeaderEntries(o), 1);
    }
  }

  lemma SignatureAt(o: Obfuscation31, n: nat)
    requires 0 < n <= 5
    ensures |o.Signatures()| == |SignatureEntries(o)| == 5
    ensures SignatureEntries(o)[n - 1] == ("I" + Digits(n), o.Signatures()[n - 1] != "", o.Signatures()[n - 1])
  {
    assert Digits(n) == [DigitChar(n)];
    assert "I" + "1" == "I1" && "I" + "2" == "I2" && "I" + "3" == "I3" && "I" + "4" == "I4" && "I" + "5" == "I5";
  }

  lemma {:induction false} SignaturesAre(o: Obfuscation31, n: nat)
    requires n <= 5 == |o.Signatures()| == |SignatureEntries(o)|
    ensures SignatureSettings(o.Signatures(), n) == Shown(SignatureEntries(o)[..n])
  {
    hide Shown, SignatureEntries, Digits;
    if n > 0 {
      SignaturesAre(o, n - 1);
      SignatureAt(o, n);
      ShownNext(SignatureEntries(o), n);
    } else {
      ShownNext(SignatureEntries(o), 1);
    }
  }

  lemma OptionalIs(o: Obfuscation31, n: nat)
    requires 0 < n <= 7
    ensures |OptionalPairs(o)| == |OptionalEntries(o)| == 7
    ensures var pair := OptionalPairs(o)[n - 1]; OptionalEntries(o)[n - 1] == (pair.0, Trim(pair.1) != "", Trim(pair.1))
  {
    hide Trim;
  }

  lemma {:induction false} OptionalsAre(o: Obfuscation31, n: nat)
    requires n <= 7 == |OptionalPairs(o)| == |OptionalEntries(o)|
    ensures TrimmedSettings(OptionalPairs(o), n) == Shown(OptionalEntries(o)[..n])
  {
    hide Shown, OptionalEntries, OptionalPairs, Trim;
    if n > 0 {
      OptionalsAre(o, n - 1);
      OptionalIs(o, n);
      ShownNext(OptionalEntries(o), n);
    } else {
      ShownNext(OptionalEntries(o), 1);
    }
  }

  lemma FlagsAre(o: Obfuscation31)
    ensures FlagSettings(o) == Shown(FlagEntries(o))
  {
    var entries := FlagEntries(o);
    hide Shown;
    ShownNext(entries, 1);
    ShownNext(entries, 2);
    assert entries[..2] == entries;
  }

  /** The entries of one part of the section. */
  function PartEntries(inst: Instance, part: nat): seq<Entry> {
    if part == 0 then FirstEntries(inst)
    else if part == 1 then JunkEntries(inst.obfuscation)
    else if part == 2 then HeaderEntries(inst.obfuscation)
    else if part == 3 then SignatureEntries(inst.obfuscation)
    else if part == 4 then OptionalEntries(inst.obfuscation)
    else if part == 5 then FlagEntries(inst.obfuscation)
    else []
  }

  function PartShown(inst: Instance, part: nat): seq<Setting> { Shown(PartEntries(inst, part)) }

  lemma PartsAre(inst: Instance)
    ensures var o := inst.obfuscation;
      && |o.Headers()| == 4 && |o.Signatures()| == 5 && |OptionalPairs(o)| == 7
      && PartShown(inst, 0) == [("PrivateKey", inst.privateKey), ("ListenPort", Itoa(inst.listenPort))]
      && PartShown(inst, 1) == JunkSettings(o) && PartShown(inst, 2) == HeaderSettings(o.Headers(), 4)
      && PartShown(inst, 3) == SignatureSettings(o.Signatures(), 5)
      && PartShown(inst, 4) == TrimmedSettings(OptionalPairs(o), 7) && PartShown(inst, 5) == FlagSettings(o)
  {
    var o := inst.obfuscation;
    hide Shown, JunkEntries, HeaderEntries, SignatureEntries, OptionalEntries, FlagEntries, FirstEntries, Itoa;
    hide JunkSettings, HeaderSettings, SignatureSettings, TrimmedSettings, FlagSettings, OptionalPairs;
    FirstIs(inst);
    JunkIs(o);
    HeaderAt(o, 1);
    HeadersAre(o, 4);
    SignatureAt(o, 1);
    SignaturesAre(o, 5);
    OptionalIs(o, 1);
    OptionalsAre(o, 7);
    FlagsAre(o);
    assert HeaderEntries(o)[..4] == HeaderEntries(o) && SignatureEntries(o)[..5] == SignatureEntries(o);
    assert OptionalEntries(o)[..7] == OptionalEntries(o);
  }

  lemma SixParts(inst: Instance)
    ensures InterfaceSettings(inst)
      == PartShown(inst, 0)
         + (PartShown(inst, 1) + PartShown(inst, 2) + PartShown(inst, 3) + PartShown(inst, 4) + PartShown(inst, 5))
  {
    hide PartShown, JunkSettings, HeaderSettings, SignatureSettings, TrimmedSettings, FlagSettings, OptionalPairs, Itoa;
    PartsAre(inst);
  }

  lemma PartFits(inst: Instance, part: nat)
    requires part < 6
    ensures Distinct(PartEntries(inst, part)) && AllIn(PartShown(inst, part), part)
    ensures forall e | e in PartEntries(inst, part) :: Part(e.0) == part
  {
    FirstParts(inst);
    JunkParts(inst.obfuscation);
    HeaderParts(inst.obfuscation);
    SignatureParts(inst.obfuscation);
    OptionalParts(inst.obfuscation);
    FlagParts(inst.obfuscation);
    hide FirstEntries, JunkEntries, HeaderEntries, SignatureEntries, OptionalEntries, FlagEntries, Shown, Part,
         Distinct;
    ShownIn(PartEntries(inst, part), part);
  }

  /** Only one part can hold a key. */
  lemma PartHolds(inst: Instance, part: nat, key: string)
    requires part < 6 && Part(key) == part
    ensures Values(InterfaceSettings(inst), key) == Values(PartShown(inst, part), key)
  {
    hide Values, Part, PartShown, InterfaceSettings, AllIn, PartEntries, Distinct;
    var p0, p1, p2, p3, p4, p5 := PartShown(inst, 0), PartShown(inst, 1), PartShown(inst, 2), PartShown(inst, 3),
      PartShown(inst, 4), PartShown(inst, 5);
    SixParts(inst);
    ValuesAppend(p0, p1 + p2 + p3 + p4 + p5, key);
    ValuesAppend(p1 + p2 + p3 + p4, p5, key);
    ValuesAppend(p1 + p2 + p3, p4, key);
    ValuesAppend(p1 + p2, p3, key);
    ValuesAppend(p1, p2, key);
    forall q: nat | q < 6
      ensures q != part ==> Values(PartShown(inst, q), key) == []
    {
      PartFits(inst, q);
      if q != part {
        NotHere(PartShown(inst, q), q, key);
      }
    }
  }

  /** Each entry of each part is what the section says about its key. */
  lemma EntrySays(inst: Instance, part: nat, i: nat)
    requires part < 6 && i < |PartEntries(inst, part)|
    ensures var e := PartEntries(inst, part)[i]; SaysIf(InterfaceSettings(inst), e.0, e.1, e.2)
  {
    hide Values, Part, InterfaceSettings, AllIn, PartEntries, Distinct, Shown;
    var entries := PartEntries(inst, part);
    PartFits(inst, part);
    assert entries[i] in entries;
    PartHolds(inst, part, entries[i].0);
    ShownSays(entries, i);
  }

  /** The keys every rendered interface section carries, each once, with its own field. */
  predicate SaysAlways(said: seq<Setting>, inst: Instance) {
    var o := inst.obfuscation;
    && Says(said, "PrivateKey", inst.privateKey) && Says(said, "ListenPort", Itoa(inst.listenPort))
    && Says(said, "Jc", Itoa(o.jc)) && Says(said, "Jmin", Itoa(o.jmin)) && Says(said, "Jmax", Itoa(o.jmax))
    && Says(said, "S1", Itoa(o.s1)) && Says(said, "S2", Itoa(o.s2))
    && Says(said, "H1", if Trim(o.h1) != "" then Trim(o.h1) else "1")
    && Says(said, "H2", if Trim(o.h2) != "" then Trim(o.h2) else "2")
    && Says(said, "H3", if Trim(o.h3) != "" then Trim(o.h3) else "3")
    && Says(said, "H4", if Trim(o.h4) != "" then Trim(o.h4) else "4")
  }

  lemma AlwaysSaid(inst: Instance)
    ensures SaysAlways(InterfaceSettings(inst), inst)
  {
    hide InterfaceSettings, Values, Trim, Itoa;
    EntrySays(inst, 0, 0);
    EntrySays(inst, 0, 1);
    EntrySays(inst, 1, 0);
    EntrySays(inst, 1, 1);
    EntrySays(inst, 1, 2);
    EntrySays(inst, 1, 3);
    EntrySays(inst, 1, 4);
    EntrySays(inst, 2, 0);
    EntrySays(inst, 2, 1);
    EntrySays(inst, 2, 2);
    EntrySays(inst, 2, 3);
  }

  /** The keys that stand there just when their field is set: positive, not empty, not blank, on. */
  predicate SaysWhenSet(said: seq<Setting>, inst: Instance) {
    var o := inst.obfuscation;
    && SaysIf(said, "S3", o.s3 > 0, Itoa(o.s3)) && SaysIf(said, "S4", o.s4 > 0, Itoa(o.s4))
    && SaysIf(said, "I1", o.i1 != "", o.i1) && SaysIf(said, "I2", o.i2 != "", o.i2)
      && SaysIf(said, "I3", o.i3 != "", o.i3)
    && SaysIf(said, "I4", o.i4 != "", o.i4) && SaysIf(said, "I5", o.i5 != "", o.i5)
    && SaysIf(said, "RandomTrailers", o.randomTrailers, "on") && SaysIf(said, "DisableCookies", o.disableCookies, "on")
  }

  lemma SaidWhenSet(inst: Instance)
    ensures SaysWhenSet(InterfaceSettings(inst), inst)
  {
    hide InterfaceSettings, Values, Trim, Itoa;
    EntrySays(inst, 1, 5);
    EntrySays(inst, 1, 6);
    EntrySays(inst, 3, 0);
    EntrySays(inst, 3, 1);
    EntrySays(inst, 3, 2);
    EntrySays(inst, 3, 3);
    EntrySays(inst, 3, 4);
    EntrySays(inst, 5, 0);
    EntrySays(inst, 5, 1);
  }

  predicate SaysWhenNotBlank(said: seq<Setting>, inst: Instance) {
    var o := inst.obfuscation;
    && SaysIf(said, "HeaderProtectionKey", Trim(o.headerProtectionKey) != "", Trim(o.headerProtectionKey))
    && SaysIf(said, "ContentPaddingAddition", Trim(o.contentPaddingAddition) != "", Trim(o.contentPaddingAddition))
    && SaysIf(said, "RekeyAfterTime", Trim(o.rekeyAfterTime) != "", Trim(o.rekeyAfterTime))
    && SaysIf(said, "RekeyTimeout", Trim(o.rekeyTimeout) != "", Trim(o.rekeyTimeout))
    && SaysIf(said, "RejectAfterTime", Trim(o.rejectAfterTime) != "", Trim(o.rejectAfterTime))
    && SaysIf(said, "KeepaliveTimeout", Trim(o.keepaliveTimeout) != "", Trim(o.keepaliveTimeout))
    && SaysIf(said, "MaxHandshakeAttempts", Trim(o.maxHandshakeAttempts) != "", Trim(o.maxHandshakeAttempts))
  }

  lemma SaidWhenNotBlank(inst: Instance)
    ensures SaysWhenNotBlank(InterfaceSettings(inst), inst)
  {
    hide InterfaceSettings, Values, Trim;
    EntrySays(inst, 4, 0);
    EntrySays(inst, 4, 1);
    EntrySays(inst, 4, 2);
    EntrySays(inst, 4, 3);
    EntrySays(inst, 4, 4);
    EntrySays(inst, 4, 5);
    EntrySays(inst, 4, 6);
  }

  /** Key by key, the interface section of a rendered text carries the inbound's own settings. */
  lemma InterfaceSays(inst: Instance)
    requires Renderable(inst)
    ensures var blocks := Meaning(Rendered(inst));
      && blocks != [] && blocks[0].name == "[Interface]"
      && SaysAlways(blocks[0].settings, inst) && SaysWhenSet(blocks[0].settings, inst)
      && SaysWhenNotBlank(blocks[0].settings, inst)
      && forall s | s in blocks[0].settings :: InterfaceKey(s.0)
  {
    hide Meaning, Rendered, Renderable, InterfaceSettings, SaysAlways, SaysWhenSet, SaysWhenNotBlank, InterfaceKey,
         PeerBlocks;
    RenderedMeans(inst);
    AlwaysSaid(inst);
    SaidWhenSet(inst);
    SaidWhenNotBlank(inst);
    SettingsGood(inst);
    SettingsKeyed(InterfaceSettings(inst));
  }

  /** The peers that can be rendered: with a public key and an address, in order. */
  function Printed(peers: seq<Peer>): (printed: seq<Peer>) {
    if peers == [] then []
    else (if peers[0].publicKey != "" && |peers[0].allowedIPs| > 0 then [peers[0]] else []) + Printed(peers[1..])
  }

  lemma {:induction false} PrintedSnoc(peers: seq<Peer>, p: Peer)
    ensures Printed(peers + [p]) == Printed(peers) + (if p.publicKey != "" && |p.allowedIPs| > 0 then [p] else [])
  {
    if peers == [] {
      assert peers + [p] == [p] && [p][1..] == [];
    } else {
      assert (peers + [p])[1..] == peers[1..] + [p];
      PrintedSnoc(peers[1..], p);
    }
  }

  lemma {:induction false} PeerBlocksAre(peers: seq<Peer>)
    ensures |PeerBlocks(peers)| == |Printed(peers)|
    ensures forall k | 0 <= k < |Printed(peers)| ::
      PeerBlocks(peers)[k] == Block("[Peer]", PeerSettings(Printed(peers)[k]))
  {
    hide PeerSettings;
    if peers != [] {
      var init, last := peers[..|peers| - 1], peers[|peers| - 1];
      PeerBlocksAre(init);
      PrintedSnoc(init, last);
      assert peers == init + [last];
    }
  }

  predicate SaysPeer(said: seq<Setting>, p: Peer) {
    && Says(said, "PublicKey", p.publicKey) && SaysIf(said, "PresharedKey", p.presharedKey != "", p.presharedKey)
    && Says(said, "AllowedIPs", Join(p.allowedIPs, ", "))
  }

  lemma PeerSaid(p: Peer)
    ensures SaysPeer(PeerSettings(p), p)
  {
    hide Join, Shown, Values;
    var ips := Join(p.allowedIPs, ", ");
    var entries: seq<Entry> := [("PublicKey", true, p.publicKey),
      ("PresharedKey", p.presharedKey != "", p.presharedKey),
                                ("AllowedIPs", true, ips)];
    assert |"PublicKey"| == 9 && |"PresharedKey"| == 12 && |"AllowedIPs"| == 10;
    ShownNext(entries, 1);
    ShownNext(entries, 2);
    ShownNext(entries, 3);
    assert entries[..3] == entries;
    assert Shown(entries) == PeerSettings(p);
    assert Distinct(entries);
    ShownSays(entries, 0);
    ShownSays(entries, 1);
    ShownSays(entries, 2);
  }

  /** Below it, one section for each such peer, with the peer's own keys and addresses. */
  lemma PeersSay(inst: Instance)
    requires Renderable(inst)
    ensures var blocks, printed := Meaning(Rendered(inst)), Printed(inst.peers);
      && |blocks| == 1 + |printed|
      && forall k | 0 <= k < |printed| :: blocks[1 + k].name == "[Peer]" && SaysPeer(blocks[1 + k].settings, printed[k])
  {
    hide Meaning, Rendered, Renderable, InterfaceSettings, PeerBlocks, PeerSettings, SaysPeer, Printed;
    RenderedMeans(inst);
    PeerBlocksAre(inst.peers);
    forall k | 0 <= k < |Printed(inst.peers)|
      ensures SaysPeer(PeerSettings(Printed(inst.peers)[k]), Printed(inst.peers)[k])
    {
      PeerSaid(Printed(inst.peers)[k]);
    }
  }
}

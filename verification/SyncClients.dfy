/** Reconciling the CSQTT core's client set, which the panel shares with entries it did not
    create, through a ledger of the ones it did (internal/sidecar/csqtt_api.go). */
module SyncClients {
  import opened Ledger
  import opened Text

  datatype Client = Client(password: string, email: string, enable: bool, expiry: int)

  /** One client as the core holds it. */
  datatype Record = Record(name: string, days: int, hash: string, active: bool)

  type Core = map<string, Record>

  /** One entry of the list SyncClients builds from the panel's clients. */
  datatype Wanted = Wanted(credential: string, email: string, expiry: int, active: bool)

  /** What a call is given besides the clients. */
  datatype Settings = Settings(mainPass: string, now: int, hashes: string -> string)

  const DAY_MILLIS: int := 86_400_000
  const DAYS_MAX: int := 3650

  /** csqttDays: 0 for no expiry, else the whole days left, between 1 and ten years. */
  function Days(expiry: int, now: int): (days: int)
    ensures days == 0 <==> expiry <= 0
    ensures 0 <= days <= DAYS_MAX
    ensures 0 < expiry && 1 < days ==> now + days * DAY_MILLIS <= expiry
    ensures 0 < expiry && days < DAYS_MAX ==> expiry < now + (days + 1) * DAY_MILLIS
  {
    if expiry <= 0 then 0
    else
      var days := (expiry - now) / DAY_MILLIS;
      if days < 1 then 1 else if days > DAYS_MAX then DAYS_MAX else days
  }

  /** The client's entry, when it has a credential of its own. */
  function WantedOf(client: Client, settings: Settings): (w: Option<Wanted>) {
    var credential := Trim(client.password);
    if credential == "" || credential == Trim(settings.mainPass) then None
    else Some(Wanted(credential, client.email, client.expiry, client.enable
      && (client.expiry <= 0 || client.expiry > settings.now)))
  }

  function WantedList(clients: seq<Client>, settings: Settings): (list: seq<Wanted>)
    ensures forall w | w in list :: w.credential != "" && w.credential != Trim(settings.mainPass)
  {
    if clients == [] then []
    else
      var rest := WantedList(clients[..|clients| - 1], settings);
      var w := WantedOf(clients[|clients| - 1], settings);
      if w.Some? then rest + [w.value] else rest
  }

  function Credentials(list: seq<Wanted>): (s: set<string>) { set w | w in list :: w.credential }

  /** The ledger's own credentials: trimmed, neither blank nor the main one. */
  function Listed(ledger: seq<string>, settings: Settings): (s: set<string>)
    ensures forall c | c in s :: c != "" && c != Trim(settings.mainPass)
  {
    set e | e in ledger && Trim(e) != "" && Trim(e) != Trim(settings.mainPass) :: Trim(e)
  }

  function Created(w: Wanted, settings: Settings): Record {
    Record(w.email, Days(w.expiry, settings.now), settings.hashes(w.email), w.active)
  }

  /** What one wanted entry makes of the core. */
  function Apply(core: Core, w: Wanted, settings: Settings): Core {
    if w.credential in core then core[w.credential := core[w.credential].(active := w.active)]
    else core[w.credential := Created(w, settings)]
  }

  function ApplyAll(core: Core, list: seq<Wanted>, settings: Settings): Core {
    if list == [] then core
    else Apply(ApplyAll(core, list[..|list| - 1], settings), list[|list| - 1], settings)
  }

  /** The whole outcome of a call that succeeds. */
  function SyncedCore(core: Core, listed: set<string>, list: seq<Wanted>, settings: Settings): Core {
    ApplyAll(core - (listed - Credentials(list)), list, settings)
  }

  function SyncedLedger(core: Core, listed: set<string>, list: seq<Wanted>): set<string> {
    var wanted := Credentials(list);
    listed * wanted + (wanted - core.Keys)
  }

  /** The core stores credentials trimmed. */
  predicate Trimmed(core: Core) { forall c | c in core :: c != "" && Trim(c) == c }

  /** Where a call that failed while working through the wanted list can have stopped. */
  predicate StoppedAt(core: Core, base: Core, list: seq<Wanted>, settings: Settings, n: nat)
    requires n <= |list|
  {
    || core == ApplyAll(base, list[..n], settings)
    || (n < |list| && list[n].credential !in ApplyAll(base, list[..n], settings)
        && core == ApplyAll(base, list[..n],
          settings)[list[n].credential := Created(list[n], settings).(active := true)])
  }

  ghost predicate Stopped(core: Core, base: Core, list: seq<Wanted>, settings: Settings) {
    exists n | 0 <= n <= |list| :: StoppedAt(core, base, list, settings, n)
  }

  lemma Unfold(core: Core, list: seq<Wanted>, settings: Settings, n: nat)
    requires n < |list|
    ensures ApplyAll(core, list[..n + 1], settings) == Apply(ApplyAll(core, list[..n], settings), list[n], settings)
    ensures Credentials(list[..n + 1]) == Credentials(list[..n]) + {list[n].credential}
  {
    assert list[..n + 1][..n] == list[..n];
    assert list[..n + 1] == list[..n] + [list[n]];
  }

  lemma ListedHere(list: seq<Wanted>, n: nat)
    requires n < |list|
    ensures list[n].credential in Credentials(list)
  {
  }

  lemma ShowStopped(core: Core, base: Core, list: seq<Wanted>, settings: Settings, n: nat)
    requires n <= |list| && StoppedAt(core, base, list, settings, n)
    ensures Stopped(core, base, list, settings)
  {
  }

  lemma ApplyEffect(core: Core, w: Wanted, settings: Settings)
    ensures Apply(core, w, settings).Keys == core.Keys + {w.credential}
    ensures Apply(core, w, settings)[w.credential].active == w.active
    ensures forall c | c in core && c != w.credential :: Apply(core, w, settings)[c] == core[c]
  {
  }

  class CSQTTClient {
    /** The core process behind the admin API, how many more requests it answers, and whether
        the first one whose answer does not come is carried out all the same. */
    var core: Core
    var answers: nat
    var lost: bool
    var ledger: seq<string>
    const cookie: bool

    constructor (core: Core, answers: nat, ledger: seq<string>, cookie: bool)
      ensures this.core == core && this.answers == answers && this.ledger == ledger && this.cookie == cookie
    {
      this.core, this.answers, this.lost, this.ledger, this.cookie := core, answers, false, ledger, cookie;
    }

    /** One request. */
    method Request() returns (ok: bool)
      modifies this`answers
      ensures ok <==> old(answers) > 0
      ensures answers == if ok then old(answers) - 1 else 0
    {
      ok := answers > 0;
      if ok {
        answers := answers - 1;
      }
    }

    method Delete(passwords: seq<string>) returns (ok: bool)
      modifies this`core, this`answers
      ensures ok <==> old(answers) > 0
      ensures answers == if ok then old(answers) - 1 else 0
      ensures core == if ok || lost then old(core) - Members(passwords) else old(core)
    {
      ok := Request();
      if ok || lost {
        core := core - Members(passwords);
      }
    }

    method Create(w: Wanted, settings: Settings) returns (ok: bool)
      modifies this`core, this`answers
      ensures ok <==> old(answers) > 0
      ensures answers == if ok then old(answers) - 1 else 0
      ensures core == if ok || lost then old(core)[w.credential := Created(w, settings).(active := true)] else old(core)
    {
      ok := Request();
      if ok || lost {
        core := core[w.credential := Record(w.email, Days(w.expiry, settings.now), settings.hashes(w.email), true)];
      }
    }

    method Toggle(credential: string, active: bool) returns (ok: bool)
      requires credential in core
      modifies this`core, this`answers
      ensures ok <==> old(answers) > 0
      ensures answers == if ok then old(answers) - 1 else 0
      ensures core == if ok || lost then old(core)[credential := old(core)[credential].(active := active)]
        else old(core)
    {
      ok := Request();
      if ok || lost {
        core := core[credential := core[credential].(active := active)];
      }
    }

    /** The answer of the client list, by credential. */
    method Existing() returns (existing: map<string, bool>)
      requires Trimmed(core)
      ensures existing.Keys == core.Keys
      ensures forall c | c in core :: existing[c] == core[c].active
    {
      existing := map[];
      var todo := core.Keys;
      while todo != {}
        invariant todo <= core.Keys && existing.Keys == core.Keys - todo
        invariant forall c | c in existing :: existing[c] == core[c].active
        decreases todo
      {
        SomeText(todo);
        var password :| password in todo;
        todo := todo - {password};
        var credential := Trim(password);
        if credential != "" {
          existing := existing[credential := core[password].active];
        }
      }
    }

    method BuildWanted(clients: seq<Client>, settings: Settings) returns (list: seq<Wanted>)
      ensures list == WantedList(clients, settings)
    {
      list := [];
      for i := 0 to |clients|
        invariant list == WantedList(clients[..i], settings)
      {
        assert clients[..i + 1][..i] == clients[..i];
        var w := WantedOf(clients[i], settings);
        if w.Some? {
          list := list + [w.value];
        }
      }
      assert clients[..|clients|] == clients;
    }

    /** Splits the ledger into what is still wanted and what has to go. */
    method SplitLedger(settings: Settings, wanted: set<string>) returns (kept: set<string>, removals: seq<string>)
      ensures kept == Listed(ledger, settings) * wanted
      ensures Members(removals) == Listed(ledger, settings) - wanted
    {
      hide Listed, Members;
      kept, removals := {}, [];
      NothingListed(settings);
      for i := 0 to |ledger|
        invariant kept == Listed(ledger[..i], settings) * wanted
        invariant Members(removals) == Listed(ledger[..i], settings) - wanted
      {
        ListedStep(ledger, settings, i);
        var credential := Trim(ledger[i]);
        if credential != "" && credential != Trim(settings.mainPass) {
          if credential in wanted {
            kept := kept + {credential};
          } else {
            MembersAppend(removals, credential);
            removals := removals + [credential];
          }
        }
      }
      assert ledger[..|ledger|] == ledger;
    }

    lemma NothingListed(settings: Settings)
      ensures Listed([], settings) == {} && Members<string>([]) == {}
    {
    }

    lemma ListedStep(ledger: seq<string>, settings: Settings, i: nat)
      requires i < |ledger|
      ensures var c := Trim(ledger[i]);
        Listed(ledger[..i + 1], settings) == Listed(ledger[..i], settings)
          + (if c != "" && c != Trim(settings.mainPass) then {c} else {})
    {
      assert ledger[..i + 1] == ledger[..i] + [ledger[i]];
    }

    /** One wanted entry: created, toggled or left as it is. */
    method Converge(w: Wanted, settings: Settings, found: bool, active: bool) returns (ok: bool)
      requires found <==> w.credential in core
      requires found ==> core[w.credential].active == active
      modifies this`core, this`answers
      ensures old(answers) >= 2 ==> ok && answers >= old(answers) - 2
      ensures ok ==> core == Apply(old(core), w, settings)
      ensures !ok ==>
        || core == old(core) || core == Apply(old(core), w, settings)
        || (!found && core == old(core)[w.credential := Created(w, settings).(active := true)])
    {
      if !found {
        ok := Create(w, settings);
        if ok && !w.active {
          ok := Toggle(w.credential, false);
        }
      } else if active != w.active {
        ok := Toggle(w.credential, w.active);
      } else {
        ok := true;
      }
    }

    /** The wanted entries in list order; existing is what is known of the core. */
    method ConvergeAll(list: seq<Wanted>, settings: Settings, known: map<string, bool>, kept0: set<string>)
      returns (ok: bool, kept: set<string>)
      requires forall c | c in Credentials(list) ::
        (c in known <==> c in core) && (c in core ==> known[c] == core[c].active)
      modifies this`core, this`answers
      ensures old(answers) >= 2 * |list| ==> ok && answers >= old(answers) - 2 * |list|
      ensures ok ==> core == ApplyAll(old(core), list, settings) && kept == kept0 + (Credentials(list) - old(core).Keys)
      ensures !ok ==> Stopped(core, old(core), list, settings)
    {
      hide Credentials, Apply, Stopped, StoppedAt;
      var existing := known;
      ok, kept := true, kept0;
      NoneWanted();
      for n := 0 to |list|
        invariant ok && core == ApplyAll(old(core), list[..n], settings)
        invariant core.Keys == old(core).Keys + Credentials(list[..n])
        invariant forall c | c in Credentials(list) ::
          (c in existing <==> c in core) && (c in core ==> existing[c] == core[c].active)
        invariant kept == kept0 + (Credentials(list[..n]) - old(core).Keys)
        invariant old(answers) >= 2 * |list| ==> answers >= old(answers) - 2 * n
      {
        ghost var before := core;
        var w := list[n];
        Unfold(old(core), list, settings, n);
        ListedHere(list, n);
        ApplyEffect(core, w, settings);
        var found := w.credential in existing;
        ok := Converge(w, settings, found, if found then existing[w.credential] else false);
        if !ok {
          StoppedHere(core, before, old(core), list, settings, n);
          return;
        }
        existing := existing[w.credential := w.active];
        if !found {
          kept := kept + {w.credential};
        }
      }
      assert list[..|list|] == list;
    }

    /** A failed entry leaves the work at it or just past it. */
    lemma StoppedHere(core: Core, before: Core, base: Core, list: seq<Wanted>, settings: Settings, n: nat)
      requires n < |list| && before == ApplyAll(base, list[..n], settings)
      requires
        || core == before || core == Apply(before, list[n], settings)
        || (list[n].credential !in before && core
          == before[list[n].credential := Created(list[n], settings).(active := true)])
      ensures Stopped(core, base, list, settings)
    {
      if core == Apply(before, list[n], settings) {
        Unfold(base, list, settings, n);
        ShowStopped(core, base, list, settings, n + 1);
      } else {
        ShowStopped(core, base, list, settings, n);
      }
    }

    /** SyncClients: one pass over the core. The last request is the write of the ledger
        file. */
    method Sync(clients: seq<Client>, settings: Settings) returns (ok: bool)
      requires Trimmed(core)
      modifies this
      ensures cookie ==> core == old(core) && ledger == old(ledger)
      ensures old(answers) >= 3 + 2 * |WantedList(clients, settings)| ==> ok
      ensures ok && !cookie ==>
        var list, listed := WantedList(clients, settings), Listed(old(ledger), settings);
        && core == SyncedCore(old(core), listed, list, settings)
        && Members(ledger) == SyncedLedger(old(core), listed, list)
      ensures ok && !cookie ==>
        var listed, panel := Listed(old(ledger), settings), Panel(clients, settings.mainPass);
        && core.Keys == (old(core).Keys - (listed - panel)) + panel
        && Members(ledger) == listed * panel + (panel - old(core).Keys)
        && Flagged(core, clients, settings) && Recorded(old(core), core, clients, settings)
      ensures !ok ==> ledger == old(ledger)
      ensures !ok ==>
        var list := WantedList(clients, settings);
        core == old(core)
          || Stopped(core, old(core) - (Listed(old(ledger), settings) - Credentials(list)), list, settings)
    {
      hide Listed, Members, Credentials, WantedList, Stopped, StoppedAt, ApplyAll, Panel, Flagged, Recorded;
      ok := Request();
      if !ok || cookie {
        return;
      }
      var existing := Existing();
      var list := BuildWanted(clients, settings);
      var wanted := Credentials(list);
      var kept, removals := SplitLedger(settings, wanted);
      ghost var base := core - (Listed(ledger, settings) - wanted);
      if removals != [] {
        ok := Delete(removals);
        if !ok {
          NothingApplied(base, list, settings);
          return;
        }
      } else {
        NothingListed(settings);
        assert base == core;
      }
      assert core == base;
      var kept';
      ok, kept' := ConvergeAll(list, settings, existing, kept);
      if !ok {
        return;
      }
      ghost var done := core;
      ok := Request();
      if !ok {
        AllApplied(core, base, list, settings);
        return;
      }
      ledger := SetKeys(kept');
      assert wanted - base.Keys == wanted - old(core).Keys;
      PanelIs(clients, settings);
      SyncedClients(old(core), Listed(old(ledger), settings), clients, settings);
    }

    lemma NothingApplied(base: Core, list: seq<Wanted>, settings: Settings)
      ensures Stopped(base, base, list, settings)
    {
      assert list[..0] == [];
      ShowStopped(base, base, list, settings, 0);
    }

    lemma AllApplied(core: Core, base: Core, list: seq<Wanted>, settings: Settings)
      requires core == ApplyAll(base, list, settings)
      ensures Stopped(core, base, list, settings)
    {
      assert list[..|list|] == list;
      ShowStopped(core, base, list, settings, |list|);
    }
  }

  // ---- What a call means for the core ----------------------------------------

  /** The flag the last entry for the credential carries. */
  function LastFlag(list: seq<Wanted>, c: string): bool
    requires c in Credentials(list)
  {
    if list[|list| - 1].credential == c then list[|list| - 1].active
    else
      assert list == list[..|list| - 1] + [list[|list| - 1]];
      LastFlag(list[..|list| - 1], c)
  }

  predicate SameButFlag(a: Record, b: Record) { a.(active := b.active) == b }

  /** The wanted entries and nothing else end up in the core, each with its last flag; what
      was there keeps its name, days and hash. */
  lemma {:induction false} ApplyAllEffect(core: Core, list: seq<Wanted>, settings: Settings)
    ensures ApplyAll(core, list, settings).Keys == core.Keys + Credentials(list)
    ensures forall c | c in core && c !in Credentials(list) :: ApplyAll(core, list, settings)[c] == core[c]
    ensures forall c | c in core :: SameButFlag(core[c], ApplyAll(core, list, settings)[c])
  {
    NoneWanted();
    hide Credentials;
    if list != [] {
      var init, w := list[..|list| - 1], list[|list| - 1];
      ApplyAllEffect(core, init, settings);
      Unfold(core, list, settings, |list| - 1);
      assert list[..|list|] == list;
      ApplyEffect(ApplyAll(core, init, settings), w, settings);
    }
  }

  lemma NoneWanted()
    ensures Credentials([]) == {}
  {
  }

  lemma {:induction false} ApplyAllFlags(core: Core, list: seq<Wanted>, settings: Settings, c: string)
    requires c in Credentials(list)
    ensures c in ApplyAll(core, list, settings) && ApplyAll(core, list, settings)[c].active == LastFlag(list, c)
  {
    var init, w := list[..|list| - 1], list[|list| - 1];
    Unfold(core, list, settings, |list| - 1);
    assert list[..|list|] == list;
    ApplyEffect(ApplyAll(core, init, settings), w, settings);
    if w.credential != c {
      ApplyAllFlags(core, init, settings, c);
    }
  }

  /** A call that fails midway has touched nothing outside its ledger and its wanted list. */
  lemma FailureContained(before: Core, after: Core, listed: set<string>, list: seq<Wanted>, settings: Settings,
                         c: string)
    requires Stopped(after, before - (listed - Credentials(list)), list, settings)
    requires c !in listed && c !in Credentials(list)
    ensures c in after <==> c in before
    ensures c in after ==> after[c] == before[c]
  {
    var base := before - (listed - Credentials(list));
    var n :| 0 <= n <= |list| && StoppedAt(after, base, list, settings, n);
    ApplyAllEffect(base, list[..n], settings);
    assert c !in Credentials(list[..n]);
    if n < |list| {
      ListedHere(list, n);
    }
  }

  // ---- The clients themselves ------------------------------------------------

  /** The credentials the panel's clients have: their trimmed passwords, but for blank ones and
      the main one. */
  /** The panel's credentials: the trimmed passwords that are neither blank nor the main one. */
  function Panel(clients: seq<Client>, mainPass: string): (s: set<string>) {
    set client | client in clients && Trim(client.password) != "" && Trim(client.password) != Trim(mainPass) ::
      Trim(client.password)
  }

  /** The client may be online now. */
  predicate ActiveNow(client: Client, now: int) { client.enable && (client.expiry <= 0 || now < client.expiry) }

  /** No later client has this one's credential; no earlier one. */
  predicate IsLast(clients: seq<Client>, i: nat)
    requires i < |clients|
  {
    forall j | i < j < |clients| :: Trim(clients[j].password) != Trim(clients[i].password)
  }

  predicate IsFirst(clients: seq<Client>, i: nat)
    requires i < |clients|
  {
    forall j | 0 <= j < i :: Trim(clients[j].password) != Trim(clients[i].password)
  }

  /** Every credential of the panel is in the core, active if and only if its last client may be
      online now. */
  ghost predicate Flagged(core: Core, clients: seq<Client>, settings: Settings) {
    && Panel(clients, settings.mainPass) <= core.Keys
    && forall i | 0 <= i < |clients| && IsLast(clients, i)
      && Trim(clients[i].password) in Panel(clients, settings.mainPass) ::
         core[Trim(clients[i].password)].active == ActiveNow(clients[i], settings.now)
  }

  /** A credential that was not there carries its first client's email, the hash of that email
      and the days that client has left. */
  ghost predicate Recorded(before: Core, core: Core, clients: seq<Client>, settings: Settings) {
    && Panel(clients, settings.mainPass) <= core.Keys
    && forall i | 0 <= i < |clients| && IsFirst(clients, i)
      && Trim(clients[i].password) in Panel(clients, settings.mainPass)
         && Trim(clients[i].password) !in before ::
         var client, record := clients[i], core[Trim(clients[i].password)];
         && record.name == client.email && record.hash == settings.hashes(client.email)
         && record.days == Days(client.expiry, settings.now)
  }

  lemma {:induction false} PanelIs(clients: seq<Client>, settings: Settings)
    ensures Credentials(WantedList(clients, settings)) == Panel(clients, settings.mainPass)
  {
    if clients == [] {
      NoneWanted();
    } else {
      var init, last := clients[..|clients| - 1], clients[|clients| - 1];
      PanelIs(init, settings);
      assert clients == init + [last];
      PanelSnoc(init, last, settings.mainPass);
      WantedSnoc(WantedList(init, settings), WantedOf(last, settings));
      hide Trim;
    }
  }

  lemma PanelSnoc(init: seq<Client>, last: Client, mainPass: string)
    ensures var c := Trim(last.password);
      Panel(init + [last], mainPass) == Panel(init, mainPass) + (if c != "" && c != Trim(mainPass) then {c} else {})
  {
    hide Trim;
  }

  lemma WantedSnoc(list: seq<Wanted>, w: Option<Wanted>)
    ensures Credentials(if w.Some? then list + [w.value] else list)
      == Credentials(list) + (if w.Some? then {w.value.credential} else {})
  {
  }

  /** What the last client contributes to the list. */
  lemma LastWanted(clients: seq<Client>, settings: Settings)
    requires clients != []
    ensures var init, last := clients[..|clients| - 1], clients[|clients| - 1];
      var c := Trim(last.password);
      WantedList(clients, settings)
      == if c == "" || c == Trim(settings.mainPass) then WantedList(init, settings)
         else WantedList(init, settings) + [Wanted(c, last.email, last.expiry, ActiveNow(last, settings.now))]
  {
    hide Trim;
  }

  lemma {:induction false} FlagIs(clients: seq<Client>, settings: Settings, i: nat)
    requires i < |clients| && IsLast(clients, i)
      && Trim(clients[i].password) in Credentials(WantedList(clients, settings))
    ensures LastFlag(WantedList(clients, settings), Trim(clients[i].password)) == ActiveNow(clients[i], settings.now)
  {
    hide Trim, Credentials, ActiveNow, WantedList;
    var n, c := |clients| - 1, Trim(clients[i].password);
    var before, list := WantedList(clients[..n], settings), WantedList(clients, settings);
    LastWanted(clients, settings);
    NotMain(clients, settings, c);
    if i < n {
      assert Trim(clients[n].password) != c;
      if list != before {
        Front(before, list[|list| - 1]);
        WantedSnoc(before, Some(list[|list| - 1]));
      }
      FlagIs(clients[..n], settings, i);
    }
  }

  lemma NotMain(clients: seq<Client>, settings: Settings, c: string)
    requires c in Credentials(WantedList(clients, settings))
    ensures c != "" && c != Trim(settings.mainPass)
  {
    hide Trim;
  }

  lemma Front<T>(s: seq<T>, x: T)
    ensures (s + [x])[..|s|] == s && (s + [x])[|s|] == x && |s + [x]| == |s| + 1
  {
  }

  lemma {:induction false} RecordIs(core: Core, clients: seq<Client>, settings: Settings, i: nat)
    requires i < |clients| && IsFirst(clients, i)
    requires Trim(clients[i].password) in Credentials(WantedList(clients, settings))
      && Trim(clients[i].password) !in core
    ensures Trim(clients[i].password) in ApplyAll(core, WantedList(clients, settings), settings)
    ensures var client, record := clients[i],
      ApplyAll(core, WantedList(clients, settings), settings)[Trim(clients[i].password)];
      SameButFlag(Record(client.email, Days(client.expiry, settings.now), settings.hashes(client.email), true), record)
  {
    hide Trim, Credentials, ActiveNow, WantedList, ApplyAll, Days;
    var n, c := |clients| - 1, Trim(clients[i].password);
    var before, list := WantedList(clients[..n], settings), WantedList(clients, settings);
    LastWanted(clients, settings);
    NotMain(clients, settings, c);
    ApplyAllEffect(core, before, settings);
    if list != before {
      var w := list[|list| - 1];
      Front(before, w);
      WantedSnoc(before, Some(w));
      Unfold(core, list, settings, |before|);
      WholeList(list);
      ApplyEffect(ApplyAll(core, before, settings), w, settings);
    }
    if i < n {
      if c !in Credentials(before) {
        assert false by {
          StillWanted(clients[..n], settings, i);
        }
      }
      RecordIs(core, clients[..n], settings, i);
    } else {
      NotBefore(clients, settings, i);
    }
  }

  lemma WholeList<T>(s: seq<T>)
    ensures s[..|s|] == s
  {
  }

  lemma StillWanted(clients: seq<Client>, settings: Settings, i: nat)
    requires i < |clients| && Trim(clients[i].password) != "" && Trim(clients[i].password) != Trim(settings.mainPass)
    ensures Trim(clients[i].password) in Credentials(WantedList(clients, settings))
  {
    hide Trim, Credentials, WantedList;
    PanelIs(clients, settings);
    assert clients[i] in clients;
  }

  lemma NotBefore(clients: seq<Client>, settings: Settings, n: nat)
    requires n < |clients| && IsFirst(clients, n)
    ensures Trim(clients[n].password) !in Credentials(WantedList(clients[..n], settings))
  {
    hide Trim, Credentials, WantedList;
    PanelIs(clients[..n], settings);
  }

  /** What a successful call makes of the core, told by the clients. */
  lemma SyncedClients(core: Core, listed: set<string>, clients: seq<Client>, settings: Settings)
    ensures var after, panel := SyncedCore(core, listed, WantedList(clients, settings), settings),
      Panel(clients, settings.mainPass);
      && after.Keys == (core.Keys - (listed - panel)) + panel
      && Flagged(after, clients, settings) && Recorded(core, after, clients, settings)
  {
    hide Trim, Credentials, ActiveNow, WantedList, ApplyAll, Days, Panel, LastFlag;
    var list, panel := WantedList(clients, settings), Panel(clients, settings.mainPass);
    var base := core - (listed - panel);
    PanelIs(clients, settings);
    ApplyAllEffect(base, list, settings);
    var after := ApplyAll(base, list, settings);
    forall i | 0 <= i < |clients| && IsLast(clients, i) && Trim(clients[i].password) in panel
      ensures after[Trim(clients[i].password)].active == ActiveNow(clients[i], settings.now)
    {
      ApplyAllFlags(base, list, settings, Trim(clients[i].password));
      FlagIs(clients, settings, i);
    }
    forall i | 0 <= i < |clients| && IsFirst(clients, i) && Trim(clients[i].password) in panel
      && Trim(clients[i].password) !in core
      ensures var client, record := clients[i], after[Trim(clients[i].password)];
        && record.name == client.email && record.hash == settings.hashes(client.email)
        && record.days == Days(client.expiry, settings.now)
    {
      RecordIs(base, clients, settings, i);
    }
  }

  // ---- Runs ------------------------------------------------------------------

  /** One call: what it is given, how many requests are answered, and whether the next one is
      carried out all the same. */
  datatype Call = Call(clients: seq<Client>, settings: Settings, answers: nat, lost: bool)

  ghost predicate AfterCall(core: Core, ledger: seq<string>, foreign: Core, list: seq<Wanted>) {
    && core.Keys == foreign.Keys + Credentials(list)
    && Members(ledger) == Credentials(list) - foreign.Keys
    && (forall c | c in Credentials(list) :: core[c].active == LastFlag(list, c))
    && (forall c | c in foreign :: SameButFlag(foreign[c], core[c]))
  }

  lemma {:induction false} WantedTrimmed(clients: seq<Client>, settings: Settings)
    ensures forall w | w in WantedList(clients, settings) :: Trim(w.credential) == w.credential
  {
    if clients != [] {
      WantedTrimmed(clients[..|clients| - 1], settings);
    }
  }

  lemma OwnLedgerListed(ledger: seq<string>, list: seq<Wanted>, foreign: Core, settings: Settings)
    requires Members(ledger) == Credentials(list) - foreign.Keys
    requires forall w | w in list ::
      w.credential != "" && Trim(w.credential) == w.credential && w.credential != Trim(settings.mainPass)
    ensures Listed(ledger, settings) == Members(ledger)
  {
    forall e | e in ledger
      ensures Trim(e) == e && e != "" && e != Trim(settings.mainPass)
    {
      assert e in Members(ledger);
    }
  }

  lemma TrimmedAfter(core: Core, foreign: Core, list: seq<Wanted>)
    requires Trimmed(foreign) && core.Keys == foreign.Keys + Credentials(list)
    requires forall w | w in list :: w.credential != "" && Trim(w.credential) == w.credential
    ensures Trimmed(core)
  {
  }

  /** One successful call takes the set of one wanted list to the next. */
  lemma CallStep(core: Core, ledger: seq<string>, foreign: Core, last: seq<Wanted>, list: seq<Wanted>,
                 settings: Settings, after: Core, ledgerAfter: seq<string>)
    requires core.Keys == foreign.Keys + Credentials(last) && Members(ledger) == Credentials(last) - foreign.Keys
    requires forall c | c in foreign :: SameButFlag(foreign[c], core[c])
    requires after == SyncedCore(core, Members(ledger), list, settings)
    requires Members(ledgerAfter) == SyncedLedger(core, Members(ledger), list)
    ensures AfterCall(after, ledgerAfter, foreign, list)
    ensures forall c | c in foreign && c !in Credentials(list) :: after[c] == core[c]
  {
    hide Credentials, Members, LastFlag;
    var base := core - (Members(ledger) - Credentials(list));
    ApplyAllEffect(base, list, settings);
    forall c | c in Credentials(list)
      ensures after[c].active == LastFlag(list, c)
    {
      ApplyAllFlags(base, list, settings, c);
    }
  }

  /** After a run, told by the clients of its last call. */
  ghost predicate AfterClients(core: Core, ledger: seq<string>, foreign: Core, clients: seq<Client>,
                               settings: Settings) {
    var panel := Panel(clients, settings.mainPass);
    && core.Keys == foreign.Keys + panel && Members(ledger) == panel - foreign.Keys
    && Flagged(core, clients, settings) && forall c | c in foreign :: SameButFlag(foreign[c], core[c])
  }

  lemma ClientsAfter(core: Core, ledger: seq<string>, foreign: Core, clients: seq<Client>, settings: Settings)
    requires AfterCall(core, ledger, foreign, WantedList(clients, settings))
    ensures AfterClients(core, ledger, foreign, clients, settings)
  {
    hide Credentials, Members, WantedList, Panel, LastFlag, Trim, ActiveNow;
    PanelIs(clients, settings);
    forall i | 0 <= i < |clients| && IsLast(clients, i)
      && Trim(clients[i].password) in Panel(clients, settings.mainPass)
      ensures core[Trim(clients[i].password)].active == ActiveNow(clients[i], settings.now)
    {
      FlagIs(clients, settings, i);
    }
  }

  /** An entry none of the calls' clients has is not wanted by any of them. */
  lemma NoneAsks(calls: seq<Call>, c: string)
    requires forall call | call in calls :: c !in Panel(call.clients, call.settings.mainPass)
    ensures forall call | call in calls :: c !in Credentials(WantedList(call.clients, call.settings))
  {
    hide Panel, Credentials, WantedList;
    forall call | call in calls
      ensures c !in Credentials(WantedList(call.clients, call.settings))
    {
      PanelIs(call.clients, call.settings);
    }
  }

  /** Calls one after the other against a core nobody else edits, from an empty ledger. When
      all succeed, the core holds its own credentials plus those of the last call's clients, each
      active if and only if its last client may be online, and the ledger is theirs minus
      foreign. */
  method SyncRun(foreign: Core, calls: seq<Call>, mainPass: string) returns (ok: bool, core: Core, ledger: seq<string>)
    requires Trimmed(foreign) && forall call | call in calls :: call.settings.mainPass == mainPass
    ensures ok && calls != [] ==>
      AfterClients(core, ledger, foreign, calls[|calls| - 1].clients, calls[|calls| - 1].settings)
    ensures ok ==>
      forall c | c in foreign && (forall call | call in calls :: c !in Panel(call.clients, call.settings.mainPass)) ::
        c in core && core[c] == foreign[c]
  {
    hide Credentials, Members, Listed, ApplyAll, SyncedCore, SyncedLedger, WantedList, Panel, AfterClients, Flagged;
    var client := new CSQTTClient(foreign, 0, [], false);
    ghost var last: seq<Wanted> := [];
    NoneWanted();
    MembersNone<string>();
    for i := 0 to |calls|
      invariant fresh(client) && !client.cookie
      invariant i > 0 ==> last == WantedList(calls[i - 1].clients, calls[i - 1].settings)
      invariant i > 0 ==> AfterCall(client.core, client.ledger, foreign, last)
      invariant client.core.Keys == foreign.Keys + Credentials(last)
        && Members(client.ledger) == Credentials(last) - foreign.Keys
      invariant forall c | c in foreign :: SameButFlag(foreign[c], client.core[c])
      invariant forall w | w in last ::
        w.credential != "" && Trim(w.credential) == w.credential && w.credential != Trim(mainPass)
      invariant forall c | c in foreign
        && (forall call | call in calls :: c !in Credentials(WantedList(call.clients, call.settings))) ::
        client.core[c] == foreign[c]
    {
      var call := calls[i];
      TrimmedAfter(client.core, foreign, last);
      OwnLedgerListed(client.ledger, last, foreign, call.settings);
      ghost var before, ledgerBefore := client.core, client.ledger;
      client.answers, client.lost := call.answers, call.lost;
      ok := client.Sync(call.clients, call.settings);
      if !ok {
        return false, client.core, client.ledger;
      }
      ghost var list := WantedList(call.clients, call.settings);
      WantedTrimmed(call.clients, call.settings);
      CallStep(before, ledgerBefore, foreign, last, list, call.settings, client.core, client.ledger);
      last := list;
    }
    if calls != [] {
      ClientsAfter(client.core, client.ledger, foreign, calls[|calls| - 1].clients, calls[|calls| - 1].settings);
    }
    forall c | c in foreign && (forall call | call in calls :: c !in Panel(call.clients, call.settings.mainPass))
      ensures c in client.core && client.core[c] == foreign[c]
    {
      NoneAsks(calls, c);
    }
    return true, client.core, client.ledger;
  }

  /** Wherever a failed call has stopped, everything it started from is still there, at most
      with another flag, and nothing else was added than wanted credentials. */
  lemma StoppedKeeps(after: Core, base: Core, list: seq<Wanted>, settings: Settings)
    requires Stopped(after, base, list, settings)
    ensures base.Keys <= after.Keys <= base.Keys + Credentials(list)
    ensures forall c | c in base :: SameButFlag(base[c], after[c]) && (c !in Credentials(list) ==> after[c] == base[c])
  {
    var n :| 0 <= n <= |list| && StoppedAt(after, base, list, settings, n);
    ApplyAllEffect(base, list[..n], settings);
    assert forall c | c in Credentials(list[..n]) :: c in Credentials(list);
    if n < |list| {
      ListedHere(list, n);
    }
  }

  /** Every foreign entry is there, at most with another flag, and none is in the ledger. */
  ghost predicate ForeignSafe(foreign: Core, core: Core, ledger: seq<string>) {
    && foreign.Keys <= core.Keys
    && (forall c | c in foreign :: SameButFlag(foreign[c], core[c]))
    && Members(ledger) !! foreign.Keys
    && (forall c | c in Members(ledger) :: Trim(c) == c)
  }

  lemma ListedOwn(ledger: seq<string>, settings: Settings)
    requires forall c | c in Members(ledger) :: Trim(c) == c
    ensures Listed(ledger, settings) <= Members(ledger)
  {
    forall c | c in Listed(ledger, settings)
      ensures c in Members(ledger)
    {
      var e :| e in ledger && Trim(e) == c;
      assert e in Members(ledger);
    }
  }

  lemma LedgerSafe(foreign: Core, before: Core, ledger: seq<string>, listed: set<string>, list: seq<Wanted>,
                   ledgerAfter: seq<string>)
    requires foreign.Keys <= before.Keys && Members(ledger) !! foreign.Keys && listed <= Members(ledger)
    requires (forall c | c in Members(ledger) :: Trim(c) == c) && forall w | w in list ::
      Trim(w.credential) == w.credential
    requires Members(ledgerAfter) == SyncedLedger(before, listed, list)
    ensures Members(ledgerAfter) !! foreign.Keys && forall c | c in Members(ledgerAfter) :: Trim(c) == c
  {
    hide Trim;
    assert forall c | c in Credentials(list) :: Trim(c) == c;
    hide Members, Credentials;
    forall c | c in Members(ledgerAfter)
      ensures c !in foreign.Keys && Trim(c) == c
    {
      assert c in listed || c !in before.Keys;
    }
  }

  lemma ForeignSuccess(foreign: Core, before: Core, ledger: seq<string>, list: seq<Wanted>, settings: Settings,
                       after: Core, ledgerAfter: seq<string>)
    requires ForeignSafe(foreign, before, ledger) && forall w | w in list :: Trim(w.credential) == w.credential
    requires after == SyncedCore(before, Listed(ledger, settings), list, settings)
    requires Members(ledgerAfter) == SyncedLedger(before, Listed(ledger, settings), list)
    ensures ForeignSafe(foreign, after, ledgerAfter)
    ensures after.Keys <= before.Keys + Credentials(list)
    ensures forall c | c in foreign && c !in Credentials(list) :: after[c] == before[c]
  {
    ListedOwn(ledger, settings);
    hide Listed, Members, Trim;
    LedgerSafe(foreign, before, ledger, Listed(ledger, settings), list, ledgerAfter);
    hide Credentials, ApplyAll, SyncedLedger;
    ApplyAllEffect(before - (Listed(ledger, settings) - Credentials(list)), list, settings);
  }

  lemma ForeignFailure(foreign: Core, before: Core, ledger: seq<string>, list: seq<Wanted>, settings: Settings,
                       after: Core)
    requires ForeignSafe(foreign, before, ledger)
    requires after == before || Stopped(after, before - (Listed(ledger, settings) - Credentials(list)), list, settings)
    ensures ForeignSafe(foreign, after, ledger)
    ensures after.Keys <= before.Keys + Credentials(list)
    ensures forall c | c in foreign && c !in Credentials(list) :: after[c] == before[c]
  {
    ListedOwn(ledger, settings);
    hide Listed, Members, Credentials, Stopped;
    if after != before {
      StoppedKeeps(after, before - (Listed(ledger, settings) - Credentials(list)), list, settings);
    }
  }

  lemma TrimmedGrows(before: Core, after: Core, list: seq<Wanted>)
    requires Trimmed(before) && after.Keys <= before.Keys + Credentials(list)
    requires forall w | w in list :: w.credential != "" && Trim(w.credential) == w.credential
    ensures Trimmed(after)
  {
    hide Trim;
  }

  // ---- Entries the ledger lost sight of --------------------------------------

  /** What stands after a call, and whether it succeeded. */
  datatype Snapshot = Snapshot(core: Core, ledger: seq<string>, ok: bool)

  ghost predicate Outcome(before: Snapshot, after: Snapshot, call: Call) {
    var list, listed := WantedList(call.clients, call.settings), Listed(before.ledger, call.settings);
    if after.ok then
      && after.core == SyncedCore(before.core, listed, list, call.settings)
      && Members(after.ledger) == SyncedLedger(before.core, listed, list)
    else
      && after.ledger == before.ledger
      && (after.core == before.core
        || Stopped(after.core, before.core - (listed - Credentials(list)), list, call.settings))
  }

  /** In the core and not in the ledger: no later call deletes it. */
  predicate Orphan(at: Snapshot, c: string) { c in at.core && c !in Members(at.ledger) }

  /** A failed call created it, or a successful one dropped it from the ledger because it has
      become the main credential. */
  predicate Orphans(before: Snapshot, after: Snapshot, call: Call, c: string) {
    if after.ok then c in before.core && c in Members(before.ledger) && c == Trim(call.settings.mainPass)
    else c !in before.core && c !in Members(before.ledger) && c in after.core
  }

  lemma ListedIs(ledger: seq<string>, settings: Settings, c: string)
    requires (forall e | e in Members(ledger) :: Trim(e) == e) && c != "" && Trim(c) == c
    ensures c in Listed(ledger, settings) <==> c in Members(ledger) && c != Trim(settings.mainPass)
  {
    ListedOwn(ledger, settings);
  }

  lemma NotListed(list: seq<Wanted>, settings: Settings)
    requires forall w | w in list :: w.credential != Trim(settings.mainPass)
    ensures Trim(settings.mainPass) !in Credentials(list)
  {
  }

  /** Orphans stay, and no others come up. */
  lemma OrphanStep(before: Snapshot, after: Snapshot, call: Call, c: string)
    requires Trimmed(before.core) && (forall e | e in Members(before.ledger) :: Trim(e) == e)
    requires Outcome(before, after, call)
    ensures Orphan(after, c) <==> Orphan(before, c) || Orphans(before, after, call, c)
  {
    var list, listed := WantedList(call.clients, call.settings), Listed(before.ledger, call.settings);
    var base := before.core - (listed - Credentials(list));
    WantedTrimmed(call.clients, call.settings);
    NotListed(list, call.settings);
    ListedOwn(before.ledger, call.settings);
    if c in before.core || c in Credentials(list) {
      assert c != "" && Trim(c) == c;
      ListedIs(before.ledger, call.settings, c);
    }
    hide Listed, Members, Credentials, WantedList, Stopped, Trim;
    ApplyAllEffect(base, list, call.settings);
    if !after.ok && after.core != before.core {
      StoppedKeeps(after.core, base, list, call.settings);
    }
  }

  /** Any run of calls, each of which may fail at any request, carried out or not, under any main
      passwords: no foreign entry is ever removed or enters the ledger, and one that no list
      wanted is as it was. Besides the foreign entries the core holds outside the ledger exactly
      those of which some call of the run made orphans. */
  method AnyRun(foreign: Core, calls: seq<Call>)
    returns (core: Core, ledger: seq<string>, ghost trace: seq<Snapshot>)
    requires Trimmed(foreign)
    ensures ForeignSafe(foreign, core, ledger)
    ensures forall c | c in foreign
      && (forall call | call in calls :: c !in Panel(call.clients, call.settings.mainPass)) ::
      core[c] == foreign[c]
    ensures |trace| == |calls| + 1 && trace[0] == Snapshot(foreign, [], true)
    ensures trace[|calls|].core == core && trace[|calls|].ledger == ledger
    ensures forall i | 0 <= i < |calls| :: Outcome(trace[i], trace[i + 1], calls[i])
    ensures forall c :: c in core && c !in Members(ledger) <==>
      c in foreign || exists i | 0 <= i < |calls| :: Orphans(trace[i], trace[i + 1], calls[i], c)
  {
    hide Credentials, Listed, ApplyAll, SyncedCore, SyncedLedger, WantedList, ForeignSafe, Stopped, Trimmed, Members,
         Panel,
         Orphans, Flagged, Recorded;
    var client := new CSQTTClient(foreign, 0, [], false);
    NothingYet(foreign);
    trace := [Snapshot(foreign, [], true)];
    forall c
      ensures Orphan(trace[0], c) <==> c in foreign || OrphanedIn(trace, calls, 0, c)
    {
      NoOrphanYet(trace, calls, c);
    }
    for i := 0 to |calls|
      invariant fresh(client) && !client.cookie && Trimmed(client.core)
      invariant ForeignSafe(foreign, client.core, client.ledger)
      invariant forall c | c in foreign
        && (forall call | call in calls :: c !in Credentials(WantedList(call.clients, call.settings))) ::
        c in client.core && client.core[c] == foreign[c]
      invariant |trace| == i + 1 && trace[0] == Snapshot(foreign, [], true)
      invariant trace[i].core == client.core && trace[i].ledger == client.ledger
      invariant forall j | 0 <= j < i :: Outcome(trace[j], trace[j + 1], calls[j])
      invariant forall c :: Orphan(trace[i], c) <==> c in foreign || OrphanedIn(trace, calls, i, c)
    {
      var call := calls[i];
      ghost var before, ledgerBefore := client.core, client.ledger;
      client.answers, client.lost := call.answers, call.lost;
      var ok := client.Sync(call.clients, call.settings);
      ghost var list := WantedList(call.clients, call.settings);
      WantedTrimmed(call.clients, call.settings);
      LedgerTrimmed(foreign, before, ledgerBefore);
      ghost var after := Snapshot(client.core, client.ledger, ok);
      ghost var was, next := trace, trace + [after];
      forall c
        ensures Orphan(after, c) <==> c in foreign || OrphanedIn(next, calls, i + 1, c)
      {
        OrphanStep(trace[i], after, call, c);
        OrphanedNext(trace, after, calls, i, c);
      }
      trace := next;
      if ok {
        ForeignSuccess(foreign, before, ledgerBefore, list, call.settings, client.core, client.ledger);
      } else {
        ForeignFailure(foreign, before, ledgerBefore, list, call.settings, client.core);
      }
      TrimmedGrows(before, client.core, list);
      ForeignThere(foreign, client.core, client.ledger);
    }
    core, ledger := client.core, client.ledger;
    forall c | c in foreign && (forall call | call in calls :: c !in Panel(call.clients, call.settings.mainPass))
      ensures core[c] == foreign[c]
    {
      NoneAsks(calls, c);
    }
    assert forall c :: Orphan(trace[|calls|], c) <==> c in core && c !in Members(ledger);
  }

  /** One of the first n calls made an orphan of it. */
  ghost predicate OrphanedIn(trace: seq<Snapshot>, calls: seq<Call>, n: nat, c: string)
    requires n <= |calls| && n < |trace|
  {
    exists i | 0 <= i < n :: Orphans(trace[i], trace[i + 1], calls[i], c)
  }

  lemma NoOrphanYet(trace: seq<Snapshot>, calls: seq<Call>, c: string)
    requires |trace| == 1 && trace[0].ledger == []
    ensures Orphan(trace[0], c) <==> c in trace[0].core || OrphanedIn(trace, calls, 0, c)
  {
    MembersNone<string>();
  }

  lemma OrphanedNext(trace: seq<Snapshot>, after: Snapshot, calls: seq<Call>, n: nat, c: string)
    requires n < |calls| && |trace| == n + 1
    ensures OrphanedIn(trace + [after], calls, n + 1, c) <==>
      OrphanedIn(trace, calls, n, c) || Orphans(trace[n], after, calls[n], c)
  {
    hide Orphans;
    var next := trace + [after];
    assert next[n] == trace[n] && next[n + 1] == after;
    assert forall i | 0 <= i <= n :: next[i] == trace[i];
    if OrphanedIn(trace, calls, n, c) {
      var i :| 0 <= i < n && Orphans(trace[i], trace[i + 1], calls[i], c);
      assert Orphans(next[i], next[i + 1], calls[i], c);
    }
    if Orphans(trace[n], after, calls[n], c) {
      assert Orphans(next[n], next[n + 1], calls[n], c);
    }
  }

  lemma LedgerTrimmed(foreign: Core, core: Core, ledger: seq<string>)
    requires ForeignSafe(foreign, core, ledger)
    ensures forall e | e in Members(ledger) :: Trim(e) == e
  {
  }

  lemma NothingYet(foreign: Core)
    ensures ForeignSafe(foreign, foreign, [])
  {
    MembersNone<string>();
    hide Members;
  }

  lemma ForeignThere(foreign: Core, core: Core, ledger: seq<string>)
    requires ForeignSafe(foreign, core, ledger)
    ensures forall c | c in foreign :: c in core
  {
  }
}

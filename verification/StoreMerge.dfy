/** Merging the panel's clients into the qWDTT core's password store, and quoting values for
    YAML (internal/sidecar/prepare.go). */
module StoreMerge {
  import opened Ledger
  import opened Text

  /** One password's entry: its keys with their raw values. */
  type Entry = map<string, string>

  type Store = map<string, Entry>

  /** A client with its two passwords, its hash as hashFor resolves it ("" for none), and how
      its label and expiry print. */
  datatype Client = Client(qwdttPassword: string, password: string, enable: bool, title: string,
                           expires: Option<string>, hash: string)

  /** qwdttCredential. */
  function Credential(c: Client): string {
    if Trim(c.qwdttPassword) != "" then Trim(c.qwdttPassword) else Trim(c.password)
  }

  predicate Counts(c: Client) { Credential(c) != "" && c.enable }

  function SetOrDrop(entry: Entry, key: string, value: Option<string>): Entry {
    if value.Some? then entry[key := value.value] else entry - {key}
  }

  /** The entry the panel writes over the one there is. */
  function Written(entry: Entry, c: Client): Entry {
    SetOrDrop(SetOrDrop(entry["label" := c.title]["is_deactivated" := "false"], "expires_at", c.expires),
              "vk_hash", if c.hash != "" then Some(c.hash) else None)
  }

  /** The credential a client asks for, if it asks for one. */
  function Asks(c: Client): set<string> { if Counts(c) then {Credential(c)} else {} }

  function Wanted(clients: seq<Client>, n: nat): (s: set<string>)
    requires n <= |clients|
  {
    if n == 0 then {} else Wanted(clients, n - 1) + Asks(clients[n - 1])
  }

  /** The store after the first n clients. */
  function Upserted(store: Store, clients: seq<Client>, n: nat): (r: Store)
    requires n <= |clients|
    ensures r.Keys == store.Keys + Wanted(clients, n)
    ensures forall c | c in store && c !in Wanted(clients, n) :: r[c] == store[c]
  {
    if n == 0 then store
    else
      var before, c := Upserted(store, clients, n - 1), clients[n - 1];
      if !Counts(c) then before
      else before[Credential(c) := Written(if Credential(c) in before then before[Credential(c)] else map[], c)]
  }

  predicate PanelKey(key: string) {
    key == "label" || key == "is_deactivated" || key == "expires_at" || key == "vk_hash"
  }

  /** Every key the panel does not write is as it was. */
  ghost predicate KeepsOwnKeys(before: Entry, after: Entry) {
    forall key | !PanelKey(key) :: (key in before <==> key in after) && (key in before ==> before[key] == after[key])
  }

  lemma WrittenKeeps(before: Entry, entry: Entry, c: Client)
    requires KeepsOwnKeys(before, entry)
    ensures KeepsOwnKeys(before, Written(entry, c))
  {
  }

  /** Whatever the clients, an entry the core has keeps every key the panel does not write. */
  lemma {:induction false} OwnKeysKept(store: Store, clients: seq<Client>, n: nat, credential: string)
    requires n <= |clients| && credential in store
    ensures credential in Upserted(store, clients, n)
      && KeepsOwnKeys(store[credential], Upserted(store, clients, n)[credential])
  {
    hide KeepsOwnKeys, Written, Credential;
    if n == 0 {
      KeepsItself(store[credential]);
    } else {
      OwnKeysKept(store, clients, n - 1, credential);
      WrittenKeeps(store[credential], Upserted(store, clients, n - 1)[credential], clients[n - 1]);
    }
  }

  lemma WantedNext(clients: seq<Client>, n: nat, credential: string)
    requires n <= |clients| && credential in Wanted(clients, n)
    ensures n > 0 && (credential in Asks(clients[n - 1]) || (n > 1 && credential in Wanted(clients, n - 1)))
  {
    hide Asks;
  }

  /** The client whose settings a wanted credential ends up with. */
  function LastClient(clients: seq<Client>, n: nat, credential: string): (c: Client)
    requires 0 < n <= |clients|
  {
    if n == 1 || credential in Asks(clients[n - 1]) then clients[n - 1] else LastClient(clients, n - 1, credential)
  }

  function EntryIn(store: Store, credential: string): Entry {
    if credential in store then store[credential] else map[]
  }

  /** The later of two writes of an entry decides all four of the panel's keys. */
  lemma WrittenTwice(entry: Entry, a: Client, b: Client)
    ensures Written(Written(entry, a), b) == Written(entry, b)
  {
  }

  /** A wanted credential's entry is the one there was, as the last enabled client with that
      credential writes it. */
  lemma {:induction false} LastWins(store: Store, clients: seq<Client>, n: nat, credential: string)
    requires n <= |clients| && credential in Wanted(clients, n)
    ensures Asks(LastClient(clients, n, credential)) == {credential}
    ensures Upserted(store, clients, n)[credential]
      == Written(EntryIn(store, credential), LastClient(clients, n, credential))
  {
    hide Written, Credential;
    var c := clients[n - 1];
    if credential in Wanted(clients, n - 1) {
      LastWins(store, clients, n - 1, credential);
      if Counts(c) && Credential(c) == credential {
        WrittenTwice(EntryIn(store, credential), LastClient(clients, n - 1, credential), c);
      }
    }
  }

  /** The client is enabled and the core knows it by that credential: its own password, or the
      shared one when it has none of its own, white space around it apart. */
  predicate Bears(c: Client, credential: string) {
    && c.enable && credential != ""
    && (Trim(c.qwdttPassword) == credential || (Trim(c.qwdttPassword) == "" && Trim(c.password) == credential))
  }

  lemma AsksIs(c: Client, credential: string)
    ensures credential in Asks(c) <==> Bears(c, credential)
  {
    hide Trim;
  }

  /** The wanted credentials are those some client bears. */
  lemma {:induction false} WantedIs(clients: seq<Client>, n: nat, credential: string)
    requires n <= |clients|
    ensures credential in Wanted(clients, n) <==> exists i | 0 <= i < n :: Bears(clients[i], credential)
  {
    hide Asks, Bears;
    if n > 0 {
      WantedIs(clients, n - 1, credential);
      AsksIs(clients[n - 1], credential);
    }
  }

  /** Client i is the last to bear the credential. */
  predicate LastBearer(clients: seq<Client>, i: nat, credential: string)
    requires i < |clients|
  {
    Bears(clients[i], credential) && forall j | i < j < |clients| :: !Bears(clients[j], credential)
  }

  lemma {:induction false} LastBears(clients: seq<Client>, n: nat, i: nat, credential: string)
    requires i < n <= |clients| && Bears(clients[i], credential)
    requires forall j | i < j < n :: !Bears(clients[j], credential)
    ensures credential in Wanted(clients, n) && LastClient(clients, n, credential) == clients[i]
  {
    hide Asks, Bears;
    AsksIs(clients[n - 1], credential);
    WantedIs(clients, n, credential);
    if i < n - 1 {
      LastBears(clients, n - 1, i, credential);
    }
  }

  /** What a merge leaves under a credential, key by key: the label and the expiry of the last
      enabled client that bears it, its hash if it has one, an active flag, and of everything
      else what stood there. */
  lemma EntrySays(store: Store, clients: seq<Client>, i: nat, credential: string)
    requires i < |clients| && LastBearer(clients, i, credential)
    ensures credential in Upserted(store, clients, |clients|)
    ensures var entry, c := Upserted(store, clients, |clients|)[credential], clients[i];
      && "label" in entry && entry["label"] == c.title
      && "is_deactivated" in entry && entry["is_deactivated"] == "false"
      && ("expires_at" in entry <==> c.expires.Some?)
      && ("expires_at" in entry ==> entry["expires_at"] == c.expires.value)
      && ("vk_hash" in entry <==> c.hash != "") && ("vk_hash" in entry ==> entry["vk_hash"] == c.hash)
      && KeepsOwnKeys(if credential in store then store[credential] else map[], entry)
  {
    LastBears(clients, |clients|, i, credential);
    hide Bears, Asks, Upserted, Wanted, LastClient;
    LastWins(store, clients, |clients|, credential);
    KeepsItself(EntryIn(store, credential));
    WrittenKeeps(EntryIn(store, credential), EntryIn(store, credential), clients[i]);
  }

  /** Writing the same clients again changes nothing. */
  lemma WriteAgain(store: Store, clients: seq<Client>)
    ensures var once := Upserted(store, clients, |clients|); Upserted(once, clients, |clients|) == once
  {
    hide Written, Credential, Wanted, Upserted, LastClient;
    var n := |clients|;
    var once := Upserted(store, clients, n);
    var twice := Upserted(once, clients, n);
    forall credential | credential in once
      ensures twice[credential] == once[credential]
    {
      if credential in Wanted(clients, n) {
        LastWins(store, clients, n, credential);
        LastWins(once, clients, n, credential);
        WantedNext(clients, n, credential);
        var last := LastClient(clients, n, credential);
        WrittenTwice(EntryIn(store, credential), last, last);
      }
    }
  }

  lemma KeepsItself(entry: Entry)
    ensures KeepsOwnKeys(entry, entry)
  {
  }

  /** The core's store file as the panel sees it, and the ledger beside it. */
  class QWDTTStore {
    var passwords: Store
    var ledger: seq<string>

    constructor (passwords: Store, ledger: seq<string>)
      ensures this.passwords == passwords && this.ledger == ledger
    {
      this.passwords, this.ledger := passwords, ledger;
    }

    /** writeQWDTTStore: the store is what a reader of the panel's clients would expect, less
        the ledger's credentials that are not wanted any more. The two files are written one
        after the other, and the process may die between them. */
    method Write(clients: seq<Client>, dies: bool)
      modifies this
      ensures var wanted := WantedBy(clients);
        && passwords == Upserted(old(passwords), clients, |clients|) - (Members(old(ledger)) - wanted)
        && Members(ledger) == if dies then Members(old(ledger)) else wanted
    {
      assert WantedBy(clients) == Wanted(clients, |clients|);
      hide *;
      var store, wanted := Upsert(passwords, clients);
      store := Removed(store, ledger, wanted);
      passwords := store;
      if dies {
        return;
      }
      ledger := SetKeys(wanted);
    }

    static method Upsert(passwords: Store, clients: seq<Client>) returns (store: Store, wanted: set<string>)
      ensures store == Upserted(passwords, clients, |clients|) && wanted == Wanted(clients, |clients|)
    {
      hide Credential, Members, SetOrDrop, KeepsOwnKeys;
      store, wanted := passwords, {};
      for i := 0 to |clients|
        invariant store == Upserted(passwords, clients, i) && wanted == Wanted(clients, i)
      {
        var c := clients[i];
        if Credential(c) == "" || !c.enable {
          continue;
        }
        wanted := wanted + {Credential(c)};
        var entry := if Credential(c) in store then store[Credential(c)] else map[];
        entry := entry["label" := c.title]["is_deactivated" := "false"];
        entry := SetOrDrop(entry, "expires_at", c.expires);
        entry := SetOrDrop(entry, "vk_hash", if c.hash != "" then Some(c.hash) else None);
        store := store[Credential(c) := entry];
      }
    }

    static method Removed(before: Store, ledger: seq<string>, wanted: set<string>) returns (store: Store)
      ensures store == before - (Members(ledger) - wanted)
    {
      hide *;
      store := before;
      MembersNone<string>();
      for i := 0 to |ledger|
        invariant store == before - (Members(ledger[..i]) - wanted)
      {
        MembersNext(ledger, i);
        if ledger[i] in wanted {
          continue;
        }
        store := store - {ledger[i]};
      }
      assert ledger[..|ledger|] == ledger;
    }
  }

  // ---- Runs ------------------------------------------------------------------

  /** One write of a run: its clients, and whether the process dies between the two files. */
  datatype Pass = Pass(clients: seq<Client>, dies: bool)

  function WantedBy(clients: seq<Client>): set<string> { Wanted(clients, |clients|) }

  /** Everything any of the first n writes wanted. */
  function EverWanted(passes: seq<Pass>, n: nat): (s: set<string>)
    requires n <= |passes|
  {
    if n == 0 then {} else EverWanted(passes, n - 1) + WantedBy(passes[n - 1].clients)
  }

  /** What the ledger lists after the first n writes. */
  function LedgerAt(passes: seq<Pass>, n: nat): (s: set<string>)
    requires n <= |passes|
  {
    if n == 0 then {} else if passes[n - 1].dies then LedgerAt(passes, n - 1) else WantedBy(passes[n - 1].clients)
  }

  /** A write that wants the credential is completed. */
  predicate Records(passes: seq<Pass>, i: nat, credential: string)
    requires i < |passes|
  {
    !passes[i].dies && credential in WantedBy(passes[i].clients)
  }

  /** A completed write wants the credential and a later one, completed or not, does not. */
  ghost predicate Dropped(passes: seq<Pass>, n: nat, credential: string)
    requires n <= |passes|
  {
    exists i, j | 0 <= i < j < n :: Records(passes, i, credential) && credential !in WantedBy(passes[j].clients)
  }

  lemma {:induction false} LedgerFrom(passes: seq<Pass>, n: nat, credential: string)
    requires n <= |passes| && credential in LedgerAt(passes, n)
    ensures exists i | 0 <= i < n :: Records(passes, i, credential)
  {
    hide WantedBy;
    if passes[n - 1].dies {
      LedgerFrom(passes, n - 1, credential);
    } else {
      assert Records(passes, n - 1, credential);
    }
  }

  lemma {:induction false} LedgerHolds(passes: seq<Pass>, i: nat, n: nat, credential: string)
    requires i < n <= |passes| && Records(passes, i, credential) && !Dropped(passes, n, credential)
    ensures credential in LedgerAt(passes, n)
  {
    hide WantedBy;
    if i < n - 1 {
      LedgerHolds(passes, i, n - 1, credential);
    }
  }

  /** A write drops exactly what the ledger lists and it does not want. */
  lemma DroppedNext(passes: seq<Pass>, n: nat, credential: string)
    requires n < |passes|
    ensures Dropped(passes, n + 1, credential) <==>
      Dropped(passes, n, credential) || credential in LedgerAt(passes, n) - WantedBy(passes[n].clients)
  {
    hide WantedBy, Records;
    if i, j :| 0 <= i < j < n + 1 && Records(passes, i, credential) && credential !in WantedBy(passes[j].clients) {
      if !Dropped(passes, n, credential) {
        LedgerHolds(passes, i, n, credential);
      }
    }
    if credential in LedgerAt(passes, n) - WantedBy(passes[n].clients) {
      LedgerFrom(passes, n, credential);
    }
  }

  /** No write from the first to the last of these completes for the credential. */
  ghost predicate Unrecorded(passes: seq<Pass>, from: nat, n: nat, credential: string)
    requires n <= |passes|
  {
    forall k | from <= k < n :: !Records(passes, k, credential)
  }

  /** Write i puts the credential in the store, not in the ledger, and dies. */
  predicate Strands(passes: seq<Pass>, i: nat, credential: string)
    requires i < |passes|
  {
    passes[i].dies && credential in WantedBy(passes[i].clients) && credential !in LedgerAt(passes, i)
  }

  /** The store has the credential, as the core's own or from a write that died, and no write
      has taken it into the ledger since. */
  ghost predicate Leftover(own: Store, passes: seq<Pass>, n: nat, credential: string)
    requires n <= |passes|
  {
    || (credential in own && Unrecorded(passes, 0, n, credential))
    || exists i | 0 <= i < n :: Strands(passes, i, credential) && Unrecorded(passes, i + 1, n, credential)
  }

  lemma UnrecordedNext(passes: seq<Pass>, from: nat, n: nat, credential: string)
    requires from <= n < |passes|
    ensures Unrecorded(passes, from, n + 1, credential) <==>
      Unrecorded(passes, from, n, credential) && !Records(passes, n, credential)
  {
    hide Records;
  }

  lemma LeftoverNext(own: Store, passes: seq<Pass>, n: nat, credential: string)
    requires n < |passes|
    ensures Leftover(own, passes, n + 1, credential) <==>
      Strands(passes, n, credential) || (Leftover(own, passes, n, credential) && !Records(passes, n, credential))
  {
    hide Records, Strands, Unrecorded;
    UnrecordedNext(passes, 0, n, credential);
    forall i | 0 <= i < n && Strands(passes, i, credential)
      ensures Unrecorded(passes, i + 1, n + 1, credential) <==>
        Unrecorded(passes, i + 1, n, credential) && !Records(passes, n, credential)
    {
      UnrecordedNext(passes, i + 1, n, credential);
    }
    assert Unrecorded(passes, n + 1, n + 1, credential) by {
      NothingAfter(passes, n + 1, credential);
    }
  }

  lemma NothingAfter(passes: seq<Pass>, n: nat, credential: string)
    requires n <= |passes|
    ensures Unrecorded(passes, n, n, credential)
  {
  }

  /** One write leaves what is wanted, what is left over, and nothing else. */
  lemma KeysStep(own: Store, before: Store, after: Store, passes: seq<Pass>, n: nat, credential: string)
    requires n < |passes|
    requires credential in before && credential !in LedgerAt(passes, n) <==> Leftover(own, passes, n, credential)
    requires var pass := passes[n];
      after == Upserted(before, pass.clients, |pass.clients|) - (LedgerAt(passes, n) - WantedBy(pass.clients))
    ensures credential in after && credential !in LedgerAt(passes, n + 1) <==> Leftover(own, passes, n + 1, credential)
    ensures credential in after <==>
      credential in WantedBy(passes[n].clients) || Leftover(own, passes, n + 1, credential)
  {
    LeftoverNext(own, passes, n, credential);
    var pass := passes[n];
    assert Upserted(before, pass.clients, |pass.clients|).Keys == before.Keys + WantedBy(pass.clients);
    hide Upserted, WantedBy, Leftover;
  }

  ghost predicate OnlyPanelKeys(entry: Entry) { forall key | key in entry :: PanelKey(key) }

  /** What has become of a credential: an own entry that was not dropped still has all of the
      core's keys; any other entry has none. */
  ghost predicate Fate(own: Store, store: Store, credential: string, dropped: bool) {
    if credential in own && !dropped then credential in store && KeepsOwnKeys(own[credential], store[credential])
    else credential in store ==> OnlyPanelKeys(store[credential])
  }

  lemma PanelWrites(entry: Entry, c: Client)
    requires OnlyPanelKeys(entry)
    ensures OnlyPanelKeys(Written(entry, c))
  {
  }

  lemma KeepsTransitive(a: Entry, b: Entry, c: Entry)
    requires KeepsOwnKeys(a, b) && KeepsOwnKeys(b, c)
    ensures KeepsOwnKeys(a, c)
  {
  }

  lemma KeepsNone(a: Entry, b: Entry)
    requires OnlyPanelKeys(a) && KeepsOwnKeys(a, b)
    ensures OnlyPanelKeys(b)
  {
  }

  /** What one merge makes of the entry of a credential. */
  lemma MergeEntry(before: Store, clients: seq<Client>, credential: string)
    ensures var after := Upserted(before, clients, |clients|);
      && (credential in before ==> credential in after && KeepsOwnKeys(before[credential], after[credential]))
      && (credential !in before && credential in after ==>
        credential in WantedBy(clients) && OnlyPanelKeys(after[credential]))
  {
    hide KeepsOwnKeys, Written, Wanted;
    var n := |clients|;
    if credential in before {
      OwnKeysKept(before, clients, n, credential);
    } else if credential in Upserted(before, clients, n) {
      LastWins(before, clients, n, credential);
      PanelWrites(map[], LastClient(clients, n, credential));
    }
  }

  lemma FateStep(own: Store, before: Store, after: Store, passes: seq<Pass>, n: nat, credential: string)
    requires n < |passes| && Fate(own, before, credential, Dropped(passes, n, credential))
    requires var clients := passes[n].clients;
      after == Upserted(before, clients, |clients|) - (LedgerAt(passes, n) - WantedBy(clients))
    ensures Fate(own, after, credential, Dropped(passes, n + 1, credential))
  {
    var clients := passes[n].clients;
    DroppedNext(passes, n, credential);
    MergeEntry(before, clients, credential);
    var merged := Upserted(before, clients, |clients|);
    hide Dropped, KeepsOwnKeys, OnlyPanelKeys, Upserted, WantedBy, LedgerAt;
    if credential in before {
      if credential in own && !Dropped(passes, n, credential) {
        KeepsTransitive(own[credential], before[credential], merged[credential]);
      } else {
        KeepsNone(before[credential], merged[credential]);
      }
    }
  }

  /** One write leaves what no write wanted as it was. */
  lemma OwnStep(own: Store, before: Store, after: Store, passes: seq<Pass>, n: nat, credential: string)
    requires n < |passes| && credential in own && credential !in EverWanted(passes, n + 1)
    requires credential in before && before[credential] == own[credential]
      && LedgerAt(passes, n) <= EverWanted(passes, n)
    requires var clients := passes[n].clients;
      after == Upserted(before, clients, |clients|) - (LedgerAt(passes, n) - WantedBy(clients))
    ensures credential in after && after[credential] == own[credential]
    ensures LedgerAt(passes, n + 1) <= EverWanted(passes, n + 1)
  {
    hide Wanted, Upserted;
  }

  lemma LedgerEver(passes: seq<Pass>, n: nat)
    requires n < |passes| && LedgerAt(passes, n) <= EverWanted(passes, n)
    ensures LedgerAt(passes, n + 1) <= EverWanted(passes, n + 1)
  {
    hide WantedBy;
  }

  /** Write after write over a core's own store, from an empty ledger, any of which may die
      between the store and the ledger. An own entry that no list wanted is untouched. For the
      rest the ledger does not tell the entries the panel made from those it found: an own entry
      keeps the keys the panel does not write if and only if no completed write that wants its
      credential is followed by one that does not; a later one that wants it again brings back
      an entry without them. What the last write does not want is there if and only if it is
      left over, and stays until a write that wants it completes. */
  method WriteRun(own: Store, passes: seq<Pass>) returns (store: Store, ledger: seq<string>)
    ensures Members(ledger) == LedgerAt(passes, |passes|)
    ensures passes != [] ==> forall c ::
      c in store <==> c in WantedBy(passes[|passes| - 1].clients) || Leftover(own, passes, |passes|, c)
    ensures forall c | c in own && c !in EverWanted(passes, |passes|) :: c in store && store[c] == own[c]
    ensures forall c :: Fate(own, store, c, Dropped(passes, |passes|, c))
    ensures forall c, key | c in own && key in own[c] && !PanelKey(key) ::
      (c in store && key in store[c]) <==> !Dropped(passes, |passes|, c)
  {
    hide Members, Wanted, WantedBy, Upserted, Dropped, Fate, Leftover;
    var core := new QWDTTStore(own, []);
    MembersNone<string>();
    forall c
      ensures Fate(own, own, c, Dropped(passes, 0, c)) && (c in own <==> Leftover(own, passes, 0, c))
    {
      FateFirst(own, passes, c);
    }
    for i := 0 to |passes|
      invariant fresh(core) && Members(core.ledger) == LedgerAt(passes, i)
        && LedgerAt(passes, i) <= EverWanted(passes, i)
      invariant forall c :: c in core.passwords && c !in LedgerAt(passes, i) <==> Leftover(own, passes, i, c)
      invariant i > 0 ==> forall c :: c in core.passwords <==>
        c in WantedBy(passes[i - 1].clients) || Leftover(own, passes, i, c)
      invariant forall c | c in own && c !in EverWanted(passes, i) :: c in core.passwords && core.passwords[c] == own[c]
      invariant forall c :: Fate(own, core.passwords, c, Dropped(passes, i, c))
    {
      ghost var before, next := core.passwords, i + 1;
      core.Write(passes[i].clients, passes[i].dies);
      LedgerEver(passes, i);
      forall c
        ensures Fate(own, core.passwords, c, Dropped(passes, next, c))
        ensures c in core.passwords && c !in LedgerAt(passes, next) <==> Leftover(own, passes, next, c)
        ensures c in core.passwords <==> c in WantedBy(passes[i].clients) || Leftover(own, passes, next, c)
      {
        FateStep(own, before, core.passwords, passes, i, c);
        KeysStep(own, before, core.passwords, passes, i, c);
      }
      forall c | c in own && c !in EverWanted(passes, next)
        ensures c in core.passwords && core.passwords[c] == own[c]
      {
        OwnStep(own, before, core.passwords, passes, i, c);
      }
    }
    store, ledger := core.passwords, core.ledger;
    forall c, key | c in own && key in own[c] && !PanelKey(key)
      ensures (c in store && key in store[c]) <==> !Dropped(passes, |passes|, c)
    {
      FateOfKey(own, store, c, key, Dropped(passes, |passes|, c));
    }
  }

  lemma FateFirst(own: Store, passes: seq<Pass>, c: string)
    ensures Fate(own, own, c, Dropped(passes, 0, c)) && (c in own <==> Leftover(own, passes, 0, c))
  {
    if c in own {
      KeepsItself(own[c]);
    }
  }

  lemma FateOfKey(own: Store, store: Store, c: string, key: string, dropped: bool)
    requires Fate(own, store, c, dropped) && c in own && key in own[c] && !PanelKey(key)
    ensures (c in store && key in store[c]) <==> !dropped
  {
  }

  // ---- Quoting ---------------------------------------------------------------

  function Escape(c: char): string {
    if c == '\\' then "\\\\" else if c == '"' then "\\\"" else if c == NEWLINE then "\\n" else [c]
  }

  function Escaped(value: string): (text: string)
    ensures NEWLINE !in text
  {
    if value == "" then "" else Escape(value[0]) + Escaped(value[1..])
  }

  /** yamlQuoted. */
  function Quoted(value: string): string { "\"" + Escaped(value) + "\"" }

  method YamlQuoted(value: string) returns (text: string)
    ensures text == Quoted(value)
  {
    hide Escaped;
    text := "\"";
    var piece := "";
    ghost var tail := Escaped(value);
    assert value[0..] == value;
    for i := 0 to |value|
      invariant tail == Escaped(value[i..])
      invariant text + tail == "\"" + Escaped(value)
    {
      EscapedStep(value, i);
      match value[i] {
      case '\\' => piece := "\\\\";
      case '"' => piece := "\\\"";
      case '\n' => piece := "\\n";
      case c => piece := [c];
      }
      assert piece == Escape(value[i]);
      tail := Escaped(value[i + 1..]);
      Associate(text, piece, tail);
      text := text + piece;
    }
    EscapedNothing();
    assert value[|value|..] == "";
    text := text + "\"";
  }

  lemma EscapedNothing()
    ensures Escaped("") == ""
  {
  }

  lemma Associate(a: string, b: string, c: string)
    ensures a + (b + c) == (a + b) + c
  {
  }

  lemma EscapedStep(value: string, i: nat)
    requires i < |value|
    ensures Escaped(value[i..]) == Escape(value[i]) + Escaped(value[i + 1..])
  {
    assert value[i..][1..] == value[i + 1..];
  }

  /** What YAML takes for a line break. */
  predicate LineBreak(c: char) { c == NEWLINE || c == '\r' || c == '\U{85}' || c == '\U{2028}' || c == '\U{2029}' }

  /** A double-quoted scalar that stands on one line, read from just after its opening quote:
      its value and the text after the closing quote. A raw line break ends the line, and YAML
      folds it into a space; None stands for that too. */
  function Unquoted(text: string): (r: Option<(string, string)>) {
    if text == "" then None
    else if text[0] == '"' then Some(("", text[1..]))
    else if LineBreak(text[0]) then None
    else if text[0] == '\\' then
      if |text| < 2 || text[1] !in "\\\"n" then None
      else
        match Unquoted(text[2..])
        case None => None
        case Some((value, rest)) => Some(([if text[1] == 'n' then NEWLINE else text[1]] + value, rest))
    else
      match Unquoted(text[1..])
      case None => None
      case Some((value, rest)) => Some(([text[0]] + value, rest))
  }

  lemma UnquotedEscape(c: char, tail: string)
    requires c == '\\' || c == '"' || c == 'n'
    ensures var text := ['\\', c] + tail;
      Unquoted(text)
        == match Unquoted(tail) case None => None case Some(p) => Some(([if c == 'n' then NEWLINE else c] + p.0, p.1))
  {
    var text := ['\\', c] + tail;
    assert text[2..] == tail && text[0] == '\\' && text[1] == c;
  }

  lemma UnquotedPlain(c: char, tail: string)
    requires c != '\\' && c != '"'
    ensures var text := [c] + tail;
      Unquoted(text) ==
        if LineBreak(c) then None else match Unquoted(tail) case None => None case Some(p) => Some(([c] + p.0, p.1))
  {
    var text := [c] + tail;
    assert text[1..] == tail && text[0] == c;
  }

  lemma Regroup(head: string, body: string, rest: string)
    ensures (head + body) + "\"" + rest == head + (body + "\"" + rest)
  {
  }

  /** No raw line break but the newline, which is escaped. */
  predicate OneLine(value: string) { forall c | c in value :: c == NEWLINE || !LineBreak(c) }

  lemma OneLineStep(value: string)
    requires value != ""
    ensures OneLine(value) <==> (value[0] == NEWLINE || !LineBreak(value[0])) && OneLine(value[1..])
  {
    hide LineBreak;
    assert value == [value[0]] + value[1..];
  }

  lemma Prepended(c: char, read: Option<(string, string)>, value: string, rest: string)
    ensures (match read case None => None case Some(p) => Some(([c] + p.0, p.1))) == Some(([c] + value, rest))
      <==> read == Some((value, rest))
  {
    if read.Some? && [c] + read.value.0 == [c] + value {
      assert read.value.0 == ([c] + read.value.0)[1..] && value == ([c] + value)[1..];
    }
  }

  /** A quoted value is read back exactly, whatever stands after it, if and only if it holds no
      line break other than the newline. */
  lemma {:induction false} QuoteRoundTrip(value: string, rest: string)
    ensures Unquoted(Escaped(value) + "\"" + rest) == Some((value, rest)) <==> OneLine(value)
  {
    if value == "" {
      var text := Escaped(value) + "\"" + rest;
      assert text[0] == '"' && text[1..] == rest;
    } else {
      hide Unquoted, Escaped, OneLine, LineBreak;
      var c, body := value[0], Escaped(value[1..]);
      QuoteRoundTrip(value[1..], rest);
      OneLineStep(value);
      EscapedStep(value, 0);
      assert value[0..] == value;
      var tail := body + "\"" + rest;
      assert value == [c] + value[1..];
      Prepended(c, Unquoted(tail), value[1..], rest);
      if c == '\\' {
        Regroup("\\\\", body, rest);
        UnquotedEscape('\\', tail);
        NoBreak(c);
      } else if c == '"' {
        Regroup("\\\"", body, rest);
        UnquotedEscape('"', tail);
        NoBreak(c);
      } else if c == NEWLINE {
        Regroup("\\n", body, rest);
        UnquotedEscape('n', tail);
      } else {
        Regroup([c], body, rest);
        UnquotedPlain(c, tail);
      }
    }
  }

  lemma NoBreak(c: char)
    requires c == '\\' || c == '"'
    ensures !LineBreak(c)
  {
  }
}

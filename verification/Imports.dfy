/** Carrying an inbound's external-proxy list onto the host rows it once created
    (internal/database/db.go). */
module Imports {
  import opened Text

  /** A Go slice: nil and empty are two values. */
  datatype GoList = Nil | List(items: seq<string>)

  /** The scalar columns of a host row; rest stands for the ones an import leaves blank. */
  datatype Scalars = Scalars(remark: string, address: string, port: int, security: string, sni: string,
                             fingerprint: string, echConfigList: string, rest: string)

  datatype Host = Host(
    id: int, group: string, inbound: int, sort: int, created: int, updated: int,
    scalars: Scalars,
    snis: GoList,
    tags: GoList, alpn: GoList, pins: GoList, excluded: GoList, nodes: GoList)

  function Normal(l: GoList): GoList { if l == List([]) then Nil else l }

  /** importedHostFields: every field but row identity and placement. The server names are
      the one list an empty value does not become nil in. */
  function Fields(h: Host): Host {
    h.(id := 0, group := "", sort := 0, created := 0, updated := 0,
       tags := Normal(h.tags), alpn := Normal(h.alpn), pins := Normal(h.pins),
       excluded := Normal(h.excluded), nodes := Normal(h.nodes))
  }

  predicate Same(a: Host, b: Host) { Fields(a) == Fields(b) }

  /** How often a list holds a host with those fields. */
  function Count(hosts: seq<Host>, fields: Host): nat {
    if hosts == [] then 0
    else Count(hosts[..|hosts| - 1], fields) + (if Fields(hosts[|hosts| - 1]) == fields then 1 else 0)
  }

  lemma CountAppend(hosts: seq<Host>, h: Host, fields: Host)
    ensures Count(hosts + [h], fields) == Count(hosts, fields) + (if Fields(h) == fields then 1 else 0)
  {
    assert (hosts + [h])[..|hosts|] == hosts;
  }

  lemma CountPrefix(hosts: seq<Host>, n: nat, fields: Host)
    requires n < |hosts|
    ensures Count(hosts[..n + 1], fields) == Count(hosts[..n], fields) + (if Fields(hosts[n]) == fields then 1 else 0)
  {
    assert hosts[..n + 1] == hosts[..n] + [hosts[n]];
    CountAppend(hosts[..n], hosts[n], fields);
  }

  /** Multiset difference of counts. */
  function Minus(a: nat, b: nat): nat { if a > b then a - b else 0 }

  // ---- The difference of two lists -------------------------------------------

  /** The hosts whose mark is the given one. */
  function Marked(hosts: seq<Host>, marks: seq<bool>, mark: bool): (r: seq<Host>)
    requires |hosts| == |marks|
  {
    if hosts == [] then []
    else
      var n := |hosts| - 1;
      Marked(hosts[..n], marks[..n], mark) + (if marks[n] == mark then [hosts[n]] else [])
  }

  lemma MarkedStep(hosts: seq<Host>, marks: seq<bool>, mark: bool, fields: Host)
    requires |hosts| == |marks| && hosts != []
    ensures var n := |hosts| - 1;
      Count(Marked(hosts, marks, mark), fields)
      == Count(Marked(hosts[..n], marks[..n], mark), fields)
        + (if marks[n] == mark && Fields(hosts[n]) == fields then 1 else 0)
  {
    var n := |hosts| - 1;
    var init := Marked(hosts[..n], marks[..n], mark);
    if marks[n] == mark {
      CountAppend(init, hosts[n], fields);
    } else {
      assert init + [] == init;
    }
  }

  lemma {:induction false} MarkedAll(hosts: seq<Host>, marks: seq<bool>, fields: Host)
    requires |hosts| == |marks|
    ensures Count(Marked(hosts, marks, true), fields) + Count(Marked(hosts, marks, false), fields)
      == Count(hosts, fields)
  {
    if hosts != [] {
      var n := |hosts| - 1;
      MarkedAll(hosts[..n], marks[..n], fields);
      MarkedStep(hosts, marks, true, fields);
      MarkedStep(hosts, marks, false, fields);
    }
  }

  /** Keeping one more position moves its fields from the unkept to the kept. */
  lemma {:induction false} MarkOne(hosts: seq<Host>, marks: seq<bool>, i: nat, fields: Host)
    requires |hosts| == |marks| && i < |hosts| && !marks[i]
    ensures var one := if Fields(hosts[i]) == fields then 1 else 0;
      && Count(Marked(hosts, marks[i := true], true), fields) == Count(Marked(hosts, marks, true), fields) + one
      && Count(Marked(hosts, marks, false), fields) == Count(Marked(hosts, marks[i := true], false), fields) + one
  {
    hide Marked, Count, Fields;
    var n := |hosts| - 1;
    MarkedStep(hosts, marks, true, fields);
    MarkedStep(hosts, marks, false, fields);
    MarkedStep(hosts, marks[i := true], true, fields);
    MarkedStep(hosts, marks[i := true], false, fields);
    if i < n {
      assert marks[i := true][..n] == marks[..n][i := true];
      MarkOne(hosts[..n], marks[..n], i, fields);
    } else {
      assert marks[i := true][..n] == marks[..n];
    }
  }

  /** A list where no unkept position has those fields counts none of them. */
  lemma {:induction false} UnkeptLacks(hosts: seq<Host>, marks: seq<bool>, fields: Host)
    requires |hosts| == |marks| && forall i | 0 <= i < |hosts| && !marks[i] :: Fields(hosts[i]) != fields
    ensures Count(Marked(hosts, marks, false), fields) == 0
  {
    if hosts != [] {
      UnkeptLacks(hosts[..|hosts| - 1], marks[..|hosts| - 1], fields);
      MarkedStep(hosts, marks, false, fields);
    }
  }

  predicate Ascending(at: seq<nat>, bound: nat) {
    && (forall i, j | 0 <= i < j < |at| :: at[i] < at[j])
    && (forall i | 0 <= i < |at| :: at[i] < bound)
  }

  function At(hosts: seq<Host>, at: seq<nat>): (r: seq<Host>)
    requires Ascending(at, |hosts|)
    ensures |r| == |at|
  {
    seq(|at|, i requires 0 <= i < |at| => hosts[at[i]])
  }

  /** The first unkept old position with the fields of next. */
  method FindMatch(olds: seq<Host>, kept: seq<bool>, next: Host) returns (match': int)
    requires |olds| == |kept|
    ensures -1 <= match' < |olds|
    ensures match' >= 0 ==> !kept[match'] && Same(olds[match'], next)
    ensures forall i | 0 <= i < (if match' >= 0 then match' else |olds|) && !kept[i] :: !Same(olds[i], next)
  {
    for i := 0 to |olds|
      invariant forall k | 0 <= k < i && !kept[k] :: !Same(olds[k], next)
    {
      if !kept[i] && Same(olds[i], next) {
        return i;
      }
    }
    return -1;
  }

  /** changedImports: the lost old positions and the new entries without an old one are
      exactly the two multiset differences of the lists, each in list order. */
  method ChangedImports(olds: seq<Host>, news: seq<Host>)
    returns (gone: seq<nat>, added: seq<Host>, ghost kept: seq<bool>, ghost appeared: seq<nat>)
    ensures Ascending(gone, |olds|)
    ensures Ascending(appeared, |news|) && added == At(news, appeared)
    ensures forall f :: Count(At(olds, gone), f) == Minus(Count(olds, f), Count(news, f))
    ensures forall f :: Count(added, f) == Minus(Count(news, f), Count(olds, f))
    ensures Changes(olds, news, gone, added, kept)
  {
    hide Count, Marked, Fields, Balanced, Same, At;
    var marks;
    marks, added, appeared := MarkKept(olds, news);
    kept := marks;
    gone := Unkept(olds, marks);
    AtIs(news, appeared, added);
    forall f
      ensures Count(At(olds, gone), f) == Minus(Count(olds, f), Count(news, f))
      ensures Count(added, f) == Minus(Count(news, f), Count(olds, f))
      ensures Count(Marked(olds, kept, true), f) + Count(added, f) == Count(news, f)
    {
      assert Balanced(olds, marks, added, news, f);
      Difference(olds, marks, added, news, f);
    }
  }

  /** Each new entry in turn keeps the first unkept old position with its fields, if any. */
  method MarkKept(olds: seq<Host>, news: seq<Host>)
    returns (marks: seq<bool>, added: seq<Host>, ghost appeared: seq<nat>)
    ensures |marks| == |olds| && Picks(news, appeared, added, |news|)
    ensures forall f :: Balanced(olds, marks, added, news, f)
  {
    marks := seq(|olds|, _ => false);
    added, appeared := [], [];
    NoneMarked(olds, marks);
    hide Count, Marked, Fields, Balanced, Same, At, Picks;
    NonePicked(news);
    for j := 0 to |news|
      invariant |marks| == |olds| && Picks(news, appeared, added, j)
      invariant forall f :: Balanced(olds, marks, added, news[..j], f)
    {
      ghost var before, soFar := news[..j], news[..j + 1];
      PicksNext(news, appeared, added, j);
      var m := FindMatch(olds, marks, news[j]);
      if m < 0 {
        ghost var grown := added + [news[j]];
        forall f
          ensures Balanced(olds, marks, grown, soFar, f)
        {
          assert Balanced(olds, marks, added, before, f);
          AddedStep(olds, marks, added, news, j, f);
        }
        added, appeared := added + [news[j]], appeared + [j];
      } else {
        ghost var marked := marks[m := true];
        forall f
          ensures Balanced(olds, marked, added, soFar, f)
        {
          assert Balanced(olds, marks, added, before, f);
          KeptStep(olds, marks, m, added, news, j, f);
        }
        marks := marks[m := true];
      }
    }
    assert news[..|news|] == news;
  }

  /** The picked hosts are those of the first n at the positions at, in order. */
  ghost predicate Picks(hosts: seq<Host>, at: seq<nat>, picked: seq<Host>, n: nat)
    requires n <= |hosts|
  {
    Ascending(at, n) && |picked| == |at| && forall k | 0 <= k < |picked| :: picked[k] == hosts[at[k]]
  }

  lemma NonePicked(hosts: seq<Host>)
    ensures Picks(hosts, [], [], 0)
  {
  }

  lemma PicksNext(hosts: seq<Host>, at: seq<nat>, picked: seq<Host>, n: nat)
    requires n < |hosts| && Picks(hosts, at, picked, n)
    ensures Picks(hosts, at, picked, n + 1) && Picks(hosts, at + [n], picked + [hosts[n]], n + 1)
  {
  }

  lemma AtIs(hosts: seq<Host>, at: seq<nat>, picked: seq<Host>)
    requires Ascending(at, |hosts|) && |picked| == |at| && forall k | 0 <= k < |at| :: picked[k] == hosts[at[k]]
    ensures picked == At(hosts, at)
  {
  }

  lemma AddedStep(olds: seq<Host>, marks: seq<bool>, added: seq<Host>, news: seq<Host>, j: nat, f: Host)
    requires |marks| == |olds| && j < |news| && Balanced(olds, marks, added, news[..j], f)
    requires forall i | 0 <= i < |olds| && !marks[i] :: !Same(olds[i], news[j])
    ensures Balanced(olds, marks, added + [news[j]], news[..j + 1], f)
  {
    hide Count, Marked, Fields;
    CountPrefix(news, j, f);
    CountAppend(added, news[j], f);
    if Fields(news[j]) == f {
      UnkeptLacks(olds, marks, f);
    }
  }

  lemma KeptStep(olds: seq<Host>, marks: seq<bool>, m: nat, added: seq<Host>, news: seq<Host>, j: nat, f: Host)
    requires |marks| == |olds| && j < |news| && Balanced(olds, marks, added, news[..j], f)
    requires m < |olds| && !marks[m] && Same(olds[m], news[j])
    ensures Balanced(olds, marks[m := true], added, news[..j + 1], f)
  {
    hide Count, Marked, Fields;
    CountPrefix(news, j, f);
    MarkOne(olds, marks, m, f);
  }

  lemma Difference(olds: seq<Host>, marks: seq<bool>, added: seq<Host>, news: seq<Host>, f: Host)
    requires |marks| == |olds| && Balanced(olds, marks, added, news, f)
    ensures Count(Marked(olds, marks, false), f) == Minus(Count(olds, f), Count(news, f))
    ensures Count(added, f) == Minus(Count(news, f), Count(olds, f))
    ensures Count(Marked(olds, marks, true), f) + Count(added, f) == Count(news, f)
  {
    hide Count, Marked;
    MarkedAll(olds, marks, f);
  }

  /** The kept old entries and the added new ones make up the new list so far, and nothing
      added still has a match among the unkept. */
  ghost predicate Balanced(olds: seq<Host>, marks: seq<bool>, added: seq<Host>, news: seq<Host>, f: Host)
    requires |marks| == |olds|
  {
    && Count(Marked(olds, marks, true), f) + Count(added, f) == Count(news, f)
    && (Count(added, f) == 0 || Count(Marked(olds, marks, false), f) == 0)
  }

  lemma {:induction false} NoneMarked(hosts: seq<Host>, marks: seq<bool>)
    requires |marks| == |hosts| && forall i | 0 <= i < |marks| :: !marks[i]
    ensures Marked(hosts, marks, true) == []
    ensures forall f :: Balanced(hosts, marks, [], [], f)
  {
    if hosts != [] {
      NoneMarked(hosts[..|hosts| - 1], marks[..|hosts| - 1]);
    }
  }

  method Unkept(hosts: seq<Host>, kept: seq<bool>) returns (gone: seq<nat>)
    requires |hosts| == |kept|
    ensures Ascending(gone, |kept|) && forall i | 0 <= i < |kept| :: i in gone <==> !kept[i]
    ensures At(hosts, gone) == Marked(hosts, kept, false)
  {
    gone := [];
    for i := 0 to |kept|
      invariant Ascending(gone, i) && forall k | 0 <= k < i :: k in gone <==> !kept[k]
      invariant At(hosts, gone) == Marked(hosts[..i], kept[..i], false)
    {
      assert hosts[..i + 1][..i] == hosts[..i] && kept[..i + 1][..i] == kept[..i];
      if !kept[i] {
        assert At(hosts, gone + [i]) == At(hosts, gone) + [hosts[i]];
        gone := gone + [i];
      }
    }
    assert hosts[..|hosts|] == hosts && kept[..|kept|] == kept;
  }

  // ---- What an import leaves --------------------------------------------------

  /** One entry of an externalProxy list. */
  datatype ProxyEntry = ProxyEntry(forceTls: string, dest: string, port: int, remark: string, sni: string,
                                   fingerprint: string, ech: string, alpn: GoList, pins: GoList)

  function NonEmpty(items: seq<string>): seq<string> {
    if items == [] then []
    else
      var n := |items| - 1;
      NonEmpty(items[..n]) + (if items[n] != "" then [items[n]] else [])
  }

  /** anyToNonEmptyStrings: of a list there is always a list, of nothing there is nil. */
  function NonEmptyStrings(l: GoList): GoList { if l.Nil? then Nil else List(NonEmpty(l.items)) }

  function ImportedRemark(remark: string, index: nat): string {
    var r := if Trim(remark) == "" then "imported " + Itoa(index + 1) else remark;
    if |r| > 256 then r[..256] else r
  }

  /** externalProxyEntryToHost; group is the random group it draws. */
  function Imported(inbound: int, index: nat, group: string, ep: ProxyEntry): Host {
    Host(0, group, inbound, index, 0, 0,
         Scalars(ImportedRemark(ep.remark, index), ep.dest, ep.port,
                 if ep.forceTls in ["same", "tls", "none"] then ep.forceTls else "same",
                 ep.sni, ep.fingerprint, ep.ech, ""),
         NonEmptyStrings(List([ep.sni])),
         Nil, NonEmptyStrings(ep.alpn), NonEmptyStrings(ep.pins), Nil, Nil)
  }

  /** An import always has a list of server names, an empty one when there is none. */
  lemma ImportedNames(inbound: int, index: nat, group: string, ep: ProxyEntry)
    ensures Imported(inbound, index, group, ep).snis == List(if ep.sni == "" then [] else [ep.sni])
  {
    assert [ep.sni][..0] == [];
    assert NonEmpty([ep.sni]) == NonEmpty([]) + (if ep.sni != "" then [ep.sni] else []);
  }

  lemma {:induction false} NonEmptyIs(items: seq<string>, x: string)
    ensures x in NonEmpty(items) <==> x in items && x != ""
    ensures (forall i | 0 <= i < |items| :: items[i] != "") ==> NonEmpty(items) == items
    ensures |NonEmpty(items)| <= |items|
  {
    if items != [] {
      var n := |items| - 1;
      NonEmptyIs(items[..n], x);
      assert items == items[..n] + [items[n]];
    }
  }

  /** What the import of an entry carries, column by column: the entry's remark, or a numbered
      one when that is blank, cut at 256 characters; the entry's address, port and texts each in
      its column, one of three securities, and the lists without empty texts, nil staying nil. */
  lemma ImportedSays(inbound: int, index: nat, group: string, ep: ProxyEntry, x: string)
    ensures var h := Imported(inbound, index, group, ep);
      && h.inbound == inbound && h.sort == index && h.group == group
      && var remark := if Trim(ep.remark) == "" then "imported " + Itoa(index + 1) else ep.remark;
      && h.scalars.remark <= remark && |h.scalars.remark| == Smaller(|remark|, 256)
      && h.scalars.address == ep.dest && h.scalars.port == ep.port
      && (h.scalars.security == "tls" <==> ep.forceTls == "tls")
      && (h.scalars.security == "none" <==> ep.forceTls == "none")
      && (h.scalars.security in ["same", "tls", "none"])
      && h.scalars.sni == ep.sni && h.scalars.fingerprint == ep.fingerprint && h.scalars.echConfigList == ep.ech
      && h.snis == List(if ep.sni == "" then [] else [ep.sni])
      && (h.alpn.Nil? <==> ep.alpn.Nil?) && (h.pins.Nil? <==> ep.pins.Nil?)
      && (h.alpn.List? ==> (x in h.alpn.items <==> x in ep.alpn.items && x != ""))
      && (h.pins.List? ==> (x in h.pins.items <==> x in ep.pins.items && x != ""))
      && h.tags.Nil? && h.excluded.Nil? && h.nodes.Nil?
  {
    ImportedNames(inbound, index, group, ep);
    if ep.alpn.List? {
      NonEmptyIs(ep.alpn.items, x);
    }
    if ep.pins.List? {
      NonEmptyIs(ep.pins.items, x);
    }
  }

  /** The two agree in everything compared but the server names, an empty list being nil. */
  predicate AgreeButNames(a: Host, b: Host) {
    && a.inbound == b.inbound && a.scalars == b.scalars
    && Normal(a.tags) == Normal(b.tags) && Normal(a.alpn) == Normal(b.alpn) && Normal(a.pins) == Normal(b.pins)
    && Normal(a.excluded) == Normal(b.excluded) && Normal(a.nodes) == Normal(b.nodes)
  }

  /** Two hosts count as the same import if and only if they agree so and their server names
      are equal, where nil and the empty list are two values. */
  lemma SameExact(a: Host, b: Host)
    ensures Same(a, b) <==> AgreeButNames(a, b) && a.snis == b.snis
  {
  }

  /** So a row that agrees with an entry's import is it if and only if it has the very list of
      names the import makes, and never if it has none: a row written before the column existed
      is not an import any more. */
  lemma ImportExact(row: Host, inbound: int, index: nat, group: string, ep: ProxyEntry)
    requires AgreeButNames(row, Imported(inbound, index, group, ep))
    ensures Same(row, Imported(inbound, index, group, ep)) <==> row.snis == List(if ep.sni == "" then [] else [ep.sni])
    ensures row.snis == Nil ==> !Same(row, Imported(inbound, index, group, ep))
  {
    ImportedNames(inbound, index, group, ep);
    SameExact(row, Imported(inbound, index, group, ep));
    hide Imported;
  }

  /** A list as externalProxyHosts makes it, at the places its entries have in the stream. */
  predicate AreImports(inbound: int, olds: seq<Host>, places: seq<nat>, groups: seq<string>, eps: seq<ProxyEntry>) {
    |olds| == |places| == |groups| == |eps| && forall i | 0 <= i < |olds| ::
      olds[i] == Imported(inbound, places[i], groups[i], eps[i])
  }

  // ---- Pairing entries with rows ---------------------------------------------

  type Rows = map<int, Host>

  /** Only row r is in its group. */
  predicate Alone(rows: Rows, r: int)
    requires r in rows
  {
    forall q | q in rows && rows[q].group == rows[r].group :: q == r
  }

  /** Row r is what an import of entry would have left, untouched since. */
  predicate Untouched(rows: Rows, inbound: int, entry: Host, r: int) {
    r in rows && rows[r].inbound == inbound && Same(rows[r], entry) && Alone(rows, r)
  }

  type Pairs = seq<Option<int>>

  /** Distinct untouched rows. */
  predicate Sound(rows: Rows, inbound: int, entries: seq<Host>, pairs: Pairs) {
    && |pairs| <= |entries|
    && (forall i | 0 <= i < |pairs| && pairs[i].Some? :: Untouched(rows, inbound, entries[i], pairs[i].value))
    && (forall i, j | 0 <= i < j < |pairs| && pairs[i].Some? :: pairs[j] != pairs[i])
  }

  /** An entry is left out only when every row it could have is taken by an earlier one. */
  ghost predicate Maximal(rows: Rows, inbound: int, entries: seq<Host>, pairs: Pairs) {
    forall i, r | 0 <= i < |pairs| <= |entries| && pairs[i].None? && Untouched(rows, inbound, entries[i], r) ::
      Some(r) in pairs[..i]
  }

  /** Row r with the entry's content, its own identity and place. */
  function Carried(host: Host, r: int, entry: Host): (row: Host)
    ensures Same(row, entry) && row.id == r
    ensures row.group == host.group && row.sort == host.sort && row.created == host.created
  {
    entry.(id := r, group := host.group, sort := host.sort, created := host.created)
  }

  /** The first n changed positions: a paired row took its new entry, or went. */
  ghost predicate Swapped(before: Rows, after: Rows, tombstones: map<int, int>, inbound: int, gone: seq<nat>,
                          added: seq<Host>, pairs: Pairs, n: nat)
    requires n <= |gone| && Ascending(gone, |pairs|)
  {
    && (forall k | 0 <= k < n && pairs[gone[k]].Some? ::
          var r := pairs[gone[k]].value;
          r in before
          && if k < |added| then r in after && after[r] == Carried(before[r], r, added[k])
             else r !in after && r in tombstones && tombstones[r] == inbound)
    && (forall r | r in before && (forall k | 0 <= k < n :: pairs[gone[k]] != Some(r)) ::
      r in after && after[r] == before[r])
  }

  /** The new rows: fresh, distinct, one for each entry from position first on. */
  ghost predicate Made(before: Rows, after: Rows, added: seq<Host>, first: nat, made: seq<int>) {
    && first + |made| <= |added|
    && (forall k | 0 <= k < |made| ::
          made[k] !in before && made[k] in after && after[made[k]] == added[first + k].(id := made[k]))
    && (forall i, j | 0 <= i < j < |made| :: made[i] != made[j])
    && (forall r | r in after :: r in before || r in made)
  }

  /** What a synchronisation that finds a row to carry over leaves in the table. */
  ghost predicate Result(before: Rows, after: Rows, tombstones: map<int, int>, inbound: int, gone: seq<nat>,
                         added: seq<Host>, pairs: Pairs, made: seq<int>) {
    && Ascending(gone, |pairs|)
    && Swapped(before, after, tombstones, inbound, gone, added, pairs, |gone|)
    && Made(before, after, added, Smaller(|gone|, |added|), made)
    && |made| == |added| - Smaller(|gone|, |added|)
  }

  /** What ChangedImports finds. */
  ghost predicate Changes(olds: seq<Host>, news: seq<Host>, gone: seq<nat>, added: seq<Host>, kept: seq<bool>) {
    && |kept| == |olds| && Ascending(gone, |olds|)
    && (forall i | 0 <= i < |olds| :: i in gone <==> !kept[i])
    && (forall f :: Count(Marked(olds, kept, true), f) + Count(added, f) == Count(news, f))
  }

  class HostTable {
    var rows: Rows
    var nextId: int
    /** The inbound a deleted row served. */
    var tombstones: map<int, int>

    constructor (rows: Rows, nextId: int, tombstones: map<int, int>)
      requires forall r | r in rows :: r < nextId
      ensures this.rows == rows && this.tombstones == tombstones && Valid()
    {
      this.rows, this.nextId, this.tombstones := rows, nextId, tombstones;
    }

    /** Ids are handed out once. */
    ghost predicate Valid()
      reads this`rows, this`nextId
    {
      forall r | r in rows :: r < nextId
    }

    /** The rows of one inbound, in some order. */
    method Stored(inbound: int) returns (stored: seq<int>)
      ensures forall r :: r in stored <==> r in rows && rows[r].inbound == inbound
    {
      stored := [];
      var todo := rows.Keys;
      while todo != {}
        invariant todo <= rows.Keys
        invariant forall r :: r in stored <==> r in rows.Keys - todo && rows[r].inbound == inbound
      {
        SomeMember(todo);
        var r :| r in todo;
        todo := todo - {r};
        if rows[r].inbound == inbound {
          stored := stored + [r];
        }
      }
    }

    /** The first stored row that is untouched and not taken yet. */
    method FindRow(stored: seq<int>, inbound: int, entry: Host, taken: Pairs) returns (found: Option<int>)
      requires forall r | r in stored :: r in rows && rows[r].inbound == inbound
      ensures found.Some? ==> Untouched(rows, inbound, entry, found.value) && found !in taken
      ensures found.None? ==> forall r | r in stored && Untouched(rows, inbound, entry, r) :: Some(r) in taken
    {
      for k := 0 to |stored|
        invariant forall r | r in stored[..k] && Untouched(rows, inbound, entry, r) :: Some(r) in taken
      {
        var r := stored[k];
        if Some(r) !in taken && Same(rows[r], entry) && |GroupRows(rows[r].group)| == 1 {
          AloneInGroup(r);
          return Some(r);
        }
        AloneInGroup(r);
        assert stored[..k + 1] == stored[..k] + [r];
      }
      assert stored[..|stored|] == stored;
      return None;
    }

    function GroupRows(group: string): set<int>
      reads this`rows
    {
      set q | q in rows && rows[q].group == group
    }

    lemma AloneInGroup(r: int)
      requires r in rows
      ensures |GroupRows(rows[r].group)| == 1 <==> Alone(rows, r)
    {
      var g := GroupRows(rows[r].group);
      assert r in g;
      if |g| == 1 {
        assert |g - {r}| == 0;
        forall q | q in rows && rows[q].group == rows[r].group
          ensures q == r
        {
          assert q in g;
          assert q !in g - {r};
        }
      }
      if Alone(rows, r) {
        assert forall q :: q in g <==> q == r;
        assert g == {r};
      }
    }

    /** untouchedImportedHosts. */
    method PairUntouched(inbound: int, entries: seq<Host>) returns (pairs: Pairs)
      ensures |pairs| == |entries|
      ensures Sound(rows, inbound, entries, pairs) && Maximal(rows, inbound, entries, pairs)
    {
      var stored := Stored(inbound);
      pairs := [];
      for i := 0 to |entries|
        invariant |pairs| == i && Sound(rows, inbound, entries, pairs) && Maximal(rows, inbound, entries, pairs)
      {
        var found := FindRow(stored, inbound, entries[i], pairs);
        ghost var before := pairs;
        pairs := pairs + [found];
        assert pairs[..i] == before;
        assert forall k | 0 <= k < i :: pairs[..k] == before[..k];
      }
    }

    /** Saves entry over row r, which keeps its identity and place. */
    method Save(r: int, entry: Host)
      requires r in rows
      modifies this`rows
      ensures rows == old(rows)[r := Carried(old(rows)[r], r, entry)]
    {
      var host := rows[r];
      rows := rows[r := entry.(id := r, group := host.group, sort := host.sort, created := host.created)];
    }

    /** DeleteHosts on one row. */
    method Delete(r: int)
      requires r in rows
      modifies this`rows, this`tombstones
      ensures rows == old(rows) - {r} && tombstones == old(tombstones)[r := old(rows)[r].inbound]
    {
      tombstones := tombstones[r := rows[r].inbound];
      rows := rows - {r};
    }

    /** A new row under the next id. */
    method Create(entry: Host) returns (r: int)
      modifies this`rows, this`nextId
      ensures r == old(nextId) && nextId == r + 1 && rows == old(rows)[r := entry.(id := r)]
    {
      r := nextId;
      nextId := nextId + 1;
      rows := rows[r := entry.(id := r)];
    }

    /** Carries the changed entries onto the paired rows of the old ones. */
    method CarryOver(inbound: int, olds: seq<Host>, gone: seq<nat>, added: seq<Host>, pairs: Pairs)
      requires Ascending(gone, |olds|) && |pairs| == |olds| && Sound(rows, inbound, olds, pairs)
      modifies this`rows, this`tombstones
      ensures Swapped(old(rows), rows, tombstones, inbound, gone, added, pairs, |gone|)
      ensures forall r | r in old(tombstones) :: r in tombstones
      ensures rows.Keys <= old(rows).Keys
    {
      for k := 0 to |gone|
        invariant Swapped(old(rows), rows, tombstones, inbound, gone, added, pairs, k)
        invariant forall r | r in old(tombstones) :: r in tombstones
        invariant rows.Keys <= old(rows).Keys
      {
        var pair := pairs[gone[k]];
        PairStanding(old(rows), rows, tombstones, inbound, olds, gone, added, pairs, k);
        SwapStep(old(rows), rows, tombstones, inbound, gone, added, pairs, k);
        if pair.Some? {
          if k >= |added| {
            Delete(pair.value);
          } else {
            Save(pair.value, added[k]);
          }
        }
      }
    }

    /** The entries from position first on get rows of their own. */
    method CreateFrom(added: seq<Host>, first: nat, ghost before: Rows) returns (ghost made: seq<int>)
      requires Valid() && first <= |added| && rows.Keys <= before.Keys && forall r | r in before :: r < nextId
      modifies this`rows, this`nextId
      ensures Valid() && Made(before, rows, added, first, made) && |made| == |added| - first
      ensures SameRows(before, old(rows), rows)
    {
      made := [];
      for k := first to |added|
        invariant |made| == k - first && Valid() && nextId >= old(nextId)
        invariant Made(before, rows, added, first, made) && SameRows(before, old(rows), rows)
      {
        var r := Create(added[k]);
        made := made + [r];
      }
    }

    /** SyncHostsFromExternalProxy, for a stream that has an externalProxy list. */
    method Sync(inbound: int, olds: seq<Host>, news: seq<Host>)
        returns (ghost gone: seq<nat>, ghost added: seq<Host>, ghost kept: seq<bool>, ghost pairs: Pairs,
          ghost made: seq<int>)
      requires Valid()
      modifies this
      ensures Valid()
      ensures Changes(olds, news, gone, added, kept)
      ensures |pairs| == |olds| && Sound(old(rows), inbound, olds, pairs) && Maximal(old(rows), inbound, olds, pairs)
      ensures (forall p | p in pairs :: p.None?) || (gone == [] && added == []) ==>
        rows == old(rows) && tombstones == old(tombstones) && made == []
      ensures !((forall p | p in pairs :: p.None?) || (gone == [] && added == [])) ==>
        Result(old(rows), rows, tombstones, inbound, gone, added, pairs, made)
    {
      hide Count, Marked, Maximal, Untouched, Sound, Swapped, Made, SameRows;
      var changedFrom, changed;
      ghost var appeared;
      changedFrom, changed, kept, appeared := ChangedImports(olds, news);
      gone, added, made := changedFrom, changed, [];
      var paired := PairUntouched(inbound, olds);
      pairs := paired;
      if changedFrom == [] && changed == [] {
        return;
      }
      if forall p | p in paired :: p.None? {
        return;
      }
      CarryOver(inbound, olds, changedFrom, changed, paired);
      ghost var carried := rows;
      var first := if |changedFrom| < |changed| then |changedFrom| else |changed|;
      made := CreateFrom(changed, first, old(rows));
      SwappedStays(old(rows), carried, rows, tombstones, inbound, changedFrom, changed, paired);
    }
  }

  /** The rows there were before are in both tables or in neither, and alike. */
  ghost predicate SameRows(before: Rows, a: Rows, b: Rows) {
    forall r | r in before :: (r in b <==> r in a) && (r in a ==> b[r] == a[r])
  }

  lemma SwappedStays(before: Rows, carried: Rows, after: Rows, tombstones: map<int, int>, inbound: int, gone: seq<nat>,
                     added: seq<Host>, pairs: Pairs)
    requires Ascending(gone, |pairs|) && Swapped(before, carried, tombstones, inbound, gone, added, pairs, |gone|)
    requires SameRows(before, carried, after)
    ensures Swapped(before, after, tombstones, inbound, gone, added, pairs, |gone|)
  {
    hide Ascending, Carried;
  }

  /** The row of the next changed position has not been touched. */
  lemma PairStanding(before: Rows, now: Rows, tombstones: map<int, int>, inbound: int, olds: seq<Host>, gone: seq<nat>,
                     added: seq<Host>, pairs: Pairs, k: nat)
    requires k < |gone| && Ascending(gone, |pairs|) && |pairs| == |olds| && Sound(before, inbound, olds, pairs)
    requires Swapped(before, now, tombstones, inbound, gone, added, pairs, k)
    ensures var pair := pairs[gone[k]];
      pair.Some? ==>
        && pair.value in before && pair.value in now && now[pair.value] == before[pair.value]
          && before[pair.value].inbound == inbound
        && forall j | 0 <= j < k :: pairs[gone[j]] != pair
  {
    if pairs[gone[k]].Some? {
      SoundAt(before, inbound, olds, pairs, gone[k]);
      forall j | 0 <= j < k
        ensures pairs[gone[j]] != pairs[gone[k]]
      {
        SoundApart(before, inbound, olds, pairs, gone[j], gone[k]);
      }
    }
  }

  lemma SwapStep(before: Rows, now: Rows, tombstones: map<int, int>, inbound: int, gone: seq<nat>, added: seq<Host>,
                 pairs: Pairs, k: nat)
    requires k < |gone| && Ascending(gone, |pairs|) && Swapped(before, now, tombstones, inbound, gone, added, pairs, k)
    requires pairs[gone[k]].Some? ==>
      && pairs[gone[k]].value in before && pairs[gone[k]].value in now
        && now[pairs[gone[k]].value] == before[pairs[gone[k]].value]
      && before[pairs[gone[k]].value].inbound == inbound && forall j | 0 <= j < k :: pairs[gone[j]] != pairs[gone[k]]
    ensures pairs[gone[k]].None? ==> Swapped(before, now, tombstones, inbound, gone, added, pairs, k + 1)
    ensures pairs[gone[k]].Some? ==>
      var r := pairs[gone[k]].value;
      Swapped(before, if k < |added| then now[r := Carried(before[r], r, added[k])] else now - {r},
              if k < |added| then tombstones else tombstones[r := inbound], inbound, gone, added, pairs, k + 1)
  {
    hide Ascending, Carried;
  }

  // ---- What a synchronisation leaves -----------------------------------------

  predicate RowHas(rows: Rows, pair: Option<int>, fields: Host) {
    pair.Some? && pair.value in rows && Fields(rows[pair.value]) == fields
  }

  /** How many of the shared entries among the first n stand in their row with those fields,
      and how many with those fields have no row. */
  function KeptStanding(rows: Rows, pairs: Pairs, kept: seq<bool>, n: nat, fields: Host): nat
    requires n <= |pairs| == |kept|
  {
    if n == 0 then 0
    else
      KeptStanding(rows, pairs, kept, n - 1, fields)
      + (if kept[n - 1] && RowHas(rows, pairs[n - 1], fields) then 1 else 0)
  }

  function KeptLost(olds: seq<Host>, pairs: Pairs, kept: seq<bool>, n: nat, fields: Host): nat
    requires n <= |pairs| == |kept| == |olds|
  {
    if n == 0 then 0
    else
      KeptLost(olds, pairs, kept, n - 1, fields)
      + (if kept[n - 1] && pairs[n - 1].None? && Fields(olds[n - 1]) == fields then 1 else 0)
  }

  /** The same for the first n changed positions and the new entries they take. */
  function SwapStanding(rows: Rows, pairs: Pairs, gone: seq<nat>, n: nat, fields: Host): nat
    requires Ascending(gone, |pairs|) && n <= |gone|
  {
    if n == 0 then 0
    else SwapStanding(rows, pairs, gone, n - 1, fields) + (if RowHas(rows, pairs[gone[n - 1]], fields) then 1 else 0)
  }

  function SwapLost(added: seq<Host>, pairs: Pairs, gone: seq<nat>, n: nat, fields: Host): nat
    requires Ascending(gone, |pairs|) && n <= |gone| && n <= |added|
  {
    if n == 0 then 0
    else
      SwapLost(added, pairs, gone, n - 1, fields)
      + (if pairs[gone[n - 1]].None? && Fields(added[n - 1]) == fields then 1 else 0)
  }

  /** And for the first n new rows. */
  function MadeStanding(rows: Rows, made: seq<int>, n: nat, fields: Host): nat
    requires n <= |made|
  {
    if n == 0 then 0
    else MadeStanding(rows, made, n - 1, fields) + (if RowHas(rows, Some(made[n - 1]), fields) then 1 else 0)
  }

  /** The rows that stand for the new list afterwards: those of the shared entries, those
      carried over, and the new ones. */
  function Standing(rows: Rows, added: seq<Host>, kept: seq<bool>, pairs: Pairs, gone: seq<nat>, made: seq<int>,
                    fields: Host): nat
    requires |pairs| == |kept| && Ascending(gone, |pairs|)
  {
    KeptStanding(rows, pairs, kept, |pairs|, fields) + SwapStanding(rows, pairs, gone, Smaller(|gone|, |added|), fields)
    + MadeStanding(rows, made, |made|, fields)
  }

  /** The entries of the new list that a synchronisation leaves without a row: shared or
      changed ones whose old row the administrator has edited, shared or deleted. */
  function Lost(olds: seq<Host>, added: seq<Host>, kept: seq<bool>, pairs: Pairs, gone: seq<nat>, fields: Host): nat
    requires |pairs| == |kept| == |olds| && Ascending(gone, |pairs|)
  {
    KeptLost(olds, pairs, kept, |pairs|, fields) + SwapLost(added, pairs, gone, Smaller(|gone|, |added|), fields)
  }

  /** Every paired position that counts has a row with the fields of its host. */
  ghost predicate Holds(after: Rows, hosts: seq<Host>, pairs: Pairs, counts: seq<bool>) {
    |hosts| == |pairs| == |counts|
    && forall i | 0 <= i < |pairs| && counts[i] && pairs[i].Some? :: RowHas(after, pairs[i], Fields(hosts[i]))
  }

  lemma {:induction false} KeptRows(after: Rows, olds: seq<Host>, pairs: Pairs, kept: seq<bool>, n: nat, f: Host)
    requires Holds(after, olds, pairs, kept) && n <= |olds|
    ensures KeptStanding(after, pairs, kept, n, f) + KeptLost(olds, pairs, kept, n, f)
      == Count(Marked(olds[..n], kept[..n], true), f)
  {
    hide Count, Marked, Fields;
    if n > 0 {
      KeptRows(after, olds, pairs, kept, n - 1, f);
      assert olds[..n][..n - 1] == olds[..n - 1] && kept[..n][..n - 1] == kept[..n - 1];
      MarkedStep(olds[..n], kept[..n], true, f);
    } else {
      NoneMarked(olds[..n], kept[..n]);
      CountNone(f);
    }
  }

  lemma CountNone(f: Host)
    ensures Count([], f) == 0
  {
  }

  /** The first n changed positions that have a row hold their new entry in it. */
  ghost predicate HoldsNew(after: Rows, added: seq<Host>, pairs: Pairs, gone: seq<nat>, n: nat) {
    && Ascending(gone, |pairs|) && n <= |gone| && n <= |added|
    && forall k | 0 <= k < n && pairs[gone[k]].Some? :: RowHas(after, pairs[gone[k]], Fields(added[k]))
  }

  lemma {:induction false} SwapRows(after: Rows, added: seq<Host>, pairs: Pairs, gone: seq<nat>, n: nat, f: Host)
    requires HoldsNew(after, added, pairs, gone, n)
    ensures SwapStanding(after, pairs, gone, n, f) + SwapLost(added, pairs, gone, n, f) == Count(added[..n], f)
  {
    hide Count, Fields;
    if n > 0 {
      SwapRows(after, added, pairs, gone, n - 1, f);
      CountPrefix(added, n - 1, f);
    } else {
      CountNone(f);
    }
  }

  /** Each new row holds its entry. */
  ghost predicate HoldsMade(after: Rows, added: seq<Host>, first: nat, made: seq<int>) {
    && first + |made| <= |added|
    && forall k | 0 <= k < |made| :: RowHas(after, Some(made[k]), Fields(added[first + k]))
  }

  lemma {:induction false} MadeRows(after: Rows, added: seq<Host>, first: nat, made: seq<int>, n: nat, f: Host)
    requires HoldsMade(after, added, first, made) && n <= |made|
    ensures MadeStanding(after, made, n, f) + Count(added[..first], f) == Count(added[..first + n], f)
  {
    hide Count, Fields;
    if n > 0 {
      MadeRows(after, added, first, made, n - 1, f);
      CountPrefix(added, first + n - 1, f);
    }
  }

  /** The rows that stand for the new list hold exactly its entries but the lost ones. */
  lemma ListCarried(before: Rows, after: Rows, tombstones: map<int, int>, inbound: int, olds: seq<Host>,
                    news: seq<Host>, gone: seq<nat>, added: seq<Host>, kept: seq<bool>, pairs: Pairs, made: seq<int>,
                    f: Host)
    requires |pairs| == |olds| && Sound(before, inbound, olds, pairs)
    requires Changes(olds, news, gone, added, kept)
    requires Result(before, after, tombstones, inbound, gone, added, pairs, made)
    ensures Standing(after, added, kept, pairs, gone, made, f) + Lost(olds, added, kept, pairs, gone, f)
      == Count(news, f)
  {
    hide *;
    var n := Smaller(|gone|, |added|);
    Facts(before, after, tombstones, inbound, olds, news, gone, added, kept, pairs, made, f);
    KeptRows(after, olds, pairs, kept, |olds|, f);
    SwapRows(after, added, pairs, gone, n, f);
    MadeRows(after, added, n, made, |made|, f);
    Whole(olds);
    Whole(kept);
    Whole(added);
    StandingIs(after, added, kept, pairs, gone, made, f);
    LostIs(olds, added, kept, pairs, gone, f);
  }

  /** What the counts below rest on. */
  lemma Facts(before: Rows, after: Rows, tombstones: map<int, int>, inbound: int, olds: seq<Host>, news: seq<Host>,
              gone: seq<nat>, added: seq<Host>, kept: seq<bool>, pairs: Pairs, made: seq<int>, f: Host)
    requires |pairs| == |olds| && Sound(before, inbound, olds, pairs)
    requires Changes(olds, news, gone, added, kept)
    requires Result(before, after, tombstones, inbound, gone, added, pairs, made)
    ensures |kept| == |olds| && Ascending(gone, |pairs|) && Holds(after, olds, pairs, kept)
    ensures HoldsNew(after, added, pairs, gone, Smaller(|gone|, |added|))
    ensures HoldsMade(after, added, Smaller(|gone|, |added|), made) && Smaller(|gone|, |added|) + |made| == |added|
    ensures Count(Marked(olds, kept, true), f) + Count(added, f) == Count(news, f)
  {
    hide Sound, Holds, HoldsNew, HoldsMade, Fields, Count, Marked, Swapped, Made;
    KeptHold(before, after, tombstones, inbound, olds, gone, added, kept, pairs);
    SwapHold(before, after, tombstones, inbound, gone, added, pairs, made);
  }

  lemma Whole<T>(s: seq<T>)
    ensures s[..|s|] == s
  {
  }

  lemma StandingIs(rows: Rows, added: seq<Host>, kept: seq<bool>, pairs: Pairs, gone: seq<nat>, made: seq<int>, f: Host)
    requires |pairs| == |kept| && Ascending(gone, |pairs|)
    ensures Standing(rows, added, kept, pairs, gone, made, f)
      == KeptStanding(rows, pairs, kept, |pairs|, f) + SwapStanding(rows, pairs, gone, Smaller(|gone|, |added|), f)
         + MadeStanding(rows, made, |made|, f)
  {
  }

  lemma LostIs(olds: seq<Host>, added: seq<Host>, kept: seq<bool>, pairs: Pairs, gone: seq<nat>, f: Host)
    requires |pairs| == |kept| == |olds| && Ascending(gone, |pairs|)
    ensures Lost(olds, added, kept, pairs, gone, f)
      == KeptLost(olds, pairs, kept, |pairs|, f) + SwapLost(added, pairs, gone, Smaller(|gone|, |added|), f)
  {
  }

  lemma SwapHold(before: Rows, after: Rows, tombstones: map<int, int>, inbound: int, gone: seq<nat>, added: seq<Host>,
                 pairs: Pairs, made: seq<int>)
    requires Result(before, after, tombstones, inbound, gone, added, pairs, made)
    ensures HoldsNew(after, added, pairs, gone, Smaller(|gone|, |added|))
    ensures HoldsMade(after, added, Smaller(|gone|, |added|), made)
  {
  }

  lemma KeptHold(before: Rows, after: Rows, tombstones: map<int, int>, inbound: int, olds: seq<Host>,
                 gone: seq<nat>, added: seq<Host>, kept: seq<bool>, pairs: Pairs)
    requires |pairs| == |olds| == |kept| && Sound(before, inbound, olds, pairs) && Ascending(gone, |pairs|)
    requires forall i | 0 <= i < |olds| :: i in gone <==> !kept[i]
    requires Swapped(before, after, tombstones, inbound, gone, added, pairs, |gone|)
    ensures Holds(after, olds, pairs, kept)
  {
    forall i | 0 <= i < |pairs| && kept[i] && pairs[i].Some?
      ensures RowHas(after, pairs[i], Fields(olds[i]))
    {
      SoundAt(before, inbound, olds, pairs, i);
      forall k | 0 <= k < |gone|
        ensures pairs[gone[k]] != pairs[i]
      {
        assert gone[k] in gone;
        assert gone[k] != i;
        SoundApart(before, inbound, olds, pairs, gone[k], i);
      }
    }
  }

  lemma SoundAt(rows: Rows, inbound: int, entries: seq<Host>, pairs: Pairs, i: nat)
    requires Sound(rows, inbound, entries, pairs) && i < |pairs| && pairs[i].Some?
    ensures Untouched(rows, inbound, entries[i], pairs[i].value)
  {
  }

  lemma SoundApart(rows: Rows, inbound: int, entries: seq<Host>, pairs: Pairs, i: nat, j: nat)
    requires Sound(rows, inbound, entries, pairs) && i < |pairs| && j < |pairs| && i != j && pairs[j].Some?
    ensures pairs[i] != pairs[j]
  {
    if i < j {
      assert pairs[i].Some? ==> pairs[j] != pairs[i];
    }
  }

  /** Every entry that keeps its row or takes over a changed one finds that row. */
  ghost predicate Complete(pairs: Pairs, kept: seq<bool>, gone: seq<nat>, added: seq<Host>)
    requires |pairs| == |kept| && Ascending(gone, |pairs|)
  {
    && (forall i | 0 <= i < |pairs| && kept[i] :: pairs[i].Some?)
    && (forall k | 0 <= k < Smaller(|gone|, |added|) :: pairs[gone[k]].Some?)
  }

  lemma {:induction false} KeptLostAt(olds: seq<Host>, pairs: Pairs, kept: seq<bool>, n: nat, f: Host)
    requires n <= |pairs| == |kept| == |olds|
    ensures KeptLost(olds, pairs, kept, n, f) == 0 <==> forall i | 0 <= i < n ::
      !(kept[i] && pairs[i].None? && Fields(olds[i]) == f)
  {
    hide Fields;
    if n > 0 {
      KeptLostAt(olds, pairs, kept, n - 1, f);
    }
  }

  lemma {:induction false} SwapLostAt(added: seq<Host>, pairs: Pairs, gone: seq<nat>, n: nat, f: Host)
    requires Ascending(gone, |pairs|) && n <= |gone| && n <= |added|
    ensures SwapLost(added, pairs, gone, n, f) == 0 <==> forall k | 0 <= k < n ::
      !(pairs[gone[k]].None? && Fields(added[k]) == f)
  {
    hide Fields;
    if n > 0 {
      SwapLostAt(added, pairs, gone, n - 1, f);
    }
  }

  /** The rows become exactly the new list when, and only when, every row they need is there. */
  lemma ExactlyCarried(before: Rows, after: Rows, tombstones: map<int, int>, inbound: int, olds: seq<Host>,
                       news: seq<Host>, gone: seq<nat>, added: seq<Host>, kept: seq<bool>, pairs: Pairs, made: seq<int>)
    requires |pairs| == |olds| && Sound(before, inbound, olds, pairs)
    requires Changes(olds, news, gone, added, kept)
    requires Result(before, after, tombstones, inbound, gone, added, pairs, made)
    ensures (forall f :: Standing(after, added, kept, pairs, gone, made, f) == Count(news, f)) <==>
      Complete(pairs, kept, gone, added)
  {
    var n := Smaller(|gone|, |added|);
    hide Sound, Result, Count, Standing, Fields, Changes;
    assert |kept| == |olds| && Ascending(gone, |pairs|) by {
      Shape(before, after, tombstones, inbound, olds, news, gone, added, kept, pairs, made);
    }
    forall f
      ensures Standing(after, added, kept, pairs, gone, made, f) == Count(news, f) <==>
        KeptLost(olds, pairs, kept, |pairs|, f) == 0 && SwapLost(added, pairs, gone, n, f) == 0
    {
      ListCarried(before, after, tombstones, inbound, olds, news, gone, added, kept, pairs, made, f);
    }
    forall f
      ensures Complete(pairs, kept, gone, added) ==>
        KeptLost(olds, pairs, kept, |pairs|, f) == 0 && SwapLost(added, pairs, gone, n, f) == 0
    {
      KeptLostAt(olds, pairs, kept, |pairs|, f);
      SwapLostAt(added, pairs, gone, n, f);
    }
    if !Complete(pairs, kept, gone, added) {
      var f := SomeLost(olds, pairs, kept, added, gone);
      assert Standing(after, added, kept, pairs, gone, made, f) != Count(news, f);
    }
  }

  lemma SomeLost(olds: seq<Host>, pairs: Pairs, kept: seq<bool>, added: seq<Host>, gone: seq<nat>) returns (f: Host)
    requires |pairs| == |kept| == |olds| && Ascending(gone, |pairs|) && !Complete(pairs, kept, gone, added)
    ensures KeptLost(olds, pairs, kept, |pairs|, f) > 0
      || SwapLost(added, pairs, gone, Smaller(|gone|, |added|), f) > 0
  {
    var n := Smaller(|gone|, |added|);
    hide Fields, KeptLost, SwapLost;
    if i :| 0 <= i < |pairs| && kept[i] && pairs[i].None? {
      f := Fields(olds[i]);
      KeptLostAt(olds, pairs, kept, |pairs|, f);
    } else {
      var k :| 0 <= k < n && pairs[gone[k]].None?;
      f := Fields(added[k]);
      SwapLostAt(added, pairs, gone, n, f);
    }
  }

  lemma Shape(before: Rows, after: Rows, tombstones: map<int, int>, inbound: int, olds: seq<Host>, news: seq<Host>,
              gone: seq<nat>, added: seq<Host>, kept: seq<bool>, pairs: Pairs, made: seq<int>)
    requires Changes(olds, news, gone, added, kept)
      && Result(before, after, tombstones, inbound, gone, added, pairs, made)
    ensures |kept| == |olds| && Ascending(gone, |pairs|)
  {
  }

  /** Whatever the lists, a synchronisation never touches a row without server names. */
  lemma NamelessStays(before: Rows, after: Rows, tombstones: map<int, int>, inbound: int, olds: seq<Host>,
                      places: seq<nat>, groups: seq<string>, eps: seq<ProxyEntry>, gone: seq<nat>, added: seq<Host>,
                      pairs: Pairs, made: seq<int>, r: int)
    requires AreImports(inbound, olds, places, groups, eps) && |pairs| == |olds| && Sound(before, inbound, olds, pairs)
    requires Result(before, after, tombstones, inbound, gone, added, pairs, made)
    requires r in before && before[r].snis == Nil
    ensures r in after && after[r] == before[r]
  {
    hide Made, Imported;
    forall k | 0 <= k < |gone|
      ensures pairs[gone[k]] != Some(r)
    {
      var i := gone[k];
      if pairs[i] == Some(r) {
        SoundAt(before, inbound, olds, pairs, i);
        SameExact(before[r], olds[i]);
        ImportedNames(inbound, places[i], groups[i], eps[i]);
      }
    }
  }
}

/** Turning the kernel's resettable counters into charges (internal/amneziawgkern/stats.go). */
module Collector {
  import opened Text
  import opened KernelConfig

  datatype Counters = Counters(rx: nat, tx: nat)

  datatype PeerStat = PeerStat(publicKey: string, counters: Counters)

  datatype Charge = Charge(publicKey: string, up: nat, down: nat)

  type Baselines = map<string, Counters>

  function Key(iface: string, publicKey: string): string { iface + "/" + publicKey }

  /** An interface name: it carries no slash. */
  predicate PlainIface(iface: string) { '/' !in iface }

  /** Under plain interface names no interface's prefix covers another's keys, whatever the
      public keys hold. */
  lemma PrefixSeparates(iface: string, other: string, publicKey: string)
    requires PlainIface(iface) && PlainIface(other)
    ensures iface + "/" <= Key(other, publicKey) <==> iface == other
  {
    var k, p := Key(other, publicKey), iface + "/";
    assert p[|iface|] == '/' && k[|other|] == '/';
    assert forall i | 0 <= i < |iface| :: p[i] == iface[i] && iface[i] != '/';
    assert forall i | 0 <= i < |other| :: k[i] == other[i] && other[i] != '/';
    assert iface == other ==> k[..|iface| + 1] == p;
    assert p <= k ==> |iface| == |other| && iface == p[..|iface|] && other == k[..|other|];
  }

  lemma KeyInjective(iface: string, pk: string, other: string, pk': string)
    requires PlainIface(iface) && PlainIface(other) && Key(iface, pk) == Key(other, pk')
    ensures iface == other && pk == pk'
  {
    assert Key(iface, pk)[..|iface| + 1] == iface + "/";
    PrefixSeparates(iface, other, pk');
    assert Key(iface, pk)[|iface| + 1..] == pk && Key(other, pk')[|iface| + 1..] == pk';
  }

  lemma {:induction false} DigitsHaveNoSlash(n: nat)
    ensures '/' !in Digits(n)
  {
    if n >= 10 {
      DigitsHaveNoSlash(n / 10);
    }
  }

  /** The interfaces of two inbounds never share a prefix: xui-awg1 is not xui-awg10. */
  lemma InboundsSeparate(a: nat, b: nat, publicKey: string)
    ensures PlainIface(InterfaceName(a)) && PlainIface(InterfaceName(b))
    ensures InterfaceName(a) + "/" <= Key(InterfaceName(b), publicKey) <==> a == b
  {
    DigitsHaveNoSlash(a);
    DigitsHaveNoSlash(b);
    PrefixSeparates(InterfaceName(a), InterfaceName(b), publicKey);
    if InterfaceName(a) == InterfaceName(b) {
      InterfaceNameInjective(a, b);
    }
  }

  // ---- Charges ---------------------------------------------------------------

  /** What one counter has to be charged for: its growth, or all of it after a reset. */
  function Since(prev: Option<nat>, now: nat): (charge: nat)
    ensures charge <= now
    ensures charge == now || (prev.Some? && prev.value + charge == now)
  {
    if prev.None? || now < prev.value then now else now - prev.value
  }

  function ChargeFor(last: Baselines, iface: string, s: PeerStat): Charge {
    var k := Key(iface, s.publicKey);
    if k in last then
      Charge(s.publicKey, Since(Some(last[k].rx), s.counters.rx), Since(Some(last[k].tx), s.counters.tx))
    else Charge(s.publicKey, s.counters.rx, s.counters.tx)
  }

  /** The baselines after the first n stats of a poll. */
  function Recorded(last: Baselines, iface: string, stats: seq<PeerStat>, n: nat): Baselines
    requires n <= |stats|
  {
    if n == 0 then last
    else Recorded(last, iface, stats, n - 1)[Key(iface, stats[n - 1].publicKey) := stats[n - 1].counters]
  }

  /** What the first n stats charge a peer with, in all. */
  function Charged(last: Baselines, iface: string, stats: seq<PeerStat>, n: nat, publicKey: string): Counters
    requires n <= |stats|
  {
    if n == 0 then Counters(0, 0)
    else
      var before := Charged(last, iface, stats, n - 1, publicKey);
      if stats[n - 1].publicKey != publicKey then before
      else
        var c := ChargeFor(Recorded(last, iface, stats, n - 1), iface, stats[n - 1]);
        Counters(before.rx + c.up, before.tx + c.down)
  }

  /** What a list of charges sums up to for a peer. */
  function Total(charges: seq<Charge>, publicKey: string): Counters {
    if charges == [] then Counters(0, 0)
    else
      var before, c := Total(charges[..|charges| - 1], publicKey), charges[|charges| - 1];
      if c.publicKey == publicKey then Counters(before.rx + c.up, before.tx + c.down) else before
  }

  lemma TotalAppend(charges: seq<Charge>, c: Charge, publicKey: string)
    ensures var before := Total(charges, publicKey);
      Total(charges + [c], publicKey)
      == if c.publicKey == publicKey then Counters(before.rx + c.up, before.tx + c.down) else before
  {
    assert (charges + [c])[..|charges|] == charges;
  }

  /** No baseline of another interface differs. */
  ghost predicate OnlyIface<T>(before: map<string, T>, after: map<string, T>, iface: string) {
    forall k | !(iface + "/" <= k) :: (k in before <==> k in after) && (k in before ==> before[k] == after[k])
  }

  predicate NoneOf<T>(m: map<string, T>, iface: string) { forall k | k in m :: !(iface + "/" <= k) }

  class Collector {
    var last: Baselines
    var endpoints: map<string, seq<string>>
    var emails: map<string, string>
    var handshakes: map<string, int>

    constructor ()
      ensures last == map[] && endpoints == map[] && emails == map[] && handshakes == map[]
    {
      last, endpoints, emails, handshakes := map[], map[], map[], map[];
    }

    /** One poll: every listed peer is charged since its baseline, which becomes its counter. */
    method Delta(iface: string, stats: seq<PeerStat>) returns (out: seq<Charge>)
      modifies this`last
      ensures last == Recorded(old(last), iface, stats, |stats|) && OnlyIface(old(last), last, iface)
      ensures forall pk :: Total(out, pk) == Charged(old(last), iface, stats, |stats|, pk)
      ensures forall c | c in out :: c.up != 0 || c.down != 0
    {
      out := [];
      for n := 0 to |stats|
        invariant last == Recorded(old(last), iface, stats, n) && OnlyIface(old(last), last, iface)
        invariant forall pk :: Total(out, pk) == Charged(old(last), iface, stats, n, pk)
        invariant forall c | c in out :: c.up != 0 || c.down != 0
      {
        var s := stats[n];
        var k := Key(iface, s.publicKey);
        assert k[..|iface| + 1] == iface + "/";
        var up, down: nat := s.counters.rx, s.counters.tx;
        if k in last {
          up := if s.counters.rx - last[k].rx < 0 then s.counters.rx else s.counters.rx - last[k].rx;
          down := if s.counters.tx - last[k].tx < 0 then s.counters.tx else s.counters.tx - last[k].tx;
        }
        ghost var c := ChargeFor(last, iface, s);
        assert c == Charge(s.publicKey, up, down);
        last := last[k := s.counters];
        if up != 0 || down != 0 {
          ghost var before := out;
          out := out + [Charge(s.publicKey, up, down)];
          forall pk
            ensures Total(out, pk) == Charged(old(last), iface, stats, n + 1, pk)
          {
            TotalAppend(before, c, pk);
          }
        }
      }
    }

    /** An adopted interface starts from what its counters show. */
    method Prime(iface: string, stats: seq<PeerStat>)
      modifies this`last
      ensures last == Recorded(Without(old(last), iface), iface, stats, |stats|)
      ensures OnlyIface(old(last), last, iface)
    {
      last := Without(last, iface);
      for n := 0 to |stats|
        invariant last == Recorded(Without(old(last), iface), iface, stats, n)
        invariant OnlyIface(old(last), last, iface)
      {
        assert Key(iface, stats[n].publicKey)[..|iface| + 1] == iface + "/";
        last := last[Key(iface, stats[n].publicKey) := stats[n].counters];
      }
    }

    /** SetEmails records the clients of one interface's peers, and drops whatever is kept of
        its peers that have none: their baselines too. */
    method SetEmails(iface: string, byPublicKey: map<string, string>)
      modifies this
      ensures last == Pruned(old(last), iface, Active(byPublicKey))
      ensures endpoints == Pruned(old(endpoints), iface, Active(byPublicKey))
      ensures handshakes == Pruned(old(handshakes), iface, Active(byPublicKey))
      ensures forall pk :: Key(iface, pk) in emails <==> pk in Active(byPublicKey)
      ensures forall pk | pk in Active(byPublicKey) :: emails[Key(iface, pk)] == byPublicKey[pk]
      ensures OnlyIface(old(emails), emails, iface)
    {
      hide Active, Pruned, EmailsOf, OnlyIface, Key;
      var active := Active(byPublicKey);
      last := Pruned(last, iface, active);
      endpoints := Pruned(endpoints, iface, active);
      handshakes := Pruned(handshakes, iface, active);
      EmailsAre(emails, iface, byPublicKey);
      emails := Pruned(emails, iface, active) + EmailsOf(iface, byPublicKey);
    }

    /** Forget: nothing is kept of the interface, and everything of the others. */
    method Forget(iface: string)
      modifies this
      ensures NoneOf(last, iface) && NoneOf(endpoints, iface) && NoneOf(emails, iface) && NoneOf(handshakes, iface)
      ensures last == Without(old(last), iface)
      ensures OnlyIface(old(last), last, iface) && OnlyIface(old(endpoints), endpoints, iface)
      ensures OnlyIface(old(emails), emails, iface) && OnlyIface(old(handshakes), handshakes, iface)
    {
      last := Without(last, iface);
      endpoints := Without(endpoints, iface);
      emails := Without(emails, iface);
      handshakes := Without(handshakes, iface);
    }
  }

  /** The peers SetEmails keeps: those with a key and an email. */
  function Active(byPublicKey: map<string, string>): (active: set<string>) {
    set pk | pk in byPublicKey && pk != "" && byPublicKey[pk] != ""
  }

  /** The map without the entries of one interface's peers that are not active. */
  function Pruned<T>(m: map<string, T>, iface: string, active: set<string>): (r: map<string, T>)
    ensures OnlyIface(m, r, iface)
    ensures forall pk :: Key(iface, pk) in r <==> Key(iface, pk) in m && pk in active
    ensures forall k | k in r :: k in m && r[k] == m[k]
  {
    KeyTails(iface);
    map k | k in m && (!(iface + "/" <= k) || k[|iface| + 1..] in active) :: m[k]
  }

  lemma KeyTails(iface: string)
    ensures forall pk :: iface + "/" <= Key(iface, pk) && Key(iface, pk)[|iface| + 1..] == pk
  {
    forall pk
      ensures iface + "/" <= Key(iface, pk) && Key(iface, pk)[|iface| + 1..] == pk
    {
      assert Key(iface, pk)[..|iface| + 1] == iface + "/";
    }
  }

  /** The emails of an interface's active peers, under their keys. */
  function EmailsOf(iface: string, byPublicKey: map<string, string>): (m: map<string, string>)
    ensures forall pk | pk in Active(byPublicKey) :: Key(iface, pk) in m && m[Key(iface, pk)] == byPublicKey[pk]
    ensures forall k | k in m :: iface + "/" <= k
  {
    KeyTails(iface);
    map pk | pk in Active(byPublicKey) :: Key(iface, pk) := byPublicKey[pk]
  }

  lemma EmailsAre(before: map<string, string>, iface: string, byPublicKey: map<string, string>)
    ensures var after := Pruned(before, iface, Active(byPublicKey)) + EmailsOf(iface, byPublicKey);
      && (forall pk :: Key(iface, pk) in after <==> pk in Active(byPublicKey))
      && (forall pk | pk in Active(byPublicKey) :: after[Key(iface, pk)] == byPublicKey[pk])
      && OnlyIface(before, after, iface)
  {
    var pruned, own := Pruned(before, iface, Active(byPublicKey)), EmailsOf(iface, byPublicKey);
    var after := pruned + own;
    EmailKeys(iface, byPublicKey);
    hide Pruned, EmailsOf, Active, Key;
    forall k | !(iface + "/" <= k)
      ensures (k in before <==> k in after) && (k in before ==> before[k] == after[k])
    {
      assert k !in own;
    }
  }

  lemma EmailKeys(iface: string, byPublicKey: map<string, string>)
    ensures forall pk :: Key(iface, pk) in EmailsOf(iface, byPublicKey) ==> pk in Active(byPublicKey)
  {
    KeyTails(iface);
  }

  /** The map without the entries of one interface. */
  function Without<T>(m: map<string, T>, iface: string): (r: map<string, T>)
    ensures NoneOf(r, iface)
  {
    map k | k in m && !(iface + "/" <= k) :: m[k]
  }

  // ---- Runs ------------------------------------------------------------------

  /** A peer of an interface. */
  datatype Id = Id(iface: string, publicKey: string)

  const ZERO: Counters := Counters(0, 0)

  function Plus(a: Counters, b: Counters): Counters { Counters(a.rx + b.rx, a.tx + b.tx) }

  /** The account of a peer since it was last primed: what it moved, what was reported of it,
      and how much of that twice. What its counter still shows of a dropped baseline will be
      reported again. It is exact until a counter goes back with something unreported. */
  datatype Meter = Meter(moved: Counters, reported: Counters, excess: Counters, dropped: Counters, exact: bool)

  const FRESH: Meter := Meter(ZERO, ZERO, ZERO, ZERO, true)

  /** The kernel's counters, the collector's baselines and the meters of all peers. */
  datatype World = World(kernel: map<Id, Counters>, last: Baselines, meters: map<Id, Meter>)

  datatype Event =
    | Grow(id: Id, rx: nat, tx: nat)
    | Reset(id: Id)
    | Poll(iface: string, listing: seq<string>)
    | PrimeAdopted(iface: string, listing: seq<string>)
    | ForgetLink(iface: string)
    | SetEmails(iface: string, active: set<string>)

  /** One peer of the world: its counter if the kernel has it, its baseline, its meter. */
  datatype Peer = Peer(now: Option<Counters>, base: Option<Counters>, meter: Meter)

  function Lookup<K, V>(m: map<K, V>, k: K): Option<V> { if k in m then Some(m[k]) else None }

  function MeterOf(w: World, id: Id): Meter { if id in w.meters then w.meters[id] else FRESH }

  function PeerOf(w: World, id: Id): Peer {
    Peer(Lookup(w.kernel, id), Lookup(w.last, Key(id.iface, id.publicKey)), MeterOf(w, id))
  }

  function OrZero(c: Option<Counters>): Counters { if c.Some? then c.value else ZERO }

  /** What a poll would charge the peer with. */
  function Pending(p: Peer): Counters {
    var now := OrZero(p.now);
    if p.base.None? then now else Counters(Since(Some(p.base.value.rx), now.rx), Since(Some(p.base.value.tx), now.tx))
  }

  function Within(base: nat, now: nat): nat { if base <= now then base else 0 }

  /** What of its baseline the counter still shows: nothing of one that is ahead of it. */
  function Shown(p: Peer): Counters {
    if p.base.None? then ZERO
    else Counters(Within(p.base.value.rx, OrZero(p.now).rx), Within(p.base.value.tx, OrZero(p.now).tx))
  }

  /** The listing names each of the interface's peers once, in some order. */
  predicate Lists(w: World, iface: string, listing: seq<string>) {
    && (forall i, j | 0 <= i < j < |listing| :: listing[i] != listing[j])
    && (forall i | 0 <= i < |listing| :: Id(iface, listing[i]) in w.kernel)
    && (forall id | id in w.kernel && id.iface == iface :: id.publicKey in listing)
  }

  function Stats(w: World, iface: string, listing: seq<string>): (stats: seq<PeerStat>)
    ensures |stats| == |listing|
    ensures forall i | 0 <= i < |stats| ::
      stats[i] == PeerStat(listing[i], OrZero(Lookup(w.kernel, Id(iface, listing[i]))))
  {
    seq(|listing|, i requires 0 <= i < |listing| =>
      PeerStat(listing[i], OrZero(Lookup(w.kernel, Id(iface, listing[i])))))
  }

  /** Bytes move; a peer's counters go back to zero, because its peer or its link was made
      anew; a poll charges; an adopted link is primed; a link is deleted and forgotten, which
      loses what it had not reported; a poll's peers without an email lose their baselines. */
  function Step(w: World, ev: Event): World {
    match ev
    case Grow(id, rx, tx) =>
      if !PlainIface(id.iface) then w
      else
        var m, moved := MeterOf(w, id), Counters(rx, tx);
        w.(kernel := w.kernel[id := Plus(OrZero(Lookup(w.kernel, id)), moved)],
           meters := w.meters[id := m.(moved := Plus(m.moved, moved))])
    case Reset(id) =>
      w.(kernel := w.kernel - {id}, meters := w.meters[id := MeterOf(w, id).(dropped := ZERO, exact := false)])
    case Poll(iface, listing) =>
      if !PlainIface(iface) || !Lists(w, iface, listing) then w
      else
        var stats := Stats(w, iface, listing);
        w.(last := Recorded(w.last, iface, stats, |stats|),
           meters := map id | id in w.meters.Keys ::
             if id.iface == iface then Reported(w.meters[id], Charged(w.last, iface, stats, |stats|, id.publicKey))
             else w.meters[id])
    case PrimeAdopted(iface, listing) =>
      if !PlainIface(iface) || !Lists(w, iface, listing) then w
      else
        var stats := Stats(w, iface, listing);
        w.(last := Recorded(Without(w.last, iface), iface, stats, |stats|),
           meters := map id | id in w.meters.Keys && id.iface != iface :: w.meters[id])
    case ForgetLink(iface) =>
      if !PlainIface(iface) then w
      else
        w.(last := Without(w.last, iface),
           kernel := map id | id in w.kernel.Keys && id.iface != iface :: w.kernel[id],
           meters := map id | id in w.meters.Keys ::
             if id.iface == iface then Forgotten(PeerOf(w, id)) else w.meters[id])
    case SetEmails(iface, active) =>
      if !PlainIface(iface) then w
      else
        w.(last := Pruned(w.last, iface, active),
           meters := map id | id in w.meters.Keys + w.kernel.Keys ::
             if id.iface == iface && id.publicKey !in active then Unbased(PeerOf(w, id)) else MeterOf(w, id))
  }

  function Reported(m: Meter, charged: Counters): Meter {
    m.(reported := Plus(m.reported, charged), excess := Plus(m.excess, m.dropped), dropped := ZERO)
  }

  function Forgotten(p: Peer): Meter {
    p.meter.(exact := p.meter.exact && Pending(p) == p.meter.dropped, dropped := ZERO)
  }

  function Unbased(p: Peer): Meter { p.meter.(dropped := Plus(p.meter.dropped, Shown(p))) }

  // ---- One peer of a run -----------------------------------------------------

  /** What a step is to one peer. */
  datatype Fate = Untouched | Moves(moved: Counters) | Restarts | Charges | Primes | Forgets | Prunes

  function FateOf(w: World, ev: Event, id: Id): Fate {
    match ev
    case Grow(other, rx, tx) => if other == id then Moves(Counters(rx, tx)) else Untouched
    case Reset(other) => if other == id then Restarts else Untouched
    case Poll(iface, listing) =>
      if iface == id.iface && Lists(w, iface, listing) && id in w.kernel then Charges else Untouched
    case PrimeAdopted(iface, listing) => if iface == id.iface && Lists(w, iface, listing) then Primes else Untouched
    case ForgetLink(iface) => if iface == id.iface then Forgets else Untouched
    case SetEmails(iface, active) => if iface == id.iface && id.publicKey !in active then Prunes else Untouched
  }

  function Next(p: Peer, fate: Fate): Peer {
    match fate
    case Untouched => p
    case Moves(c) => p.(now := Some(Plus(OrZero(p.now), c)), meter := p.meter.(moved := Plus(p.meter.moved, c)))
    case Restarts => p.(now := None, meter := p.meter.(dropped := ZERO, exact := false))
    case Charges => p.(base := p.now, meter := Reported(p.meter, Pending(p)))
    case Primes => p.(base := p.now, meter := FRESH)
    case Forgets => p.(now := None, base := None, meter := Forgotten(p))
    case Prunes => p.(base := None, meter := Unbased(p))
  }

  /** Of one counter: nothing is reported beyond what was moved and what was counted twice;
      until it goes back, everything moved is reported or pending. What will be counted twice is
      what it shows of a baseline that is gone. */
  predicate FairWay(base: Option<nat>, now: nat, moved: nat, reported: nat, excess: nat, dropped: nat, exact: bool) {
    var pending := Since(base, now);
    && reported + pending <= moved + excess + dropped && dropped <= pending
    && (dropped != 0 ==> base.None?)
    && (exact ==> reported + pending == moved + excess + dropped && (base.Some? ==> base.value <= now))
  }

  function BaseRx(p: Peer): Option<nat> { if p.base.None? then None else Some(p.base.value.rx) }

  function BaseTx(p: Peer): Option<nat> { if p.base.None? then None else Some(p.base.value.tx) }

  predicate Fair(p: Peer) {
    var m, now := p.meter, OrZero(p.now);
    && FairWay(BaseRx(p), now.rx, m.moved.rx, m.reported.rx, m.excess.rx, m.dropped.rx, m.exact)
    && FairWay(BaseTx(p), now.tx, m.moved.tx, m.reported.tx, m.excess.tx, m.dropped.tx, m.exact)
  }

  ghost predicate Inv(w: World) {
    && (forall id: Id | PlainIface(id.iface) :: Fair(PeerOf(w, id)))
    && (forall id | id in w.kernel :: PlainIface(id.iface))
  }

  /** A poll's listing records each listed peer's counters and leaves every other key. */
  lemma {:induction false} RecordedAt(w: World, last: Baselines, iface: string, listing: seq<string>, n: nat, id: Id)
    requires n <= |listing| && PlainIface(iface) && PlainIface(id.iface)
    requires forall i | 0 <= i < |listing| :: Id(iface, listing[i]) in w.kernel
    ensures var k := Key(id.iface, id.publicKey);
      Lookup(Recorded(last, iface, Stats(w, iface, listing), n), k)
      == if id.iface == iface && id.publicKey in listing[..n] then Lookup(w.kernel, id) else Lookup(last, k)
  {
    if n > 0 {
      RecordedAt(w, last, iface, listing, n - 1, id);
      assert listing[..n] == listing[..n - 1] + [listing[n - 1]];
      if Key(iface, listing[n - 1]) == Key(id.iface, id.publicKey) {
        KeyInjective(iface, listing[n - 1], id.iface, id.publicKey);
      }
      hide Key, Stats;
    }
  }

  /** A poll charges each listed peer with exactly what was pending, and no other peer. */
  lemma {:induction false} ChargedAt(w: World, iface: string, listing: seq<string>, n: nat, pk: string)
    requires n <= |listing| && PlainIface(iface)
    requires forall i | 0 <= i < |listing| :: Id(iface, listing[i]) in w.kernel
    requires forall i, j | 0 <= i < j < |listing| :: listing[i] != listing[j]
    ensures Charged(w.last, iface, Stats(w, iface, listing), n, pk)
      == if pk in listing[..n] then Pending(PeerOf(w, Id(iface, pk))) else ZERO
  {
    if n > 0 {
      ChargedAt(w, iface, listing, n - 1, pk);
      assert listing[..n] == listing[..n - 1] + [listing[n - 1]];
      if listing[n - 1] == pk {
        RecordedAt(w, w.last, iface, listing, n - 1, Id(iface, pk));
      }
      hide Key, Stats, Recorded;
    }
  }

  /** A step is to each peer what its fate says. */
  lemma PeerStep(w: World, ev: Event, id: Id)
    requires Inv(w) && PlainIface(id.iface)
    ensures PeerOf(Step(w, ev), id) == Next(PeerOf(w, id), FateOf(w, ev, id))
  {
    assert Fair(PeerOf(w, id));
    hide Inv, Fair;
    match ev {
      case Grow(other, rx, tx) => CountersStep(w, ev, id);
      case Reset(other) => CountersStep(w, ev, id);
      case Poll(iface, listing) =>
        if PlainIface(iface) && Lists(w, iface, listing) {
          PollStep(w, iface, listing, id);
        }
      case PrimeAdopted(iface, listing) =>
        if PlainIface(iface) && Lists(w, iface, listing) {
          PrimeStep(w, iface, listing, id);
        }
      case ForgetLink(iface) => ForgetStep(w, iface, id);
      case SetEmails(iface, active) => PruneStep(w, iface, active, id);
    }
  }

  lemma Refused(w: World, ev: Event)
    requires match ev
      case Poll(iface, listing) => !PlainIface(iface) || !Lists(w, iface, listing)
      case PrimeAdopted(iface, listing) => !PlainIface(iface) || !Lists(w, iface, listing)
      case ForgetLink(iface) => !PlainIface(iface)
      case SetEmails(iface, _) => !PlainIface(iface)
      case _ => false
    ensures Step(w, ev) == w
  {
  }

  lemma CountersStep(w: World, ev: Event, id: Id)
    requires PlainIface(id.iface) && (ev.Grow? || ev.Reset?)
    ensures PeerOf(Step(w, ev), id) == Next(PeerOf(w, id), FateOf(w, ev, id))
  {
    hide Key;
  }

  lemma PollStep(w: World, iface: string, listing: seq<string>, id: Id)
    requires PlainIface(iface) && PlainIface(id.iface) && Lists(w, iface, listing) && Fair(PeerOf(w, id))
    ensures var ev := Poll(iface, listing); PeerOf(Step(w, ev), id) == Next(PeerOf(w, id), FateOf(w, ev, id))
  {
    hide Step, MeterOf, Key, Fair, PlainIface, Lists, Pending, Reported;
    PollBase(w, iface, listing, id);
    PollMeter(w, iface, listing, id);
    NeverSeen(PeerOf(w, id));
    ReportedNothing(MeterOf(w, id));
  }

  lemma PollBase(w: World, iface: string, listing: seq<string>, id: Id)
    requires PlainIface(iface) && PlainIface(id.iface) && Lists(w, iface, listing)
    ensures var after, k := Step(w, Poll(iface, listing)), Key(id.iface, id.publicKey);
      && after.kernel == w.kernel
      && Lookup(after.last, k)
         == if iface == id.iface && id in w.kernel then Lookup(w.kernel, id) else Lookup(w.last, k)
  {
    assert listing[..|listing|] == listing;
    RecordedAt(w, w.last, iface, listing, |listing|, id);
    assert iface == id.iface ==> (id in w.kernel <==> id.publicKey in listing);
    hide Key, Charged, Recorded, Stats;
  }

  lemma PollMeter(w: World, iface: string, listing: seq<string>, id: Id)
    requires PlainIface(iface) && Lists(w, iface, listing)
    ensures MeterOf(Step(w, Poll(iface, listing)), id)
      == if iface != id.iface || id !in w.meters then MeterOf(w, id)
         else Reported(MeterOf(w, id), if id in w.kernel then Pending(PeerOf(w, id)) else ZERO)
    ensures id !in w.meters ==> MeterOf(w, id) == FRESH
  {
    assert listing[..|listing|] == listing;
    ChargedAt(w, iface, listing, |listing|, id.publicKey);
    assert iface == id.iface ==> (id in w.kernel <==> id.publicKey in listing);
    hide Key, Charged, Recorded, Stats, Pending, PlainIface, Lists;
  }

  /** A peer without meter has nothing to charge, and one the kernel lacks nothing to settle. */
  lemma NeverSeen(p: Peer)
    requires Fair(p)
    ensures p.meter == FRESH ==> Pending(p) == ZERO
    ensures p.now.None? ==> p.meter.dropped == ZERO
  {
  }

  lemma ReportedNothing(m: Meter)
    ensures m.dropped == ZERO ==> Reported(m, ZERO) == m
  {
  }

  lemma PrimeStep(w: World, iface: string, listing: seq<string>, id: Id)
    requires PlainIface(iface) && PlainIface(id.iface) && Lists(w, iface, listing)
    ensures var ev := PrimeAdopted(iface, listing); PeerOf(Step(w, ev), id) == Next(PeerOf(w, id), FateOf(w, ev, id))
  {
    assert listing[..|listing|] == listing;
    RecordedAt(w, Without(w.last, iface), iface, listing, |listing|, id);
    PrefixSeparates(iface, id.iface, id.publicKey);
    hide Key, Recorded, Stats;
  }

  lemma ForgetStep(w: World, iface: string, id: Id)
    requires PlainIface(id.iface) && Fair(PeerOf(w, id))
    ensures PeerOf(Step(w, ForgetLink(iface)), id) == Next(PeerOf(w, id), FateOf(w, ForgetLink(iface), id))
  {
    hide Key, Fair, Pending;
    if PlainIface(iface) {
      WithoutAt(w.last, iface, id);
      NeverSeen(PeerOf(w, id));
      hide PlainIface, Without;
    }
  }

  lemma WithoutAt(m: Baselines, iface: string, id: Id)
    requires PlainIface(iface) && PlainIface(id.iface)
    ensures var k := Key(id.iface, id.publicKey);
      Lookup(Without(m, iface), k) == if iface == id.iface then None else Lookup(m, k)
  {
    PrefixSeparates(iface, id.iface, id.publicKey);
    hide Key;
  }

  lemma PruneStep(w: World, iface: string, active: set<string>, id: Id)
    requires PlainIface(id.iface) && Fair(PeerOf(w, id))
    ensures var ev := SetEmails(iface, active); PeerOf(Step(w, ev), id) == Next(PeerOf(w, id), FateOf(w, ev, id))
  {
    hide Step, Fair, Key, Unbased, MeterOf;
    if PlainIface(iface) {
      PrunedBase(w, iface, active, id);
      PrunedMeter(w, iface, active, id);
      NothingShown(PeerOf(w, id));
    } else {
      assert iface != id.iface;
      Refused(w, SetEmails(iface, active));
    }
  }

  lemma PrunedBase(w: World, iface: string, active: set<string>, id: Id)
    requires PlainIface(iface) && PlainIface(id.iface)
    ensures var after, k := Step(w, SetEmails(iface, active)), Key(id.iface, id.publicKey);
      && after.kernel == w.kernel
      && Lookup(after.last, k) == if iface == id.iface && id.publicKey !in active then None else Lookup(w.last, k)
  {
    PrunedAt(w.last, iface, active, id);
    hide Pruned, Key;
  }

  lemma PrunedMeter(w: World, iface: string, active: set<string>, id: Id)
    requires PlainIface(iface)
    ensures var p := PeerOf(w, id);
      MeterOf(Step(w, SetEmails(iface, active)), id)
      == if iface == id.iface && id.publicKey !in active && (id in w.meters || id in w.kernel)
         then Unbased(p) else p.meter
  {
    hide Key, Pruned, PlainIface, Unbased;
    assert id in w.kernel <==> id in w.kernel.Keys;
    assert id in w.meters <==> id in w.meters.Keys;
  }

  lemma NothingShown(p: Peer)
    ensures p.now.None? ==> Unbased(p) == p.meter
  {
  }

  lemma PrunedAt(m: Baselines, iface: string, active: set<string>, id: Id)
    requires PlainIface(iface) && PlainIface(id.iface)
    ensures var k := Key(id.iface, id.publicKey);
      Lookup(Pruned(m, iface, active), k) == if iface == id.iface && id.publicKey !in active then None else Lookup(m, k)
  {
    PrefixSeparates(iface, id.iface, id.publicKey);
    hide Key;
  }

  lemma FairKept(p: Peer, fate: Fate)
    requires Fair(p)
    ensures Fair(Next(p, fate))
  {
    hide FairWay, Since, Within;
    var m, now := p.meter, OrZero(p.now);
    var after := Next(p, fate).meter;
    match fate {
      case Untouched =>
      case Moves(c) =>
        WayMoves(BaseRx(p), now.rx, m.moved.rx, m.reported.rx, m.excess.rx, m.dropped.rx, m.exact, c.rx);
        WayMoves(BaseTx(p), now.tx, m.moved.tx, m.reported.tx, m.excess.tx, m.dropped.tx, m.exact, c.tx);
      case Restarts =>
        WayRestarts(BaseRx(p), now.rx, m.moved.rx, m.reported.rx, m.excess.rx, m.dropped.rx, m.exact, false);
        WayRestarts(BaseTx(p), now.tx, m.moved.tx, m.reported.tx, m.excess.tx, m.dropped.tx, m.exact, false);
      case Charges =>
        WayCharges(BaseRx(p), now.rx, m.moved.rx, m.reported.rx, m.excess.rx, m.dropped.rx, m.exact);
        WayCharges(BaseTx(p), now.tx, m.moved.tx, m.reported.tx, m.excess.tx, m.dropped.tx, m.exact);
        PendingWays(p);
      case Primes =>
        WayPrimes(now.rx);
        WayPrimes(now.tx);
      case Forgets =>
        PendingWays(p);
        WayRestarts(BaseRx(p), now.rx, m.moved.rx, m.reported.rx, m.excess.rx, m.dropped.rx, m.exact, after.exact);
        WayRestarts(BaseTx(p), now.tx, m.moved.tx, m.reported.tx, m.excess.tx, m.dropped.tx, m.exact, after.exact);
      case Prunes =>
        WayPrunes(BaseRx(p), now.rx, m.moved.rx, m.reported.rx, m.excess.rx, m.dropped.rx, m.exact);
        WayPrunes(BaseTx(p), now.tx, m.moved.tx, m.reported.tx, m.excess.tx, m.dropped.tx, m.exact);
    }
  }

  lemma PendingWays(p: Peer)
    ensures var now := OrZero(p.now); Pending(p) == Counters(Since(BaseRx(p), now.rx), Since(BaseTx(p), now.tx))
  {
  }

  lemma WayMoves(base: Option<nat>, now: nat, moved: nat, reported: nat, excess: nat, dropped: nat, exact: bool,
                 more: nat)
    requires FairWay(base, now, moved, reported, excess, dropped, exact)
    ensures FairWay(base, now + more, moved + more, reported, excess, dropped, exact)
  {
  }

  lemma WayRestarts(base: Option<nat>, now: nat, moved: nat, reported: nat, excess: nat, dropped: nat, exact: bool,
                    after: bool)
    requires FairWay(base, now, moved, reported, excess, dropped, exact)
    ensures !after ==> FairWay(base, 0, moved, reported, excess, 0, after)
    ensures (after ==> exact && Since(base, now) == dropped) ==> FairWay(None, 0, moved, reported, excess, 0, after)
  {
  }

  lemma WayCharges(base: Option<nat>, now: nat, moved: nat, reported: nat, excess: nat, dropped: nat, exact: bool)
    requires FairWay(base, now, moved, reported, excess, dropped, exact)
    ensures FairWay(Some(now), now, moved, reported + Since(base, now), excess + dropped, 0, exact)
    ensures now == 0 ==> FairWay(None, now, moved, reported + Since(base, now), excess + dropped, 0, exact)
  {
  }

  lemma WayPrimes(now: nat)
    ensures FairWay(Some(now), now, 0, 0, 0, 0, true) && (now == 0 ==> FairWay(None, now, 0, 0, 0, 0, true))
  {
  }

  lemma WayPrunes(base: Option<nat>, now: nat, moved: nat, reported: nat, excess: nat, dropped: nat, exact: bool)
    requires FairWay(base, now, moved, reported, excess, dropped, exact)
    ensures FairWay(None, now, moved, reported, excess, dropped + (if base.None? then 0 else Within(base.value, now)),
      exact)
  {
  }

  /** Every step keeps it. */
  lemma StepKeeps(w: World, ev: Event)
    requires Inv(w)
    ensures Inv(Step(w, ev))
  {
    hide Fair, PeerOf;
    forall id: Id | PlainIface(id.iface)
      ensures Fair(PeerOf(Step(w, ev), id))
    {
      hide Step, Next, FateOf;
      PeerStep(w, ev, id);
      FairKept(PeerOf(w, id), FateOf(w, ev, id));
    }
  }

  const EMPTY: World := World(map[], map[], map[])

  /** A run from a collector and a kernel that know nothing. */
  function Run(events: seq<Event>): (end: World) {
    if events == [] then EMPTY else Step(Run(events[..|events| - 1]), events[|events| - 1])
  }

  lemma {:induction false} RunKeeps(events: seq<Event>)
    ensures Inv(Run(events))
  {
    hide Step;
    if events == [] {
      assert Inv(EMPTY);
    } else {
      hide Inv;
      RunKeeps(events[..|events| - 1]);
      StepKeeps(Run(events[..|events| - 1]), events[|events| - 1]);
    }
  }

  /** The peer before step n of the run, and its fate in that step. */
  function At(events: seq<Event>, n: nat, id: Id): Peer
    requires n <= |events|
  {
    PeerOf(Run(events[..n]), id)
  }

  function FateIn(events: seq<Event>, n: nat, id: Id): Fate
    requires n < |events|
  {
    FateOf(Run(events[..n]), events[n], id)
  }

  lemma LifeStep(events: seq<Event>, n: nat, id: Id)
    requires n < |events| && PlainIface(id.iface)
    ensures At(events, n + 1, id) == Next(At(events, n, id), FateIn(events, n, id))
    ensures Fair(At(events, n, id)) && Fair(At(events, n + 1, id))
  {
    hide Step, PeerOf, FateOf, Next, Fair;
    assert events[..n + 1][..n] == events[..n];
    RunKeeps(events[..n]);
    RunKeeps(events[..n + 1]);
    PeerStep(Run(events[..n]), events[n], id);
  }

  // ---- What is charged -------------------------------------------------------

  /** A baseline goes of which the counter still shows something. */
  predicate Drops(p: Peer, fate: Fate) { fate.Prunes? && Shown(p) != ZERO }

  /** The peer is charged, or its counter goes back, or its account starts anew. */
  predicate Settles(fate: Fate) { fate.Charges? || fate.Restarts? || fate.Primes? || fate.Forgets? }

  /** Step i drops the baseline, and no step before n settles that. */
  ghost predicate Unsettled(events: seq<Event>, i: nat, n: nat, id: Id)
    requires i < n <= |events|
  {
    Drops(At(events, i, id), FateIn(events, i, id)) && forall k | i < k < n :: !Settles(FateIn(events, k, id))
  }

  /** Step i drops the baseline, step j charges the peer without it, and no step from then to n
      starts a new account. */
  ghost predicate Recounted(events: seq<Event>, i: nat, j: nat, n: nat, id: Id)
    requires i < j < n <= |events|
  {
    && Unsettled(events, i, j, id) && FateIn(events, j, id).Charges?
    && forall k | j < k < n :: !FateIn(events, k, id).Primes?
  }

  ghost predicate SomeUnsettled(events: seq<Event>, n: nat, id: Id)
    requires n <= |events|
  {
    exists i | 0 <= i < n :: Unsettled(events, i, n, id)
  }

  ghost predicate SomeRecounted(events: seq<Event>, n: nat, id: Id)
    requires n <= |events|
  {
    exists i, j | 0 <= i < j < n :: Recounted(events, i, j, n, id)
  }

  lemma DroppedStep(p: Peer, fate: Fate)
    requires Fair(p)
    ensures Next(p, fate).meter.dropped
      == if fate.Prunes? then Plus(p.meter.dropped, Shown(p)) else if Settles(fate) then ZERO else p.meter.dropped
    ensures Shown(p) != ZERO ==> p.meter.dropped == ZERO
  {
    hide Since;
  }

  lemma DropsOrKeeps(p: Peer, fate: Fate)
    requires Fair(p)
    ensures Next(p, fate).meter.dropped != ZERO <==> Drops(p, fate) || (p.meter.dropped != ZERO && !Settles(fate))
  {
    DroppedStep(p, fate);
    hide Next, Fair, Shown;
  }

  lemma ExceedsOrKeeps(p: Peer, fate: Fate)
    ensures Next(p, fate).meter.excess != ZERO <==>
      (fate.Charges? && p.meter.dropped != ZERO) || (p.meter.excess != ZERO && !fate.Primes?)
  {
    ExcessStep(p, fate);
    hide Next;
  }

  lemma NothingYet(events: seq<Event>, id: Id)
    ensures !SomeUnsettled(events, 0, id) && !SomeRecounted(events, 0, id) && !SomeLost(events, 0, id)
    ensures var m := At(events, 0, id).meter; m.dropped == ZERO && m.excess == ZERO && m.exact
  {
    assert events[..0] == [];
  }

  lemma ExcessStep(p: Peer, fate: Fate)
    ensures Next(p, fate).meter.excess
      == if fate.Charges? then Plus(p.meter.excess, p.meter.dropped) else if fate.Primes? then ZERO else p.meter.excess
  {
  }

  /** Something will be counted twice exactly after a dropped baseline nothing settled. */
  lemma {:induction false} DroppedTrace(events: seq<Event>, n: nat, id: Id)
    requires n <= |events| && PlainIface(id.iface)
    ensures At(events, n, id).meter.dropped != ZERO <==> SomeUnsettled(events, n, id)
  {
    hide *;
    if n == 0 {
      NothingYet(events, id);
    } else {
      DroppedTrace(events, n - 1, id);
      LifeStep(events, n - 1, id);
      DropsOrKeeps(At(events, n - 1, id), FateIn(events, n - 1, id));
      UnsettledStep(events, n, id);
    }
  }

  lemma UnsettledStep(events: seq<Event>, n: nat, id: Id)
    requires 0 < n <= |events|
    ensures var p, fate := At(events, n - 1, id), FateIn(events, n - 1, id);
      SomeUnsettled(events, n, id) <==> Drops(p, fate) || (SomeUnsettled(events, n - 1, id) && !Settles(fate))
  {
    hide At, FateIn, Drops, Settles, Unsettled;
    UnsettledNow(events, n, id);
    forall i | 0 <= i < n - 1
      ensures Unsettled(events, i, n, id) <==> Unsettled(events, i, n - 1, id) && !Settles(FateIn(events, n - 1, id))
    {
      UnsettledNext(events, i, n, id);
    }
    var before := n - 1;
    if i :| 0 <= i < before && Unsettled(events, i, before, id) {
      UnsettledNext(events, i, n, id);
    }
  }

  lemma UnsettledNow(events: seq<Event>, n: nat, id: Id)
    requires 0 < n <= |events|
    ensures Unsettled(events, n - 1, n, id) <==> Drops(At(events, n - 1, id), FateIn(events, n - 1, id))
  {
    hide At, FateIn, Drops, Settles;
  }

  lemma UnsettledNext(events: seq<Event>, i: nat, n: nat, id: Id)
    requires i < n - 1 && n <= |events|
    ensures Unsettled(events, i, n, id) <==> Unsettled(events, i, n - 1, id) && !Settles(FateIn(events, n - 1, id))
  {
    hide At, FateIn, Drops, Settles;
  }

  /** Something was counted twice exactly if the peer was polled after such a drop. */
  lemma {:induction false} ExcessTrace(events: seq<Event>, n: nat, id: Id)
    requires n <= |events| && PlainIface(id.iface)
    ensures At(events, n, id).meter.excess != ZERO <==> SomeRecounted(events, n, id)
  {
    hide *;
    if n == 0 {
      NothingYet(events, id);
    } else {
      ExcessTrace(events, n - 1, id);
      DroppedTrace(events, n - 1, id);
      LifeStep(events, n - 1, id);
      ExceedsOrKeeps(At(events, n - 1, id), FateIn(events, n - 1, id));
      RecountedStep(events, n, id);
    }
  }

  lemma RecountedStep(events: seq<Event>, n: nat, id: Id)
    requires 0 < n <= |events|
    ensures var fate := FateIn(events, n - 1, id);
      SomeRecounted(events, n, id) <==>
        (SomeUnsettled(events, n - 1, id) && fate.Charges?) || (SomeRecounted(events, n - 1, id) && !fate.Primes?)
  {
    hide At, FateIn, Unsettled, Recounted;
    if i, j :| 0 <= i < j < n && Recounted(events, i, j, n, id) {
      RecountedNext(events, i, j, n, id);
    }
    var before := n - 1;
    if i, j :| 0 <= i < j < before && Recounted(events, i, j, before, id) {
      RecountedNext(events, i, j, n, id);
    }
    if i :| 0 <= i < before && Unsettled(events, i, before, id) {
      RecountedNext(events, i, before, n, id);
    }
  }

  lemma RecountedNext(events: seq<Event>, i: nat, j: nat, n: nat, id: Id)
    requires i < j < n <= |events|
    ensures Recounted(events, i, j, n, id) <==>
      if j == n - 1 then Unsettled(events, i, n - 1, id) && FateIn(events, n - 1, id).Charges?
      else Recounted(events, i, j, n - 1, id) && !FateIn(events, n - 1, id).Primes?
  {
    hide FateIn, Unsettled;
  }

  /** A counter goes back that holds something unreported, or may hide what comes. */
  predicate Loses(p: Peer, fate: Fate) { fate.Restarts? || (fate.Forgets? && Pending(p) != p.meter.dropped) }

  /** Step i loses something, and no step before n starts a new account. */
  ghost predicate Lost(events: seq<Event>, i: nat, n: nat, id: Id)
    requires i < n <= |events|
  {
    Loses(At(events, i, id), FateIn(events, i, id)) && forall k | i < k < n :: !FateIn(events, k, id).Primes?
  }

  ghost predicate SomeLost(events: seq<Event>, n: nat, id: Id)
    requires n <= |events|
  {
    exists i | 0 <= i < n :: Lost(events, i, n, id)
  }

  lemma {:induction false} ExactTrace(events: seq<Event>, n: nat, id: Id)
    requires n <= |events| && PlainIface(id.iface)
    ensures At(events, n, id).meter.exact <==> !SomeLost(events, n, id)
  {
    hide *;
    if n == 0 {
      NothingYet(events, id);
    } else {
      ExactTrace(events, n - 1, id);
      LifeStep(events, n - 1, id);
      ExactOrLoses(At(events, n - 1, id), FateIn(events, n - 1, id));
      LostStep(events, n, id);
    }
  }

  lemma ExactOrLoses(p: Peer, fate: Fate)
    ensures Next(p, fate).meter.exact <==> !Loses(p, fate) && (p.meter.exact || fate.Primes?)
  {
    hide Pending;
  }

  lemma LostStep(events: seq<Event>, n: nat, id: Id)
    requires 0 < n <= |events|
    ensures var p, fate := At(events, n - 1, id), FateIn(events, n - 1, id);
      SomeLost(events, n, id) <==> Loses(p, fate) || (SomeLost(events, n - 1, id) && !fate.Primes?)
  {
    hide At, FateIn, Loses, Lost;
    var before := n - 1;
    LostNow(events, n, id);
    forall i | 0 <= i < before
      ensures Lost(events, i, n, id) <==> Lost(events, i, before, id) && !FateIn(events, before, id).Primes?
    {
      LostNext(events, i, n, id);
    }
    if i :| 0 <= i < before && Lost(events, i, before, id) {
      LostNext(events, i, n, id);
    }
  }

  lemma LostNow(events: seq<Event>, n: nat, id: Id)
    requires 0 < n <= |events|
    ensures Lost(events, n - 1, n, id) <==> Loses(At(events, n - 1, id), FateIn(events, n - 1, id))
  {
    hide At, FateIn, Loses;
  }

  lemma LostNext(events: seq<Event>, i: nat, n: nat, id: Id)
    requires i < n - 1 && n <= |events|
    ensures Lost(events, i, n, id) <==> Lost(events, i, n - 1, id) && !FateIn(events, n - 1, id).Primes?
  {
    hide At, FateIn, Loses;
  }

  /** In every run the bytes reported for a peer and those pending never exceed the bytes it
      moved since its account began, but for those counted twice or about to be; and they are
      equal unless a counter went back. */
  lemma Balance(events: seq<Event>, id: Id)
    requires PlainIface(id.iface)
    ensures var p := At(events, |events|, id);
      var m, sum, bound := p.meter, Plus(p.meter.reported, Pending(p)),
        Plus(Plus(p.meter.moved, p.meter.excess), p.meter.dropped);
      && sum.rx <= bound.rx && sum.tx <= bound.tx && (!SomeLost(events, |events|, id) ==> sum == bound)
      && m.reported.rx <= m.moved.rx + m.excess.rx && m.reported.tx <= m.moved.tx + m.excess.tx
      && (m.dropped != ZERO <==> SomeUnsettled(events, |events|, id))
      && (m.excess != ZERO <==> SomeRecounted(events, |events|, id))
  {
    hide *;
    AlwaysFair(events, |events|, id);
    FairMeans(At(events, |events|, id));
    ExactTrace(events, |events|, id);
    DroppedTrace(events, |events|, id);
    ExcessTrace(events, |events|, id);
  }

  lemma AlwaysFair(events: seq<Event>, n: nat, id: Id)
    requires n <= |events| && PlainIface(id.iface)
    ensures Fair(At(events, n, id))
  {
    hide Fair, PeerOf;
    RunKeeps(events[..n]);
  }

  lemma FairMeans(p: Peer)
    requires Fair(p)
    ensures var m, sum, bound := p.meter, Plus(p.meter.reported, Pending(p)),
      Plus(Plus(p.meter.moved, p.meter.excess), p.meter.dropped);
      && sum.rx <= bound.rx && sum.tx <= bound.tx && (m.exact ==> sum == bound)
      && m.reported.rx <= m.moved.rx + m.excess.rx && m.reported.tx <= m.moved.tx + m.excess.tx
  {
    hide Since;
  }

  /** Right after a poll of a peer none of whose counters went back since its account began, the
      bytes reported for it are the bytes it moved, if and only if no poll charged it after its
      baseline was dropped, with nothing in between that settled that. */
  lemma ReportedIsMoved(events: seq<Event>, id: Id)
    requires PlainIface(id.iface) && events != [] && FateIn(events, |events| - 1, id).Charges?
    requires !SomeLost(events, |events|, id)
    ensures var m := At(events, |events|, id).meter;
      && m.reported == Plus(m.moved, m.excess)
      && (m.reported == m.moved <==> !SomeRecounted(events, |events|, id))
  {
    var n := |events| - 1;
    hide *;
    Balance(events, id);
    LifeStep(events, n, id);
    JustCharged(At(events, n, id));
    PlusZero(At(events, |events|, id));
  }

  lemma JustCharged(p: Peer)
    ensures Pending(Next(p, Charges)) == ZERO && Next(p, Charges).meter.dropped == ZERO
  {
  }

  lemma PlusZero(p: Peer)
    requires var m := p.meter;
      && m.dropped == ZERO && Pending(p) == ZERO
      && Plus(m.reported, Pending(p)) == Plus(Plus(m.moved, m.excess), m.dropped)
    ensures var m := p.meter; m.reported == Plus(m.moved, m.excess) && (m.reported == m.moved <==> m.excess == ZERO)
  {
    hide Pending;
  }

  /** Such a poll reports exactly what the counter showed of the baseline too much, whatever
      the peer moved in between; for a counter that never went back that is all of it. */
  lemma PruneRecounts(events: seq<Event>, i: nat, j: nat, id: Id)
    requires PlainIface(id.iface) && i < j < |events| && Unsettled(events, i, j, id) && FateIn(events, j, id).Charges?
    ensures At(events, j + 1, id).meter.excess == Plus(At(events, i, id).meter.excess, Shown(At(events, i, id)))
    ensures !SomeLost(events, i, id) ==> At(events, i, id).base == Some(Shown(At(events, i, id)))
  {
    hide *;
    var p := At(events, i, id);
    LifeStep(events, i, id);
    UnsettledOnwards(events, i, j, id);
    DropsAll(p, FateIn(events, i, id));
    ExactTrace(events, i, id);
    KeptUntil(events, i + 1, j, id);
    LifeStep(events, j, id);
    ExcessStep(At(events, j, id), FateIn(events, j, id));
  }

  lemma UnsettledOnwards(events: seq<Event>, i: nat, j: nat, id: Id)
    requires i < j <= |events| && Unsettled(events, i, j, id)
    ensures Drops(At(events, i, id), FateIn(events, i, id)) && forall k | i + 1 <= k < j ::
      !Settles(FateIn(events, k, id))
  {
    hide At, FateIn, Drops, Settles;
  }

  lemma DropsAll(p: Peer, fate: Fate)
    requires Fair(p) && Drops(p, fate)
    ensures Next(p, fate).meter.dropped == Shown(p) && Next(p, fate).meter.excess == p.meter.excess
    ensures Next(p, fate).base.None? && (p.meter.exact ==> p.base == Some(Shown(p)))
  {
    DroppedStep(p, fate);
    hide Since;
  }

  /** Without its baseline, and with nothing to settle it, the account waits. */
  lemma {:induction false} KeptUntil(events: seq<Event>, n: nat, j: nat, id: Id)
    requires n <= j <= |events| && PlainIface(id.iface) && At(events, n, id).base.None?
    requires forall k | n <= k < j :: !Settles(FateIn(events, k, id))
    ensures var from, to := At(events, n, id), At(events, j, id);
      to.base.None? && to.meter.dropped == from.meter.dropped && to.meter.excess == from.meter.excess
  {
    hide At, FateIn, Next, Fair, Settles;
    if n < j {
      KeptUntil(events, n, j - 1, id);
      LifeStep(events, j - 1, id);
      Waits(At(events, j - 1, id), FateIn(events, j - 1, id));
    }
  }

  lemma Waits(p: Peer, fate: Fate)
    requires p.base.None? && !Settles(fate)
    ensures var next := Next(p, fate);
      && next.base.None? && next.meter.dropped == p.meter.dropped
      && next.meter.excess == p.meter.excess
  {
  }

  function ShortRun(id: Id, n: nat): seq<Event> {
    var poll := Poll(id.iface, [id.publicKey]);
    [Grow(id, n, 0), poll, SetEmails(id.iface, {}), poll]
  }

  /** A peer that moves n bytes, is charged for them, loses its email and is polled again has
      been charged for twice as many. */
  lemma ChargedTwice(id: Id, n: nat)
    requires PlainIface(id.iface)
    ensures var m := PeerOf(Run(ShortRun(id, n)), id).meter;
      m.exact && m.moved == Counters(n, 0) && m.reported == Counters(n + n, 0)
  {
    hide *;
    var events := ShortRun(id, n);
    ShortFates(id, n);
    LifeStep(events, 0, id);
    LifeStep(events, 1, id);
    LifeStep(events, 2, id);
    LifeStep(events, 3, id);
    ShortLife(n);
  }

  lemma ShortLife(n: nat)
    ensures var moved := Next(Peer(None, None, FRESH), Moves(Counters(n, 0)));
      var end := Next(Next(Next(moved, Charges), Prunes), Charges).meter;
      end.exact && end.moved == Counters(n, 0) && end.reported == Counters(n + n, 0)
  {
  }

  lemma ShortFates(id: Id, n: nat)
    requires PlainIface(id.iface)
    ensures var events := ShortRun(id, n);
      && |events| == 4 && At(events, 0, id) == Peer(None, None, FRESH) && At(events, 4, id) == PeerOf(Run(events), id)
      && FateIn(events, 0, id) == Moves(Counters(n, 0)) && FateIn(events, 1, id) == Charges
      && FateIn(events, 2, id) == Prunes && FateIn(events, 3, id) == Charges
  {
    hide At, Run, Step, Lists, PeerOf, PlainIface;
    var events := ShortRun(id, n);
    ShortStart(id, n);
    Listed(events, 0, id);
    Listed(events, 1, id);
    Listed(events, 2, id);
  }

  lemma ShortStart(id: Id, n: nat)
    ensures var events := ShortRun(id, n);
      && At(events, 0, id) == Peer(None, None, FRESH) && At(events, 4, id) == PeerOf(Run(events), id)
      && Run(events[..0]).kernel.Keys == {}
  {
    var events := ShortRun(id, n);
    assert events[..0] == [] && events[..4] == events;
    hide Step;
  }

  /** While only that peer is there, a listing of it is one of the interface. */
  lemma Listed(events: seq<Event>, n: nat, id: Id)
    requires n < |events| && PlainIface(id.iface) && Run(events[..n]).kernel.Keys <= {id}
    requires match events[n]
      case Grow(other, _, _) => other == id
      case Poll(_, _) => true
      case SetEmails(_, _) => true
      case _ => false
    ensures var kernel := Run(events[..n + 1]).kernel;
      && kernel.Keys <= {id} && (events[n].Grow? || id in Run(events[..n]).kernel ==> id in kernel)
      && (id in kernel ==> Lists(Run(events[..n + 1]), id.iface, [id.publicKey]))
  {
    assert events[..n + 1][..n] == events[..n];
    hide Run, Recorded, Charged, Pruned;
  }

  /** No step on one interface changes what is kept or pending for a peer of another. */
  lemma OthersUnchanged(w: World, ev: Event, id: Id)
    requires Inv(w) && PlainIface(id.iface)
    requires match ev
      case Grow(other, _, _) => other.iface != id.iface
      case Reset(other) => other.iface != id.iface
      case Poll(iface, _) => iface != id.iface
      case PrimeAdopted(iface, _) => iface != id.iface
      case ForgetLink(iface) => iface != id.iface
      case SetEmails(iface, _) => iface != id.iface
    ensures PeerOf(Step(w, ev), id) == PeerOf(w, id)
  {
    hide Step, PeerOf, Inv;
    PeerStep(w, ev, id);
  }
}

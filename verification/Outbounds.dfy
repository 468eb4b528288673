/** The embedded client tunnels and the egress registry that hands them out
    (internal/amneziawgnet/outbound_manager.go). */
module Outbounds {
  import opened Text

  /** One wanted tunnel: its rendered configuration, None when it does not render, the
      fingerprint of what is fixed when its netstack is built, and its normalised resolver. */
  datatype Desired = Desired(tag: string, conf: Option<string>, fingerprint: string, dns: string)

  datatype Managed = Managed(device: int, conf: string, fingerprint: string)

  /** What an open device was built with and what it runs. */
  datatype Running = Running(conf: string, fingerprint: string)

  /** Which netstacks can be built, which configurations devices accept, what a device that
      refuses one runs afterwards (the text is applied line by line, and a refused line leaves
      the earlier ones in force), and whether a port can be bound. */
  datatype Machine = Machine(builds: string -> bool, accepts: string -> bool, leaves: string -> string, binds: bool)

  // ---- What a device was sent ------------------------------------------------

  /** One configuration sent to a device: taken whole, or refused with something left of it. */
  datatype Send = Taken(conf: string) | Refused(conf: string, left: string)

  /** A device that is kept has taken its first configuration. */
  predicate Begun(sends: seq<Send>) { sends != [] && sends[0].Taken? }

  function RunsNow(sends: seq<Send>): string
    requires Begun(sends)
  {
    var last := sends[|sends| - 1];
    if last.Taken? then last.conf else last.left
  }

  /** What the manager remembers: the last configuration the device took. */
  function Remembered(sends: seq<Send>): string
    requires Begun(sends)
  {
    var last := sends[|sends| - 1];
    if last.Taken? then last.conf else Remembered(sends[..|sends| - 1])
  }

  /** Nothing was refused since the last configuration the device took. */
  predicate Settled(sends: seq<Send>) { sends != [] && sends[|sends| - 1].Taken? }

  /** A device runs what is remembered of it exactly when nothing was refused since, or when
      what the refused text left happens to be just that. */
  lemma RunsRemembered(sends: seq<Send>)
    requires Begun(sends)
    ensures RunsNow(sends) == Remembered(sends) <==>
      Settled(sends) || sends[|sends| - 1].left == Remembered(sends)
  {
  }

  lemma SentNext(sends: seq<Send>, next: Send)
    requires Begun(sends)
    ensures Begun(sends + [next])
    ensures RunsNow(sends + [next]) == if next.Taken? then next.conf else next.left
    ensures Remembered(sends + [next]) == if next.Taken? then next.conf else Remembered(sends)
    ensures Settled(sends + [next]) <==> next.Taken?
  {
    assert (sends + [next])[..|sends|] == sends;
  }

  lemma SentFirst(conf: string)
    ensures Begun([Taken(conf)]) && RunsNow([Taken(conf)]) == Remembered([Taken(conf)]) == conf
      && Settled([Taken(conf)])
  {
  }

  // ---- Tunnels ---------------------------------------------------------------

  /** The machine can run the tunnel from scratch. */
  predicate Startable(machine: Machine, d: Desired) {
    d.conf.Some? && machine.builds(d.fingerprint) && machine.accepts(d.conf.value)
  }

  /** The machine can bring the tunnel it may already have to what is wanted. */
  predicate Reachable(machine: Machine, iface: map<string, Managed>, d: Desired) {
    d.conf.Some? &&
    if d.tag in iface && iface[d.tag].fingerprint == d.fingerprint then
      iface[d.tag].conf == d.conf.value || machine.accepts(d.conf.value)
    else machine.builds(d.fingerprint) && machine.accepts(d.conf.value)
  }

  function Tags(desired: seq<Desired>): (tags: set<string>) { set d | d in desired :: d.tag }

  lemma TagIn(desired: seq<Desired>, k: nat)
    requires k < |desired|
    ensures desired[k].tag in Tags(desired)
  {
  }

  predicate Last(desired: seq<Desired>, k: nat)
    requires k < |desired|
  {
    forall j | k < j < |desired| :: desired[j].tag != desired[k].tag
  }

  /** The tunnel of tag is registered on its own open device, and what is remembered and what
      the device runs are what it was sent. */
  ghost predicate TunnelFits(iface: map<string, Managed>, stacks: map<string, int>, open: map<int, Running>,
                             sent: map<int, seq<Send>>, tag: string)
    requires tag in iface
  {
    var cur := iface[tag];
    && tag in stacks && stacks[tag] == cur.device
    && cur.device in open && cur.device in sent && Begun(sent[cur.device])
    && cur.conf == Remembered(sent[cur.device])
    && open[cur.device] == Running(RunsNow(sent[cur.device]), cur.fingerprint)
  }

  /** The registry has exactly the managed tunnels, no two share a device, and no other device
      is open. */
  ghost predicate Fits(iface: map<string, Managed>, stacks: map<string, int>, dns: map<string, string>,
                       open: map<int, Running>, sent: map<int, seq<Send>>, next: int) {
    && stacks.Keys == iface.Keys && dns.Keys <= iface.Keys
    && (forall tag | tag in iface :: TunnelFits(iface, stacks, open, sent, tag))
    && (forall a, b | a in iface && b in iface && a != b :: iface[a].device != iface[b].device)
    && (forall device | device in open :: device < next && Owned(iface, device))
  }

  ghost predicate Owned(iface: map<string, Managed>, device: int) {
    exists tag :: tag in iface && iface[tag].device == device
  }

  lemma StopFits(iface: map<string, Managed>, stacks: map<string, int>, dns: map<string, string>,
                 open: map<int, Running>, sent: map<int, seq<Send>>, next: int, tag: string)
    requires Fits(iface, stacks, dns, open, sent, next) && tag in iface
    ensures Fits(iface - {tag}, stacks - {tag}, dns - {tag}, open - {iface[tag].device}, sent, next)
  {
    hide Begun, Remembered, RunsNow;
    var left, others := open - {iface[tag].device}, iface - {tag};
    forall other | other in others
      ensures TunnelFits(others, stacks - {tag}, left, sent, other)
    {
      assert TunnelFits(iface, stacks, open, sent, other);
    }
    forall device | device in left
      ensures Owned(others, device)
    {
      assert Owned(iface, device);
      var t :| t in iface && iface[t].device == device;
      assert t in others;
    }
  }

  function Resolvers(dns: map<string, string>, tag: string, resolver: string): map<string, string> {
    if resolver != "" then dns[tag := resolver] else dns - {tag}
  }

  /** Sending to a device, old or new, that belongs to the tunnel of tag. */
  lemma SendFits(iface: map<string, Managed>, stacks: map<string, int>, dns: map<string, string>,
                 open: map<int, Running>, sent: map<int, seq<Send>>, next: int, tag: string, now: Managed,
                 sends: seq<Send>, dnsNow: map<string, string>, nextNow: int)
    requires Fits(iface, stacks, dns, open, sent, next)
    requires if tag in iface then iface[tag].device == now.device && nextNow == next
      else now.device == next && nextNow == next + 1
    requires Begun(sends) && now.conf == Remembered(sends) && dnsNow - {tag} == dns - {tag}
    ensures Fits(iface[tag := now], stacks[tag := now.device], dnsNow,
                 open[now.device := Running(RunsNow(sends), now.fingerprint)], sent[now.device := sends], nextNow)
  {
    hide Begun, Remembered, RunsNow;
    var after, running, history := iface[tag := now], open[now.device := Running(RunsNow(sends), now.fingerprint)],
      sent[now.device := sends];
    assert tag in iface ==> TunnelFits(iface, stacks, open, sent, tag);
    forall other | other in after
      ensures TunnelFits(after, stacks[tag := now.device], running, history, other)
      ensures other != tag ==> after[other].device != now.device
    {
      if other != tag {
        assert TunnelFits(iface, stacks, open, sent, other);
      }
    }
    forall device | device in running
      ensures device < nextNow && Owned(after, device)
    {
      if device == now.device {
        assert after[tag].device == device;
      } else {
        assert Owned(iface, device);
        var t :| t in iface && iface[t].device == device;
        assert t in after && after[t].device == device;
      }
    }
    forall other | other in dnsNow
      ensures other in after
    {
      assert other != tag ==> other in dns - {tag} && other in dnsNow - {tag};
    }
  }

  lemma NothingFits(iface: map<string, Managed>, stacks: map<string, int>, dns: map<string, string>,
                    open: map<int, Running>, sent: map<int, seq<Send>>, next: int)
    requires Fits(iface, stacks, dns, open, sent, next) && iface.Keys == {}
    ensures iface == map[] && stacks == map[] && dns == map[] && open == map[]
  {
    assert forall tag :: tag !in iface && tag !in stacks && tag !in dns;
    forall device
      ensures device !in open
    {
      assert device in open ==> Owned(iface, device);
    }
  }

  /** Every text wanted under that tag is one the machine's devices accept. */
  predicate Accepted(machine: Machine, desired: seq<Desired>, tag: string) {
    forall j | 0 <= j < |desired| && desired[j].tag == tag && desired[j].conf.Some? ::
      machine.accepts(desired[j].conf.value)
  }

  class OutboundManager {
    var iface: map<string, Managed>
    /** The egress registry: the device and the resolver of each tag, and its listener. */
    var stacks: map<string, int>
    var dns: map<string, string>
    var listening: bool
    /** The devices of this process that are open. */
    var open: map<int, Running>
    var nextDevice: int
    /** Everything each device was ever sent. */
    ghost var sent: map<int, seq<Send>>

    constructor ()
      ensures Valid() && iface == map[] && open == map[] && !listening
    {
      iface, stacks, dns, listening, open, nextDevice, sent := map[], map[], map[], false, map[], 0, map[];
    }

    ghost predicate Valid()
      reads this
    {
      Fits(iface, stacks, dns, open, sent, nextDevice)
    }

    /** What the device of a tunnel was sent. */
    ghost function Sends(tag: string): seq<Send>
      reads this`iface, this`sent
    {
      if tag in iface && iface[tag].device in sent then sent[iface[tag].device] else []
    }

    /** The tunnel is registered as wanted, with its resolver. */
    ghost predicate Serves(d: Desired)
      reads this
    {
      && d.conf.Some? && d.tag in iface && iface[d.tag].conf == d.conf.value
        && iface[d.tag].fingerprint == d.fingerprint
      && (if d.dns == "" then d.tag !in dns else d.tag in dns && dns[d.tag] == d.dns)
    }

    /** And its device runs the wanted configuration. */
    ghost predicate Runs(d: Desired)
      reads this
    {
      && Serves(d) && iface[d.tag].device in open
      && open[iface[d.tag].device] == Running(d.conf.value, d.fingerprint)
    }

    /** A tunnel that is registered as wanted runs so exactly when nothing was refused by its
        device since the last configuration it took, or what was left happens to be just that. */
    lemma RunsExact(d: Desired)
      requires Valid() && Serves(d)
      ensures var sends := Sends(d.tag);
        Begun(sends) && (Runs(d) <==> Settled(sends) || sends[|sends| - 1].left == d.conf.value)
    {
      assert TunnelFits(iface, stacks, open, sent, d.tag);
      RunsRemembered(Sends(d.tag));
    }

    /** Closes a tunnel's device and drops its registration. */
    method Stop(tag: string)
      requires Valid() && tag in iface
      modifies this
      ensures Valid() && iface == old(iface) - {tag} && dns == old(dns) - {tag} && stacks == old(stacks) - {tag}
      ensures open == old(open) - {old(iface)[tag].device} && listening == old(listening)
        && nextDevice == old(nextDevice)
      ensures sent == old(sent)
    {
      hide Fits;
      StopFits(iface, stacks, dns, open, sent, nextDevice, tag);
      var device := iface[tag].device;
      open := open - {device};
      stacks := stacks - {tag};
      dns := dns - {tag};
      iface := iface - {tag};
    }

    /** SetStack. */
    method SetStack(tag: string, device: int, resolver: string)
      modifies this`stacks, this`dns
      ensures stacks == old(stacks)[tag := device]
      ensures dns == Resolvers(old(dns), tag, resolver)
    {
      stacks := stacks[tag := device];
      if resolver != "" {
        dns := dns[tag := resolver];
      } else {
        dns := dns - {tag};
      }
    }

    /** ensureLocked: keep, reconfigure in place, or rebuild. Success leaves the tunnel
        registered as wanted; its device has just taken the wanted text, unless that is the one
        remembered, when nothing is sent. A refusal by a kept device is all that is left of it. */
    method Ensure(machine: Machine, d: Desired) returns (ok: bool)
      requires Valid()
      modifies this
      ensures Valid() && listening == old(listening)
      ensures ok <==> Reachable(machine, old(iface), d)
      ensures ok ==> Serves(d)
      ensures iface - {d.tag} == old(iface) - {d.tag} && dns - {d.tag} == old(dns) - {d.tag}
      ensures forall tag | tag != d.tag :: Sends(tag) == old(Sends(tag))
      ensures d.tag in old(iface) && old(iface)[d.tag].fingerprint == d.fingerprint ==>
        d.tag in iface && iface[d.tag].device == old(iface)[d.tag].device
      ensures ok && Unchanged(old(iface), d) ==> Sends(d.tag) == old(Sends(d.tag))
      ensures ok && !Unchanged(old(iface), d) ==> Settled(Sends(d.tag))
      ensures !ok && d.tag in iface ==> iface == old(iface) && dns == old(dns)
      ensures !ok && d.tag in iface && d.conf.Some? ==>
        Sends(d.tag) == old(Sends(d.tag)) + [Refused(d.conf.value, machine.leaves(d.conf.value))]
      ensures d.conf.None? ==>
        iface == old(iface) && stacks == old(stacks) && dns == old(dns) && open == old(open) && sent == old(sent)
      ensures !ok && d.conf.Some? && !(d.tag in old(iface) && old(iface)[d.tag].fingerprint == d.fingerprint) ==>
        d.tag !in iface
    {
      hide Fits, Serves, Settled;
      if d.conf.None? {
        return false;
      }
      var conf := d.conf.value;
      if d.tag in iface && iface[d.tag].fingerprint == d.fingerprint {
        ok := Reconfigure(machine, d, conf);
        return;
      }
      OtherDevices(d.tag);
      if d.tag in iface {
        Stop(d.tag);
      }
      if !machine.builds(d.fingerprint) || !machine.accepts(conf) {
        return false;
      }
      Start(d, conf);
      return true;
    }

    /** No other tunnel has the device of tag, or one still to be made. */
    lemma OtherDevices(tag: string)
      requires Valid()
      ensures forall other | other in iface :: iface[other].device < nextDevice
      ensures tag in iface ==> forall other | other in iface && other != tag :: iface[other].device != iface[tag].device
    {
      forall other | other in iface
        ensures iface[other].device < nextDevice
      {
        assert TunnelFits(iface, stacks, open, sent, other);
      }
    }

    /** A running tunnel with the same address and MTU keeps its device. */
    method Reconfigure(machine: Machine, d: Desired, conf: string) returns (ok: bool)
      requires Valid() && d.conf == Some(conf) && d.tag in iface && iface[d.tag].fingerprint == d.fingerprint
      modifies this
      ensures Valid() && listening == old(listening)
      ensures ok <==> old(iface)[d.tag].conf == conf || machine.accepts(conf)
      ensures ok ==> Serves(d)
      ensures iface - {d.tag} == old(iface) - {d.tag} && dns - {d.tag} == old(dns) - {d.tag}
      ensures d.tag in iface && iface[d.tag].device == old(iface)[d.tag].device
      ensures forall tag | tag != d.tag :: Sends(tag) == old(Sends(tag))
      ensures old(iface)[d.tag].conf == conf ==> Sends(d.tag) == old(Sends(d.tag))
      ensures old(iface)[d.tag].conf != conf ==>
        Sends(d.tag) == old(Sends(d.tag)) + [if ok then Taken(conf) else Refused(conf, machine.leaves(conf))]
      ensures ok && old(iface)[d.tag].conf != conf ==> Settled(Sends(d.tag))
      ensures !ok ==> iface == old(iface) && dns == old(dns)
    {
      hide Fits, Begun, Remembered, RunsNow;
      var cur := iface[d.tag];
      OwnDevice(d.tag);
      OtherDevices(d.tag);
      ghost var sends := sent[cur.device];
      if conf != cur.conf {
        ok := machine.accepts(conf);
        ghost var next := if ok then Taken(conf) else Refused(conf, machine.leaves(conf));
        SentNext(sends, next);
        sends := sends + [next];
        SendFits(iface, stacks, dns, open, sent, nextDevice, d.tag, if ok then cur.(conf := conf) else cur, sends,
                 if ok then Resolvers(dns, d.tag, d.dns) else dns, nextDevice);
        open := open[cur.device := Running(if ok then conf else machine.leaves(conf), cur.fingerprint)];
        sent := sent[cur.device := sends];
        if !ok {
          SameStack(stacks, d.tag, cur.device);
          SameEntry(iface, d.tag);
          return;
        }
      } else {
        SendFits(iface, stacks, dns, open, sent, nextDevice, d.tag, cur, sends, Resolvers(dns, d.tag, d.dns),
          nextDevice);
      }
      iface := iface[d.tag := cur.(conf := conf)];
      SetStack(d.tag, cur.device, d.dns);
      return true;
    }

    lemma SameStack(m: map<string, int>, tag: string, device: int)
      requires tag in m && m[tag] == device
      ensures m[tag := device] == m
    {
    }

    lemma SameEntry(m: map<string, Managed>, tag: string)
      requires tag in m
      ensures m[tag := m[tag]] == m
    {
    }

    /** What is known of a tunnel's own device. */
    lemma OwnDevice(tag: string)
      requires Valid() && tag in iface
      ensures var cur := iface[tag];
        && tag in stacks && stacks[tag] == cur.device && cur.device in sent && Begun(sent[cur.device])
          && cur.conf == Remembered(sent[cur.device])
        && open[cur.device := Running(RunsNow(sent[cur.device]), cur.fingerprint)] == open
          && sent[cur.device := sent[cur.device]] == sent
    {
      assert TunnelFits(iface, stacks, open, sent, tag);
    }

    /** A new device for a tag that has none. */
    method Start(d: Desired, conf: string)
      requires Valid() && d.conf == Some(conf) && d.tag !in iface
      modifies this
      ensures Valid() && listening == old(listening) && Serves(d)
      ensures iface == old(iface)[d.tag := Managed(old(nextDevice), conf, d.fingerprint)]
      ensures dns - {d.tag} == old(dns) - {d.tag}
      ensures sent == old(sent)[old(nextDevice) := [Taken(conf)]] && Settled(Sends(d.tag))
    {
      hide Fits;
      var device := nextDevice;
      SentFirst(conf);
      SendFits(iface, stacks, dns, open, sent, nextDevice, d.tag, Managed(device, conf, d.fingerprint), [Taken(conf)],
               Resolvers(dns, d.tag, d.dns), nextDevice + 1);
      nextDevice := nextDevice + 1;
      open := open[device := Running(conf, d.fingerprint)];
      sent := sent[device := [Taken(conf)]];
      iface := iface[d.tag := Managed(device, conf, d.fingerprint)];
      SetStack(d.tag, device, d.dns);
    }

    /** Stops the tunnels of those tags. */
    method StopTags(tags: set<string>)
      requires Valid() && tags <= iface.Keys
      modifies this
      ensures Valid() && iface == old(iface) - tags && dns == old(dns) - tags && listening == old(listening)
        && sent == old(sent)
    {
      hide Fits;
      var todo := tags;
      while todo != {}
        invariant Valid() && todo <= tags && todo <= iface.Keys
        invariant iface == old(iface) - (tags - todo) && dns == old(dns) - (tags - todo) && listening == old(listening)
          && sent == old(sent)
        decreases todo
      {
        SomeText(todo);
        var tag :| tag in todo;
        Stop(tag);
        todo := todo - {tag};
      }
      assert tags - todo == tags;
    }

    /** No device of a managed tunnel has refused anything since the last text it took. */
    ghost predicate Calm(tag: string)
      reads this`iface, this`sent
    {
      tag in iface ==> Settled(Sends(tag))
    }

    /** Reconcile converges the tunnels to desired; no tunnel, no listener. Every startable one
        ends registered as wanted last, and running so when its device was calm before and all
        texts wanted for it are accepted. */
    method Reconcile(machine: Machine, desired: seq<Desired>)
      requires Valid()
      modifies this
      ensures Valid() && iface.Keys <= Tags(desired)
      ensures listening == (desired != [] && (old(listening) || machine.binds))
      ensures forall k | 0 <= k < |desired| && Last(desired, k) && Startable(machine, desired[k]) :: Serves(desired[k])
      ensures forall k | 0 <= k < |desired| && Last(desired, k) && Startable(machine, desired[k])
        && Accepted(machine, desired, desired[k].tag) && old(Calm(desired[k].tag)) :: Runs(desired[k])
    {
      hide Fits, Tags, Settled, Accepted, Runs, Serves, Startable, Last;
      if desired == [] {
        StopTags(iface.Keys);
        listening := false;
        return;
      }
      listening := listening || machine.binds;
      StopTags(iface.Keys - Tags(desired));
      EnsureAll(machine, desired);
      forall k | 0 <= k < |desired| && Last(desired, k) && Startable(machine, desired[k])
        && Accepted(machine, desired, desired[k].tag) && old(Calm(desired[k].tag))
        ensures Runs(desired[k])
      {
        CalmRuns(desired[k]);
      }
    }

    lemma CalmRuns(d: Desired)
      requires Valid() && Serves(d) && Calm(d.tag)
      ensures Runs(d)
    {
      hide Fits, Settled;
      RunsExact(d);
    }

    /** Reconcile's loop. */
    method EnsureAll(machine: Machine, desired: seq<Desired>)
      requires Valid() && iface.Keys <= Tags(desired)
      modifies this
      ensures Valid() && iface.Keys <= Tags(desired) && listening == old(listening)
      ensures forall k | 0 <= k < |desired| && Last(desired, k) && Startable(machine, desired[k]) :: Serves(desired[k])
      ensures forall tag | Accepted(machine, desired, tag) && old(Calm(tag)) :: Calm(tag)
    {
      hide Fits, Tags, Settled, Accepted, Last;
      for n := 0 to |desired|
        invariant Valid() && iface.Keys <= Tags(desired) && listening == old(listening)
        invariant forall k | 0 <= k < n && Last(desired[..n], k) && Startable(machine, desired[k]) :: Serves(desired[k])
        invariant forall tag | Accepted(machine, desired, tag) && old(Calm(tag)) :: Calm(tag)
      {
        ghost var before, dnsBefore := iface, dns;
        TagIn(desired, n);
        var ok := Ensure(machine, desired[n]);
        forall tag | Accepted(machine, desired, tag) && old(Calm(tag))
          ensures Calm(tag)
        {
          if tag != desired[n].tag {
            Elsewhere(before, iface, desired[n].tag, tag);
          } else {
            AcceptedAt(machine, desired, n);
          }
        }
        forall k | 0 <= k < n + 1 && Last(desired[..n + 1], k) && Startable(machine, desired[k])
          ensures Serves(desired[k])
        {
          if k < n {
            StillLast(desired, n, k);
            Elsewhere(before, iface, desired[n].tag, desired[k].tag);
            Elsewhere(dnsBefore, dns, desired[n].tag, desired[k].tag);
          }
        }
        forall tag | tag in iface
          ensures tag in Tags(desired)
        {
          if tag != desired[n].tag {
            Elsewhere(before, iface, desired[n].tag, tag);
          }
        }
      }
      assert desired[..|desired|] == desired;
    }

    lemma StillLast(desired: seq<Desired>, n: nat, k: nat)
      requires k < n < |desired| && Last(desired[..n + 1], k)
      ensures Last(desired[..n], k) && desired[k].tag != desired[n].tag
    {
      assert desired[..n + 1][n].tag != desired[k].tag;
      assert forall j | k < j < n :: desired[..n][j] == desired[..n + 1][j];
    }

    lemma AcceptedAt(machine: Machine, desired: seq<Desired>, n: nat)
      requires n < |desired| && Accepted(machine, desired, desired[n].tag)
      ensures desired[n].conf.Some? ==> machine.accepts(desired[n].conf.value)
    {
    }

    lemma Elsewhere<T>(before: map<string, T>, after: map<string, T>, tag: string, other: string)
      requires before - {tag} == after - {tag} && other != tag
      ensures other in before <==> other in after
      ensures other in before ==> before[other] == after[other]
    {
      assert other in before <==> other in before - {tag};
      assert other in after <==> other in after - {tag};
      assert other in before ==> (before - {tag})[other] == (after - {tag})[other];
    }

    method Remove(tag: string)
      requires Valid()
      modifies this
      ensures Valid() && iface == old(iface) - {tag} && dns == old(dns) - {tag} && listening == old(listening)
    {
      if tag in iface {
        Stop(tag);
      } else {
        assert iface - {tag} == iface && dns - {tag} == dns;
      }
    }

    /** StopAll leaves no tunnel, no registration, no open device and no listener. */
    method StopAll()
      requires Valid()
      modifies this
      ensures Valid() && iface == map[] && stacks == map[] && dns == map[] && open == map[] && !listening
    {
      StopTags(iface.Keys);
      listening := false;
      NothingFits(iface, stacks, dns, open, sent, nextDevice);
    }
  }

  /** The wanted text is the one remembered of a tunnel that can be kept. */
  predicate Unchanged(iface: map<string, Managed>, d: Desired) {
    d.conf.Some? && d.tag in iface && iface[d.tag].fingerprint == d.fingerprint && iface[d.tag].conf == d.conf.value
  }

  /** A tunnel runs, its device refuses a new text, and the old one is wanted again: the third
      Ensure succeeds without sending anything, and the device runs what the refused text left. */
  method Revert(machine: Machine, d: Desired, other: Desired) returns (ok: bool, remembered: string, running: string)
    requires Startable(machine, d) && other.conf.Some? && !machine.accepts(other.conf.value)
    requires other.tag == d.tag && other.fingerprint == d.fingerprint
    ensures ok && remembered == d.conf.value && running == machine.leaves(other.conf.value)
  {
    hide Fits;
    var m := new OutboundManager();
    var first := m.Ensure(machine, d);
    ghost var sends := m.Sends(d.tag);
    var second := m.Ensure(machine, other);
    ok := m.Ensure(machine, d);
    m.RunsExact(d);
    m.OwnDevice(d.tag);
    assert m.Sends(d.tag) == sends + [Refused(other.conf.value, machine.leaves(other.conf.value))];
    var device := m.iface[d.tag].device;
    RunningIs(m, d.tag);
    remembered, running := m.iface[d.tag].conf, m.open[device].conf;
  }

  lemma RunningIs(m: OutboundManager, tag: string)
    requires m.Valid() && tag in m.iface
    ensures m.iface[tag].device in m.open && Begun(m.Sends(tag))
    ensures m.open[m.iface[tag].device].conf == RunsNow(m.Sends(tag))
  {
    assert TunnelFits(m.iface, m.stacks, m.open, m.sent, tag);
  }
}

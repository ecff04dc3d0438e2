/** The hosts of generated topologies: their names, the addresses of their interfaces, and the
    devices that these are on. */
module Attachments {
  import opened Text
  import opened Schema
  import opened TopologyBuilder
  import opened Scripts
  import opened ScriptLoads
  import opened Racks
  import AccessFabric
  import PlainFabric

  /** An interface: which address it is made with, and which device it is on. */
  datatype Place = Place(addr: Addr, dev: string)

  /** A host and its interfaces. */
  type Guest = (string, seq<Place>)

  /** The interfaces of the unfinished host after a script, and the hosts completed. */
  function Unfinished(p: seq<Place>, s: Script): seq<Place>
    decreases s
  {
    match s
    case Do(Nic(a, dev)) => p + [Place(a, dev)]
    case Do(Server(_)) => []
    case Then(x, y) => Unfinished(Unfinished(p, x), y)
    case _ => p
  }

  function Guests(p: seq<Place>, s: Script): seq<Guest>
    decreases s
  {
    match s
    case Do(Vm(h, a, dev)) => [(h, [Place(a, dev)])]
    case Do(Server(h)) => [(h, p)]
    case Then(x, y) => Guests(p, x) + Guests(Unfinished(p, x), y)
    case _ => []
  }

  /** The interface has the addresses made from the numbers of rack, leaf and host, and a port of
      the device. */
  predicate NicAt(n: NicDesc, p: Place) {
    && n.mac == "00:ca:fe:" + Pad2(p.addr.rack) + ":" + Pad2(p.addr.leaf) + ":" + Pad2(p.addr.host)
    && n.ipv4 == "10." + Dec(p.addr.rack) + "." + Dec(p.addr.leaf) + "." + Dec(p.addr.host)
    && n.ipv6 == "::ffff:10.10." + Dec(p.addr.rack) + Dec(p.addr.leaf) + "." + Dec(p.addr.host)
    && DeviceOf(n.port) == Some(p.dev)
  }

  predicate NicsAt(ns: seq<NicDesc>, ps: seq<Place>) {
    |ns| == |ps| && forall i | 0 <= i < |ns| :: NicAt(ns[i], ps[i])
  }

  predicate HostsAt(hs: seq<HostDesc>, gs: seq<Guest>) {
    |hs| == |gs| && forall i | 0 <= i < |hs| :: hs[i].id == gs[i].0 && NicsAt(hs[i].nics, gs[i].1)
  }

  lemma MadeAt(b: Build, a: Addr, dev: string)
    requires '/' !in dev
    ensures NicAt(MakeNic(b, a, dev), Place(a, dev))
  {
    SplitJoined(dev, Dec(Upcoming(b.nextPort, dev)));
  }

  /** What the hosts of a build have become. */
  ghost predicate HostsGrown(b: Build, c: Build, gs: seq<Guest>) {
    b.topology.hosts <= c.topology.hosts && HostsAt(c.topology.hosts[|b.topology.hosts|..], gs)
  }

  lemma StepGuests(b: Build, t: Step, p: seq<Place>)
    requires Slashless(Do(t)) && NicsAt(b.nics, p)
    ensures HostsGrown(b, Apply(b, t), Guests(p, Do(t))) && NicsAt(Apply(b, t).nics, Unfinished(p, Do(t)))
  {
    hide HostsGrown, NicsAt, MakeNic, Successor;
    match t
    case Nic(a, dev) =>
      MadeAt(b, a, dev);
      NicsMore(b.nics, p, MakeNic(b, a, dev), Place(a, dev));
      SameHosts(b, Apply(b, t));
    case Vm(h, a, dev) =>
      MadeAt(b, a, dev);
      NoNics();
      NicsMore([], [], MakeNic(b, a, dev), Place(a, dev));
      assert [] + [MakeNic(b, a, dev)] == [MakeNic(b, a, dev)] && [] + [Place(a, dev)] == [Place(a, dev)];
      OneMore(b, Apply(b, t), h, [MakeNic(b, a, dev)], [Place(a, dev)]);
    case Server(h) =>
      NoNics();
      OneMore(b, Apply(b, t), h, b.nics, p);
    case _ => SameHosts(b, Apply(b, t));
  }

  lemma NoNics()
    ensures NicsAt([], [])
  {
  }

  lemma NicsMore(ns: seq<NicDesc>, ps: seq<Place>, n: NicDesc, p: Place)
    requires NicsAt(ns, ps) && NicAt(n, p)
    ensures NicsAt(ns + [n], ps + [p])
  {
    hide NicAt;
  }

  lemma SameHosts(b: Build, c: Build)
    requires c.topology.hosts == b.topology.hosts
    ensures HostsGrown(b, c, [])
  {
    assert c.topology.hosts[|b.topology.hosts|..] == [];
  }

  lemma OneMore(b: Build, c: Build, h: string, ns: seq<NicDesc>, ps: seq<Place>)
    requires c.topology.hosts == b.topology.hosts + [HostDesc(h, ns)] && NicsAt(ns, ps)
    ensures HostsGrown(b, c, [(h, ps)])
  {
    hide NicsAt;
    assert c.topology.hosts[|b.topology.hosts|..] == [HostDesc(h, ns)];
  }

  lemma GrownBoth(b: Build, c: Build, d: Build, gs: seq<Guest>, fs: seq<Guest>)
    requires HostsGrown(b, c, gs) && HostsGrown(c, d, fs)
    ensures HostsGrown(b, d, gs + fs)
  {
    hide NicsAt;
    var x, y, z := b.topology.hosts, c.topology.hosts, d.topology.hosts;
    assert z[|x|..] == y[|x|..] + z[|y|..];
  }

  lemma {:induction false} ScriptGuests(b: Build, s: Script, p: seq<Place>)
    requires Slashless(s) && NicsAt(b.nics, p)
    ensures HostsGrown(b, Run(b, s), Guests(p, s)) && NicsAt(Run(b, s).nics, Unfinished(p, s))
    decreases s
  {
    hide HostsGrown, NicsAt;
    match s
    case Skip => SameHosts(b, b);
    case Do(t) => StepGuests(b, t, p);
    case Then(x, y) =>
      ScriptGuests(b, x, p);
      ScriptGuests(Run(b, x), y, Unfinished(p, x));
      GrownBoth(b, Run(b, x), Run(b, s), Guests(p, x), Guests(Unfinished(p, x), y));
  }

  /** The hosts of a generated topology are those its script makes. */
  lemma MadeGuests(s: Script)
    requires Slashless(s)
    ensures HostsAt(Made(s).hosts, Guests([], s))
  {
    ScriptGuests(START, s, []);
    assert START.topology.hosts == [] && Made(s).hosts[0..] == Made(s).hosts;
    hide Run, HostsAt;
  }

  // ---- The hosts of a rack

  lemma GuestsThen(p: seq<Place>, x: Script, y: Script)
    ensures Guests(p, Then(x, y)) == Guests(p, x) + Guests(Unfinished(p, x), y)
    ensures Unfinished(p, Then(x, y)) == Unfinished(Unfinished(p, x), y)
  {
  }

  /** A script that makes no hosts and leaves nothing unfinished has no interfaces. */
  lemma {:induction false} NoGuests(p: seq<Place>, s: Script)
    requires HostNames(s) == {}
    ensures Guests(p, s) == [] && forall q :: q <= Pending(q, s)
    ensures Pending({}, s) == {} ==> Unfinished(p, s) == p
    decreases s
  {
    match s
    case Skip =>
    case Do(Nic(_, dev)) => assert dev in Pending({}, s);
    case Do(_) =>
    case Then(x, y) =>
      NoGuests(p, x);
      NoGuests(Unfinished(p, x), y);
      var r := Pending({}, x);
      assert r <= Pending(r, y) == Pending({}, s);
      if Pending({}, s) == {} {
        assert r == {};
      }
      forall q
        ensures q <= Pending(q, s)
      {
        assert q <= Pending(q, x) <= Pending(Pending(q, x), y);
      }
  }

  /** A VM of an IPU, by its number. */
  predicate VmGuest(g: Guest, rack: nat, host: nat, vms: nat) {
    exists v | 1 <= v <= vms ::
      g == ("vm" + Pad2(rack) + Pad2(host) + Pad2(v), [Place(Addr(rack, host, 10 + v), "ipu" + Pad2(rack) + Pad2(host))])
  }

  /** A bare metal host: on its IPU, or on one leaf or two. */
  predicate MetalGuest(g: Guest, rack: nat, host: nat, leaf1: string, leaf2: string, ipus: bool) {
    && g.0 == "host" + Pad2(rack) + Pad2(host)
    && g.1 == if ipus then [Place(Addr(rack, host, 1), "ipu" + Pad2(rack) + Pad2(host))]
              else if leaf2 == "" then [Place(Addr(rack, host, 1), leaf1)]
              else [Place(Addr(rack, host, 1), leaf1), Place(Addr(rack, host, 2), leaf2)]
  }

  predicate RackGuest(g: Guest, rack: nat, leaf1: string, leaf2: string, count: nat, ipus: bool, vms: nat) {
    exists h | 1 <= h <= count :: MetalGuest(g, rack, h, leaf1, leaf2, ipus) || (ipus && VmGuest(g, rack, h, vms))
  }

  lemma VmNext(g: Guest, rack: nat, host: nat, vms: nat)
    requires vms > 0
    ensures VmGuest(g, rack, host, vms) <==>
            VmGuest(g, rack, host, vms - 1) ||
            g == (VmName(rack, host, vms), [Place(Addr(rack, host, 10 + vms), IpuName(rack, host))])
  {
    assert VmName(rack, host, vms) == "vm" + Pad2(rack) + Pad2(host) + Pad2(vms) && IpuName(rack, host) == "ipu" + Pad2(rack) + Pad2(host);
    hide Pad2, VmName, IpuName;
  }

  lemma OneGuest(p: seq<Place>, h: string, a: Addr, dev: string)
    ensures Guests(p, Do(Vm(h, a, dev))) == [(h, [Place(a, dev)])] && Unfinished(p, Do(Vm(h, a, dev))) == p
  {
  }

  lemma {:induction false} VmsGuests(p: seq<Place>, rack: nat, host: nat, vms: nat)
    ensures var s := VmScript(rack, host, IpuName(rack, host), vms);
            Unfinished(p, s) == p && forall g :: g in Guests(p, s) <==> VmGuest(g, rack, host, vms)
  {
    hide Guests, Unfinished, VmName, IpuName, VmGuest;
    if vms == 0 {
      NoVms(p, rack, host);
    } else {
      var vm := Vm(VmName(rack, host, vms), Addr(rack, host, 10 + vms), IpuName(rack, host));
      VmsGuests(p, rack, host, vms - 1);
      GuestsThen(p, VmScript(rack, host, IpuName(rack, host), vms - 1), Do(vm));
      OneGuest(p, vm.host, vm.addr, vm.dev);
      forall g
        ensures VmGuest(g, rack, host, vms) <==> VmGuest(g, rack, host, vms - 1) || g == (vm.host, [Place(vm.addr, vm.dev)])
      {
        VmNext(g, rack, host, vms);
      }
    }
  }

  lemma NoVms(p: seq<Place>, rack: nat, host: nat)
    ensures Unfinished(p, VmScript(rack, host, IpuName(rack, host), 0)) == p
    ensures Guests(p, VmScript(rack, host, IpuName(rack, host), 0)) == [] && forall g :: !VmGuest(g, rack, host, 0)
  {
  }

  lemma {:induction false} IpuGuests(rack: nat, host: nat, leaf1: string, leaf2: string, vms: nat)
    ensures var s := IpuScript(rack, host, leaf1, leaf2, vms);
            && Unfinished([], s) == [Place(Addr(rack, host, 1), IpuName(rack, host))]
            && forall g :: g in Guests([], s) <==> VmGuest(g, rack, host, vms)
  {
    hide Guests, Unfinished, IpuName, Trunk, VmScript, VmGuest, HostNames, Pending;
    var ipu, up := IpuName(rack, host), if |leaf2| > 0 then leaf2 else leaf1;
    var a := Addr(rack, host, 1);
    var s1, nic := Do(Switch(ipu, 2 + 1 + vms, None)), Do(Nic(a, ipu));
    var s3 := Then(Then(s1, Trunk(leaf1, ipu, 1)), Trunk(up, ipu, 1));
    UplinksShape(ipu, leaf1, up, 2 + 1 + vms);
    assert Pending({}, s3) == {};
    NoGuests([], s3);
    assert [] + [Place(a, ipu)] == [Place(a, ipu)];
    OneNic([], a, ipu);
    VmsGuests([Place(a, ipu)], rack, host, vms);
    GuestsThen([], s3, nic);
    GuestsThen([], Then(s3, nic), VmScript(rack, host, ipu, vms));
  }

  lemma OneNic(p: seq<Place>, a: Addr, dev: string)
    ensures Guests(p, Do(Nic(a, dev))) == [] && Unfinished(p, Do(Nic(a, dev))) == p + [Place(a, dev)]
  {
  }

  lemma OneServer(p: seq<Place>, h: string)
    ensures Guests(p, Do(Server(h))) == [(h, p)] && Unfinished(p, Do(Server(h))) == []
  {
  }

  lemma NicGuests(rack: nat, host: nat, leaf1: string, leaf2: string)
    ensures var s := NicScript(rack, host, leaf1, leaf2);
            && Guests([], s) == []
            && Unfinished([], s) == if leaf2 == "" then [Place(Addr(rack, host, 1), leaf1)]
                                    else [Place(Addr(rack, host, 1), leaf1), Place(Addr(rack, host, 2), leaf2)]
  {
  }

  lemma HostGuests(rack: nat, host: nat, leaf1: string, leaf2: string, ipus: bool, vms: nat)
    ensures var s := HostScript(rack, host, leaf1, leaf2, ipus, vms);
            && Unfinished([], s) == []
            && forall g :: g in Guests([], s) <==> MetalGuest(g, rack, host, leaf1, leaf2, ipus) || (ipus && VmGuest(g, rack, host, vms))
  {
    var x := if ipus then IpuScript(rack, host, leaf1, leaf2, vms) else NicScript(rack, host, leaf1, leaf2);
    IpuGuests(rack, host, leaf1, leaf2, vms);
    NicGuests(rack, host, leaf1, leaf2);
    GuestsThen([], x, Do(Server(HostName(rack, host))));
    OneServer(Unfinished([], x), HostName(rack, host));
    MetalIs(rack, host, leaf1, leaf2, ipus, Unfinished([], x));
    hide Guests, Unfinished, IpuScript, NicScript, HostName, IpuName, VmGuest, MetalGuest;
  }

  lemma MetalIs(rack: nat, host: nat, leaf1: string, leaf2: string, ipus: bool, p: seq<Place>)
    requires p == if ipus then [Place(Addr(rack, host, 1), IpuName(rack, host))]
                  else if leaf2 == "" then [Place(Addr(rack, host, 1), leaf1)]
                  else [Place(Addr(rack, host, 1), leaf1), Place(Addr(rack, host, 2), leaf2)]
    ensures forall g :: MetalGuest(g, rack, host, leaf1, leaf2, ipus) <==> g == (HostName(rack, host), p)
  {
    assert HostName(rack, host) == "host" + Pad2(rack) + Pad2(host) && IpuName(rack, host) == "ipu" + Pad2(rack) + Pad2(host);
    hide Pad2, HostName, IpuName;
  }

  lemma {:induction false} RackGuests(rack: nat, leaf1: string, leaf2: string, count: nat, ipus: bool, vms: nat)
    ensures var s := RackScript(rack, leaf1, leaf2, count, ipus, vms);
            Unfinished([], s) == [] && forall g :: g in Guests([], s) <==> RackGuest(g, rack, leaf1, leaf2, count, ipus, vms)
  {
    hide Guests, Unfinished, HostScript, MetalGuest, VmGuest;
    if count == 0 {
      NoRackGuests(rack, leaf1, leaf2, ipus, vms);
    } else {
      RackGuests(rack, leaf1, leaf2, count - 1, ipus, vms);
      HostGuests(rack, count, leaf1, leaf2, ipus, vms);
      GuestsThen([], RackScript(rack, leaf1, leaf2, count - 1, ipus, vms), HostScript(rack, count, leaf1, leaf2, ipus, vms));
    }
  }

  lemma NoRackGuests(rack: nat, leaf1: string, leaf2: string, ipus: bool, vms: nat)
    ensures var s := RackScript(rack, leaf1, leaf2, 0, ipus, vms); Unfinished([], s) == [] && Guests([], s) == []
  {
  }

  // ---- The hosts of a fabric

  /** Scripts of racks, one after another. */
  lemma NextRackGuests(x: Script, y: Script, r: Script)
    requires Unfinished([], x) == [] && HostNames(y) == {} && Pending({}, y) == {} && Unfinished([], r) == []
    ensures var s := Then(x, Then(y, r));
            Unfinished([], s) == [] && forall g :: g in Guests([], s) <==> g in Guests([], x) || g in Guests([], r)
  {
    NoGuests([], y);
    GuestsThen([], y, r);
    GuestsThen([], x, Then(y, r));
    hide Guests, Unfinished;
  }

  /** The hosts of the first `n` pairs of an access fabric, on leaves 1 and 2 of their pair. */
  predicate AccessGuest(g: Guest, f: AccessFabric.Recipe, n: nat) {
    exists p | 1 <= p <= n ::
      RackGuest(g, p, "leaf" + Dec(p) + Dec(1), "leaf" + Dec(p) + Dec(2), f.hostsPerPair, f.hostsHaveIPU, f.vmsPerIPU)
  }

  lemma LeafNames(p: nat)
    ensures AccessFabric.LeafName(p, 1) == "leaf" + Dec(p) + Dec(1) && AccessFabric.LeafName(p, 2) == "leaf" + Dec(p) + Dec(2)
    ensures PlainFabric.LeafName(p) == "leaf" + Dec(p)
  {
  }

  lemma {:induction false} PairsGuests(f: AccessFabric.Recipe, n: nat)
    ensures var s := AccessFabric.PairsScript(f, n);
            Unfinished([], s) == [] && forall g :: g in Guests([], s) <==> AccessGuest(g, f, n)
  {
    hide Guests, Unfinished, AccessFabric.PairScript, AccessFabric.ReadyScript, RackScript, RackGuest, HostNames, Pending;
    if n == 0 {
      NoPairGuests(f);
    } else {
      var leaf1, leaf2 := AccessFabric.LeafName(n, 1), AccessFabric.LeafName(n, 2);
      var r := RackScript(n, leaf1, leaf2, f.hostsPerPair, f.hostsHaveIPU, f.vmsPerIPU);
      PairsGuests(f, n - 1);
      RackGuests(n, leaf1, leaf2, f.hostsPerPair, f.hostsHaveIPU, f.vmsPerIPU);
      AccessFabric.ReadyShape(f, n);
      AccessFabric.PairParts(f, n);
      AccessFabric.PairsParts(f, n);
      assert Pending({}, AccessFabric.ReadyScript(f, n)) == {};
      NextRackGuests(AccessFabric.PairsScript(f, n - 1), AccessFabric.ReadyScript(f, n), r);
      LeafNames(n);
    }
  }

  lemma NoPairGuests(f: AccessFabric.Recipe)
    ensures Unfinished([], AccessFabric.PairsScript(f, 0)) == [] && Guests([], AccessFabric.PairsScript(f, 0)) == []
  {
  }

  /** The topology has the hosts that satisfy a description, with their interfaces, and no others. */
  ghost predicate Hosts(t: Topology, expected: Guest -> bool) {
    exists gs: seq<Guest> :: HostsAt(t.hosts, gs) && forall g :: g in gs <==> expected(g)
  }

  /** The hosts of any access fabric: for each pair and each number one of that name, with an
      interface on either leaf, or, if there are IPUs, one on its IPU, and VMs on the same. */
  lemma AccessHosts(f: AccessFabric.Recipe)
    ensures Hosts(AccessFabric.AccessTopology(f), g => AccessGuest(g, f, f.leafPairs))
  {
    hide Guests, Unfinished, SpinesScript, AccessFabric.PairsScript, HostsAt, AccessGuest, HostNames, Pending;
    var x, y := SpinesScript(f.spines, f.spinePortCount, None), AccessFabric.PairsScript(f, f.leafPairs);
    AccessFabric.AccessSlashless(f);
    SpinesShape(f.spines, f.spinePortCount, None);
    assert Pending({}, x) == {};
    NoGuests([], x);
    PairsGuests(f, f.leafPairs);
    GuestsThen([], x, y);
    MadeGuests(AccessFabric.AccessScript(f));
    assert [] + Guests([], y) == Guests([], y);
  }

  /** The hosts of the first `n` leaves of a plain fabric. */
  predicate PlainGuest(g: Guest, f: PlainFabric.Recipe, n: nat) {
    exists i | 1 <= i <= n :: RackGuest(g, i, "leaf" + Dec(i), "", f.hostsPerLeaf, f.hostsHaveIPU, f.vmsPerIPU)
  }

  lemma {:induction false} LeavesGuests(f: PlainFabric.Recipe, n: nat)
    ensures var s := PlainFabric.LeavesScript(f, n);
            Unfinished([], s) == [] && forall g :: g in Guests([], s) <==> PlainGuest(g, f, n)
  {
    hide Guests, Unfinished, PlainFabric.LeafScript, PlainFabric.ReadyScript, RackScript, RackGuest, HostNames, Pending;
    if n == 0 {
      NoLeafGuests(f);
    } else {
      var r := RackScript(n, PlainFabric.LeafName(n), "", f.hostsPerLeaf, f.hostsHaveIPU, f.vmsPerIPU);
      LeavesGuests(f, n - 1);
      RackGuests(n, PlainFabric.LeafName(n), "", f.hostsPerLeaf, f.hostsHaveIPU, f.vmsPerIPU);
      PlainFabric.ReadyShape(f, n);
      PlainFabric.LeafParts(f, n);
      PlainFabric.LeavesParts(f, n);
      assert Pending({}, PlainFabric.ReadyScript(f, n)) == {};
      NextRackGuests(PlainFabric.LeavesScript(f, n - 1), PlainFabric.ReadyScript(f, n), r);
      LeafNames(n);
    }
  }

  lemma NoLeafGuests(f: PlainFabric.Recipe)
    ensures Unfinished([], PlainFabric.LeavesScript(f, 0)) == [] && Guests([], PlainFabric.LeavesScript(f, 0)) == []
  {
  }

  /** The same for plain fabrics, with one leaf for each rack. */
  lemma PlainHosts(f: PlainFabric.Recipe)
    ensures Hosts(PlainFabric.PlainTopology(f), g => PlainGuest(g, f, f.leaves))
  {
    hide Guests, Unfinished, SpinesScript, PlainFabric.LeavesScript, HostsAt, PlainGuest, HostNames, Pending;
    var x, y := SpinesScript(f.spines, f.spinePortCount, Some(f.reservedUplinks)), PlainFabric.LeavesScript(f, f.leaves);
    PlainFabric.PlainSlashless(f);
    SpinesShape(f.spines, f.spinePortCount, Some(f.reservedUplinks));
    assert Pending({}, x) == {};
    NoGuests([], x);
    LeavesGuests(f, f.leaves);
    GuestsThen([], x, y);
    MadeGuests(PlainFabric.PlainScript(f));
    assert [] + Guests([], y) == Guests([], y);
  }
}

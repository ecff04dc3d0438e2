/** Racks of hosts and rows of spines, shared by all recipes: what they create, how many
    ports of which device they take, and what becomes of names that are used twice. */
module Racks {
  import opened Common
  import opened Text
  import opened Schema
  import opened TopologyBuilder
  import opened Scripts
  import opened ScriptLoads
  import opened Names
  import Loader
  import Inventory

  // ---- Names

  /** Names of a rack's IPUs, and of its hosts, up to a host number. */
  predicate IsIpu(d: string, rack: nat, count: nat) {
    exists h | 1 <= h <= count :: d == IpuName(rack, h)
  }

  lemma SameRackIpu(rack: nat, h: nat, g: nat)
    requires IpuName(rack, h) == IpuName(rack, g)
    ensures h == g
  {
    SameHostName(rack, h, rack, g);
    hide IpuName, Pad2;
    SameFields(rack, Pad2(h), rack, Pad2(g));
    Pad2Injective(h, g);
  }

  lemma SameHostVm(rack: nat, h: nat, v: nat, w: nat)
    requires VmName(rack, h, v) == VmName(rack, h, w)
    ensures v == w
  {
    SameVmName(rack, h, v, rack, h, w);
    hide VmName, Pad2;
    SameFields(rack, Pad2(h) + Pad2(v), rack, Pad2(h) + Pad2(w));
    SameFields(h, Pad2(v), h, Pad2(w));
    Pad2Injective(v, w);
  }

  /** IPUs have names of their own if hosts have. */
  lemma IpusApart(r: nat, h: nat, q: nat, g: nat, racks: nat, count: nat, ipus: bool, vms: nat)
    requires NamesApart(racks, count, ipus, vms) && IpuName(r, h) == IpuName(q, g)
    requires 1 <= r <= racks && 1 <= h <= count && 1 <= q <= racks && 1 <= g <= count
    ensures r == q && h == g
  {
    SameHostName(r, h, q, g);
    assert NameOf(HostName(r, h), r, h, ipus, vms) && NameOf(HostName(r, h), q, g, ipus, vms);
    hide NameOf, HostName, IpuName;
  }

  // ---- Trunks

  /** What running one script after another amounts to. */
  lemma Sequence(x: Script, y: Script)
    ensures var s := Then(x, y);
            && Switches(s) == Switches(x) + Switches(y) && HostNames(s) == HostNames(x) + HostNames(y)
            && (forall p :: Pending(p, s) == Pending(Pending(p, x), y))
            && (forall d :: Latches(s, d) <==> Latches(x, d) || Latches(y, d))
            && (forall d :: Demand(s, d) == Demand(x, d) + Demand(y, d))
            && (forall d :: PortCount(s, d) == if d in Switches(x) then PortCount(x, d) else PortCount(y, d))
            && (forall d :: Reserved(s, d) == if d in Switches(x) then Reserved(x, d) else Reserved(y, d))
            && NumSwitches(s) == NumSwitches(x) + NumSwitches(y)
            && NumCables(s) == NumCables(x) + NumCables(y)
            && NumHosts(s) == NumHosts(x) + NumHosts(y)
  {
  }

  lemma TrunkShape(src: string, tgt: string, n: nat)
    ensures var s := Trunk(src, tgt, n);
            && Switches(s) == {} && HostNames(s) == {}
            && (forall p :: Pending(p, s) == p)
            && (forall d :: !Latches(s, d))
            && NumSwitches(s) == NumHosts(s) == 0 && NumCables(s) == n
  {
  }

  lemma TrunkDemand(src: string, tgt: string, n: nat, d: string)
    ensures Demand(Trunk(src, tgt, n), d) == (if src == d then n else 0) + (if tgt == d then n else 0)
  {
    if n > 0 {
      TrunkDemand(src, tgt, n - 1, d);
    }
  }

  lemma TrunkLegal(c: Context, src: string, tgt: string, n: nat)
    requires src in c.devices && tgt in c.devices
    ensures Legal(c, Trunk(src, tgt, n))
    ensures After(c, Trunk(src, tgt, n)) == c
  {
    TrunkShape(src, tgt, n);
    if n > 0 {
      TrunkLegal(c, src, tgt, n - 1);
      TrunkShape(src, tgt, n - 1);
    }
  }

  /** Scripts that are legal one after the other. */
  lemma Chain(c: Context, x: Script, y: Script)
    requires Legal(c, x) && Legal(After(c, x), y)
    ensures Legal(c, Then(x, y)) && After(c, Then(x, y)) == After(After(c, x), y)
  {
  }

  // ---- Hosts

  /** How many ports of a device that is not an IPU one host of a rack takes: one on each
      of two leaves; on a single leaf one, or two if an IPU is in between. */
  function LeafDemand(leaf1: string, leaf2: string, ipus: bool, d: string): nat {
    One(leaf1 == d) + if |leaf2| > 0 then One(leaf2 == d) else if ipus then One(leaf1 == d) else 0
  }

  lemma VmShape(rack: nat, host: nat, ipu: string, vms: nat)
    ensures var s := VmScript(rack, host, ipu, vms);
            && Switches(s) == {}
            && (forall n :: n in HostNames(s) <==> exists v | 1 <= v <= vms :: n == VmName(rack, host, v))
            && (forall p :: Pending(p, s) == p)
            && (forall d :: !Latches(s, d))
            && (forall d :: Demand(s, d) == if ipu == d then vms else 0)
            && NumSwitches(s) == NumCables(s) == 0 && NumHosts(s) == vms
  {
    hide VmName;
    if vms > 0 {
      VmShape(rack, host, ipu, vms - 1);
      var last := Do(Vm(VmName(rack, host, vms), Addr(rack, host, 10 + vms), ipu));
      Sequence(VmScript(rack, host, ipu, vms - 1), last);
      assert HostNames(last) == {VmName(rack, host, vms)};
      hide HostNames, Demand;
    }
  }

  lemma VmNew(rack: nat, host: nat, ipu: string, vms: nat)
    requires vms > 0
    ensures VmName(rack, host, vms) !in HostNames(VmScript(rack, host, ipu, vms - 1))
  {
    VmShape(rack, host, ipu, vms - 1);
    hide VmName, VmScript;
    if v :| 1 <= v <= vms - 1 && VmName(rack, host, vms) == VmName(rack, host, v) {
      SameHostVm(rack, host, v, vms);
    }
  }

  lemma VmLegal(c: Context, rack: nat, host: nat, ipu: string, vms: nat)
    requires ipu in c.devices
    requires forall v :: 1 <= v <= vms ==> VmName(rack, host, v) !in c.hosts
    ensures Legal(c, VmScript(rack, host, ipu, vms))
  {
    hide VmName;
    if vms > 0 {
      VmLegal(c, rack, host, ipu, vms - 1);
      VmShape(rack, host, ipu, vms - 1);
      VmNew(rack, host, ipu, vms);
      hide HostNames, Switches, Pending;
    }
  }

  lemma IpuShape(rack: nat, host: nat, leaf1: string, leaf2: string, vms: nat)
    ensures var s, ipu := IpuScript(rack, host, leaf1, leaf2, vms), IpuName(rack, host);
            && Switches(s) == {ipu}
            && (forall n :: n in HostNames(s) <==> exists v | 1 <= v <= vms :: n == VmName(rack, host, v))
            && (forall p :: Pending(p, s) == p + {ipu})
            && (forall d :: !Latches(s, d))
            && PortCount(s, ipu) == 3 + vms && Reserved(s, ipu) == 0
            && NumSwitches(s) == 1 && NumCables(s) == 2 && NumHosts(s) == vms
            && (forall d :: Demand(s, d) ==
                  One(leaf1 == d) + One((if |leaf2| > 0 then leaf2 else leaf1) == d) + if ipu == d then 3 + vms else 0)
  {
    hide VmName, IpuName, Trunk, VmScript;
    var ipu, up := IpuName(rack, host), if |leaf2| > 0 then leaf2 else leaf1;
    var s1, nic := Do(Switch(ipu, 2 + 1 + vms, None)), Do(Nic(Addr(rack, host, 1), ipu));
    UplinksShape(ipu, leaf1, up, 2 + 1 + vms);
    var s3 := Then(Then(s1, Trunk(leaf1, ipu, 1)), Trunk(up, ipu, 1));
    Sequence(s3, nic);
    Sequence(Then(s3, nic), VmScript(rack, host, ipu, vms));
    VmShape(rack, host, ipu, vms);
  }

  /** A device with a link to each of two others. */
  lemma UplinksShape(d: string, up1: string, up2: string, ports: nat)
    ensures var s := Then(Then(Do(Switch(d, ports, None)), Trunk(up1, d, 1)), Trunk(up2, d, 1));
            && Switches(s) == {d} && HostNames(s) == {} && (forall p :: Pending(p, s) == p) && (forall e :: !Latches(s, e))
            && PortCount(s, d) == ports && Reserved(s, d) == 0
            && NumSwitches(s) == 1 && NumCables(s) == 2 && NumHosts(s) == 0
            && (forall e :: Demand(s, e) == One(up1 == e) + One(up2 == e) + if d == e then 2 else 0)
  {
    var s1 := Do(Switch(d, ports, None));
    Sequence(s1, Trunk(up1, d, 1));
    Sequence(Then(s1, Trunk(up1, d, 1)), Trunk(up2, d, 1));
    TrunkShape(up1, d, 1);
    TrunkShape(up2, d, 1);
    forall e
      ensures Demand(Trunk(up1, d, 1), e) == One(up1 == e) + One(d == e)
      ensures Demand(Trunk(up2, d, 1), e) == One(up2 == e) + One(d == e)
    {
      TrunkDemand(up1, d, 1, e);
      TrunkDemand(up2, d, 1, e);
    }
    hide Trunk;
  }

  lemma NicShape(rack: nat, host: nat, leaf1: string, leaf2: string)
    ensures var s := NicScript(rack, host, leaf1, leaf2);
            && Switches(s) == {} && HostNames(s) == {}
            && (forall d :: !Latches(s, d))
            && NumSwitches(s) == NumCables(s) == NumHosts(s) == 0
            && (forall d :: Demand(s, d) == LeafDemand(leaf1, leaf2, false, d))
  {
  }

  /** What a host's script creates, whichever kind of host it is. */
  lemma HostShape(rack: nat, host: nat, leaf1: string, leaf2: string, ipus: bool, vms: nat)
    ensures var s := HostScript(rack, host, leaf1, leaf2, ipus, vms);
            && Switches(s) == (if ipus then {IpuName(rack, host)} else {})
            && (forall n :: n in HostNames(s) <==> NameOf(n, rack, host, ipus, vms))
            && (forall p :: Pending(p, s) == {})
            && (forall d :: !Latches(s, d))
            && (ipus ==> PortCount(s, IpuName(rack, host)) == 3 + vms && Reserved(s, IpuName(rack, host)) == 0)
            && NumSwitches(s) == One(ipus) && NumCables(s) == 2 * One(ipus)
            && NumHosts(s) == (if ipus then 1 + vms else 1)
            && (forall d :: Demand(s, d) ==
                  LeafDemand(leaf1, leaf2, ipus, d) + if ipus && d == IpuName(rack, host) then 3 + vms else 0)
  {
    var server := Do(Server(HostName(rack, host)));
    assert HostNames(server) == {HostName(rack, host)} && Switches(server) == {};
    if ipus {
      IpuShape(rack, host, leaf1, leaf2, vms);
      Sequence(IpuScript(rack, host, leaf1, leaf2, vms), server);
    } else {
      NicShape(rack, host, leaf1, leaf2);
      Sequence(NicScript(rack, host, leaf1, leaf2), server);
    }
    hide IpuScript, NicScript, VmName, HostName, IpuName;
  }

  /** No name that the host would introduce is in use. */
  ghost predicate NewHost(c: Context, rack: nat, host: nat, ipus: bool, vms: nat) {
    && (forall n | n in c.hosts :: !NameOf(n, rack, host, ipus, vms))
    && (ipus ==> IpuName(rack, host) !in c.devices)
  }

  ghost predicate Leaves(c: Context, leaf1: string, leaf2: string) {
    leaf1 in c.devices && (|leaf2| > 0 ==> leaf2 in c.devices && leaf1 != leaf2)
  }

  lemma IpuLegal(c: Context, rack: nat, host: nat, leaf1: string, leaf2: string, vms: nat)
    requires c.pending == {} && NewHost(c, rack, host, true, vms) && Leaves(c, leaf1, leaf2)
    ensures Legal(c, IpuScript(rack, host, leaf1, leaf2, vms))
  {
    Initials(rack, host, 0);
    hide VmName, IpuName;
    var ipu, up := IpuName(rack, host), if |leaf2| > 0 then leaf2 else leaf1;
    var s1, nic := Do(Switch(ipu, 2 + 1 + vms, None)), Do(Nic(Addr(rack, host, 1), ipu));
    var s2 := Then(s1, Trunk(leaf1, ipu, 1));
    var s3 := Then(s2, Trunk(up, ipu, 1));
    var s4 := Then(s3, nic);
    var d := Context(c.devices + {ipu}, c.hosts, {});
    assert Legal(c, s1) && After(c, s1) == d;
    TrunkLegal(d, leaf1, ipu, 1);
    TrunkLegal(d, up, ipu, 1);
    hide Trunk;
    Chain(c, s1, Trunk(leaf1, ipu, 1));
    Chain(c, s2, Trunk(up, ipu, 1));
    assert Legal(d, nic) && After(d, nic) == d.(pending := {ipu});
    Chain(c, s3, nic);
    forall v | 1 <= v <= vms
      ensures VmName(rack, host, v) !in c.hosts
    {
      assert NameOf(VmName(rack, host, v), rack, host, true, vms);
    }
    VmLegal(d.(pending := {ipu}), rack, host, ipu, vms);
    Chain(c, s4, VmScript(rack, host, ipu, vms));
    assert IpuScript(rack, host, leaf1, leaf2, vms) == Then(s4, VmScript(rack, host, ipu, vms));
    hide *;
  }

  lemma HostLegal(c: Context, rack: nat, host: nat, leaf1: string, leaf2: string, ipus: bool, vms: nat)
    requires c.pending == {} && NewHost(c, rack, host, ipus, vms) && Leaves(c, leaf1, leaf2)
    ensures Legal(c, HostScript(rack, host, leaf1, leaf2, ipus, vms))
  {
    var name := HostName(rack, host);
    assert NameOf(name, rack, host, ipus, vms);
    if ipus {
      var s := IpuScript(rack, host, leaf1, leaf2, vms);
      IpuLegal(c, rack, host, leaf1, leaf2, vms);
      IpuShape(rack, host, leaf1, leaf2, vms);
      if name in HostNames(s) {
        var v :| 1 <= v <= vms && name == VmName(rack, host, v);
        Initials(rack, host, v);
      }
      hide IpuScript, VmName, HostName, NameOf;
      assert Legal(After(c, s), Do(Server(name)));
    } else {
      NicShape(rack, host, leaf1, leaf2);
      hide HostName, NameOf;
      assert Legal(c, NicScript(rack, host, leaf1, leaf2));
      assert Legal(After(c, NicScript(rack, host, leaf1, leaf2)), Do(Server(name)));
    }
  }

  // ---- Racks

  ghost predicate InRack(n: string, rack: nat, count: nat, ipus: bool, vms: nat) {
    exists h :: 1 <= h <= count && NameOf(n, rack, h, ipus, vms)
  }

  /** What a rack's script creates. */
  lemma RackShape(rack: nat, leaf1: string, leaf2: string, count: nat, ipus: bool, vms: nat)
    ensures var s := RackScript(rack, leaf1, leaf2, count, ipus, vms);
            && (forall d :: d in Switches(s) <==> ipus && IsIpu(d, rack, count))
            && (forall n :: n in HostNames(s) <==> InRack(n, rack, count, ipus, vms))
            && (forall p :: Pending(p, s) == if count == 0 then p else {})
            && (forall d :: !Latches(s, d))
            && (forall d | d in Switches(s) :: PortCount(s, d) == 3 + vms && Reserved(s, d) == 0)
  {
    if count > 0 {
      RackShape(rack, leaf1, leaf2, count - 1, ipus, vms);
      HostShape(rack, count, leaf1, leaf2, ipus, vms);
      Sequence(RackScript(rack, leaf1, leaf2, count - 1, ipus, vms), HostScript(rack, count, leaf1, leaf2, ipus, vms));
      assert RackScript(rack, leaf1, leaf2, count, ipus, vms) ==
             Then(RackScript(rack, leaf1, leaf2, count - 1, ipus, vms), HostScript(rack, count, leaf1, leaf2, ipus, vms));
      forall d
        ensures IsIpu(d, rack, count) <==> IsIpu(d, rack, count - 1) || d == IpuName(rack, count)
      {
        IpuSnoc(d, rack, count);
      }
      forall n
        ensures InRack(n, rack, count, ipus, vms) <==> InRack(n, rack, count - 1, ipus, vms) || NameOf(n, rack, count, ipus, vms)
      {
        hide NameOf;
      }
      hide *;
    }
  }

  lemma RackSize(rack: nat, leaf1: string, leaf2: string, count: nat, ipus: bool, vms: nat)
    ensures var s := RackScript(rack, leaf1, leaf2, count, ipus, vms);
            && NumSwitches(s) == (if ipus then count else 0)
            && NumCables(s) == (if ipus then 2 * count else 0)
            && NumHosts(s) == count * (if ipus then 1 + vms else 1)
  {
    if count > 0 {
      RackSize(rack, leaf1, leaf2, count - 1, ipus, vms);
      HostShape(rack, count, leaf1, leaf2, ipus, vms);
      MulSucc(count - 1, if ipus then 1 + vms else 1);
      hide HostScript;
    }
  }

  /** How many ports a rack takes: its IPUs all they have, and the leaves as many per host. */
  lemma {:induction false} RackDemand(rack: nat, leaf1: string, leaf2: string, count: nat, ipus: bool, vms: nat, d: string)
    ensures Demand(RackScript(rack, leaf1, leaf2, count, ipus, vms), d) ==
            count * LeafDemand(leaf1, leaf2, ipus, d) + if ipus && IsIpu(d, rack, count) then 3 + vms else 0
  {
    if count > 0 {
      RackDemand(rack, leaf1, leaf2, count - 1, ipus, vms, d);
      HostShape(rack, count, leaf1, leaf2, ipus, vms);
      NextIpuNew(rack, count);
      MulSucc(count - 1, LeafDemand(leaf1, leaf2, ipus, d));
      IpuSnoc(d, rack, count);
      assert Demand(HostScript(rack, count, leaf1, leaf2, ipus, vms), d) ==
             LeafDemand(leaf1, leaf2, ipus, d) + if ipus && d == IpuName(rack, count) then 3 + vms else 0;
      assert Demand(RackScript(rack, leaf1, leaf2, count, ipus, vms), d) ==
             Demand(RackScript(rack, leaf1, leaf2, count - 1, ipus, vms), d) + Demand(HostScript(rack, count, leaf1, leaf2, ipus, vms), d);
      hide *;
    }
  }

  lemma IpuSnoc(d: string, rack: nat, count: nat)
    requires count > 0
    ensures IsIpu(d, rack, count) <==> IsIpu(d, rack, count - 1) || d == IpuName(rack, count)
  {
    hide IpuName;
  }

  lemma NextIpuNew(rack: nat, count: nat)
    requires count > 0
    ensures !IsIpu(IpuName(rack, count), rack, count - 1)
  {
    if h :| 1 <= h <= count - 1 && IpuName(rack, count) == IpuName(rack, h) {
      SameRackIpu(rack, h, count);
    }
  }

  lemma MulSucc(n: nat, k: nat)
    ensures (n + 1) * k == n * k + k
  {
  }

  /** No name that the rack would introduce is in use. */
  ghost predicate NewRack(c: Context, rack: nat, count: nat, ipus: bool, vms: nat) {
    && (forall n, h | n in c.hosts && 1 <= h <= count :: !NameOf(n, rack, h, ipus, vms))
    && (forall h | 1 <= h <= count :: IpuName(rack, h) !in c.devices)
  }

  lemma {:induction false} RackLegal(c: Context, rack: nat, leaf1: string, leaf2: string, count: nat, ipus: bool, vms: nat)
    requires rack > 0 && NamesApart(rack, count, ipus, vms) && c.pending == {}
    requires NewRack(c, rack, count, ipus, vms) && Leaves(c, leaf1, leaf2)
    ensures Legal(c, RackScript(rack, leaf1, leaf2, count, ipus, vms))
  {
    if count > 0 {
      var s := RackScript(rack, leaf1, leaf2, count - 1, ipus, vms);
      RackLegal(c, rack, leaf1, leaf2, count - 1, ipus, vms);
      RackShape(rack, leaf1, leaf2, count - 1, ipus, vms);
      NextHostNew(c, rack, leaf1, leaf2, count, ipus, vms);
      HostLegal(After(c, s), rack, count, leaf1, leaf2, ipus, vms);
      hide HostScript, NewHost, NewRack, NameOf, IpuName;
    }
  }

  lemma NextHostNew(c: Context, rack: nat, leaf1: string, leaf2: string, count: nat, ipus: bool, vms: nat)
    requires rack > 0 && count > 0 && NamesApart(rack, count, ipus, vms) && NewRack(c, rack, count, ipus, vms)
    ensures NewHost(After(c, RackScript(rack, leaf1, leaf2, count - 1, ipus, vms)), rack, count, ipus, vms)
  {
    var s := RackScript(rack, leaf1, leaf2, count - 1, ipus, vms);
    RackShape(rack, leaf1, leaf2, count - 1, ipus, vms);
    NextIpuNew(rack, count);
    hide IpuName, IsIpu, RackScript, NameOf;
    forall n | n in HostNames(s)
      ensures !NameOf(n, rack, count, ipus, vms)
    {
      var h :| 1 <= h <= count - 1 && NameOf(n, rack, h, ipus, vms);
    }
  }

  // ---- Names that are used twice

  /** Whatever was there before, a script leaves two hosts of one name. */
  ghost predicate Doubles(s: Script) {
    forall b :: !DistinctHosts(Run(b, s).topology.hosts)
  }

  /** Hosts are only ever added, under the names of the script. */
  lemma HostsAdded(b: Build, s: Script, n: string)
    ensures var hs, r := b.topology.hosts, Run(b, s).topology.hosts;
            && hs <= r && (n in HostNames(s) ==> Loader.HostIn(r[|hs|..], n))
    decreases s
  {
    match s
    case Skip =>
    case Do(t) =>
      match t {
        case Vm(h, _, _) => assert Run(b, s).topology.hosts[|b.topology.hosts|..][0].id == h;
        case Server(h) => assert Run(b, s).topology.hosts[|b.topology.hosts|..][0].id == h;
        case _ =>
      }
    case Then(x, y) =>
      HostsAdded(b, x, n);
      HostsAdded(Run(b, x), y, n);
      NamedOn(b.topology.hosts, Run(b, x).topology.hosts, Run(b, s).topology.hosts, n);
  }

  lemma NamedOn(a: seq<HostDesc>, b: seq<HostDesc>, c: seq<HostDesc>, n: string)
    requires a <= b <= c
    ensures Loader.HostIn(b[|a|..], n) || Loader.HostIn(c[|b|..], n) ==> Loader.HostIn(c[|a|..], n)
  {
    assert c[|a|..] == b[|a|..] + c[|b|..];
  }

  lemma DoublesThen(x: Script, y: Script)
    requires Doubles(x) || Doubles(y)
    ensures Doubles(Then(x, y))
  {
    forall b
      ensures !DistinctHosts(Run(b, Then(x, y)).topology.hosts)
    {
      HostsAdded(Run(b, x), y, "");
      var hs, r := Run(b, x).topology.hosts, Run(b, Then(x, y)).topology.hosts;
      if Doubles(x) {
        var i, j :| 0 <= i < j < |hs| && hs[i].id == hs[j].id;
        assert r[i].id == r[j].id;
      }
    }
  }

  lemma SharedDoubles(x: Script, y: Script, n: string)
    requires n in HostNames(x) && n in HostNames(y)
    ensures Doubles(Then(x, y))
  {
    forall b
      ensures !DistinctHosts(Run(b, Then(x, y)).topology.hosts)
    {
      HostsAdded(b, x, n);
      HostsAdded(Run(b, x), y, n);
      assert Run(b, Then(x, y)) == Run(Run(b, x), y);
      hide *;
      NamedTwice(b.topology.hosts, Run(b, x).topology.hosts, Run(b, Then(x, y)).topology.hosts, n);
    }
  }

  lemma NamedTwice(a: seq<HostDesc>, b: seq<HostDesc>, c: seq<HostDesc>, n: string)
    requires a <= b <= c && Loader.HostIn(b[|a|..], n) && Loader.HostIn(c[|b|..], n)
    ensures !DistinctHosts(c)
  {
    var i :| 0 <= i < |b[|a|..]| && b[|a|..][i].id == n;
    var j :| 0 <= j < |c[|b|..]| && c[|b|..][j].id == n;
    assert c[|a| + i].id == c[|b| + j].id;
  }

  /** What such a script makes does not load. */
  lemma DoublesFail(s: Script)
    requires Doubles(s)
    ensures Loader.Load(Inventory.EMPTY, Made(s)).1 != Done
  {
    var t := Made(s);
    assert !DistinctHosts(Run(START, s).topology.hosts);
    var i, j :| 0 <= i < j < |t.hosts| && t.hosts[i].id == t.hosts[j].id;
    assert !Loader.HostCompatible(t.hosts[i], t.hosts[j]);
    hide Run, Loader.HostCompatible, Loader.HasPort, Loader.UsedByLinks, Loader.Compatible, Loader.Load, Loader.DirectedLinks;
    Loader.LoadIff(t);
  }

  /** Two hosts of a rack that share a name. */
  lemma RackDoubles(rack: nat, leaf1: string, leaf2: string, count: nat, ipus: bool, vms: nat, n: string, h: nat, g: nat)
    requires 1 <= h < g <= count && NameOf(n, rack, h, ipus, vms) && NameOf(n, rack, g, ipus, vms)
    ensures Doubles(RackScript(rack, leaf1, leaf2, count, ipus, vms))
  {
    var front, last := RackScript(rack, leaf1, leaf2, count - 1, ipus, vms), HostScript(rack, count, leaf1, leaf2, ipus, vms);
    assert RackScript(rack, leaf1, leaf2, count, ipus, vms) == Then(front, last);
    if g < count {
      RackDoubles(rack, leaf1, leaf2, count - 1, ipus, vms, n, h, g);
      DoublesThen(front, last);
    } else {
      RackShape(rack, leaf1, leaf2, count - 1, ipus, vms);
      HostShape(rack, count, leaf1, leaf2, ipus, vms);
      assert InRack(n, rack, count - 1, ipus, vms);
      SharedDoubles(front, last, n);
    }
    hide *;
  }

  // ---- Names without a slash

  lemma TrunkSlashless(src: string, tgt: string, n: nat)
    requires '/' !in src && '/' !in tgt
    ensures Slashless(Trunk(src, tgt, n))
  {
  }

  lemma SlashlessThen(x: Script, y: Script)
    ensures Slashless(Then(x, y)) <==> Slashless(x) && Slashless(y)
  {
  }

  lemma IpuSlashless(rack: nat, host: nat, leaf1: string, leaf2: string, vms: nat)
    requires '/' !in leaf1 && '/' !in leaf2
    ensures Slashless(IpuScript(rack, host, leaf1, leaf2, vms))
  {
    var ipu, up := IpuName(rack, host), if |leaf2| > 0 then leaf2 else leaf1;
    Initials(rack, host, 0);
    hide IpuName, Trunk, VmScript;
    TrunkSlashless(leaf1, ipu, 1);
    TrunkSlashless(up, ipu, 1);
    VmsSlashless(rack, host, ipu, vms);
    var s1, nic := Do(Switch(ipu, 2 + 1 + vms, None)), Do(Nic(Addr(rack, host, 1), ipu));
    var s2 := Then(s1, Trunk(leaf1, ipu, 1));
    var s3 := Then(s2, Trunk(up, ipu, 1));
    assert Slashless(s1) && Slashless(nic);
    hide Slashless;
    SlashlessThen(s1, Trunk(leaf1, ipu, 1));
    SlashlessThen(s2, Trunk(up, ipu, 1));
    SlashlessThen(s3, nic);
    SlashlessThen(Then(s3, nic), VmScript(rack, host, ipu, vms));
  }

  lemma HostSlashless(rack: nat, host: nat, leaf1: string, leaf2: string, ipus: bool, vms: nat)
    requires '/' !in leaf1 && '/' !in leaf2
    ensures Slashless(HostScript(rack, host, leaf1, leaf2, ipus, vms))
  {
    IpuSlashless(rack, host, leaf1, leaf2, vms);
    assert Slashless(NicScript(rack, host, leaf1, leaf2));
    hide IpuScript, NicScript;
  }

  lemma VmsSlashless(rack: nat, host: nat, ipu: string, vms: nat)
    requires '/' !in ipu
    ensures Slashless(VmScript(rack, host, ipu, vms))
  {
    hide VmName;
  }

  lemma RackSlashless(rack: nat, leaf1: string, leaf2: string, count: nat, ipus: bool, vms: nat)
    requires '/' !in leaf1 && '/' !in leaf2
    ensures Slashless(RackScript(rack, leaf1, leaf2, count, ipus, vms))
  {
    if count > 0 {
      RackSlashless(rack, leaf1, leaf2, count - 1, ipus, vms);
      HostSlashless(rack, count, leaf1, leaf2, ipus, vms);
      hide HostScript;
    }
  }

  // ---- Spines, and the racks of a whole fabric

  function SpineName(i: nat): string {
    "spine" + Dec(i)
  }

  lemma SpineInitial(i: nat)
    ensures SpineName(i)[0] == 's' && '/' !in SpineName(i) && ':' !in SpineName(i)
  {
    assert IsNumeral(Dec(i));
    assert '/' !in DIGITS && ':' !in DIGITS;
  }

  lemma SpineNamesDiffer(i: nat, j: nat)
    requires SpineName(i) == SpineName(j)
    ensures i == j
  {
    SamePrefix("spine", Dec(i), Dec(j));
    DecInjective(i, j);
  }

  predicate IsSpine(d: string, n: nat) {
    exists i | 1 <= i <= n :: d == SpineName(i)
  }

  lemma SpinesIn(n: nat)
    ensures forall i | 1 <= i <= n :: IsSpine(SpineName(i), n)
  {
  }

  /** An IPU of one of the first `n` racks. */
  predicate IsRackIpu(d: string, n: nat, count: nat) {
    exists p | 1 <= p <= n :: IsIpu(d, p, count)
  }

  ghost predicate InRacks(x: string, n: nat, count: nat, ipus: bool, vms: nat) {
    exists p :: 1 <= p <= n && InRack(x, p, count, ipus, vms)
  }

  lemma NextRackIpus(n: nat, count: nat, ipus: bool, vms: nat, d: string)
    requires n > 0 && NamesApart(n, count, ipus, vms)
    ensures IsRackIpu(d, n, count) <==> IsRackIpu(d, n - 1, count) || IsIpu(d, n, count)
    ensures IsIpu(d, n, count) ==> !IsRackIpu(d, n - 1, count)
  {
    if IsIpu(d, n, count) && IsRackIpu(d, n - 1, count) {
      var h :| 1 <= h <= count && d == IpuName(n, h);
      var p :| 1 <= p <= n - 1 && IsIpu(d, p, count);
      var g :| 1 <= g <= count && d == IpuName(p, g);
      IpusApart(n, h, p, g, n, count, ipus, vms);
    }
    hide IpuName, IsIpu;
  }

  lemma RackIpuNew(n: nat, h: nat, count: nat, ipus: bool, vms: nat)
    requires n > 0 && 1 <= h <= count && NamesApart(n, count, ipus, vms)
    ensures !IsRackIpu(IpuName(n, h), n - 1, count)
  {
    assert IsIpu(IpuName(n, h), n, count);
    NextRackIpus(n, count, ipus, vms, IpuName(n, h));
  }

  /** No host of the racks before shares a name with one of this. */
  lemma RackNamesNew(x: string, n: nat, count: nat, ipus: bool, vms: nat, h: nat)
    requires n > 0 && 1 <= h <= count && NamesApart(n, count, ipus, vms) && InRacks(x, n - 1, count, ipus, vms)
    ensures !NameOf(x, n, h, ipus, vms)
  {
    hide NameOf;
    var p :| 1 <= p <= n - 1 && InRack(x, p, count, ipus, vms);
    var g :| 1 <= g <= count && NameOf(x, p, g, ipus, vms);
  }

  // ---- Spines

  /** Spines of `ports` ports each, some of them reserved. */
  function SpinesScript(n: nat, ports: nat, reserved: Option<nat>): Script {
    if n == 0 then Skip else Then(SpinesScript(n - 1, ports, reserved), Do(Switch(SpineName(n), ports, reserved)))
  }

  lemma SpinesShape(n: nat, ports: nat, reserved: Option<nat>)
    ensures var s := SpinesScript(n, ports, reserved);
            && (forall d :: d in Switches(s) <==> IsSpine(d, n))
            && HostNames(s) == {} && (forall p :: Pending(p, s) == p)
            && (forall d :: !Latches(s, d) && Demand(s, d) == 0)
            && (forall d | d in Switches(s) ::
                  PortCount(s, d) == ports && Reserved(s, d) == if reserved.Some? then reserved.value else 0)
            && NumSwitches(s) == n && NumCables(s) == NumHosts(s) == 0
  {
    if n > 0 {
      var last := Do(Switch(SpineName(n), ports, reserved));
      SpinesShape(n - 1, ports, reserved);
      Sequence(SpinesScript(n - 1, ports, reserved), last);
      assert forall p :: Pending(p, last) == p;
      hide SpineName, Pending, Latches, Demand, HostNames;
    }
  }

  lemma SpinesLegal(n: nat, ports: nat, reserved: Option<nat>)
    ensures Legal(NOTHING, SpinesScript(n, ports, reserved))
  {
    if n > 0 {
      hide SpineName, IsSpine;
      SpinesLegal(n - 1, ports, reserved);
      SpinesShape(n - 1, ports, reserved);
      SpineInitial(n);
      SpineAmong(n - 1, n);
    }
  }

  lemma SpinesSlashless(n: nat, ports: nat, reserved: Option<nat>)
    ensures Slashless(SpinesScript(n, ports, reserved))
  {
    if n > 0 {
      SpineInitial(n);
      SpinesSlashless(n - 1, ports, reserved);
      hide SpineName;
    }
  }

  /** Just the spines of a recipe. */
  ghost predicate OnlySpines(c: Context, spines: nat) {
    (forall d :: d in c.devices <==> IsSpine(d, spines)) && c.hosts == {} && c.pending == {}
  }

  /** The first `n` ports of a spine are there and free. */
  ghost predicate FreeFrom(s: Inventory.Sim, spine: nat, n: nat) {
    forall k | 1 <= k <= n :: Loader.Free(s, PortID(SpineName(spine), k))
  }

  /** Free ports are ports of the first spines, numbered from 1. */
  ghost predicate FreeOnly(s: Inventory.Sim, spine: nat, spines: nat) {
    forall k: nat | Loader.Free(s, PortID(SpineName(spine), k)) :: spine <= spines && k > 0
  }

  /** What a pod offers to links from its spines: which spines there are, and whether the
      first `n` ports of each are there and free. */
  ghost predicate Offers(s: Inventory.Sim, spines: nat, n: nat, room: bool) {
    && (forall k | k in s.links :: k.src in s.egress)
    && (forall i: nat | i > 0 :: FreeOnly(s, i, spines))
    && (forall i | 1 <= i <= spines :: FreeFrom(s, i, n) <==> room)
  }

  /** The spines of a script are numbered from 1, never latched, and alike. */
  ghost predicate SpinesAlike(s: Script, spines: nat, n: nat, room: bool) {
    && (forall i: nat | i > 0 :: SpineName(i) in Switches(s) <==> i <= spines)
    && (forall i | 1 <= i <= spines :: !Latches(s, SpineName(i)) && (RoomOn(s, SpineName(i), n) <==> room))
  }

  lemma FabricOffers(s: Script, spines: nat, n: nat, room: bool)
    requires Loadable(s) && n > 0 && SpinesAlike(s, spines, n, room)
    ensures Offers(Loader.Load(Inventory.EMPTY, Made(s)).0, spines, n, room)
  {
    hide *;
    var r := Loader.Load(Inventory.EMPTY, Made(s)).0;
    LoadedSources(s);
    forall i: nat | i > 0
      ensures FreeOnly(r, i, spines)
    {
      SpineFreeOnly(s, spines, n, room, i);
    }
    forall i | 1 <= i <= spines
      ensures FreeFrom(r, i, n) <==> room
    {
      SpineFreeFrom(s, spines, n, room, i);
    }
    assert Offers(r, spines, n, room) by {
      MakeOffer(r, spines, n, room);
    }
  }

  lemma SpineFreeOnly(s: Script, spines: nat, n: nat, room: bool, i: nat)
    requires Loadable(s) && SpinesAlike(s, spines, n, room) && i > 0
    ensures FreeOnly(Loader.Load(Inventory.EMPTY, Made(s)).0, i, spines)
  {
    AlikeAt(s, spines, n, room, i);
    SpineInitial(i);
    hide Loadable, SpinesAlike, SpineName, PortID, Loader.Load, Loader.Free, Made, Uses;
    forall k: nat
      ensures Loader.Free(Loader.Load(Inventory.EMPTY, Made(s)).0, PortID(SpineName(i), k)) ==> i <= spines && k > 0
    {
      MadePortFree(s, SpineName(i), k);
    }
  }

  lemma SpineFreeFrom(s: Script, spines: nat, n: nat, room: bool, i: nat)
    requires Loadable(s) && n > 0 && SpinesAlike(s, spines, n, room) && 1 <= i <= spines
    ensures FreeFrom(Loader.Load(Inventory.EMPTY, Made(s)).0, i, n) <==> room
  {
    AlikeAt(s, spines, n, room, i);
    SpineInitial(i);
    hide Loadable, SpinesAlike, SpineName, PortID, Loader.Load, Loader.Free, Made, RoomOn;
    MadeRoom(s, SpineName(i), n);
  }

  lemma LoadedSources(s: Script)
    requires Loadable(s)
    ensures var r := Loader.Load(Inventory.EMPTY, Made(s)).0; forall k | k in r.links :: k.src in r.egress
  {
    hide Complete, LatchesFree, InBudget, Made, Loader.Load;
    MadeLoaded(s, "");
  }

  lemma AlikeAt(s: Script, spines: nat, n: nat, room: bool, i: nat)
    requires SpinesAlike(s, spines, n, room) && i > 0
    ensures SpineName(i) in Switches(s) <==> i <= spines
    ensures i <= spines ==> !Latches(s, SpineName(i)) && (RoomOn(s, SpineName(i), n) <==> room)
  {
  }

  lemma MakeOffer(s: Inventory.Sim, spines: nat, n: nat, room: bool)
    requires forall k | k in s.links :: k.src in s.egress
    requires forall i: nat | i > 0 :: FreeOnly(s, i, spines)
    requires forall i | 1 <= i <= spines :: FreeFrom(s, i, n) <==> room
    ensures Offers(s, spines, n, room)
  {
    hide FreeOnly, FreeFrom;
  }

  lemma SpineAmong(n: nat, i: nat)
    requires i > 0
    ensures IsSpine(SpineName(i), n) <==> i <= n
  {
    SpinesIn(n);
    if j :| 1 <= j <= n && SpineName(i) == SpineName(j) {
      SpineNamesDiffer(i, j);
    }
    hide SpineName;
  }

  lemma NextSpine(d: string, n: nat)
    requires n > 0
    ensures IsSpine(d, n) <==> IsSpine(d, n - 1) || d == SpineName(n)
    ensures d == SpineName(n) ==> !IsSpine(d, n - 1)
  {
    SpineAmong(n - 1, n);
    hide SpineName;
  }
}

/** How generated topologies are wired: how many links join which two devices, and which hosts
    there are, with their addresses and what they are attached to. */
module Wiring {
  import opened Text
  import opened Schema
  import opened TopologyBuilder
  import opened Scripts
  import opened Racks
  import opened ScriptLoads
  import AccessFabric
  import PlainFabric

  // ---- Links between devices

  /** The link runs both ways between ports of the two devices, described from the first. */
  predicate Joins(l: LinkDesc, d: string, e: string) {
    !l.unidirectional && DeviceOf(l.src) == Some(d) && DeviceOf(l.tgt) == Some(e)
  }

  function LinksBetween(ls: seq<LinkDesc>, d: string, e: string): nat {
    if ls == [] then 0 else LinksBetween(ls[..|ls| - 1], d, e) + One(Joins(ls[|ls| - 1], d, e))
  }

  /** How many cables a script lays from one device to another. */
  function Cables(s: Script, d: string, e: string): nat {
    match s
    case Do(Cable(src, tgt)) => One(src == d && tgt == e)
    case Then(x, y) => Cables(x, d, e) + Cables(y, d, e)
    case _ => 0
  }

  lemma BetweenSnoc(ls: seq<LinkDesc>, l: LinkDesc, d: string, e: string)
    ensures LinksBetween(ls + [l], d, e) == LinksBetween(ls, d, e) + One(Joins(l, d, e))
  {
    assert (ls + [l])[..|ls|] == ls;
  }

  lemma StepCables(b: Build, t: Step, d: string, e: string)
    requires Slashless(Do(t))
    ensures LinksBetween(Apply(b, t).topology.links, d, e) == LinksBetween(b.topology.links, d, e) + Cables(Do(t), d, e)
  {
    if t.Cable? {
      PortOn(t.src, Upcoming(b.nextPort, t.src));
      PortOn(t.tgt, Upcoming(Advance(b, t.src).nextPort, t.tgt));
      hide PortID, DeviceOf, Successor;
      BetweenSnoc(b.topology.links, Apply(b, t).topology.links[|b.topology.links|], d, e);
    }
  }

  lemma {:induction false} ScriptCables(b: Build, s: Script, d: string, e: string)
    requires Slashless(s)
    ensures LinksBetween(Run(b, s).topology.links, d, e) == LinksBetween(b.topology.links, d, e) + Cables(s, d, e)
    decreases s
  {
    match s
    case Skip =>
    case Do(t) => StepCables(b, t, d, e);
    case Then(x, y) =>
      ScriptCables(b, x, d, e);
      ScriptCables(Run(b, x), y, d, e);
  }

  /** The links of a topology are the cables of its script. */
  lemma MadeCables(s: Script, d: string, e: string)
    requires Slashless(s)
    ensures LinksBetween(Made(s).links, d, e) == Cables(s, d, e)
  {
    ScriptCables(START, s, d, e);
    hide Run, Cables;
  }

  lemma CablesThen(x: Script, y: Script, d: string, e: string)
    ensures Cables(Then(x, y), d, e) == Cables(x, d, e) + Cables(y, d, e)
  {
  }

  lemma {:induction false} TrunkCables(src: string, tgt: string, n: nat, d: string, e: string)
    ensures Cables(Trunk(src, tgt, n), d, e) == if src == d && tgt == e then n else 0
  {
    if n > 0 {
      TrunkCables(src, tgt, n - 1, d, e);
    }
  }

  /** A script with no cables at all lays none between any two devices. */
  lemma NoCables(s: Script, d: string, e: string)
    ensures NumCables(s) == 0 ==> Cables(s, d, e) == 0
  {
  }

  /** The links of one host's IPU: one to each of two leaves, or two to a single one. */
  lemma IpuCables(rack: nat, host: nat, leaf1: string, leaf2: string, vms: nat, d: string, e: string)
    ensures Cables(IpuScript(rack, host, leaf1, leaf2, vms), d, e) ==
            if e == IpuName(rack, host) then One(d == leaf1) + One(d == if |leaf2| > 0 then leaf2 else leaf1) else 0
  {
    hide Cables, Trunk, VmScript, IpuName, NumCables;
    var ipu, up := IpuName(rack, host), if |leaf2| > 0 then leaf2 else leaf1;
    var s1, nic := Do(Switch(ipu, 2 + 1 + vms, None)), Do(Nic(Addr(rack, host, 1), ipu));
    var s2 := Then(s1, Trunk(leaf1, ipu, 1));
    var s3 := Then(s2, Trunk(up, ipu, 1));
    NotCables(s1, nic, d, e);
    VmShape(rack, host, ipu, vms);
    NoCables(VmScript(rack, host, ipu, vms), d, e);
    TrunkCables(leaf1, ipu, 1, d, e);
    TrunkCables(up, ipu, 1, d, e);
    CablesThen(s1, Trunk(leaf1, ipu, 1), d, e);
    CablesThen(s2, Trunk(up, ipu, 1), d, e);
    CablesThen(s3, nic, d, e);
    CablesThen(Then(s3, nic), VmScript(rack, host, ipu, vms), d, e);
  }

  lemma NotCables(s: Script, t: Script, d: string, e: string)
    requires s.Do? && !s.step.Cable? && t.Do? && !t.step.Cable?
    ensures Cables(s, d, e) == 0 && Cables(t, d, e) == 0
  {
  }

  lemma HostCables(rack: nat, host: nat, leaf1: string, leaf2: string, ipus: bool, vms: nat, d: string, e: string)
    ensures Cables(HostScript(rack, host, leaf1, leaf2, ipus, vms), d, e) ==
            if ipus && e == IpuName(rack, host) then One(d == leaf1) + One(d == if |leaf2| > 0 then leaf2 else leaf1) else 0
  {
    var server := Do(Server(HostName(rack, host)));
    IpuCables(rack, host, leaf1, leaf2, vms, d, e);
    NicShape(rack, host, leaf1, leaf2);
    NoCables(NicScript(rack, host, leaf1, leaf2), d, e);
    NotCables(server, server, d, e);
    CablesThen(if ipus then IpuScript(rack, host, leaf1, leaf2, vms) else NicScript(rack, host, leaf1, leaf2), server, d, e);
    hide Cables, IpuScript, NicScript, IpuName, HostName, NumCables;
  }

  lemma {:induction false} RackCables(rack: nat, leaf1: string, leaf2: string, count: nat, ipus: bool, vms: nat, d: string, e: string)
    ensures Cables(RackScript(rack, leaf1, leaf2, count, ipus, vms), d, e) ==
            if ipus && IsIpu(e, rack, count) then One(d == leaf1) + One(d == if |leaf2| > 0 then leaf2 else leaf1) else 0
  {
    hide Cables, HostScript, IpuName, IsIpu;
    if count == 0 {
      NoRack(rack, leaf1, leaf2, ipus, vms, d, e);
    } else {
      RackCables(rack, leaf1, leaf2, count - 1, ipus, vms, d, e);
      HostCables(rack, count, leaf1, leaf2, ipus, vms, d, e);
      CablesThen(RackScript(rack, leaf1, leaf2, count - 1, ipus, vms), HostScript(rack, count, leaf1, leaf2, ipus, vms), d, e);
      IpuSnoc(e, rack, count);
      NextIpuNew(rack, count);
    }
  }

  lemma NoRack(rack: nat, leaf1: string, leaf2: string, ipus: bool, vms: nat, d: string, e: string)
    ensures Cables(RackScript(rack, leaf1, leaf2, 0, ipus, vms), d, e) == 0 && !IsIpu(e, rack, 0)
  {
  }

  // ---- Access fabrics

  lemma {:induction false} UplinkCables(f: AccessFabric.Recipe, leaf1: string, leaf2: string, n: nat, d: string, e: string)
    ensures Cables(AccessFabric.UplinkScript(f, leaf1, leaf2, n), d, e) ==
            (if IsSpine(d, n) && e == leaf1 then f.spineTrunk else 0) + (if IsSpine(d, n) && e == leaf2 then f.spineTrunk else 0)
  {
    hide Cables, Trunk, SpineName, IsSpine;
    if n == 0 {
      NoUplinks(f, leaf1, leaf2, d, e);
    } else {
      var u, v := Trunk(SpineName(n), leaf1, f.spineTrunk), Trunk(SpineName(n), leaf2, f.spineTrunk);
      UplinkCables(f, leaf1, leaf2, n - 1, d, e);
      TrunkCables(SpineName(n), leaf1, f.spineTrunk, d, e);
      TrunkCables(SpineName(n), leaf2, f.spineTrunk, d, e);
      CablesThen(u, v, d, e);
      CablesThen(AccessFabric.UplinkScript(f, leaf1, leaf2, n - 1), Then(u, v), d, e);
      NextSpine(d, n);
    }
  }

  lemma NoUplinks(f: AccessFabric.Recipe, leaf1: string, leaf2: string, d: string, e: string)
    ensures Cables(AccessFabric.UplinkScript(f, leaf1, leaf2, 0), d, e) == 0 && !IsSpine(d, 0)
  {
  }

  lemma ReadyCables(f: AccessFabric.Recipe, pair: nat, d: string, e: string)
    requires pair > 0
    ensures var leaf1, leaf2 := AccessFabric.LeafName(pair, 1), AccessFabric.LeafName(pair, 2);
            Cables(AccessFabric.ReadyScript(f, pair), d, e) ==
            (if IsSpine(d, f.spines) && (e == leaf1 || e == leaf2) then f.spineTrunk else 0) +
            (if d == leaf1 && e == leaf2 then f.pairTrunk else 0)
  {
    hide Cables, Trunk, AccessFabric.LeafName, AccessFabric.UplinkScript, IsSpine;
    var leaf1, leaf2 := AccessFabric.LeafName(pair, 1), AccessFabric.LeafName(pair, 2);
    var s1, s2 := Do(Switch(leaf1, f.leafPortCount, None)), Do(Switch(leaf2, f.leafPortCount, None));
    var u, t := AccessFabric.UplinkScript(f, leaf1, leaf2, f.spines), Trunk(leaf1, leaf2, f.pairTrunk);
    var l1, l2 := Do(Latch(leaf1)), Do(Latch(leaf2));
    TwoLeaves(pair);
    NotCables(s1, s2, d, e);
    NotCables(l1, l2, d, e);
    UplinkCables(f, leaf1, leaf2, f.spines, d, e);
    TrunkCables(leaf1, leaf2, f.pairTrunk, d, e);
    CablesThen(s1, s2, d, e);
    CablesThen(Then(s1, s2), u, d, e);
    CablesThen(Then(Then(s1, s2), u), t, d, e);
    CablesThen(AccessFabric.LeafScript(f, pair), l1, d, e);
    CablesThen(Then(AccessFabric.LeafScript(f, pair), l1), l2, d, e);
  }

  lemma TwoLeaves(pair: nat)
    requires pair > 0
    ensures AccessFabric.LeafName(pair, 1) != AccessFabric.LeafName(pair, 2) && |AccessFabric.LeafName(pair, 2)| > 0
  {
    if AccessFabric.LeafName(pair, 1) == AccessFabric.LeafName(pair, 2) {
      AccessFabric.LeafNamesDiffer(pair, 1, pair, 2);
    }
    AccessFabric.LeafInitial(pair, 2);
  }

  /** The two leaves of one of the first `n` pairs. */
  predicate Peers(d: string, e: string, n: nat) {
    exists p | 1 <= p <= n :: d == AccessFabric.LeafName(p, 1) && e == AccessFabric.LeafName(p, 2)
  }

  /** A leaf and an IPU of its pair. */
  predicate PairIpu(d: string, e: string, n: nat, hosts: nat) {
    exists p | 1 <= p <= n :: (d == AccessFabric.LeafName(p, 1) || d == AccessFabric.LeafName(p, 2)) && IsIpu(e, p, hosts)
  }

  /** The numbers of links of an access fabric. */
  function AccessWires(f: AccessFabric.Recipe, n: nat, d: string, e: string): nat {
    (if IsSpine(d, f.spines) && AccessFabric.IsLeaf(e, n) then f.spineTrunk else 0) +
    (if Peers(d, e, n) then f.pairTrunk else 0) +
    (if f.hostsHaveIPU && PairIpu(d, e, n, f.hostsPerPair) then 1 else 0)
  }

  lemma PairCables(f: AccessFabric.Recipe, pair: nat, d: string, e: string)
    requires pair > 0
    ensures var leaf1, leaf2 := AccessFabric.LeafName(pair, 1), AccessFabric.LeafName(pair, 2);
            Cables(AccessFabric.PairScript(f, pair), d, e) ==
            (if IsSpine(d, f.spines) && (e == leaf1 || e == leaf2) then f.spineTrunk else 0) +
            (if d == leaf1 && e == leaf2 then f.pairTrunk else 0) +
            (if f.hostsHaveIPU && IsIpu(e, pair, f.hostsPerPair) && (d == leaf1 || d == leaf2) then 1 else 0)
  {
    hide *;
    var leaf1, leaf2 := AccessFabric.LeafName(pair, 1), AccessFabric.LeafName(pair, 2);
    TwoLeaves(pair);
    ReadyCables(f, pair, d, e);
    RackCables(pair, leaf1, leaf2, f.hostsPerPair, f.hostsHaveIPU, f.vmsPerIPU, d, e);
    AccessFabric.PairParts(f, pair);
    CablesThen(AccessFabric.ReadyScript(f, pair), RackScript(pair, leaf1, leaf2, f.hostsPerPair, f.hostsHaveIPU, f.vmsPerIPU), d, e);
    OneIs(d == leaf1);
    OneIs(d == leaf2);
  }

  lemma OneIs(c: bool)
    ensures One(c) == if c then 1 else 0
  {
  }

  lemma NextPair(n: nat, d: string, e: string, hosts: nat)
    requires n > 0
    ensures var leaf1, leaf2 := AccessFabric.LeafName(n, 1), AccessFabric.LeafName(n, 2);
            && (Peers(d, e, n) <==> Peers(d, e, n - 1) || (d == leaf1 && e == leaf2))
            && (PairIpu(d, e, n, hosts) <==> PairIpu(d, e, n - 1, hosts) || ((d == leaf1 || d == leaf2) && IsIpu(e, n, hosts)))
            && (Peers(d, e, n - 1) || PairIpu(d, e, n - 1, hosts) ==> AccessFabric.IsLeaf(d, n - 1))
  {
    hide AccessFabric.LeafName, IsIpu;
  }

  lemma {:induction false} PairsCables(f: AccessFabric.Recipe, n: nat, d: string, e: string)
    ensures Cables(AccessFabric.PairsScript(f, n), d, e) == AccessWires(f, n, d, e)
  {
    hide Cables, AccessFabric.PairScript, AccessFabric.LeafName, IsSpine, IsIpu, Peers, PairIpu, AccessFabric.IsLeaf;
    if n == 0 {
      NoPairs(f, d, e);
    } else {
      PairsCables(f, n - 1, d, e);
      PairCables(f, n, d, e);
      AccessFabric.PairsParts(f, n);
      CablesThen(AccessFabric.PairsScript(f, n - 1), AccessFabric.PairScript(f, n), d, e);
      AccessFabric.NextLeaf(n, d);
      AccessFabric.NextLeaf(n, e);
      NextPair(n, d, e, f.hostsPerPair);
    }
  }

  lemma NoPairs(f: AccessFabric.Recipe, d: string, e: string)
    ensures Cables(AccessFabric.PairsScript(f, 0), d, e) == AccessWires(f, 0, d, e)
  {
  }

  /** In the topology of any access fabric every spine is joined to every leaf by a trunk, the
      two leaves of a pair to each other, an IPU to both leaves of its pair by a link each, and
      no other two devices at all. */
  lemma AccessLinks(f: AccessFabric.Recipe, d: string, e: string)
    ensures LinksBetween(AccessFabric.AccessTopology(f).links, d, e) == AccessWires(f, f.leafPairs, d, e)
  {
    hide *;
    var x, y := SpinesScript(f.spines, f.spinePortCount, None), AccessFabric.PairsScript(f, f.leafPairs);
    AccessFabric.AccessMade(f);
    AccessFabric.AccessSlashless(f);
    AccessFabric.AccessParts(f);
    MadeCables(AccessFabric.AccessScript(f), d, e);
    SpinesShape(f.spines, f.spinePortCount, None);
    NoCables(x, d, e);
    CablesThen(x, y, d, e);
    PairsCables(f, f.leafPairs, d, e);
  }

  // ---- Plain fabrics

  lemma {:induction false} LeafUplinks(f: PlainFabric.Recipe, leaf: string, n: nat, d: string, e: string)
    ensures Cables(PlainFabric.UplinkScript(f, leaf, n), d, e) == if IsSpine(d, n) && e == leaf then f.spineTrunk else 0
  {
    hide Cables, Trunk, SpineName, IsSpine;
    if n == 0 {
      NoLeafUplinks(f, leaf, d, e);
    } else {
      LeafUplinks(f, leaf, n - 1, d, e);
      TrunkCables(SpineName(n), leaf, f.spineTrunk, d, e);
      CablesThen(PlainFabric.UplinkScript(f, leaf, n - 1), Trunk(SpineName(n), leaf, f.spineTrunk), d, e);
      NextSpine(d, n);
    }
  }

  lemma NoLeafUplinks(f: PlainFabric.Recipe, leaf: string, d: string, e: string)
    ensures Cables(PlainFabric.UplinkScript(f, leaf, 0), d, e) == 0 && !IsSpine(d, 0)
  {
  }

  /** A leaf and one of its IPUs. */
  predicate LeafIpu(d: string, e: string, n: nat, hosts: nat) {
    exists i | 1 <= i <= n :: d == PlainFabric.LeafName(i) && IsIpu(e, i, hosts)
  }

  /** The numbers of links of a plain fabric. */
  function PlainWires(f: PlainFabric.Recipe, n: nat, d: string, e: string): nat {
    (if IsSpine(d, f.spines) && PlainFabric.IsLeaf(e, n) then f.spineTrunk else 0) +
    (if f.hostsHaveIPU && LeafIpu(d, e, n, f.hostsPerLeaf) then 2 else 0)
  }

  lemma LeafCables(f: PlainFabric.Recipe, i: nat, d: string, e: string)
    ensures var leaf := PlainFabric.LeafName(i);
            Cables(PlainFabric.LeafScript(f, i), d, e) ==
            (if IsSpine(d, f.spines) && e == leaf then f.spineTrunk else 0) +
            (if f.hostsHaveIPU && IsIpu(e, i, f.hostsPerLeaf) && d == leaf then 2 else 0)
  {
    hide *;
    var leaf := PlainFabric.LeafName(i);
    var s, l, u := Do(Switch(leaf, f.leafPortCount, None)), Do(Latch(leaf)), PlainFabric.UplinkScript(f, leaf, f.spines);
    NotCables(s, l, d, e);
    LeafUplinks(f, leaf, f.spines, d, e);
    RackCables(i, leaf, "", f.hostsPerLeaf, f.hostsHaveIPU, f.vmsPerIPU, d, e);
    PlainFabric.LeafGroups(f, i);
    PlainFabric.LeafParts(f, i);
    CablesThen(s, u, d, e);
    CablesThen(Then(s, u), l, d, e);
    CablesThen(Then(Then(s, u), l), PlainFabric.HostsScript(f, i), d, e);
    OneIs(d == leaf);
  }

  lemma {:induction false} LeavesCables(f: PlainFabric.Recipe, n: nat, d: string, e: string)
    ensures Cables(PlainFabric.LeavesScript(f, n), d, e) == PlainWires(f, n, d, e)
  {
    hide Cables, PlainFabric.LeafScript, PlainFabric.LeafName, IsSpine, IsIpu, LeafIpu, PlainFabric.IsLeaf;
    if n == 0 {
      NoLeafCables(f, d, e);
    } else {
      LeavesCables(f, n - 1, d, e);
      LeafCables(f, n, d, e);
      PlainFabric.LeavesParts(f, n);
      CablesThen(PlainFabric.LeavesScript(f, n - 1), PlainFabric.LeafScript(f, n), d, e);
      PlainFabric.NextLeaf(n, d);
      PlainFabric.NextLeaf(n, e);
      NextLeafIpu(n, d, e, f.hostsPerLeaf);
    }
  }

  lemma NextLeafIpu(n: nat, d: string, e: string, hosts: nat)
    requires n > 0
    ensures LeafIpu(d, e, n, hosts) <==> LeafIpu(d, e, n - 1, hosts) || (d == PlainFabric.LeafName(n) && IsIpu(e, n, hosts))
    ensures LeafIpu(d, e, n - 1, hosts) ==> PlainFabric.IsLeaf(d, n - 1)
  {
    hide PlainFabric.LeafName, IsIpu;
  }

  lemma NoLeafCables(f: PlainFabric.Recipe, d: string, e: string)
    ensures Cables(PlainFabric.LeavesScript(f, 0), d, e) == PlainWires(f, 0, d, e)
  {
  }

  /** In the topology of any plain fabric every spine is joined to every leaf by a trunk, an IPU
      to its leaf by two links, and no other two devices at all. */
  lemma PlainLinks(f: PlainFabric.Recipe, d: string, e: string)
    ensures LinksBetween(PlainFabric.PlainTopology(f).links, d, e) == PlainWires(f, f.leaves, d, e)
  {
    hide *;
    var x, y := SpinesScript(f.spines, f.spinePortCount, Some(f.reservedUplinks)), PlainFabric.LeavesScript(f, f.leaves);
    PlainFabric.PlainParts(f);
    PlainFabric.PlainSlashless(f);
    MadeCables(PlainFabric.PlainScript(f), d, e);
    SpinesShape(f.spines, f.spinePortCount, Some(f.reservedUplinks));
    NoCables(x, d, e);
    CablesThen(x, y, d, e);
    LeavesCables(f, f.leaves, d, e);
  }
}

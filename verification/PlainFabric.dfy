/** The plain fabric recipe: spines with ports reserved for uplinks, leaves with a trunk to
    every spine, and hosts attached to single leaves.

    `PlainLoads` says which recipes make a topology that loads, and how large it is;
    `UplinksFree` says when the reserved ports are still free afterwards. */
module PlainFabric {
  import opened Common
  import opened Text
  import opened Schema
  import opened TopologyBuilder
  import opened Scripts
  import opened ScriptLoads
  import opened Racks
  import opened Names
  import Loader
  import Inventory

  datatype Recipe = Recipe(
    spines: nat, spinePortCount: nat, reservedUplinks: nat, leaves: nat, leafPortCount: nat,
    spineTrunk: nat, hostsPerLeaf: nat, hostsHaveIPU: bool, vmsPerIPU: nat)

  function LeafName(i: nat): string {
    "leaf" + Dec(i)
  }

  // ---- The recipe as a script

  function UplinkScript(f: Recipe, leaf: string, n: nat): Script {
    if n == 0 then Skip else Then(UplinkScript(f, leaf, n - 1), Trunk(SpineName(n), leaf, f.spineTrunk))
  }

  /** A leaf with its uplinks, its minimum port latched, ready for hosts. */
  function ReadyScript(f: Recipe, i: nat): Script {
    Then(Then(Do(Switch(LeafName(i), f.leafPortCount, None)), UplinkScript(f, LeafName(i), f.spines)),
         Do(Latch(LeafName(i))))
  }

  function HostsScript(f: Recipe, i: nat): Script {
    RackScript(i, LeafName(i), "", f.hostsPerLeaf, f.hostsHaveIPU, f.vmsPerIPU)
  }

  function LeafScript(f: Recipe, i: nat): Script {
    Then(ReadyScript(f, i), HostsScript(f, i))
  }

  function LeavesScript(f: Recipe, n: nat): Script {
    if n == 0 then Skip else Then(LeavesScript(f, n - 1), LeafScript(f, n))
  }

  function PlainScript(f: Recipe): Script {
    Then(SpinesScript(f.spines, f.spinePortCount, Some(f.reservedUplinks)), LeavesScript(f, f.leaves))
  }

  function PlainTopology(f: Recipe): Topology {
    Made(PlainScript(f))
  }

  /** Generates the topology of a recipe. */
  method GeneratePlainFabric(f: Recipe) returns (t: TopologyFile)
    ensures fresh(t) && t.Value() == PlainTopology(f)
  {
    t := new TopologyFile();
    var b := new Builder();
    assert b.With(t, []) == START;
    for spine := 1 to f.spines + 1
      invariant fresh(t) && fresh(b) && b.With(t, []) == Run(START, SpinesScript(spine - 1, f.spinePortCount, Some(f.reservedUplinks)))
    {
      b.CreateReservedSwitch(SpineName(spine), f.spinePortCount, f.reservedUplinks, t);
    }
    ghost var c := b.With(t, []);
    for i := 1 to f.leaves + 1
      invariant fresh(t) && fresh(b) && b.With(t, []) == Run(c, LeavesScript(f, i - 1))
    {
      GenerateLeaf(f, i, b, t);
    }
  }

  method GenerateLeaf(f: Recipe, i: nat, b: Builder, t: TopologyFile)
    modifies b, t
    ensures b.With(t, []) == Run(old(b.With(t, [])), LeafScript(f, i))
  {
    hide Apply;
    var leaf := LeafName(i);
    ghost var s0 := Do(Switch(leaf, f.leafPortCount, None));
    b.CreateSwitch(leaf, f.leafPortCount, t);
    ghost var c := b.With(t, []);
    assert c == Run(old(b.With(t, [])), s0);
    for spine := 1 to f.spines + 1
      invariant b.With(t, []) == Run(c, UplinkScript(f, leaf, spine - 1))
    {
      b.CreateLinkTrunk(SpineName(spine), leaf, f.spineTrunk, t);
    }
    ghost var s1 := Then(s0, UplinkScript(f, leaf, f.spines));
    assert b.With(t, []) == Run(old(b.With(t, [])), s1);
    b.LatchMinPort(leaf, t);
    assert b.With(t, []) == Run(old(b.With(t, [])), ReadyScript(f, i));
    b.CreateRackHosts(i, leaf, "", f.hostsPerLeaf, f.hostsHaveIPU, f.vmsPerIPU, t);
  }

  // ---- Names

  predicate IsLeaf(d: string, n: nat) {
    exists i | 1 <= i <= n :: d == LeafName(i)
  }

  /** No two hosts of the first `n` leaves share a name. */
  ghost predicate Apart(f: Recipe, n: nat) {
    NamesApart(n, f.hostsPerLeaf, f.hostsHaveIPU, f.vmsPerIPU)
  }

  /** The numbers of leaves, hosts and VMs are too large for that. */
  predicate Clashes(f: Recipe) {
    Clash(f.leaves, f.hostsPerLeaf, f.hostsHaveIPU, f.vmsPerIPU)
  }

  lemma LeafInitial(i: nat)
    ensures LeafName(i)[0] == 'l' && '/' !in LeafName(i) && ':' !in LeafName(i)
  {
    assert IsNumeral(Dec(i));
    assert '/' !in DIGITS && ':' !in DIGITS;
  }

  lemma NextLeaf(n: nat, d: string)
    requires n > 0
    ensures IsLeaf(d, n) <==> IsLeaf(d, n - 1) || d == LeafName(n)
    ensures d == LeafName(n) ==> !IsLeaf(d, n - 1)
  {
    forall i | 1 <= i <= n - 1
      ensures LeafName(i) != LeafName(n)
    {
      if LeafName(i) == LeafName(n) {
        SamePrefix("leaf", Dec(i), Dec(n));
        DecInjective(i, n);
      }
    }
    hide LeafName;
  }

  /** The initial tells spines, leaves and IPUs apart. */
  lemma Kinds(d: string, spines: nat, n: nat, count: nat)
    ensures IsSpine(d, spines) ==> |d| > 0 && d[0] == 's'
    ensures IsLeaf(d, n) ==> |d| > 0 && d[0] == 'l'
    ensures IsRackIpu(d, n, count) ==> |d| > 0 && d[0] == 'i'
  {
    forall i: nat
      ensures |SpineName(i)| > 0 && SpineName(i)[0] == 's'
      ensures |LeafName(i)| > 0 && LeafName(i)[0] == 'l'
    {
      SpineInitial(i);
      LeafInitial(i);
    }
    forall p: nat, h: nat
      ensures |IpuName(p, h)| > 0 && IpuName(p, h)[0] == 'i'
    {
      Initials(p, h, 0);
    }
    hide SpineName, LeafName, IpuName;
  }

  // ---- What the parts create and take

  lemma UplinkShape(f: Recipe, leaf: string, n: nat)
    ensures var s := UplinkScript(f, leaf, n);
            && Switches(s) == {} && HostNames(s) == {} && (forall p :: Pending(p, s) == p)
            && (forall d :: !Latches(s, d))
            && NumSwitches(s) == NumHosts(s) == 0 && NumCables(s) == n * f.spineTrunk
  {
    if n > 0 {
      UplinkShape(f, leaf, n - 1);
      TrunkShape(SpineName(n), leaf, f.spineTrunk);
      Sequence(UplinkScript(f, leaf, n - 1), Trunk(SpineName(n), leaf, f.spineTrunk));
      MulSucc(n - 1, f.spineTrunk);
      hide Trunk, Pending, Latches;
    }
  }

  lemma UplinkDemand(f: Recipe, leaf: string, n: nat, d: string)
    requires !IsSpine(leaf, n)
    ensures Demand(UplinkScript(f, leaf, n), d) ==
            (if IsSpine(d, n) then f.spineTrunk else 0) + (if d == leaf then n * f.spineTrunk else 0)
  {
    if n > 0 {
      UplinkDemand(f, leaf, n - 1, d);
      TrunkDemand(SpineName(n), leaf, f.spineTrunk, d);
      MulSucc(n - 1, f.spineTrunk);
      if i :| 1 <= i <= n - 1 && SpineName(n) == SpineName(i) {
        SpineNamesDiffer(n, i);
      }
      hide Trunk, SpineName;
    }
  }

  lemma UplinkLegal(c: Context, f: Recipe, leaf: string, n: nat)
    requires leaf in c.devices && forall i | 1 <= i <= n :: SpineName(i) in c.devices
    ensures Legal(c, UplinkScript(f, leaf, n)) && After(c, UplinkScript(f, leaf, n)) == c
  {
    UplinkShape(f, leaf, n);
    if n > 0 {
      UplinkLegal(c, f, leaf, n - 1);
      TrunkLegal(c, SpineName(n), leaf, f.spineTrunk);
      hide Trunk, SpineName;
    }
  }

  lemma ReadyShape(f: Recipe, i: nat)
    ensures var s, leaf := ReadyScript(f, i), LeafName(i);
            && Switches(s) == {leaf} && HostNames(s) == {} && (forall p :: Pending(p, s) == p)
            && PortCount(s, leaf) == f.leafPortCount && Reserved(s, leaf) == 0
            && (forall d :: Latches(s, d) <==> d == leaf)
            && NumSwitches(s) == 1 && NumCables(s) == f.spines * f.spineTrunk && NumHosts(s) == 0
            && (forall d :: Demand(s, d) == Demand(UplinkScript(f, leaf, f.spines), d))
  {
    var s0, latch := Do(Switch(LeafName(i), f.leafPortCount, None)), Do(Latch(LeafName(i)));
    UplinkShape(f, LeafName(i), f.spines);
    Sequence(s0, UplinkScript(f, LeafName(i), f.spines));
    Sequence(Then(s0, UplinkScript(f, LeafName(i), f.spines)), latch);
    hide UplinkScript, LeafName;
  }

  lemma ReadyLegal(c: Context, f: Recipe, i: nat)
    requires LeafName(i) !in c.devices && forall j | 1 <= j <= f.spines :: SpineName(j) in c.devices
    ensures Legal(c, ReadyScript(f, i))
  {
    var leaf := LeafName(i);
    var s0 := Do(Switch(leaf, f.leafPortCount, None));
    var s1 := Then(s0, UplinkScript(f, leaf, f.spines));
    LeafInitial(i);
    hide LeafName, SpineName;
    UplinkLegal(After(c, s0), f, leaf, f.spines);
    UplinkShape(f, leaf, f.spines);
    Sequence(s0, UplinkScript(f, leaf, f.spines));
    hide UplinkScript;
    assert Legal(c, s0) && Legal(c, s1) && leaf in After(c, s1).devices;
    assert Legal(After(c, s1), Do(Latch(leaf)));
  }

  /** How many ports a leaf has to give out. */
  function LeafPorts(f: Recipe): nat {
    f.spines * f.spineTrunk + f.hostsPerLeaf * (if f.hostsHaveIPU then 2 else 1)
  }

  /** What a leaf and its hosts create. */
  lemma LeafShape(f: Recipe, i: nat)
    ensures var s, leaf := LeafScript(f, i), LeafName(i);
            && (forall d :: d in Switches(s) <==> d == leaf || (f.hostsHaveIPU && IsIpu(d, i, f.hostsPerLeaf)))
            && (forall n :: n in HostNames(s) <==> InRack(n, i, f.hostsPerLeaf, f.hostsHaveIPU, f.vmsPerIPU))
            && Pending({}, s) == {}
            && (forall d :: Latches(s, d) <==> d == leaf)
            && (forall d | d in Switches(s) :: Reserved(s, d) == 0 &&
                  PortCount(s, d) == if d == leaf then f.leafPortCount else 3 + f.vmsPerIPU)
  {
    ReadyShape(f, i);
    RackShape(i, LeafName(i), "", f.hostsPerLeaf, f.hostsHaveIPU, f.vmsPerIPU);
    Sequence(ReadyScript(f, i), RackScript(i, LeafName(i), "", f.hostsPerLeaf, f.hostsHaveIPU, f.vmsPerIPU));
    LeafParts(f, i);
    hide *;
    assert Pending({}, ReadyScript(f, i)) == {};
    assert Pending({}, RackScript(i, LeafName(i), "", f.hostsPerLeaf, f.hostsHaveIPU, f.vmsPerIPU)) == {};
    assert Switches(ReadyScript(f, i)) == {LeafName(i)};
    assert forall d :: !Latches(RackScript(i, LeafName(i), "", f.hostsPerLeaf, f.hostsHaveIPU, f.vmsPerIPU), d);
  }

  lemma LeafParts(f: Recipe, i: nat)
    ensures LeafScript(f, i) == Then(ReadyScript(f, i),
              RackScript(i, LeafName(i), "", f.hostsPerLeaf, f.hostsHaveIPU, f.vmsPerIPU))
  {
  }

  /** How many IPUs, links (a pair of directions counting as one) and hosts a leaf comes with. */
  function IpusPerLeaf(f: Recipe): nat {
    if f.hostsHaveIPU then f.hostsPerLeaf else 0
  }

  function LinksPerLeaf(f: Recipe): nat {
    f.spines * f.spineTrunk + 2 * IpusPerLeaf(f)
  }

  function HostsPerLeaf(f: Recipe): nat {
    f.hostsPerLeaf * (if f.hostsHaveIPU then 1 + f.vmsPerIPU else 1)
  }

  lemma LeafSize(f: Recipe, i: nat)
    ensures var s := LeafScript(f, i);
            NumSwitches(s) == 1 + IpusPerLeaf(f) && NumCables(s) == LinksPerLeaf(f) && NumHosts(s) == HostsPerLeaf(f)
  {
    ReadyShape(f, i);
    RackSize(i, LeafName(i), "", f.hostsPerLeaf, f.hostsHaveIPU, f.vmsPerIPU);
    hide ReadyScript, RackScript;
  }

  lemma HostsDemand(f: Recipe, i: nat, d: string)
    ensures Demand(HostsScript(f, i), d) ==
            (if d == LeafName(i) then f.hostsPerLeaf * (if f.hostsHaveIPU then 2 else 1) else 0) +
            (if f.hostsHaveIPU && IsIpu(d, i, f.hostsPerLeaf) then 3 + f.vmsPerIPU else 0)
  {
    RackDemand(i, LeafName(i), "", f.hostsPerLeaf, f.hostsHaveIPU, f.vmsPerIPU, d);
    assert LeafDemand(LeafName(i), "", f.hostsHaveIPU, d) ==
           if d == LeafName(i) then if f.hostsHaveIPU then 2 else 1 else 0;
    assert HostsScript(f, i) == RackScript(i, LeafName(i), "", f.hostsPerLeaf, f.hostsHaveIPU, f.vmsPerIPU);
    hide *;
  }

  /** How many ports of a device a leaf and its hosts take. */
  lemma LeafScriptDemand(f: Recipe, i: nat, d: string)
    ensures Demand(LeafScript(f, i), d) ==
            (if IsSpine(d, f.spines) then f.spineTrunk else 0) +
            (if d == LeafName(i) then LeafPorts(f) else 0) +
            (if f.hostsHaveIPU && IsIpu(d, i, f.hostsPerLeaf) then 3 + f.vmsPerIPU else 0)
  {
    LeafInitial(i);
    Kinds(LeafName(i), f.spines, 0, 0);
    ReadyShape(f, i);
    UplinkDemand(f, LeafName(i), f.spines, d);
    HostsDemand(f, i, d);
    hide ReadyScript, HostsScript, LeafName, IsIpu, IsSpine;
  }

  lemma LeafLegal(c: Context, f: Recipe, i: nat)
    requires i > 0 && Apart(f, i) && c.pending == {}
    requires LeafName(i) !in c.devices && forall j | 1 <= j <= f.spines :: SpineName(j) in c.devices
    requires NewRack(c, i, f.hostsPerLeaf, f.hostsHaveIPU, f.vmsPerIPU)
    ensures Legal(c, LeafScript(f, i))
  {
    var d := After(c, ReadyScript(f, i));
    ReadyLegal(c, f, i);
    ReadyShape(f, i);
    LeafInitial(i);
    forall h | 1 <= h <= f.hostsPerLeaf
      ensures IpuName(i, h) !in d.devices
    {
      Initials(i, h, 0);
    }
    hide ReadyScript, LeafName, IpuName, NameOf;
    RackLegal(d, i, LeafName(i), "", f.hostsPerLeaf, f.hostsHaveIPU, f.vmsPerIPU);
  }

  // ---- All leaves

  lemma LeavesHosts(f: Recipe, n: nat)
    ensures var s := LeavesScript(f, n);
            (forall x :: x in HostNames(s) <==> InRacks(x, n, f.hostsPerLeaf, f.hostsHaveIPU, f.vmsPerIPU)) && Pending({}, s) == {}
  {
    hide LeafScript, LeafName, IsIpu, InRack;
    if n > 0 {
      LeavesHosts(f, n - 1);
      LeafShape(f, n);
      assert LeavesScript(f, n) == Then(LeavesScript(f, n - 1), LeafScript(f, n));
    }
  }

  lemma LeavesShape(f: Recipe, n: nat)
    ensures var s := LeavesScript(f, n);
            && (forall d :: d in Switches(s) <==>
                  IsLeaf(d, n) || (f.hostsHaveIPU && IsRackIpu(d, n, f.hostsPerLeaf)))
            && (forall d :: Latches(s, d) <==> IsLeaf(d, n))
            && (forall d | d in Switches(s) :: Reserved(s, d) == 0 &&
                  PortCount(s, d) == if IsLeaf(d, n) then f.leafPortCount else 3 + f.vmsPerIPU)
  {
    if n > 0 {
      LeavesShape(f, n - 1);
      LeafShape(f, n);
      forall d
        ensures IsLeaf(d, n) <==> IsLeaf(d, n - 1) || d == LeafName(n)
        ensures IsRackIpu(d, n, f.hostsPerLeaf) <==> IsRackIpu(d, n - 1, f.hostsPerLeaf) || IsIpu(d, n, f.hostsPerLeaf)
        ensures !IsLeaf(d, n) || !IsRackIpu(d, n, f.hostsPerLeaf)
      {
        Kinds(d, 0, n, f.hostsPerLeaf);
        hide LeafName, IsIpu;
      }
      hide LeafScript, LeafName, IsIpu, IsLeaf, IsRackIpu, InRack;
    }
  }

  lemma {:induction false} LeavesSize(f: Recipe, n: nat)
    ensures var s := LeavesScript(f, n);
            && NumSwitches(s) == n * (1 + IpusPerLeaf(f))
            && NumCables(s) == n * LinksPerLeaf(f)
            && NumHosts(s) == n * HostsPerLeaf(f)
  {
    if n > 0 {
      LeavesSize(f, n - 1);
      LeafSize(f, n);
      hide LeafScript, IpusPerLeaf, LinksPerLeaf, HostsPerLeaf;
      MulSucc(n - 1, 1 + IpusPerLeaf(f));
      MulSucc(n - 1, LinksPerLeaf(f));
      MulSucc(n - 1, HostsPerLeaf(f));
    }
  }

  lemma {:induction false} LeavesDemand(f: Recipe, n: nat, d: string)
    requires Apart(f, n)
    ensures Demand(LeavesScript(f, n), d) ==
            (if IsSpine(d, f.spines) then n * f.spineTrunk else 0) +
            (if IsLeaf(d, n) then LeafPorts(f) else 0) +
            (if f.hostsHaveIPU && IsRackIpu(d, n, f.hostsPerLeaf) then 3 + f.vmsPerIPU else 0)
  {
    hide LeavesScript, LeafScript, LeafName, Demand, IsSpine, IsLeaf, IsIpu, IsRackIpu, LeafPorts;
    if n == 0 {
      NoLeaves(f, d);
    } else {
      LeavesDemand(f, n - 1, d);
      LeafScriptDemand(f, n, d);
      NextLeaf(n, d);
      NextRackIpus(n, f.hostsPerLeaf, f.hostsHaveIPU, f.vmsPerIPU, d);
      MulSucc(n - 1, f.spineTrunk);
      LeavesParts(f, n);
      InTurn(NOTHING, START, LeavesScript(f, n - 1), LeafScript(f, n), d);
    }
  }

  lemma NoLeaves(f: Recipe, d: string)
    ensures Demand(LeavesScript(f, 0), d) == 0 && !IsLeaf(d, 0) && !IsRackIpu(d, 0, f.hostsPerLeaf)
  {
  }

  lemma DevicesSoFar(c: Context, f: Recipe, n: nat, d: string)
    requires OnlySpines(c, f.spines)
    ensures d in After(c, LeavesScript(f, n)).devices <==>
            IsSpine(d, f.spines) || IsLeaf(d, n) || (f.hostsHaveIPU && IsRackIpu(d, n, f.hostsPerLeaf))
  {
    LeavesShape(f, n);
    hide LeavesScript, IsSpine, IsLeaf, IsRackIpu;
  }

  lemma NextDevicesNew(c: Context, f: Recipe, n: nat)
    requires n > 0 && Apart(f, n) && OnlySpines(c, f.spines)
    ensures var d := After(c, LeavesScript(f, n - 1));
            && (forall h | 1 <= h <= f.hostsPerLeaf :: IpuName(n, h) !in d.devices)
            && LeafName(n) !in d.devices
            && forall i | 1 <= i <= f.spines :: SpineName(i) in d.devices
  {
    hide LeavesScript, SpineName, LeafName, IpuName, IsSpine, IsLeaf, IsRackIpu, OnlySpines, NamesApart, After;
    LeafInitial(n);
    NextLeaf(n, LeafName(n));
    Kinds(LeafName(n), f.spines, n - 1, f.hostsPerLeaf);
    DevicesSoFar(c, f, n - 1, LeafName(n));
    forall i | 1 <= i <= f.spines
      ensures SpineName(i) in After(c, LeavesScript(f, n - 1)).devices
    {
      SpineAmong(f.spines, i);
      DevicesSoFar(c, f, n - 1, SpineName(i));
    }
    forall h | 1 <= h <= f.hostsPerLeaf
      ensures IpuName(n, h) !in After(c, LeavesScript(f, n - 1)).devices
    {
      Initials(n, h, 0);
      Kinds(IpuName(n, h), f.spines, n - 1, f.hostsPerLeaf);
      RackIpuNew(n, h, f.hostsPerLeaf, f.hostsHaveIPU, f.vmsPerIPU);
      DevicesSoFar(c, f, n - 1, IpuName(n, h));
    }
  }

  lemma NextHostsNew(c: Context, f: Recipe, n: nat)
    requires n > 0 && Apart(f, n) && OnlySpines(c, f.spines)
    ensures var d := After(c, LeavesScript(f, n - 1));
            && d.pending == {}
            && forall x, h | x in d.hosts && 1 <= h <= f.hostsPerLeaf :: !NameOf(x, n, h, f.hostsHaveIPU, f.vmsPerIPU)
  {
    var d := After(c, LeavesScript(f, n - 1));
    LeavesHosts(f, n - 1);
    hide LeavesScript, NameOf, InRacks, NamesApart;
    forall x, h | x in d.hosts && 1 <= h <= f.hostsPerLeaf
      ensures !NameOf(x, n, h, f.hostsHaveIPU, f.vmsPerIPU)
    {
      RackNamesNew(x, n, f.hostsPerLeaf, f.hostsHaveIPU, f.vmsPerIPU, h);
    }
  }

  lemma {:induction false} LeavesLegal(c: Context, f: Recipe, n: nat)
    requires Apart(f, n) && OnlySpines(c, f.spines)
    ensures Legal(c, LeavesScript(f, n))
  {
    if n > 0 {
      LeavesLegal(c, f, n - 1);
      NextDevicesNew(c, f, n);
      NextHostsNew(c, f, n);
      LeafLegal(After(c, LeavesScript(f, n - 1)), f, n);
      hide LeafScript, LeafName, SpineName, OnlySpines, NameOf, IpuName;
    }
  }

  lemma PlainComplete(f: Recipe)
    requires Apart(f, f.leaves)
    ensures Complete(PlainScript(f))
  {
    SpinesLegal(f.spines, f.spinePortCount, Some(f.reservedUplinks));
    SpinesShape(f.spines, f.spinePortCount, Some(f.reservedUplinks));
    LeavesHosts(f, f.leaves);
    hide SpinesScript, LeavesScript, IsSpine, IsLeaf, IsRackIpu;
    LeavesLegal(After(NOTHING, SpinesScript(f.spines, f.spinePortCount, Some(f.reservedUplinks))), f, f.leaves);
  }

  // ---- The theorems

  /** The ports a recipe asks of a switch do not exceed what it has, and allocation on the
      spines starts at a port they have.  It may wrap round into the reserved ports. */
  predicate Fits(f: Recipe) {
    && (f.spines == 0 ||
        (f.leaves * f.spineTrunk <= f.spinePortCount && (f.leaves * f.spineTrunk > 0 ==> f.reservedUplinks < f.spinePortCount)))
    && (f.leaves == 0 || LeafPorts(f) <= f.leafPortCount)
  }

  /** What every device of a recipe gives out, and has to give. */
  lemma PlainDevice(f: Recipe, d: string)
    requires Apart(f, f.leaves)
    ensures var s := PlainScript(f);
            && (d in Switches(s) <==>
                  IsSpine(d, f.spines) || IsLeaf(d, f.leaves) ||
                  (f.hostsHaveIPU && IsRackIpu(d, f.leaves, f.hostsPerLeaf)))
            && (Latches(s, d) <==> IsLeaf(d, f.leaves))
            && (d in Switches(s) ==> Reserved(s, d) == if IsSpine(d, f.spines) then f.reservedUplinks else 0)
            && (IsSpine(d, f.spines) ==>
                  !Latches(s, d) && PortCount(s, d) == f.spinePortCount && Demand(s, d) == f.leaves * f.spineTrunk)
            && (IsLeaf(d, f.leaves) ==>
                  !IsSpine(d, f.spines) && PortCount(s, d) == f.leafPortCount && Demand(s, d) == LeafPorts(f))
            && (f.hostsHaveIPU && IsRackIpu(d, f.leaves, f.hostsPerLeaf) ==>
                  PortCount(s, d) == Demand(s, d) == 3 + f.vmsPerIPU)
  {
    SpinesShape(f.spines, f.spinePortCount, Some(f.reservedUplinks));
    LeavesShape(f, f.leaves);
    LeavesDemand(f, f.leaves, d);
    Kinds(d, f.spines, f.leaves, f.hostsPerLeaf);
    hide SpinesScript, LeavesScript, IsSpine, IsLeaf, IsRackIpu, LeafPorts;
  }

  lemma PlainInBudget(f: Recipe)
    requires Apart(f, f.leaves)
    ensures InBudget(PlainScript(f)) <==> Fits(f)
    ensures LatchesFree(PlainScript(f))
  {
    var s := PlainScript(f);
    forall d
      ensures d in Switches(s) && Latches(s, d) ==> Reserved(s, d) == 0
      ensures Fits(f) && d in Switches(s) ==> WithinBudget(s, d)
    {
      PlainDevice(f, d);
      hide PlainScript, IsSpine, IsLeaf, IsRackIpu;
    }
    if InBudget(s) {
      if f.spines > 0 {
        PlainDevice(f, SpineName(1));
        assert IsSpine(SpineName(1), f.spines);
      }
      if f.leaves > 0 {
        PlainDevice(f, LeafName(1));
        assert IsLeaf(LeafName(1), f.leaves);
      }
    }
  }

  /** The names of hosts are those the scripts of their leaves use. */
  lemma LeafUses(f: Recipe, n: nat, x: string, h: nat)
    requires 1 <= h <= f.hostsPerLeaf && NameOf(x, n, h, f.hostsHaveIPU, f.vmsPerIPU)
    ensures x in HostNames(LeafScript(f, n))
  {
    hide NameOf, LeafScript, LeafName, IsIpu, Switches;
    LeafShape(f, n);
    assert InRack(x, n, f.hostsPerLeaf, f.hostsHaveIPU, f.vmsPerIPU);
  }

  lemma LeavesUse(f: Recipe, n: nat, x: string, r: nat, h: nat)
    requires 1 <= r <= n && 1 <= h <= f.hostsPerLeaf && NameOf(x, r, h, f.hostsHaveIPU, f.vmsPerIPU)
    ensures x in HostNames(LeavesScript(f, n))
  {
    hide NameOf, LeavesScript;
    LeavesHosts(f, n);
    assert InRack(x, r, f.hostsPerLeaf, f.hostsHaveIPU, f.vmsPerIPU);
  }

  lemma LeavesParts(f: Recipe, n: nat)
    requires n > 0
    ensures LeavesScript(f, n) == Then(LeavesScript(f, n - 1), LeafScript(f, n))
  {
  }

  /** Where two hosts share a name, the topology has two hosts of one name. */
  lemma LeavesDouble(f: Recipe, n: nat, x: string, r: nat, h: nat, q: nat, g: nat)
    requires 1 <= r <= q <= n && 1 <= h <= f.hostsPerLeaf && 1 <= g <= f.hostsPerLeaf && (r == q ==> h < g)
    requires NameOf(x, r, h, f.hostsHaveIPU, f.vmsPerIPU) && NameOf(x, q, g, f.hostsHaveIPU, f.vmsPerIPU)
    ensures Doubles(LeavesScript(f, n))
  {
    hide *;
    var front, last := LeavesScript(f, n - 1), LeafScript(f, n);
    LeavesParts(f, n);
    if q < n {
      LeavesDouble(f, n - 1, x, r, h, q, g);
      DoublesThen(front, last);
    } else if r < n {
      LeavesUse(f, n - 1, x, r, h);
      LeafUses(f, n, x, g);
      SharedDoubles(front, last, x);
    } else {
      LeafParts(f, n);
      RackDoubles(n, LeafName(n), "", f.hostsPerLeaf, f.hostsHaveIPU, f.vmsPerIPU, x, h, g);
      DoublesThen(ReadyScript(f, n), RackScript(n, LeafName(n), "", f.hostsPerLeaf, f.hostsHaveIPU, f.vmsPerIPU));
      DoublesThen(front, last);
    }
  }

  lemma PlainDoubles(f: Recipe)
    requires !Apart(f, f.leaves)
    ensures Doubles(PlainScript(f))
  {
    var x, r, h, q, g := SharedName(f.leaves, f.hostsPerLeaf, f.hostsHaveIPU, f.vmsPerIPU);
    LeavesDouble(f, f.leaves, x, r, h, q, g);
    assert PlainScript(f) == Then(SpinesScript(f.spines, f.spinePortCount, Some(f.reservedUplinks)), LeavesScript(f, f.leaves));
    hide *;
    DoublesThen(SpinesScript(f.spines, f.spinePortCount, Some(f.reservedUplinks)), LeavesScript(f, f.leaves));
  }

  /** A recipe makes a topology that loads into an empty simulation exactly if its switches
      have the ports it asks for and no two hosts get the same name; it is then of this size. */
  lemma PlainLoads(f: Recipe)
    ensures Loader.Load(Inventory.EMPTY, PlainTopology(f)).1 == Done <==> Fits(f) && !Clashes(f)
    ensures Loader.Load(Inventory.EMPTY, PlainTopology(f)).1 == Done ==>
              var r := Loader.Load(Inventory.EMPTY, PlainTopology(f)).0;
              && |r.devices| == f.spines + f.leaves * (1 + IpusPerLeaf(f))
              && |r.links| == 2 * (f.leaves * LinksPerLeaf(f))
              && |r.hosts| == f.leaves * HostsPerLeaf(f)
  {
    assert PlainTopology(f) == Made(PlainScript(f));
    PlainSize(f);
    ClashesIff(f);
    if Apart(f, f.leaves) {
      PlainComplete(f);
      PlainInBudget(f);
      hide *;
      ScriptLoad(PlainScript(f));
    } else {
      PlainDoubles(f);
      hide *;
      DoublesFail(PlainScript(f));
    }
  }

  lemma ClashesIff(f: Recipe)
    ensures Clashes(f) <==> !Apart(f, f.leaves)
  {
    ApartIff(f.leaves, f.hostsPerLeaf, f.hostsHaveIPU, f.vmsPerIPU);
  }

  lemma PlainSize(f: Recipe)
    ensures var s := PlainScript(f);
            && NumSwitches(s) == f.spines + f.leaves * (1 + IpusPerLeaf(f))
            && NumCables(s) == f.leaves * LinksPerLeaf(f) && NumHosts(s) == f.leaves * HostsPerLeaf(f)
  {
    SpinesShape(f.spines, f.spinePortCount, Some(f.reservedUplinks));
    LeavesSize(f, f.leaves);
    hide SpinesScript, LeavesScript, IpusPerLeaf, LinksPerLeaf, HostsPerLeaf;
  }

  /** Every port of every IPU ends up in exactly one place: two uplinks, the host, a VM each. */
  lemma PlainIpuPorts(f: Recipe, leaf: nat, host: nat, k: nat)
    requires !Clashes(f) && f.hostsHaveIPU
    requires 1 <= leaf <= f.leaves && 1 <= host <= f.hostsPerLeaf && 1 <= k <= 3 + f.vmsPerIPU
    ensures Uses(PlainTopology(f), PortID(IpuName(leaf, host), k)) == 1
  {
    var d := IpuName(leaf, host);
    assert IsIpu(d, leaf, f.hostsPerLeaf) && IsRackIpu(d, f.leaves, f.hostsPerLeaf);
    ClashesIff(f);
    PlainComplete(f);
    PlainInBudget(f);
    PlainDevice(f, d);
    Kinds(d, f.spines, f.leaves, f.hostsPerLeaf);
    hide *;
    PlainParts(f);
    AllPortsOnce(PlainScript(f), d, k);
  }

  /** The reserved ports of a spine are left alone exactly if the leaf trunks fit beside them,
      or if nothing but a single link leaves it, from beyond its last port. */
  lemma UplinksFree(f: Recipe, spine: nat)
    requires !Clashes(f) && 1 <= spine <= f.spines
    ensures (forall k | 1 <= k <= f.reservedUplinks :: Uses(PlainTopology(f), PortID(SpineName(spine), k)) == 0) <==>
            || f.reservedUplinks == 0
            || f.reservedUplinks + f.leaves * f.spineTrunk <= f.spinePortCount
            || (f.reservedUplinks >= f.spinePortCount && f.leaves * f.spineTrunk <= 1)
  {
    ClashesIff(f);
    SpinesIn(f.spines);
    PlainComplete(f);
    PlainDevice(f, SpineName(spine));
    hide PlainScript, IsSpine, IsLeaf, IsRackIpu, SpineName, Uses, Complete;
    ReservedFree(PlainScript(f), SpineName(spine));
  }

  // ---- Room for links to other domains

  lemma PlainLoadable(f: Recipe)
    requires !Clashes(f) && Fits(f)
    ensures Loadable(PlainScript(f))
  {
    ClashesIff(f);
    PlainComplete(f);
    PlainInBudget(f);
    hide *;
  }

  /** When the first `n` ports of a spine are all there and free: nothing is attached to it,
      or they are reserved and the leaf trunks fit beside the reserved ports. */
  predicate Room(f: Recipe, n: nat) {
    n <= f.spinePortCount &&
    (f.leaves * f.spineTrunk == 0 ||
     (n <= f.reservedUplinks && f.reservedUplinks + f.leaves * f.spineTrunk <= f.spinePortCount))
  }

  lemma SpineRoom(f: Recipe, i: nat, n: nat)
    requires !Clashes(f) && i > 0
    ensures var s, d := PlainScript(f), SpineName(i);
            && (d in Switches(s) <==> i <= f.spines)
            && (i <= f.spines ==> !Latches(s, d) && (RoomOn(s, d, n) <==> Room(f, n)))
  {
    hide *;
    ClashesIff(f);
    PlainDevice(f, SpineName(i));
    SpineInitial(i);
    Kinds(SpineName(i), f.spines, f.leaves, f.hostsPerLeaf);
    SpineAmong(f.spines, i);
    if i <= f.spines {
      SameRoom(f, SpineName(i), n);
    }
  }

  lemma SameRoom(f: Recipe, d: string, n: nat)
    requires var s := PlainScript(f);
             PortCount(s, d) == f.spinePortCount && Demand(s, d) == f.leaves * f.spineTrunk && Reserved(s, d) == f.reservedUplinks
    ensures RoomOn(PlainScript(f), d, n) <==> Room(f, n)
  {
    hide PlainScript, PortCount, Demand, Reserved;
  }

  lemma PlainOffers(f: Recipe, n: nat)
    requires !Clashes(f) && Fits(f) && n > 0
    ensures Offers(Loader.Load(Inventory.EMPTY, PlainTopology(f)).0, f.spines, n, Room(f, n))
  {
    assert PlainTopology(f) == Made(PlainScript(f));
    PlainLoadable(f);
    forall i: nat | i > 0
      ensures SpineName(i) in Switches(PlainScript(f)) <==> i <= f.spines
      ensures i <= f.spines ==> !Latches(PlainScript(f), SpineName(i)) && (RoomOn(PlainScript(f), SpineName(i), n) <==> Room(f, n))
    {
      SpineRoom(f, i, n);
    }
    assert SpinesAlike(PlainScript(f), f.spines, n, Room(f, n)) by {
      hide PlainScript, Switches, Latches, RoomOn, Room, SpineName;
    }
    hide *;
    FabricOffers(PlainScript(f), f.spines, n, Room(f, n));
  }

  /** The first ports of a spine of a loaded plain fabric are there and free exactly if there
      is room. */
  lemma UplinkRoom(f: Recipe, spine: nat, n: nat)
    requires !Clashes(f) && Fits(f) && 1 <= spine <= f.spines && n > 0
    ensures var s := Loader.Load(Inventory.EMPTY, PlainTopology(f)).0;
            (forall k | 1 <= k <= n :: Loader.Free(s, PortID(SpineName(spine), k))) <==> Room(f, n)
  {
    hide Loader.Free, Loader.Load, PlainTopology, Room, SpineName, FreeOnly;
    PlainOffers(f, n);
    var s := Loader.Load(Inventory.EMPTY, PlainTopology(f)).0;
    assert FreeFrom(s, spine, n) <==> Room(f, n);
  }

  // ---- Port 0

  lemma OtherLeaf(f: Recipe, n: nat, i: nat)
    requires n > 0 && i != n
    ensures Demand(LeafScript(f, n), LeafName(i)) == 0
  {
    hide LeafScript, LeafName, LeafPorts, IsSpine, IsIpu;
    LeafScriptDemand(f, n, LeafName(i));
    LeafApart(f, i, n);
    if LeafName(i) == LeafName(n) {
      SameLeaf(i, n);
    }
  }

  lemma SameLeaf(i: nat, n: nat)
    requires LeafName(i) == LeafName(n)
    ensures i == n
  {
    SamePrefix("leaf", Dec(i), Dec(n));
    DecInjective(i, n);
  }

  lemma LeafApart(f: Recipe, i: nat, n: nat)
    ensures !IsSpine(LeafName(i), f.spines) && !IsIpu(LeafName(i), n, f.hostsPerLeaf)
  {
    LeafInitial(i);
    Kinds(LeafName(i), f.spines, n, f.hostsPerLeaf);
    forall h: nat
      ensures LeafName(i) != IpuName(n, h)
    {
      Initials(n, h, 0);
    }
    hide LeafName, IpuName;
  }

  /** Nothing is taken from a leaf before its own turn, nor does it exist. */
  lemma {:induction false} BeforeLeaf(f: Recipe, n: nat, i: nat)
    requires n < i
    ensures Demand(LeavesScript(f, n), LeafName(i)) == 0 && LeafName(i) !in Switches(LeavesScript(f, n))
  {
    if n > 0 {
      hide LeafScript, LeafName, IsIpu, IsSpine, InRack, Switches, Demand;
      BeforeLeaf(f, n - 1, i);
      OtherLeaf(f, n, i);
      LeafShape(f, n);
      LeafApart(f, i, n);
      if LeafName(i) == LeafName(n) {
        SameLeaf(i, n);
      }
      LeavesParts(f, n);
      hide LeavesScript;
      InTurn(NOTHING, START, LeavesScript(f, n - 1), LeafScript(f, n), LeafName(i));
    }
  }

  lemma {:induction false} LeafDrawn(b: Build, f: Recipe, n: nat, i: nat)
    requires 1 <= i <= n
    ensures Drawn(b, LeavesScript(f, n), LeafName(i)) == Drawn(Run(b, LeavesScript(f, i - 1)), LeafScript(f, i), LeafName(i))
  {
    hide *;
    var d := LeafName(i);
    LeavesParts(f, n);
    InTurn(NOTHING, b, LeavesScript(f, n - 1), LeafScript(f, n), d);
    if i == n {
      BeforeLeaf(f, n - 1, i);
      DrawnLength(b, LeavesScript(f, n - 1), d);
    } else {
      LeafDrawn(b, f, n - 1, i);
      OtherLeaf(f, n, i);
      DrawnLength(Run(b, LeavesScript(f, n - 1)), LeafScript(f, n), d);
    }
  }

  /** What a leaf has given out before its minimum is latched, and gives out after. */
  lemma LeafTurn(c: Context, b: Build, f: Recipe, i: nat)
    requires LeafName(i) !in c.devices && forall j | 1 <= j <= f.spines :: SpineName(j) in c.devices
    requires LeafName(i) !in b.nextPort
    ensures 0 in Drawn(b, LeafScript(f, i), LeafName(i)) <==>
            f.spines * f.spineTrunk == 0 &&
            f.hostsPerLeaf * (if f.hostsHaveIPU then 2 else 1) > FirstRound(f.leafPortCount)
  {
    var d := LeafName(i);
    var s0, u := Do(Switch(d, f.leafPortCount, None)), UplinkScript(f, d, f.spines);
    LeafApart(f, i, i);
    ReadyLegal(c, f, i);
    UplinkShape(f, d, f.spines);
    UplinkDemand(f, d, f.spines, d);
    HostsDemand(f, i, d);
    HostsCreate(f, i);
    Sequence(s0, u);
    ReservingCreates(u, d);
    LeafGroups(f, i);
    hide UplinkScript, HostsScript, LeafName, SpineName, IsIpu, IsSpine, FirstRound;
    PortZero(c, b, Then(s0, u), HostsScript(f, i), d);
    Regroup(b, Then(s0, u), Do(Latch(d)), HostsScript(f, i), d);
  }

  lemma LeafGroups(f: Recipe, i: nat)
    ensures LeafScript(f, i) ==
            Then(Then(Then(Do(Switch(LeafName(i), f.leafPortCount, None)), UplinkScript(f, LeafName(i), f.spines)),
                      Do(Latch(LeafName(i)))), HostsScript(f, i))
  {
  }

  lemma HostsCreate(f: Recipe, i: nat)
    ensures LeafName(i) !in Switches(HostsScript(f, i)) && !Latches(HostsScript(f, i), LeafName(i))
  {
    RackShape(i, LeafName(i), "", f.hostsPerLeaf, f.hostsHaveIPU, f.vmsPerIPU);
    LeafApart(f, i, i);
    hide LeafName, RackScript, IsIpu, InRack;
  }

  lemma UplinkSlashless(f: Recipe, leaf: string, n: nat)
    requires '/' !in leaf
    ensures Slashless(UplinkScript(f, leaf, n))
  {
    if n > 0 {
      SpineInitial(n);
      UplinkSlashless(f, leaf, n - 1);
      TrunkSlashless(SpineName(n), leaf, f.spineTrunk);
      hide SpineName, Trunk;
    }
  }

  lemma LeavesSlashless(f: Recipe, n: nat)
    ensures Slashless(LeavesScript(f, n))
  {
    if n > 0 {
      var leaf := LeafName(n);
      var s0, u := Do(Switch(leaf, f.leafPortCount, None)), UplinkScript(f, leaf, f.spines);
      LeavesSlashless(f, n - 1);
      LeafInitial(n);
      UplinkSlashless(f, leaf, f.spines);
      RackSlashless(n, leaf, "", f.hostsPerLeaf, f.hostsHaveIPU, f.vmsPerIPU);
      LeafGroups(f, n);
      LeavesParts(f, n);
      assert Slashless(s0) && Slashless(Do(Latch(leaf)));
      assert Slashless(HostsScript(f, n));
      hide *;
      SlashlessThen(s0, u);
      SlashlessThen(Then(s0, u), Do(Latch(leaf)));
      SlashlessThen(Then(Then(s0, u), Do(Latch(leaf))), HostsScript(f, n));
      SlashlessThen(LeavesScript(f, n - 1), LeafScript(f, n));
    }
  }

  lemma PlainSlashless(f: Recipe)
    ensures Slashless(PlainScript(f))
  {
    SpinesSlashless(f.spines, f.spinePortCount, Some(f.reservedUplinks));
    LeavesSlashless(f, f.leaves);
    SlashlessThen(SpinesScript(f.spines, f.spinePortCount, Some(f.reservedUplinks)), LeavesScript(f, f.leaves));
    hide SpinesScript, LeavesScript;
  }

  lemma PlainUses(f: Recipe, d: string, k: nat)
    requires '/' !in d
    ensures Uses(PlainTopology(f), PortID(d, k)) == Times(Drawn(START, PlainScript(f), d), k)
  {
    var x, y := SpinesScript(f.spines, f.spinePortCount, Some(f.reservedUplinks)), LeavesScript(f, f.leaves);
    PlainSlashless(f);
    SpinesShape(f.spines, f.spinePortCount, Some(f.reservedUplinks));
    LeavesHosts(f, f.leaves);
    Sequence(x, y);
    hide SpinesScript, LeavesScript, IsSpine, InRacks, Drawn, Run, Times, Uses, PortID;
    UsesDrawn(PlainScript(f), d, k);
  }

  /** A leaf's port 0, which does not exist, is used exactly if the leaf has no uplinks and
      more is attached to it than it has ports. */
  lemma LeafPortZero(f: Recipe, i: nat)
    requires 1 <= i <= f.leaves
    ensures Uses(PlainTopology(f), PortID(LeafName(i), 0)) > 0 <==>
            f.spines * f.spineTrunk == 0 &&
            f.hostsPerLeaf * (if f.hostsHaveIPU then 2 else 1) > FirstRound(f.leafPortCount)
  {
    hide *;
    var d, spines := LeafName(i), SpinesScript(f.spines, f.spinePortCount, Some(f.reservedUplinks));
    var b := Run(START, spines);
    var b1 := Run(b, LeavesScript(f, i - 1));
    PlainParts(f);
    LeafInitial(i);
    LeafApart(f, i, i);
    SpinesShape(f.spines, f.spinePortCount, Some(f.reservedUplinks));
    DrawnLength(START, spines, d);
    InTurn(NOTHING, START, spines, LeavesScript(f, f.leaves), d);
    LeafDrawn(b, f, f.leaves, i);
    BeforeLeaf(f, i - 1, i);
    ReservingCreates(spines, d);
    ReservingCreates(LeavesScript(f, i - 1), d);
    NextPortKnown(START, spines, d);
    NextPortKnown(b, LeavesScript(f, i - 1), d);
    SpinesContext(f);
    NoPortsYet(d);
    LeafTurn(After(NOTHING, spines), b1, f, i);
    PlainUses(f, d, 0);
    TimesSome(Drawn(START, PlainScript(f), d), 0);
  }

  lemma PlainParts(f: Recipe)
    ensures PlainTopology(f) == Made(PlainScript(f))
    ensures PlainScript(f) == Then(SpinesScript(f.spines, f.spinePortCount, Some(f.reservedUplinks)), LeavesScript(f, f.leaves))
  {
  }

  lemma SpinesContext(f: Recipe)
    ensures var c := After(NOTHING, SpinesScript(f.spines, f.spinePortCount, Some(f.reservedUplinks)));
            && (forall j | 1 <= j <= f.spines :: SpineName(j) in c.devices)
            && (forall i: nat :: LeafName(i) !in c.devices)
  {
    SpinesShape(f.spines, f.spinePortCount, Some(f.reservedUplinks));
    SpinesIn(f.spines);
    forall i: nat
      ensures !IsSpine(LeafName(i), f.spines)
    {
      LeafApart(f, i, 0);
    }
    hide SpinesScript, SpineName, LeafName, IsSpine;
  }

  /** Such a recipe: one leaf of one port, two hosts, and no spine. */
  lemma PortZeroUsed()
    ensures Uses(PlainTopology(Recipe(0, 0, 0, 1, 1, 0, 2, false, 0)), "leaf1/0") > 0
  {
    hide *;
    LeafPortZero(Recipe(0, 0, 0, 1, 1, 0, 2, false, 0), 1);
    FirstLeafPort();
  }

  lemma FirstLeafPort()
    ensures PortID(LeafName(1), 0) == "leaf1/0" && FirstRound(1) == 1
  {
    assert Dec(1) == "1" && Dec(0) == "0";
  }
}

/** The access fabric recipe: spines, and pairs of leaves with hosts attached to both.

    `AccessLoads` says which recipes make a topology that loads, and how large it is. */
module AccessFabric {
  import opened Common
  import opened Text
  import opened Schema
  import opened TopologyBuilder
  import opened Scripts
  import opened ScriptLoads
  import opened Racks
  import opened Names
  import Loader
  import Inventory

  datatype Recipe = Recipe(
    spines: nat, spinePortCount: nat, leafPairs: nat, leafPortCount: nat,
    spineTrunk: nat, pairTrunk: nat, hostsPerPair: nat, hostsHaveIPU: bool, vmsPerIPU: nat)

  function LeafName(pair: nat, side: nat): string {
    "leaf" + Dec(pair) + Dec(side)
  }

  // ---- The recipe as a script

  /** Trunks from the first `n` spines to both leaves of a pair. */
  function UplinkScript(f: Recipe, leaf1: string, leaf2: string, n: nat): Script {
    if n == 0 then Skip
    else Then(UplinkScript(f, leaf1, leaf2, n - 1),
              Then(Trunk(SpineName(n), leaf1, f.spineTrunk), Trunk(SpineName(n), leaf2, f.spineTrunk)))
  }

  /** The leaves of a pair with all their links, host attachment aside. */
  function LeafScript(f: Recipe, pair: nat): Script {
    var leaf1, leaf2 := LeafName(pair, 1), LeafName(pair, 2);
    Then(Then(Then(
      Do(Switch(leaf1, f.leafPortCount, None)),
      Do(Switch(leaf2, f.leafPortCount, None))),
      UplinkScript(f, leaf1, leaf2, f.spines)),
      Trunk(leaf1, leaf2, f.pairTrunk))
  }

  /** The leaves with their minimum ports latched, ready for hosts. */
  function ReadyScript(f: Recipe, pair: nat): Script {
    Then(Then(LeafScript(f, pair), Do(Latch(LeafName(pair, 1)))), Do(Latch(LeafName(pair, 2))))
  }

  function PairScript(f: Recipe, pair: nat): Script {
    Then(ReadyScript(f, pair),
         RackScript(pair, LeafName(pair, 1), LeafName(pair, 2), f.hostsPerPair, f.hostsHaveIPU, f.vmsPerIPU))
  }

  function PairsScript(f: Recipe, n: nat): Script {
    if n == 0 then Skip else Then(PairsScript(f, n - 1), PairScript(f, n))
  }

  function AccessScript(f: Recipe): Script {
    Then(SpinesScript(f.spines, f.spinePortCount, None), PairsScript(f, f.leafPairs))
  }

  function AccessTopology(f: Recipe): Topology {
    Made(AccessScript(f))
  }

  /** Generates the topology of a recipe. */
  method GenerateAccessFabric(f: Recipe) returns (t: TopologyFile)
    ensures fresh(t) && t.Value() == AccessTopology(f)
  {
    t := new TopologyFile();
    var b := new Builder();
    assert b.With(t, []) == START;
    for spine := 1 to f.spines + 1
      invariant fresh(t) && fresh(b) && b.With(t, []) == Run(START, SpinesScript(spine - 1, f.spinePortCount, None))
    {
      b.CreateSwitch(SpineName(spine), f.spinePortCount, t);
    }
    ghost var c := b.With(t, []);
    for pair := 1 to f.leafPairs + 1
      invariant fresh(t) && fresh(b) && b.With(t, []) == Run(c, PairsScript(f, pair - 1))
    {
      GeneratePair(f, pair, b, t);
    }
  }

  method GeneratePair(f: Recipe, pair: nat, b: Builder, t: TopologyFile)
    modifies b, t
    ensures b.With(t, []) == Run(old(b.With(t, [])), PairScript(f, pair))
  {
    hide Apply;
    var leaf1, leaf2 := LeafName(pair, 1), LeafName(pair, 2);
    ghost var c := b.With(t, []);
    ghost var s1 := Then(Do(Switch(leaf1, f.leafPortCount, None)), Do(Switch(leaf2, f.leafPortCount, None)));
    b.CreateSwitch(leaf1, f.leafPortCount, t);
    b.CreateSwitch(leaf2, f.leafPortCount, t);
    assert b.With(t, []) == Run(c, s1);
    ghost var d := b.With(t, []);
    for spine := 1 to f.spines + 1
      invariant b.With(t, []) == Run(d, UplinkScript(f, leaf1, leaf2, spine - 1))
    {
      b.CreateLinkTrunk(SpineName(spine), leaf1, f.spineTrunk, t);
      b.CreateLinkTrunk(SpineName(spine), leaf2, f.spineTrunk, t);
    }
    assert b.With(t, []) == Run(c, Then(s1, UplinkScript(f, leaf1, leaf2, f.spines)));
    b.CreateLinkTrunk(leaf1, leaf2, f.pairTrunk, t);
    assert b.With(t, []) == Run(c, LeafScript(f, pair));
    hide LeafScript;
    ghost var s2 := Then(LeafScript(f, pair), Do(Latch(leaf1)));
    b.LatchMinPort(leaf1, t);
    assert b.With(t, []) == Run(c, s2);
    b.LatchMinPort(leaf2, t);
    assert b.With(t, []) == Run(c, ReadyScript(f, pair));
    b.CreateRackHosts(pair, leaf1, leaf2, f.hostsPerPair, f.hostsHaveIPU, f.vmsPerIPU, t);
  }

  // ---- Names

  lemma LeafInitial(pair: nat, side: nat)
    ensures LeafName(pair, side)[0] == 'l' && '/' !in LeafName(pair, side) && ':' !in LeafName(pair, side)
  {
    assert IsNumeral(Dec(pair)) && IsNumeral(Dec(side));
    assert '/' !in DIGITS && ':' !in DIGITS;
  }

  lemma LeafNamesDiffer(p: nat, s: nat, q: nat, r: nat)
    requires p > 0 && q > 0 && s < 10 && r < 10 && LeafName(p, s) == LeafName(q, r)
    ensures p == q && s == r
  {
    hide Dec;
    assert LeafName(p, s) == "leaf" + (Dec(p) + Dec(s)) && LeafName(q, r) == "leaf" + (Dec(q) + Dec(r));
    SamePrefix("leaf", Dec(p) + Dec(s), Dec(q) + Dec(r));
    AppendDigit(p, s);
    AppendDigit(q, r);
    DecInjective(10 * p + s, 10 * q + r);
  }

  /** No two hosts of the first `n` pairs share a name. */
  ghost predicate Apart(f: Recipe, n: nat) {
    NamesApart(n, f.hostsPerPair, f.hostsHaveIPU, f.vmsPerIPU)
  }

  /** The numbers of pairs, hosts and VMs are too large for that. */
  predicate Clashes(f: Recipe) {
    Clash(f.leafPairs, f.hostsPerPair, f.hostsHaveIPU, f.vmsPerIPU)
  }

  lemma ClashesIff(f: Recipe)
    ensures Clashes(f) <==> !Apart(f, f.leafPairs)
  {
    ApartIff(f.leafPairs, f.hostsPerPair, f.hostsHaveIPU, f.vmsPerIPU);
  }

  lemma AppendDigit(n: nat, d: nat)
    requires n > 0 && d < 10
    ensures Dec(n) + Dec(d) == Dec(10 * n + d)
  {
    assert (10 * n + d) / 10 == n && (10 * n + d) % 10 == d;
  }

  predicate IsLeaf(d: string, n: nat) {
    exists p | 1 <= p <= n :: d == LeafName(p, 1) || d == LeafName(p, 2)
  }

  // ---- What the parts create and take

  lemma UplinkShape(f: Recipe, leaf1: string, leaf2: string, n: nat)
    ensures var s := UplinkScript(f, leaf1, leaf2, n);
            && Switches(s) == {} && HostNames(s) == {} && (forall p :: Pending(p, s) == p)
            && (forall d :: !Latches(s, d))
            && NumSwitches(s) == NumHosts(s) == 0 && NumCables(s) == n * (2 * f.spineTrunk)
  {
    if n > 0 {
      var u, v := Trunk(SpineName(n), leaf1, f.spineTrunk), Trunk(SpineName(n), leaf2, f.spineTrunk);
      UplinkShape(f, leaf1, leaf2, n - 1);
      TrunkShape(SpineName(n), leaf1, f.spineTrunk);
      TrunkShape(SpineName(n), leaf2, f.spineTrunk);
      Sequence(u, v);
      Sequence(UplinkScript(f, leaf1, leaf2, n - 1), Then(u, v));
      MulSucc(n - 1, 2 * f.spineTrunk);
      hide Trunk, Pending, Latches;
    }
  }

  lemma UplinkDemand(f: Recipe, leaf1: string, leaf2: string, n: nat, d: string)
    requires leaf1 != leaf2 && !IsSpine(leaf1, n) && !IsSpine(leaf2, n)
    ensures Demand(UplinkScript(f, leaf1, leaf2, n), d) ==
            (if IsSpine(d, n) then 2 * f.spineTrunk else 0) +
            (if d == leaf1 || d == leaf2 then n * f.spineTrunk else 0)
  {
    if n > 0 {
      var u, v := Trunk(SpineName(n), leaf1, f.spineTrunk), Trunk(SpineName(n), leaf2, f.spineTrunk);
      UplinkDemand(f, leaf1, leaf2, n - 1, d);
      TrunkDemand(SpineName(n), leaf1, f.spineTrunk, d);
      TrunkDemand(SpineName(n), leaf2, f.spineTrunk, d);
      Sequence(u, v);
      Sequence(UplinkScript(f, leaf1, leaf2, n - 1), Then(u, v));
      MulSucc(n - 1, f.spineTrunk);
      if i :| 1 <= i <= n - 1 && SpineName(n) == SpineName(i) {
        SpineNamesDiffer(n, i);
      }
      hide Trunk, SpineName, Demand;
    }
  }

  lemma UplinkLegal(c: Context, f: Recipe, leaf1: string, leaf2: string, n: nat)
    requires leaf1 in c.devices && leaf2 in c.devices && forall i | 1 <= i <= n :: SpineName(i) in c.devices
    ensures Legal(c, UplinkScript(f, leaf1, leaf2, n)) && After(c, UplinkScript(f, leaf1, leaf2, n)) == c
  {
    UplinkShape(f, leaf1, leaf2, n);
    if n > 0 {
      UplinkLegal(c, f, leaf1, leaf2, n - 1);
      TrunkLegal(c, SpineName(n), leaf1, f.spineTrunk);
      TrunkLegal(c, SpineName(n), leaf2, f.spineTrunk);
      hide Trunk, SpineName;
    }
  }

  /** How many ports each leaf of a pair has to give out. */
  function LeafPorts(f: Recipe): nat {
    f.spines * f.spineTrunk + f.pairTrunk + f.hostsPerPair
  }

  lemma LeafShape(f: Recipe, pair: nat)
    requires pair > 0
    ensures var s, leaf1, leaf2 := LeafScript(f, pair), LeafName(pair, 1), LeafName(pair, 2);
            && Switches(s) == {leaf1, leaf2} && leaf1 != leaf2
            && HostNames(s) == {} && (forall p :: Pending(p, s) == p)
            && (forall d :: !Latches(s, d))
            && (forall d | d in Switches(s) :: PortCount(s, d) == f.leafPortCount && Reserved(s, d) == 0)
            && NumSwitches(s) == 2 && NumCables(s) == f.spines * (2 * f.spineTrunk) + f.pairTrunk && NumHosts(s) == 0
  {
    var leaf1, leaf2 := LeafName(pair, 1), LeafName(pair, 2);
    var s0, s1 := Do(Switch(leaf1, f.leafPortCount, None)), Do(Switch(leaf2, f.leafPortCount, None));
    var u := UplinkScript(f, leaf1, leaf2, f.spines);
    if leaf1 == leaf2 {
      LeafNamesDiffer(pair, 1, pair, 2);
    }
    UplinkShape(f, leaf1, leaf2, f.spines);
    TrunkShape(leaf1, leaf2, f.pairTrunk);
    Sequence(s0, s1);
    Sequence(Then(s0, s1), u);
    Sequence(Then(Then(s0, s1), u), Trunk(leaf1, leaf2, f.pairTrunk));
    hide UplinkScript, Trunk, LeafName;
  }

  lemma LeafLinkDemand(f: Recipe, pair: nat, d: string)
    requires pair > 0
    ensures var leaf1, leaf2 := LeafName(pair, 1), LeafName(pair, 2);
            Demand(LeafScript(f, pair), d) ==
            (if IsSpine(d, f.spines) then 2 * f.spineTrunk else 0) +
            (if d == leaf1 || d == leaf2 then f.spines * f.spineTrunk + f.pairTrunk else 0)
  {
    var leaf1, leaf2 := LeafName(pair, 1), LeafName(pair, 2);
    var s0, s1 := Do(Switch(leaf1, f.leafPortCount, None)), Do(Switch(leaf2, f.leafPortCount, None));
    var u := UplinkScript(f, leaf1, leaf2, f.spines);
    NotSpine(pair, 1, f.spines);
    NotSpine(pair, 2, f.spines);
    LeafShape(f, pair);
    UplinkDemand(f, leaf1, leaf2, f.spines, d);
    TrunkDemand(leaf1, leaf2, f.pairTrunk, d);
    Sequence(s0, s1);
    Sequence(Then(s0, s1), u);
    Sequence(Then(Then(s0, s1), u), Trunk(leaf1, leaf2, f.pairTrunk));
    assert Demand(s0, d) == Demand(s1, d) == 0;
    hide UplinkScript, Trunk, LeafName, IsSpine, Demand;
  }

  lemma NotSpine(pair: nat, side: nat, n: nat)
    ensures !IsSpine(LeafName(pair, side), n)
  {
    forall i | 1 <= i <= n
      ensures LeafName(pair, side) != SpineName(i)
    {
      SpineInitial(i);
      LeafInitial(pair, side);
    }
  }

  lemma ReadyShape(f: Recipe, pair: nat)
    requires pair > 0
    ensures var s, leaf1, leaf2 := ReadyScript(f, pair), LeafName(pair, 1), LeafName(pair, 2);
            && Switches(s) == {leaf1, leaf2} && leaf1 != leaf2
            && HostNames(s) == {} && (forall p :: Pending(p, s) == p)
            && (forall d :: Latches(s, d) <==> d == leaf1 || d == leaf2)
            && (forall d | d in Switches(s) :: PortCount(s, d) == f.leafPortCount && Reserved(s, d) == 0)
            && NumSwitches(s) == 2 && NumCables(s) == f.spines * (2 * f.spineTrunk) + f.pairTrunk && NumHosts(s) == 0
            && (forall d :: Demand(s, d) == Demand(LeafScript(f, pair), d))
  {
    var l1, l2 := Do(Latch(LeafName(pair, 1))), Do(Latch(LeafName(pair, 2)));
    LeafShape(f, pair);
    Sequence(LeafScript(f, pair), l1);
    Sequence(Then(LeafScript(f, pair), l1), l2);
    hide LeafScript, LeafName;
  }

  lemma PairParts(f: Recipe, pair: nat)
    ensures PairScript(f, pair) == Then(ReadyScript(f, pair),
              RackScript(pair, LeafName(pair, 1), LeafName(pair, 2), f.hostsPerPair, f.hostsHaveIPU, f.vmsPerIPU))
  {
  }

  lemma PairShape(f: Recipe, pair: nat)
    requires pair > 0
    ensures var s, leaf1, leaf2 := PairScript(f, pair), LeafName(pair, 1), LeafName(pair, 2);
            && (forall d :: d in Switches(s) <==>
                  d == leaf1 || d == leaf2 || (f.hostsHaveIPU && IsIpu(d, pair, f.hostsPerPair)))
            && (forall n :: n in HostNames(s) <==> InRack(n, pair, f.hostsPerPair, f.hostsHaveIPU, f.vmsPerIPU))
            && Pending({}, s) == {}
            && (forall d :: Latches(s, d) <==> d == leaf1 || d == leaf2)
            && (forall d | d in Switches(s) :: Reserved(s, d) == 0 &&
                  PortCount(s, d) == if d == leaf1 || d == leaf2 then f.leafPortCount else 3 + f.vmsPerIPU)
  {
    var leaf1, leaf2 := LeafName(pair, 1), LeafName(pair, 2);
    ReadyShape(f, pair);
    RackShape(pair, leaf1, leaf2, f.hostsPerPair, f.hostsHaveIPU, f.vmsPerIPU);
    Sequence(ReadyScript(f, pair), RackScript(pair, leaf1, leaf2, f.hostsPerPair, f.hostsHaveIPU, f.vmsPerIPU));
    hide *;
    assert PairScript(f, pair) == Then(ReadyScript(f, pair), RackScript(pair, leaf1, leaf2, f.hostsPerPair, f.hostsHaveIPU, f.vmsPerIPU)) by { PairParts(f, pair); }
    assert Pending({}, ReadyScript(f, pair)) == {};
    assert Pending({}, RackScript(pair, leaf1, leaf2, f.hostsPerPair, f.hostsHaveIPU, f.vmsPerIPU)) == {};
    assert Switches(ReadyScript(f, pair)) == {leaf1, leaf2};
    assert forall d :: d in Switches(RackScript(pair, leaf1, leaf2, f.hostsPerPair, f.hostsHaveIPU, f.vmsPerIPU)) <==> (f.hostsHaveIPU && IsIpu(d, pair, f.hostsPerPair));
    assert Switches(PairScript(f, pair)) == Switches(ReadyScript(f, pair)) + Switches(RackScript(pair, leaf1, leaf2, f.hostsPerPair, f.hostsHaveIPU, f.vmsPerIPU));
  }

  /** How many IPUs, links (a pair of directions counting as one) and hosts a pair comes with. */
  function IpusPerPair(f: Recipe): nat {
    if f.hostsHaveIPU then f.hostsPerPair else 0
  }

  function LinksPerPair(f: Recipe): nat {
    f.spines * (2 * f.spineTrunk) + f.pairTrunk + 2 * IpusPerPair(f)
  }

  function HostsPerPair(f: Recipe): nat {
    f.hostsPerPair * (if f.hostsHaveIPU then 1 + f.vmsPerIPU else 1)
  }

  lemma PairSize(f: Recipe, pair: nat)
    requires pair > 0
    ensures var s := PairScript(f, pair);
            NumSwitches(s) == 2 + IpusPerPair(f) && NumCables(s) == LinksPerPair(f) && NumHosts(s) == HostsPerPair(f)
  {
    ReadyShape(f, pair);
    RackSize(pair, LeafName(pair, 1), LeafName(pair, 2), f.hostsPerPair, f.hostsHaveIPU, f.vmsPerIPU);
    hide ReadyScript, RackScript;
  }

  lemma ReadyDemand(f: Recipe, pair: nat, d: string)
    requires pair > 0
    ensures Demand(ReadyScript(f, pair), d) ==
            (if IsSpine(d, f.spines) then 2 * f.spineTrunk else 0) +
            (if d == LeafName(pair, 1) || d == LeafName(pair, 2) then f.spines * f.spineTrunk + f.pairTrunk else 0)
  {
    ReadyShape(f, pair);
    LeafLinkDemand(f, pair, d);
  }

  lemma HostsDemand(f: Recipe, pair: nat, leaf1: string, leaf2: string, d: string)
    requires leaf1 != leaf2 && |leaf2| > 0
    ensures Demand(RackScript(pair, leaf1, leaf2, f.hostsPerPair, f.hostsHaveIPU, f.vmsPerIPU), d) ==
            (if d == leaf1 || d == leaf2 then f.hostsPerPair else 0) +
            (if f.hostsHaveIPU && IsIpu(d, pair, f.hostsPerPair) then 3 + f.vmsPerIPU else 0)
  {
    RackDemand(pair, leaf1, leaf2, f.hostsPerPair, f.hostsHaveIPU, f.vmsPerIPU, d);
    assert LeafDemand(leaf1, leaf2, f.hostsHaveIPU, d) == if d == leaf1 || d == leaf2 then 1 else 0;
    hide *;
  }

  /** How many ports of a device are taken for a pair and its hosts. */
  lemma PairDemand(f: Recipe, pair: nat, d: string)
    requires pair > 0
    ensures Demand(PairScript(f, pair), d) ==
            (if IsSpine(d, f.spines) then 2 * f.spineTrunk else 0) +
            (if d == LeafName(pair, 1) || d == LeafName(pair, 2) then LeafPorts(f) else 0) +
            (if f.hostsHaveIPU && IsIpu(d, pair, f.hostsPerPair) then 3 + f.vmsPerIPU else 0)
  {
    var leaf1, leaf2 := LeafName(pair, 1), LeafName(pair, 2);
    if leaf1 == leaf2 {
      LeafNamesDiffer(pair, 1, pair, 2);
    }
    LeafInitial(pair, 2);
    ReadyDemand(f, pair, d);
    HostsDemand(f, pair, leaf1, leaf2, d);
    PairParts(f, pair);
    hide ReadyScript, RackScript, LeafName, IsIpu, IsSpine;
  }

  lemma LeafLegal(c: Context, f: Recipe, pair: nat)
    requires pair > 0 && LeafName(pair, 1) !in c.devices && LeafName(pair, 2) !in c.devices
    requires forall i | 1 <= i <= f.spines :: SpineName(i) in c.devices
    ensures Legal(c, LeafScript(f, pair))
  {
    var leaf1, leaf2 := LeafName(pair, 1), LeafName(pair, 2);
    var s0, s1 := Do(Switch(leaf1, f.leafPortCount, None)), Do(Switch(leaf2, f.leafPortCount, None));
    var s2 := Then(s0, s1);
    LeafInitial(pair, 1);
    LeafInitial(pair, 2);
    LeafShape(f, pair);
    UplinkShape(f, leaf1, leaf2, f.spines);
    hide LeafName, SpineName;
    Sequence(s0, s1);
    Sequence(s2, UplinkScript(f, leaf1, leaf2, f.spines));
    assert Legal(c, s2);
    var d := After(c, s2);
    assert leaf1 in d.devices && leaf2 in d.devices && c.devices <= d.devices;
    UplinkLegal(d, f, leaf1, leaf2, f.spines);
    TrunkLegal(d, leaf1, leaf2, f.pairTrunk);
    hide UplinkScript, Trunk;
    assert After(c, Then(s2, UplinkScript(f, leaf1, leaf2, f.spines))) == After(d, UplinkScript(f, leaf1, leaf2, f.spines));
  }

  lemma ReadyLegal(c: Context, f: Recipe, pair: nat)
    requires pair > 0 && LeafName(pair, 1) !in c.devices && LeafName(pair, 2) !in c.devices
    requires forall i | 1 <= i <= f.spines :: SpineName(i) in c.devices
    ensures Legal(c, ReadyScript(f, pair))
  {
    var leaf1, leaf2 := LeafName(pair, 1), LeafName(pair, 2);
    var s, l1, l2 := LeafScript(f, pair), Do(Latch(leaf1)), Do(Latch(leaf2));
    LeafLegal(c, f, pair);
    LeafShape(f, pair);
    hide LeafScript, LeafName;
    assert Legal(After(c, s), l1) && Legal(c, Then(s, l1));
    assert leaf2 in After(c, Then(s, l1)).devices;
  }

  lemma PairLegal(c: Context, f: Recipe, pair: nat)
    requires pair > 0 && Apart(f, pair) && c.pending == {}
    requires LeafName(pair, 1) !in c.devices && LeafName(pair, 2) !in c.devices
    requires forall i | 1 <= i <= f.spines :: SpineName(i) in c.devices
    requires NewRack(c, pair, f.hostsPerPair, f.hostsHaveIPU, f.vmsPerIPU)
    ensures Legal(c, PairScript(f, pair))
  {
    var leaf1, leaf2 := LeafName(pair, 1), LeafName(pair, 2);
    var d := After(c, ReadyScript(f, pair));
    ReadyLegal(c, f, pair);
    ReadyShape(f, pair);
    forall h | 1 <= h <= f.hostsPerPair
      ensures IpuName(pair, h) !in d.devices
    {
      Initials(pair, h, 0);
      LeafInitial(pair, 1);
      LeafInitial(pair, 2);
    }
    hide ReadyScript, LeafName, IpuName, NameOf;
    RackLegal(d, pair, leaf1, leaf2, f.hostsPerPair, f.hostsHaveIPU, f.vmsPerIPU);
  }

  // ---- All pairs

  lemma PairsHosts(f: Recipe, n: nat)
    ensures var s := PairsScript(f, n);
            (forall x :: x in HostNames(s) <==> InRacks(x, n, f.hostsPerPair, f.hostsHaveIPU, f.vmsPerIPU)) && Pending({}, s) == {}
  {
    hide PairScript, LeafName, IsIpu, InRack;
    if n > 0 {
      PairsHosts(f, n - 1);
      PairShape(f, n);
      PairsParts(f, n);
    }
  }

  lemma PairsShape(f: Recipe, n: nat)
    ensures var s := PairsScript(f, n);
            && (forall d :: d in Switches(s) <==>
                  IsLeaf(d, n) || (f.hostsHaveIPU && IsRackIpu(d, n, f.hostsPerPair)))
            && (forall d :: Latches(s, d) <==> IsLeaf(d, n))
            && (forall d | d in Switches(s) :: Reserved(s, d) == 0 &&
                  PortCount(s, d) == if IsLeaf(d, n) then f.leafPortCount else 3 + f.vmsPerIPU)
  {
    if n > 0 {
      PairsShape(f, n - 1);
      PairShape(f, n);
      forall d
        ensures IsLeaf(d, n) <==> IsLeaf(d, n - 1) || d == LeafName(n, 1) || d == LeafName(n, 2)
        ensures IsRackIpu(d, n, f.hostsPerPair) <==> IsRackIpu(d, n - 1, f.hostsPerPair) || IsIpu(d, n, f.hostsPerPair)
        ensures !IsLeaf(d, n) || !IsRackIpu(d, n, f.hostsPerPair)
      {
        Kinds(d, 0, n, f.hostsPerPair);
        hide LeafName, IsIpu;
      }
      hide PairScript, LeafName, IsIpu, IsLeaf, IsRackIpu, InRack;
    }
  }

  /** The initial tells spines, leaves and IPUs apart. */
  lemma Kinds(d: string, spines: nat, n: nat, count: nat)
    ensures IsSpine(d, spines) ==> |d| > 0 && d[0] == 's'
    ensures IsLeaf(d, n) ==> |d| > 0 && d[0] == 'l'
    ensures IsRackIpu(d, n, count) ==> |d| > 0 && d[0] == 'i'
  {
    forall i | 1 <= i <= spines
      ensures |SpineName(i)| > 0 && SpineName(i)[0] == 's'
    {
      SpineInitial(i);
    }
    forall p, side | 1 <= p <= n && 1 <= side <= 2
      ensures |LeafName(p, side)| > 0 && LeafName(p, side)[0] == 'l'
    {
      LeafInitial(p, side);
    }
    forall p, h | 1 <= p <= n && 1 <= h <= count
      ensures |IpuName(p, h)| > 0 && IpuName(p, h)[0] == 'i'
    {
      Initials(p, h, 0);
    }
    hide SpineName, LeafName, IpuName;
  }

  lemma {:induction false} PairsSize(f: Recipe, n: nat)
    ensures var s := PairsScript(f, n);
            && NumSwitches(s) == n * (2 + IpusPerPair(f))
            && NumCables(s) == n * LinksPerPair(f)
            && NumHosts(s) == n * HostsPerPair(f)
  {
    if n > 0 {
      PairsSize(f, n - 1);
      PairSize(f, n);
      hide PairScript, IpusPerPair, LinksPerPair, HostsPerPair;
      MulSucc(n - 1, 2 + IpusPerPair(f));
      MulSucc(n - 1, LinksPerPair(f));
      MulSucc(n - 1, HostsPerPair(f));
    }
  }

  /** How many ports each device gives out to the first `n` pairs: spines two trunks a
      pair, leaves the ports of one pair, IPUs all they have. */
  lemma {:induction false} PairsDemand(f: Recipe, n: nat, d: string)
    requires Apart(f, n)
    ensures Demand(PairsScript(f, n), d) ==
            (if IsSpine(d, f.spines) then n * (2 * f.spineTrunk) else 0) +
            (if IsLeaf(d, n) then LeafPorts(f) else 0) +
            (if f.hostsHaveIPU && IsRackIpu(d, n, f.hostsPerPair) then 3 + f.vmsPerIPU else 0)
  {
    if n > 0 {
      PairsDemand(f, n - 1, d);
      PairDemand(f, n, d);
      NextLeaf(n, d);
      NextRackIpus(n, f.hostsPerPair, f.hostsHaveIPU, f.vmsPerIPU, d);
      MulSucc(n - 1, 2 * f.spineTrunk);
      assert Demand(PairsScript(f, n), d) == Demand(PairsScript(f, n - 1), d) + Demand(PairScript(f, n), d);
      hide *;
    }
  }

  lemma NextLeaf(n: nat, d: string)
    requires n > 0
    ensures IsLeaf(d, n) <==> IsLeaf(d, n - 1) || d == LeafName(n, 1) || d == LeafName(n, 2)
    ensures d == LeafName(n, 1) || d == LeafName(n, 2) ==> !IsLeaf(d, n - 1)
  {
    forall p, s, r | 1 <= p <= n - 1 && 1 <= s <= 2 && 1 <= r <= 2
      ensures LeafName(n, s) != LeafName(p, r)
    {
      if LeafName(n, s) == LeafName(p, r) {
        LeafNamesDiffer(n, s, p, r);
      }
    }
    hide LeafName;
  }

  lemma LeafNew(n: nat, side: nat, count: nat, spines: nat)
    requires n > 0 && 1 <= side <= 2
    ensures var d := LeafName(n, side); !IsSpine(d, spines) && !IsLeaf(d, n - 1) && !IsRackIpu(d, n - 1, count)
  {
    var d := LeafName(n, side);
    LeafInitial(n, side);
    NextLeaf(n, d);
    Kinds(d, spines, n - 1, count);
    hide LeafName;
  }

  lemma DevicesSoFar(c: Context, f: Recipe, n: nat, d: string)
    requires OnlySpines(c, f.spines)
    ensures d in After(c, PairsScript(f, n)).devices <==>
            IsSpine(d, f.spines) || IsLeaf(d, n) || (f.hostsHaveIPU && IsRackIpu(d, n, f.hostsPerPair))
  {
    PairsShape(f, n);
    hide PairsScript, IsSpine, IsLeaf, IsRackIpu;
  }

  lemma NextDevicesNew(c: Context, f: Recipe, n: nat)
    requires n > 0 && Apart(f, n) && OnlySpines(c, f.spines)
    ensures var d := After(c, PairsScript(f, n - 1));
            && (forall h | 1 <= h <= f.hostsPerPair :: IpuName(n, h) !in d.devices)
            && LeafName(n, 1) !in d.devices && LeafName(n, 2) !in d.devices
            && forall i | 1 <= i <= f.spines :: SpineName(i) in d.devices
  {
    hide PairsScript, SpineName, LeafName, IpuName, IsSpine, IsLeaf, IsRackIpu, OnlySpines, NamesApart, After;
    LeafNew(n, 1, f.hostsPerPair, f.spines);
    LeafNew(n, 2, f.hostsPerPair, f.spines);
    DevicesSoFar(c, f, n - 1, LeafName(n, 1));
    DevicesSoFar(c, f, n - 1, LeafName(n, 2));
    forall i | 1 <= i <= f.spines
      ensures SpineName(i) in After(c, PairsScript(f, n - 1)).devices
    {
      SpineAmong(f.spines, i);
      DevicesSoFar(c, f, n - 1, SpineName(i));
    }
    forall h | 1 <= h <= f.hostsPerPair
      ensures IpuName(n, h) !in After(c, PairsScript(f, n - 1)).devices
    {
      Initials(n, h, 0);
      Kinds(IpuName(n, h), f.spines, n - 1, f.hostsPerPair);
      RackIpuNew(n, h, f.hostsPerPair, f.hostsHaveIPU, f.vmsPerIPU);
      DevicesSoFar(c, f, n - 1, IpuName(n, h));
    }
  }

  lemma NextPairNew(c: Context, f: Recipe, n: nat)
    requires n > 0 && Apart(f, n) && OnlySpines(c, f.spines)
    ensures var d := After(c, PairsScript(f, n - 1));
            && d.pending == {}
            && forall x, h | x in d.hosts && 1 <= h <= f.hostsPerPair :: !NameOf(x, n, h, f.hostsHaveIPU, f.vmsPerIPU)
  {
    var d := After(c, PairsScript(f, n - 1));
    PairsHosts(f, n - 1);
    hide PairsScript, NameOf, InRacks, NamesApart;
    forall x, h | x in d.hosts && 1 <= h <= f.hostsPerPair
      ensures !NameOf(x, n, h, f.hostsHaveIPU, f.vmsPerIPU)
    {
      RackNamesNew(x, n, f.hostsPerPair, f.hostsHaveIPU, f.vmsPerIPU, h);
    }
  }

  lemma {:induction false} PairsLegal(c: Context, f: Recipe, n: nat)
    requires Apart(f, n) && OnlySpines(c, f.spines)
    ensures Legal(c, PairsScript(f, n))
  {
    if n > 0 {
      PairsLegal(c, f, n - 1);
      NextDevicesNew(c, f, n);
      NextPairNew(c, f, n);
      PairLegal(After(c, PairsScript(f, n - 1)), f, n);
      hide PairScript, LeafName, SpineName, OnlySpines, NameOf, IpuName;
    }
  }

  lemma AccessComplete(f: Recipe)
    requires Apart(f, f.leafPairs)
    ensures Complete(AccessScript(f))
  {
    var c := After(NOTHING, SpinesScript(f.spines, f.spinePortCount, None));
    SpinesLegal(f.spines, f.spinePortCount, None);
    SpinesShape(f.spines, f.spinePortCount, None);
    PairsHosts(f, f.leafPairs);
    hide SpinesScript, PairsScript, IsSpine, IsLeaf, IsRackIpu;
    PairsLegal(c, f, f.leafPairs);
  }

  // ---- The theorems

  /** The ports a recipe asks of a switch do not exceed what it has. */
  predicate Fits(f: Recipe) {
    && (f.spines == 0 || f.leafPairs * (2 * f.spineTrunk) <= f.spinePortCount)
    && (f.leafPairs == 0 || LeafPorts(f) <= f.leafPortCount)
  }

  /** What every device of a recipe gives out, and has to give. */
  lemma AccessDevice(f: Recipe, d: string)
    requires Apart(f, f.leafPairs)
    ensures var s := AccessScript(f);
            && (d in Switches(s) <==>
                  IsSpine(d, f.spines) || IsLeaf(d, f.leafPairs) ||
                  (f.hostsHaveIPU && IsRackIpu(d, f.leafPairs, f.hostsPerPair)))
            && (d in Switches(s) ==> Reserved(s, d) == 0) && (Latches(s, d) <==> IsLeaf(d, f.leafPairs))
            && (IsSpine(d, f.spines) ==>
                  PortCount(s, d) == f.spinePortCount && Demand(s, d) == f.leafPairs * (2 * f.spineTrunk))
            && (IsLeaf(d, f.leafPairs) ==> PortCount(s, d) == f.leafPortCount && Demand(s, d) == LeafPorts(f))
            && (f.hostsHaveIPU && IsRackIpu(d, f.leafPairs, f.hostsPerPair) ==>
                  PortCount(s, d) == Demand(s, d) == 3 + f.vmsPerIPU)
  {
    SpinesShape(f.spines, f.spinePortCount, None);
    PairsShape(f, f.leafPairs);
    PairsDemand(f, f.leafPairs, d);
    Kinds(d, f.spines, f.leafPairs, f.hostsPerPair);
    Sequence(SpinesScript(f.spines, f.spinePortCount, None), PairsScript(f, f.leafPairs));
    hide SpinesScript, PairsScript, IsSpine, IsLeaf, IsRackIpu, LeafPorts;
  }

  lemma AccessInBudget(f: Recipe)
    requires Apart(f, f.leafPairs)
    ensures InBudget(AccessScript(f)) <==> Fits(f)
    ensures LatchesFree(AccessScript(f))
  {
    var s := AccessScript(f);
    forall d
      ensures d in Switches(s) ==> Reserved(s, d) == 0
      ensures Fits(f) && d in Switches(s) ==> WithinBudget(s, d)
    {
      AccessDevice(f, d);
      hide AccessScript, IsSpine, IsLeaf, IsRackIpu;
    }
    if InBudget(s) {
      if f.spines > 0 {
        AccessDevice(f, SpineName(1));
        assert IsSpine(SpineName(1), f.spines);
      }
      if f.leafPairs > 0 {
        AccessDevice(f, LeafName(1, 1));
        assert IsLeaf(LeafName(1, 1), f.leafPairs);
      }
    }
  }

  /** The names of hosts are those the scripts of their pairs use. */
  lemma PairUses(f: Recipe, n: nat, x: string, h: nat)
    requires n > 0 && 1 <= h <= f.hostsPerPair && NameOf(x, n, h, f.hostsHaveIPU, f.vmsPerIPU)
    ensures x in HostNames(PairScript(f, n))
  {
    hide NameOf, PairScript, LeafName, IsIpu, Switches;
    PairShape(f, n);
    assert InRack(x, n, f.hostsPerPair, f.hostsHaveIPU, f.vmsPerIPU);
  }

  lemma PairsUse(f: Recipe, n: nat, x: string, r: nat, h: nat)
    requires 1 <= r <= n && 1 <= h <= f.hostsPerPair && NameOf(x, r, h, f.hostsHaveIPU, f.vmsPerIPU)
    ensures x in HostNames(PairsScript(f, n))
  {
    hide NameOf, PairsScript;
    PairsHosts(f, n);
    assert InRack(x, r, f.hostsPerPair, f.hostsHaveIPU, f.vmsPerIPU);
  }

  lemma PairsParts(f: Recipe, n: nat)
    requires n > 0
    ensures PairsScript(f, n) == Then(PairsScript(f, n - 1), PairScript(f, n))
  {
  }

  /** Where two hosts share a name, the topology has two hosts of one name. */
  lemma PairsDouble(f: Recipe, n: nat, x: string, r: nat, h: nat, q: nat, g: nat)
    requires 1 <= r <= q <= n && 1 <= h <= f.hostsPerPair && 1 <= g <= f.hostsPerPair && (r == q ==> h < g)
    requires NameOf(x, r, h, f.hostsHaveIPU, f.vmsPerIPU) && NameOf(x, q, g, f.hostsHaveIPU, f.vmsPerIPU)
    ensures Doubles(PairsScript(f, n))
  {
    hide *;
    var front, last := PairsScript(f, n - 1), PairScript(f, n);
    PairsParts(f, n);
    if q < n {
      PairsDouble(f, n - 1, x, r, h, q, g);
      DoublesThen(front, last);
    } else if r < n {
      PairsUse(f, n - 1, x, r, h);
      PairUses(f, n, x, g);
      SharedDoubles(front, last, x);
    } else {
      PairParts(f, n);
      RackDoubles(n, LeafName(n, 1), LeafName(n, 2), f.hostsPerPair, f.hostsHaveIPU, f.vmsPerIPU, x, h, g);
      DoublesThen(ReadyScript(f, n), RackScript(n, LeafName(n, 1), LeafName(n, 2), f.hostsPerPair, f.hostsHaveIPU, f.vmsPerIPU));
      DoublesThen(front, last);
    }
  }

  lemma AccessDoubles(f: Recipe)
    requires !Apart(f, f.leafPairs)
    ensures Doubles(AccessScript(f))
  {
    var x, r, h, q, g := SharedName(f.leafPairs, f.hostsPerPair, f.hostsHaveIPU, f.vmsPerIPU);
    PairsDouble(f, f.leafPairs, x, r, h, q, g);
    assert AccessScript(f) == Then(SpinesScript(f.spines, f.spinePortCount, None), PairsScript(f, f.leafPairs));
    hide *;
    DoublesThen(SpinesScript(f.spines, f.spinePortCount, None), PairsScript(f, f.leafPairs));
  }

  /** A recipe makes a topology that loads into an empty simulation exactly if its switches
      have the ports it asks for and no two hosts get the same name; it is then of this size. */
  lemma AccessLoads(f: Recipe)
    ensures Loader.Load(Inventory.EMPTY, AccessTopology(f)).1 == Done <==>
            Fits(f) && !Clashes(f)
    ensures Loader.Load(Inventory.EMPTY, AccessTopology(f)).1 == Done ==>
              var r := Loader.Load(Inventory.EMPTY, AccessTopology(f)).0;
              && |r.devices| == f.spines + f.leafPairs * (2 + IpusPerPair(f))
              && |r.links| == 2 * (f.leafPairs * LinksPerPair(f))
              && |r.hosts| == f.leafPairs * HostsPerPair(f)
  {
    AccessMade(f);
    AccessSize(f);
    ClashesIff(f);
    if Apart(f, f.leafPairs) {
      AccessComplete(f);
      AccessInBudget(f);
      hide *;
      ScriptLoad(AccessScript(f));
    } else {
      AccessDoubles(f);
      hide *;
      DoublesFail(AccessScript(f));
    }
  }

  lemma AccessSize(f: Recipe)
    ensures var s := AccessScript(f);
            && NumSwitches(s) == f.spines + f.leafPairs * (2 + IpusPerPair(f))
            && NumCables(s) == f.leafPairs * LinksPerPair(f) && NumHosts(s) == f.leafPairs * HostsPerPair(f)
  {
    SpinesShape(f.spines, f.spinePortCount, None);
    PairsSize(f, f.leafPairs);
    hide SpinesScript, PairsScript, IpusPerPair, LinksPerPair, HostsPerPair;
  }

  /** Every port of every IPU ends up in exactly one place: two uplinks, the host, a VM each. */
  lemma AccessIpuPorts(f: Recipe, pair: nat, host: nat, k: nat)
    requires !Clashes(f) && f.hostsHaveIPU
    requires 1 <= pair <= f.leafPairs && 1 <= host <= f.hostsPerPair && 1 <= k <= 3 + f.vmsPerIPU
    ensures Uses(AccessTopology(f), PortID(IpuName(pair, host), k)) == 1
  {
    var d := IpuName(pair, host);
    assert IsIpu(d, pair, f.hostsPerPair) && IsRackIpu(d, f.leafPairs, f.hostsPerPair);
    ClashesIff(f);
    AccessComplete(f);
    AccessInBudget(f);
    AccessDevice(f, d);
    hide *;
    AllPortsOnce(AccessScript(f), d, k);
    assert AccessTopology(f) == Made(AccessScript(f)) by {
      AccessMade(f);
    }
  }

  lemma AccessMade(f: Recipe)
    ensures AccessTopology(f) == Made(AccessScript(f))
  {
  }

  // ---- Room for links to other domains

  lemma AccessLoadable(f: Recipe)
    requires !Clashes(f) && Fits(f)
    ensures Loadable(AccessScript(f))
  {
    ClashesIff(f);
    AccessComplete(f);
    AccessInBudget(f);
    hide *;
  }

  /** When the first `n` ports of a spine are all there and free: nothing is attached to it. */
  predicate Room(f: Recipe, n: nat) {
    n <= f.spinePortCount && f.leafPairs * (2 * f.spineTrunk) == 0
  }

  lemma SpineRoom(f: Recipe, i: nat, n: nat)
    requires !Clashes(f) && i > 0 && n > 0
    ensures var s, d := AccessScript(f), SpineName(i);
            && (d in Switches(s) <==> i <= f.spines)
            && (i <= f.spines ==> !Latches(s, d) && (RoomOn(s, d, n) <==> Room(f, n)))
  {
    hide *;
    ClashesIff(f);
    AccessDevice(f, SpineName(i));
    SpineInitial(i);
    Kinds(SpineName(i), f.spines, f.leafPairs, f.hostsPerPair);
    SpineAmong(f.spines, i);
    if i <= f.spines {
      SameRoom(f, SpineName(i), n);
    }
  }

  lemma SameRoom(f: Recipe, d: string, n: nat)
    requires n > 0
    requires var s := AccessScript(f);
             PortCount(s, d) == f.spinePortCount && Demand(s, d) == f.leafPairs * (2 * f.spineTrunk) && Reserved(s, d) == 0
    ensures RoomOn(AccessScript(f), d, n) <==> Room(f, n)
  {
    hide AccessScript, PortCount, Demand, Reserved;
  }

  lemma AccessOffers(f: Recipe, n: nat)
    requires !Clashes(f) && Fits(f) && n > 0
    ensures Offers(Loader.Load(Inventory.EMPTY, AccessTopology(f)).0, f.spines, n, Room(f, n))
  {
    AccessMade(f);
    AccessLoadable(f);
    forall i: nat | i > 0
      ensures SpineName(i) in Switches(AccessScript(f)) <==> i <= f.spines
      ensures i <= f.spines ==> !Latches(AccessScript(f), SpineName(i)) && (RoomOn(AccessScript(f), SpineName(i), n) <==> Room(f, n))
    {
      SpineRoom(f, i, n);
    }
    assert SpinesAlike(AccessScript(f), f.spines, n, Room(f, n)) by {
      hide AccessScript, Switches, Latches, RoomOn, Room, SpineName;
    }
    hide *;
    FabricOffers(AccessScript(f), f.spines, n, Room(f, n));
  }

  // ---- Port 0

  lemma LeafApart(f: Recipe, pair: nat, side: nat, n: nat)
    ensures !IsSpine(LeafName(pair, side), f.spines) && !IsIpu(LeafName(pair, side), n, f.hostsPerPair)
  {
    NotSpine(pair, side, f.spines);
    LeafInitial(pair, side);
    forall h: nat
      ensures LeafName(pair, side) != IpuName(n, h)
    {
      Initials(n, h, 0);
    }
    hide LeafName, IpuName, IsSpine;
  }

  lemma OtherPair(f: Recipe, n: nat, pair: nat, side: nat)
    requires n > 0 && pair > 0 && pair != n && 1 <= side <= 2
    ensures Demand(PairScript(f, n), LeafName(pair, side)) == 0 && LeafName(pair, side) !in Switches(PairScript(f, n))
  {
    hide PairScript, LeafName, LeafPorts, IsSpine, IsIpu, InRack;
    PairDemand(f, n, LeafName(pair, side));
    PairShape(f, n);
    LeafApart(f, pair, side, n);
    forall r | 1 <= r <= 2
      ensures LeafName(pair, side) != LeafName(n, r)
    {
      if LeafName(pair, side) == LeafName(n, r) {
        LeafNamesDiffer(pair, side, n, r);
      }
    }
  }

  /** Nothing is taken from a leaf before its own turn, nor does it exist. */
  lemma {:induction false} BeforePair(f: Recipe, n: nat, pair: nat, side: nat)
    requires n < pair && 1 <= side <= 2
    ensures var d := LeafName(pair, side); Demand(PairsScript(f, n), d) == 0 && d !in Switches(PairsScript(f, n))
  {
    if n > 0 {
      hide PairScript, LeafName, Switches, Demand;
      BeforePair(f, n - 1, pair, side);
      OtherPair(f, n, pair, side);
      PairsParts(f, n);
      hide PairsScript;
      InTurn(NOTHING, START, PairsScript(f, n - 1), PairScript(f, n), LeafName(pair, side));
    }
  }

  lemma {:induction false} PairDrawn(b: Build, f: Recipe, n: nat, pair: nat, side: nat)
    requires 1 <= pair <= n && 1 <= side <= 2
    ensures var d := LeafName(pair, side);
            Drawn(b, PairsScript(f, n), d) == Drawn(Run(b, PairsScript(f, pair - 1)), PairScript(f, pair), d)
  {
    hide *;
    var d := LeafName(pair, side);
    PairsParts(f, n);
    InTurn(NOTHING, b, PairsScript(f, n - 1), PairScript(f, n), d);
    if pair == n {
      BeforePair(f, n - 1, pair, side);
      DrawnLength(b, PairsScript(f, n - 1), d);
    } else {
      PairDrawn(b, f, n - 1, pair, side);
      OtherPair(f, n, pair, side);
      DrawnLength(Run(b, PairsScript(f, n - 1)), PairScript(f, n), d);
    }
  }

  /** A pair's script, split where the minimum of one of its leaves is latched. */
  function BeforeLatch(f: Recipe, pair: nat, side: nat): Script {
    if side == 1 then LeafScript(f, pair) else Then(LeafScript(f, pair), Do(Latch(LeafName(pair, 1))))
  }

  function AfterLatch(f: Recipe, pair: nat, side: nat): Script {
    var hosts := RackScript(pair, LeafName(pair, 1), LeafName(pair, 2), f.hostsPerPair, f.hostsHaveIPU, f.vmsPerIPU);
    if side == 1 then Then(Do(Latch(LeafName(pair, 2))), hosts) else hosts
  }

  lemma PairGroups(b: Build, f: Recipe, pair: nat, side: nat, d: string)
    requires 1 <= side <= 2
    ensures Drawn(b, PairScript(f, pair), d) ==
            Drawn(b, Then(BeforeLatch(f, pair, side), Then(Do(Latch(LeafName(pair, side))), AfterLatch(f, pair, side))), d)
  {
    var s, l1, l2 := LeafScript(f, pair), Do(Latch(LeafName(pair, 1))), Do(Latch(LeafName(pair, 2)));
    var hosts := RackScript(pair, LeafName(pair, 1), LeafName(pair, 2), f.hostsPerPair, f.hostsHaveIPU, f.vmsPerIPU);
    hide Drawn, LeafScript, LeafName, RackScript;
    Regroup(b, Then(s, l1), l2, hosts, d);
    Regroup(b, s, l1, Then(l2, hosts), d);
  }

  lemma BeforeShape(f: Recipe, pair: nat, side: nat)
    requires pair > 0 && 1 <= side <= 2
    ensures var s, d := BeforeLatch(f, pair, side), LeafName(pair, side);
            && d in Switches(s) && !Latches(s, d) && PortCount(s, d) == f.leafPortCount && !Reserving(s, d)
            && Demand(s, d) == f.spines * f.spineTrunk + f.pairTrunk
  {
    LeafShape(f, pair);
    LeafLinkDemand(f, pair, LeafName(pair, side));
    LeafApart(f, pair, side, 0);
    NotReserving(f, pair, LeafName(pair, side));
    hide LeafScript, LeafName, IsSpine, IsIpu;
  }

  lemma NotReserving(f: Recipe, pair: nat, d: string)
    ensures !Reserving(LeafScript(f, pair), d)
  {
    hide Reserving;
    var leaf1, leaf2 := LeafName(pair, 1), LeafName(pair, 2);
    var s1, s2, u := Do(Switch(leaf1, f.leafPortCount, None)), Do(Switch(leaf2, f.leafPortCount, None)), UplinkScript(f, leaf1, leaf2, f.spines);
    UplinkShape(f, leaf1, leaf2, f.spines);
    TrunkShape(leaf1, leaf2, f.pairTrunk);
    hide UplinkScript, Trunk, LeafName;
    ReservingCreates(u, d);
    ReservingCreates(Trunk(leaf1, leaf2, f.pairTrunk), d);
    UnreservedSwitch(leaf1, f.leafPortCount, d);
    UnreservedSwitch(leaf2, f.leafPortCount, d);
    ReservingThen(s1, s2, d);
    ReservingThen(Then(s1, s2), u, d);
    ReservingThen(Then(Then(s1, s2), u), Trunk(leaf1, leaf2, f.pairTrunk), d);
  }

  lemma UnreservedSwitch(id: string, ports: nat, d: string)
    ensures !Reserving(Do(Switch(id, ports, None)), d)
  {
  }

  lemma AfterShape(f: Recipe, pair: nat, side: nat)
    requires pair > 0 && 1 <= side <= 2
    ensures var s, d := AfterLatch(f, pair, side), LeafName(pair, side);
            d !in Switches(s) && !Latches(s, d) && Demand(s, d) == f.hostsPerPair
  {
    var leaf1, leaf2 := LeafName(pair, 1), LeafName(pair, 2);
    if leaf1 == leaf2 {
      LeafNamesDiffer(pair, 1, pair, 2);
    }
    LeafInitial(pair, 2);
    LeafApart(f, pair, side, pair);
    RackShape(pair, leaf1, leaf2, f.hostsPerPair, f.hostsHaveIPU, f.vmsPerIPU);
    HostsDemand(f, pair, leaf1, leaf2, LeafName(pair, side));
    hide RackScript, LeafName, IsIpu, IsSpine, InRack;
  }

  lemma PairTurn(c: Context, b: Build, f: Recipe, pair: nat, side: nat)
    requires pair > 0 && 1 <= side <= 2
    requires LeafName(pair, 1) !in c.devices && LeafName(pair, 2) !in c.devices
    requires forall i | 1 <= i <= f.spines :: SpineName(i) in c.devices
    requires LeafName(pair, side) !in b.nextPort
    ensures 0 in Drawn(b, PairScript(f, pair), LeafName(pair, side)) <==>
            f.spines * f.spineTrunk + f.pairTrunk == 0 && f.hostsPerPair > FirstRound(f.leafPortCount)
  {
    ReadyLegal(c, f, pair);
    BeforeLegal(c, f, pair, side);
    hide *;
    BeforeShape(f, pair, side);
    AfterShape(f, pair, side);
    PairGroups(b, f, pair, side, LeafName(pair, side));
    PortZero(c, b, BeforeLatch(f, pair, side), AfterLatch(f, pair, side), LeafName(pair, side));
  }

  lemma BeforeLegal(c: Context, f: Recipe, pair: nat, side: nat)
    requires Legal(c, ReadyScript(f, pair)) && 1 <= side <= 2
    ensures Legal(c, BeforeLatch(f, pair, side))
  {
    hide LeafScript, LeafName;
  }

  lemma UplinkSlashless(f: Recipe, leaf1: string, leaf2: string, n: nat)
    requires '/' !in leaf1 && '/' !in leaf2
    ensures Slashless(UplinkScript(f, leaf1, leaf2, n))
  {
    if n > 0 {
      SpineInitial(n);
      UplinkSlashless(f, leaf1, leaf2, n - 1);
      TrunkSlashless(SpineName(n), leaf1, f.spineTrunk);
      TrunkSlashless(SpineName(n), leaf2, f.spineTrunk);
      hide SpineName, Trunk;
    }
  }

  lemma LatchSlashless(d: string)
    ensures Slashless(Do(Latch(d)))
  {
  }

  lemma LeafSlashless(f: Recipe, pair: nat)
    ensures Slashless(ReadyScript(f, pair))
  {
    var leaf1, leaf2 := LeafName(pair, 1), LeafName(pair, 2);
    var s1 := Then(Do(Switch(leaf1, f.leafPortCount, None)), Do(Switch(leaf2, f.leafPortCount, None)));
    LeafInitial(pair, 1);
    LeafInitial(pair, 2);
    UplinkSlashless(f, leaf1, leaf2, f.spines);
    TrunkSlashless(leaf1, leaf2, f.pairTrunk);
    hide UplinkScript, Trunk, LeafName;
    var l1, l2 := Do(Latch(leaf1)), Do(Latch(leaf2));
    assert Slashless(s1);
    LatchSlashless(leaf1);
    LatchSlashless(leaf2);
    hide Slashless;
    SlashlessThen(s1, UplinkScript(f, leaf1, leaf2, f.spines));
    SlashlessThen(Then(s1, UplinkScript(f, leaf1, leaf2, f.spines)), Trunk(leaf1, leaf2, f.pairTrunk));
    SlashlessThen(LeafScript(f, pair), l1);
    SlashlessThen(Then(LeafScript(f, pair), l1), l2);
  }

  lemma PairsSlashless(f: Recipe, n: nat)
    ensures Slashless(PairsScript(f, n))
  {
    if n > 0 {
      var leaf1, leaf2 := LeafName(n, 1), LeafName(n, 2);
      PairsSlashless(f, n - 1);
      LeafSlashless(f, n);
      LeafInitial(n, 1);
      LeafInitial(n, 2);
      RackSlashless(n, leaf1, leaf2, f.hostsPerPair, f.hostsHaveIPU, f.vmsPerIPU);
      PairsParts(f, n);
      PairParts(f, n);
      hide *;
      SlashlessThen(ReadyScript(f, n), RackScript(n, leaf1, leaf2, f.hostsPerPair, f.hostsHaveIPU, f.vmsPerIPU));
      SlashlessThen(PairsScript(f, n - 1), PairScript(f, n));
    }
  }

  lemma AccessSlashless(f: Recipe)
    ensures Slashless(AccessScript(f))
  {
    SpinesSlashless(f.spines, f.spinePortCount, None);
    PairsSlashless(f, f.leafPairs);
    SlashlessThen(SpinesScript(f.spines, f.spinePortCount, None), PairsScript(f, f.leafPairs));
    hide SpinesScript, PairsScript;
  }

  lemma AccessUses(f: Recipe, d: string, k: nat)
    requires '/' !in d
    ensures Uses(AccessTopology(f), PortID(d, k)) == Times(Drawn(START, AccessScript(f), d), k)
  {
    var x, y := SpinesScript(f.spines, f.spinePortCount, None), PairsScript(f, f.leafPairs);
    AccessSlashless(f);
    SpinesShape(f.spines, f.spinePortCount, None);
    PairsHosts(f, f.leafPairs);
    Sequence(x, y);
    hide SpinesScript, PairsScript, IsSpine, InRacks, Drawn, Run, Times, Uses, PortID;
    UsesDrawn(AccessScript(f), d, k);
  }

  /** A leaf's port 0, which does not exist, is used exactly if the pair has no links and more
      hosts than a leaf has ports. */
  lemma LeafPortZero(f: Recipe, pair: nat, side: nat)
    requires 1 <= pair <= f.leafPairs && 1 <= side <= 2
    ensures Uses(AccessTopology(f), PortID(LeafName(pair, side), 0)) > 0 <==>
            f.spines * f.spineTrunk + f.pairTrunk == 0 && f.hostsPerPair > FirstRound(f.leafPortCount)
  {
    hide *;
    var d, spines := LeafName(pair, side), SpinesScript(f.spines, f.spinePortCount, None);
    var b := Run(START, spines);
    AccessParts(f);
    LeafInitial(pair, side);
    LeafApart(f, pair, side, 0);
    SpinesShape(f.spines, f.spinePortCount, None);
    DrawnLength(START, spines, d);
    InTurn(NOTHING, START, spines, PairsScript(f, f.leafPairs), d);
    PairDrawn(b, f, f.leafPairs, pair, side);
    BeforePair(f, pair - 1, pair, side);
    ReservingCreates(spines, d);
    ReservingCreates(PairsScript(f, pair - 1), d);
    NextPortKnown(START, spines, d);
    NextPortKnown(b, PairsScript(f, pair - 1), d);
    SpinesContext(f);
    NoPortsYet(d);
    PairTurn(After(NOTHING, spines), Run(b, PairsScript(f, pair - 1)), f, pair, side);
    AccessUses(f, d, 0);
    TimesSome(Drawn(START, AccessScript(f), d), 0);
  }

  lemma AccessParts(f: Recipe)
    ensures AccessScript(f) == Then(SpinesScript(f.spines, f.spinePortCount, None), PairsScript(f, f.leafPairs))
  {
  }

  lemma SpinesContext(f: Recipe)
    ensures var c := After(NOTHING, SpinesScript(f.spines, f.spinePortCount, None));
            && (forall i | 1 <= i <= f.spines :: SpineName(i) in c.devices)
            && (forall p: nat, side: nat :: LeafName(p, side) !in c.devices)
  {
    SpinesShape(f.spines, f.spinePortCount, None);
    SpinesIn(f.spines);
    forall p: nat, side: nat
      ensures !IsSpine(LeafName(p, side), f.spines)
    {
      NotSpine(p, side, f.spines);
    }
    hide SpinesScript, SpineName, LeafName, IsSpine;
  }
}

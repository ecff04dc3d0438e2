/** The addresses of interfaces: which kinds tell all interfaces of a generated topology apart.

    MAC and IPv4 addresses always do (`AccessAddresses`, `PlainAddresses`).  IPv6 addresses join
    the numbers of rack and leaf, and do so exactly in recipes that stay small enough. */
module Addresses {
  import opened Text
  import opened Schema
  import opened TopologyBuilder
  import opened Scripts
  import opened Racks
  import Names
  import ScriptLoads
  import AccessFabric
  import PlainFabric

  datatype Kind = MacAddress | IPv4Address | IPv6Address

  /** The address of a kind that is made for an interface, and that an interface has. */
  function Address(k: Kind, a: Addr): string {
    match k
    case MacAddress => Mac(a)
    case IPv4Address => IPv4(a)
    case IPv6Address => IPv6(a)
  }

  function AddressOn(k: Kind, n: NicDesc): string {
    match k
    case MacAddress => n.mac
    case IPv4Address => n.ipv4
    case IPv6Address => n.ipv6
  }

  // ---- One address against another

  /** A numeral ends where the first other character stands. */
  lemma {:induction false} NumeralEnds(x: string, u: string, y: string, v: string, c: char)
    requires IsNumeral(x) && IsNumeral(y) && c !in DIGITS && x + [c] + u == y + [c] + v
    ensures x == y && u == v
  {
    var s := x + [c] + u;
    assert s == y + [c] + v;
    assert s[|x|] == c && s[|y|] == c;
    assert forall i | 0 <= i < |x| :: s[i] == x[i] && x[i] in x;
    assert forall i | 0 <= i < |y| :: s[i] == y[i] && y[i] in y;
    assert |x| == |y|;
    assert s[..|x|] == x && s[..|y|] == y;
    assert s[|x| + 1..] == u && s[|y| + 1..] == v;
  }

  /** Three numerals after a prefix, with separators, are known from the text. */
  lemma ThreeFields(p: string, c: char, x: string, y: string, z: string, x': string, y': string, z': string)
    requires c !in DIGITS && IsNumeral(x) && IsNumeral(y) && IsNumeral(x') && IsNumeral(y')
    requires p + x + [c] + y + [c] + z == p + x' + [c] + y' + [c] + z'
    ensures x == x' && y == y' && z == z'
  {
    assert p + x + [c] + y + [c] + z == p + (x + [c] + (y + [c] + z));
    assert p + x' + [c] + y' + [c] + z' == p + (x' + [c] + (y' + [c] + z'));
    Names.SamePrefix(p, x + [c] + (y + [c] + z), x' + [c] + (y' + [c] + z'));
    NumeralEnds(x, y + [c] + z, x', y' + [c] + z', c);
    NumeralEnds(y, z, y', z', c);
  }

  /** MAC and IPv4 addresses tell all interfaces apart, whatever their numbers. */
  lemma MacIPv4Injective(k: Kind, a: Addr, b: Addr)
    requires !k.IPv6Address? && Address(k, a) == Address(k, b)
    ensures a == b
  {
    hide Pad2, Dec;
    if k.MacAddress? {
      ThreeFields("00:ca:fe:", ':', Pad2(a.rack), Pad2(a.leaf), Pad2(a.host), Pad2(b.rack), Pad2(b.leaf), Pad2(b.host));
      Pad2Injective(a.rack, b.rack);
      Pad2Injective(a.leaf, b.leaf);
      Pad2Injective(a.host, b.host);
    } else {
      ThreeFields("10.", '.', Dec(a.rack), Dec(a.leaf), Dec(a.host), Dec(b.rack), Dec(b.leaf), Dec(b.host));
      DecInjective(a.rack, b.rack);
      DecInjective(a.leaf, b.leaf);
      DecInjective(a.host, b.host);
    }
  }

  /** The numerals of rack and leaf, joined. */
  function Joined(a: Addr): string {
    Dec(a.rack) + Dec(a.leaf)
  }

  /** IPv6 addresses are those of one host number, and of rack and leaf numbers that join to
      the same digits. */
  lemma IPv6Same(a: Addr, b: Addr)
    ensures IPv6(a) == IPv6(b) <==> a.host == b.host && Joined(a) == Joined(b)
  {
    hide Dec;
    var p := "::ffff:10.10.";
    assert IPv6(a) == p + (Joined(a) + ['.'] + Dec(a.host));
    assert IPv6(b) == p + (Joined(b) + ['.'] + Dec(b.host));
    if IPv6(a) == IPv6(b) {
      Names.SamePrefix(p, Joined(a) + ['.'] + Dec(a.host), Joined(b) + ['.'] + Dec(b.host));
      NumeralEnds(Joined(a), Dec(a.host), Joined(b), Dec(b.host), '.');
      DecInjective(a.host, b.host);
    }
  }

  // ---- What a script gives out

  /** How many of some interfaces have an address. */
  function NicsWith(ns: seq<NicDesc>, k: Kind, x: string): nat {
    if ns == [] then 0 else NicsWith(ns[..|ns| - 1], k, x) + One(AddressOn(k, ns[|ns| - 1]) == x)
  }

  function HostsWith(hs: seq<HostDesc>, k: Kind, x: string): nat {
    if hs == [] then 0 else HostsWith(hs[..|hs| - 1], k, x) + NicsWith(hs[|hs| - 1].nics, k, x)
  }

  /** No two interfaces of a topology have the same address. */
  ghost predicate Unique(t: Topology, k: Kind) {
    forall x :: HostsWith(t.hosts, k, x) <= 1
  }

  function BuildWith(b: Build, k: Kind, x: string): nat {
    HostsWith(b.topology.hosts, k, x) + NicsWith(b.nics, k, x)
  }

  /** How often a script gives out an address. */
  function Given(s: Script, k: Kind, x: string): nat {
    match s
    case Do(Nic(a, _)) => One(Address(k, a) == x)
    case Do(Vm(_, a, _)) => One(Address(k, a) == x)
    case Then(u, v) => Given(u, k, x) + Given(v, k, x)
    case _ => 0
  }

  lemma NicsWithSnoc(ns: seq<NicDesc>, n: NicDesc, k: Kind, x: string)
    ensures NicsWith(ns + [n], k, x) == NicsWith(ns, k, x) + One(AddressOn(k, n) == x)
  {
    assert (ns + [n])[..|ns|] == ns;
  }

  lemma HostsWithSnoc(hs: seq<HostDesc>, h: HostDesc, k: Kind, x: string)
    ensures HostsWith(hs + [h], k, x) == HostsWith(hs, k, x) + NicsWith(h.nics, k, x)
  {
    assert (hs + [h])[..|hs|] == hs;
  }

  lemma StepGives(b: Build, t: Step, k: Kind, x: string)
    ensures BuildWith(Apply(b, t), k, x) == BuildWith(b, k, x) + Given(Do(t), k, x)
  {
    hide Mac, IPv4, IPv6, Successor;
    match t
    case Nic(a, dev) => NicsWithSnoc(b.nics, MakeNic(b, a, dev), k, x);
    case Vm(h, a, dev) =>
      var nic := MakeNic(b, a, dev);
      HostsWithSnoc(b.topology.hosts, HostDesc(h, [nic]), k, x);
      NicsWithSnoc([], nic, k, x);
      assert [] + [nic] == [nic];
    case Server(h) => HostsWithSnoc(b.topology.hosts, HostDesc(h, b.nics), k, x);
    case _ =>
  }

  lemma {:induction false} ScriptGives(b: Build, s: Script, k: Kind, x: string)
    ensures BuildWith(Run(b, s), k, x) == BuildWith(b, k, x) + Given(s, k, x)
    decreases s
  {
    match s
    case Skip =>
    case Do(t) => StepGives(b, t, k, x);
    case Then(u, v) =>
      ScriptGives(b, u, k, x);
      ScriptGives(Run(b, u), v, k, x);
      hide BuildWith;
  }

  /** A topology has an address as often as its script gives it out. */
  lemma MadeGives(s: Script, k: Kind, x: string)
    requires Pending({}, s) == {}
    ensures HostsWith(ScriptLoads.Made(s).hosts, k, x) == Given(s, k, x)
  {
    ScriptGives(START, s, k, x);
    NicsLeft(START, {}, s);
    hide Run, Pending, Given;
  }

  // ---- The interfaces a script makes

  function Addrs(s: Script): set<Addr> {
    match s
    case Do(Nic(a, _)) => {a}
    case Do(Vm(_, a, _)) => {a}
    case Then(x, y) => Addrs(x) + Addrs(y)
    case _ => {}
  }

  /** No interface is made twice. */
  predicate Single(s: Script) {
    s.Then? ==> Single(s.first) && Single(s.second) && Addrs(s.first) !! Addrs(s.second)
  }

  ghost predicate Apart(k: Kind, addrs: set<Addr>) {
    forall a, b | a in addrs && b in addrs && Address(k, a) == Address(k, b) :: a == b
  }

  lemma GivenTo(s: Script, k: Kind, x: string)
    ensures Given(s, k, x) > 0 <==> exists a :: a in Addrs(s) && Address(k, a) == x
  {
    hide Address;
    match s
    case Then(u, v) =>
      GivenTo(u, k, x);
      GivenTo(v, k, x);
    case _ =>
  }

  ghost predicate GivenOnce(s: Script, k: Kind) {
    forall x :: Given(s, k, x) <= 1
  }

  lemma GivenThen(u: Script, v: Script, k: Kind, x: string)
    ensures Given(Then(u, v), k, x) == Given(u, k, x) + Given(v, k, x)
  {
  }

  lemma OnceThen(u: Script, v: Script, k: Kind)
    ensures GivenOnce(Then(u, v), k) <==>
            GivenOnce(u, k) && GivenOnce(v, k) && forall x :: Given(u, k, x) == 0 || Given(v, k, x) == 0
  {
    if x :| Given(Then(u, v), k, x) > 1 {
      GivenThen(u, v, k, x);
    } else {
      forall x
        ensures Given(u, k, x) + Given(v, k, x) <= 1
      {
        GivenThen(u, v, k, x);
      }
    }
  }

  /** An interface of one set has the address of one of another. */
  ghost predicate Meet(k: Kind, p: set<Addr>, q: set<Addr>) {
    exists a, b :: a in p && b in q && Address(k, a) == Address(k, b)
  }

  lemma ApartUnion(k: Kind, p: set<Addr>, q: set<Addr>)
    requires p !! q
    ensures Apart(k, p + q) <==> Apart(k, p) && Apart(k, q) && !Meet(k, p, q)
  {
    hide Address;
  }

  lemma GivenByBoth(u: Script, v: Script, k: Kind)
    ensures Meet(k, Addrs(u), Addrs(v)) <==> exists x :: Given(u, k, x) > 0 && Given(v, k, x) > 0
  {
    if x :| Given(u, k, x) > 0 && Given(v, k, x) > 0 {
      GivenTo(u, k, x);
      GivenTo(v, k, x);
    }
    if a, b :| a in Addrs(u) && b in Addrs(v) && Address(k, a) == Address(k, b) {
      GivenTo(u, k, Address(k, a));
      GivenTo(v, k, Address(k, b));
    }
  }

  /** A script that makes no interface twice gives out different addresses exactly if they
      tell its interfaces apart. */
  lemma {:induction false} OnceIfApart(s: Script, k: Kind)
    requires Single(s)
    ensures GivenOnce(s, k) <==> Apart(k, Addrs(s))
  {
    match s
    case Then(u, v) =>
      OnceIfApart(u, k);
      OnceIfApart(v, k);
      OnceThen(u, v, k);
      GivenByBoth(u, v, k);
      ApartUnion(k, Addrs(u), Addrs(v));
      hide GivenOnce, Apart, Address;
    case _ =>
  }

  lemma UniqueIff(s: Script, k: Kind)
    requires Pending({}, s) == {} && Single(s)
    ensures Unique(ScriptLoads.Made(s), k) <==> Apart(k, Addrs(s))
  {
    forall x
      ensures HostsWith(ScriptLoads.Made(s).hosts, k, x) == Given(s, k, x)
    {
      MadeGives(s, k, x);
    }
    OnceIfApart(s, k);
    hide *;
    hide HostsWith, Given;
  }

  // ---- The interfaces of a recipe

  /** The leaf numbers in addresses: 1 and 2 for the leaves a host is attached to; with an IPU
      1 for the bare metal host, and 11, 12, ... for its VMs. */
  predicate OnLeaf(leaf: nat, two: bool, ipus: bool, vms: nat) {
    leaf == 1 || if ipus then 11 <= leaf <= 10 + vms else two && leaf == 2
  }

  lemma AddrsPending(s: Script)
    requires HostNames(s) == {}
    ensures forall p :: p <= Pending(p, s) && (Addrs(s) != {} ==> Pending(p, s) != {})
  {
    if s.Then? {
      AddrsPending(s.first);
      AddrsPending(s.second);
    }
  }

  lemma NoAddrs(s: Script)
    requires Addrs(s) == {}
    ensures Single(s)
  {
  }

  lemma VmAddrs(rack: nat, host: nat, ipu: string, vms: nat)
    ensures var s := VmScript(rack, host, ipu, vms);
            Single(s) && forall a :: a in Addrs(s) <==> a.rack == rack && a.host == host && 11 <= a.leaf <= 10 + vms
  {
    hide VmName;
    if vms > 0 {
      VmAddrs(rack, host, ipu, vms - 1);
    }
  }

  lemma AddrsThen(x: Script, y: Script)
    ensures Addrs(Then(x, y)) == Addrs(x) + Addrs(y)
    ensures Single(Then(x, y)) <==> Single(x) && Single(y) && Addrs(x) !! Addrs(y)
  {
  }

  lemma IpuAddrs(rack: nat, host: nat, leaf1: string, leaf2: string, vms: nat)
    ensures var s := IpuScript(rack, host, leaf1, leaf2, vms);
            && Single(s)
            && forall a :: a in Addrs(s) <==> a.rack == rack && a.host == host && (a.leaf == 1 || 11 <= a.leaf <= 10 + vms)
  {
    var ipu, up := IpuName(rack, host), if |leaf2| > 0 then leaf2 else leaf1;
    var s1, nic := Do(Switch(ipu, 2 + 1 + vms, None)), Do(Nic(Addr(rack, host, 1), ipu));
    var s3 := Then(Then(s1, Trunk(leaf1, ipu, 1)), Trunk(up, ipu, 1));
    UplinksShape(ipu, leaf1, up, 2 + 1 + vms);
    AddrsPending(s3);
    assert Pending({}, s3) == {};
    NoAddrs(s3);
    VmAddrs(rack, host, ipu, vms);
    AddrsThen(s3, nic);
    AddrsThen(Then(s3, nic), VmScript(rack, host, ipu, vms));
    hide IpuName, Trunk, VmScript;
  }

  lemma NicAddrs(rack: nat, host: nat, leaf1: string, leaf2: string)
    ensures var s := NicScript(rack, host, leaf1, leaf2);
            Single(s) && forall a :: a in Addrs(s) <==>
              a.rack == rack && a.host == host && (a.leaf == 1 || (|leaf2| > 0 && a.leaf == 2))
  {
  }

  lemma HostAddrs(rack: nat, host: nat, leaf1: string, leaf2: string, ipus: bool, vms: nat)
    ensures var s := HostScript(rack, host, leaf1, leaf2, ipus, vms);
            Single(s) && forall a :: a in Addrs(s) <==>
              a.rack == rack && a.host == host && OnLeaf(a.leaf, |leaf2| > 0, ipus, vms)
  {
    IpuAddrs(rack, host, leaf1, leaf2, vms);
    NicAddrs(rack, host, leaf1, leaf2);
    AddrsThen(if ipus then IpuScript(rack, host, leaf1, leaf2, vms) else NicScript(rack, host, leaf1, leaf2),
              Do(Server(HostName(rack, host))));
    hide IpuScript, NicScript, HostName;
  }

  lemma RackAddrs(rack: nat, leaf1: string, leaf2: string, count: nat, ipus: bool, vms: nat)
    ensures var s := RackScript(rack, leaf1, leaf2, count, ipus, vms);
            Single(s) && forall a :: a in Addrs(s) <==>
              a.rack == rack && 1 <= a.host <= count && OnLeaf(a.leaf, |leaf2| > 0, ipus, vms)
  {
    hide HostScript, OnLeaf;
    if count > 0 {
      RackAddrs(rack, leaf1, leaf2, count - 1, ipus, vms);
      HostAddrs(rack, count, leaf1, leaf2, ipus, vms);
    }
  }

  /** The script makes each interface of so many racks and hosts a rack once. */
  ghost predicate Attaches(s: Script, racks: nat, hosts: nat, two: bool, ipus: bool, vms: nat) {
    && Single(s)
    && forall a :: a in Addrs(s) <==> 1 <= a.rack <= racks && 1 <= a.host <= hosts && OnLeaf(a.leaf, two, ipus, vms)
  }

  /** Racks one after another. */
  lemma NextRack(x: Script, y: Script, n: nat, leaf1: string, leaf2: string, hosts: nat, ipus: bool, vms: nat)
    requires n > 0 && Attaches(x, n - 1, hosts, |leaf2| > 0, ipus, vms)
    requires HostNames(y) == {} && Pending({}, y) == {}
    ensures Attaches(Then(x, Then(y, RackScript(n, leaf1, leaf2, hosts, ipus, vms))), n, hosts, |leaf2| > 0, ipus, vms)
  {
    var r := RackScript(n, leaf1, leaf2, hosts, ipus, vms);
    RackAddrs(n, leaf1, leaf2, hosts, ipus, vms);
    AddrsPending(y);
    NoAddrs(y);
    AddrsThen(y, r);
    AddrsThen(x, Then(y, r));
    hide OnLeaf, RackScript;
  }

  lemma PairsAttach(f: AccessFabric.Recipe, n: nat)
    ensures Attaches(AccessFabric.PairsScript(f, n), n, f.hostsPerPair, true, f.hostsHaveIPU, f.vmsPerIPU)
  {
    if n > 0 {
      var leaf1, leaf2 := AccessFabric.LeafName(n, 1), AccessFabric.LeafName(n, 2);
      PairsAttach(f, n - 1);
      AccessFabric.ReadyShape(f, n);
      AccessFabric.LeafInitial(n, 2);
      AccessFabric.PairsParts(f, n);
      AccessFabric.PairParts(f, n);
      hide *;
      NextRack(AccessFabric.PairsScript(f, n - 1), AccessFabric.ReadyScript(f, n), n, leaf1, leaf2,
               f.hostsPerPair, f.hostsHaveIPU, f.vmsPerIPU);
    }
  }

  lemma LeavesAttach(f: PlainFabric.Recipe, n: nat)
    ensures Attaches(PlainFabric.LeavesScript(f, n), n, f.hostsPerLeaf, false, f.hostsHaveIPU, f.vmsPerIPU)
  {
    if n > 0 {
      LeavesAttach(f, n - 1);
      PlainFabric.ReadyShape(f, n);
      PlainFabric.LeavesParts(f, n);
      PlainFabric.LeafParts(f, n);
      hide *;
      NextRack(PlainFabric.LeavesScript(f, n - 1), PlainFabric.ReadyScript(f, n), n, PlainFabric.LeafName(n), "",
               f.hostsPerLeaf, f.hostsHaveIPU, f.vmsPerIPU);
    }
  }

  // ---- When IPv6 addresses coincide

  /** Leaf numbers of one digit are told from rack numbers. */
  lemma OneDigitLeaf(a: Addr, b: Addr)
    requires a.rack > 0 && b.rack > 0 && a.leaf < 10 && b.leaf < 10 && Joined(a) == Joined(b)
    ensures a.rack == b.rack && a.leaf == b.leaf
  {
    hide Dec;
    AccessFabric.AppendDigit(a.rack, a.leaf);
    AccessFabric.AppendDigit(b.rack, b.leaf);
    DecInjective(10 * a.rack + a.leaf, 10 * b.rack + b.leaf);
  }

  /** So are leaf numbers from rack numbers up to 10. */
  lemma TenRacks(a: Addr, b: Addr)
    requires 1 <= a.rack < b.rack <= 10 && a.leaf > 0
    ensures Joined(a) != Joined(b)
  {
    Names.DecLeads(a.leaf);
    assert Dec(10) == "10" && |Dec(a.rack)| == 1;
    assert Joined(a)[0] == DIGITS[a.rack] && Joined(a)[1] == Dec(a.leaf)[0];
    if b.rack == 10 {
      assert Joined(b)[1] == '0';
    } else {
      assert Joined(b)[0] == DIGITS[b.rack];
    }
  }

  lemma SameRack(a: Addr, b: Addr)
    requires a.rack == b.rack && Joined(a) == Joined(b)
    ensures a.leaf == b.leaf
  {
    Names.SamePrefix(Dec(a.rack), Dec(a.leaf), Dec(b.leaf));
    DecInjective(a.leaf, b.leaf);
  }

  /** Recipes with VMs on so many racks that a rack's number runs into a leaf's. */
  predicate IPv6Clash(racks: nat, hosts: nat, ipus: bool, vms: nat) {
    ipus && racks >= 11 && hosts >= 1 && vms >= 1
  }

  lemma JoinedApart(a: Addr, b: Addr, racks: nat, two: bool, ipus: bool, vms: nat)
    requires 1 <= a.rack <= b.rack <= racks && OnLeaf(a.leaf, two, ipus, vms) && OnLeaf(b.leaf, two, ipus, vms)
    requires Joined(a) == Joined(b) && !(ipus && racks >= 11 && vms >= 1)
    ensures a.rack == b.rack && a.leaf == b.leaf
  {
    hide Joined;
    if a.rack == b.rack {
      SameRack(a, b);
    } else if racks <= 10 {
      TenRacks(a, b);
    } else {
      OneDigitLeaf(a, b);
    }
  }

  /** Rack 1 with its first VM, and rack 11 with its bare metal host. */
  lemma EleventhRack()
    ensures Joined(Addr(1, 1, 11)) == Joined(Addr(11, 1, 1))
  {
    assert Dec(1) == "1" && Dec(11) == "11";
  }

  lemma IPv6Apart(s: Script, racks: nat, hosts: nat, two: bool, ipus: bool, vms: nat)
    requires Attaches(s, racks, hosts, two, ipus, vms)
    ensures Apart(IPv6Address, Addrs(s)) <==> !IPv6Clash(racks, hosts, ipus, vms)
  {
    var addrs := Addrs(s);
    hide IPv6, Joined, Addrs;
    if IPv6Clash(racks, hosts, ipus, vms) {
      var a, b := Addr(1, 1, 11), Addr(11, 1, 1);
      EleventhRack();
      IPv6Same(a, b);
      assert a in addrs && b in addrs && Address(IPv6Address, a) == Address(IPv6Address, b);
    } else {
      forall a, b | a in addrs && b in addrs && Address(IPv6Address, a) == Address(IPv6Address, b)
        ensures a == b
      {
        IPv6Same(a, b);
        if a.rack <= b.rack {
          JoinedApart(a, b, racks, two, ipus, vms);
        } else {
          JoinedApart(b, a, racks, two, ipus, vms);
        }
      }
    }
  }

  /** What the addresses of a topology that attaches hosts in racks tell apart. */
  lemma MadeApart(s: Script, racks: nat, hosts: nat, two: bool, ipus: bool, vms: nat)
    requires Pending({}, s) == {} && Attaches(s, racks, hosts, two, ipus, vms)
    ensures Unique(ScriptLoads.Made(s), MacAddress) && Unique(ScriptLoads.Made(s), IPv4Address)
    ensures Unique(ScriptLoads.Made(s), IPv6Address) <==> !IPv6Clash(racks, hosts, ipus, vms)
  {
    forall k
      ensures Unique(ScriptLoads.Made(s), k) <==> Apart(k, Addrs(s))
      ensures !k.IPv6Address? ==> Apart(k, Addrs(s))
    {
      UniqueIff(s, k);
      forall a, b | a in Addrs(s) && b in Addrs(s) && !k.IPv6Address? && Address(k, a) == Address(k, b)
        ensures a == b
      {
        MacIPv4Injective(k, a, b);
      }
    }
    IPv6Apart(s, racks, hosts, two, ipus, vms);
    hide *;
  }

  lemma AfterSpines(x: Script, y: Script, racks: nat, hosts: nat, two: bool, ipus: bool, vms: nat)
    requires HostNames(x) == {} && Pending({}, x) == {} && Attaches(y, racks, hosts, two, ipus, vms)
    ensures Attaches(Then(x, y), racks, hosts, two, ipus, vms)
  {
    AddrsPending(x);
    NoAddrs(x);
    AddrsThen(x, y);
    hide OnLeaf;
  }

  /** In the topology of an access fabric MAC and IPv4 addresses are all different, and IPv6
      addresses exactly unless there are VMs on more than ten pairs of leaves. */
  lemma AccessAddresses(f: AccessFabric.Recipe)
    ensures var t := AccessFabric.AccessTopology(f);
            && Unique(t, MacAddress) && Unique(t, IPv4Address)
            && (Unique(t, IPv6Address) <==> !IPv6Clash(f.leafPairs, f.hostsPerPair, f.hostsHaveIPU, f.vmsPerIPU))
  {
    AccessFabric.AccessMade(f);
    AccessFabric.AccessParts(f);
    SpinesShape(f.spines, f.spinePortCount, None);
    PairsAttach(f, f.leafPairs);
    AccessFabric.PairsHosts(f, f.leafPairs);
    hide *;
    var x, y := SpinesScript(f.spines, f.spinePortCount, None), AccessFabric.PairsScript(f, f.leafPairs);
    Sequence(x, y);
    AfterSpines(x, y, f.leafPairs, f.hostsPerPair, true, f.hostsHaveIPU, f.vmsPerIPU);
    MadeApart(AccessFabric.AccessScript(f), f.leafPairs, f.hostsPerPair, true, f.hostsHaveIPU, f.vmsPerIPU);
  }

  /** The same for plain fabrics. */
  lemma PlainAddresses(f: PlainFabric.Recipe)
    ensures var t := PlainFabric.PlainTopology(f);
            && Unique(t, MacAddress) && Unique(t, IPv4Address)
            && (Unique(t, IPv6Address) <==> !IPv6Clash(f.leaves, f.hostsPerLeaf, f.hostsHaveIPU, f.vmsPerIPU))
  {
    PlainFabric.PlainParts(f);
    SpinesShape(f.spines, f.spinePortCount, Some(f.reservedUplinks));
    LeavesAttach(f, f.leaves);
    PlainFabric.LeavesHosts(f, f.leaves);
    hide *;
    var x, y := SpinesScript(f.spines, f.spinePortCount, Some(f.reservedUplinks)), PlainFabric.LeavesScript(f, f.leaves);
    Sequence(x, y);
    AfterSpines(x, y, f.leaves, f.hostsPerLeaf, false, f.hostsHaveIPU, f.vmsPerIPU);
    MadeApart(PlainFabric.PlainScript(f), f.leaves, f.hostsPerLeaf, false, f.hostsHaveIPU, f.vmsPerIPU);
  }
}

/** The topology builder: agent ports, the wrapping per-device port allocator, and the
    steps every recipe is put together from.

    A recipe's work is described by a script of steps.  `Run` gives a script its
    meaning; the methods on the builder object carry the steps out in place. */
module TopologyBuilder {
  import opened Text
  import opened Schema

  const AGENT_PORT_OFFSET := 20000

  /** Which interface an address is made for. */
  datatype Addr = Addr(rack: nat, host: nat, leaf: nat)

  datatype Step =
    | Switch(id: string, portCount: nat, reserved: Option<nat>)
    | Cable(src: string, tgt: string)
    | Latch(id: string)
    | Nic(addr: Addr, dev: string)                       // an interface of the host being put together
    | Vm(host: string, addr: Addr, dev: string)          // a host with a single interface
    | Server(host: string)                               // completes the host being put together

  datatype Script = Skip | Do(step: Step) | Then(first: Script, second: Script)

  /** Builder and topology, and the interfaces of the host being put together. */
  datatype Build = Build(
    agentPort: nat,
    nextPort: map<string, nat>,
    minPort: map<string, nat>,
    maxPort: map<string, nat>,
    topology: Topology,
    nics: seq<NicDesc>)

  const START := Build(0, map[], map[], map[], Topology([], [], []), [])

  /** A number read from a map; absent entries read as zero. */
  function At(m: map<string, nat>, d: string): nat {
    if d in m then m[d] else 0
  }

  /** The number of the port that the next allocation on a device takes. */
  function Upcoming(nextPort: map<string, nat>, d: string): nat {
    if d in nextPort then nextPort[d] else 1
  }

  /** The port to follow `n`: the one above, or the minimum past the maximum. */
  function Successor(n: nat, min: nat, max: nat): nat {
    if n + 1 > max then min else n + 1
  }

  function Advance(b: Build, d: string): Build {
    b.(nextPort := b.nextPort[d := Successor(Upcoming(b.nextPort, d), At(b.minPort, d), At(b.maxPort, d))])
  }

  function Ports(portCount: nat): seq<PortDesc> {
    seq(portCount, i requires 0 <= i => PortDesc(i + 1, i + 201))
  }

  function MakeNic(b: Build, a: Addr, dev: string): NicDesc {
    NicDesc(Mac(a), IPv4(a), IPv6(a), PortID(dev, Upcoming(b.nextPort, dev)))
  }

  function Apply(b: Build, s: Step): Build {
    match s
    case Switch(id, n, reserved) =>
      b.(agentPort := b.agentPort + 1,
         nextPort := if reserved.Some? then b.nextPort[id := reserved.value + 1] else b.nextPort,
         minPort := b.minPort[id := 1],
         maxPort := b.maxPort[id := n],
         topology := b.topology.(devices :=
           b.topology.devices + [DeviceDesc(id, b.agentPort + AGENT_PORT_OFFSET, Ports(n))]))
    case Cable(src, tgt) =>
      var b1 := Advance(b, src);
      var link := LinkDesc(PortID(src, Upcoming(b.nextPort, src)), PortID(tgt, Upcoming(b1.nextPort, tgt)), false);
      Advance(b1, tgt).(topology := b.topology.(links := b.topology.links + [link]))
    case Latch(id) => b.(minPort := b.minPort[id := At(b.nextPort, id)])
    case Nic(a, dev) => Advance(b, dev).(nics := b.nics + [MakeNic(b, a, dev)])
    case Vm(host, a, dev) =>
      Advance(b, dev).(topology := b.topology.(hosts := b.topology.hosts + [HostDesc(host, [MakeNic(b, a, dev)])]))
    case Server(host) =>
      b.(topology := b.topology.(hosts := b.topology.hosts + [HostDesc(host, b.nics)]), nics := [])
  }

  function Run(b: Build, s: Script): Build
    decreases s
  {
    match s
    case Skip => b
    case Do(step) => Apply(b, step)
    case Then(x, y) => Run(Run(b, x), y)
  }

  // ---- Addresses

  /** `00:ca:fe:%02d:%02d:%02d` */
  function Mac(a: Addr): string {
    "00:ca:fe:" + Pad2(a.rack) + ":" + Pad2(a.leaf) + ":" + Pad2(a.host)
  }

  /** `10.%d.%d.%d` */
  function IPv4(a: Addr): string {
    "10." + Dec(a.rack) + "." + Dec(a.leaf) + "." + Dec(a.host)
  }

  /** `::ffff:10.10.%d%d.%d` */
  function IPv6(a: Addr): string {
    "::ffff:10.10." + Dec(a.rack) + Dec(a.leaf) + "." + Dec(a.host)
  }

  // ---- The builder object

  class TopologyFile {
    var devices: seq<DeviceDesc>
    var links: seq<LinkDesc>
    var hosts: seq<HostDesc>

    constructor ()
      ensures Value() == Topology([], [], [])
    {
      devices, links, hosts := [], [], [];
    }

    function Value(): Topology
      reads this
    {
      Topology(devices, links, hosts)
    }
  }

  class Builder {
    var agentPort: nat
    var nextPort: map<string, nat>
    var minPort: map<string, nat>
    var maxPort: map<string, nat>

    constructor ()
      ensures agentPort == 0 && nextPort == map[] && minPort == map[] && maxPort == map[]
    {
      agentPort, nextPort, minPort, maxPort := 0, map[], map[], map[];
    }

    function With(t: TopologyFile, nics: seq<NicDesc>): Build
      reads this, t
    {
      Build(agentPort, nextPort, minPort, maxPort, t.Value(), nics)
    }

    method NextAgentPort() returns (p: nat)
      modifies `agentPort
      ensures p == old(agentPort) + AGENT_PORT_OFFSET && agentPort == old(agentPort) + 1
    {
      p := agentPort + AGENT_PORT_OFFSET;
      agentPort := agentPort + 1;
    }

    method NextDevicePortID(dev: string) returns (id: string)
      modifies `nextPort
      ensures id == PortID(dev, Upcoming(old(nextPort), dev))
      ensures nextPort ==
              old(nextPort)[dev := Successor(Upcoming(old(nextPort), dev), At(minPort, dev), At(maxPort, dev))]
    {
      var portNumber := if dev in nextPort then nextPort[dev] else 1;
      id := PortID(dev, portNumber);
      nextPort := nextPort[dev := portNumber + 1];
      if nextPort[dev] > At(maxPort, dev) {
        nextPort := nextPort[dev := At(minPort, dev)];
      }
    }

    method CreateSwitch(id: string, portCount: nat, t: TopologyFile)
      modifies this, t
      ensures forall nics :: With(t, nics) == Apply(old(With(t, nics)), Switch(id, portCount, None))
    {
      var agent := NextAgentPort();
      var ports := CreatePorts(portCount);
      minPort := minPort[id := 1];
      maxPort := maxPort[id := portCount];
      t.devices := t.devices + [DeviceDesc(id, agent, ports)];
    }

    /** Has the first ports of a switch to be left out of allocation at first. */
    method CreateReservedSwitch(id: string, portCount: nat, reserved: nat, t: TopologyFile)
      modifies this, t
      ensures forall nics :: With(t, nics) == Apply(old(With(t, nics)), Switch(id, portCount, Some(reserved)))
    {
      nextPort := nextPort[id := reserved + 1];
      CreateSwitch(id, portCount, t);
    }

    /** Wraps the device round to the port that comes next from now on. */
    method LatchMinPort(dev: string, t: TopologyFile)
      modifies `minPort
      ensures forall nics :: With(t, nics) == Apply(old(With(t, nics)), Latch(dev))
    {
      minPort := minPort[dev := At(nextPort, dev)];
    }

    method CreateLinkTrunk(src: string, tgt: string, count: nat, t: TopologyFile)
      modifies this, t
      ensures forall nics :: With(t, nics) == Run(old(With(t, nics)), Trunk(src, tgt, count))
    {
      for i := 0 to count
        invariant forall nics :: With(t, nics) == Run(old(With(t, nics)), Trunk(src, tgt, i))
      {
        ghost var b := With(t, []);
        var p := NextDevicePortID(src);
        var q := NextDevicePortID(tgt);
        t.links := t.links + [LinkDesc(p, q, false)];
        assert With(t, []) == Apply(b, Cable(src, tgt));
      }
    }

    /** Makes one interface of the host being put together. */
    method CreateNic(a: Addr, dev: string, t: TopologyFile, nics: seq<NicDesc>) returns (nic: NicDesc)
      modifies this
      ensures With(t, nics + [nic]) == Apply(old(With(t, nics)), Nic(a, dev))
    {
      var port := NextDevicePortID(dev);
      nic := NicDesc(Mac(a), IPv4(a), IPv6(a), port);
    }

    method CreateVM(host: string, a: Addr, dev: string, t: TopologyFile, ghost nics: seq<NicDesc>)
      modifies this, t
      ensures With(t, nics) == Apply(old(With(t, nics)), Vm(host, a, dev))
    {
      var port := NextDevicePortID(dev);
      t.hosts := t.hosts + [HostDesc(host, [NicDesc(Mac(a), IPv4(a), IPv6(a), port)])];
    }

    method CreateServerIPUAndVMs(rack: nat, host: nat, leaf1: string, leaf2: string, vms: nat, t: TopologyFile)
      returns (nics: seq<NicDesc>)
      modifies this, t
      ensures With(t, nics) == Run(old(With(t, [])), IpuScript(rack, host, leaf1, leaf2, vms))
    {
      hide Apply;
      var ipu := IpuName(rack, host);
      ghost var b := With(t, []);
      ghost var s1 := Do(Switch(ipu, 2 + 1 + vms, None));
      ghost var s2 := Then(s1, Trunk(leaf1, ipu, 1));
      ghost var s3 := Then(s2, Trunk(if |leaf2| > 0 then leaf2 else leaf1, ipu, 1));
      ghost var s4 := Then(s3, Do(Nic(Addr(rack, host, 1), ipu)));
      CreateSwitch(ipu, 2 + 1 + vms, t);
      assert With(t, []) == Run(b, s1);
      CreateLinkTrunk(leaf1, ipu, 1, t);
      assert With(t, []) == Run(b, s2);
      if |leaf2| > 0 {
        CreateLinkTrunk(leaf2, ipu, 1, t);
      } else {
        CreateLinkTrunk(leaf1, ipu, 1, t);
      }
      assert With(t, []) == Run(b, s3);
      var nic := CreateNic(Addr(rack, host, 1), ipu, t, []);
      nics := [nic];
      assert [] + [nic] == [nic] && With(t, nics) == Run(b, s4);
      for i := 1 to vms + 1
        invariant With(t, nics) == Run(Run(b, s4), VmScript(rack, host, ipu, i - 1))
      {
        CreateVM(VmName(rack, host, i), Addr(rack, host, 10 + i), ipu, t, nics);
      }
    }

    method CreateRackHost(rack: nat, host: nat, leaf1: string, leaf2: string, ipus: bool, vms: nat, t: TopologyFile)
      modifies this, t
      ensures With(t, []) == Run(old(With(t, [])), HostScript(rack, host, leaf1, leaf2, ipus, vms))
    {
      var nics := [];
      if ipus {
        nics := CreateServerIPUAndVMs(rack, host, leaf1, leaf2, vms, t);
      } else {
        hide Apply;
        var nic1 := CreateNic(Addr(rack, host, 1), leaf1, t, []);
        nics := [nic1];
        assert [] + [nic1] == [nic1];
        if |leaf2| > 0 {
          var nic2 := CreateNic(Addr(rack, host, 2), leaf2, t, nics);
          nics := nics + [nic2];
        }
      }
      assert With(t, nics) ==
          Run(old(With(t, [])), if ipus then IpuScript(rack, host, leaf1, leaf2, vms) else NicScript(rack, host, leaf1, leaf2));
      hide IpuScript, NicScript;
      t.hosts := t.hosts + [HostDesc(HostName(rack, host), nics)];
    }

    method CreateRackHosts(rack: nat, leaf1: string, leaf2: string, count: nat, ipus: bool, vms: nat, t: TopologyFile)
      modifies this, t
      ensures With(t, []) == Run(old(With(t, [])), RackScript(rack, leaf1, leaf2, count, ipus, vms))
    {
      for i := 1 to count + 1
        invariant With(t, []) == Run(old(With(t, [])), RackScript(rack, leaf1, leaf2, i - 1, ipus, vms))
      {
        CreateRackHost(rack, i, leaf1, leaf2, ipus, vms, t);
      }
    }
  }

  method CreatePorts(portCount: nat) returns (ports: seq<PortDesc>)
    ensures ports == Ports(portCount)
  {
    ports := [];
    for i := 1 to portCount + 1
      invariant ports == Ports(i - 1)
    {
      ports := ports + [PortDesc(i, i + 200)];
    }
  }

  // ---- Scripts shared by the recipes

  /** A trunk of `count` links between two devices. */
  function Trunk(src: string, tgt: string, count: nat): Script {
    if count == 0 then Skip else Then(Trunk(src, tgt, count - 1), Do(Cable(src, tgt)))
  }

  function IpuName(rack: nat, host: nat): string {
    "ipu" + Pad2(rack) + Pad2(host)
  }

  function HostName(rack: nat, host: nat): string {
    "host" + Pad2(rack) + Pad2(host)
  }

  function VmName(rack: nat, host: nat, vm: nat): string {
    "vm" + Pad2(rack) + Pad2(host) + Pad2(vm)
  }

  function VmScript(rack: nat, host: nat, ipu: string, vms: nat): Script {
    if vms == 0 then Skip
    else Then(VmScript(rack, host, ipu, vms - 1), Do(Vm(VmName(rack, host, vms), Addr(rack, host, 10 + vms), ipu)))
  }

  /** An IPU with two uplinks, to both leaves or twice to the only one, an interface for
      the bare metal host, and its VMs. */
  function IpuScript(rack: nat, host: nat, leaf1: string, leaf2: string, vms: nat): Script {
    var ipu := IpuName(rack, host);
    Then(Then(Then(Then(
      Do(Switch(ipu, 2 + 1 + vms, None)),
      Trunk(leaf1, ipu, 1)),
      Trunk(if |leaf2| > 0 then leaf2 else leaf1, ipu, 1)),
      Do(Nic(Addr(rack, host, 1), ipu))),
      VmScript(rack, host, ipu, vms))
  }

  function NicScript(rack: nat, host: nat, leaf1: string, leaf2: string): Script {
    var nic1 := Do(Nic(Addr(rack, host, 1), leaf1));
    if |leaf2| > 0 then Then(nic1, Do(Nic(Addr(rack, host, 2), leaf2))) else nic1
  }

  function HostScript(rack: nat, host: nat, leaf1: string, leaf2: string, ipus: bool, vms: nat): Script {
    Then(if ipus then IpuScript(rack, host, leaf1, leaf2, vms) else NicScript(rack, host, leaf1, leaf2),
         Do(Server(HostName(rack, host))))
  }

  function RackScript(rack: nat, leaf1: string, leaf2: string, count: nat, ipus: bool, vms: nat): Script {
    if count == 0 then Skip
    else Then(RackScript(rack, leaf1, leaf2, count - 1, ipus, vms), HostScript(rack, count, leaf1, leaf2, ipus, vms))
  }
}

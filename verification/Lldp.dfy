/** LLDP packets between simulated devices: a packet sent out of a port comes in on the far
    end of the link that starts there, if there is one.

    `DiscoveryExact` says that sending LLDP out of every port of every device shows a
    controller exactly the links that work. */
module Lldp {
  import opened Common
  import opened Text
  import opened Inventory
  import opened Simulation

  const LLDP: nat := 0x88cc

  /** A packet handed to the controller: the device, and the SDN number of the port it came in on. */
  datatype PacketIn = PacketIn(device: string, ingressPort: nat, roleAgent: nat)

  /** What becomes of a packet sent out; without a pipeline it is refused. */
  datatype Delivery = Refused | Dropped | ToPeer(port: string) | Delivered(packet: PacketIn)

  // ---- Snapshots

  datatype PortInfo = PortInfo(id: string, number: nat, enabled: bool)
  datatype DeviceInfo = DeviceInfo(ports: map<string, PortInfo>, sdnPorts: map<nat, PortInfo>, punt: map<nat, nat>, codecSet: bool)
  datatype Net = Net(inventory: Sim, devices: map<string, DeviceInfo>)

  function PortValue(p: PortState): PortInfo
    reads p
  {
    PortInfo(p.id, p.internalNumber, p.enabled)
  }

  ghost function PortsOf(d: DeviceSimulator): set<PortState> {
    d.ports.Values + d.sdnPorts.Values
  }

  ghost function DeviceValue(d: DeviceSimulator): DeviceInfo
    reads d, PortsOf(d)
  {
    DeviceInfo(map p | p in d.ports :: PortValue(d.ports[p]), map n | n in d.sdnPorts :: PortValue(d.sdnPorts[n]),
               d.puntToCPU, d.codecSet)
  }

  ghost function AllPorts(sim: Simulation): set<PortState>
    reads sim
  {
    set d, p | d in sim.devices && p in PortsOf(sim.devices[d]) :: p
  }

  ghost function Snapshot(sim: Simulation): Net
    reads sim, sim.devices.Values, AllPorts(sim)
  {
    assert forall d | d in sim.devices :: PortsOf(sim.devices[d]) <= AllPorts(sim);
    Net(sim.State(), map d | d in sim.devices :: DeviceValue(sim.devices[d]))
  }

  // ---- Delivery

  /** The far end's device hands the packet in if the port is up, it punts LLDP and its
      pipeline is set. */
  predicate Hears(d: DeviceInfo, port: string) {
    port in d.ports && d.ports[port].enabled && LLDP in d.punt && d.codecSet
  }

  function Emitted(net: Net, port: string): Delivery {
    match DeviceOf(port)
    case None => Dropped
    case Some(d) =>
      if d in net.devices && Hears(net.devices[d], port)
      then Delivered(PacketIn(d, net.devices[d].ports[port].number, net.devices[d].punt[LLDP]))
      else Dropped
  }

  function Processed(net: Net, d: DeviceInfo, egress: nat): Delivery {
    if egress !in d.sdnPorts || !d.sdnPorts[egress].enabled then Dropped
    else
      match LinkFromPort(net.inventory, d.sdnPorts[egress].id)
      case None => Dropped
      case Some(l) => if External(l) then ToPeer(l.tgt) else Emitted(net, l.tgt)
  }

  /** The packet is looked at only if the sending device has a pipeline. */
  function SentOut(net: Net, d: DeviceInfo, egress: nat): Delivery {
    if !d.codecSet then Refused else Processed(net, d, egress)
  }

  /** A port ID that names a device must name a port of it: otherwise the simulator crashes. */
  method EmitLLDPPacket(sim: Simulation, port: string) returns (d: Delivery)
    requires DeviceOf(port).Some? ==> ValidatePort(sim.State(), port) == Done
    ensures d == Emitted(Snapshot(sim), port)
  {
    var target := DeviceOf(port);
    if target == None {
      return Dropped;
    }
    var dev := sim.devices[target.value];
    var ingressPort := dev.ports[port];
    d := Dropped;
    if ingressPort.enabled {
      if LLDP in dev.puntToCPU {
        if dev.codecSet {
          d := Delivered(PacketIn(target.value, ingressPort.internalNumber, dev.puntToCPU[LLDP]));
        }
      }
    }
  }

  method ProcessLLDPPacket(sim: Simulation, dev: DeviceSimulator, egress: nat) returns (d: Delivery)
    requires Tidy(sim.State()) && TargetsRegistered(sim.State())
    ensures d == Processed(Snapshot(sim), DeviceValue(dev), egress)
  {
    if egress !in dev.sdnPorts {
      return Dropped;
    }
    var egressPort := dev.sdnPorts[egress];
    if !egressPort.enabled {
      return Dropped;
    }
    var link := sim.GetLinkFromPort(egressPort.id);
    match link
    case None => d := Dropped;
    case Some(l) =>
      LookupIsSearch(sim.State(), egressPort.id, l);
      if External(l) {
        d := ToPeer(l.tgt);
      } else {
        d := EmitLLDPPacket(sim, l.tgt);
      }
  }

  method ProcessPacketOut(sim: Simulation, dev: DeviceSimulator, egress: nat) returns (d: Delivery)
    requires Tidy(sim.State()) && TargetsRegistered(sim.State())
    ensures d == SentOut(Snapshot(sim), DeviceValue(dev), egress)
  {
    if !dev.codecSet {
      return Refused;
    }
    d := ProcessLLDPPacket(sim, dev, egress);
  }

  /** What becomes of a packet, in every case: it is refused without a pipeline; it goes to a
      peer over an external link from an enabled port; over an internal one it is handed in where
      the port that the link leads to is up and its device punts LLDP and has a pipeline, with the
      number of that port and the role agent punted to; otherwise it is dropped. */
  lemma Deliveries(net: Net, d: DeviceInfo, n: nat)
    requires Tidy(net.inventory)
    ensures var r := SentOut(net, d, n);
            var sends := d.codecSet && n in d.sdnPorts && d.sdnPorts[n].enabled;
            && (r == Refused <==> !d.codecSet)
            && (forall x :: r == ToPeer(x) <==>
                  sends && exists k :: k in net.inventory.links && net.inventory.links[k].src == d.sdnPorts[n].id &&
                                       net.inventory.links[k].tgt == x && HasDelimiter(x))
            && (r.Delivered? ==> sends && exists k ::
                  k in net.inventory.links && net.inventory.links[k].src == d.sdnPorts[n].id &&
                  HandedOver(net, net.inventory.links[k].tgt, r.packet))
            && (forall k | sends && k in net.inventory.links && net.inventory.links[k].src == d.sdnPorts[n].id ::
                  forall packet | HandedOver(net, net.inventory.links[k].tgt, packet) :: r == Delivered(packet))
  {
    if n in d.sdnPorts {
      forall l
        ensures LinkFromPort(net.inventory, d.sdnPorts[n].id) == Some(l) <==>
                l.id in net.inventory.links && net.inventory.links[l.id] == l && l.src == d.sdnPorts[n].id
      {
        LookupIsSearch(net.inventory, d.sdnPorts[n].id, l);
      }
    }
    hide Tidy;
  }

  /** The packet is the one handed in at a port inside the domain. */
  predicate HandedOver(net: Net, port: string, packet: PacketIn) {
    && !HasDelimiter(port) && '/' in port && BeforeSlash(port) == packet.device && packet.device in net.devices
    && var e := net.devices[packet.device];
       port in e.ports && e.ports[port].enabled && 0x88cc in e.punt && e.codecSet &&
       packet.ingressPort == e.ports[port].number && packet.roleAgent == e.punt[0x88cc]
  }

  // ---- Discovery

  /** Devices own the ports that their IDs name, each under an SDN number of its own. */
  ghost predicate Placed(net: Net) {
    && net.devices.Keys == net.inventory.devices.Keys
    && forall d | d in net.devices :: DevicePlaced(d, net.devices[d], net.inventory.devices[d])
  }

  ghost predicate DevicePlaced(d: string, info: DeviceInfo, ports: set<string>) {
    && info.ports.Keys == ports
    && (forall p | p in info.ports :: DeviceOf(p) == Some(d) && info.ports[p].id == p)
    && (forall p | p in info.ports :: info.ports[p].number in info.sdnPorts && info.sdnPorts[info.ports[p].number] == info.ports[p])
    && (forall n | n in info.sdnPorts :: info.sdnPorts[n].number == n && info.sdnPorts[n] in info.ports.Values)
  }

  predicate PortUp(net: Net, port: string) {
    match DeviceOf(port)
    case None => false
    case Some(d) => d in net.devices && port in net.devices[d].ports && net.devices[d].ports[port].enabled
  }

  /** A link that works: internal, both ends up, a pipeline set where it starts, and heard
      at its target. */
  predicate Works(net: Net, l: Link) {
    && !External(l) && PortUp(net, l.src) && PortUp(net, l.tgt)
    && net.devices[DeviceOf(l.src).value].codecSet
    && Hears(net.devices[DeviceOf(l.tgt).value], l.tgt)
  }

  /** What the packet sent out of port `n` of device `d` tells the controller: the port it
      left from, and the one it came in on. */
  function Shown(net: Net, d: string, n: nat): set<(string, string)> {
    if d !in net.devices || n !in net.devices[d].sdnPorts then {}
    else
      match SentOut(net, net.devices[d], n)
      case Delivered(packet) =>
        if packet.device in net.devices && packet.ingressPort in net.devices[packet.device].sdnPorts
        then {(net.devices[d].sdnPorts[n].id, net.devices[packet.device].sdnPorts[packet.ingressPort].id)}
        else {}
      case _ => {}
  }

  ghost function ShownThrough(net: Net, d: string, ns: set<nat>): set<(string, string)> {
    set n, x | n in ns && x in Shown(net, d, n) :: x
  }

  ghost function ShownBy(net: Net, ds: set<string>): set<(string, string)> {
    set d, x | d in ds && d in net.devices && x in ShownThrough(net, d, net.devices[d].sdnPorts.Keys) :: x
  }

  function Working(net: Net): set<(string, string)> {
    set k | k in net.inventory.links && Works(net, net.inventory.links[k]) ::
      (net.inventory.links[k].src, net.inventory.links[k].tgt)
  }

  /** Discovery is exact: what packets sent out of all ports show are the working links, all
      of them and no other. */
  lemma DiscoveryExact(net: Net)
    requires Tidy(net.inventory) && TargetsRegistered(net.inventory) && Placed(net)
    ensures ShownBy(net, net.devices.Keys) == Working(net)
  {
    forall x | x in ShownBy(net, net.devices.Keys)
      ensures x in Working(net)
    {
      var d :| d in net.devices && x in ShownThrough(net, d, net.devices[d].sdnPorts.Keys);
      var n :| n in net.devices[d].sdnPorts && x in Shown(net, d, n);
      ShownWorks(net, d, n, x);
    }
    forall x | x in Working(net)
      ensures x in ShownBy(net, net.devices.Keys)
    {
      var k :| k in net.inventory.links && Works(net, net.inventory.links[k]) &&
               x == (net.inventory.links[k].src, net.inventory.links[k].tgt);
      var d, n := WorkingShows(net, net.inventory.links[k]);
      hide Works, Shown, Tidy, Placed;
      assert x in ShownThrough(net, d, net.devices[d].sdnPorts.Keys);
    }
    hide *;
  }

  lemma ShownLink(net: Net, d: string, n: nat, x: (string, string)) returns (l: Link)
    requires Tidy(net.inventory) && Placed(net) && x in Shown(net, d, n)
    ensures l.id in net.inventory.links && net.inventory.links[l.id] == l && !External(l)
    ensures l.src == x.0 && PortUp(net, l.src) && net.devices[DeviceOf(l.src).value].codecSet && Emitted(net, l.tgt).Delivered?
    ensures var packet := Emitted(net, l.tgt).packet;
            packet.device in net.devices && packet.ingressPort in net.devices[packet.device].sdnPorts &&
            x.1 == net.devices[packet.device].sdnPorts[packet.ingressPort].id
  {
    assert DevicePlaced(d, net.devices[d], net.inventory.devices[d]);
    l := LinkFromPort(net.inventory, x.0).value;
    LookupIsSearch(net.inventory, x.0, l);
    hide Tidy, Emitted;
  }

  lemma ShownWorks(net: Net, d: string, n: nat, x: (string, string))
    requires Tidy(net.inventory) && Placed(net) && x in Shown(net, d, n)
    ensures x in Working(net)
  {
    var l := ShownLink(net, d, n, x);
    var e := DeviceOf(l.tgt).value;
    assert DevicePlaced(e, net.devices[e], net.inventory.devices[e]);
    assert Works(net, l) && l.tgt == x.1;
    hide Works, Shown, Tidy, Placed;
  }

  lemma WorkingShows(net: Net, l: Link) returns (d: string, n: nat)
    requires Tidy(net.inventory) && Placed(net) && l.id in net.inventory.links && net.inventory.links[l.id] == l && Works(net, l)
    ensures d in net.devices && n in net.devices[d].sdnPorts && Shown(net, d, n) == {(l.src, l.tgt)}
  {
    hide Tidy, Hears, Emitted, LinkFromPort, External;
    d := DeviceOf(l.src).value;
    n := net.devices[d].ports[l.src].number;
    assert DevicePlaced(d, net.devices[d], net.inventory.devices[d]);
    assert n in net.devices[d].sdnPorts && net.devices[d].sdnPorts[n] == net.devices[d].ports[l.src];
    hide DevicePlaced, Placed;
    LookupIsSearch(net.inventory, l.src, l);
    HeardAt(net, l);
    assert SentOut(net, net.devices[d], n) == Emitted(net, l.tgt);
  }

  lemma HeardAt(net: Net, l: Link)
    requires Placed(net) && Works(net, l)
    ensures Emitted(net, l.tgt).Delivered?
    ensures var packet := Emitted(net, l.tgt).packet;
            packet.device in net.devices && packet.ingressPort in net.devices[packet.device].sdnPorts &&
            net.devices[packet.device].sdnPorts[packet.ingressPort].id == l.tgt
  {
    var e := DeviceOf(l.tgt).value;
    assert DevicePlaced(e, net.devices[e], net.inventory.devices[e]);
    hide Placed;
  }

  lemma InOrderPlaced(sim: Simulation)
    requires sim.InOrder()
    ensures Placed(Snapshot(sim))
  {
    forall d | d in sim.devices
      ensures DevicePlaced(d, DeviceValue(sim.devices[d]), sim.devices[d].ports.Keys)
    {
      OrderedPlaced(sim.devices[d], d);
    }
    hide Tidy, TargetsRegistered, Ordered, DevicePlaced;
  }

  lemma OrderedPlaced(d: DeviceSimulator, id: string)
    requires Ordered(d, id)
    ensures DevicePlaced(id, DeviceValue(d), d.ports.Keys)
  {
    forall n | n in d.sdnPorts
      ensures PortValue(d.sdnPorts[n]) in DeviceValue(d).ports.Values
    {
      var p :| p in d.ports && d.ports[p] == d.sdnPorts[n];
      assert DeviceValue(d).ports[p] == PortValue(d.sdnPorts[n]);
    }
    hide DeviceOf;
  }

  /** Looking does not change what there is to see. */
  twostate lemma SnapshotKept(sim: Simulation)
    requires unchanged(sim) && unchanged(old(sim.devices.Values)) && unchanged(old(AllPorts(sim)))
    ensures Snapshot(sim) == old(Snapshot(sim)) && (old(sim.InOrder()) ==> sim.InOrder())
  {
    assert forall d | d in sim.devices :: PortsOf(sim.devices[d]) <= AllPorts(sim);
    assert forall d | d in sim.devices :: DeviceValue(sim.devices[d]) == old(DeviceValue(sim.devices[d]));
  }

  /** What the packet sent out of one port shows. */
  method Probe(sim: Simulation, d: string, n: nat) returns (found: set<(string, string)>)
    requires sim.InOrder() && d in sim.devices && n in sim.devices[d].sdnPorts
    ensures found == Shown(Snapshot(sim), d, n) && Snapshot(sim) == old(Snapshot(sim)) && sim.InOrder()
  {
    ghost var net := Snapshot(sim);
    var r := ProcessPacketOut(sim, sim.devices[d], n);
    SnapshotKept(sim);
    InOrderPlaced(sim);
    match r
    case Delivered(packet) =>
      DeliveredAt(net, d, n, packet);
      found := {(sim.devices[d].sdnPorts[n].id, sim.devices[packet.device].sdnPorts[packet.ingressPort].id)};
    case _ =>
      found := {};
  }

  lemma DeliveredAt(net: Net, d: string, n: nat, packet: PacketIn)
    requires Placed(net) && d in net.devices && n in net.devices[d].sdnPorts
    requires SentOut(net, net.devices[d], n) == Delivered(packet)
    ensures packet.device in net.devices && packet.ingressPort in net.devices[packet.device].sdnPorts
    ensures Shown(net, d, n) ==
            {(net.devices[d].sdnPorts[n].id, net.devices[packet.device].sdnPorts[packet.ingressPort].id)}
  {
    var e := packet.device;
    assert DevicePlaced(e, net.devices[e], net.inventory.devices[e]);
    hide Placed;
  }

  lemma ThroughMore(net: Net, d: string, ns: set<nat>, n: nat)
    ensures ShownThrough(net, d, ns + {n}) == ShownThrough(net, d, ns) + Shown(net, d, n)
  {
    hide Shown;
  }

  lemma ByMore(net: Net, ds: set<string>, d: string)
    requires d in net.devices
    ensures ShownBy(net, ds + {d}) == ShownBy(net, ds) + ShownThrough(net, d, net.devices[d].sdnPorts.Keys)
  {
    hide ShownThrough;
  }

  lemma ShownNone(sim: Simulation, d: string)
    requires d in sim.devices
    ensures d in Snapshot(sim).devices && Snapshot(sim).devices[d].sdnPorts.Keys == sim.devices[d].sdnPorts.Keys
    ensures ShownThrough(Snapshot(sim), d, {}) == {}
  {
    hide Shown;
  }

  method ProbeDevice(sim: Simulation, d: string) returns (found: set<(string, string)>)
    requires sim.InOrder() && d in sim.devices
    ensures found == ShownThrough(Snapshot(sim), d, Snapshot(sim).devices[d].sdnPorts.Keys)
    ensures Snapshot(sim) == old(Snapshot(sim)) && sim.InOrder()
  {
    hide *;
    ghost var net, done := Snapshot(sim), {};
    var rest := sim.devices[d].sdnPorts.Keys;
    ghost var all := rest;
    found := {};
    ShownNone(sim, d);
    while rest != {}
      invariant done + rest == all <= sim.devices[d].sdnPorts.Keys && sim.InOrder() && Snapshot(sim) == net
      invariant found == ShownThrough(net, d, done)
    {
      var n :| n in rest;
      var more := Probe(sim, d, n);
      ThroughMore(net, d, done, n);
      done, rest := done + {n}, rest - {n};
      found := found + more;
    }
    assert done == all;
  }

  /** Sends LLDP out of every port of every device; what comes in are exactly the working links. */
  method Discover(sim: Simulation) returns (found: set<(string, string)>)
    requires sim.InOrder()
    ensures found == Working(Snapshot(sim)) && Snapshot(sim) == old(Snapshot(sim)) && sim.InOrder()
  {
    ghost var net, done := Snapshot(sim), {};
    var rest := sim.devices.Keys;
    ghost var all := rest;
    assert net.devices.Keys == all;
    found := {};
    while rest != {}
      invariant done + rest == all <= sim.devices.Keys && sim.InOrder() && Snapshot(sim) == net
      invariant found == ShownBy(net, done)
    {
      hide *;
      var d :| d in rest;
      var more := ProbeDevice(sim, d);
      ByMore(net, done, d);
      done, rest := done + {d}, rest - {d};
      found := found + more;
    }
    assert done == all;
    InOrderPlaced(sim);
    DiscoveryExact(net);
  }
}

/** The simulation as an object: inventories and port-use maps are fields that the
    add and remove methods update.  Every method is tied to the step function of
    Inventory that it carries out, so what is proved there holds of these fields. */
module Simulation {
  import opened Common
  import opened Text
  import opened Inventory

  /** A device port; only its status ever changes. */
  class PortState {
    const id: string
    const internalNumber: nat
    var enabled: bool

    constructor (p: Port)
      ensures id == p.id && internalNumber == p.internalNumber && enabled
    {
      id, internalNumber, enabled := p.id, p.internalNumber, true;
    }
  }

  /** Each port under its ID and under its SDN number. */
  predicate Indexed(ports: map<string, PortState>, sdnPorts: map<nat, PortState>) {
    && (forall p | p in ports :: ports[p].id == p)
    && (forall n | n in sdnPorts :: sdnPorts[n].internalNumber == n)
  }

  /** Port IDs and SDN numbers are unique within the device. */
  ghost predicate DistinctPorts(ports: seq<Port>) {
    forall i, j | 0 <= i < j < |ports| ::
      ports[i].id != ports[j].id && ports[i].internalNumber != ports[j].internalNumber
  }

  /** The two maps hold the described ports: the same objects if all IDs and numbers differ. */
  ghost predicate PortsFiled(described: seq<Port>, ports: map<string, PortState>, sdnPorts: map<nat, PortState>) {
    && Indexed(ports, sdnPorts)
    && ports.Keys == (set p | p in described :: p.id) && sdnPorts.Keys == (set p | p in described :: p.internalNumber)
    && (DistinctPorts(described) ==>
          forall p | p in described ::
            ports[p.id].internalNumber == p.internalNumber && sdnPorts[p.internalNumber] == ports[p.id])
  }

  lemma FileAnother(described: seq<Port>, p: Port, ports: map<string, PortState>, sdnPorts: map<nat, PortState>, port: PortState)
    requires PortsFiled(described, ports, sdnPorts) && port.id == p.id && port.internalNumber == p.internalNumber
    ensures PortsFiled(described + [p], ports[p.id := port], sdnPorts[p.internalNumber := port])
  {
    assert forall q :: q in described + [p] <==> q in described || q == p;
    if DistinctPorts(described + [p]) {
      DistinctFront(described, p);
    }
    hide DistinctPorts;
  }

  lemma DistinctFront(ports: seq<Port>, p: Port)
    requires DistinctPorts(ports + [p])
    ensures DistinctPorts(ports) && forall q | q in ports :: q.id != p.id && q.internalNumber != p.internalNumber
  {
    var all := ports + [p];
    assert all[|ports|] == p && forall i | 0 <= i < |ports| :: all[i] == ports[i];
  }

  class DeviceSimulator {
    const id: string
    const ports: map<string, PortState>
    const sdnPorts: map<nat, PortState>
    /** Ethernet types punted to the controller, with the role agent ID given for each. */
    var puntToCPU: map<nat, nat>
    var codecSet: bool

    ghost predicate Reflects(dev: Device) {
      id == dev.id && PortsFiled(dev.ports, ports, sdnPorts)
    }

    /** A new device: its ports are up, and no pipeline is set. */
    ghost predicate Pristine()
      reads this, ports.Values
    {
      puntToCPU == map[] && !codecSet && forall p | p in ports :: ports[p].enabled
    }

    constructor (dev: Device)
      ensures Reflects(dev) && Pristine()
      ensures forall p | p in ports :: fresh(ports[p])
    {
      var byId: map<string, PortState>, bySdn: map<nat, PortState> := map[], map[];
      var i := 0;
      while i < |dev.ports|
        invariant 0 <= i <= |dev.ports| && PortsFiled(dev.ports[..i], byId, bySdn)
        invariant forall p | p in byId :: fresh(byId[p]) && byId[p].enabled
      {
        var port := new PortState(dev.ports[i]);
        FileAnother(dev.ports[..i], dev.ports[i], byId, bySdn, port);
        assert dev.ports[..i + 1] == dev.ports[..i] + [dev.ports[i]];
        hide PortsFiled;
        byId, bySdn := byId[port.id := port], bySdn[port.internalNumber := port];
        i := i + 1;
      }
      assert dev.ports[..i] == dev.ports;
      id, ports, sdnPorts := dev.id, byId, bySdn;
      puntToCPU, codecSet := map[], false;
    }
  }

  /** Ports are named after the device, and numbered apart. */
  ghost predicate Regular(dev: Device) {
    DistinctPorts(dev.ports) && forall p | p in dev.ports :: DeviceOf(p.id) == Some(dev.id)
  }

  /** A device filed under its ID, with the ports that their IDs place there, each under an
      SDN number of its own. */
  ghost predicate Ordered(d: DeviceSimulator, id: string) {
    && d.id == id && Indexed(d.ports, d.sdnPorts)
    && (forall p | p in d.ports ::
          && DeviceOf(p) == Some(id)
          && d.ports[p].internalNumber in d.sdnPorts && d.sdnPorts[d.ports[p].internalNumber] == d.ports[p])
    && (forall n | n in d.sdnPorts :: d.sdnPorts[n] in d.ports.Values)
  }

  lemma RegularOrdered(d: DeviceSimulator, dev: Device)
    requires d.Reflects(dev) && Regular(dev)
    ensures Ordered(d, dev.id)
  {
    forall n | n in d.sdnPorts
      ensures d.sdnPorts[n] in d.ports.Values
    {
      var p :| p in dev.ports && p.internalNumber == n;
      assert d.sdnPorts[n] == d.ports[p.id];
    }
    forall p | p in d.ports
      ensures d.ports[p].internalNumber in d.sdnPorts && d.sdnPorts[d.ports[p].internalNumber] == d.ports[p]
    {
      var q :| q in dev.ports && q.id == p;
    }
    hide DeviceOf;
  }

  class Simulation {
    var devices: map<string, DeviceSimulator>
    var links: map<LinkID, Link>
    var hosts: map<string, Host>
    var egress: map<string, PortUse>
    var ingress: map<string, PortUse>

    function State(): Sim
      reads this
    {
      Sim(map d | d in devices :: devices[d].ports.Keys, links, hosts, egress, ingress)
    }

    /** The maps are tidy, links lead somewhere, and devices are in order. */
    ghost predicate InOrder()
      reads this
    {
      && Tidy(State()) && TargetsRegistered(State())
      && forall d | d in devices :: Ordered(devices[d], d)
    }

    constructor ()
      ensures State() == EMPTY && devices == map[] && InOrder()
    {
      devices, links, hosts, egress, ingress := map[], map[], map[], map[], map[];
    }

    method Validate(port: string) returns (o: Outcome)
      ensures o == ValidatePort(State(), port)
    {
      var dev := DeviceOf(port);
      if dev.None? {
        return Invalid;
      }
      if dev.value !in devices {
        return NotFound;
      }
      o := if port in devices[dev.value].ports then Done else NotFound;
    }

    method AddDeviceSimulator(dev: Device) returns (sim: DeviceSimulator, o: Outcome)
      modifies `devices
      ensures (State(), o) == AddDevice(old(State()), dev)
      ensures devices == if o == Done then old(devices)[dev.id := sim] else old(devices)
      ensures fresh(sim) && sim.Reflects(dev) && sim.Pristine() && forall p | p in sim.ports :: fresh(sim.ports[p])
      ensures old(InOrder()) && Regular(dev) ==> InOrder()
    {
      hide Tidy, TargetsRegistered, Ordered, Regular, DeviceSimulator.Pristine, DeviceSimulator.Reflects;
      sim := new DeviceSimulator(dev);
      if dev.id in devices {
        return sim, Invalid;
      }
      o := Done;
      AddDeviceKeeps(State(), dev);
      if Regular(dev) {
        RegularOrdered(sim, dev);
      }
      hide DeviceOf, External;
      EnterDevice(dev, sim);
    }

    method EnterDevice(dev: Device, sim: DeviceSimulator)
      requires dev.id !in devices && sim.Reflects(dev)
      modifies `devices
      ensures devices == old(devices)[dev.id := sim] && (State(), Done) == AddDevice(old(State()), dev)
    {
      assert sim.ports.Keys == PortIDs(dev);
      hide DeviceSimulator.Reflects, PortIDs;
      devices := devices[dev.id := sim];
      assert State().devices == old(State()).devices[dev.id := PortIDs(dev)];
    }

    method RemoveDeviceSimulator(id: string) returns (o: Outcome)
      modifies `devices
      ensures (State(), o) == RemoveDevice(old(State()), id)
      ensures devices == old(devices) - {id}
      ensures old(InOrder()) && !Targeted(old(State()), id) ==> InOrder()
    {
      RemoveDeviceTargets(State(), id);
      hide Tidy, TargetsRegistered, Ordered;
      if id !in devices {
        return NotFound;
      }
      devices := devices - {id};
      assert State().devices == old(State()).devices - {id};
      o := Done;
    }

    method AddLinkSimulator(l: Link) returns (o: Outcome)
      modifies `links, `egress, `ingress
      ensures (State(), o) == AddLink(old(State()), l)
      ensures old(InOrder()) ==> InOrder()
    {
      AddLinkKeeps(State(), l);
      hide Tidy, TargetsRegistered, Ordered;
      var external := External(l);
      o := Validate(l.src);
      if o != Done {
        return;
      }
      if !external {
        o := Validate(l.tgt);
        if o != Done {
          return;
        }
      }
      if l.src in egress || (!external && l.tgt in ingress) || l.id in links {
        return Invalid;
      }
      links := links[l.id := l];
      egress := egress[l.src := ByLink(l)];
      if !external {
        ingress := ingress[l.tgt := ByLink(l)];
      }
      o := Done;
    }

    method RemoveLinkSimulator(id: LinkID) returns (o: Outcome)
      modifies `links, `egress, `ingress
      ensures (State(), o) == RemoveLink(old(State()), id)
      ensures old(InOrder()) ==> InOrder()
    {
      RemoveLinkKeeps(State(), id);
      hide Tidy, TargetsRegistered, Ordered;
      if id !in links {
        return NotFound;
      }
      var l := links[id];
      links := links - {id};
      egress := egress - {l.src};
      ingress := ingress - {l.tgt};
      o := Done;
    }

    method ValidateInterfaces(nics: seq<NIC>) returns (o: Outcome)
      ensures o == CheckInterfaces(State(), nics)
    {
      var i := 0;
      while i < |nics|
        invariant 0 <= i <= |nics|
        invariant CheckInterfaces(State(), nics) == CheckInterfaces(State(), nics[i..])
      {
        var p := nics[i].id;
        assert nics[i..][0] == nics[i] && nics[i..][1..] == nics[i + 1..];
        o := Validate(p);
        if o != Done {
          return;
        }
        if p in egress || p in ingress {
          return Invalid;
        }
        i := i + 1;
      }
      o := Done;
    }

    method OccupyPorts(nics: seq<NIC>)
      modifies `egress, `ingress
      ensures egress == Occupy(old(egress), nics) && ingress == Occupy(old(ingress), nics)
    {
      var i := 0;
      while i < |nics|
        invariant 0 <= i <= |nics|
        invariant egress == Occupy(old(egress), nics[..i])
        invariant ingress == Occupy(old(ingress), nics[..i])
      {
        var n := nics[i];
        assert nics[..i + 1][..i] == nics[..i];
        egress := egress[n.id := ByNic(n)];
        ingress := ingress[n.id := ByNic(n)];
        i := i + 1;
      }
      assert nics[..i] == nics;
    }

    method AddHostSimulator(h: Host) returns (o: Outcome)
      modifies `hosts, `egress, `ingress
      ensures (State(), o) == AddHost(old(State()), h)
      ensures old(InOrder()) ==> InOrder()
    {
      AddHostKeeps(State(), h);
      hide Tidy, TargetsRegistered, Ordered;
      o := ValidateInterfaces(h.interfaces);
      if o != Done {
        return;
      }
      if h.id in hosts {
        return Invalid;
      }
      hosts := hosts[h.id := h];
      OccupyPorts(h.interfaces);
      assert State().devices == old(State()).devices;
    }

    method VacatePorts(h: Host)
      modifies `egress, `ingress
      ensures egress == Vacate(old(egress), h) && ingress == Vacate(old(ingress), h)
    {
      var i := 0;
      while i < |h.interfaces|
        invariant 0 <= i <= |h.interfaces|
        invariant egress == Without(old(egress), h.interfaces[..i])
        invariant ingress == Without(old(ingress), h.interfaces[..i])
      {
        var p := h.interfaces[i].id;
        assert h.interfaces[..i + 1] == h.interfaces[..i] + [h.interfaces[i]];
        egress := egress - {p};
        ingress := ingress - {p};
        i := i + 1;
      }
      assert h.interfaces[..i] == h.interfaces;
    }

    method RemoveHostSimulator(id: string) returns (o: Outcome)
      modifies `hosts, `egress, `ingress
      ensures (State(), o) == RemoveHost(old(State()), id)
      ensures old(InOrder()) ==> InOrder()
    {
      RemoveHostKeeps(State(), id);
      hide Tidy, TargetsRegistered, Ordered;
      if id !in hosts {
        return NotFound;
      }
      var h := hosts[id];
      hosts := hosts - {id};
      VacatePorts(h);
      assert State().devices == old(State()).devices;
      o := Done;
    }

    method GetLinkFromPort(port: string) returns (l: Option<Link>)
      ensures l == LinkFromPort(State(), port)
    {
      if port in egress {
        match egress[port]
        case ByLink(k) => return Some(k);
        case ByNic(_) => return None;
      }
      l := None;
    }
  }

  ghost function Without(used: map<string, PortUse>, nics: seq<NIC>): map<string, PortUse> {
    map p | p in used && !(exists n | n in nics :: n.id == p) :: used[p]
  }
}

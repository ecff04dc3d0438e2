/** Loading a topology into the simulation: devices, then links (each followed by its
    reverse unless it is unidirectional), then hosts, stopping at the first error.

    `LoadIff` says exactly which topologies load into an empty simulation. */
module Loader {
  import opened Common
  import opened Text
  import opened Schema
  import opened Inventory
  import Simulation

  // ---- What is handed to the simulation

  function ConstructPort(dev: string, pd: PortDesc): Port {
    Port(PortID(dev, pd.number), pd.number, if pd.sdnNumber != 0 then pd.sdnNumber else pd.number)
  }

  function ConstructDevice(dd: DeviceDesc): Device {
    Device(dd.id, dd.agentPort, seq(|dd.ports|, i requires 0 <= i < |dd.ports| => ConstructPort(dd.id, dd.ports[i])))
  }

  function ConstructLink(ld: LinkDesc): Link {
    Link(LinkID(ld.src, ld.tgt), ld.src, ld.tgt)
  }

  function ReverseLink(ld: LinkDesc): Link {
    Link(LinkID(ld.tgt, ld.src), ld.tgt, ld.src)
  }

  function ConstructNic(nd: NicDesc): NIC {
    NIC(nd.port, nd.mac, nd.ipv4, nd.ipv6)
  }

  function ConstructHost(hd: HostDesc): Host {
    Host(hd.id, seq(|hd.nics|, i requires 0 <= i < |hd.nics| => ConstructNic(hd.nics[i])))
  }

  /** The directed links a list of link descriptions stands for, in loading order. */
  function DirectedLinks(links: seq<LinkDesc>): seq<Link> {
    if links == [] then []
    else
      var k := |links| - 1;
      DirectedLinks(links[..k]) + Directions(links[k])
  }

  function Directions(ld: LinkDesc): seq<Link> {
    if ld.unidirectional then [ConstructLink(ld)] else [ConstructLink(ld), ReverseLink(ld)]
  }

  // ---- Loading, up to the first error

  function LoadDevices(s: Sim, ds: seq<DeviceDesc>): (Sim, Outcome) {
    if ds == [] then (s, Done)
    else
      var (t, o) := LoadDevices(s, ds[..|ds| - 1]);
      if o != Done then (t, o) else AddDevice(t, ConstructDevice(ds[|ds| - 1]))
  }

  function LoadLinks(s: Sim, ls: seq<Link>): (Sim, Outcome) {
    if ls == [] then (s, Done)
    else
      var (t, o) := LoadLinks(s, ls[..|ls| - 1]);
      if o != Done then (t, o) else AddLink(t, ls[|ls| - 1])
  }

  function LoadHosts(s: Sim, hs: seq<HostDesc>): (Sim, Outcome) {
    if hs == [] then (s, Done)
    else
      var (t, o) := LoadHosts(s, hs[..|hs| - 1]);
      if o != Done then (t, o) else AddHost(t, ConstructHost(hs[|hs| - 1]))
  }

  function Load(s: Sim, t: Topology): (Sim, Outcome) {
    var (s1, o1) := LoadDevices(s, t.devices);
    if o1 != Done then (s1, o1)
    else
      var (s2, o2) := LoadLinks(s1, DirectedLinks(t.links));
      if o2 != Done then (s2, o2) else LoadHosts(s2, t.hosts)
  }

  // ---- The topologies that load

  /** The port is one of the described devices' ports. */
  predicate HasPort(ds: seq<DeviceDesc>, port: string) {
    exists d | d in ds :: DeviceOf(port) == Some(d.id) && exists p | p in d.ports :: PortID(d.id, p.number) == port
  }

  predicate DistinctDevices(ds: seq<DeviceDesc>) {
    forall i, j | 0 <= i < j < |ds| :: ds[i].id != ds[j].id
  }

  /** A link may be added to `s`, whatever else is in the list it comes from. */
  predicate LinkFits(s: Sim, l: Link) {
    CheckLink(s, l) == Done
  }

  /** Two links of one list can both be added. */
  predicate Compatible(k: Link, l: Link) {
    k.src != l.src && k.id != l.id && (External(k) || External(l) || k.tgt != l.tgt)
  }

  predicate LinksFit(s: Sim, ls: seq<Link>) {
    && (forall i | 0 <= i < |ls| :: LinkFits(s, ls[i]))
    && (forall i, j | 0 <= i < j < |ls| :: Compatible(ls[i], ls[j]))
  }

  predicate OnNic(h: HostDesc, port: string) {
    exists n | n in h.nics :: n.port == port
  }

  predicate NicFits(s: Sim, port: string) {
    ValidatePort(s, port) == Done && port !in s.egress && port !in s.ingress
  }

  /** A host's interfaces all sit on existing, free ports. */
  predicate NicsFit(s: Sim, h: HostDesc) {
    forall n | n in h.nics :: NicFits(s, n.port)
  }

  predicate HostCompatible(g: HostDesc, h: HostDesc) {
    g.id != h.id && forall n | n in h.nics :: !OnNic(g, n.port)
  }

  predicate HostsFit(s: Sim, hs: seq<HostDesc>) {
    && (forall h | h in hs :: NicsFit(s, h) && h.id !in s.hosts)
    && (forall i, j | 0 <= i < j < |hs| :: HostCompatible(hs[i], hs[j]))
  }

  // ---- Loading devices

  /** What a loaded list of devices leaves behind. */
  ghost predicate DevicesLoaded(ds: seq<DeviceDesc>, s: Sim) {
    && s == EMPTY.(devices := s.devices)
    && (forall d | d in s.devices :: exists i :: 0 <= i < |ds| && ds[i].id == d)
    && (forall i | 0 <= i < |ds| :: ds[i].id in s.devices && s.devices[ds[i].id] == PortIDs(ConstructDevice(ds[i])))
    && |s.devices| == |ds|
  }

  lemma {:induction false} LoadDevicesIff(ds: seq<DeviceDesc>)
    ensures LoadDevices(EMPTY, ds).1 == Done <==> DistinctDevices(ds)
    ensures DistinctDevices(ds) ==> DevicesLoaded(ds, LoadDevices(EMPTY, ds).0)
  {
    if ds != [] {
      var n := |ds| - 1;
      LoadDevicesIff(ds[..n]);
      assert ConstructDevice(ds[n]).id == ds[n].id && ds == ds[..n] + [ds[n]];
      hide DevicesLoaded, ConstructDevice;
      if DistinctDevices(ds[..n]) {
        DeviceStepLoaded(ds[..n], LoadDevices(EMPTY, ds[..n]).0, ds[n]);
      }
    }
  }

  lemma DeviceStepLoaded(ds: seq<DeviceDesc>, s: Sim, d: DeviceDesc)
    requires DistinctDevices(ds) && DevicesLoaded(ds, s)
    ensures d.id in s.devices <==> !DistinctDevices(ds + [d])
    ensures d.id !in s.devices ==> DevicesLoaded(ds + [d], AddDevice(s, ConstructDevice(d)).0)
  {
    assert ConstructDevice(d).id == d.id;
    hide PortIDs, ConstructDevice;
    var es := ds + [d];
    assert es[|ds|] == d && forall i | 0 <= i < |ds| :: es[i] == ds[i];
  }

  // ---- Loading links

  predicate Named(ls: seq<Link>, k: LinkID) {
    exists l :: l in ls && l.id == k
  }

  predicate LeftBy(ls: seq<Link>, port: string) {
    exists l :: l in ls && l.src == port
  }

  predicate EnteredBy(ls: seq<Link>, port: string) {
    exists l :: l in ls && !External(l) && l.tgt == port
  }

  /** What a loaded list of links leaves behind. */
  ghost predicate LinksLoaded(s: Sim, ls: seq<Link>, t: Sim) {
    && t.devices == s.devices && t.hosts == s.hosts
    && (forall k :: k in t.links <==> k in s.links || Named(ls, k))
    && (forall p :: p in t.egress <==> p in s.egress || LeftBy(ls, p))
    && (forall p :: p in t.ingress <==> p in s.ingress || EnteredBy(ls, p))
    && |t.links| == |s.links| + |ls|
  }

  lemma LinkStepFits(s: Sim, ls: seq<Link>, t: Sim, l: Link)
    requires LinksLoaded(s, ls, t)
    ensures LinkFits(t, l) <==> LinkFits(s, l) && forall k | k in ls :: Compatible(k, l)
  {
    hide External;
    assert ValidatePort(t, l.src) == ValidatePort(s, l.src) && ValidatePort(t, l.tgt) == ValidatePort(s, l.tgt);
    hide ValidatePort;
  }

  lemma AddedLink(t: Sim, l: Link)
    requires LinkFits(t, l)
    ensures var r := AddLink(t, l).0;
            && r.devices == t.devices && r.hosts == t.hosts
            && l.id !in t.links && r.links == t.links[l.id := l]
            && (forall p :: p in r.egress <==> p in t.egress || p == l.src)
            && (forall p :: p in r.ingress <==> p in t.ingress || (!External(l) && p == l.tgt))
  {
    hide External, ValidatePort;
  }

  lemma LinksSnoc(ls: seq<Link>, l: Link, k: LinkID, port: string)
    ensures Named(ls + [l], k) <==> Named(ls, k) || l.id == k
    ensures LeftBy(ls + [l], port) <==> LeftBy(ls, port) || l.src == port
    ensures EnteredBy(ls + [l], port) <==> EnteredBy(ls, port) || (!External(l) && l.tgt == port)
  {
    var ms := ls + [l];
    assert l in ms && (forall m | m in ls :: m in ms) && forall m | m in ms :: m in ls || m == l;
    hide External;
  }

  lemma LinkStepLoaded(s: Sim, ls: seq<Link>, t: Sim, l: Link)
    requires LinksLoaded(s, ls, t) && LinkFits(t, l)
    ensures LinksLoaded(s, ls + [l], AddLink(t, l).0)
  {
    hide External, LinkFits, AddLink, Named, LeftBy, EnteredBy;
    AddedLink(t, l);
    forall k
      ensures Named(ls + [l], k) <==> Named(ls, k) || l.id == k
    {
      LinksSnoc(ls, l, k, "");
    }
    forall p
      ensures LeftBy(ls + [l], p) <==> LeftBy(ls, p) || l.src == p
      ensures EnteredBy(ls + [l], p) <==> EnteredBy(ls, p) || (!External(l) && l.tgt == p)
    {
      LinksSnoc(ls, l, l.id, p);
    }
  }

  lemma LinksFitSnoc(s: Sim, ls: seq<Link>, l: Link)
    ensures LinksFit(s, ls + [l]) <==>
            LinksFit(s, ls) && LinkFits(s, l) && forall k | k in ls :: Compatible(k, l)
  {
    hide LinkFits, Compatible;
    var ms := ls + [l];
    assert ms[|ls|] == l && forall i | 0 <= i < |ls| :: ms[i] == ls[i];
  }

  /** A list of links loads exactly if each fits and no two of them clash. */
  lemma {:induction false} LoadLinksIff(s: Sim, ls: seq<Link>)
    ensures LoadLinks(s, ls).1 == Done <==> LinksFit(s, ls)
    ensures LinksFit(s, ls) ==> LinksLoaded(s, ls, LoadLinks(s, ls).0)
  {
    if ls == [] {
      hide External;
    } else {
      var k, l := ls[..|ls| - 1], ls[|ls| - 1];
      assert ls == k + [l];
      LoadLinksIff(s, k);
      LinksFitSnoc(s, k, l);
      var t := LoadLinks(s, k).0;
      if LinksFit(s, k) {
        LinkStepFits(s, k, t, l);
        if LinkFits(t, l) {
          LinkStepLoaded(s, k, t, l);
        }
      }
      hide LinksLoaded, LinksFit, Compatible, CheckLink;
    }
  }

  // ---- Loading hosts

  predicate HostIn(hs: seq<HostDesc>, id: string) {
    exists h :: h in hs && h.id == id
  }

  predicate Occupied(hs: seq<HostDesc>, port: string) {
    exists h :: h in hs && OnNic(h, port)
  }

  /** What a loaded list of hosts leaves behind. */
  ghost predicate HostsLoaded(s: Sim, hs: seq<HostDesc>, t: Sim) {
    && t.devices == s.devices && t.links == s.links
    && (forall h :: h in t.hosts <==> h in s.hosts || HostIn(hs, h))
    && (forall p :: p in t.egress <==> p in s.egress || Occupied(hs, p))
    && (forall p :: p in t.ingress <==> p in s.ingress || Occupied(hs, p))
    && |t.hosts| == |s.hosts| + |hs|
  }

  lemma InterfacePorts(h: HostDesc, p: string)
    ensures (exists n | n in ConstructHost(h).interfaces :: n.id == p) <==> OnNic(h, p)
  {
    var c := ConstructHost(h);
    if n :| n in c.interfaces && n.id == p {
      var i :| 0 <= i < |c.interfaces| && c.interfaces[i] == n;
      assert h.nics[i].port == p;
    }
    if n :| n in h.nics && n.port == p {
      var i :| 0 <= i < |h.nics| && h.nics[i] == n;
      assert c.interfaces[i].id == p;
    }
  }

  lemma InterfacesFit(s: Sim, h: HostDesc)
    ensures CheckInterfaces(s, ConstructHost(h).interfaces) == Done <==> NicsFit(s, h)
  {
    hide ValidatePort;
    var c := ConstructHost(h);
    CheckedInterfaces(s, c.interfaces);
    if NicsFit(s, h) {
      forall n | n in c.interfaces
        ensures NicFits(s, n.id)
      {
        InterfacePorts(h, n.id);
      }
    }
    if CheckInterfaces(s, c.interfaces) == Done {
      forall n | n in h.nics
        ensures NicFits(s, n.port)
      {
        InterfacePorts(h, n.port);
      }
    }
  }

  lemma AddedHost(t: Sim, h: HostDesc)
    ensures AddHost(t, ConstructHost(h)).1 == Done <==> NicsFit(t, h) && h.id !in t.hosts
    ensures NicsFit(t, h) && h.id !in t.hosts ==>
              var r := AddHost(t, ConstructHost(h)).0;
              && r.devices == t.devices && r.links == t.links
              && r.hosts == t.hosts[h.id := ConstructHost(h)]
              && (forall p :: p in r.egress <==> p in t.egress || OnNic(h, p))
              && (forall p :: p in r.ingress <==> p in t.ingress || OnNic(h, p))
  {
    InterfacesFit(t, h);
    forall p
      ensures (exists n | n in ConstructHost(h).interfaces :: n.id == p) <==> OnNic(h, p)
    {
      InterfacePorts(h, p);
    }
    assert ConstructHost(h).id == h.id;
    hide OnNic, NicsFit, CheckInterfaces, ConstructHost;
  }

  lemma HostStepFits(s: Sim, hs: seq<HostDesc>, t: Sim, h: HostDesc)
    requires HostsLoaded(s, hs, t)
    ensures NicsFit(t, h) && h.id !in t.hosts <==>
            NicsFit(s, h) && h.id !in s.hosts && forall g | g in hs :: HostCompatible(g, h)
  {
    assert forall p :: ValidatePort(t, p) == ValidatePort(s, p);
    hide ValidatePort, OnNic;
  }

  lemma HostsSnoc(hs: seq<HostDesc>, h: HostDesc, id: string, port: string)
    ensures HostIn(hs + [h], id) <==> HostIn(hs, id) || h.id == id
    ensures Occupied(hs + [h], port) <==> Occupied(hs, port) || OnNic(h, port)
  {
    var gs := hs + [h];
    assert h in gs && (forall g | g in hs :: g in gs) && forall g | g in gs :: g in hs || g == h;
    hide OnNic;
  }

  lemma HostStepLoaded(s: Sim, hs: seq<HostDesc>, t: Sim, h: HostDesc)
    requires HostsLoaded(s, hs, t) && NicsFit(t, h) && h.id !in t.hosts
    ensures HostsLoaded(s, hs + [h], AddHost(t, ConstructHost(h)).0)
  {
    hide OnNic, NicsFit, AddHost, HostIn, Occupied;
    AddedHost(t, h);
    forall id
      ensures HostIn(hs + [h], id) <==> HostIn(hs, id) || h.id == id
    {
      HostsSnoc(hs, h, id, "");
    }
    forall p
      ensures Occupied(hs + [h], p) <==> Occupied(hs, p) || OnNic(h, p)
    {
      HostsSnoc(hs, h, h.id, p);
    }
  }

  lemma HostsFitSnoc(s: Sim, hs: seq<HostDesc>, h: HostDesc)
    ensures HostsFit(s, hs + [h]) <==>
            HostsFit(s, hs) && NicsFit(s, h) && h.id !in s.hosts && forall g | g in hs :: HostCompatible(g, h)
  {
    hide NicsFit, HostCompatible;
    var ms := hs + [h];
    assert ms[|hs|] == h && forall i | 0 <= i < |hs| :: ms[i] == hs[i];
  }

  /** A list of hosts loads exactly if IDs are new and all interfaces get ports of their own. */
  lemma {:induction false} LoadHostsIff(s: Sim, hs: seq<HostDesc>)
    ensures LoadHosts(s, hs).1 == Done <==> HostsFit(s, hs)
    ensures HostsFit(s, hs) ==> HostsLoaded(s, hs, LoadHosts(s, hs).0)
  {
    if hs != [] {
      var g, h := hs[..|hs| - 1], hs[|hs| - 1];
      assert hs == g + [h];
      LoadHostsIff(s, g);
      HostsFitSnoc(s, g, h);
      var t := LoadHosts(s, g).0;
      AddedHost(t, h);
      if HostsFit(s, g) {
        HostStepFits(s, g, t, h);
        if NicsFit(t, h) && h.id !in t.hosts {
          HostStepLoaded(s, g, t, h);
        }
      }
      hide HostsLoaded, HostsFit, HostCompatible, NicsFit, AddHost;
    }
  }

  // ---- Loading a topology

  /** The topologies that load: no two devices share an ID, every link end and every
      interface is on a port of some device (external targets excepted), and every port
      is used at most once in each direction. */
  predicate WellFormed(t: Topology) {
    var ls := DirectedLinks(t.links);
    && DistinctDevices(t.devices)
    && (forall l | l in ls :: HasPort(t.devices, l.src) && (External(l) || HasPort(t.devices, l.tgt)))
    && (forall i, j | 0 <= i < j < |ls| :: Compatible(ls[i], ls[j]))
    && (forall h, n | h in t.hosts && n in h.nics :: HasPort(t.devices, n.port) && !UsedByLinks(ls, n.port))
    && (forall i, j | 0 <= i < j < |t.hosts| :: HostCompatible(t.hosts[i], t.hosts[j]))
  }

  predicate UsedByLinks(ls: seq<Link>, port: string) {
    exists l | l in ls :: l.src == port || (!External(l) && l.tgt == port)
  }

  lemma ValidAfterDevices(ds: seq<DeviceDesc>, port: string)
    requires DistinctDevices(ds)
    ensures ValidatePort(LoadDevices(EMPTY, ds).0, port) == Done <==> HasPort(ds, port)
  {
    LoadDevicesIff(ds);
    var s := LoadDevices(EMPTY, ds).0;
    hide DeviceOf, PortID, LoadDevices;
    if HasPort(ds, port) {
      var i, p :| 0 <= i < |ds| && DeviceOf(port) == Some(ds[i].id) && p in ds[i].ports && PortID(ds[i].id, p.number) == port;
      DescribedPort(ds[i], port);
    }
    if ValidatePort(s, port) == Done {
      var i :| 0 <= i < |ds| && ds[i].id == DeviceOf(port).value;
      DescribedPort(ds[i], port);
    }
  }

  lemma DescribedPort(d: DeviceDesc, port: string)
    ensures port in PortIDs(ConstructDevice(d)) <==> exists p | p in d.ports :: PortID(d.id, p.number) == port
  {
    hide PortID;
    var c := ConstructDevice(d);
    if p :| p in c.ports && p.id == port {
      var i :| 0 <= i < |c.ports| && c.ports[i] == p;
      assert d.ports[i] in d.ports;
    }
    if p :| p in d.ports && PortID(d.id, p.number) == port {
      var i :| 0 <= i < |d.ports| && d.ports[i] == p;
      assert c.ports[i].id == port;
    }
  }

  lemma LinkAfterDevices(ds: seq<DeviceDesc>, l: Link)
    requires DistinctDevices(ds)
    ensures LinkFits(LoadDevices(EMPTY, ds).0, l) <==> HasPort(ds, l.src) && (External(l) || HasPort(ds, l.tgt))
  {
    LoadDevicesIff(ds);
    ValidAfterDevices(ds, l.src);
    ValidAfterDevices(ds, l.tgt);
    hide ValidatePort, HasPort, External, LoadDevices;
  }

  lemma LinksAfterDevices(t: Topology)
    requires DistinctDevices(t.devices)
    ensures var ls := DirectedLinks(t.links);
            LinksFit(LoadDevices(EMPTY, t.devices).0, ls) <==>
            && (forall l | l in ls :: HasPort(t.devices, l.src) && (External(l) || HasPort(t.devices, l.tgt)))
            && (forall i, j | 0 <= i < j < |ls| :: Compatible(ls[i], ls[j]))
  {
    forall l: Link
      ensures LinkFits(LoadDevices(EMPTY, t.devices).0, l) <==>
              HasPort(t.devices, l.src) && (External(l) || HasPort(t.devices, l.tgt))
    {
      LinkAfterDevices(t.devices, l);
    }
    hide LinkFits, HasPort, External, DirectedLinks, LoadDevices, Compatible, DistinctDevices;
  }

  lemma NicAfterLinks(t: Topology, p: string)
    requires DistinctDevices(t.devices)
    requires LinksFit(LoadDevices(EMPTY, t.devices).0, DirectedLinks(t.links))
    ensures var ls := DirectedLinks(t.links);
            var s2 := LoadLinks(LoadDevices(EMPTY, t.devices).0, ls).0;
            s2.hosts == map[] && (NicFits(s2, p) <==> HasPort(t.devices, p) && !UsedByLinks(ls, p))
  {
    hide HasPort, DirectedLinks, LoadDevices, LoadLinks, LinksFit, External, DistinctDevices;
    var s, ls := LoadDevices(EMPTY, t.devices).0, DirectedLinks(t.links);
    LoadDevicesIff(t.devices);
    LoadLinksIff(s, ls);
    ValidAfterDevices(t.devices, p);
    LinksUse(s, ls, LoadLinks(s, ls).0, p);
    hide LinksLoaded, NicFits;
  }

  lemma LinksUse(s: Sim, ls: seq<Link>, t: Sim, p: string)
    requires s == EMPTY.(devices := s.devices) && LinksLoaded(s, ls, t)
    ensures t.hosts == map[] && (NicFits(t, p) <==> ValidatePort(s, p) == Done && !UsedByLinks(ls, p))
  {
    hide External;
  }

  lemma HostsAfterLinks(t: Topology)
    requires DistinctDevices(t.devices)
    requires LinksFit(LoadDevices(EMPTY, t.devices).0, DirectedLinks(t.links))
    ensures var ls := DirectedLinks(t.links);
            HostsFit(LoadLinks(LoadDevices(EMPTY, t.devices).0, ls).0, t.hosts) <==>
            && (forall h, n | h in t.hosts && n in h.nics :: HasPort(t.devices, n.port) && !UsedByLinks(ls, n.port))
            && (forall i, j | 0 <= i < j < |t.hosts| :: HostCompatible(t.hosts[i], t.hosts[j]))
  {
    var ls := DirectedLinks(t.links);
    var s2 := LoadLinks(LoadDevices(EMPTY, t.devices).0, ls).0;
    forall p
      ensures NicFits(s2, p) <==> HasPort(t.devices, p) && !UsedByLinks(ls, p)
    {
      NicAfterLinks(t, p);
    }
    NicAfterLinks(t, "");
    hide NicFits, HasPort, UsedByLinks, HostCompatible, DirectedLinks, LoadDevices, LoadLinks, LinksFit, DistinctDevices;
  }

  lemma LoadSizes(t: Topology)
    ensures Load(EMPTY, t).1 == Done <==> WellFormed(t)
    ensures WellFormed(t) ==>
              var s := Load(EMPTY, t).0;
              && |s.devices| == |t.devices|
              && |s.links| == |DirectedLinks(t.links)|
              && |s.hosts| == |t.hosts|
  {
    var ls := DirectedLinks(t.links);
    LoadDevicesIff(t.devices);
    if DistinctDevices(t.devices) {
      var s1 := LoadDevices(EMPTY, t.devices).0;
      LinksAfterDevices(t);
      LoadLinksIff(s1, ls);
      if LinksFit(s1, ls) {
        HostsAfterLinks(t);
        LoadHostsIff(LoadLinks(s1, ls).0, t.hosts);
      }
    }
    hide HasPort, UsedByLinks, HostCompatible, Compatible, DirectedLinks, LoadDevices, LoadLinks, LoadHosts, LinksFit, HostsFit, External;
  }

  lemma DirectedIDs(ls: seq<LinkDesc>)
    ensures forall l | l in DirectedLinks(ls) :: l.id == LinkID(l.src, l.tgt)
  {
  }

  lemma LoadedStages(t: Topology)
    requires WellFormed(t)
    ensures var s1, ls := LoadDevices(EMPTY, t.devices).0, DirectedLinks(t.links);
            var s2 := LoadLinks(s1, ls).0;
            && s1.egress == map[] && s1.links == map[]
            && LinksLoaded(s1, ls, s2) && HostsLoaded(s2, t.hosts, Load(EMPTY, t).0)
  {
    var s1, ls := LoadDevices(EMPTY, t.devices).0, DirectedLinks(t.links);
    LoadDevicesIff(t.devices);
    LinksAfterDevices(t);
    LoadLinksIff(s1, ls);
    HostsAfterLinks(t);
    LoadHostsIff(LoadLinks(s1, ls).0, t.hosts);
    hide HasPort, UsedByLinks, HostCompatible, Compatible, DirectedLinks, LoadDevices, LoadLinks, LoadHosts;
    hide LinksFit, HostsFit, External, LinksLoaded, HostsLoaded;
  }

  /** The ports that a loaded topology has, and those whose egress it uses. */
  lemma LoadedPorts(t: Topology)
    requires WellFormed(t)
    ensures var s, ls := Load(EMPTY, t).0, DirectedLinks(t.links);
            && (forall p :: ValidatePort(s, p) == Done <==> HasPort(t.devices, p))
            && (forall p :: p in s.egress <==> LeftBy(ls, p) || Occupied(t.hosts, p))
            && (forall k | k in s.links :: k.src in s.egress)
  {
    var s1, s, ls := LoadDevices(EMPTY, t.devices).0, Load(EMPTY, t).0, DirectedLinks(t.links);
    LoadedStages(t);
    DirectedIDs(t.links);
    assert s.devices == s1.devices && DistinctDevices(t.devices);
    hide OnNic, DirectedLinks, LoadDevices, LoadLinks, External, WellFormed, Load, HasPort, DistinctDevices, EnteredBy;
    forall p
      ensures ValidatePort(s, p) == Done <==> HasPort(t.devices, p)
    {
      ValidAfterDevices(t.devices, p);
    }
    hide ValidatePort, Occupied;
    forall k | k in s.links
      ensures LeftBy(ls, k.src)
    {
      assert Named(ls, k);
    }
  }

  // ---- What a loaded simulation holds

  lemma {:induction false} LoadDevicesTidy(s: Sim, ds: seq<DeviceDesc>)
    requires Tidy(s)
    ensures Tidy(LoadDevices(s, ds).0)
  {
    if ds != [] {
      LoadDevicesTidy(s, ds[..|ds| - 1]);
      AddDeviceKeeps(LoadDevices(s, ds[..|ds| - 1]).0, ConstructDevice(ds[|ds| - 1]));
      hide Tidy, AddDevice;
    }
  }

  lemma {:induction false} LoadLinksTidy(s: Sim, ls: seq<Link>)
    requires Tidy(s)
    ensures var t := LoadLinks(s, ls).0;
            Tidy(t) && forall k | k in t.links :: t.links[k] in ls || (k in s.links && t.links[k] == s.links[k])
  {
    if ls != [] {
      var k, l := ls[..|ls| - 1], ls[|ls| - 1];
      assert ls == k + [l];
      LoadLinksTidy(s, k);
      AddLinkKeeps(LoadLinks(s, k).0, l);
      hide Tidy, CheckLink;
    }
  }

  lemma {:induction false} LoadHostsTidy(s: Sim, hs: seq<HostDesc>)
    requires Tidy(s)
    ensures var t := LoadHosts(s, hs).0;
            && Tidy(t) && t.links == s.links && t.devices == s.devices
            && forall k | k in t.hosts :: Constructed(hs, t.hosts[k]) || (k in s.hosts && t.hosts[k] == s.hosts[k])
  {
    if hs != [] {
      var k, h := hs[..|hs| - 1], hs[|hs| - 1];
      LoadHostsTidy(s, k);
      OneMore(hs);
      NextHost(LoadHosts(s, k).0, h);
      hide Tidy, AddHost, Constructed, ConstructHost;
    }
  }

  lemma NextHost(s: Sim, h: HostDesc)
    requires Tidy(s)
    ensures var t := AddHost(s, ConstructHost(h)).0;
            && Tidy(t) && t.links == s.links && t.devices == s.devices
            && forall k | k in t.hosts :: t.hosts[k] == ConstructHost(h) || (k in s.hosts && t.hosts[k] == s.hosts[k])
  {
    AddHostKeeps(s, ConstructHost(h));
    hide Tidy, CheckInterfaces, Occupy;
  }

  /** The host is one of those described. */
  ghost predicate Constructed(hs: seq<HostDesc>, h: Host) {
    exists d :: d in hs && ConstructHost(d) == h
  }

  lemma OneMore(hs: seq<HostDesc>)
    requires hs != []
    ensures forall c | Constructed(hs[..|hs| - 1], c) :: Constructed(hs, c)
    ensures Constructed(hs, ConstructHost(hs[|hs| - 1]))
  {
    var k := hs[..|hs| - 1];
    forall c | Constructed(k, c)
      ensures Constructed(hs, c)
    {
      var d :| d in k && ConstructHost(d) == c;
      assert d in hs;
    }
    assert hs[|hs| - 1] in hs;
    hide ConstructHost;
  }

  /** Loading keeps what every run keeps. */
  lemma LoadTidy(s: Sim, t: Topology)
    requires Tidy(s)
    ensures Tidy(Load(s, t).0)
  {
    hide Tidy, LoadDevices, LoadLinks, LoadHosts, DirectedLinks;
    LoadDevicesTidy(s, t.devices);
    LoadLinksTidy(LoadDevices(s, t.devices).0, DirectedLinks(t.links));
    if Tidy(LoadLinks(LoadDevices(s, t.devices).0, DirectedLinks(t.links)).0) {
      LoadHostsTidy(LoadLinks(LoadDevices(s, t.devices).0, DirectedLinks(t.links)).0, t.hosts);
    }
  }

  lemma EmptyTidy()
    ensures Tidy(EMPTY)
  {
  }

  ghost predicate HoldsDevices(s: Sim, ds: seq<DeviceDesc>) {
    && (forall d | d in ds :: d.id in s.devices && s.devices[d.id] == PortIDs(ConstructDevice(d)))
    && (forall k | k in s.devices :: exists d :: d in ds && d.id == k)
  }

  ghost predicate HoldsLinks(s: Sim, ls: seq<Link>) {
    && (forall l | l in ls :: l.id in s.links && s.links[l.id] == l)
    && (forall k | k in s.links :: s.links[k] in ls)
  }

  ghost predicate HoldsHosts(s: Sim, hs: seq<HostDesc>) {
    && (forall h | h in hs :: h.id in s.hosts && s.hosts[h.id] == ConstructHost(h))
    && (forall k | k in s.hosts :: Constructed(hs, s.hosts[k]))
  }

  /** The simulation holds all devices, directed links and hosts of the topology, as
      described, and no others. */
  ghost predicate Holds(s: Sim, t: Topology) {
    HoldsDevices(s, t.devices) && HoldsLinks(s, DirectedLinks(t.links)) && HoldsHosts(s, t.hosts)
  }

  lemma LoadedLinks(t: Topology)
    requires WellFormed(t)
    ensures var s, ls := Load(EMPTY, t).0, DirectedLinks(t.links);
            && Tidy(s) && HoldsLinks(s, ls)
            && (forall l | l in ls :: ValidatePort(s, l.src) == Done && (External(l) || ValidatePort(s, l.tgt) == Done))
  {
    LinkValues(t);
    LinkKeys(t);
    LinkEnds(t);
    hide Load, DirectedLinks, External, ValidatePort, Tidy, WellFormed;
    forall l | l in DirectedLinks(t.links)
      ensures Load(EMPTY, t).0.links[l.id] == l
    {
      SameLink(Load(EMPTY, t).0, t, l);
    }
  }

  lemma LinkValues(t: Topology)
    requires WellFormed(t)
    ensures var s, ls := Load(EMPTY, t).0, DirectedLinks(t.links); Tidy(s) && forall k | k in s.links :: s.links[k] in ls
  {
    hide LoadDevices, LoadLinks, LoadHosts, DirectedLinks, Tidy, Constructed, WellFormed;
    var s1, ls := LoadDevices(EMPTY, t.devices).0, DirectedLinks(t.links);
    EmptyTidy();
    LoadDevicesTidy(EMPTY, t.devices);
    LoadLinksTidy(s1, ls);
    LoadHostsTidy(LoadLinks(s1, ls).0, t.hosts);
    LoadSizes(t);
    LoadedStages(t);
    hide LinksLoaded, HostsLoaded;
  }

  lemma LinkKeys(t: Topology)
    requires WellFormed(t)
    ensures forall l | l in DirectedLinks(t.links) :: l.id in Load(EMPTY, t).0.links
  {
    hide LoadDevices, LoadLinks, Load, DirectedLinks, WellFormed, LeftBy, EnteredBy, Occupied, HostIn;
    LoadedStages(t);
    forall l | l in DirectedLinks(t.links)
      ensures Named(DirectedLinks(t.links), l.id)
    {
    }
  }

  lemma LinkEnds(t: Topology)
    requires WellFormed(t)
    ensures var s := Load(EMPTY, t).0;
            forall l | l in DirectedLinks(t.links) ::
              ValidatePort(s, l.src) == Done && (External(l) || ValidatePort(s, l.tgt) == Done)
  {
    hide Load, DirectedLinks, External, ValidatePort, HasPort, LeftBy, Occupied, UsedByLinks, Compatible, HostCompatible;
    LoadedPorts(t);
  }

  lemma SameLink(s: Sim, t: Topology, l: Link)
    requires Tidy(s) && l in DirectedLinks(t.links) && l.id in s.links && s.links[l.id] in DirectedLinks(t.links)
    ensures s.links[l.id] == l
  {
    DirectedIDs(t.links);
    hide DirectedLinks;
  }

  lemma LoadedHosts(t: Topology)
    requires WellFormed(t)
    ensures HoldsHosts(Load(EMPTY, t).0, t.hosts)
  {
    var s1, s, ls := LoadDevices(EMPTY, t.devices).0, Load(EMPTY, t).0, DirectedLinks(t.links);
    EmptyTidy();
    LoadDevicesTidy(EMPTY, t.devices);
    LoadLinksTidy(s1, ls);
    LoadHostsTidy(LoadLinks(s1, ls).0, t.hosts);
    LoadSizes(t);
    LoadedStages(t);
    NoHostsYet(t);
    hide LoadDevices, LoadLinks, LoadHosts, DirectedLinks, External, Tidy, Constructed, ConstructHost;
    hide HasPort, UsedByLinks, Compatible, HostCompatible, Named, LeftBy, EnteredBy, Occupied;
    forall h | h in t.hosts
      ensures h.id in s.hosts && s.hosts[h.id] == ConstructHost(h)
    {
      assert HostIn(t.hosts, h.id);
      SameHost(s, t, h);
    }
  }

  lemma NoHostsYet(t: Topology)
    requires WellFormed(t)
    ensures LoadLinks(LoadDevices(EMPTY, t.devices).0, DirectedLinks(t.links)).0.hosts == map[]
  {
    LoadDevicesIff(t.devices);
    LoadedStages(t);
    hide LoadDevices, LoadLinks, DirectedLinks, Load, HasPort, Compatible, HostCompatible, UsedByLinks, HostsLoaded;
  }

  lemma SameHost(s: Sim, t: Topology, h: HostDesc)
    requires Tidy(s) && h in t.hosts && h.id in s.hosts && Constructed(t.hosts, s.hosts[h.id])
    requires forall i, j | 0 <= i < j < |t.hosts| :: HostCompatible(t.hosts[i], t.hosts[j])
    ensures s.hosts[h.id] == ConstructHost(h)
  {
    var d :| d in t.hosts && ConstructHost(d) == s.hosts[h.id];
    assert d.id == h.id;
    OneOfEach(t.hosts, d, h);
    hide Agrees, NothingElse;
  }

  lemma OneOfEach(hs: seq<HostDesc>, g: HostDesc, h: HostDesc)
    requires g in hs && h in hs && g.id == h.id
    requires forall i, j | 0 <= i < j < |hs| :: HostCompatible(hs[i], hs[j])
    ensures g == h
  {
    var i :| 0 <= i < |hs| && hs[i] == g;
    var j :| 0 <= j < |hs| && hs[j] == h;
  }

  lemma LoadedDevices(t: Topology)
    requires WellFormed(t)
    ensures HoldsDevices(Load(EMPTY, t).0, t.devices)
  {
    LoadDevicesIff(t.devices);
    LoadedStages(t);
    var s1, s := LoadDevices(EMPTY, t.devices).0, Load(EMPTY, t).0;
    hide LoadDevices, LoadLinks, LoadHosts, Load, DirectedLinks, PortIDs, ConstructDevice;
    hide HasPort, UsedByLinks, Compatible, HostCompatible, Named, LeftBy, EnteredBy, Occupied;
    assert s.devices == s1.devices;
    forall k | k in s.devices
      ensures exists d :: d in t.devices && d.id == k
    {
      var i :| 0 <= i < |t.devices| && t.devices[i].id == k;
      assert t.devices[i] in t.devices;
    }
  }

  /** Exactly the well-formed topologies load into an empty simulation, which then holds each
      described device, directed link and host once, and nothing else. */
  lemma LoadIff(t: Topology)
    ensures Load(EMPTY, t).1 == Done <==> WellFormed(t)
    ensures WellFormed(t) ==>
              var s := Load(EMPTY, t).0;
              && Holds(s, t) && Tidy(s)
              && |s.devices| == |t.devices|
              && |s.links| == |DirectedLinks(t.links)|
              && |s.hosts| == |t.hosts|
  {
    hide *;
    LoadSizes(t);
    if WellFormed(t) {
      LoadedDevices(t);
      LoadedLinks(t);
      LoadedHosts(t);
      assert Holds(Load(EMPTY, t).0, t) by {
        AllHeld(Load(EMPTY, t).0, t);
      }
    }
  }

  /** Some device, link or host of the topology is behind what is held. */
  ghost predicate Accounted(s: Sim, t: Topology) {
    && (forall d | d in s.devices :: exists e :: e in t.devices && e.id == d)
    && (forall k | k in s.links :: exists l :: l in t.links && Makes(l, k))
    && (forall h | h in s.hosts :: exists g :: g in t.hosts && g.id == h)
  }

  /** A described link makes the directed link with these ends. */
  predicate Makes(l: LinkDesc, k: LinkID) {
    k == LinkID(l.src, l.tgt) || (!l.unidirectional && k == LinkID(l.tgt, l.src))
  }

  /** A link from one port to another is there. */
  predicate Leads(s: Sim, src: string, tgt: string) {
    LinkID(src, tgt) in s.links && s.links[LinkID(src, tgt)] == Link(LinkID(src, tgt), src, tgt)
  }

  predicate InterfacesAre(nics: seq<NIC>, described: seq<NicDesc>) {
    && |nics| == |described|
    && forall i | 0 <= i < |nics| ::
         && nics[i].id == described[i].port && nics[i].mac == described[i].mac
         && nics[i].ip == described[i].ipv4 && nics[i].ipv6 == described[i].ipv6
  }

  /** A loaded topology item by item: each device has just the ports described, each link leads
      from its source to its target and, if it is two-way, back, each host has its interfaces in
      order with their ports and addresses; and there is nothing else. */
  lemma LoadedAsDescribed(t: Topology)
    requires WellFormed(t)
    ensures var s := Load(EMPTY, t).0;
            && Accounted(s, t)
            && (forall d | d in t.devices ::
                  d.id in s.devices && s.devices[d.id] == set p | p in d.ports :: PortID(d.id, p.number))
            && (forall l | l in t.links :: Leads(s, l.src, l.tgt) && (!l.unidirectional ==> Leads(s, l.tgt, l.src)))
            && (forall h | h in t.hosts :: h.id in s.hosts && s.hosts[h.id].id == h.id && InterfacesAre(s.hosts[h.id].interfaces, h.nics))
  {
    hide *;
    var s := Load(EMPTY, t).0;
    LoadedDevices(t);
    LoadedLinks(t);
    LoadedHosts(t);
    DevicesAsDescribed(s, t.devices);
    LinksAsDescribed(s, t.links);
    HostsAsDescribed(s, t.hosts);
    AllAccounted(s, t);
  }

  lemma AllAccounted(s: Sim, t: Topology)
    requires forall d | d in s.devices :: exists e :: e in t.devices && e.id == d
    requires forall k | k in s.links :: exists l :: l in t.links && Makes(l, k)
    requires forall h | h in s.hosts :: exists g :: g in t.hosts && g.id == h
    ensures Accounted(s, t)
  {
    hide Makes;
  }

  lemma LinksAsDescribed(s: Sim, ls: seq<LinkDesc>)
    requires Tidy(s) && HoldsLinks(s, DirectedLinks(ls))
    ensures forall l | l in ls :: Leads(s, l.src, l.tgt) && (!l.unidirectional ==> Leads(s, l.tgt, l.src))
    ensures forall k | k in s.links :: exists l :: l in ls && Makes(l, k)
  {
    hide DirectedLinks, Tidy;
    forall l: Link
      ensures l in DirectedLinks(ls) <==>
              exists k :: k in ls && (l == ConstructLink(k) || (!k.unidirectional && l == ReverseLink(k)))
    {
      DirectedFrom(ls, l);
    }
    forall l | l in ls
      ensures Leads(s, l.src, l.tgt) && (!l.unidirectional ==> Leads(s, l.tgt, l.src))
    {
      assert ConstructLink(l) in DirectedLinks(ls);
      assert !l.unidirectional ==> ReverseLink(l) in DirectedLinks(ls);
    }
    forall k | k in s.links
      ensures exists l :: l in ls && Makes(l, k)
    {
      SameKey(s, k);
    }
  }

  lemma SameKey(s: Sim, k: LinkID)
    requires Tidy(s) && k in s.links
    ensures s.links[k].id == k
  {
    hide Agrees, NothingElse;
  }

  lemma {:induction false} DirectedFrom(ls: seq<LinkDesc>, l: Link)
    ensures l in DirectedLinks(ls) <==>
            exists k :: k in ls && (l == ConstructLink(k) || (!k.unidirectional && l == ReverseLink(k)))
  {
    if ls != [] {
      var n := |ls| - 1;
      DirectedFrom(ls[..n], l);
      assert ls == ls[..n] + [ls[n]];
      assert DirectedLinks(ls) == DirectedLinks(ls[..n]) + Directions(ls[n]);
      hide DirectedLinks;
    }
  }

  lemma DevicesAsDescribed(s: Sim, ds: seq<DeviceDesc>)
    requires HoldsDevices(s, ds)
    ensures forall d | d in s.devices :: exists e :: e in ds && e.id == d
    ensures forall d | d in ds :: d.id in s.devices && s.devices[d.id] == set p | p in d.ports :: PortID(d.id, p.number)
  {
    forall d | d in ds
      ensures PortIDs(ConstructDevice(d)) == set p | p in d.ports :: PortID(d.id, p.number)
    {
      forall x
        ensures x in PortIDs(ConstructDevice(d)) <==> x in set p | p in d.ports :: PortID(d.id, p.number)
      {
        DescribedPort(d, x);
      }
    }
    hide PortIDs, ConstructDevice, PortID;
  }

  lemma HostsAsDescribed(s: Sim, hs: seq<HostDesc>)
    requires Tidy(s) && HoldsHosts(s, hs)
    ensures forall h | h in hs :: h.id in s.hosts && s.hosts[h.id].id == h.id && InterfacesAre(s.hosts[h.id].interfaces, h.nics)
    ensures forall k | k in s.hosts :: exists g :: g in hs && g.id == k
  {
    forall k | k in s.hosts
      ensures exists g :: g in hs && g.id == k
    {
      assert Constructed(hs, s.hosts[k]);
    }
    hide Agrees, NothingElse;
  }

  lemma AllHeld(s: Sim, t: Topology)
    requires HoldsDevices(s, t.devices) && HoldsLinks(s, DirectedLinks(t.links)) && HoldsHosts(s, t.hosts)
    ensures Holds(s, t)
  {
  }

  /** The port exists and no link or interface sends from it. */
  predicate Free(s: Sim, port: string) {
    ValidatePort(s, port) == Done && port !in s.egress
  }

  /** Links start at free ports, each at one of its own. */
  predicate SourcesFree(s: Sim, ls: seq<LinkDesc>) {
    && (forall i | 0 <= i < |ls| :: Free(s, ls[i].src))
    && (forall i, j | 0 <= i < j < |ls| :: ls[i].src != ls[j].src)
  }

  lemma ForeignLinkFits(s: Sim, l: LinkDesc)
    requires HasDelimiter(l.tgt) && forall k | k in s.links :: k.src in s.egress
    ensures LinkFits(s, ConstructLink(l)) <==> Free(s, l.src)
  {
    hide ValidatePort, HasDelimiter;
  }

  lemma ForeignCompatible(k: LinkDesc, l: LinkDesc)
    requires HasDelimiter(k.tgt)
    ensures Compatible(ConstructLink(k), ConstructLink(l)) <==> k.src != l.src
  {
    hide HasDelimiter;
  }

  lemma ForeignLinksFit(s: Sim, ls: seq<LinkDesc>)
    requires forall l | l in ls :: l.unidirectional && HasDelimiter(l.tgt)
    requires forall k | k in s.links :: k.src in s.egress
    ensures LinksFit(s, DirectedLinks(ls)) <==> SourcesFree(s, ls)
  {
    var ds := DirectedLinks(ls);
    OneWay(ls);
    forall i | 0 <= i < |ls|
      ensures LinkFits(s, ds[i]) <==> Free(s, ls[i].src)
    {
      ForeignLinkFits(s, ls[i]);
    }
    forall i, j | 0 <= i < j < |ls|
      ensures Compatible(ds[i], ds[j]) <==> ls[i].src != ls[j].src
    {
      ForeignCompatible(ls[i], ls[j]);
    }
    hide DirectedLinks, HasDelimiter, Free, LinkFits, Compatible;
  }

  /** Links to foreign domains load exactly if their sources are on free ports of their own. */
  lemma ForeignLinksIff(s: Sim, ls: seq<LinkDesc>)
    requires forall l | l in ls :: l.unidirectional && HasDelimiter(l.tgt)
    requires forall k | k in s.links :: k.src in s.egress
    ensures LoadLinks(s, DirectedLinks(ls)).1 == Done <==> SourcesFree(s, ls)
    ensures SourcesFree(s, ls) ==>
              var r := LoadLinks(s, DirectedLinks(ls)).0;
              r.devices == s.devices && r.hosts == s.hosts && |r.links| == |s.links| + |ls|
  {
    ForeignLinksFit(s, ls);
    LoadLinksIff(s, DirectedLinks(ls));
    OneWay(ls);
    hide DirectedLinks, HasDelimiter, LoadLinks, LinksFit, SourcesFree;
  }

  lemma {:induction false} OneWay(ls: seq<LinkDesc>)
    requires forall l | l in ls :: l.unidirectional
    ensures |DirectedLinks(ls)| == |ls| && forall i | 0 <= i < |ls| :: DirectedLinks(ls)[i] == ConstructLink(ls[i])
  {
    if ls != [] {
      var k := |ls| - 1;
      assert ls[k] in ls && (forall l | l in ls[..k] :: l in ls) && forall i | 0 <= i < k :: ls[..k][i] == ls[i];
      OneWay(ls[..k]);
      assert DirectedLinks(ls) == DirectedLinks(ls[..k]) + [ConstructLink(ls[k])];
      hide *;
    }
  }

  // ---- Topologies that do not load

  /** Where loading devices stops: all before are loaded, and the one there is refused. */
  lemma {:induction false} DevicesStopAt(s: Sim, ds: seq<DeviceDesc>) returns (i: nat)
    requires LoadDevices(s, ds).1 != Done
    ensures i < |ds| && LoadDevices(s, ds[..i]).1 == Done
    ensures LoadDevices(s, ds) == AddDevice(LoadDevices(s, ds[..i]).0, ConstructDevice(ds[i]))
  {
    var n := |ds| - 1;
    if LoadDevices(s, ds[..n]).1 == Done {
      i := n;
    } else {
      i := DevicesStopAt(s, ds[..n]);
      assert ds[..n][..i] == ds[..i];
    }
  }

  lemma {:induction false} LinksStopAt(s: Sim, ls: seq<Link>) returns (i: nat)
    requires LoadLinks(s, ls).1 != Done
    ensures i < |ls| && LoadLinks(s, ls[..i]).1 == Done
    ensures LoadLinks(s, ls) == AddLink(LoadLinks(s, ls[..i]).0, ls[i])
  {
    hide AddLink;
    var n := |ls| - 1;
    if LoadLinks(s, ls[..n]).1 == Done {
      i := n;
    } else {
      i := LinksStopAt(s, ls[..n]);
      assert ls[..n][..i] == ls[..i];
    }
  }

  lemma {:induction false} HostsStopAt(s: Sim, hs: seq<HostDesc>) returns (i: nat)
    requires LoadHosts(s, hs).1 != Done
    ensures i < |hs| && LoadHosts(s, hs[..i]).1 == Done
    ensures LoadHosts(s, hs) == AddHost(LoadHosts(s, hs[..i]).0, ConstructHost(hs[i]))
  {
    hide AddHost, ConstructHost;
    var n := |hs| - 1;
    if LoadHosts(s, hs[..n]).1 == Done {
      i := n;
    } else {
      i := HostsStopAt(s, hs[..n]);
      assert hs[..n][..i] == hs[..i];
    }
  }

  /** A topology that does not load leaves what was loaded up to its first error, devices before
      links before hosts, and reports that error. */
  lemma LoadStopsAt(s: Sim, t: Topology)
    requires Load(s, t).1 != Done
    ensures var (s1, o1) := LoadDevices(s, t.devices);
            var (s2, o2) := LoadLinks(s1, DirectedLinks(t.links));
            || (o1 != Done && Load(s, t) == (s1, o1) && exists i: nat ::
                  i < |t.devices| && LoadDevices(s, t.devices[..i]) == (s1, Done) && AddDevice(s1, ConstructDevice(t.devices[i])) == (s1, o1))
            || (o1 == Done && o2 != Done && Load(s, t) == (s2, o2) && exists i: nat ::
                  i < |DirectedLinks(t.links)| && LoadLinks(s1, DirectedLinks(t.links)[..i]) == (s2, Done) &&
                  AddLink(s2, DirectedLinks(t.links)[i]) == (s2, o2))
            || (o1 == o2 == Done && exists i: nat ::
                  i < |t.hosts| && LoadHosts(s2, t.hosts[..i]) == (Load(s, t).0, Done) &&
                  AddHost(Load(s, t).0, ConstructHost(t.hosts[i])) == Load(s, t))
  {
    var (s1, o1) := LoadDevices(s, t.devices);
    var ls := DirectedLinks(t.links);
    if o1 != Done {
      var i := DevicesStopAt(s, t.devices);
      RefusedDevice(LoadDevices(s, t.devices[..i]).0, ConstructDevice(t.devices[i]));
    } else {
      var (s2, o2) := LoadLinks(s1, ls);
      if o2 != Done {
        var i := LinksStopAt(s1, ls);
        RefusedLink(LoadLinks(s1, ls[..i]).0, ls[i]);
      } else {
        var i := HostsStopAt(s2, t.hosts);
        RefusedHost(LoadHosts(s2, t.hosts[..i]).0, ConstructHost(t.hosts[i]));
      }
    }
    hide LoadDevices, LoadLinks, LoadHosts, DirectedLinks, AddDevice, AddLink, AddHost, ConstructDevice, ConstructHost;
  }

  lemma RefusedDevice(s: Sim, d: Device)
    requires AddDevice(s, d).1 != Done
    ensures AddDevice(s, d).0 == s
  {
  }

  lemma RefusedLink(s: Sim, l: Link)
    requires AddLink(s, l).1 != Done
    ensures AddLink(s, l).0 == s
  {
    hide CheckLink;
  }

  lemma RefusedHost(s: Sim, h: Host)
    requires AddHost(s, h).1 != Done
    ensures AddHost(s, h).0 == s
  {
    hide CheckInterfaces;
  }

  // ---- The loader itself

  method BuildDevice(dd: DeviceDesc) returns (d: Device)
    ensures d == ConstructDevice(dd)
    ensures d.id == dd.id && d.controlPort == dd.agentPort && |d.ports| == |dd.ports|
    ensures forall i | 0 <= i < |d.ports| ::
              && d.ports[i].id == PortID(dd.id, dd.ports[i].number) && d.ports[i].number == dd.ports[i].number
              && d.ports[i].internalNumber == (if dd.ports[i].sdnNumber != 0 then dd.ports[i].sdnNumber else dd.ports[i].number)
  {
    var ports: seq<Port> := [];
    for i := 0 to |dd.ports|
      invariant ports == seq(i, j requires 0 <= j < i => ConstructPort(dd.id, dd.ports[j]))
    {
      ports := ports + [ConstructPort(dd.id, dd.ports[i])];
    }
    d := Device(dd.id, dd.agentPort, ports);
  }

  method BuildHost(hd: HostDesc) returns (h: Host)
    ensures h == ConstructHost(hd)
    ensures h.id == hd.id && InterfacesAre(h.interfaces, hd.nics)
  {
    var nics: seq<NIC> := [];
    for i := 0 to |hd.nics|
      invariant nics == seq(i, j requires 0 <= j < i => ConstructNic(hd.nics[j]))
    {
      nics := nics + [ConstructNic(hd.nics[i])];
    }
    h := Host(hd.id, nics);
  }

  /** Every described device is there, as it was created. */
  ghost predicate Created(sim: Simulation.Simulation, ds: seq<DeviceDesc>)
    reads sim`devices, sim.devices.Values, set d, p | d in sim.devices && p in sim.devices[d].ports :: sim.devices[d].ports[p]
  {
    forall d | d in ds ::
      d.id in sim.devices && sim.devices[d.id].Reflects(ConstructDevice(d)) && sim.devices[d.id].Pristine()
  }

  /** Devices have port numbers and SDN numbers of their own, and no slash in their names. */
  ghost predicate AllRegular(ds: seq<DeviceDesc>) {
    forall d | d in ds :: Simulation.Regular(ConstructDevice(d))
  }

  method CreateDevice(sim: Simulation.Simulation, dd: DeviceDesc, ghost ds: seq<DeviceDesc>) returns (o: Outcome)
    requires Created(sim, ds)
    modifies sim`devices
    ensures (sim.State(), o) == AddDevice(old(sim.State()), ConstructDevice(dd))
    ensures o == Done ==> Created(sim, ds + [dd])
    ensures old(sim.InOrder()) && Simulation.Regular(ConstructDevice(dd)) ==> sim.InOrder()
  {
    var d := BuildDevice(dd);
    assert d.id == dd.id;
    hide ConstructDevice, Simulation.Regular;
    var dev;
    dev, o := sim.AddDeviceSimulator(d);
  }

  method CreateDevices(sim: Simulation.Simulation, ds: seq<DeviceDesc>) returns (o: Outcome)
    modifies sim`devices
    ensures (sim.State(), o) == LoadDevices(old(sim.State()), ds)
    ensures o == Done ==> Created(sim, ds)
    ensures old(sim.InOrder()) && AllRegular(ds) ==> sim.InOrder()
  {
    o := Done;
    for i := 0 to |ds|
      invariant o == Done && (sim.State(), o) == LoadDevices(old(sim.State()), ds[..i])
      invariant Created(sim, ds[..i]) && (old(sim.InOrder()) && AllRegular(ds) ==> sim.InOrder())
    {
      hide *;
      LoadDevicesNext(old(sim.State()), ds, i);
      o := CreateDevice(sim, ds[i], ds[..i]);
      if o != Done {
        LoadDevicesStops(old(sim.State()), ds, i + 1);
        return;
      }
    }
    assert ds[..|ds|] == ds;
  }

  lemma LoadDevicesNext(s: Sim, ds: seq<DeviceDesc>, i: nat)
    requires i < |ds|
    ensures ds[..i + 1] == ds[..i] + [ds[i]]
    ensures LoadDevices(s, ds[..i + 1]) ==
            var (t, o) := LoadDevices(s, ds[..i]); if o != Done then (t, o) else AddDevice(t, ConstructDevice(ds[i]))
  {
    assert ds[..i + 1][..i] == ds[..i];
  }

  lemma LoadDevicesStops(s: Sim, ds: seq<DeviceDesc>, i: nat)
    requires i <= |ds| && LoadDevices(s, ds[..i]).1 != Done
    ensures LoadDevices(s, ds) == LoadDevices(s, ds[..i])
    decreases |ds| - i
  {
    if i == |ds| {
      assert ds[..i] == ds;
    } else {
      assert ds[..i + 1][..i] == ds[..i];
      LoadDevicesStops(s, ds, i + 1);
    }
  }

  /** Loading one list after another is loading their concatenation. */
  lemma LoadLinksConcat(s: Sim, a: seq<Link>, b: seq<Link>)
    ensures LoadLinks(s, a + b) == var (t, o) := LoadLinks(s, a); if o != Done then (t, o) else LoadLinks(t, b)
  {
    if b == [] {
      assert a + b == a;
    } else {
      var n := |b| - 1;
      assert (a + b)[..|a + b| - 1] == a + b[..n];
      LoadLinksConcat(s, a, b[..n]);
    }
  }

  lemma DirectedPrefix(links: seq<LinkDesc>, i: nat) returns (rest: seq<Link>)
    requires i <= |links|
    ensures DirectedLinks(links) == DirectedLinks(links[..i]) + rest
    decreases |links| - i
  {
    if i == |links| {
      assert links[..i] == links;
      rest := [];
    } else {
      assert links[..i + 1][..i] == links[..i];
      var more := DirectedPrefix(links, i + 1);
      rest := Directions(links[i]) + more;
    }
  }

  lemma DirectedNext(links: seq<LinkDesc>, i: nat)
    requires i < |links|
    ensures DirectedLinks(links[..i + 1]) == DirectedLinks(links[..i]) + Directions(links[i])
  {
    assert links[..i + 1][..i] == links[..i];
  }

  method CreateLink(sim: Simulation.Simulation, ld: LinkDesc) returns (o: Outcome)
    modifies sim`links, sim`egress, sim`ingress
    ensures (sim.State(), o) == LoadLinks(old(sim.State()), Directions(ld))
    ensures old(sim.InOrder()) ==> sim.InOrder()
  {
    ghost var s, l, r := sim.State(), ConstructLink(ld), ReverseLink(ld);
    assert LoadLinks(s, []) == (s, Done) && [l][..0] == [] && [l, r][..1] == [l];
    hide AddLink;
    o := sim.AddLinkSimulator(ConstructLink(ld));
    if o == Done && !ld.unidirectional {
      o := sim.AddLinkSimulator(ReverseLink(ld));
    }
  }

  method CreateLinks(sim: Simulation.Simulation, links: seq<LinkDesc>) returns (o: Outcome)
    modifies sim`links, sim`egress, sim`ingress
    ensures (sim.State(), o) == LoadLinks(old(sim.State()), DirectedLinks(links))
    ensures old(sim.InOrder()) ==> sim.InOrder()
  {
    ghost var s := sim.State();
    assert LoadLinks(s, DirectedLinks(links[..0])) == (s, Done);
    hide *;
    o := Done;
    for i := 0 to |links|
      invariant o == Done && (sim.State(), o) == LoadLinks(s, DirectedLinks(links[..i]))
      invariant old(sim.InOrder()) ==> sim.InOrder()
    {
      DirectedNext(links, i);
      LoadLinksConcat(s, DirectedLinks(links[..i]), Directions(links[i]));
      o := CreateLink(sim, links[i]);
      if o != Done {
        ghost var rest := DirectedPrefix(links, i + 1);
        LoadLinksConcat(s, DirectedLinks(links[..i + 1]), rest);
        return;
      }
    }
    assert links[..|links|] == links;
  }

  method CreateHosts(sim: Simulation.Simulation, hs: seq<HostDesc>) returns (o: Outcome)
    modifies sim`hosts, sim`egress, sim`ingress
    ensures (sim.State(), o) == LoadHosts(old(sim.State()), hs)
    ensures old(sim.InOrder()) ==> sim.InOrder()
  {
    o := Done;
    for i := 0 to |hs|
      invariant o == Done && (sim.State(), o) == LoadHosts(old(sim.State()), hs[..i])
      invariant old(sim.InOrder()) ==> sim.InOrder()
    {
      assert hs[..i + 1][..i] == hs[..i];
      var h := BuildHost(hs[i]);
      o := sim.AddHostSimulator(h);
      if o != Done {
        LoadHostsStops(old(sim.State()), hs, i + 1);
        return;
      }
    }
    assert hs[..|hs|] == hs;
  }

  lemma LoadHostsStops(s: Sim, hs: seq<HostDesc>, i: nat)
    requires i <= |hs| && LoadHosts(s, hs[..i]).1 != Done
    ensures LoadHosts(s, hs) == LoadHosts(s, hs[..i])
    decreases |hs| - i
  {
    if i == |hs| {
      assert hs[..i] == hs;
    } else {
      assert hs[..i + 1][..i] == hs[..i];
      LoadHostsStops(s, hs, i + 1);
    }
  }

  method LoadTopology(sim: Simulation.Simulation, t: Topology) returns (o: Outcome)
    modifies sim
    ensures (sim.State(), o) == Load(old(sim.State()), t)
    ensures o == Done ==> Created(sim, t.devices)
    ensures old(sim.InOrder()) && AllRegular(t.devices) ==> sim.InOrder()
    ensures old(Tidy(sim.State())) ==> Tidy(sim.State())
  {
    if Tidy(sim.State()) {
      LoadTidy(sim.State(), t);
    }
    hide Tidy;
    hide LoadDevices, LoadLinks, LoadHosts, Created, AllRegular, Simulation.Simulation.InOrder;
    o := CreateDevices(sim, t.devices);
    if o == Done {
      o := CreateLinks(sim, t.links);
      if o == Done {
        o := CreateHosts(sim, t.hosts);
      }
    }
  }

  // ---- Clearing the simulation

  lemma HostRemoved(s: Sim, id: string)
    requires Tidy(s) && id in s.hosts
    ensures var (t, o) := RemoveHost(s, id);
            o == Done && Tidy(t) && t.hosts == s.hosts - {id}
  {
    RemoveHostKeepsTidy(s, id);
    hide Tidy, Vacate;
  }

  method HostGone(sim: Simulation.Simulation, id: string) returns (o: Outcome)
    requires Tidy(sim.State()) && id in sim.hosts
    modifies sim`hosts, sim`egress, sim`ingress
    ensures o == Done && Tidy(sim.State()) && sim.hosts == old(sim.hosts) - {id}
  {
    hide Tidy, RemoveHost, Simulation.Simulation.InOrder;
    HostRemoved(sim.State(), id);
    o := sim.RemoveHostSimulator(id);
  }

  method LinkGone(sim: Simulation.Simulation, id: LinkID) returns (o: Outcome)
    requires Tidy(sim.State()) && id in sim.links
    modifies sim`links, sim`egress, sim`ingress
    ensures o == Done && Tidy(sim.State()) && sim.links == old(sim.links) - {id}
  {
    RemoveLinkKeepsTidy(sim.State(), id);
    hide Tidy, Simulation.Simulation.InOrder;
    o := sim.RemoveLinkSimulator(id);
  }

  method DeviceGone(sim: Simulation.Simulation, id: string) returns (o: Outcome)
    requires id in sim.devices
    modifies sim`devices
    ensures o == Done && sim.devices == old(sim.devices) - {id}
    ensures sim.State() == old(sim.State()).(devices := sim.State().devices)
  {
    hide Simulation.Simulation.InOrder, Targeted;
    o := sim.RemoveDeviceSimulator(id);
  }

  method RemoveAllHosts(sim: Simulation.Simulation, order: seq<string>) returns (o: Outcome)
    requires Tidy(sim.State()) && Enumerates(order, sim.hosts.Keys)
    modifies sim
    ensures o == Done && Tidy(sim.State())
    ensures sim.State().hosts == map[] && sim.State().links == old(sim.State()).links
    ensures sim.State().devices == old(sim.State()).devices && sim.devices == old(sim.devices)
  {
    o := Done;
    for i := 0 to |order|
      invariant o == Done && Tidy(sim.State())
      invariant sim.links == old(sim.links) && sim.devices == old(sim.devices)
      invariant Enumerates(order[i..], sim.hosts.Keys)
    {
      EnumerationStep(order[i..], sim.hosts.Keys);
      assert order[i..][1..] == order[i + 1..];
      hide Tidy, Enumerates;
      o := HostGone(sim, order[i]);
    }
    assert sim.State().devices == old(sim.State()).devices;
  }

  method RemoveAllLinks(sim: Simulation.Simulation, order: seq<LinkID>) returns (o: Outcome)
    requires Tidy(sim.State()) && Enumerates(order, sim.links.Keys)
    modifies sim
    ensures o == Done && Tidy(sim.State())
    ensures sim.State().links == map[] && sim.State().hosts == old(sim.State()).hosts
    ensures sim.State().devices == old(sim.State()).devices && sim.devices == old(sim.devices)
  {
    o := Done;
    for i := 0 to |order|
      invariant o == Done && Tidy(sim.State())
      invariant sim.hosts == old(sim.hosts) && sim.devices == old(sim.devices)
      invariant Enumerates(order[i..], sim.links.Keys)
    {
      EnumerationStep(order[i..], sim.links.Keys);
      assert order[i..][1..] == order[i + 1..];
      hide Tidy, Enumerates;
      o := LinkGone(sim, order[i]);
    }
    assert sim.State().devices == old(sim.State()).devices;
  }

  method RemoveAllDevices(sim: Simulation.Simulation, order: seq<string>) returns (o: Outcome)
    requires Enumerates(order, sim.devices.Keys)
    modifies sim
    ensures o == Done && sim.State() == old(sim.State()).(devices := map[])
  {
    o := Done;
    for i := 0 to |order|
      invariant o == Done && sim.State() == old(sim.State()).(devices := sim.State().devices)
      invariant Enumerates(order[i..], sim.devices.Keys)
    {
      EnumerationStep(order[i..], sim.devices.Keys);
      assert order[i..][1..] == order[i + 1..];
      hide Enumerates;
      o := DeviceGone(sim, order[i]);
    }
  }

  lemma EnumerationStep<T>(order: seq<T>, s: set<T>)
    requires Enumerates(order, s) && order != []
    ensures order[0] in s && Enumerates(order[1..], s - {order[0]})
  {
    assert order == [order[0]] + order[1..];
    forall x | x in s - {order[0]}
      ensures x in order[1..]
    {
      assert x in order;
    }
  }

  /** Removing all hosts, then all links, then all devices, each in any order, leaves
      nothing: no inventory entry and no used port. */
  method ClearTopology(sim: Simulation.Simulation, hosts: seq<string>, links: seq<LinkID>, devices: seq<string>)
    returns (o: Outcome)
    requires Tidy(sim.State())
    requires Enumerates(hosts, sim.hosts.Keys) && Enumerates(links, sim.links.Keys)
    requires Enumerates(devices, sim.devices.Keys)
    modifies sim
    ensures o == Done && sim.State() == EMPTY
  {
    o := RemoveAllHosts(sim, hosts);
    assert sim.links == sim.State().links;
    o := RemoveAllLinks(sim, links);
    NothingUsed(sim.State());
    o := RemoveAllDevices(sim, devices);
  }
}

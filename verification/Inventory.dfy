/** The simulation inventory: device, link and host maps, and the two auxiliary
    maps that record which device ports are in use.  A state is a value here; the
    class in Simulation.dfy keeps the same state in its fields.

    The step functions follow the source check by check.  `Exact` says what the
    two auxiliary maps are for; the lemmas show when every step keeps it. */
module Inventory {
  import opened Common
  import opened Text

  /** `NewLinkID` is taken to be injective on (source, target): the pair itself. */
  datatype LinkID = LinkID(src: string, tgt: string)
  datatype Link = Link(id: LinkID, src: string, tgt: string)

  datatype NIC = NIC(id: string, mac: string, ip: string, ipv6: string)
  datatype Host = Host(id: string, interfaces: seq<NIC>)

  datatype Port = Port(id: string, number: nat, internalNumber: nat)
  datatype Device = Device(id: string, controlPort: int, ports: seq<Port>)

  /** What a used port is used for (`linkOrNIC`). */
  datatype PortUse = ByLink(link: Link) | ByNic(nic: NIC)

  datatype Sim = Sim(
    devices: map<string, set<string>>,
    links: map<LinkID, Link>,
    hosts: map<string, Host>,
    egress: map<string, PortUse>,
    ingress: map<string, PortUse>)

  const EMPTY := Sim(map[], map[], map[], map[], map[])

  /** `isExternalLink`. */
  predicate External(l: Link) {
    HasDelimiter(l.tgt)
  }

  function PortIDs(d: Device): set<string> {
    set p | p in d.ports :: p.id
  }

  /** Some interface of the host sits on the port. */
  predicate OnHost(h: Host, port: string) {
    exists n | n in h.interfaces :: n.id == port
  }

  // ---- The operations

  function ValidatePort(s: Sim, id: string): Outcome {
    match DeviceOf(id)
    case None => Invalid
    case Some(d) => if d in s.devices && id in s.devices[d] then Done else NotFound
  }

  function AddDevice(s: Sim, d: Device): (Sim, Outcome) {
    if d.id in s.devices then (s, Invalid)
    else (s.(devices := s.devices[d.id := PortIDs(d)]), Done)
  }

  function RemoveDevice(s: Sim, id: string): (Sim, Outcome) {
    if id !in s.devices then (s, NotFound)
    else (s.(devices := s.devices - {id}), Done)
  }

  /** The verdict of the checks `AddLinkSimulator` makes, in their order. */
  function CheckLink(s: Sim, l: Link): Outcome {
    var src := ValidatePort(s, l.src);
    var tgt := if External(l) then Done else ValidatePort(s, l.tgt);
    if src != Done then src
    else if tgt != Done then tgt
    else if l.src in s.egress || (!External(l) && l.tgt in s.ingress) || l.id in s.links then Invalid
    else Done
  }

  function AddLink(s: Sim, l: Link): (Sim, Outcome) {
    var o := CheckLink(s, l);
    if o != Done then (s, o)
    else (s.(links := s.links[l.id := l],
             egress := s.egress[l.src := ByLink(l)],
             ingress := if External(l) then s.ingress else s.ingress[l.tgt := ByLink(l)]), Done)
  }

  function RemoveLink(s: Sim, id: LinkID): (Sim, Outcome) {
    if id !in s.links then (s, NotFound)
    else
      var l := s.links[id];
      (s.(links := s.links - {id}, egress := s.egress - {l.src}, ingress := s.ingress - {l.tgt}), Done)
  }

  /** The verdict on a host's interfaces: that of the first one which fails. */
  function CheckInterfaces(s: Sim, nics: seq<NIC>): Outcome {
    if nics == [] then Done
    else
      var p := nics[0].id;
      var v := ValidatePort(s, p);
      if v != Done then v
      else if p in s.egress || p in s.ingress then Invalid
      else CheckInterfaces(s, nics[1..])
  }

  /** Port uses after the interfaces are entered one by one. */
  function Occupy(used: map<string, PortUse>, nics: seq<NIC>): (r: map<string, PortUse>)
    ensures forall p :: p in r <==> p in used || exists n | n in nics :: n.id == p
    ensures forall p | p in r ::
              if exists n | n in nics :: n.id == p then r[p].ByNic? && r[p].nic in nics && r[p].nic.id == p
              else r[p] == used[p]
  {
    if nics == [] then used
    else
      var k := |nics| - 1;
      assert nics == nics[..k] + [nics[k]];
      Occupy(used, nics[..k])[nics[k].id := ByNic(nics[k])]
  }

  /** Port uses once a host's ports are given up. */
  function Vacate(used: map<string, PortUse>, h: Host): map<string, PortUse> {
    map p | p in used && !OnHost(h, p) :: used[p]
  }

  function AddHost(s: Sim, h: Host): (Sim, Outcome) {
    var o := CheckInterfaces(s, h.interfaces);
    if o != Done then (s, o)
    else if h.id in s.hosts then (s, Invalid)
    else (s.(hosts := s.hosts[h.id := h],
             egress := Occupy(s.egress, h.interfaces),
             ingress := Occupy(s.ingress, h.interfaces)), Done)
  }

  function RemoveHost(s: Sim, id: string): (Sim, Outcome) {
    if id !in s.hosts then (s, NotFound)
    else
      var h := s.hosts[id];
      (s.(hosts := s.hosts - {id}, egress := Vacate(s.egress, h), ingress := Vacate(s.ingress, h)), Done)
  }

  /** `GetLinkFromPort`. */
  function LinkFromPort(s: Sim, port: string): Option<Link> {
    if port in s.egress && s.egress[port].ByLink? then Some(s.egress[port].link) else None
  }

  // ---- What the auxiliary maps must say

  /** The end of a link that one of the two maps is keyed by, and whether it is entered there. */
  function End(l: Link, out: bool): string {
    if out then l.src else l.tgt
  }

  predicate Entered(l: Link, out: bool) {
    out || !External(l)
  }

  ghost predicate Registered(hosts: map<string, Host>, n: NIC) {
    exists h :: h in hosts && n in hosts[h].interfaces
  }

  /** Every link and host is filed under its own ID and no two hosts share a port. */
  ghost predicate Filed(links: map<LinkID, Link>, hosts: map<string, Host>) {
    && (forall k | k in links :: links[k].id == k)
    && (forall h | h in hosts :: hosts[h].id == h)
    && (forall g, h, p | g in hosts && h in hosts && OnHost(hosts[g], p) && OnHost(hosts[h], p) :: g == h)
  }

  /** One map agrees with the inventories: it has an entry for the end of every link
      that is entered there, one for every interface, and nothing else. */
  ghost predicate Agrees(used: map<string, PortUse>, links: map<LinkID, Link>, hosts: map<string, Host>, out: bool) {
    LinksEntered(used, links, out) && NicsEntered(used, hosts) && NothingElse(used, links, hosts, out)
  }

  ghost predicate LinksEntered(used: map<string, PortUse>, links: map<LinkID, Link>, out: bool) {
    forall k | k in links && Entered(links[k], out) ::
      End(links[k], out) in used && used[End(links[k], out)] == ByLink(links[k])
  }

  ghost predicate NicsEntered(used: map<string, PortUse>, hosts: map<string, Host>) {
    forall h, p | h in hosts && OnHost(hosts[h], p) :: p in used && used[p].ByNic?
  }

  ghost predicate NothingElse(used: map<string, PortUse>, links: map<LinkID, Link>, hosts: map<string, Host>, out: bool) {
    forall p | p in used ::
      match used[p]
      case ByLink(l) => Entered(l, out) && End(l, out) == p && l.id in links && links[l.id] == l
      case ByNic(n) => n.id == p && Registered(hosts, n)
  }

  ghost predicate Exact(s: Sim) {
    && Filed(s.links, s.hosts)
    && Agrees(s.egress, s.links, s.hosts, true)
    && Agrees(s.ingress, s.links, s.hosts, false)
  }

  /** What every run keeps, whatever the names: the egress map is exact, and the ingress map
      has no entry that nothing accounts for. */
  ghost predicate Tidy(s: Sim) {
    && Filed(s.links, s.hosts)
    && Agrees(s.egress, s.links, s.hosts, true)
    && NothingElse(s.ingress, s.links, s.hosts, false)
  }

  function LinkEnds(s: Sim, out: bool): set<string> {
    set k | k in s.links && Entered(s.links[k], out) :: End(s.links[k], out)
  }

  function NicPorts(s: Sim): set<string> {
    set h, n | h in s.hosts && n in s.hosts[h].interfaces :: n.id
  }

  /** Used egress ports are exactly the sources of links disjointly joined with the
      ports of interfaces; used ingress ports the same for targets of internal links. */
  lemma UsedPorts(s: Sim)
    requires Exact(s)
    ensures s.egress.Keys == LinkEnds(s, true) + NicPorts(s) && LinkEnds(s, true) !! NicPorts(s)
    ensures s.ingress.Keys == LinkEnds(s, false) + NicPorts(s) && LinkEnds(s, false) !! NicPorts(s)
  {
    UsedPortsOn(s, s.egress, true);
    UsedPortsOn(s, s.ingress, false);
  }

  lemma UsedPortsOn(s: Sim, used: map<string, PortUse>, out: bool)
    requires Agrees(used, s.links, s.hosts, out)
    ensures used.Keys == LinkEnds(s, out) + NicPorts(s) && LinkEnds(s, out) !! NicPorts(s)
  {
    forall p
      ensures p in LinkEnds(s, out) <==> p in used && used[p].ByLink?
      ensures p in NicPorts(s) <==> p in used && used[p].ByNic?
    {
      if p in used && used[p].ByLink? {
        assert used[p].link.id in s.links;
      }
      if p in NicPorts(s) {
        var h, n :| h in s.hosts && n in s.hosts[h].interfaces && n.id == p;
        assert OnHost(s.hosts[h], p);
      }
    }
  }

  /** No port ID of a device or an interface contains the domain delimiter. */
  ghost predicate Plain(s: Sim) {
    && (forall d, p | d in s.devices && p in s.devices[d] :: !HasDelimiter(p))
    && (forall h, p | h in s.hosts && OnHost(s.hosts[h], p) :: !HasDelimiter(p))
  }

  // ---- Every step keeps the maps exact

  lemma CheckedInterfaces(s: Sim, nics: seq<NIC>)
    ensures CheckInterfaces(s, nics) == Done <==>
            forall n | n in nics :: ValidatePort(s, n.id) == Done && n.id !in s.egress && n.id !in s.ingress
  {
    if nics != [] {
      CheckedInterfaces(s, nics[1..]);
      assert nics == [nics[0]] + nics[1..];
    }
  }

  lemma EnterLink(used: map<string, PortUse>, links: map<LinkID, Link>, hosts: map<string, Host>, out: bool, l: Link)
    requires Agrees(used, links, hosts, out) && l.id !in links
    requires Entered(l, out) ==> End(l, out) !in used
    ensures Agrees(if Entered(l, out) then used[End(l, out) := ByLink(l)] else used, links[l.id := l], hosts, out)
  {
    hide External, Registered, OnHost;
  }

  lemma DropNothingElse(used: map<string, PortUse>, links: map<LinkID, Link>, hosts: map<string, Host>, out: bool, id: LinkID)
    requires Filed(links, hosts) && NothingElse(used, links, hosts, out) && id in links
    ensures NothingElse(used - {End(links[id], out)}, links - {id}, hosts, out)
  {
    hide External, Registered, OnHost;
  }

  lemma DropLink(used: map<string, PortUse>, links: map<LinkID, Link>, hosts: map<string, Host>, out: bool, id: LinkID)
    requires Filed(links, hosts) && Agrees(used, links, hosts, out) && id in links
    requires Entered(links[id], out) || End(links[id], out) !in used
    ensures Agrees(used - {End(links[id], out)}, links - {id}, hosts, out)
  {
    hide External, Registered, OnHost;
    var p := End(links[id], out);
    assert p in used ==> used[p] == ByLink(links[id]);
    assert LinksEntered(used - {p}, links - {id}, out);
    assert NicsEntered(used - {p}, hosts);
  }

  lemma OccupyNothingElse(used: map<string, PortUse>, links: map<LinkID, Link>, hosts: map<string, Host>, out: bool, h: Host)
    requires NothingElse(used, links, hosts, out) && h.id !in hosts
    ensures NothingElse(Occupy(used, h.interfaces), links, hosts[h.id := h], out)
  {
    hide External, OnHost;
    var r, hs := Occupy(used, h.interfaces), hosts[h.id := h];
    forall p | p in r && r[p].ByNic?
      ensures Registered(hs, r[p].nic)
    {
      if exists n | n in h.interfaces :: n.id == p {
        assert r[p].nic in hs[h.id].interfaces;
      } else {
        var g :| g in hosts && r[p].nic in hosts[g].interfaces;
        assert r[p].nic in hs[g].interfaces;
      }
    }
  }

  lemma OccupyAgrees(used: map<string, PortUse>, links: map<LinkID, Link>, hosts: map<string, Host>, out: bool, h: Host)
    requires Agrees(used, links, hosts, out)
    requires h.id !in hosts && forall n | n in h.interfaces :: n.id !in used
    ensures Agrees(Occupy(used, h.interfaces), links, hosts[h.id := h], out)
  {
    OccupyNothingElse(used, links, hosts, out, h);
    hide External, Registered, NothingElse;
    var r := Occupy(used, h.interfaces);
    assert forall p | p in used :: p in r && r[p] == used[p];
  }

  lemma VacateAgrees(used: map<string, PortUse>, links: map<LinkID, Link>, hosts: map<string, Host>, out: bool, id: string)
    requires Filed(links, hosts) && Agrees(used, links, hosts, out) && id in hosts
    ensures Agrees(Vacate(used, hosts[id]), links, hosts - {id}, out)
  {
    var r, hs := Vacate(used, hosts[id]), hosts - {id};
    forall p | p in r && r[p].ByNic?
      ensures Registered(hs, r[p].nic)
    {
      var g :| g in hosts && r[p].nic in hosts[g].interfaces;
      assert OnHost(hosts[g], p);
      assert r[p].nic in hs[g].interfaces;
    }
  }

  lemma AddLinkKeepsExact(s: Sim, l: Link)
    requires Exact(s)
    ensures Exact(AddLink(s, l).0)
  {
    if CheckLink(s, l) == Done {
      EnterLink(s.egress, s.links, s.hosts, true, l);
      EnterLink(s.ingress, s.links, s.hosts, false, l);
    }
  }

  lemma AddHostKeepsExact(s: Sim, h: Host)
    requires Exact(s)
    ensures Exact(AddHost(s, h).0)
  {
    var (t, o) := AddHost(s, h);
    if o == Done {
      CheckedInterfaces(s, h.interfaces);
      OccupyAgrees(s.egress, s.links, s.hosts, true, h);
      OccupyAgrees(s.ingress, s.links, s.hosts, false, h);
      hide Agrees, ValidatePort;
    }
  }

  lemma RemoveHostKeepsExact(s: Sim, id: string)
    requires Exact(s)
    ensures Exact(RemoveHost(s, id).0)
  {
    if id in s.hosts {
      VacateAgrees(s.egress, s.links, s.hosts, true, id);
      VacateAgrees(s.ingress, s.links, s.hosts, false, id);
      hide Agrees;
    }
  }

  /** An ingress entry that is not the target of an internal link is an interface's. */
  lemma IngressOfDelimited(s: Sim, p: string)
    requires Exact(s)
    ensures p in s.ingress && HasDelimiter(p) ==> exists h :: h in s.hosts && OnHost(s.hosts[h], p)
  {
    hide HasDelimiter;
    if p in s.ingress && s.ingress[p].ByNic? {
      var n := s.ingress[p].nic;
      var h :| h in s.hosts && n in s.hosts[h].interfaces;
      assert OnHost(s.hosts[h], p);
    }
  }

  lemma RemoveShared(s: Sim, id: LinkID, h: string)
    requires Exact(s) && id in s.links
    requires External(s.links[id]) && h in s.hosts && OnHost(s.hosts[h], s.links[id].tgt)
    ensures !Exact(RemoveLink(s, id).0)
  {
    assert s.links[id].tgt !in RemoveLink(s, id).0.ingress;
    hide HasDelimiter;
  }

  lemma RemoveUnshared(s: Sim, id: LinkID)
    requires Exact(s) && id in s.links
    requires !(External(s.links[id]) && exists h :: h in s.hosts && OnHost(s.hosts[h], s.links[id].tgt))
    ensures Exact(RemoveLink(s, id).0)
  {
    IngressOfDelimited(s, s.links[id].tgt);
    DropLink(s.egress, s.links, s.hosts, true, id);
    DropLink(s.ingress, s.links, s.hosts, false, id);
    hide HasDelimiter, Agrees;
  }

  /** Removing a link always clears the ingress entry of its target; the maps stay
      exact unless the link is external and its target is also an interface's port. */
  lemma RemoveLinkExactness(s: Sim, id: LinkID)
    requires Exact(s) && id in s.links
    ensures Exact(RemoveLink(s, id).0) <==>
            !(External(s.links[id]) && exists h :: h in s.hosts && OnHost(s.hosts[h], s.links[id].tgt))
  {
    if External(s.links[id]) && exists h :: h in s.hosts && OnHost(s.hosts[h], s.links[id].tgt) {
      var h :| h in s.hosts && OnHost(s.hosts[h], s.links[id].tgt);
      RemoveShared(s, id, h);
    } else {
      RemoveUnshared(s, id);
    }
    hide *;
  }

  datatype Op =
    | AddDev(device: Device) | RemoveDev(id: string)
    | AddLnk(link: Link) | RemoveLnk(linkId: LinkID)
    | AddHst(host: Host) | RemoveHst(hostId: string)

  function Step(s: Sim, op: Op): Sim {
    match op
    case AddDev(d) => AddDevice(s, d).0
    case RemoveDev(id) => RemoveDevice(s, id).0
    case AddLnk(l) => AddLink(s, l).0
    case RemoveLnk(id) => RemoveLink(s, id).0
    case AddHst(h) => AddHost(s, h).0
    case RemoveHst(id) => RemoveHost(s, id).0
  }

  function Run(ops: seq<Op>): Sim {
    if ops == [] then EMPTY else Step(Run(ops[..|ops| - 1]), ops[|ops| - 1])
  }

  /** Devices are added with port IDs free of the domain delimiter. */
  ghost predicate PlainOp(op: Op) {
    op.AddDev? ==> forall p | p in op.device.ports :: !HasDelimiter(p.id)
  }

  lemma AddHostKeepsPlain(s: Sim, h: Host)
    requires Plain(s)
    ensures Plain(AddHost(s, h).0)
  {
    hide HasDelimiter;
    CheckedInterfaces(s, h.interfaces);
    hide CheckInterfaces;
  }

  lemma StepKeepsExact(s: Sim, op: Op)
    requires Exact(s) && Plain(s) && PlainOp(op)
    ensures Exact(Step(s, op)) && Plain(Step(s, op))
  {
    hide HasDelimiter;
    match op
    case AddDev(d) => hide Agrees, Filed, OnHost;
    case RemoveDev(id) => hide Agrees, Filed, OnHost;
    case AddLnk(l) =>
      AddLinkKeepsExact(s, l);
      hide Agrees, Filed;
    case RemoveLnk(id) =>
      if id in s.links {
        RemoveLinkExactness(s, id);
        hide Agrees, Filed;
      }
    case AddHst(h) =>
      AddHostKeepsExact(s, h);
      AddHostKeepsPlain(s, h);
    case RemoveHst(id) =>
      RemoveHostKeepsExact(s, id);
      hide Agrees, Filed;
  }

  // ---- Links that lead somewhere

  /** Targets of internal links are registered. */
  ghost predicate TargetsRegistered(s: Sim) {
    forall k | k in s.links && !External(s.links[k]) :: ValidatePort(s, s.links[k].tgt) == Done
  }

  /** Some internal link leads to the device. */
  ghost predicate Targeted(s: Sim, id: string) {
    exists k :: k in s.links && !External(s.links[k]) && DeviceOf(s.links[k].tgt) == Some(id)
  }

  /** Removing a device leaves links that lead nowhere exactly if some led to it. */
  lemma RemoveDeviceTargets(s: Sim, id: string)
    ensures Tidy(s) ==> Tidy(RemoveDevice(s, id).0)
    ensures id in s.devices && TargetsRegistered(s) ==>
              (TargetsRegistered(RemoveDevice(s, id).0) <==> !Targeted(s, id))
  {
    hide External, DeviceOf, Filed, Agrees, NothingElse;
  }

  lemma AddDeviceKeeps(s: Sim, d: Device)
    ensures Tidy(s) ==> Tidy(AddDevice(s, d).0)
    ensures TargetsRegistered(s) ==> TargetsRegistered(AddDevice(s, d).0)
  {
    hide External, DeviceOf, Filed, Agrees, NothingElse;
  }

  lemma AddLinkKeeps(s: Sim, l: Link)
    ensures Tidy(s) ==> Tidy(AddLink(s, l).0)
    ensures TargetsRegistered(s) ==> TargetsRegistered(AddLink(s, l).0)
  {
    if Tidy(s) {
      AddLinkKeepsTidy(s, l);
    }
    hide External, DeviceOf, Tidy;
  }

  lemma AddHostKeeps(s: Sim, h: Host)
    ensures Tidy(s) ==> Tidy(AddHost(s, h).0)
    ensures TargetsRegistered(s) ==> TargetsRegistered(AddHost(s, h).0)
  {
    if Tidy(s) {
      AddHostKeepsTidy(s, h);
    }
    hide External, DeviceOf, Tidy, Occupy, CheckInterfaces;
  }

  lemma RemoveHostKeeps(s: Sim, id: string)
    ensures Tidy(s) ==> Tidy(RemoveHost(s, id).0)
    ensures TargetsRegistered(s) ==> TargetsRegistered(RemoveHost(s, id).0)
  {
    if Tidy(s) {
      RemoveHostKeepsTidy(s, id);
    }
    hide External, DeviceOf, Tidy, Vacate;
  }

  lemma RemoveLinkKeeps(s: Sim, id: LinkID)
    ensures Tidy(s) ==> Tidy(RemoveLink(s, id).0)
    ensures TargetsRegistered(s) ==> TargetsRegistered(RemoveLink(s, id).0)
  {
    if Tidy(s) {
      RemoveLinkKeepsTidy(s, id);
    }
    hide External, DeviceOf, Tidy;
  }

  lemma StepKeepsTargets(s: Sim, op: Op)
    requires TargetsRegistered(s)
    ensures TargetsRegistered(Step(s, op)) <==> !(op.RemoveDev? && op.id in s.devices && Targeted(s, op.id))
  {
    match op
    case AddDev(d) => AddDeviceKeeps(s, d);
    case RemoveDev(id) => RemoveDeviceTargets(s, id);
    case AddLnk(l) => AddLinkKeeps(s, l);
    case RemoveLnk(id) => RemoveLinkKeeps(s, id);
    case AddHst(h) => AddHostKeeps(s, h);
    case RemoveHst(id) => RemoveHostKeeps(s, id);
  }

  /** As long as no run removes a device that some internal link leads to, all links lead
      somewhere. */
  lemma {:induction false} RunTargets(ops: seq<Op>)
    requires forall i | 0 <= i < |ops| && ops[i].RemoveDev? :: !Targeted(Run(ops[..i]), ops[i].id)
    ensures TargetsRegistered(Run(ops))
  {
    if ops != [] {
      var n := |ops| - 1;
      assert forall i | 0 <= i < n :: ops[..n][..i] == ops[..i];
      RunTargets(ops[..n]);
      StepKeepsTargets(Run(ops[..n]), ops[n]);
      hide TargetsRegistered, Targeted, Step;
    }
  }

  /** In every reachable state the auxiliary maps say what the links and hosts say. */
  lemma {:induction false} ReachableExact(ops: seq<Op>)
    requires forall op | op in ops :: PlainOp(op)
    ensures Exact(Run(ops)) && Plain(Run(ops))
  {
    if ops != [] {
      ReachableExact(ops[..|ops| - 1]);
      StepKeepsExact(Run(ops[..|ops| - 1]), ops[|ops| - 1]);
    }
  }

  lemma AddLinkKeepsTidy(s: Sim, l: Link)
    requires Tidy(s)
    ensures Tidy(AddLink(s, l).0)
  {
    if CheckLink(s, l) == Done {
      EnterLink(s.egress, s.links, s.hosts, true, l);
      EnterNothingElse(s.ingress, s.links, s.hosts, false, l);
      hide Agrees, NothingElse, ValidatePort, External;
    }
  }

  lemma EnterNothingElse(used: map<string, PortUse>, links: map<LinkID, Link>, hosts: map<string, Host>, out: bool, l: Link)
    requires NothingElse(used, links, hosts, out) && l.id !in links
    ensures NothingElse(if Entered(l, out) then used[End(l, out) := ByLink(l)] else used, links[l.id := l], hosts, out)
  {
    hide External, Registered, OnHost;
  }

  lemma RemoveLinkKeepsTidy(s: Sim, id: LinkID)
    requires Tidy(s)
    ensures Tidy(RemoveLink(s, id).0)
  {
    if id in s.links {
      DropLink(s.egress, s.links, s.hosts, true, id);
      DropNothingElse(s.ingress, s.links, s.hosts, false, id);
      hide Agrees, NothingElse, External;
    }
  }

  lemma AddHostKeepsTidy(s: Sim, h: Host)
    requires Tidy(s)
    ensures Tidy(AddHost(s, h).0)
  {
    if AddHost(s, h).1 == Done {
      CheckedInterfaces(s, h.interfaces);
      OccupyAgrees(s.egress, s.links, s.hosts, true, h);
      OccupyNothingElse(s.ingress, s.links, s.hosts, false, h);
      hide NothingElse, ValidatePort, External, CheckInterfaces, Occupy;
      NewHostFiled(s, h);
      hide Agrees, Filed;
    }
  }

  lemma NewHostFiled(s: Sim, h: Host)
    requires Filed(s.links, s.hosts) && NicsEntered(s.egress, s.hosts) && h.id !in s.hosts
    requires forall n | n in h.interfaces :: n.id !in s.egress
    ensures Filed(s.links, s.hosts[h.id := h])
  {
  }

  lemma VacateNothingElse(used: map<string, PortUse>, links: map<LinkID, Link>, hosts: map<string, Host>, out: bool, id: string)
    requires NothingElse(used, links, hosts, out) && id in hosts
    ensures NothingElse(Vacate(used, hosts[id]), links, hosts - {id}, out)
  {
    var r, hs := Vacate(used, hosts[id]), hosts - {id};
    forall p | p in r && r[p].ByNic?
      ensures Registered(hs, r[p].nic)
    {
      var g :| g in hosts && r[p].nic in hosts[g].interfaces;
      assert OnHost(hosts[g], p);
      assert r[p].nic in hs[g].interfaces;
    }
    hide External;
  }

  lemma RemoveHostKeepsTidy(s: Sim, id: string)
    requires Tidy(s)
    ensures Tidy(RemoveHost(s, id).0)
  {
    if id in s.hosts {
      VacateAgrees(s.egress, s.links, s.hosts, true, id);
      VacateNothingElse(s.ingress, s.links, s.hosts, false, id);
      hide Agrees, NothingElse;
    }
  }

  lemma StepKeepsTidy(s: Sim, op: Op)
    requires Tidy(s)
    ensures Tidy(Step(s, op))
  {
    match op
    case AddDev(d) => hide Agrees, Filed, NothingElse;
    case RemoveDev(id) => hide Agrees, Filed, NothingElse;
    case AddLnk(l) => AddLinkKeepsTidy(s, l);
    case RemoveLnk(id) => RemoveLinkKeepsTidy(s, id);
    case AddHst(h) => AddHostKeepsTidy(s, h);
    case RemoveHst(id) => RemoveHostKeepsTidy(s, id);
  }

  /** In every reachable state, with whatever names, used egress ports are exactly those of
      links and interfaces, and every used ingress port is one of an internal link or an
      interface. */
  lemma {:induction false} ReachableTidy(ops: seq<Op>)
    ensures Tidy(Run(ops))
  {
    if ops == [] {
      hide External;
    } else {
      ReachableTidy(ops[..|ops| - 1]);
      StepKeepsTidy(Run(ops[..|ops| - 1]), ops[|ops| - 1]);
      hide Tidy, Step;
    }
  }

  /** With nothing registered nothing is in use. */
  lemma NothingUsed(s: Sim)
    requires Tidy(s) && s.links == map[] && s.hosts == map[]
    ensures s.egress == map[] && s.ingress == map[]
  {
  }

  /** Looking a port up finds exactly what a search through all links would. */
  lemma LookupIsSearch(s: Sim, port: string, l: Link)
    requires Tidy(s)
    ensures LinkFromPort(s, port) == Some(l) <==> (l.id in s.links && s.links[l.id] == l && l.src == port)
    ensures LinkFromPort(s, port) == None <==> forall k | k in s.links :: s.links[k].src != port
  {
  }

  lemma RunSnoc(ops: seq<Op>, op: Op)
    ensures Run(ops + [op]) == Step(Run(ops), op)
  {
    assert (ops + [op])[..|ops|] == ops;
  }

  /** An external link whose target spells an interface's port takes that interface's
      ingress entry with it when it is removed. */
  lemma DelimiterClash(s: Sim, h: Host, l: Link)
    requires Exact(s) && h.id !in s.hosts && CheckInterfaces(s, h.interfaces) == Done
    requires External(l) && OnHost(h, l.tgt)
    requires CheckLink(s, l) == Done && !OnHost(h, l.src)
    ensures !Exact(RemoveLink(AddLink(AddHost(s, h).0, l).0, l.id).0)
  {
    var s1 := AddHost(s, h).0;
    AddHostKeepsExact(s, h);
    assert l.src !in s1.egress;
    assert s1.links == s.links && s1.devices == s.devices && s1.hosts[h.id] == h;
    var s2 := AddLink(s1, l).0;
    AddLinkKeepsExact(s1, l);
    hide Exact, HasDelimiter, Occupy, DeviceOf;
    assert ValidatePort(s1, l.src) == ValidatePort(s, l.src) && CheckLink(s1, l) == Done;
    assert s2.links[l.id] == l && s2.hosts[h.id] == h;
    RemoveLinkExactness(s2, l.id);
  }

  function DelimiterRun(d: string, e: string): seq<Op> {
    var a, b := PortID(d, 1), PortID(e, 1);
    [AddDev(Device(d, 0, [Port(a, 1, 1)])), AddDev(Device(e, 0, [Port(b, 1, 1)])),
     AddHst(Host("h", [NIC(a, "", "", "")])), AddLnk(Link(LinkID(b, a), b, a)), RemoveLnk(LinkID(b, a))]
  }

  lemma RunTwoAdds(a: Device, b: Device)
    requires a.id != b.id
    ensures Run([AddDev(a)] + [AddDev(b)]) == EMPTY.(devices := map[a.id := PortIDs(a), b.id := PortIDs(b)])
  {
    hide *;
    NothingRun(AddDev(a));
    RunSnoc([], AddDev(a));
    AddsFirst(a);
    RunSnoc([AddDev(a)], AddDev(b));
    AddsSecond(a, b);
  }

  lemma NothingRun(op: Op)
    ensures Run([]) == EMPTY && [] + [op] == [op]
  {
  }

  lemma AddsFirst(a: Device)
    ensures Step(EMPTY, AddDev(a)) == EMPTY.(devices := map[a.id := PortIDs(a)])
  {
    hide PortIDs;
  }

  lemma AddsSecond(a: Device, b: Device)
    requires a.id != b.id
    ensures Step(EMPTY.(devices := map[a.id := PortIDs(a)]), AddDev(b)) ==
            EMPTY.(devices := map[a.id := PortIDs(a), b.id := PortIDs(b)])
  {
    hide PortIDs;
  }

  lemma OnePort(d: string, p: Port)
    ensures PortIDs(Device(d, 0, [p])) == {p.id}
  {
  }

  lemma FirstTwo(d: string, e: string)
    ensures DelimiterRun(d, e)[..2] ==
            [AddDev(Device(d, 0, [Port(PortID(d, 1), 1, 1)]))] + [AddDev(Device(e, 0, [Port(PortID(e, 1), 1, 1)]))]
  {
    hide PortID;
  }

  lemma TwoDevices(d: string, e: string)
    requires d != e
    ensures Run(DelimiterRun(d, e)[..2]) == EMPTY.(devices := map[d := {PortID(d, 1)}, e := {PortID(e, 1)}])
  {
    hide *;
    FirstTwo(d, e);
    OnePort(d, Port(PortID(d, 1), 1, 1));
    OnePort(e, Port(PortID(e, 1), 1, 1));
    RunTwoAdds(Device(d, 0, [Port(PortID(d, 1), 1, 1)]), Device(e, 0, [Port(PortID(e, 1), 1, 1)]));
  }

  lemma ClashOnTwoDevices(s: Sim, d: string, e: string, a: string, b: string)
    requires d != e && a != b && s == EMPTY.(devices := map[d := {a}, e := {b}])
    requires DeviceOf(a) == Some(d) && DeviceOf(b) == Some(e) && HasDelimiter(a)
    ensures var h, l := Host("h", [NIC(a, "", "", "")]), Link(LinkID(b, a), b, a);
            !Exact(RemoveLink(AddLink(AddHost(s, h).0, l).0, l.id).0)
  {
    hide HasDelimiter, DeviceOf;
    var h, l := Host("h", [NIC(a, "", "", "")]), Link(LinkID(b, a), b, a);
    assert h.interfaces[0].id == a;
    DelimiterClash(s, h, l);
  }

  lemma DelimiterRunUnrolled(d: string, e: string)
    ensures var ops := DelimiterRun(d, e);
            var h, l := ops[2].host, ops[3].link;
            Run(ops) == RemoveLink(AddLink(AddHost(Run(ops[..2]), h).0, l).0, l.id).0
  {
    var ops := DelimiterRun(d, e);
    assert ops[..3] == ops[..2] + [ops[2]] && ops[..4] == ops[..3] + [ops[3]] && ops == ops[..4] + [ops[4]];
    RunSnoc(ops[..2], ops[2]);
    RunSnoc(ops[..3], ops[3]);
    RunSnoc(ops[..4], ops[4]);
    hide Run, AddHost, AddLink, RemoveLink;
  }

  lemma DelimitedPort(d: string)
    requires '/' !in d && HasDelimiter(d)
    ensures HasDelimiter(PortID(d, 1)) && DeviceOf(PortID(d, 1)) == Some(d)
  {
    var i :| 0 <= i < |d| - 1 && d[i] == ':' && d[i + 1] == ':';
    var a := PortID(d, 1);
    assert a[i] == ':' && a[i + 1] == ':';
    SplitJoined(d, Dec(1));
  }

  /** With a delimiter inside a device's name the maps do go wrong. */
  lemma DelimiterBreaksMaps(d: string, e: string)
    requires d != e && '/' !in d && '/' !in e && HasDelimiter(d)
    ensures !Exact(Run(DelimiterRun(d, e)))
  {
    TwoDevices(d, e);
    DelimiterRunUnrolled(d, e);
    DelimitedPort(d);
    SplitJoined(e, Dec(1));
    hide Run, DeviceOf, HasDelimiter, AddHost, AddLink, RemoveLink;
    ClashOnTwoDevices(Run(DelimiterRun(d, e)[..2]), d, e, PortID(d, 1), PortID(e, 1));
  }

  /** A concrete run that does: devices `a::b` and `c`. */
  lemma DelimiterInDeviceName()
    ensures !Exact(Run(DelimiterRun("a::b", "c")))
  {
    assert "a::b"[1] == ':' && "a::b"[2] == ':';
    DelimiterBreaksMaps("a::b", "c");
  }

  // ---- Adds are undone by removes

  lemma ExternalTargetFree(s: Sim, l: Link)
    requires Exact(s) && Plain(s)
    ensures External(l) ==> l.tgt !in s.ingress
  {
    IngressOfDelimited(s, l.tgt);
    hide HasDelimiter;
  }

  /** A link add is undone by its removal in every state, exactly unless the link is external
      and its target spells an ingress port in use. */
  lemma LinkUndo(s: Sim, l: Link)
    requires AddLink(s, l).1 == Done
    ensures RemoveLink(AddLink(s, l).0, l.id) == (s, Done) <==> !(External(l) && l.tgt in s.ingress)
  {
    hide External, ValidatePort;
    EntryUndo(s.links, l.id, l);
    EntryUndo(s.egress, l.src, ByLink(l));
    EntryUndo(s.ingress, l.tgt, ByLink(l));
    assert l.tgt !in s.ingress ==> s.ingress - {l.tgt} == s.ingress;
  }

  /** Which it never does if no port ID of a device contains the delimiter. */
  lemma LinkUndoReachable(ops: seq<Op>, l: Link)
    requires (forall op | op in ops :: PlainOp(op)) && AddLink(Run(ops), l).1 == Done
    ensures RemoveLink(AddLink(Run(ops), l).0, l.id) == (Run(ops), Done)
  {
    ReachableExact(ops);
    ExternalTargetFree(Run(ops), l);
    LinkUndo(Run(ops), l);
    hide Exact, Plain, External, Run;
  }

  lemma EntryUndo<K, V>(m: map<K, V>, k: K, v: V)
    ensures k !in m ==> m[k := v] - {k} == m
  {
  }

  lemma OccupyUndo(used: map<string, PortUse>, h: Host)
    requires forall n | n in h.interfaces :: n.id !in used
    ensures Vacate(Occupy(used, h.interfaces), h) == used
  {
    var r := Occupy(used, h.interfaces);
    assert forall p | p in used :: !OnHost(h, p) && r[p] == used[p];
    assert forall p | p in r && !OnHost(h, p) :: p in used;
  }

  lemma HostUndo(s: Sim, h: Host)
    requires AddHost(s, h).1 == Done
    ensures RemoveHost(AddHost(s, h).0, h.id) == (s, Done)
  {
    CheckedInterfaces(s, h.interfaces);
    OccupyUndo(s.egress, h);
    OccupyUndo(s.ingress, h);
    hide CheckInterfaces, Occupy, Vacate;
    assert RemoveHost(AddHost(s, h).0, h.id).0.hosts == s.hosts;
  }

  lemma DeviceUndo(s: Sim, d: Device)
    requires AddDevice(s, d).1 == Done
    ensures RemoveDevice(AddDevice(s, d).0, d.id) == (s, Done)
  {
    assert RemoveDevice(AddDevice(s, d).0, d.id).0.devices == s.devices;
  }

  // ---- Exactly when an operation fails, and how

  /** The ID names a registered device that has the port. */
  predicate Known(s: Sim, port: string) {
    '/' in port && BeforeSlash(port) in s.devices && port in s.devices[BeforeSlash(port)]
  }

  /** The ID has a device part, but there is no such device, or it has no such port. */
  predicate Missing(s: Sim, port: string) {
    '/' in port && !(BeforeSlash(port) in s.devices && port in s.devices[BeforeSlash(port)])
  }

  lemma PortOutcomes(s: Sim, port: string)
    ensures ValidatePort(s, port) == Done <==> Known(s, port)
    ensures ValidatePort(s, port) == NotFound <==> Missing(s, port)
    ensures ValidatePort(s, port) == Invalid <==> '/' !in port
    ensures ValidatePort(s, port) != AlreadyExists && !(Known(s, port) && Missing(s, port))
  {
    hide BeforeSlash;
  }

  /** Devices are refused as invalid if they are known, and not found if they are not. */
  lemma DeviceOutcomes(s: Sim, d: Device)
    ensures AddDevice(s, d).1 == if d.id in s.devices then Invalid else Done
    ensures RemoveDevice(s, d.id).1 == if d.id in s.devices then Done else NotFound
    ensures d.id !in s.devices ==> AddDevice(s, d).0.devices == s.devices[d.id := set p | p in d.ports :: p.id]
  {
  }

  /** A link is not found for want of a port at its source, or else at its target; it is invalid
      if an end has no device part, is in use, or the link is known. */
  lemma LinkOutcomes(s: Sim, l: Link)
    ensures var o, inside := AddLink(s, l).1, !HasDelimiter(l.tgt);
            && (o == Done <==>
                  && Known(s, l.src) && (inside ==> Known(s, l.tgt))
                  && l.src !in s.egress && (inside ==> l.tgt !in s.ingress) && l.id !in s.links)
            && (o == NotFound <==> Missing(s, l.src) || (Known(s, l.src) && inside && Missing(s, l.tgt)))
            && (o != Done && o != NotFound ==> o == Invalid)
    ensures forall id :: RemoveLink(s, id).1 == if id in s.links then Done else NotFound
  {
    PortOutcomes(s, l.src);
    PortOutcomes(s, l.tgt);
    hide ValidatePort, Known, Missing, HasDelimiter;
  }

  /** The first `i` interfaces pass. */
  predicate PassUpTo(s: Sim, nics: seq<NIC>, i: nat)
    requires i <= |nics|
  {
    forall j | 0 <= j < i :: Known(s, nics[j].id) && nics[j].id !in s.egress && nics[j].id !in s.ingress
  }

  lemma {:induction false} InterfaceOutcomes(s: Sim, nics: seq<NIC>)
    ensures CheckInterfaces(s, nics) == Done <==> PassUpTo(s, nics, |nics|)
    ensures CheckInterfaces(s, nics) == NotFound <==>
            exists i :: 0 <= i < |nics| && PassUpTo(s, nics, i) && Missing(s, nics[i].id)
    ensures CheckInterfaces(s, nics) in {Done, NotFound, Invalid}
  {
    hide Known, Missing, ValidatePort;
    if nics != [] {
      var rest := nics[1..];
      InterfaceOutcomes(s, rest);
      PortOutcomes(s, nics[0].id);
      assert forall i | 0 <= i < |rest| :: rest[i] == nics[i + 1];
      if Known(s, nics[0].id) && nics[0].id !in s.egress && nics[0].id !in s.ingress {
        forall i: nat | i <= |rest|
          ensures PassUpTo(s, rest, i) <==> PassUpTo(s, nics, i + 1)
        {
          PassShift(s, nics, i);
        }
        if i :| 0 <= i < |rest| && PassUpTo(s, rest, i) && Missing(s, rest[i].id) {
          assert PassUpTo(s, nics, i + 1) && Missing(s, nics[i + 1].id);
        }
        if i :| 0 <= i < |nics| && PassUpTo(s, nics, i) && Missing(s, nics[i].id) {
          assert i > 0 && PassUpTo(s, rest, i - 1) && Missing(s, rest[i - 1].id);
        }
      } else {
        assert PassUpTo(s, nics, 0);
        forall i: nat | 0 < i <= |nics|
          ensures !PassUpTo(s, nics, i)
        {
          assert 0 <= 0 < i && nics[0] == nics[0];
        }
      }
    }
  }

  lemma PassShift(s: Sim, nics: seq<NIC>, i: nat)
    requires nics != [] && i < |nics|
    requires Known(s, nics[0].id) && nics[0].id !in s.egress && nics[0].id !in s.ingress
    ensures PassUpTo(s, nics[1..], i) <==> PassUpTo(s, nics, i + 1)
  {
    hide Known;
    assert forall j | 0 <= j < |nics| - 1 :: nics[1..][j] == nics[j + 1];
    if PassUpTo(s, nics[1..], i) {
      forall j | 0 <= j < i + 1
        ensures Known(s, nics[j].id) && nics[j].id !in s.egress && nics[j].id !in s.ingress
      {
        assert j > 0 ==> nics[1..][j - 1] == nics[j];
      }
    }
  }

  /** A host is not found if its first bad interface has no such port; it is invalid if that one
      has no device part or is in use, or if the host is known. */
  lemma HostOutcomes(s: Sim, h: Host)
    ensures var o, n := AddHost(s, h).1, h.interfaces;
            && (o == Done <==> PassUpTo(s, n, |n|) && h.id !in s.hosts)
            && (o == NotFound <==> exists i :: 0 <= i < |n| && PassUpTo(s, n, i) && Missing(s, n[i].id))
            && (o != Done && o != NotFound ==> o == Invalid)
    ensures forall id :: RemoveHost(s, id).1 == if id in s.hosts then Done else NotFound
  {
    InterfaceOutcomes(s, h.interfaces);
    hide CheckInterfaces, Occupy, Vacate, Missing, PassUpTo;
  }
}

/** Link discovery end to end: what a controller finds in a loaded topology, what the robot
    file says it should find, and what table entries have to do with it. */
module Discovery {
  import opened Common
  import opened Text
  import opened Schema
  import opened Inventory
  import opened Simulation
  import opened Lldp
  import Loader
  import Robot
  import Pipeline
  import PuntRules

  // ---- What is found in a loaded topology

  /** The ends of the directed links inside the domain that the loader creates. */
  function DescribedPairs(t: Topology): set<(string, string)> {
    set l | l in Loader.DirectedLinks(t.links) && !External(l) :: (l.src, l.tgt)
  }

  /** Every device has a pipeline and punts LLDP, and every port is up. */
  predicate AllUp(net: Net) {
    forall d | d in net.devices ::
      && net.devices[d].codecSet && LLDP in net.devices[d].punt
      && forall p | p in net.devices[d].ports :: net.devices[d].ports[p].enabled
  }

  lemma RegisteredUp(net: Net, port: string)
    requires Placed(net) && AllUp(net) && ValidatePort(net.inventory, port) == Done
    ensures PortUp(net, port) && Hears(net.devices[DeviceOf(port).value], port) && net.devices[DeviceOf(port).value].codecSet
  {
    var d := DeviceOf(port).value;
    assert DevicePlaced(d, net.devices[d], net.inventory.devices[d]);
    hide Placed, DeviceOf;
  }

  lemma InternalWorks(net: Net, l: Link)
    requires Placed(net) && AllUp(net) && ValidatePort(net.inventory, l.src) == Done
    requires External(l) || ValidatePort(net.inventory, l.tgt) == Done
    ensures Works(net, l) <==> !External(l)
  {
    RegisteredUp(net, l.src);
    if !External(l) {
      RegisteredUp(net, l.tgt);
    }
    hide Placed, AllUp, PortUp, Hears, External, DeviceOf;
  }

  /** In a loaded topology with everything up, discovery finds the described pairs, all of
      them and no other. */
  lemma LoadedDiscovery(t: Topology, net: Net)
    requires Loader.WellFormed(t) && net.inventory == Loader.Load(EMPTY, t).0 && Placed(net) && AllUp(net)
    ensures ShownBy(net, net.devices.Keys) == DescribedPairs(t)
  {
    Loader.LoadedLinks(t);
    DiscoveryExact(net);
    var ls := Loader.DirectedLinks(t.links);
    forall l | l in ls
      ensures Works(net, l) <==> !External(l)
    {
      InternalWorks(net, l);
    }
    hide Loader.DirectedLinks, Loader.Load, Loader.WellFormed, Works, External, ShownBy, Placed, AllUp, Tidy, ValidatePort;
    assert forall x :: x in Working(net) <==> x in DescribedPairs(t);
  }

  lemma SurveyFinds(sim: Simulation, t: Topology)
    requires Loader.WellFormed(t) && sim.State() == Loader.Load(EMPTY, t).0 && sim.InOrder() && AllUp(Snapshot(sim))
    ensures Working(Snapshot(sim)) == DescribedPairs(t)
  {
    hide Loader.WellFormed, Loader.Load, AllUp, Tidy, TargetsRegistered, Ordered, DescribedPairs, Working, ShownBy, Placed;
    InOrderPlaced(sim);
    LoadedDiscovery(t, Snapshot(sim));
    DiscoveryExact(Snapshot(sim));
  }

  /** Discovery in a simulation that has loaded a topology, once everything is up. */
  method Survey(sim: Simulation, t: Topology) returns (found: set<(string, string)>)
    requires Loader.WellFormed(t) && sim.State() == Loader.Load(EMPTY, t).0 && sim.InOrder() && AllUp(Snapshot(sim))
    ensures found == DescribedPairs(t)
  {
    hide *;
    SurveyFinds(sim, t);
    found := Discover(sim);
  }

  // ---- The robot file

  /** A pair of ports as the robot file shows it. */
  function RenderPair(x: (string, string), ds: seq<DeviceDesc>): Robot.RobotLink
    requires '/' in x.0 && '/' in x.1
  {
    Robot.Render(Link(LinkID(x.0, x.1), x.0, x.1), ds)
  }

  lemma {:induction false} ExpectedElements(ls: seq<Link>, device: string, ds: seq<DeviceDesc>, r: Robot.RobotLink)
    ensures r in Robot.Expected(ls, device, ds) <==> exists l :: l in ls && Robot.Shown(l, device) && Robot.Render(l, ds) == r
  {
    if ls != [] {
      var k, l := ls[..|ls| - 1], ls[|ls| - 1];
      ExpectedElements(k, device, ds, r);
      assert forall m :: m in ls <==> m in k || m == l;
      hide Robot.Render;
    }
  }

  /** Every described pair is a link the loader creates, between ports with a slash in their IDs. */
  ghost predicate Plainly(t: Topology) {
    && (forall l | l in Loader.DirectedLinks(t.links) :: !External(l) && l.id == LinkID(l.src, l.tgt))
    && (forall l | l in Loader.DirectedLinks(t.links) :: '/' in l.src && '/' in l.tgt)
  }

  lemma PairLink(t: Topology, x: (string, string))
    requires Plainly(t)
    ensures x in DescribedPairs(t) <==> Link(LinkID(x.0, x.1), x.0, x.1) in Loader.DirectedLinks(t.links)
  {
    hide External, Loader.DirectedLinks;
  }

  lemma ListedLink(t: Topology, device: string, r: Robot.RobotLink)
    requires Plainly(t)
    ensures forall x | x in DescribedPairs(t) :: '/' in x.0 && '/' in x.1
    ensures r in Robot.Expected(Loader.DirectedLinks(t.links), device, t.devices) <==>
            exists x :: x in DescribedPairs(t) && BeforeSlash(x.0) == device && RenderPair(x, t.devices) == r
  {
    var ls, ds := Loader.DirectedLinks(t.links), t.devices;
    ExpectedElements(ls, device, ds, r);
    hide Loader.DirectedLinks, Robot.Render, Robot.Expected, External;
    if l :| l in ls && Robot.Shown(l, device) && Robot.Render(l, ds) == r {
      assert (l.src, l.tgt) in DescribedPairs(t);
      assert RenderPair((l.src, l.tgt), ds) == r;
    }
    if x :| x in DescribedPairs(t) && BeforeSlash(x.0) == device && RenderPair(x, ds) == r {
      PairLink(t, x);
      assert Robot.Shown(Link(LinkID(x.0, x.1), x.0, x.1), device);
    }
  }

  lemma WellFormedPlainly(t: Topology)
    requires Loader.WellFormed(t) && forall l | l in Loader.DirectedLinks(t.links) :: !External(l)
    ensures Plainly(t)
  {
    Loader.LoadedLinks(t);
    Loader.DirectedIDs(t.links);
    hide Loader.DirectedLinks, External, Loader.WellFormed, Loader.Load, Tidy;
  }

  /** If no link leaves the domain and none joins the device to itself both ways, the robot
      file lists for a device exactly the pairs that discovery finds from its ports. */
  lemma FoundAsListed(t: Topology, net: Net, device: DeviceDesc)
    requires Loader.WellFormed(t) && net.inventory == Loader.Load(EMPTY, t).0 && Placed(net) && AllUp(net)
    requires device in t.devices && forall l | l in t.links :: !Robot.SelfLink(l, device.id)
    requires forall l | l in Loader.DirectedLinks(t.links) :: !External(l)
    ensures forall x | x in ShownBy(net, net.devices.Keys) :: '/' in x.0 && '/' in x.1
    ensures (set r | r in Robot.RobotLinks(t.links, device, t.devices)) ==
            set x | x in ShownBy(net, net.devices.Keys) && BeforeSlash(x.0) == device.id :: RenderPair(x, t.devices)
  {
    hide Loader.DirectedLinks, Loader.Load, Robot.RobotLinks, Robot.Expected, RenderPair, External, DescribedPairs, ShownBy;
    hide Placed, AllUp, Plainly, Robot.SelfLink;
    LoadedDiscovery(t, net);
    Robot.RobotLinksMatch(t, device);
    WellFormedPlainly(t);
    hide Loader.WellFormed;
    ListedLink(t, device.id, Robot.RobotLink("", "", ""));
    forall r
      ensures r in Robot.RobotLinks(t.links, device, t.devices) <==>
              exists x :: x in DescribedPairs(t) && BeforeSlash(x.0) == device.id && RenderPair(x, t.devices) == r
    {
      ListedLink(t, device.id, r);
    }
  }

  // ---- Punting by table entries

  /** Some table entry punts LLDP. */
  ghost predicate PuntsByEntry(h: Pipeline.History)
    requires Pipeline.AllReadable(h.view.punting, h.view.tables)
  {
    exists r :: r in Pipeline.AllRules(h.view.punting, h.view.tables) && r.ethType == LLDP
  }

  /** Devices with a pipeline have got where they are by writes, one of them to a table. */
  ghost predicate Programmed(net: Net, hs: map<string, Pipeline.History>) {
    forall d | d in net.devices && net.devices[d].codecSet ::
      && d in hs && Pipeline.Possible(hs[d]) && Pipeline.Written(hs[d])
      && Pipeline.AllReadable(hs[d].view.punting, hs[d].view.tables)
      && hs[d].view.punt == net.devices[d].punt
  }

  /** A link that works as far as its ends and the entries of its target's tables go. */
  ghost predicate WorksByEntries(net: Net, hs: map<string, Pipeline.History>, l: Link)
    requires Programmed(net, hs)
  {
    && !External(l) && PortUp(net, l.src) && PortUp(net, l.tgt)
    && var s, t := DeviceOf(l.src).value, DeviceOf(l.tgt).value;
       net.devices[s].codecSet && net.devices[t].codecSet && PuntsByEntry(hs[t])
  }

  lemma IndexByEntry(h: Pipeline.History)
    requires Pipeline.Possible(h) && Pipeline.Written(h)
    ensures Pipeline.AllReadable(h.view.punting, h.view.tables)
    ensures LLDP in h.view.punt <==> PuntsByEntry(h)
  {
    Pipeline.IndexExact(h);
    hide Pipeline.Possible, Pipeline.Written, Pipeline.AllReadable, Pipeline.AllRules;
    if LLDP in h.view.punt {
      assert Pipeline.Rule(LLDP, h.view.punt[LLDP]).ethType == LLDP;
    }
  }

  /** With index and tables agreeing, discovery finds exactly the links between ports that are
      up whose target has an entry that punts LLDP. */
  lemma DiscoveryByEntries(net: Net, hs: map<string, Pipeline.History>)
    requires Tidy(net.inventory) && TargetsRegistered(net.inventory) && Placed(net) && Programmed(net, hs)
    ensures ShownBy(net, net.devices.Keys) ==
            set k | k in net.inventory.links && WorksByEntries(net, hs, net.inventory.links[k]) ::
              (net.inventory.links[k].src, net.inventory.links[k].tgt)
  {
    DiscoveryExact(net);
    forall k | k in net.inventory.links
      ensures Works(net, net.inventory.links[k]) <==> WorksByEntries(net, hs, net.inventory.links[k])
    {
      EntriesWork(net, hs, net.inventory.links[k]);
    }
    hide ShownBy, Tidy, Placed, Works, WorksByEntries, Programmed;
  }

  lemma EntriesWork(net: Net, hs: map<string, Pipeline.History>, l: Link)
    requires Programmed(net, hs)
    ensures Works(net, l) <==> WorksByEntries(net, hs, l)
  {
    if PortUp(net, l.tgt) && net.devices[DeviceOf(l.tgt).value].codecSet {
      IndexByEntry(hs[DeviceOf(l.tgt).value]);
    }
    hide External, DeviceOf, PuntsByEntry, Pipeline.Possible, Pipeline.Written, Pipeline.AllReadable;
  }

  // ---- What a packet-in carries

  /** Devices with a pipeline had one set. */
  ghost predicate Configured(net: Net, hs: map<string, Pipeline.History>)
    requires Programmed(net, hs)
  {
    forall d | d in net.devices && net.devices[d].codecSet :: PuntRules.LastSet(hs[d]).Some?
  }

  lemma HandedIn(net: Net, info: DeviceInfo, n: nat)
    ensures var r := SentOut(net, info, n);
            r.Delivered? ==>
              && r.packet.device in net.devices && net.devices[r.packet.device].codecSet
              && LLDP in net.devices[r.packet.device].punt && r.packet.roleAgent == net.devices[r.packet.device].punt[LLDP]
  {
    hide DeviceOf, External, LinkFromPort;
  }

  /** A packet that is handed to a controller came over a link that works by the entries, into
      the port it names, and it carries the role agent of a table entry that punts LLDP on the
      device it came in on. */
  lemma PacketInByEntries(net: Net, hs: map<string, Pipeline.History>, d: string, n: nat)
    requires Tidy(net.inventory) && Placed(net) && Programmed(net, hs) && Configured(net, hs)
    requires d in net.devices && n in net.devices[d].sdnPorts && SentOut(net, net.devices[d], n).Delivered?
    ensures var packet := SentOut(net, net.devices[d], n).packet;
            && packet.device in net.devices && packet.device in hs && packet.ingressPort in net.devices[packet.device].sdnPorts
            && (exists k :: k in net.inventory.links && WorksByEntries(net, hs, net.inventory.links[k]) &&
                  net.inventory.links[k].src == net.devices[d].sdnPorts[n].id &&
                  net.inventory.links[k].tgt == net.devices[packet.device].sdnPorts[packet.ingressPort].id)
            && var h := hs[packet.device];
               PuntRules.LastSet(h).Some? &&
               PuntRules.Punted(PuntRules.LastSet(h).value, h.view.tables, h.view.punting.decode, LLDP, packet.roleAgent)
  {
    var packet := SentOut(net, net.devices[d], n).packet;
    HandedIn(net, net.devices[d], n);
    DeliveredAt(net, d, n, packet);
    var x := (net.devices[d].sdnPorts[n].id, net.devices[packet.device].sdnPorts[packet.ingressPort].id);
    assert x in Shown(net, d, n);
    ShownWorks(net, d, n, x);
    var k :| k in net.inventory.links && Works(net, net.inventory.links[k]) &&
             x == (net.inventory.links[k].src, net.inventory.links[k].tgt);
    EntriesWork(net, hs, net.inventory.links[k]);
    assert hs[packet.device].view.punt == net.devices[packet.device].punt;
    PuntRules.IndexByEntries(hs[packet.device]);
    hide *;
  }
}

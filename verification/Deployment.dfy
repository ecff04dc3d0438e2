/** Topologies generated and loaded: the simulation is then in order, whatever the recipe, its
    devices have their ports under the numbers described, and a survey finds what was described
    as soon as everything is up. */
module Deployment {
  import opened Common
  import opened Text
  import opened Schema
  import opened TopologyBuilder
  import opened Simulation
  import opened Generated
  import Inventory
  import Lldp
  import Discovery
  import Loader
  import AccessFabric
  import PlainFabric
  import SuperSpine

  /** The device has `n` ports that are up, port k under the SDN number k + 200. */
  ghost predicate PortsUp(d: DeviceSimulator, n: nat)
    reads d, d.ports.Values
  {
    && (forall k :: k in d.sdnPorts <==> 201 <= k <= 200 + n)
    && (forall p :: p in d.ports <==> exists k: nat :: 1 <= k <= n && p == PortID(d.id, k))
    && forall k: nat | 1 <= k <= n ::
         PortID(d.id, k) in d.ports && d.sdnPorts[k + 200] == d.ports[PortID(d.id, k)] &&
         d.sdnPorts[k + 200].id == PortID(d.id, k) && d.ports[PortID(d.id, k)].enabled
  }

  /** The described ports by position. */
  ghost predicate InRow(ports: seq<Inventory.Port>, id: string, n: nat) {
    |ports| == n && forall i: nat | i < n :: ports[i].id == PortID(id, i + 1) && ports[i].internalNumber == i + 201
  }

  lemma SdnKeys(s: DeviceSimulator, ports: seq<Inventory.Port>, n: nat)
    requires PortsFiled(ports, s.ports, s.sdnPorts) && InRow(ports, s.id, n)
    ensures forall k :: k in s.sdnPorts <==> 201 <= k <= 200 + n
  {
    hide PortID, Indexed, DistinctPorts;
    forall k
      ensures k in s.sdnPorts <==> 201 <= k <= 200 + n
    {
      if 201 <= k <= 200 + n {
        assert ports[k - 201] in ports;
      }
    }
  }

  lemma PortKeys(s: DeviceSimulator, ports: seq<Inventory.Port>, n: nat)
    requires PortsFiled(ports, s.ports, s.sdnPorts) && InRow(ports, s.id, n)
    ensures forall p | p in s.ports :: exists k: nat :: 1 <= k <= n && p == PortID(s.id, k)
    ensures forall k: nat | 1 <= k <= n :: PortID(s.id, k) in s.ports
  {
    hide PortID, Indexed, DistinctPorts;
    forall p | p in s.ports
      ensures exists k: nat :: 1 <= k <= n && p == PortID(s.id, k)
    {
      var q :| q in ports && q.id == p;
      var i :| 0 <= i < |ports| && ports[i] == q;
      assert p == PortID(s.id, i + 1);
    }
    forall k: nat | 1 <= k <= n
      ensures PortID(s.id, k) in s.ports
    {
      assert ports[k - 1] in ports;
    }
  }

  lemma PortAt(s: DeviceSimulator, ports: seq<Inventory.Port>, n: nat, k: nat)
    requires PortsFiled(ports, s.ports, s.sdnPorts) && DistinctPorts(ports) && InRow(ports, s.id, n) && 1 <= k <= n
    ensures k + 200 in s.sdnPorts && PortID(s.id, k) in s.ports
    ensures s.sdnPorts[k + 200] == s.ports[PortID(s.id, k)] && s.sdnPorts[k + 200].id == PortID(s.id, k)
  {
    hide PortID, DistinctPorts;
    assert ports[k - 1] in ports;
  }

  lemma ReflectedRow(s: DeviceSimulator, d: DeviceDesc, n: nat)
    requires s.Reflects(Loader.ConstructDevice(d)) && Numbered(d, n) && '/' !in d.id
    ensures var ports := Loader.ConstructDevice(d).ports;
            s.id == d.id && PortsFiled(ports, s.ports, s.sdnPorts) && DistinctPorts(ports) && InRow(ports, s.id, n)
  {
    hide PortID, DeviceOf, PortsFiled, DistinctPorts, Loader.ConstructDevice, Numbered;
    NumberedPorts(d, n);
    NumberedRegular(d, n);
  }

  lemma ReflectedPorts(s: DeviceSimulator, d: DeviceDesc, n: nat)
    requires s.Reflects(Loader.ConstructDevice(d)) && s.Pristine() && Numbered(d, n) && '/' !in d.id
    ensures s.id == d.id && PortsUp(s, n)
  {
    hide Loader.ConstructDevice, InRow, Numbered, PortsFiled, DistinctPorts, DeviceSimulator.Reflects, PortsUp;
    var ports := Loader.ConstructDevice(d).ports;
    ReflectedRow(s, d, n);
    SdnKeys(s, ports, n);
    PortKeys(s, ports, n);
    forall k: nat | 1 <= k <= n
      ensures k + 200 in s.sdnPorts && PortID(s.id, k) in s.ports
      ensures s.sdnPorts[k + 200] == s.ports[PortID(s.id, k)] && s.sdnPorts[k + 200].id == PortID(s.id, k)
    {
      PortAt(s, ports, n, k);
    }
    PortsAllUp(s, n);
  }

  lemma PortsAllUp(s: DeviceSimulator, n: nat)
    requires s.Pristine() && forall k :: k in s.sdnPorts <==> 201 <= k <= 200 + n
    requires forall p | p in s.ports :: exists k: nat :: 1 <= k <= n && p == PortID(s.id, k)
    requires forall k: nat | 1 <= k <= n ::
               PortID(s.id, k) in s.ports && s.sdnPorts[k + 200] == s.ports[PortID(s.id, k)] && s.sdnPorts[k + 200].id == PortID(s.id, k)
    ensures PortsUp(s, n)
  {
    hide PortID;
    forall p | exists k: nat :: 1 <= k <= n && p == PortID(s.id, k)
      ensures p in s.ports
    {
    }
  }

  /** All devices are there with their ports up. */
  ghost predicate Equipped(sim: Simulation, ds: seq<DeviceDesc>)
    reads sim`devices, sim.devices.Values, set d, p | d in sim.devices && p in sim.devices[d].ports :: sim.devices[d].ports[p]
  {
    forall i | 0 <= i < |ds| :: ds[i].id in sim.devices && sim.devices[ds[i].id].id == ds[i].id && PortsUp(sim.devices[ds[i].id], |ds[i].ports|)
  }

  lemma AllEquipped(sim: Simulation, ds: seq<DeviceDesc>, cs: seq<(string, nat)>, agentPort: int)
    requires Loader.Created(sim, ds) && Describe(ds, cs, agentPort) && forall c | c in cs :: '/' !in c.0
    ensures Equipped(sim, ds)
  {
    hide PortsUp, DeviceSimulator.Reflects, DeviceSimulator.Pristine, Loader.ConstructDevice;
    forall i | 0 <= i < |ds|
      ensures ds[i].id in sim.devices && sim.devices[ds[i].id].id == ds[i].id && PortsUp(sim.devices[ds[i].id], |ds[i].ports|)
    {
      assert ds[i] in ds && cs[i] in cs;
      ReflectedPorts(sim.devices[ds[i].id], ds[i], cs[i].1);
    }
  }

  /** Loads a topology whose devices are numbered regularly into a new simulation. */
  method LoadNew(t: Topology, ghost cs: seq<(string, nat)>) returns (sim: Simulation, o: Outcome)
    requires Describe(t.devices, cs, 20000) && forall c | c in cs :: '/' !in c.0
    ensures fresh(sim) && sim.InOrder() && (sim.State(), o) == Loader.Load(Inventory.EMPTY, t)
    ensures o == Done ==> Loader.WellFormed(t) && Equipped(sim, t.devices)
  {
    DescribedRegular(t.devices, cs, 20000);
    Loader.LoadIff(t);
    hide Describe, Loader.AllRegular, Loader.Load, Loader.WellFormed, Loader.Holds, Simulation.InOrder, Loader.Created, Equipped;
    sim := new Simulation();
    o := Loader.LoadTopology(sim, t);
    if o == Done {
      AllEquipped(sim, t.devices, cs, 20000);
    }
  }

  /** Generates an access fabric and loads it. */
  method DeployAccess(f: AccessFabric.Recipe) returns (t: TopologyFile, sim: Simulation, o: Outcome)
    ensures fresh(sim) && t.Value() == AccessFabric.AccessTopology(f)
    ensures o == Done <==> AccessFabric.Fits(f) && !AccessFabric.Clashes(f)
    ensures sim.InOrder() && (sim.State(), o) == Loader.Load(Inventory.EMPTY, AccessFabric.AccessTopology(f))
    ensures o == Done ==> Loader.WellFormed(AccessFabric.AccessTopology(f)) && Equipped(sim, AccessFabric.AccessTopology(f).devices)
  {
    hide *;
    t := AccessFabric.GenerateAccessFabric(f);
    AccessFabric.AccessLoads(f);
    AccessFabric.AccessMade(f);
    AccessFabric.AccessSlashless(f);
    MadeDevices(AccessFabric.AccessScript(f));
    CreationsSlashless(AccessFabric.AccessScript(f));
    sim, o := LoadNew(t.Value(), Creations(AccessFabric.AccessScript(f)));
  }

  /** Generates a plain fabric and loads it. */
  method DeployPlain(f: PlainFabric.Recipe) returns (t: TopologyFile, sim: Simulation, o: Outcome)
    ensures fresh(sim) && t.Value() == PlainFabric.PlainTopology(f)
    ensures o == Done <==> PlainFabric.Fits(f) && !PlainFabric.Clashes(f)
    ensures sim.InOrder() && (sim.State(), o) == Loader.Load(Inventory.EMPTY, PlainFabric.PlainTopology(f))
    ensures o == Done ==> Loader.WellFormed(PlainFabric.PlainTopology(f)) && Equipped(sim, PlainFabric.PlainTopology(f).devices)
  {
    hide *;
    t := PlainFabric.GeneratePlainFabric(f);
    PlainFabric.PlainLoads(f);
    PlainFabric.PlainParts(f);
    PlainFabric.PlainSlashless(f);
    MadeDevices(PlainFabric.PlainScript(f));
    CreationsSlashless(PlainFabric.PlainScript(f));
    sim, o := LoadNew(t.Value(), Creations(PlainFabric.PlainScript(f)));
  }

  /** Generates a super-spine tier and loads it. */
  method DeployTier(f: SuperSpine.Tier) returns (t: TopologyFile, sim: Simulation, o: Outcome)
    ensures fresh(sim) && t.Value() == SuperSpine.TierTopology(f)
    ensures sim.InOrder() && (sim.State(), o) == Loader.Load(Inventory.EMPTY, SuperSpine.TierTopology(f))
    ensures o == Done ==> Loader.WellFormed(SuperSpine.TierTopology(f)) && Equipped(sim, SuperSpine.TierTopology(f).devices)
  {
    hide *;
    var saved;
    t, saved := SuperSpine.GenerateSuperSpineTier(f);
    TierDevices(f);
    SupersGrown(f, f.superSpines);
    sim, o := LoadNew(t.Value(), SuperCreations(f, f.superSpines));
  }

  /** In a simulation that an access fabric was deployed to, nothing but device states having
      changed since, a survey with everything up finds the described pairs of ports. */
  method SurveyAccess(f: AccessFabric.Recipe, sim: Simulation) returns (found: set<(string, string)>)
    requires AccessFabric.Fits(f) && !AccessFabric.Clashes(f) && sim.InOrder()
    requires sim.State() == Loader.Load(Inventory.EMPTY, AccessFabric.AccessTopology(f)).0
    requires Discovery.AllUp(Lldp.Snapshot(sim))
    ensures found == Discovery.DescribedPairs(AccessFabric.AccessTopology(f))
  {
    hide *;
    AccessFabric.AccessLoads(f);
    Loader.LoadIff(AccessFabric.AccessTopology(f));
    found := Discovery.Survey(sim, AccessFabric.AccessTopology(f));
  }

  /** The same for plain fabrics. */
  method SurveyPlain(f: PlainFabric.Recipe, sim: Simulation) returns (found: set<(string, string)>)
    requires PlainFabric.Fits(f) && !PlainFabric.Clashes(f) && sim.InOrder()
    requires sim.State() == Loader.Load(Inventory.EMPTY, PlainFabric.PlainTopology(f)).0
    requires Discovery.AllUp(Lldp.Snapshot(sim))
    ensures found == Discovery.DescribedPairs(PlainFabric.PlainTopology(f))
  {
    hide *;
    PlainFabric.PlainLoads(f);
    Loader.LoadIff(PlainFabric.PlainTopology(f));
    found := Discovery.Survey(sim, PlainFabric.PlainTopology(f));
  }
}

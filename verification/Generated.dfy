/** What generated topologies describe: their devices, with agent ports and port numbers, and
    that they are fit to be loaded and discovered without any assumption. */
module Generated {
  import opened Text
  import opened Schema
  import opened TopologyBuilder
  import opened Scripts
  import opened ScriptLoads
  import Loader
  import Inventory
  import Simulation
  import AccessFabric
  import PlainFabric
  import SuperSpine

  // ---- Devices

  /** The devices that a script creates, in order, with their numbers of ports. */
  function Creations(s: Script): seq<(string, nat)> {
    match s
    case Do(Switch(id, n, _)) => [(id, n)]
    case Then(x, y) => Creations(x) + Creations(y)
    case _ => []
  }

  /** The device has as many ports as given, numbered from 1, their SDN numbers from 201. */
  predicate Numbered(d: DeviceDesc, n: nat) {
    |d.ports| == n && forall k | 0 <= k < n :: d.ports[k].number == k + 1 && d.ports[k].sdnNumber == k + 201
  }

  /** The devices described are those created, with agent ports counted up from a number. */
  predicate Describe(ds: seq<DeviceDesc>, cs: seq<(string, nat)>, agentPort: int) {
    && |ds| == |cs|
    && forall i | 0 <= i < |ds| :: ds[i].id == cs[i].0 && ds[i].agentPort == agentPort + i && Numbered(ds[i], cs[i].1)
  }

  lemma DescribeBoth(ds: seq<DeviceDesc>, cs: seq<(string, nat)>, es: seq<DeviceDesc>, fs: seq<(string, nat)>, agentPort: int)
    requires Describe(ds, cs, agentPort) && Describe(es, fs, agentPort + |ds|)
    ensures Describe(ds + es, cs + fs, agentPort)
  {
    hide Numbered;
  }

  /** What the devices of a build have become. */
  ghost predicate DevicesGrown(b: Build, c: Build, cs: seq<(string, nat)>) {
    && c.agentPort == b.agentPort + |cs| && b.topology.devices <= c.topology.devices
    && Describe(c.topology.devices[|b.topology.devices|..], cs, b.agentPort + 20000)
  }

  lemma StepDevices(b: Build, t: Step)
    ensures DevicesGrown(b, Apply(b, t), Creations(Do(t)))
  {
    hide Successor, MakeNic;
    var ds, es := b.topology.devices, Apply(b, t).topology.devices;
    if t.Switch? {
      assert es[|ds|..] == [es[|ds|]];
    } else {
      assert es[|ds|..] == [];
    }
  }

  lemma GrownBoth(b: Build, c: Build, d: Build, cs: seq<(string, nat)>, fs: seq<(string, nat)>)
    requires DevicesGrown(b, c, cs) && DevicesGrown(c, d, fs)
    ensures DevicesGrown(b, d, cs + fs)
  {
    hide Numbered;
    var x, y, z := b.topology.devices, c.topology.devices, d.topology.devices;
    DescribeBoth(y[|x|..], cs, z[|y|..], fs, b.agentPort + 20000);
    assert z[|x|..] == y[|x|..] + z[|y|..];
  }

  lemma {:induction false} ScriptDevices(b: Build, s: Script)
    ensures DevicesGrown(b, Run(b, s), Creations(s))
    decreases s
  {
    hide DevicesGrown;
    match s
    case Skip => NoneGrown(b);
    case Do(t) => StepDevices(b, t);
    case Then(x, y) =>
      ScriptDevices(b, x);
      ScriptDevices(Run(b, x), y);
      GrownBoth(b, Run(b, x), Run(b, s), Creations(x), Creations(y));
  }

  lemma NoneGrown(b: Build)
    ensures DevicesGrown(b, b, [])
  {
    assert b.topology.devices[|b.topology.devices|..] == [];
  }

  /** The devices of any generated topology: agent ports are 20000, 20001, ... in the order of
      creation, and port k has SDN number k + 200. */
  lemma MadeDevices(s: Script)
    ensures Describe(Made(s).devices, Creations(s), 20000)
  {
    ScriptDevices(START, s);
    assert START.topology.devices == [];
    assert Made(s).devices[0..] == Made(s).devices;
    hide Run, Describe;
  }

  lemma CreationsSlashless(s: Script)
    requires Slashless(s)
    ensures forall c | c in Creations(s) :: '/' !in c.0
  {
  }

  /** What the loader makes of ports that are numbered so. */
  lemma NumberedPorts(d: DeviceDesc, n: nat)
    requires Numbered(d, n)
    ensures var c := Loader.ConstructDevice(d);
            && c.id == d.id && |c.ports| == n
            && forall i: nat | i < n :: c.ports[i] == Inventory.Port(PortID(d.id, i + 1), i + 1, i + 201)
  {
    hide PortID;
  }

  /** They are told apart, if the device has no slash in its name. */
  lemma NumberedRegular(d: DeviceDesc, n: nat)
    requires Numbered(d, n) && '/' !in d.id
    ensures Simulation.Regular(Loader.ConstructDevice(d))
  {
    hide PortID, DeviceOf, Loader.ConstructDevice, Numbered;
    var c := Loader.ConstructDevice(d);
    NumberedPorts(d, n);
    forall p | p in c.ports
      ensures DeviceOf(p.id) == Some(d.id)
    {
      var i :| 0 <= i < |c.ports| && c.ports[i] == p;
      PortOn(d.id, i + 1);
    }
    forall i, j | 0 <= i < j < |c.ports|
      ensures c.ports[i].id != c.ports[j].id && c.ports[i].internalNumber != c.ports[j].internalNumber
    {
      SamePort(d.id, i + 1, d.id, j + 1);
    }
  }

  lemma DescribedRegular(ds: seq<DeviceDesc>, cs: seq<(string, nat)>, agentPort: int)
    requires Describe(ds, cs, agentPort) && forall c | c in cs :: '/' !in c.0
    ensures Loader.AllRegular(ds)
  {
    forall d | d in ds
      ensures Simulation.Regular(Loader.ConstructDevice(d))
    {
      var i :| 0 <= i < |ds| && ds[i] == d;
      assert cs[i] in cs;
      NumberedRegular(d, cs[i].1);
    }
    hide Simulation.Regular;
  }

  /** The devices of a topology that a script without slashes makes are fit to be loaded. */
  lemma MadeRegular(s: Script)
    requires Slashless(s)
    ensures Loader.AllRegular(Made(s).devices)
  {
    hide *;
    MadeDevices(s);
    CreationsSlashless(s);
    DescribedRegular(Made(s).devices, Creations(s), 20000);
  }

  lemma AccessRegular(f: AccessFabric.Recipe)
    ensures Loader.AllRegular(AccessFabric.AccessTopology(f).devices)
  {
    hide *;
    AccessFabric.AccessMade(f);
    AccessFabric.AccessSlashless(f);
    MadeRegular(AccessFabric.AccessScript(f));
  }

  lemma PlainRegular(f: PlainFabric.Recipe)
    ensures Loader.AllRegular(PlainFabric.PlainTopology(f).devices)
  {
    hide *;
    PlainFabric.PlainParts(f);
    PlainFabric.PlainSlashless(f);
    MadeRegular(PlainFabric.PlainScript(f));
  }

  // ---- The super-spine tier

  function SuperCreations(f: SuperSpine.Tier, n: nat): seq<(string, nat)> {
    if n == 0 then [] else SuperCreations(f, n - 1) + [(SuperSpine.SuperName(n), f.portCount)]
  }

  lemma {:induction false} SupersGrown(f: SuperSpine.Tier, n: nat)
    ensures DevicesGrown(START, SuperSpine.Supers(f, n), SuperCreations(f, n))
    ensures forall c | c in SuperCreations(f, n) :: '/' !in c.0
  {
    hide DevicesGrown, SuperSpine.SuperName, Apply;
    if n == 0 {
      NoneGrown(START);
    } else {
      var t := Switch(SuperSpine.SuperName(n), f.portCount, None);
      SupersGrown(f, n - 1);
      StepDevices(SuperSpine.Supers(f, n - 1), t);
      GrownBoth(START, SuperSpine.Supers(f, n - 1), SuperSpine.Supers(f, n), SuperCreations(f, n - 1), Creations(Do(t)));
      SuperSpine.NamesDiffer(n, n);
    }
  }

  /** The same for the devices of a super-spine tier; the addenda of its pods have none. */
  lemma TierDevices(f: SuperSpine.Tier)
    ensures Describe(SuperSpine.TierTopology(f).devices, SuperCreations(f, f.superSpines), 20000)
    ensures Loader.AllRegular(SuperSpine.TierTopology(f).devices)
    ensures forall pod: nat | pod < |f.podDomains| :: SuperSpine.Addendum(f, pod).devices == []
  {
    SupersGrown(f, f.superSpines);
    SuperSpine.PodsTopology(f, |f.podDomains|);
    var ds := SuperSpine.Supers(f, f.superSpines).topology.devices;
    hide SuperSpine.Supers, SuperSpine.Pods, SuperSpine.TierUp, SuperCreations, Describe, Loader.AllRegular;
    assert START.topology.devices == [] && ds[0..] == ds;
    assert SuperSpine.TierTopology(f).devices == ds;
    DescribedRegular(ds, SuperCreations(f, f.superSpines), 20000);
  }
}

/** Exactly when the topology that a script makes can be loaded: a question about how
    often ports are used, answered by counting how many ports each device must give out. */
module ScriptLoads {
  import opened Common
  import opened Text
  import opened Schema
  import opened TopologyBuilder
  import opened Scripts
  import opened Loader
  import Inventory

  // ---- Bidirectional topologies load exactly if no port is used twice

  /** All links run both ways and stay inside the domain. */
  ghost predicate TwoWay(ls: seq<LinkDesc>) {
    forall l | l in ls :: !l.unidirectional && !HasDelimiter(l.src) && !HasDelimiter(l.tgt)
  }

  predicate TgtIn(ls: seq<Inventory.Link>, x: string) {
    exists k | k in ls :: k.tgt == x
  }

  /** Links filed under their ends, with targets inside the domain. */
  ghost predicate Internal(ls: seq<Inventory.Link>) {
    forall k | k in ls :: k.id == Inventory.LinkID(k.src, k.tgt) && !Inventory.External(k)
  }

  lemma EndsSnoc(ls: seq<Inventory.Link>, f: Inventory.Link, r: Inventory.Link, x: string)
    ensures LeftBy(ls + [f, r], x) <==> LeftBy(ls, x) || f.src == x || r.src == x
    ensures TgtIn(ls + [f, r], x) <==> TgtIn(ls, x) || f.tgt == x || r.tgt == x
  {
    var ms := ls + [f, r];
    assert forall k :: k in ms <==> k in ls || k == f || k == r;
    if k :| k in ls && k.src == x { assert k in ms; }
    if k :| k in ls && k.tgt == x { assert k in ms; }
    assert f in ms && r in ms;
  }

  /** Directed links start, and end, exactly at the ports that link descriptions use. */
  lemma {:induction false} DirectedEnds(ls: seq<LinkDesc>, x: string)
    requires TwoWay(ls)
    ensures LinkUses(ls, x) > 0 <==> LeftBy(DirectedLinks(ls), x)
    ensures LinkUses(ls, x) > 0 <==> TgtIn(DirectedLinks(ls), x)
  {
    if ls != [] {
      var n := |ls| - 1;
      assert ls[n] in ls;
      DirectedEnds(ls[..n], x);
      EndsSnoc(DirectedLinks(ls[..n]), ConstructLink(ls[n]), ReverseLink(ls[n]), x);
      hide HasDelimiter, LeftBy, TgtIn;
    }
  }

  lemma DirectedInternal(ls: seq<LinkDesc>)
    requires TwoWay(ls)
    ensures Internal(DirectedLinks(ls))
  {
    if ls != [] {
      var n := |ls| - 1;
      assert ls[n] in ls;
      DirectedInternal(ls[..n]);
      hide HasDelimiter;
      assert DirectedLinks(ls) == DirectedLinks(ls[..n]) + [ConstructLink(ls[n]), ReverseLink(ls[n])];
    }
  }

  ghost predicate AllCompatible(ls: seq<Inventory.Link>) {
    forall i, j | 0 <= i < j < |ls| :: Compatible(ls[i], ls[j])
  }

  ghost predicate CompatibleWith(ls: seq<Inventory.Link>, l: Inventory.Link) {
    forall k | k in ls :: Compatible(k, l)
  }

  lemma CompatibleSnoc(ls: seq<Inventory.Link>, f: Inventory.Link, r: Inventory.Link)
    ensures AllCompatible(ls + [f, r]) <==>
            AllCompatible(ls) && Compatible(f, r) && CompatibleWith(ls, f) && CompatibleWith(ls, r)
  {
    hide Compatible;
    var ms := ls + [f, r];
    assert ms[|ls|] == f && ms[|ls| + 1] == r && forall i | 0 <= i < |ls| :: ms[i] == ls[i];
  }

  lemma CompatibleEnds(ls: seq<Inventory.Link>, l: Inventory.Link)
    requires Internal(ls) && Internal([l])
    ensures CompatibleWith(ls, l) <==> !LeftBy(ls, l.src) && !TgtIn(ls, l.tgt)
  {
    assert l in [l];
    hide Inventory.External;
  }

  ghost predicate LinksOnceEach(ls: seq<LinkDesc>) {
    forall x :: LinkUses(ls, x) <= 1
  }

  lemma LinksOnceSnoc(k: seq<LinkDesc>, l: LinkDesc)
    ensures LinksOnceEach(k + [l]) <==>
            LinksOnceEach(k) && LinkUses(k, l.src) == 0 && LinkUses(k, l.tgt) == 0 && l.src != l.tgt
  {
    forall x
      ensures LinkUses(k + [l], x) == LinkUses(k, x) + One(l.src == x) + One(l.tgt == x)
    {
      UsesSnoc(k, l, x);
    }
    hide LinkUses;
    if LinksOnceEach(k + [l]) {
      assert LinkUses(k + [l], l.src) <= 1 && LinkUses(k + [l], l.tgt) <= 1;
      assert forall x :: LinkUses(k, x) <= LinkUses(k + [l], x);
    }
  }

  lemma {:induction false} LinksOnce(ls: seq<LinkDesc>)
    requires TwoWay(ls)
    ensures AllCompatible(DirectedLinks(ls)) <==> LinksOnceEach(ls)
  {
    if ls != [] {
      var k, l := ls[..|ls| - 1], ls[|ls| - 1];
      var f, r := ConstructLink(l), ReverseLink(l);
      assert ls == k + [l] && l in ls;
      LinksOnce(k);
      LinksOnceSnoc(k, l);
      CompatibleSnoc(DirectedLinks(k), f, r);
      DirectedInternal(k);
      DirectedEnds(k, l.src);
      DirectedEnds(k, l.tgt);
      assert Internal([f]) && Internal([r]);
      CompatibleEnds(DirectedLinks(k), f);
      CompatibleEnds(DirectedLinks(k), r);
      assert Compatible(f, r) <==> l.src != l.tgt;
      assert DirectedLinks(ls) == DirectedLinks(k) + [f, r];
      hide *;
    }
  }

  lemma OnNicUses(ns: seq<NicDesc>, x: string)
    ensures (exists n | n in ns :: n.port == x) <==> NicUses(ns, x) > 0
  {
    if ns != [] {
      var m := |ns| - 1;
      OnNicUses(ns[..m], x);
      assert forall n :: n in ns <==> n in ns[..m] || n == ns[m];
    }
  }

  /** No host has two interfaces on one port. */
  ghost predicate NicsOnce(hs: seq<HostDesc>) {
    forall h, x | h in hs :: NicUses(h.nics, x) <= 1
  }

  ghost predicate DistinctHosts(hs: seq<HostDesc>) {
    forall i, j | 0 <= i < j < |hs| :: hs[i].id != hs[j].id
  }

  ghost predicate HostsApart(hs: seq<HostDesc>) {
    forall i, j | 0 <= i < j < |hs| :: HostCompatible(hs[i], hs[j])
  }

  ghost predicate HostsOnceEach(hs: seq<HostDesc>) {
    forall x :: HostUses(hs, x) <= 1
  }

  ghost predicate Apart(g: seq<HostDesc>, h: HostDesc) {
    forall x :: HostUses(g, x) == 0 || NicUses(h.nics, x) == 0
  }

  ghost predicate NewName(g: seq<HostDesc>, h: HostDesc) {
    forall k | k in g :: k.id != h.id
  }

  lemma HostUsesSome(hs: seq<HostDesc>, x: string)
    ensures HostUses(hs, x) > 0 <==> Occupied(hs, x)
  {
    if hs != [] {
      var g, h := hs[..|hs| - 1], hs[|hs| - 1];
      HostUsesSome(g, x);
      OnNicUses(h.nics, x);
      assert forall k :: k in hs <==> k in g || k == h;
      assert NicUses(h.nics, x) > 0 <==> OnNic(h, x);
      hide OnNic, NicUses;
      if Occupied(g, x) {
        var k :| k in g && OnNic(k, x);
        assert k in hs;
      }
    }
  }

  lemma HostsApartSnoc(g: seq<HostDesc>, h: HostDesc)
    ensures HostsApart(g + [h]) <==> HostsApart(g) && forall k | k in g :: HostCompatible(k, h)
    ensures DistinctHosts(g + [h]) <==> DistinctHosts(g) && NewName(g, h)
  {
    hide HostCompatible;
    var hs := g + [h];
    assert hs[|g|] == h && forall i | 0 <= i < |g| :: hs[i] == g[i];
  }

  lemma ApartFromAll(g: seq<HostDesc>, h: HostDesc)
    ensures (forall k | k in g :: HostCompatible(k, h)) <==> NewName(g, h) && Apart(g, h)
  {
    forall x
      ensures HostUses(g, x) > 0 <==> Occupied(g, x)
      ensures NicUses(h.nics, x) > 0 <==> OnNic(h, x)
    {
      HostUsesSome(g, x);
      OnNicUses(h.nics, x);
    }
    hide HostUses, NicUses;
    if Apart(g, h) {
      forall k, n | k in g && n in h.nics
        ensures !OnNic(k, n.port)
      {
        assert OnNic(h, n.port) && NicUses(h.nics, n.port) > 0;
        assert HostUses(g, n.port) == 0;
      }
    }
  }

  lemma HostsOnceSnoc(g: seq<HostDesc>, h: HostDesc)
    requires forall x :: NicUses(h.nics, x) <= 1
    ensures HostsOnceEach(g + [h]) <==> HostsOnceEach(g) && Apart(g, h)
  {
    forall x
      ensures HostUses(g + [h], x) == HostUses(g, x) + NicUses(h.nics, x)
    {
      HostUsesSnoc(g, h, x);
    }
    hide HostUses, NicUses;
    if HostsOnceEach(g + [h]) {
      assert forall x :: HostUses(g, x) + NicUses(h.nics, x) == HostUses(g + [h], x) <= 1;
    }
  }

  lemma {:induction false} HostsOnce(hs: seq<HostDesc>)
    requires NicsOnce(hs)
    ensures HostsApart(hs) <==> DistinctHosts(hs) && HostsOnceEach(hs)
  {
    if hs != [] {
      var g, h := hs[..|hs| - 1], hs[|hs| - 1];
      assert hs == g + [h] && h in hs && forall k | k in g :: k in hs;
      HostsOnce(g);
      HostsApartSnoc(g, h);
      ApartFromAll(g, h);
      HostsOnceSnoc(g, h);
      hide *;
    }
  }

  /** Every port in use exists. */
  ghost predicate UsesExist(t: Topology) {
    forall x :: Uses(t, x) > 0 ==> HasPort(t.devices, x)
  }

  /** No port is in use twice. */
  ghost predicate UsedOnce(t: Topology) {
    forall x :: Uses(t, x) <= 1
  }

  /** Link ends and interfaces sit on existing ports. */
  ghost predicate EndsExist(t: Topology) {
    && (forall l | l in DirectedLinks(t.links) :: HasPort(t.devices, l.src) && HasPort(t.devices, l.tgt))
    && (forall h, n | h in t.hosts && n in h.nics :: HasPort(t.devices, n.port))
  }

  ghost predicate NicsOffLinks(t: Topology) {
    forall h, n | h in t.hosts && n in h.nics :: !UsedByLinks(DirectedLinks(t.links), n.port)
  }

  lemma InternalUse(t: Topology, x: string)
    requires TwoWay(t.links)
    ensures LinkUses(t.links, x) > 0 <==> UsedByLinks(DirectedLinks(t.links), x)
    ensures HostUses(t.hosts, x) > 0 <==> Occupied(t.hosts, x)
  {
    DirectedEnds(t.links, x);
    DirectedInternal(t.links);
    HostUsesSome(t.hosts, x);
    hide Inventory.External, DirectedLinks, LinkUses, HostUses, Occupied;
  }

  lemma EndsExistUses(t: Topology)
    requires TwoWay(t.links)
    ensures EndsExist(t) <==> UsesExist(t)
  {
    var ls := DirectedLinks(t.links);
    if EndsExist(t) {
      forall x | Uses(t, x) > 0
        ensures HasPort(t.devices, x)
      {
        DirectedEnds(t.links, x);
        HostUsesSome(t.hosts, x);
        hide LinkUses, HostUses, DirectedLinks, HasPort;
      }
    }
    if UsesExist(t) {
      forall l | l in ls
        ensures HasPort(t.devices, l.src) && HasPort(t.devices, l.tgt)
      {
        DirectedEnds(t.links, l.src);
        DirectedEnds(t.links, l.tgt);
        assert LeftBy(ls, l.src) && TgtIn(ls, l.tgt);
        assert Uses(t, l.src) > 0 && Uses(t, l.tgt) > 0;
      }
      forall h, n | h in t.hosts && n in h.nics
        ensures HasPort(t.devices, n.port)
      {
        HostUsesSome(t.hosts, n.port);
        assert OnNic(h, n.port);
        assert Uses(t, n.port) > 0;
      }
      hide HasPort, DirectedLinks, Uses;
    }
  }

  lemma UsedOnceParts(t: Topology)
    requires TwoWay(t.links)
    ensures UsedOnce(t) <==> LinksOnceEach(t.links) && HostsOnceEach(t.hosts) && NicsOffLinks(t)
  {
    forall x
      ensures LinkUses(t.links, x) > 0 <==> UsedByLinks(DirectedLinks(t.links), x)
      ensures HostUses(t.hosts, x) > 0 <==> Occupied(t.hosts, x)
    {
      InternalUse(t, x);
    }
    hide UsedByLinks, LinkUses, HostUses, DirectedLinks, TwoWay;
    if UsedOnce(t) {
      assert forall x :: LinkUses(t.links, x) + HostUses(t.hosts, x) == Uses(t, x) <= 1;
      forall h, n | h in t.hosts && n in h.nics
        ensures !UsedByLinks(DirectedLinks(t.links), n.port)
      {
        assert OnNic(h, n.port) && Occupied(t.hosts, n.port);
      }
    }
  }

  /** A two-way topology loads exactly if its devices and hosts have names of their own,
      every port it uses exists, and none is used twice. */
  lemma TwoWayLoads(t: Topology)
    requires TwoWay(t.links) && NicsOnce(t.hosts)
    ensures WellFormed(t) <==> DistinctDevices(t.devices) && DistinctHosts(t.hosts) && UsesExist(t) && UsedOnce(t)
  {
    LinksOnce(t.links);
    HostsOnce(t.hosts);
    EndsExistUses(t);
    UsedOnceParts(t);
    DirectedInternal(t.links);
    assert WellFormed(t) <==>
        DistinctDevices(t.devices) && EndsExist(t) && AllCompatible(DirectedLinks(t.links)) && NicsOffLinks(t) && HostsApart(t.hosts)
    by {
      hide DirectedLinks, Compatible, HostCompatible, HasPort, UsedByLinks, Inventory.External, DistinctDevices, TwoWay, NicsOnce;
    }
    hide *;
  }

  // ---- What a legal script builds

  ghost predicate Fits(c: Context, b: Build) {
    && TwoWay(b.topology.links)
    && DistinctDevices(b.topology.devices) && (forall d | d in b.topology.devices :: d.id in c.devices)
    && DistinctHosts(b.topology.hosts) && (forall h | h in b.topology.hosts :: h.id in c.hosts)
    && NicsOnce(b.topology.hosts)
    && NicsPending(b.nics, c.pending)
  }

  /** The unfinished host has at most one interface on each of its devices. */
  ghost predicate NicsPending(ns: seq<NicDesc>, pending: set<string>) {
    forall x :: NicUses(ns, x) <= 1 && (NicUses(ns, x) > 0 ==> Numbered(x, pending))
  }

  lemma DistinctDevicesSnoc(ds: seq<DeviceDesc>, d: DeviceDesc)
    requires DistinctDevices(ds) && forall e | e in ds :: e.id != d.id
    ensures DistinctDevices(ds + [d])
  {
    var es := ds + [d];
    assert es[|ds|] == d && forall i | 0 <= i < |ds| :: es[i] == ds[i];
  }

  lemma AddedHostFits(c: Context, b: Build, h: HostDesc)
    requires Fits(c, b) && h.id !in c.hosts && forall x :: NicUses(h.nics, x) <= 1
    ensures DistinctHosts(b.topology.hosts + [h]) && NicsOnce(b.topology.hosts + [h])
  {
    HostsApartSnoc(b.topology.hosts, h);
    assert forall g :: g in b.topology.hosts + [h] <==> g in b.topology.hosts || g == h;
    hide NicUses, DistinctHosts;
  }

  lemma NewNicFits(b: Build, a: Addr, dev: string, pending: set<string>)
    requires NicsPending(b.nics, pending) && '/' !in dev && dev !in pending && forall d | d in pending :: '/' !in d
    ensures NicsPending(b.nics + [MakeNic(b, a, dev)], pending + {dev})
  {
    var n := MakeNic(b, a, dev);
    forall x
      ensures NicUses(b.nics + [n], x) <= 1 && (NicUses(b.nics + [n], x) > 0 ==> Numbered(x, pending + {dev}))
    {
      NicUsesSnoc(b.nics, n, x);
      assert Numbered(n.port, pending + {dev});
      if Numbered(x, pending) {
        var d, k: nat :| d in pending && x == PortID(d, k);
        SamePort(d, k, dev, Upcoming(b.nextPort, dev));
        assert d in pending + {dev};
      }
      hide NicUses;
    }
  }

  lemma OneNic(n: NicDesc)
    ensures forall x :: NicUses([n], x) <= 1
  {
    forall x
      ensures NicUses([n], x) <= 1
    {
      NicUsesSnoc([], n, x);
      assert [] + [n] == [n];
    }
  }

  lemma StepFits(c: Context, b: Build, t: Step)
    requires Legal(c, Do(t)) && Plain(c.devices) && c.pending <= c.devices && Fits(c, b)
    ensures Fits(After(c, Do(t)), Apply(b, t))
  {
    match t
    case Switch(id, n, r) =>
      DistinctDevicesSnoc(b.topology.devices, DeviceDesc(id, b.agentPort + AGENT_PORT_OFFSET, Ports(n)));
    case Cable(src, tgt) =>
      PortIDHasNoDelimiter(src, Upcoming(b.nextPort, src));
      PortIDHasNoDelimiter(tgt, Upcoming(Advance(b, src).nextPort, tgt));
    case Latch(_) =>
    case Nic(a, dev) => NewNicFits(b, a, dev, c.pending);
    case Vm(host, a, dev) =>
      var nic := MakeNic(b, a, dev);
      OneNic(nic);
      AddedHostFits(c, b, HostDesc(host, [nic]));
    case Server(host) =>
      AddedHostFits(c, b, HostDesc(host, b.nics));
  }

  lemma {:induction false} ScriptFits(c: Context, b: Build, s: Script)
    requires Legal(c, s) && Plain(c.devices) && c.pending <= c.devices && Fits(c, b)
    ensures Fits(After(c, s), Run(b, s)) && After(c, s).pending <= After(c, s).devices
    decreases s
  {
    match s
    case Skip =>
      assert After(c, s) == c;
    case Do(t) =>
      StepFits(c, b, t);
      hide Fits, Apply;
    case Then(x, y) =>
      LegalPlain(c, x);
      ScriptFits(c, b, x);
      ScriptFits(After(c, x), Run(b, x), y);
      assert After(After(c, x), y) == After(c, s);
      hide Fits;
  }

  lemma HasPortSnoc(ds: seq<DeviceDesc>, d: DeviceDesc, port: string)
    ensures HasPort(ds + [d], port) <==> HasPort(ds, port) || HasPort([d], port)
  {
    assert forall e :: e in ds + [d] <==> e in ds || e == d;
    assert forall e :: e in [d] <==> e == d;
    hide DeviceOf, PortID;
    if HasPort(ds, port) {
      var e :| e in ds && DeviceOf(port) == Some(e.id) && exists p | p in e.ports :: PortID(e.id, p.number) == port;
      assert e in ds + [d];
    }
    if HasPort([d], port) {
      assert d in ds + [d];
    }
  }

  lemma NewDevicePorts(id: string, agent: int, n: nat, d: string, k: nat)
    requires '/' !in id && '/' !in d
    ensures HasPort([DeviceDesc(id, agent, Ports(n))], PortID(d, k)) <==> d == id && 1 <= k <= n
  {
    var dev := DeviceDesc(id, agent, Ports(n));
    SplitJoined(d, Dec(k));
    assert dev in [dev];
    if HasPort([dev], PortID(d, k)) {
      var p :| p in dev.ports && PortID(id, p.number) == PortID(d, k);
      SamePort(d, k, id, p.number);
    }
    if d == id && 1 <= k <= n {
      assert Ports(n)[k - 1].number == k;
      assert Ports(n)[k - 1] in dev.ports;
    }
  }

  /** The ports that exist: of every device created, one for each number up to its port count. */
  lemma {:induction false} ScriptPorts(c: Context, b: Build, s: Script, d: string, k: nat)
    requires Legal(c, s) && '/' !in d
    ensures HasPort(Run(b, s).topology.devices, PortID(d, k)) <==>
            HasPort(b.topology.devices, PortID(d, k)) || (d in Switches(s) && 1 <= k <= PortCount(s, d))
    decreases s
  {
    match s
    case Skip =>
    case Do(Switch(id, n, r)) =>
      var dev := DeviceDesc(id, b.agentPort + AGENT_PORT_OFFSET, Ports(n));
      HasPortSnoc(b.topology.devices, dev, PortID(d, k));
      NewDevicePorts(id, b.agentPort + AGENT_PORT_OFFSET, n, d, k);
      hide HasPort;
    case Do(t) =>
      assert Apply(b, t).topology.devices == b.topology.devices;
    case Then(x, y) =>
      ScriptPorts(c, b, x, d, k);
      ScriptPorts(After(c, x), Run(b, x), y, d, k);
      SwitchesNew(After(c, x), y);
      hide HasPort, PortID;
  }

  // ---- Counting

  lemma TimesSome(v: seq<nat>, k: nat)
    ensures Times(v, k) > 0 <==> k in v
  {
    if v != [] {
      TimesSome(v[..|v| - 1], k);
      assert v == v[..|v| - 1] + [v[|v| - 1]];
    }
  }

  lemma {:induction false} TimesOfDistinct(v: seq<nat>, k: nat)
    requires forall i, j | 0 <= i < j < |v| :: v[i] != v[j]
    ensures Times(v, k) <= 1
  {
    if v != [] {
      var u := v[..|v| - 1];
      TimesOfDistinct(u, k);
      TimesSome(u, k);
    }
  }

  function Numbers(m: nat): (s: set<nat>)
    ensures |s| == m && forall k :: k in s <==> 1 <= k <= m
  {
    if m == 0 then {} else Numbers(m - 1) + {m}
  }

  /** Numbers between 1 and m that are all different are at most m. */
  lemma {:induction false} Pigeonhole(v: seq<nat>, s: set<nat>)
    requires forall k | k in v :: k in s && Times(v, k) <= 1
    ensures |v| <= |s|
  {
    if v != [] {
      var u, k := v[..|v| - 1], v[|v| - 1];
      assert v == u + [k];
      TimesSome(u, k);
      assert Times(v, k) == Times(u, k) + 1;
      forall j | j in u
        ensures j in s - {k} && Times(u, j) <= 1
      {
        assert j in v && Times(v, j) >= Times(u, j);
      }
      Pigeonhole(u, s - {k});
    }
  }

  lemma FirstFrom(b: Build, s: Script, d: string)
    requires d !in Switches(s) && Demand(s, d) > 0
    ensures |Drawn(b, s, d)| > 0 && Drawn(b, s, d)[0] == Upcoming(b.nextPort, d)
    decreases s
  {
    if s.Then? {
      DrawnLength(b, s.first, d);
      if Demand(s.first, d) > 0 {
        FirstFrom(b, s.first, d);
      } else {
        NothingDrawn(b, s.first, d);
        FirstFrom(Run(b, s.first), s.second, d);
      }
    }
  }

  lemma FreshKept(c: Context, b: Build, s: Script, d: string)
    requires Legal(c, s) && d !in c.devices && d !in Switches(s) && d !in b.nextPort
    ensures d !in Run(b, s).nextPort
  {
    LegalDemand(c, s, d);
    NothingDrawn(b, s, d);
  }

  /** The first port a device gives out is the one above the reserved ports. */
  lemma {:induction false} FirstDrawn(c: Context, b: Build, s: Script, d: string)
    requires Legal(c, s) && d in Switches(s) && d !in c.devices && d !in b.nextPort
    ensures Upcoming(Run(b, s).nextPort, d) == Reserved(s, d) + 1 || Demand(s, d) > 0
    ensures Demand(s, d) > 0 ==> |Drawn(b, s, d)| > 0 && Drawn(b, s, d)[0] == Reserved(s, d) + 1
    decreases s
  {
    if s.Then? {
      var x, y := s.first, s.second;
      SwitchesNew(After(c, x), y);
      if d in Switches(x) {
        FirstDrawn(c, b, x, d);
        if Demand(x, d) == 0 {
          DrawnLength(b, x, d);
          if Demand(y, d) > 0 {
            FirstFrom(Run(b, x), y, d);
          } else {
            NothingDrawn(Run(b, x), y, d);
          }
        }
      } else {
        FreshKept(c, b, x, d);
        LegalDemand(c, x, d);
        DrawnLength(b, x, d);
        FirstDrawn(After(c, x), Run(b, x), y, d);
      }
    }
  }

  // ---- The main theorem

  /** A device has a port for every allocation, and its first one is not beyond the last. */
  predicate WithinBudget(s: Script, d: string) {
    Demand(s, d) <= PortCount(s, d) && (Demand(s, d) > 0 ==> Reserved(s, d) < PortCount(s, d))
  }

  ghost predicate InBudget(s: Script) {
    forall d | d in Switches(s) :: WithinBudget(s, d)
  }

  /** Minimums are only latched on devices without reserved ports. */
  ghost predicate LatchesFree(s: Script) {
    forall d | d in Switches(s) && Latches(s, d) :: Reserved(s, d) == 0
  }

  function Made(s: Script): Topology {
    Run(START, s).topology
  }

  /** Within its budget a device gives out different ports, all of which exist. */
  lemma DrawnInBudget(s: Script, d: string, k: nat)
    requires Complete(s) && LatchesFree(s) && d in Switches(s) && WithinBudget(s, d)
    ensures Times(Drawn(START, s, d), k) <= 1
    ensures Times(Drawn(START, s, d), k) > 0 ==> 1 <= k <= PortCount(s, d)
  {
    var v, m, n := Drawn(START, s, d), PortCount(s, d), Demand(s, d);
    DrawnLength(START, s, d);
    TimesSome(v, k);
    if n > 0 {
      DrawnOverall(NOTHING, START, s, d);
      CycleDistinct(m, Reserved(s, d), n);
      TimesOfDistinct(v, k);
    }
  }

  /** A device that gives out different, existing ports is within its budget. */
  lemma BudgetFromDrawn(s: Script, d: string)
    requires Complete(s) && d in Switches(s)
    requires forall k: nat :: Times(Drawn(START, s, d), k) <= 1
    requires forall k: nat :: Times(Drawn(START, s, d), k) > 0 ==> 1 <= k <= PortCount(s, d)
    ensures WithinBudget(s, d)
  {
    var v, m := Drawn(START, s, d), PortCount(s, d);
    DrawnLength(START, s, d);
    forall k | k in v
      ensures k in Numbers(m)
    {
      TimesSome(v, k);
    }
    Pigeonhole(v, Numbers(m));
    if Demand(s, d) > 0 {
      FirstDrawn(NOTHING, START, s, d);
      TimesSome(v, v[0]);
    }
  }

  lemma MadeUses(s: Script, d: string, k: nat)
    requires Complete(s) && d in Switches(s)
    ensures Uses(Made(s), PortID(d, k)) == Times(Drawn(START, s, d), k)
    ensures HasPort(Made(s).devices, PortID(d, k)) <==> 1 <= k <= PortCount(s, d)
  {
    LegalPlain(NOTHING, s);
    LegalSlashless(NOTHING, s);
    UsesDrawn(s, d, k);
    ScriptPorts(NOTHING, START, s, d, k);
  }

  /** The uses of a port of a whole topology, whether or not names are used twice. */
  lemma UsesDrawn(s: Script, d: string, k: nat)
    requires Slashless(s) && Pending({}, s) == {} && '/' !in d
    ensures Uses(Made(s), PortID(d, k)) == Times(Drawn(START, s, d), k)
  {
    hide *;
    UsesAreDraws(START, s, d, k);
    StartUnused(s, PortID(d, k));
  }

  lemma StartUnused(s: Script, x: string)
    requires Pending({}, s) == {}
    ensures BuildUses(START, x) == 0 && BuildUses(Run(START, s), x) == Uses(Made(s), x)
  {
    NicsLeft(START, {}, s);
    hide Run, Pending;
  }

  lemma NothingPending(s: Script, x: string)
    requires Complete(s)
    ensures Fits(After(NOTHING, s), Run(START, s)) && BuildUses(Run(START, s), x) == Uses(Made(s), x)
  {
    ScriptFits(NOTHING, START, s);
    assert NicUses(Run(START, s).nics, x) == 0;
  }

  lemma UnmadeUses(s: Script, x: string)
    requires Complete(s) && Uses(Made(s), x) > 0
    ensures Numbered(x, Switches(s))
  {
    NothingPending(s, x);
    UsesNumbered(NOTHING, START, s, x);
    assert NOTHING.devices + Switches(s) == Switches(s);
  }

  /** The topology of a script loads exactly if every device is within its budget. */
  lemma ScriptLoadsIff(s: Script)
    requires Complete(s) && LatchesFree(s)
    ensures WellFormed(Made(s)) <==> InBudget(s)
  {
    var t := Made(s);
    NothingPending(s, "");
    TwoWayLoads(t);
    if InBudget(s) {
      forall x
        ensures Uses(t, x) <= 1 && (Uses(t, x) > 0 ==> HasPort(t.devices, x))
      {
        if Uses(t, x) > 0 {
          UnmadeUses(s, x);
          var d, k: nat :| d in Switches(s) && x == PortID(d, k);
          MadeUses(s, d, k);
          DrawnInBudget(s, d, k);
        }
      }
    }
    if UsesExist(t) && UsedOnce(t) {
      forall d | d in Switches(s)
        ensures WithinBudget(s, d)
      {
        forall k: nat
          ensures Times(Drawn(START, s, d), k) <= 1
          ensures Times(Drawn(START, s, d), k) > 0 ==> 1 <= k <= PortCount(s, d)
        {
          MadeUses(s, d, k);
        }
        BudgetFromDrawn(s, d);
      }
    }
  }

  /** A device that gives out as many ports as it has gives out each of them once. */
  lemma AllPortsOnce(s: Script, d: string, k: nat)
    requires Complete(s) && LatchesFree(s) && d in Switches(s)
    requires Reserved(s, d) == 0 && Demand(s, d) == PortCount(s, d) && 1 <= k <= PortCount(s, d)
    ensures Uses(Made(s), PortID(d, k)) == 1
  {
    var m := PortCount(s, d);
    MadeUses(s, d, k);
    DrawnInBudget(s, d, k);
    DrawnOverall(NOTHING, START, s, d);
    TimesSome(Drawn(START, s, d), k);
    ModUnique(k - 1, m, 0, k - 1);
    assert Cycle(m, 0, m)[k - 1] == k;
  }

  /** Going round a device of `m` ports from position `a` on: which ports up to `a` come up. */
  lemma CycleWraps(m: nat, a: nat, n: nat, k: nat)
    requires 1 <= k <= a < m
    ensures a + n <= m ==> k !in Cycle(m, a, n)
    ensures a + n > m ==> 1 in Cycle(m, a, n)
  {
    if a + n <= m {
      forall j | 0 <= j < n
        ensures Cycle(m, a, n)[j] > a
      {
        ModUnique(a + j, m, 0, a + j);
      }
    } else {
      ModUnique(m, m, 1, 0);
      assert Cycle(m, a, n)[m - a] == 1 + (a + (m - a)) % m;
    }
  }

  /** The reserved ports of a device stay free exactly as long as allocation does not come
      round to them: for a device with nothing but reserved ports, beyond its last port once. */
  lemma ReservedFree(s: Script, d: string)
    requires Complete(s) && d in Switches(s) && !Latches(s, d)
    ensures (forall k | 1 <= k <= Reserved(s, d) :: Uses(Made(s), PortID(d, k)) == 0) <==>
            || Reserved(s, d) == 0
            || Reserved(s, d) + Demand(s, d) <= PortCount(s, d)
            || (Reserved(s, d) >= PortCount(s, d) && Demand(s, d) <= 1)
  {
    hide *;
    var first := 1;
    forall k | 1 <= k <= Reserved(s, d)
      ensures || Reserved(s, d) + Demand(s, d) <= PortCount(s, d)
              || (Reserved(s, d) >= PortCount(s, d) && Demand(s, d) <= 1)
              ==> Uses(Made(s), PortID(d, k)) == 0
    {
      if Reserved(s, d) < PortCount(s, d) {
        ReservedUse(s, d, k);
      } else {
        BeyondUse(s, d, k);
      }
    }
    if Reserved(s, d) > 0 {
      if Reserved(s, d) < PortCount(s, d) {
        ReservedUse(s, d, first);
      } else {
        BeyondUse(s, d, first);
      }
    }
  }

  lemma BeyondUse(s: Script, d: string, k: nat)
    requires Complete(s) && d in Switches(s) && !Latches(s, d) && 1 <= k <= Reserved(s, d) && Reserved(s, d) >= PortCount(s, d)
    ensures Demand(s, d) <= 1 ==> Uses(Made(s), PortID(d, k)) == 0
    ensures Demand(s, d) > 1 ==> Uses(Made(s), PortID(d, 1)) > 0
  {
    hide *;
    CompleteLegal(s);
    NoPortsYet(d);
    DrawnYield(NOTHING, START, s, d);
    MadeUses(s, d, k);
    MadeUses(s, d, 1);
    TimesSome(Drawn(START, s, d), k);
    TimesSome(Drawn(START, s, d), 1);
    YieldBeyond(Reserved(s, d) + 1, PortCount(s, d), Demand(s, d), k);
  }

  lemma CompleteLegal(s: Script)
    requires Complete(s)
    ensures Legal(NOTHING, s)
  {
  }

  /** Beyond the last port one allocation is left, and then the first port. */
  lemma YieldBeyond(next: nat, m: nat, n: nat, k: nat)
    requires m < next && k != next
    ensures n <= 1 ==> k !in Yield(next, 1, m, n)
    ensures n > 1 ==> 1 in Yield(next, 1, m, n)
  {
    assert Draws(next, 1, m, 0) == next && Draws(next, 1, m, 1) == 1;
    if n > 1 {
      assert Yield(next, 1, m, n)[1] == 1;
    }
  }

  lemma ReservedUse(s: Script, d: string, k: nat)
    requires Complete(s) && d in Switches(s) && !Latches(s, d) && 1 <= k <= Reserved(s, d) < PortCount(s, d)
    ensures Reserved(s, d) + Demand(s, d) <= PortCount(s, d) ==> Uses(Made(s), PortID(d, k)) == 0
    ensures Reserved(s, d) + Demand(s, d) > PortCount(s, d) ==> Uses(Made(s), PortID(d, 1)) > 0
  {
    var v := Drawn(START, s, d);
    DrawnOverall(NOTHING, START, s, d);
    MadeUses(s, d, k);
    MadeUses(s, d, 1);
    TimesSome(v, k);
    TimesSome(v, 1);
    CycleWraps(PortCount(s, d), Reserved(s, d), Demand(s, d), k);
    hide *;
  }

  /** The first ports of a device stay free exactly if nothing is allocated at all, or they
      are reserved and allocation does not come round to them. */
  lemma FirstPortsFree(s: Script, d: string, n: nat)
    requires Complete(s) && d in Switches(s) && !Latches(s, d) && WithinBudget(s, d) && 1 <= n <= PortCount(s, d)
    ensures (forall k | 1 <= k <= n :: Uses(Made(s), PortID(d, k)) == 0) <==>
            Demand(s, d) == 0 || (n <= Reserved(s, d) && Reserved(s, d) + Demand(s, d) <= PortCount(s, d))
  {
    var r := Reserved(s, d);
    if Demand(s, d) == 0 {
      forall k | 1 <= k <= n
        ensures Uses(Made(s), PortID(d, k)) == 0
      {
        MadeUses(s, d, k);
        DrawnLength(START, s, d);
      }
    } else if n > r {
      FirstUsed(s, d);
      assert Uses(Made(s), PortID(d, r + 1)) != 0;
    } else {
      ReservedFree(s, d);
      if r + Demand(s, d) > PortCount(s, d) {
        var first := 1;
        ReservedUse(s, d, first);
        assert Uses(Made(s), PortID(d, first)) != 0;
      }
    }
  }

  lemma FirstUsed(s: Script, d: string)
    requires Complete(s) && d in Switches(s) && Demand(s, d) > 0
    ensures Uses(Made(s), PortID(d, Reserved(s, d) + 1)) > 0
  {
    FirstDrawn(NOTHING, START, s, d);
    TimesSome(Drawn(START, s, d), Reserved(s, d) + 1);
    MadeUses(s, d, Reserved(s, d) + 1);
    hide Drawn, Complete, Made, Uses;
  }

  // ---- How much a script makes

  function NumSwitches(s: Script): nat {
    match s
    case Do(Switch(_, _, _)) => 1
    case Then(x, y) => NumSwitches(x) + NumSwitches(y)
    case _ => 0
  }

  function NumCables(s: Script): nat {
    match s
    case Do(Cable(_, _)) => 1
    case Then(x, y) => NumCables(x) + NumCables(y)
    case _ => 0
  }

  function NumHosts(s: Script): nat {
    match s
    case Do(Vm(_, _, _)) => 1
    case Do(Server(_)) => 1
    case Then(x, y) => NumHosts(x) + NumHosts(y)
    case _ => 0
  }

  lemma RunSizes(b: Build, s: Script)
    ensures var t, u := b.topology, Run(b, s).topology;
            && |u.devices| == |t.devices| + NumSwitches(s)
            && |u.links| == |t.links| + NumCables(s)
            && |u.hosts| == |t.hosts| + NumHosts(s)
    decreases s
  {
    if s.Then? {
      RunSizes(b, s.first);
      RunSizes(Run(b, s.first), s.second);
    }
  }

  lemma DirectedSize(ls: seq<LinkDesc>)
    requires TwoWay(ls)
    ensures |DirectedLinks(ls)| == 2 * |ls|
  {
    if ls != [] {
      assert ls[|ls| - 1] in ls;
      DirectedSize(ls[..|ls| - 1]);
    }
  }

  /** Loading the topology of a script: when it succeeds, and what is then in the simulation. */
  lemma ScriptLoad(s: Script)
    requires Complete(s) && LatchesFree(s)
    ensures Load(Inventory.EMPTY, Made(s)).1 == Done <==> InBudget(s)
    ensures InBudget(s) ==>
              var r := Load(Inventory.EMPTY, Made(s)).0;
              && |r.devices| == NumSwitches(s)
              && |r.links| == 2 * NumCables(s)
              && |r.hosts| == NumHosts(s)
  {
    ScriptLoadsIff(s);
    LoadIff(Made(s));
    RunSizes(START, s);
    NothingPending(s, "");
    DirectedSize(Made(s).links);
    hide Load, WellFormed, Run, InBudget, DirectedLinks, Fits;
  }

  /** What the loaded topology of a script has: the ports of its devices, and an egress use
      of just the ports in use. */
  lemma MadeLoaded(s: Script, x: string)
    requires Complete(s) && LatchesFree(s) && InBudget(s)
    ensures var t, r := Made(s), Load(Inventory.EMPTY, Made(s)).0;
            && (Inventory.ValidatePort(r, x) == Done <==> HasPort(t.devices, x))
            && (x in r.egress <==> Uses(t, x) > 0)
            && forall k | k in r.links :: k.src in r.egress
  {
    var t := Made(s);
    ScriptLoadsIff(s);
    NothingPending(s, "");
    LoadedPorts(t);
    forall y
      ensures Uses(t, y) > 0 <==> LeftBy(DirectedLinks(t.links), y) || Occupied(t.hosts, y)
    {
      DirectedEnds(t.links, y);
      HostUsesSome(t.hosts, y);
    }
    hide Load, DirectedLinks, WellFormed, Uses, Run, HasPort, Inventory.ValidatePort;
  }

  /** What it takes for the made topology to load. */
  ghost predicate Loadable(s: Script) {
    Complete(s) && LatchesFree(s) && InBudget(s)
  }

  /** The free ports of a loaded device. */
  lemma MadePortFree(s: Script, d: string, k: nat)
    requires Loadable(s) && '/' !in d
    ensures Free(Load(Inventory.EMPTY, Made(s)).0, PortID(d, k)) <==>
            d in Switches(s) && 1 <= k <= PortCount(s, d) && Uses(Made(s), PortID(d, k)) == 0
  {
    hide Uses, InBudget, LatchesFree, Load, Inventory.ValidatePort, Run, HasPort, PortID;
    MadeLoaded(s, PortID(d, k));
    ScriptPorts(NOTHING, START, s, d, k);
    assert !HasPort(START.topology.devices, PortID(d, k)) by {
      NoDevices(PortID(d, k));
    }
  }

  lemma NoDevices(port: string)
    ensures !HasPort([], port)
  {
  }

  /** The first ports of a device are all there and free: nothing is attached to it, or they
      are reserved and allocation does not come round to them. */
  predicate RoomOn(s: Script, d: string, n: nat) {
    n <= PortCount(s, d) && (Demand(s, d) == 0 || (n <= Reserved(s, d) && Reserved(s, d) + Demand(s, d) <= PortCount(s, d)))
  }

  lemma MadeRoom(s: Script, d: string, n: nat)
    requires Loadable(s) && '/' !in d && d in Switches(s) && !Latches(s, d) && n > 0
    ensures (forall k | 1 <= k <= n :: Free(Load(Inventory.EMPTY, Made(s)).0, PortID(d, k))) <==> RoomOn(s, d, n)
  {
    hide Uses, Complete, LatchesFree, Free, Load, PortID, Demand, PortCount, Reserved, Latches, Switches, Made;
    forall k: nat
      ensures Free(Load(Inventory.EMPTY, Made(s)).0, PortID(d, k)) <==>
              1 <= k <= PortCount(s, d) && Uses(Made(s), PortID(d, k)) == 0
    {
      MadePortFree(s, d, k);
    }
    if n <= PortCount(s, d) {
      FirstPortsFree(s, d, n);
    } else {
      assert !Free(Load(Inventory.EMPTY, Made(s)).0, PortID(d, n));
    }
  }
}

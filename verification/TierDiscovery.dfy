/** Discovery across a super-spine tier and its pods: the links between domains that it finds
    are the trunks of the tier, each in both directions. */
module TierDiscovery {
  import opened Common
  import opened Text
  import opened Schema
  import opened Inventory
  import opened Lldp
  import opened Discovery
  import opened Federation
  import opened SuperSpine
  import Racks
  import Loader

  // ---- What a domain's inventory holds

  /** Links inside the domain between registered ports. */
  ghost predicate Homely(s: Sim, l: Link) {
    !External(l) && ValidatePort(s, l.src) == Done && ValidatePort(s, l.tgt) == Done
  }

  /** The given links to other domains, at registered ports; besides them only homely ones. */
  ghost predicate HoldsTrunks(s: Sim, ls: seq<LinkDesc>) {
    && Tidy(s)
    && (forall m | 0 <= m < |ls| :: Holding(s, Loader.ConstructLink(ls[m])))
    && (forall k | k in s.links :: Homely(s, s.links[k]) || FromTrunk(ls, s.links[k]))
  }

  ghost predicate Holding(s: Sim, l: Link) {
    l.id in s.links && s.links[l.id] == l && ValidatePort(s, l.src) == Done
  }

  ghost predicate FromTrunk(ls: seq<LinkDesc>, l: Link) {
    exists m :: 0 <= m < |ls| && l == Loader.ConstructLink(ls[m])
  }

  lemma TrunksLoaded(s: Sim, ls: seq<LinkDesc>)
    requires Tidy(s) && (forall k | k in s.links :: Homely(s, s.links[k])) && forall l | l in ls :: l.unidirectional
    requires Loader.LoadLinks(s, Loader.DirectedLinks(ls)).1 == Done
    ensures HoldsTrunks(Loader.LoadLinks(s, Loader.DirectedLinks(ls)).0, ls)
  {
    hide Loader.LoadLinks, Loader.DirectedLinks, Tidy, External, ValidatePort, Loader.Compatible, Loader.LeftBy, Loader.EnteredBy;
    var ds := Loader.DirectedLinks(ls);
    var t := Loader.LoadLinks(s, ds).0;
    Loader.OneWay(ls);
    Loader.LoadLinksTidy(s, ds);
    Loader.LoadLinksIff(s, ds);
    SamePorts(s, t);
    forall k | k in t.links
      ensures FromTrunk(ls, t.links[k]) || (k in s.links && t.links[k] == s.links[k])
    {
      if t.links[k] in ds {
        OneOfTrunks(ls, t.links[k]);
      }
    }
    forall m | 0 <= m < |ls|
      ensures Holding(t, Loader.ConstructLink(ls[m]))
    {
      assert Loader.LinkFits(s, ds[m]);
      NamedLink(ds, m);
      hide Homely;
      NewlyHeld(s, ls, t, m);
    }
  }

  lemma NamedLink(ds: seq<Link>, m: nat)
    requires m < |ds|
    ensures Loader.Named(ds, ds[m].id)
  {
    assert ds[m] in ds;
  }

  lemma OneOfTrunks(ls: seq<LinkDesc>, l: Link)
    requires (forall d | d in ls :: d.unidirectional) && l in Loader.DirectedLinks(ls)
    ensures FromTrunk(ls, l)
  {
    Loader.OneWay(ls);
    hide Loader.DirectedLinks;
    var m :| 0 <= m < |Loader.DirectedLinks(ls)| && Loader.DirectedLinks(ls)[m] == l;
    assert l == Loader.ConstructLink(ls[m]);
  }

  lemma SamePorts(s: Sim, t: Sim)
    requires t.devices == s.devices
    ensures forall p :: ValidatePort(t, p) == ValidatePort(s, p)
  {
  }

  lemma NewlyHeld(s: Sim, ls: seq<LinkDesc>, t: Sim, m: nat)
    requires m < |ls| && Tidy(t) && t.devices == s.devices && Loader.LinkFits(s, Loader.ConstructLink(ls[m]))
    requires Loader.ConstructLink(ls[m]).id in t.links
    requires forall k | k in t.links :: FromTrunk(ls, t.links[k]) || (k in s.links && t.links[k] == s.links[k])
    ensures Holding(t, Loader.ConstructLink(ls[m]))
  {
    hide External, Agrees, NothingElse;
    SamePorts(s, t);
    var l := Loader.ConstructLink(ls[m]);
    hide ValidatePort;
    assert l.id !in s.links;
    var i :| 0 <= i < |ls| && t.links[l.id] == Loader.ConstructLink(ls[i]);
  }

  // ---- The tier and its pods

  /** Each domain has a name of its own, from which a delimiter can be told apart. */
  ghost predicate DistinctDomains(f: Tier) {
    && (forall i, j | 0 <= i < j < |f.podDomains| :: f.podDomains[i] != f.podDomains[j])
    && f.domain !in f.podDomains && !HasDelimiter(f.domain + ":")
    && forall p | p in f.podDomains :: !HasDelimiter(p + ":")
  }

  const POD_HOSTS := "-sim-fabric-sim"

  /** The domains of the shipped recipes: host names with a port number. */
  function ShippedTierDomain(): string {
    "superspine-tier" + POD_HOSTS + ":" + "5150"
  }

  function ShippedPodDomain(pod: nat): string {
    "pod" + Pad2(pod) + POD_HOSTS + ":" + "5150"
  }

  lemma HostAndPort(host: string)
    requires ':' !in host
    ensures !HasDelimiter(host + ":" + "5150" + ":")
  {
    var s := host + ":" + "5150" + ":";
    assert ':' !in "5150";
    assert s[|host|] == ':' && s[|s| - 1] == ':' && forall i | |host| < i < |s| - 1 :: s[i] == "5150"[i - |host| - 1];
    assert forall i | 0 <= i < |host| :: s[i] == host[i];
  }

  lemma SameMiddle(p: string, x: string, y: string, t: string)
    requires p + x + t == p + y + t
    ensures x == y
  {
    assert (p + x + t)[|p|..|p| + |x|] == x && (p + y + t)[|p|..|p| + |y|] == y;
  }

  lemma PodsDiffer(i: nat, j: nat)
    requires ShippedPodDomain(i) == ShippedPodDomain(j)
    ensures i == j
  {
    hide Pad2;
    var rest := POD_HOSTS + ":" + "5150";
    assert ShippedPodDomain(i) == "pod" + Pad2(i) + rest;
    assert ShippedPodDomain(j) == "pod" + Pad2(j) + rest;
    SameMiddle("pod", Pad2(i), Pad2(j), rest);
    Pad2Injective(i, j);
  }

  /** The domains of a shipped recipe, however many pods it has, are such names. */
  lemma ShippedDomains(f: Tier)
    requires f.domain == ShippedTierDomain()
    requires forall i | 0 <= i < |f.podDomains| :: f.podDomains[i] == ShippedPodDomain(i + 1)
    ensures DistinctDomains(f)
  {
    hide ShippedTierDomain, ShippedPodDomain, HasDelimiter;
    TierDomain();
    forall i | 0 <= i < |f.podDomains|
      ensures f.podDomains[i] != f.domain && !HasDelimiter(f.podDomains[i] + ":")
    {
      PodDomain(i + 1);
    }
    forall i, j | 0 <= i < j < |f.podDomains|
      ensures f.podDomains[i] != f.podDomains[j]
    {
      if f.podDomains[i] == f.podDomains[j] {
        PodsDiffer(i + 1, j + 1);
      }
    }
  }

  lemma TierDomain()
    ensures !HasDelimiter(ShippedTierDomain() + ":") && ShippedTierDomain()[0] == 's'
  {
    assert ':' !in "superspine-tier" && ':' !in POD_HOSTS;
    HostAndPort("superspine-tier" + POD_HOSTS);
  }

  lemma PodDomain(pod: nat)
    ensures !HasDelimiter(ShippedPodDomain(pod) + ":") && ShippedPodDomain(pod)[0] == 'p'
  {
    hide Pad2;
    assert ':' !in DIGITS && ':' !in "pod" && ':' !in Pad2(pod) && ':' !in POD_HOSTS;
    HostAndPort("pod" + Pad2(pod) + POD_HOSTS);
  }

  /** A pod has loaded a topology that stays inside the domain, and then its addendum. */
  ghost predicate PodLoaded(f: Tier, pod: nat, t: Topology, net: Net)
    requires pod < |f.podDomains|
  {
    && Loader.WellFormed(t) && (forall l | l in Loader.DirectedLinks(t.links) :: !External(l))
    && Loader.Load(Loader.Load(EMPTY, t).0, Addendum(f, pod)).1 == Done
    && net.inventory == Loader.Load(Loader.Load(EMPTY, t).0, Addendum(f, pod)).0
  }

  /** The tier and all its pods are loaded, each in its own domain, and everything is up. */
  ghost predicate Deployed(f: Tier, pods: seq<Topology>, nets: map<string, Net>) {
    && DistinctDomains(f) && |pods| == |f.podDomains|
    && (forall a :: a in nets <==> a == f.domain || a in f.podDomains)
    && Loader.Load(EMPTY, TierTopology(f)).1 == Done
    && nets[f.domain].inventory == Loader.Load(EMPTY, TierTopology(f)).0
    && (forall i | 0 <= i < |pods| :: PodLoaded(f, i, pods[i], nets[f.podDomains[i]]))
    && (forall a | a in nets :: Placed(nets[a]) && AllUp(nets[a]))
  }

  /** The tier's links, pod by pod, and each pod's, mirror each other. */
  ghost predicate Sliced(f: Tier, slices: seq<seq<LinkDesc>>) {
    && TierTopology(f).links == Flatten(slices) && |slices| == |f.podDomains|
    && forall i | 0 <= i < |slices| :: Mirrors(slices[i], Addendum(f, i).links, f.domain, f.podDomains[i])
  }

  lemma TierHolds(f: Tier, slices: seq<seq<LinkDesc>>)
    requires Sliced(f, slices) && Loader.Load(EMPTY, TierTopology(f)).1 == Done
    ensures HoldsTrunks(Loader.Load(EMPTY, TierTopology(f)).0, TierTopology(f).links)
  {
    var n := |f.podDomains|;
    var s := Loader.LoadDevices(EMPTY, Supers(f, f.superSpines).topology.devices).0;
    TierLoadIs(f);
    TierStart(f);
    TierLinksAre(f);
    Loader.EmptyTidy();
    Loader.LoadDevicesTidy(EMPTY, Supers(f, f.superSpines).topology.devices);
    TierUpBetween(f, n);
    hide Tidy, TierTopology, TierUp, Supers, Loader.Load, Loader.LoadDevices, Loader.LoadLinks, Loader.DirectedLinks, HoldsTrunks;
    hide Loader.Free, HasDelimiter, PortID, SuperName, Upper, Mirrors, Homely, Before;
    TrunksLoaded(s, TierUp(f, n));
  }

  lemma TierLinksAre(f: Tier)
    ensures TierTopology(f).links == TierUp(f, |f.podDomains|)
  {
    PodsTopology(f, |f.podDomains|);
    SupersMade(f, f.superSpines);
    hide Pods, Supers, TierUp;
  }

  lemma PodHolds(f: Tier, slices: seq<seq<LinkDesc>>, pod: nat, t: Topology, net: Net)
    requires Sliced(f, slices) && pod < |f.podDomains| && PodLoaded(f, pod, t, net)
    ensures HoldsTrunks(net.inventory, Addendum(f, pod).links)
  {
    var s, ls := Loader.Load(EMPTY, t).0, Addendum(f, pod).links;
    Loader.LoadedLinks(t);
    AddendumOnly(f, pod);
    OneWayDown(f, slices, pod);
    hide Tidy, Addendum, Loader.Load, Loader.LoadLinks, Loader.DirectedLinks, Loader.WellFormed, External, ValidatePort, HoldsTrunks, Sliced;
    assert forall k | k in s.links :: Homely(s, s.links[k]);
    hide Homely;
    JustLinks(s, Addendum(f, pod));
    TrunksLoaded(s, ls);
  }

  lemma AddendumOnly(f: Tier, pod: nat)
    requires pod < |f.podDomains|
    ensures Addendum(f, pod).devices == [] && Addendum(f, pod).hosts == []
  {
    hide Pods;
  }

  lemma OneWayDown(f: Tier, slices: seq<seq<LinkDesc>>, pod: nat)
    requires Sliced(f, slices) && pod < |f.podDomains|
    ensures forall l | l in Addendum(f, pod).links :: l.unidirectional
  {
    hide Addendum, TierTopology, Foreign;
    assert Mirrors(slices[pod], Addendum(f, pod).links, f.domain, f.podDomains[pod]);
  }

  // ---- The trunks

  /** A trunk link, from the superspine to the pod's spine. */
  ghost predicate Trunk(f: Tier, slices: seq<seq<LinkDesc>>, from: Place, to: Place)
    requires |slices| == |f.podDomains|
  {
    exists i, m ::
      0 <= i < |slices| && 0 <= m < |slices[i]| && m < |Addendum(f, i).links| &&
      from == (f.domain, slices[i][m].src) && to == (f.podDomains[i], Addendum(f, i).links[m].src)
  }

  lemma UpPlain(f: Tier, l: LinkDesc)
    requires l in TierTopology(f).links
    ensures !HasDelimiter(l.src)
  {
    var n := |f.podDomains|;
    TierLinksAre(f);
    TierUpBetween(f, n);
    hide TierTopology, TierUp, HasDelimiter, SuperName, PortID, Upper, Before;
    var k, p: nat :| 1 <= k <= f.superSpines && 0 <= p < Before(f, n) && l.src == PortID(SuperName(k), Upper(f, p));
    SuperSpine.NamesDiffer(k, k);
    PortIDHasNoDelimiter(SuperName(k), Upper(f, p));
  }

  lemma DownPlain(f: Tier, pod: nat, l: LinkDesc)
    requires pod < |f.podDomains| && l in Addendum(f, pod).links
    ensures !HasDelimiter(l.src)
  {
    PodsAddenda(f, |f.podDomains|, pod);
    PodDownFrom(f, Before(f, pod), f.podSpines);
    hide Pods, PodDown, HasDelimiter, PortID, Lower, Before, Racks.SpineName;
    var k, q: nat :| 1 <= k <= f.podSpines && q < 2 * f.superSpines && l.src == PortID(Racks.SpineName(k), Lower(f, q));
    Racks.SpineInitial(k);
    PortIDHasNoDelimiter(Racks.SpineName(k), Lower(f, q));
  }

  /** Both sides of a trunk link lead to each other. */
  lemma TrunkLeads(f: Tier, slices: seq<seq<LinkDesc>>, i: nat, m: nat)
    requires Sliced(f, slices) && DistinctDomains(f) && i < |slices| && m < |slices[i]|
    ensures m < |Addendum(f, i).links|
    ensures var up, down := slices[i][m], Addendum(f, i).links[m];
            && External(Loader.ConstructLink(up)) && External(Loader.ConstructLink(down))
            && LeadsTo(f.domain, Loader.ConstructLink(up)) == Some((f.podDomains[i], down.src))
            && LeadsTo(f.podDomains[i], Loader.ConstructLink(down)) == Some((f.domain, up.src))
            && up in TierTopology(f).links
  {
    assert Mirrors(slices[i], Addendum(f, i).links, f.domain, f.podDomains[i]);
    var up, down := slices[i][m], Addendum(f, i).links[m];
    FlattenElement(slices, up);
    assert up in slices[i] && down in Addendum(f, i).links && f.podDomains[i] in f.podDomains;
    UpPlain(f, up);
    DownPlain(f, i, down);
    hide TierTopology, Addendum, HasDelimiter, PeerOf;
    JoinedPeer(f.podDomains[i], down.src);
    JoinedPeer(f.domain, up.src);
    DomainHasDelimiter(f.podDomains[i], down.src);
    DomainHasDelimiter(f.domain, up.src);
  }

  /** What is up and registered carries packets. */
  lemma UpAndHeard(net: Net, port: string)
    requires Placed(net) && AllUp(net) && ValidatePort(net.inventory, port) == Done
    ensures PortUp(net, port) && Heard(net, port) && net.devices[DeviceOf(port).value].codecSet
  {
    RegisteredUp(net, port);
    hide Placed, AllUp, Hears, DeviceOf;
  }

  /** What matters of a deployment: which links every domain holds. */
  ghost predicate Ready(f: Tier, slices: seq<seq<LinkDesc>>, nets: map<string, Net>) {
    && Sliced(f, slices) && DistinctDomains(f)
    && (forall a :: a in nets <==> a == f.domain || a in f.podDomains)
    && HoldsTrunks(nets[f.domain].inventory, TierTopology(f).links)
    && (forall i | 0 <= i < |slices| :: HoldsTrunks(nets[f.podDomains[i]].inventory, Addendum(f, i).links))
    && (forall a | a in nets :: Placed(nets[a]) && AllUp(nets[a]))
  }

  lemma DeployedReady(f: Tier, pods: seq<Topology>, nets: map<string, Net>, slices: seq<seq<LinkDesc>>)
    requires Deployed(f, pods, nets) && Sliced(f, slices)
    ensures Ready(f, slices, nets)
  {
    hide Sliced, HoldsTrunks, DistinctDomains, TierTopology, Addendum, Placed, AllUp, Loader.Load;
    TierHolds(f, slices);
    assert |slices| == |f.podDomains| by {
      SlicedSize(f, slices);
    }
    forall i | 0 <= i < |slices|
      ensures HoldsTrunks(nets[f.podDomains[i]].inventory, Addendum(f, i).links)
    {
      assert PodLoaded(f, i, pods[i], nets[f.podDomains[i]]);
      hide PodLoaded;
      PodHolds(f, slices, i, pods[i], nets[f.podDomains[i]]);
    }
  }

  lemma SlicedSize(f: Tier, slices: seq<seq<LinkDesc>>)
    requires Sliced(f, slices)
    ensures |slices| == |f.podDomains|
  {
  }

  /** The trunks that a domain's links may be. */
  ghost predicate IsTrunkOf(f: Tier, slices: seq<seq<LinkDesc>>, domain: string, l: Link)
    requires Sliced(f, slices)
  {
    exists i, m | 0 <= i < |slices| && 0 <= m < |slices[i]| ::
      (domain == f.domain && l == Loader.ConstructLink(slices[i][m])) ||
      (domain == f.podDomains[i] && m < |Addendum(f, i).links| && l == Loader.ConstructLink(Addendum(f, i).links[m]))
  }

  lemma EveryLink(f: Tier, slices: seq<seq<LinkDesc>>, nets: map<string, Net>, domain: string, k: LinkID)
    requires Ready(f, slices, nets) && domain in nets && k in nets[domain].inventory.links
    ensures var l := nets[domain].inventory.links[k];
            Homely(nets[domain].inventory, l) || IsTrunkOf(f, slices, domain, l)
  {
    hide TierTopology, Addendum, Placed, AllUp, Homely, Tidy, Foreign;
    var l := nets[domain].inventory.links[k];
    if !Homely(nets[domain].inventory, l) {
      if domain == f.domain {
        var m :| 0 <= m < |TierTopology(f).links| && l == Loader.ConstructLink(TierTopology(f).links[m]);
        var u := TierTopology(f).links[m];
        FlattenElement(slices, u);
        var i :| 0 <= i < |slices| && u in slices[i];
        var n :| 0 <= n < |slices[i]| && slices[i][n] == u;
      } else {
        var i :| 0 <= i < |slices| && f.podDomains[i] == domain;
        assert Mirrors(slices[i], Addendum(f, i).links, f.domain, domain);
        assert HoldsTrunks(nets[domain].inventory, Addendum(f, i).links);
        var m :| 0 <= m < |Addendum(f, i).links| && l == Loader.ConstructLink(Addendum(f, i).links[m]);
        assert m < |slices[i]|;
      }
    }
  }

  /** The ports at both ends of a trunk are registered, and both domains hold its links. */
  lemma TrunkHeld(f: Tier, slices: seq<seq<LinkDesc>>, nets: map<string, Net>, i: nat, m: nat)
    requires Ready(f, slices, nets) && i < |slices| && m < |slices[i]|
    ensures f.domain in nets && f.podDomains[i] in nets && m < |Addendum(f, i).links|
    ensures Holding(nets[f.domain].inventory, Loader.ConstructLink(slices[i][m]))
    ensures Holding(nets[f.podDomains[i]].inventory, Loader.ConstructLink(Addendum(f, i).links[m]))
  {
    hide TierTopology, Addendum, Placed, AllUp, Holding, Tidy, Foreign;
    var u := slices[i][m];
    assert f.podDomains[i] in f.podDomains;
    assert Mirrors(slices[i], Addendum(f, i).links, f.domain, f.podDomains[i]);
    FlattenElement(slices, u);
    assert u in slices[i] && u in TierTopology(f).links;
    var n :| 0 <= n < |TierTopology(f).links| && TierTopology(f).links[n] == u;
    assert HoldsTrunks(nets[f.podDomains[i]].inventory, Addendum(f, i).links);
  }

  lemma ReadyLands(f: Tier, slices: seq<seq<LinkDesc>>, nets: map<string, Net>, domain: string, k: LinkID)
    requires Ready(f, slices, nets) && domain in nets && k in nets[domain].inventory.links
    ensures Lands(nets, domain, nets[domain].inventory.links[k])
  {
    var l := nets[domain].inventory.links[k];
    EveryLink(f, slices, nets, domain, k);
    if !Homely(nets[domain].inventory, l) {
      var i, m :| 0 <= i < |slices| && 0 <= m < |slices[i]| &&
        ((domain == f.domain && l == Loader.ConstructLink(slices[i][m])) ||
         (domain == f.podDomains[i] && m < |Addendum(f, i).links| && l == Loader.ConstructLink(Addendum(f, i).links[m])));
      TrunkHeld(f, slices, nets, i, m);
      TrunkLeads(f, slices, i, m);
    }
    hide TierTopology, Addendum, Placed, AllUp, Tidy, Foreign, HoldsTrunks, External, PeerOf, ValidatePort, Sliced, DistinctDomains;
  }

  lemma ReadyConnected(f: Tier, slices: seq<seq<LinkDesc>>, nets: map<string, Net>)
    requires Ready(f, slices, nets)
    ensures Connected(nets)
  {
    forall a | a in nets
      ensures Tidy(nets[a].inventory)
    {
      ReadyTidy(f, slices, nets, a);
    }
    forall a, k | a in nets && k in nets[a].inventory.links
      ensures Lands(nets, a, nets[a].inventory.links[k])
    {
      ReadyLands(f, slices, nets, a, k);
    }
    hide Lands, Tidy, Sliced, HoldsTrunks, DistinctDomains, TierTopology, Addendum, AllUp;
  }

  lemma ReadyTidy(f: Tier, slices: seq<seq<LinkDesc>>, nets: map<string, Net>, domain: string)
    requires Ready(f, slices, nets) && domain in nets
    ensures Tidy(nets[domain].inventory)
  {
    hide TierTopology, Addendum, Placed, AllUp, Tidy, Homely, Holding, FromTrunk, Mirrors;
    if domain != f.domain {
      var i :| 0 <= i < |slices| && f.podDomains[i] == domain;
      assert HoldsTrunks(nets[domain].inventory, Addendum(f, i).links);
    }
  }

  lemma LinkIsTrunk(f: Tier, slices: seq<seq<LinkDesc>>, nets: map<string, Net>, from: Place, to: Place)
    requires Ready(f, slices, nets) && LinkBetween(nets, from, to) && from.0 != to.0
    ensures |slices| == |f.podDomains| && (Trunk(f, slices, from, to) || Trunk(f, slices, to, from))
  {
    SlicedSize(f, slices);
    hide TierTopology, Addendum, Placed, AllUp, HoldsTrunks, PeerOf, ValidatePort, Sliced, DistinctDomains, Carries, IsTrunkOf, Trunk;
    var k :|
      && from.0 in nets && k in nets[from.0].inventory.links && nets[from.0].inventory.links[k].src == from.1
      && Carries(nets, from.0, nets[from.0].inventory.links[k])
      && LeadsTo(from.0, nets[from.0].inventory.links[k]) == Some(to);
    EveryLink(f, slices, nets, from.0, k);
    TrunkFrom(f, slices, from.0, nets[from.0].inventory.links[k], to);
  }

  lemma TrunkFrom(f: Tier, slices: seq<seq<LinkDesc>>, domain: string, l: Link, to: Place)
    requires Sliced(f, slices) && DistinctDomains(f)
    ensures |slices| == |f.podDomains|
    ensures IsTrunkOf(f, slices, domain, l) && LeadsTo(domain, l) == Some(to) ==>
              Trunk(f, slices, (domain, l.src), to) || Trunk(f, slices, to, (domain, l.src))
  {
    hide TierTopology, Addendum, Sliced, DistinctDomains, LeadsTo, Loader.ConstructLink, External, Trunk;
    SlicedSize(f, slices);
    if IsTrunkOf(f, slices, domain, l) {
      var i, m :| 0 <= i < |slices| && 0 <= m < |slices[i]| &&
        ((domain == f.domain && l == Loader.ConstructLink(slices[i][m])) ||
         (domain == f.podDomains[i] && m < |Addendum(f, i).links| && l == Loader.ConstructLink(Addendum(f, i).links[m])));
      TrunkLeads(f, slices, i, m);
      TrunkEnds(f, slices, i, m);
    }
  }

  lemma TrunkEnds(f: Tier, slices: seq<seq<LinkDesc>>, i: nat, m: nat)
    requires |slices| == |f.podDomains| && i < |slices| && m < |slices[i]| && m < |Addendum(f, i).links|
    ensures var up, down := slices[i][m], Addendum(f, i).links[m];
            && Loader.ConstructLink(up).src == up.src && Loader.ConstructLink(down).src == down.src
            && Trunk(f, slices, (f.domain, up.src), (f.podDomains[i], down.src))
  {
    hide Addendum;
  }

  lemma TrunkIsLink(f: Tier, slices: seq<seq<LinkDesc>>, nets: map<string, Net>, i: nat, m: nat)
    requires Ready(f, slices, nets) && i < |slices| && m < |slices[i]|
    ensures |slices| == |f.podDomains| && m < |Addendum(f, i).links|
    ensures var up, down := (f.domain, slices[i][m].src), (f.podDomains[i], Addendum(f, i).links[m].src);
            LinkBetween(nets, up, down) && LinkBetween(nets, down, up) && up.0 != down.0
  {
    SlicedSize(f, slices);
    TrunkHeld(f, slices, nets, i, m);
    TrunkLeads(f, slices, i, m);
    assert f.podDomains[i] in f.podDomains;
    var up, down := Loader.ConstructLink(slices[i][m]), Loader.ConstructLink(Addendum(f, i).links[m]);
    hide TierTopology, Addendum, Tidy, Foreign, HoldsTrunks, External, PeerOf, ValidatePort, Sliced, Placed, AllUp, Heard, PortUp, LeadsTo, DeviceOf;
    UpAndHeard(nets[f.domain], up.src);
    UpAndHeard(nets[f.podDomains[i]], down.src);
    assert Carries(nets, f.domain, up) && Carries(nets, f.podDomains[i], down);
    assert LinkBetween(nets, (f.domain, up.src), (f.podDomains[i], down.src)) by {
      assert nets[f.domain].inventory.links[up.id] == up;
    }
    assert LinkBetween(nets, (f.podDomains[i], down.src), (f.domain, up.src)) by {
      assert nets[f.podDomains[i]].inventory.links[down.id] == down;
    }
  }

  /** With the tier and all pods loaded and everything up, the links between domains that
      discovery finds are exactly the trunks, each in both directions. */
  lemma TrunksFound(f: Tier, pods: seq<Topology>, nets: map<string, Net>) returns (slices: seq<seq<LinkDesc>>)
    requires Deployed(f, pods, nets)
    ensures Sliced(f, slices) && |slices| == |f.podDomains|
    ensures forall from, to ::
              FoundFrom(nets, from, to) && from.0 != to.0 <==> Trunk(f, slices, from, to) || Trunk(f, slices, to, from)
  {
    slices := TierMirrors(f);
    assert Sliced(f, slices) by {
      hide TierTopology, Addendum, Mirrors;
    }
    hide Deployed, Sliced, Ready, FoundFrom, Trunk, Connected;
    SlicedSize(f, slices);
    DeployedReady(f, pods, nets, slices);
    ReadyConnected(f, slices, nets);
    forall from, to
      ensures FoundFrom(nets, from, to) && from.0 != to.0 <==> Trunk(f, slices, from, to) || Trunk(f, slices, to, from)
    {
      FederationExact(nets, from, to);
      if FoundFrom(nets, from, to) && from.0 != to.0 {
        LinkIsTrunk(f, slices, nets, from, to);
      }
      if Trunk(f, slices, from, to) {
        TrunkBothWays(f, slices, nets, from, to);
      }
      if Trunk(f, slices, to, from) {
        TrunkBothWays(f, slices, nets, to, from);
      }
    }
  }

  lemma TrunkBothWays(f: Tier, slices: seq<seq<LinkDesc>>, nets: map<string, Net>, from: Place, to: Place)
    requires Ready(f, slices, nets) && |slices| == |f.podDomains| && Trunk(f, slices, from, to)
    ensures LinkBetween(nets, from, to) && LinkBetween(nets, to, from) && from.0 != to.0
  {
    hide Ready, LinkBetween, Addendum;
    var i, m :|
      0 <= i < |slices| && 0 <= m < |slices[i]| && m < |Addendum(f, i).links| &&
      from == (f.domain, slices[i][m].src) && to == (f.podDomains[i], Addendum(f, i).links[m].src);
    TrunkIsLink(f, slices, nets, i, m);
  }
}

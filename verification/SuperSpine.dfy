/** The super-spine tier: superspines linked across domains to the spines of every pod.
    One topology is made for the tier, and for each pod an addendum with the same links
    as seen from the pod.

    `TierMirrors` relates the two sides, `TierLoads` says when the tier loads, and
    `AddendumLoads` and `AccessAddendumLoads` when a pod that has loaded a fabric can load its
    addendum. */
module SuperSpine {
  import opened Common
  import opened Text
  import opened Schema
  import opened TopologyBuilder
  import opened Scripts
  import opened ScriptLoads
  import opened Racks
  import opened Names
  import Loader
  import Inventory
  import PlainFabric
  import AccessFabric

  /** The domain of each pod stands in for the format it is made from. */
  datatype Tier = Tier(superSpines: nat, portCount: nat, podSpines: nat, domain: string, podDomains: seq<string>)

  function SuperName(k: nat): string {
    "superspine" + Dec(k)
  }

  function Foreign(domain: string, port: string): string {
    domain + "::" + port
  }

  /** Builder and tier topology, and the links of the pod's addendum. */
  datatype Work = Work(b: Build, addendum: seq<LinkDesc>)

  // ---- The recipe step by step

  function Supers(f: Tier, n: nat): Build {
    if n == 0 then START else Apply(Supers(f, n - 1), Switch(SuperName(n), f.portCount, None))
  }

  /** One link between domains, entered on both sides. */
  function Cross(w: Work, d1: string, domain1: string, d2: string, domain2: string): Work {
    var b1 := Advance(w.b, d1);
    var p1, p2 := PortID(d1, Upcoming(w.b.nextPort, d1)), PortID(d2, Upcoming(b1.nextPort, d2));
    var links := w.b.topology.links + [LinkDesc(p1, Foreign(domain2, p2), true)];
    Work(Advance(b1, d2).(topology := w.b.topology.(links := links)),
         w.addendum + [LinkDesc(p2, Foreign(domain1, p1), true)])
  }

  function CrossTrunk(w: Work, d1: string, domain1: string, d2: string, domain2: string, n: nat): Work {
    if n == 0 then w else Cross(CrossTrunk(w, d1, domain1, d2, domain2, n - 1), d1, domain1, d2, domain2)
  }

  /** A pod's spine is allocated from its first port again. */
  function Restart(b: Build, spine: string, portCount: nat): Build {
    b.(nextPort := b.nextPort[spine := 1], maxPort := b.maxPort[spine := portCount])
  }

  /** Links from the first `n` superspines to a pod's spine. */
  function SpineLinks(w: Work, f: Tier, podDomain: string, spine: nat, n: nat): Work {
    if n == 0 then w.(b := Restart(w.b, SpineName(spine), f.portCount))
    else CrossTrunk(SpineLinks(w, f, podDomain, spine, n - 1), SuperName(n), f.domain, SpineName(spine), podDomain, 2)
  }

  function PodLinks(w: Work, f: Tier, podDomain: string, n: nat): Work {
    if n == 0 then w else SpineLinks(PodLinks(w, f, podDomain, n - 1), f, podDomain, n, f.superSpines)
  }

  /** The builder after the first `n` pods, and their addenda. */
  function Pods(f: Tier, n: nat): (r: (Build, seq<seq<LinkDesc>>))
    requires n <= |f.podDomains|
    ensures |r.1| == n
  {
    if n == 0 then (Supers(f, f.superSpines), [])
    else
      var (b, addenda) := Pods(f, n - 1);
      var w := PodLinks(Work(b, []), f, f.podDomains[n - 1], f.podSpines);
      (w.b, addenda + [w.addendum])
  }

  function TierTopology(f: Tier): Topology {
    Pods(f, |f.podDomains|).0.topology
  }

  function Addendum(f: Tier, pod: nat): Topology
    requires pod < |f.podDomains|
  {
    Topology([], Pods(f, |f.podDomains|).1[pod], [])
  }

  // ---- The recipe in place

  method CreateExternalLinkTrunk(d1: string, domain1: string, d2: string, domain2: string, count: nat,
                                 b: Builder, t1: TopologyFile, t2: TopologyFile)
    requires t1 != t2
    modifies b, t1, t2
    ensures Work(b.With(t1, []), t2.links) ==
            CrossTrunk(old(Work(b.With(t1, []), t2.links)), d1, domain1, d2, domain2, count)
    ensures t2.devices == old(t2.devices) && t2.hosts == old(t2.hosts)
  {
    for i := 0 to count
      invariant Work(b.With(t1, []), t2.links) ==
                CrossTrunk(old(Work(b.With(t1, []), t2.links)), d1, domain1, d2, domain2, i)
      invariant t2.devices == old(t2.devices) && t2.hosts == old(t2.hosts)
    {
      ghost var w := Work(b.With(t1, []), t2.links);
      var p1 := b.NextDevicePortID(d1);
      var p2 := b.NextDevicePortID(d2);
      t1.links := t1.links + [LinkDesc(p1, domain2 + "::" + p2, true)];
      t2.links := t2.links + [LinkDesc(p2, domain1 + "::" + p1, true)];
      assert Work(b.With(t1, []), t2.links) == Cross(w, d1, domain1, d2, domain2);
    }
  }

  method GenerateSuperSpineTier(f: Tier) returns (t: TopologyFile, saved: seq<Topology>)
    ensures fresh(t) && t.Value() == TierTopology(f)
    ensures |saved| == |f.podDomains|
    ensures forall pod | 0 <= pod < |saved| :: saved[pod] == Addendum(f, pod)
  {
    t := new TopologyFile();
    saved := [];
    var b := new Builder();
    assert b.With(t, []) == START;
    for k := 1 to f.superSpines + 1
      invariant fresh(t) && fresh(b) && b.With(t, []) == Supers(f, k - 1)
    {
      b.CreateSwitch(SuperName(k), f.portCount, t);
    }
    for pod := 0 to |f.podDomains|
      invariant fresh(t) && fresh(b) && |saved| == pod
      invariant b.With(t, []) == Pods(f, pod).0
      invariant forall i | 0 <= i < pod :: saved[i] == Topology([], Pods(f, pod).1[i], [])
    {
      var podTopology := new TopologyFile();
      GeneratePod(f, f.podDomains[pod], b, t, podTopology);
      saved := saved + [podTopology.Value()];
    }
  }

  method GeneratePod(f: Tier, podDomain: string, b: Builder, t: TopologyFile, podTopology: TopologyFile)
    requires t != podTopology
    modifies b, t, podTopology
    ensures Work(b.With(t, []), podTopology.links) ==
            PodLinks(old(Work(b.With(t, []), podTopology.links)), f, podDomain, f.podSpines)
    ensures podTopology.devices == old(podTopology.devices) && podTopology.hosts == old(podTopology.hosts)
  {
    for spine := 1 to f.podSpines + 1
      invariant Work(b.With(t, []), podTopology.links) ==
                PodLinks(old(Work(b.With(t, []), podTopology.links)), f, podDomain, spine - 1)
      invariant podTopology.devices == old(podTopology.devices) && podTopology.hosts == old(podTopology.hosts)
    {
      ghost var w := Work(b.With(t, []), podTopology.links);
      b.nextPort := b.nextPort[SpineName(spine) := 1];
      b.maxPort := b.maxPort[SpineName(spine) := f.portCount];
      for k := 1 to f.superSpines + 1
        invariant Work(b.With(t, []), podTopology.links) == SpineLinks(w, f, podDomain, spine, k - 1)
        invariant podTopology.devices == old(podTopology.devices) && podTopology.hosts == old(podTopology.hosts)
      {
        CreateExternalLinkTrunk(SuperName(k), f.domain, SpineName(spine), podDomain, 2, b, t, podTopology);
      }
    }
  }

  // ---- The links in closed form

  /** The port a superspine gives out at a position, and the one a restarted spine does. */
  function Upper(f: Tier, a: nat): nat {
    Draws(1, 1, f.portCount, a)
  }

  function Lower(f: Tier, j: nat): nat {
    Draws(1, 0, f.portCount, j)
  }

  function UpPort(f: Tier, a: nat, q: nat): string {
    PortID(SuperName(q / 2 + 1), Upper(f, a + q % 2))
  }

  function DownPort(f: Tier, spine: nat, q: nat): string {
    PortID(SpineName(spine), Lower(f, q))
  }

  /** The first `n` links of one spine, on either side, when each superspine has given out
      `a` ports before. */
  function Up(f: Tier, a: nat, podDomain: string, spine: nat, n: nat): seq<LinkDesc> {
    seq(n, q requires 0 <= q => LinkDesc(UpPort(f, a, q), Foreign(podDomain, DownPort(f, spine, q)), true))
  }

  function Down(f: Tier, a: nat, spine: nat, n: nat): seq<LinkDesc> {
    seq(n, q requires 0 <= q => LinkDesc(DownPort(f, spine, q), Foreign(f.domain, UpPort(f, a, q)), true))
  }

  /** All links of one spine. */
  function RoundUp(f: Tier, a: nat, podDomain: string, spine: nat): seq<LinkDesc> {
    Up(f, a, podDomain, spine, 2 * f.superSpines)
  }

  function RoundDown(f: Tier, a: nat, spine: nat): seq<LinkDesc> {
    Down(f, a, spine, 2 * f.superSpines)
  }

  /** The links of the first `n` spines of a pod. */
  function PodUp(f: Tier, podDomain: string, a: nat, n: nat): seq<LinkDesc> {
    if n == 0 then [] else PodUp(f, podDomain, a, n - 1) + RoundUp(f, a + 2 * (n - 1), podDomain, n)
  }

  function PodDown(f: Tier, a: nat, n: nat): seq<LinkDesc> {
    if n == 0 then [] else PodDown(f, a, n - 1) + RoundDown(f, a + 2 * (n - 1), n)
  }

  /** How many ports each superspine has given out after the first `n` pods. */
  function Before(f: Tier, n: nat): nat {
    n * (2 * f.podSpines)
  }

  lemma BeforeNext(f: Tier, n: nat)
    requires n > 0
    ensures Before(f, n) == Before(f, n - 1) + 2 * f.podSpines
  {
    MulSucc(n - 1, 2 * f.podSpines);
  }

  /** The links of the first `n` pods, one pod after the other. */
  function TierUp(f: Tier, n: nat): seq<LinkDesc>
    requires n <= |f.podDomains|
  {
    if n == 0 then [] else TierUp(f, n - 1) + PodUp(f, f.podDomains[n - 1], Before(f, n - 1), f.podSpines)
  }

  lemma NamesDiffer(k: nat, l: nat)
    ensures SuperName(k) == SuperName(l) <==> k == l
    ensures SuperName(k) != SpineName(l)
    ensures '/' !in SuperName(k) && ':' !in SuperName(k)
  {
    assert SuperName(k)[1] == 'u' && SpineName(l)[1] == 'p';
    if SuperName(k) == SuperName(l) {
      SamePrefix("superspine", Dec(k), Dec(l));
      DecInjective(k, l);
    }
    assert IsNumeral(Dec(k));
    assert '/' !in DIGITS && ':' !in DIGITS;
  }

  /** Where the allocator of a device stands: the `a`-th port from 1 comes next. */
  predicate Gives(b: Build, d: string, min: nat, m: nat, a: nat) {
    At(b.minPort, d) == min && At(b.maxPort, d) == m && Upcoming(b.nextPort, d) == Draws(1, min, m, a)
  }

  lemma AdvanceGives(b: Build, d: string, e: string, min: nat, m: nat, a: nat)
    requires Gives(b, d, min, m, a)
    ensures Gives(Advance(b, e), d, min, m, if e == d then a + 1 else a)
  {
  }

  /** Before the links from superspine `n + 1` to a pod's spine are made. */
  ghost predicate InRound(b: Build, f: Tier, a: nat, spine: nat, n: nat) {
    && Gives(b, SpineName(spine), 0, f.portCount, 2 * n)
    && forall k | 1 <= k <= f.superSpines :: Gives(b, SuperName(k), 1, f.portCount, if k <= n then a + 2 else a)
  }

  /** Before the links to a pod's spine are made: superspines have given out `a` ports each,
      spines have no minimum. */
  ghost predicate Ready(b: Build, f: Tier, a: nat) {
    && (forall k | 1 <= k <= f.superSpines :: Gives(b, SuperName(k), 1, f.portCount, a))
    && (forall i: nat :: At(b.minPort, SpineName(i)) == 0)
  }

  /** The links by which the two sides have grown; minimums stay. */
  predicate Grown(w: Work, v: Work, up: seq<LinkDesc>, down: seq<LinkDesc>) {
    && v.b.minPort == w.b.minPort
    && v.b.topology == w.b.topology.(links := w.b.topology.links + up)
    && v.addendum == w.addendum + down
  }

  lemma GrownOn(w: Work, v: Work, u: Work, up: seq<LinkDesc>, down: seq<LinkDesc>, up': seq<LinkDesc>, down': seq<LinkDesc>)
    requires Grown(w, v, up, down) && Grown(v, u, up', down')
    ensures Grown(w, u, up + up', down + down')
  {
  }

  lemma CrossGives(w: Work, f: Tier, k: nat, spine: nat, podDomain: string, a: nat, j: nat)
    requires Gives(w.b, SuperName(k), 1, f.portCount, a) && Gives(w.b, SpineName(spine), 0, f.portCount, j)
    ensures var v := Cross(w, SuperName(k), f.domain, SpineName(spine), podDomain);
            var p, q := PortID(SuperName(k), Upper(f, a)), PortID(SpineName(spine), Lower(f, j));
            && Gives(v.b, SuperName(k), 1, f.portCount, a + 1) && Gives(v.b, SpineName(spine), 0, f.portCount, j + 1)
            && Grown(w, v, [LinkDesc(p, Foreign(podDomain, q), true)], [LinkDesc(q, Foreign(f.domain, p), true)])
  {
    NamesDiffer(k, spine);
    hide SuperName, SpineName, PortID, Foreign;
    var b1 := Advance(w.b, SuperName(k));
    AdvanceGives(w.b, SuperName(k), SuperName(k), 1, f.portCount, a);
    AdvanceGives(w.b, SpineName(spine), SuperName(k), 0, f.portCount, j);
    AdvanceGives(b1, SuperName(k), SpineName(spine), 1, f.portCount, a + 1);
    AdvanceGives(b1, SpineName(spine), SpineName(spine), 0, f.portCount, j);
    hide Draws, Successor;
  }

  /** The pair of links to superspine `k`, on either side. */
  function UpPair(f: Tier, a: nat, podDomain: string, spine: nat, k: nat): seq<LinkDesc>
    requires k > 0
  {
    var s := Up(f, a, podDomain, spine, 2 * k);
    [s[2 * k - 2], s[2 * k - 1]]
  }

  function DownPair(f: Tier, a: nat, spine: nat, k: nat): seq<LinkDesc>
    requires k > 0
  {
    var s := Down(f, a, spine, 2 * k);
    [s[2 * k - 2], s[2 * k - 1]]
  }

  lemma PairsJoin(f: Tier, a: nat, podDomain: string, spine: nat, k: nat)
    requires k > 0
    ensures Up(f, a, podDomain, spine, 2 * (k - 1)) + UpPair(f, a, podDomain, spine, k) == Up(f, a, podDomain, spine, 2 * k)
    ensures Down(f, a, spine, 2 * (k - 1)) + DownPair(f, a, spine, k) == Down(f, a, spine, 2 * k)
  {
    hide UpPort, DownPort, Foreign;
  }

  lemma PairParts(f: Tier, a: nat, podDomain: string, spine: nat, k: nat)
    requires k > 0
    ensures var p, q := PortID(SuperName(k), Upper(f, a)), PortID(SpineName(spine), Lower(f, 2 * (k - 1)));
            var p', q' := PortID(SuperName(k), Upper(f, a + 1)), PortID(SpineName(spine), Lower(f, 2 * (k - 1) + 1));
            && UpPair(f, a, podDomain, spine, k) ==
                 [LinkDesc(p, Foreign(podDomain, q), true)] + [LinkDesc(p', Foreign(podDomain, q'), true)]
            && DownPair(f, a, spine, k) ==
                 [LinkDesc(q, Foreign(f.domain, p), true)] + [LinkDesc(q', Foreign(f.domain, p'), true)]
  {
    Halves(f, a, k);
    var p, q := PortID(SuperName(k), Upper(f, a)), PortID(SpineName(spine), Lower(f, 2 * k - 2));
    var p', q' := PortID(SuperName(k), Upper(f, a + 1)), PortID(SpineName(spine), Lower(f, 2 * k - 1));
    hide PortID, Foreign, Upper, Lower, UpPort;
    assert Up(f, a, podDomain, spine, 2 * k)[2 * k - 2] == LinkDesc(p, Foreign(podDomain, q), true);
    assert Up(f, a, podDomain, spine, 2 * k)[2 * k - 1] == LinkDesc(p', Foreign(podDomain, q'), true);
    assert Down(f, a, spine, 2 * k)[2 * k - 2] == LinkDesc(q, Foreign(f.domain, p), true);
    assert Down(f, a, spine, 2 * k)[2 * k - 1] == LinkDesc(q', Foreign(f.domain, p'), true);
    hide Up, Down;
  }

  lemma Halves(f: Tier, a: nat, k: nat)
    requires k > 0
    ensures UpPort(f, a, 2 * k - 2) == PortID(SuperName(k), Upper(f, a))
    ensures UpPort(f, a, 2 * k - 1) == PortID(SuperName(k), Upper(f, a + 1))
  {
    assert (2 * k - 2) / 2 == (2 * k - 1) / 2 == k - 1 && (2 * k - 2) % 2 == 0 && (2 * k - 1) % 2 == 1;
    hide SuperName, PortID, Upper;
  }

  lemma TrunkGives(w: Work, f: Tier, k: nat, spine: nat, podDomain: string, a: nat)
    requires k > 0
    requires Gives(w.b, SuperName(k), 1, f.portCount, a) && Gives(w.b, SpineName(spine), 0, f.portCount, 2 * (k - 1))
    ensures var v := CrossTrunk(w, SuperName(k), f.domain, SpineName(spine), podDomain, 2);
            && Gives(v.b, SuperName(k), 1, f.portCount, a + 2) && Gives(v.b, SpineName(spine), 0, f.portCount, 2 * k)
            && Grown(w, v, UpPair(f, a, podDomain, spine, k), DownPair(f, a, spine, k))
  {
    var j := 2 * (k - 1);
    var w1 := Cross(w, SuperName(k), f.domain, SpineName(spine), podDomain);
    var w2 := Cross(w1, SuperName(k), f.domain, SpineName(spine), podDomain);
    assert CrossTrunk(w, SuperName(k), f.domain, SpineName(spine), podDomain, 1) == w1;
    assert CrossTrunk(w, SuperName(k), f.domain, SpineName(spine), podDomain, 2) == w2;
    CrossGives(w, f, k, spine, podDomain, a, j);
    CrossGives(w1, f, k, spine, podDomain, a + 1, j + 1);
    PairParts(f, a, podDomain, spine, k);
    hide *;
    var p, q := PortID(SuperName(k), Upper(f, a)), PortID(SpineName(spine), Lower(f, j));
    var p', q' := PortID(SuperName(k), Upper(f, a + 1)), PortID(SpineName(spine), Lower(f, j + 1));
    GrownOn(w, w1, w2, [LinkDesc(p, Foreign(podDomain, q), true)], [LinkDesc(q, Foreign(f.domain, p), true)],
            [LinkDesc(p', Foreign(podDomain, q'), true)], [LinkDesc(q', Foreign(f.domain, p'), true)]);
  }

  /** Allocations of the links to superspine `k` leave the other superspines alone. */
  lemma OtherGives(w: Work, f: Tier, k: nat, spine: nat, podDomain: string, l: nat, a: nat)
    requires Gives(w.b, SuperName(l), 1, f.portCount, a) && l != k
    ensures Gives(CrossTrunk(w, SuperName(k), f.domain, SpineName(spine), podDomain, 2).b, SuperName(l), 1, f.portCount, a)
  {
    NamesDiffer(l, spine);
    NamesDiffer(l, k);
    var w1 := Cross(w, SuperName(k), f.domain, SpineName(spine), podDomain);
    assert CrossTrunk(w, SuperName(k), f.domain, SpineName(spine), podDomain, 1) == w1;
    CrossOther(w, f, k, spine, podDomain, l, a);
    CrossOther(w1, f, k, spine, podDomain, l, a);
  }

  lemma CrossOther(w: Work, f: Tier, k: nat, spine: nat, podDomain: string, l: nat, a: nat)
    requires Gives(w.b, SuperName(l), 1, f.portCount, a) && l != k
    ensures Gives(Cross(w, SuperName(k), f.domain, SpineName(spine), podDomain).b, SuperName(l), 1, f.portCount, a)
  {
    NamesDiffer(l, spine);
    NamesDiffer(l, k);
    AdvanceGives(w.b, SuperName(l), SuperName(k), 1, f.portCount, a);
    AdvanceGives(Advance(w.b, SuperName(k)), SuperName(l), SpineName(spine), 1, f.portCount, a);
    hide SuperName, SpineName, PortID, Foreign, Draws;
  }

  lemma RoundStep(w: Work, f: Tier, podDomain: string, spine: nat, a: nat, n: nat)
    requires 0 < n <= f.superSpines && InRound(w.b, f, a, spine, n - 1)
    ensures InRound(CrossTrunk(w, SuperName(n), f.domain, SpineName(spine), podDomain, 2).b, f, a, spine, n)
  {
    var v := CrossTrunk(w, SuperName(n), f.domain, SpineName(spine), podDomain, 2);
    TrunkGives(w, f, n, spine, podDomain, a);
    hide CrossTrunk, Gives, SuperName, SpineName, Grown;
    forall k | 1 <= k <= f.superSpines
      ensures Gives(v.b, SuperName(k), 1, f.portCount, if k <= n then a + 2 else a)
    {
      if k != n {
        OtherGives(w, f, n, spine, podDomain, k, if k <= n then a + 2 else a);
      }
    }
  }

  lemma RoundStarts(w: Work, f: Tier, spine: nat, a: nat)
    requires Ready(w.b, f, a)
    ensures InRound(Restart(w.b, SpineName(spine), f.portCount), f, a, spine, 0)
  {
    forall k
      ensures SuperName(k) != SpineName(spine)
    {
      NamesDiffer(k, spine);
    }
    hide SuperName, SpineName;
  }

  lemma {:induction false} SpineLinksMade(w: Work, f: Tier, podDomain: string, spine: nat, a: nat, n: nat)
    requires Ready(w.b, f, a) && n <= f.superSpines
    ensures InRound(SpineLinks(w, f, podDomain, spine, n).b, f, a, spine, n)
    ensures Grown(w, SpineLinks(w, f, podDomain, spine, n), Up(f, a, podDomain, spine, 2 * n), Down(f, a, spine, 2 * n))
  {
    if n == 0 {
      RoundStarts(w, f, spine, a);
    } else {
      var u := SpineLinks(w, f, podDomain, spine, n - 1);
      SpineLinksMade(w, f, podDomain, spine, a, n - 1);
      RoundStep(u, f, podDomain, spine, a, n);
      TrunkGives(u, f, n, spine, podDomain, a);
      PairsJoin(f, a, podDomain, spine, n);
      hide Gives, CrossTrunk, Up, Down, Ready, InRound, Grown, UpPair, DownPair;
      GrownOn(w, u, SpineLinks(w, f, podDomain, spine, n), Up(f, a, podDomain, spine, 2 * (n - 1)),
              Down(f, a, spine, 2 * (n - 1)), UpPair(f, a, podDomain, spine, n), DownPair(f, a, spine, n));
    }
  }

  lemma PodStep(w: Work, f: Tier, podDomain: string, a: nat, spine: nat)
    requires Ready(w.b, f, a)
    ensures var v := SpineLinks(w, f, podDomain, spine, f.superSpines);
            && Ready(v.b, f, a + 2)
            && Grown(w, v, RoundUp(f, a, podDomain, spine), RoundDown(f, a, spine))
  {
    SpineLinksMade(w, f, podDomain, spine, a, f.superSpines);
    hide Draws, SuperName, SpineName, SpineLinks, Up, Down;
  }

  lemma {:induction false} PodLinksMade(w: Work, f: Tier, podDomain: string, a: nat, n: nat)
    requires Ready(w.b, f, a)
    ensures Ready(PodLinks(w, f, podDomain, n).b, f, a + 2 * n)
    ensures Grown(w, PodLinks(w, f, podDomain, n), PodUp(f, podDomain, a, n), PodDown(f, a, n))
  {
    hide *;
    if n == 0 {
      NoPodLinks(w, f, podDomain, a);
    } else {
      NextPodLinks(w, f, podDomain, n);
      PodLinksMade(w, f, podDomain, a, n - 1);
      PodLinksStep(w, PodLinks(w, f, podDomain, n - 1), f, podDomain, a, n);
    }
  }

  lemma NoPodLinks(w: Work, f: Tier, podDomain: string, a: nat)
    ensures PodLinks(w, f, podDomain, 0) == w && Grown(w, w, PodUp(f, podDomain, a, 0), PodDown(f, a, 0))
  {
    assert w.b.topology.links + [] == w.b.topology.links && w.addendum + [] == w.addendum;
  }

  lemma NextPodLinks(w: Work, f: Tier, podDomain: string, n: nat)
    requires n > 0
    ensures PodLinks(w, f, podDomain, n) == SpineLinks(PodLinks(w, f, podDomain, n - 1), f, podDomain, n, f.superSpines)
  {
  }

  lemma PodLinksStep(w: Work, u: Work, f: Tier, podDomain: string, a: nat, n: nat)
    requires n > 0 && Ready(u.b, f, a + 2 * (n - 1))
    requires Grown(w, u, PodUp(f, podDomain, a, n - 1), PodDown(f, a, n - 1))
    ensures var v := SpineLinks(u, f, podDomain, n, f.superSpines);
            Ready(v.b, f, a + 2 * n) && Grown(w, v, PodUp(f, podDomain, a, n), PodDown(f, a, n))
  {
    var c := a + 2 * (n - 1);
    PodStep(u, f, podDomain, c, n);
    GrownOn(w, u, SpineLinks(u, f, podDomain, n, f.superSpines), PodUp(f, podDomain, a, n - 1), PodDown(f, a, n - 1),
            RoundUp(f, c, podDomain, n), RoundDown(f, c, n));
    assert PodUp(f, podDomain, a, n) == PodUp(f, podDomain, a, n - 1) + RoundUp(f, c, podDomain, n);
    assert PodDown(f, a, n) == PodDown(f, a, n - 1) + RoundDown(f, c, n);
    hide *;
  }

  lemma SupersMade(f: Tier, n: nat)
    ensures var b := Supers(f, n);
            && b.nextPort == map[] && (forall d | d in b.minPort :: exists k | 1 <= k <= n :: d == SuperName(k))
            && (forall k | 1 <= k <= n :: At(b.minPort, SuperName(k)) == 1 && At(b.maxPort, SuperName(k)) == f.portCount)
            && b.topology.links == [] && b.topology.hosts == [] && |b.topology.devices| == n
            && forall k | 0 <= k < n ::
                 b.topology.devices[k].id == SuperName(k + 1) && b.topology.devices[k].ports == Ports(f.portCount)
  {
    hide SuperName, Ports;
  }

  lemma SupersReady(f: Tier)
    ensures Ready(Supers(f, f.superSpines), f, 0)
  {
    SupersMade(f, f.superSpines);
    forall k, i: nat
      ensures SuperName(k) != SpineName(i)
    {
      NamesDiffer(k, i);
    }
    hide SuperName, SpineName, Supers;
  }

  lemma {:induction false} PodsReady(f: Tier, n: nat)
    requires n <= |f.podDomains|
    ensures Ready(Pods(f, n).0, f, Before(f, n))
  {
    if n == 0 {
      SupersReady(f);
    } else {
      PodsReady(f, n - 1);
      NextPodReady(f, n);
    }
  }

  lemma NextPodReady(f: Tier, n: nat)
    requires 0 < n <= |f.podDomains| && Ready(Pods(f, n - 1).0, f, Before(f, n - 1))
    ensures Ready(Pods(f, n).0, f, Before(f, n))
  {
    hide *;
    NextPod(f, n);
    BeforeNext(f, n);
    PodLinksMade(Work(Pods(f, n - 1).0, []), f, f.podDomains[n - 1], Before(f, n - 1), f.podSpines);
  }

  lemma NextPod(f: Tier, n: nat)
    requires 0 < n <= |f.podDomains|
    ensures Pods(f, n).0 == PodLinks(Work(Pods(f, n - 1).0, []), f, f.podDomains[n - 1], f.podSpines).b
  {
  }

  lemma {:induction false} PodsTopology(f: Tier, n: nat)
    requires n <= |f.podDomains|
    ensures Pods(f, n).0.topology == Supers(f, f.superSpines).topology.(links := TierUp(f, n))
  {
    if n == 0 {
      SupersMade(f, f.superSpines);
    } else {
      PodsTopology(f, n - 1);
      PodsReady(f, n - 1);
      PodLinksMade(Work(Pods(f, n - 1).0, []), f, f.podDomains[n - 1], Before(f, n - 1), f.podSpines);
      hide Ready, PodLinks, PodUp, PodDown, Supers;
    }
  }

  lemma {:induction false} PodsAddenda(f: Tier, n: nat, i: nat)
    requires i < n <= |f.podDomains|
    ensures Pods(f, n).1[i] == PodDown(f, Before(f, i), f.podSpines)
  {
    if i < n - 1 {
      PodsAddenda(f, n - 1, i);
    } else {
      PodsReady(f, n - 1);
      PodLinksMade(Work(Pods(f, n - 1).0, []), f, f.podDomains[n - 1], Before(f, n - 1), f.podSpines);
      hide Ready, PodLinks, PodUp, PodDown, Supers;
    }
  }

  // ---- Which devices are joined

  /** A one-way link from a port of a device to one of a device in another domain. */
  predicate Crosses(l: LinkDesc, d: string, domain: string, e: string) {
    l.unidirectional && DeviceOf(l.src) == Some(d) && domain + "::" <= l.tgt && DeviceOf(l.tgt[|domain| + 2..]) == Some(e)
  }

  function CrossingLinks(ls: seq<LinkDesc>, d: string, domain: string, e: string): nat {
    if ls == [] then 0
    else CrossingLinks(ls[..|ls| - 1], d, domain, e) + One(Crosses(ls[|ls| - 1], d, domain, e))
  }

  lemma CrossingConcat(a: seq<LinkDesc>, b: seq<LinkDesc>, d: string, domain: string, e: string)
    ensures CrossingLinks(a + b, d, domain, e) == CrossingLinks(a, d, domain, e) + CrossingLinks(b, d, domain, e)
  {
    if b == [] {
      assert a + b == a;
    } else {
      assert (a + b)[..|a + b| - 1] == a + b[..|b| - 1];
      CrossingConcat(a, b[..|b| - 1], d, domain, e);
      hide Crosses;
    }
  }

  lemma OneCrossing(spine: nat, m: nat, domain: string, k: nat, n: nat, d: string, e: string)
    ensures CrossingLinks([LinkDesc(PortID(SpineName(spine), m), Foreign(domain, PortID(SuperName(k), n)), true)], d, domain, e) ==
            One(d == SpineName(spine) && e == SuperName(k))
  {
    var l := LinkDesc(PortID(SpineName(spine), m), Foreign(domain, PortID(SuperName(k), n)), true);
    NamesDiffer(k, spine);
    SpineInitial(spine);
    PortOn(SpineName(spine), m);
    PortOn(SuperName(k), n);
    assert l.tgt[|domain| + 2..] == PortID(SuperName(k), n);
    assert domain + "::" <= l.tgt;
    assert [l][..0] == [];
    hide SpineName, SuperName, PortID, DeviceOf;
  }

  lemma PairCrossing(f: Tier, a: nat, spine: nat, k: nat, d: string, e: string)
    requires k > 0
    ensures CrossingLinks(DownPair(f, a, spine, k), d, f.domain, e) == if d == SpineName(spine) && e == SuperName(k) then 2 else 0
  {
    hide Upper, Lower, Foreign, PortID, SpineName, SuperName, CrossingLinks, DownPair, UpPair;
    PairParts(f, a, "", spine, k);
    OneCrossing(spine, Lower(f, 2 * (k - 1)), f.domain, k, Upper(f, a), d, e);
    OneCrossing(spine, Lower(f, 2 * (k - 1) + 1), f.domain, k, Upper(f, a + 1), d, e);
    var p, q := PortID(SuperName(k), Upper(f, a)), PortID(SpineName(spine), Lower(f, 2 * (k - 1)));
    var p', q' := PortID(SuperName(k), Upper(f, a + 1)), PortID(SpineName(spine), Lower(f, 2 * (k - 1) + 1));
    CrossingConcat([LinkDesc(q, Foreign(f.domain, p), true)], [LinkDesc(q', Foreign(f.domain, p'), true)], d, f.domain, e);
  }

  predicate IsSuper(e: string, n: nat) {
    exists k | 1 <= k <= n :: e == SuperName(k)
  }

  lemma NextSuper(e: string, n: nat)
    requires n > 0
    ensures IsSuper(e, n) <==> IsSuper(e, n - 1) || e == SuperName(n)
    ensures e == SuperName(n) ==> !IsSuper(e, n - 1)
  {
    forall k: nat
      ensures SuperName(k) == SuperName(n) <==> k == n
    {
      NamesDiffer(k, n);
    }
    hide SuperName;
  }

  lemma {:induction false} DownCrossing(f: Tier, a: nat, spine: nat, n: nat, d: string, e: string)
    ensures CrossingLinks(Down(f, a, spine, 2 * n), d, f.domain, e) == if d == SpineName(spine) && IsSuper(e, n) then 2 else 0
  {
    hide SpineName, SuperName, CrossingLinks, Down, DownPair, Up, UpPair, IsSuper;
    if n == 0 {
      NoDown(f, a, spine, d, e);
    } else {
      DownCrossing(f, a, spine, n - 1, d, e);
      PairsJoin(f, a, "", spine, n);
      PairCrossing(f, a, spine, n, d, e);
      CrossingConcat(Down(f, a, spine, 2 * (n - 1)), DownPair(f, a, spine, n), d, f.domain, e);
      NextSuper(e, n);
    }
  }

  lemma NoDown(f: Tier, a: nat, spine: nat, d: string, e: string)
    ensures CrossingLinks(Down(f, a, spine, 0), d, f.domain, e) == 0 && !IsSuper(e, 0)
  {
  }

  lemma {:induction false} PodCrossing(f: Tier, a: nat, n: nat, d: string, e: string)
    ensures CrossingLinks(PodDown(f, a, n), d, f.domain, e) == if IsSpine(d, n) && IsSuper(e, f.superSpines) then 2 else 0
  {
    hide SpineName, SuperName, CrossingLinks, Down, IsSuper, IsSpine;
    if n == 0 {
      NoPodDown(f, a, d, e);
    } else {
      PodCrossing(f, a, n - 1, d, e);
      DownCrossing(f, a + 2 * (n - 1), n, f.superSpines, d, e);
      CrossingConcat(PodDown(f, a, n - 1), RoundDown(f, a + 2 * (n - 1), n), d, f.domain, e);
      NextSpine(d, n);
    }
  }

  lemma NoPodDown(f: Tier, a: nat, d: string, e: string)
    ensures CrossingLinks(PodDown(f, a, 0), d, f.domain, e) == 0 && !IsSpine(d, 0)
  {
  }

  /** Every spine of every pod is joined to every superspine by two links, and to nothing else. */
  lemma AddendumLinks(f: Tier, pod: nat, d: string, e: string)
    requires pod < |f.podDomains|
    ensures CrossingLinks(Addendum(f, pod).links, d, f.domain, e) ==
            if IsSpine(d, f.podSpines) && IsSuper(e, f.superSpines) then 2 else 0
    ensures |Addendum(f, pod).links| == f.podSpines * (2 * f.superSpines)
  {
    PodsAddenda(f, |f.podDomains|, pod);
    hide Pods, PodDown, IsSpine, IsSuper, CrossingLinks;
    PodCrossing(f, Before(f, pod), f.podSpines, d, e);
    PodDownSize(f, Before(f, pod), f.podSpines);
  }

  lemma {:induction false} PodDownSize(f: Tier, a: nat, n: nat)
    ensures |PodDown(f, a, n)| == n * (2 * f.superSpines)
  {
    if n > 0 {
      PodDownSize(f, a, n - 1);
      MulSucc(n - 1, 2 * f.superSpines);
      hide DownPort, UpPort;
    }
  }

  // ---- The two sides

  /** Seen from either side, a link leaves where the other side's link arrives. */
  predicate Mirrors(up: seq<LinkDesc>, down: seq<LinkDesc>, domain: string, podDomain: string) {
    && |up| == |down|
    && forall i | 0 <= i < |up| ::
         && up[i].unidirectional && up[i].tgt == Foreign(podDomain, down[i].src)
         && down[i].unidirectional && down[i].tgt == Foreign(domain, up[i].src)
  }

  lemma PodMirrors(f: Tier, podDomain: string, a: nat, n: nat)
    ensures Mirrors(PodUp(f, podDomain, a, n), PodDown(f, a, n), f.domain, podDomain)
  {
    hide UpPort, DownPort, Foreign;
  }

  lemma TierSlices(f: Tier, n: nat) returns (slices: seq<seq<LinkDesc>>)
    requires n <= |f.podDomains|
    ensures |slices| == n && TierUp(f, n) == Flatten(slices)
    ensures forall i | 0 <= i < n :: slices[i] == PodUp(f, f.podDomains[i], Before(f, i), f.podSpines)
  {
    if n == 0 {
      slices := [];
    } else {
      var front := TierSlices(f, n - 1);
      var last := PodUp(f, f.podDomains[n - 1], Before(f, n - 1), f.podSpines);
      slices := front + [last];
      FlattenSnoc(front, last);
    }
  }

  /** The tier's links fall into one slice for each pod, and each slice mirrors the links of
      that pod's addendum, one for one and in order. */
  lemma TierMirrors(f: Tier) returns (slices: seq<seq<LinkDesc>>)
    ensures TierTopology(f).links == Flatten(slices) && |slices| == |f.podDomains|
    ensures forall i | 0 <= i < |slices| :: Mirrors(slices[i], Addendum(f, i).links, f.domain, f.podDomains[i])
  {
    slices := TierSlices(f, |f.podDomains|);
    PodsTopology(f, |f.podDomains|);
    forall i | 0 <= i < |slices|
      ensures Mirrors(slices[i], Addendum(f, i).links, f.domain, f.podDomains[i])
    {
      PodsAddenda(f, |f.podDomains|, i);
      PodMirrors(f, f.podDomains[i], Before(f, i), f.podSpines);
    }
    hide Pods, TierUp, PodUp, PodDown, Supers, Mirrors, Flatten;
  }

  // ---- Loading the tier

  /** The allocators at the start: upwards port by port, then from the minimum again. */
  lemma EarlyPorts(f: Tier, a: nat)
    ensures a < f.portCount ==> Upper(f, a) == a + 1 && Lower(f, a) == a + 1
    ensures a == f.portCount ==> Upper(f, a) == 1 && (a > 0 ==> Lower(f, a) == 0)
  {
    if a > 0 {
      EarlyPorts(f, a - 1);
    }
  }

  lemma NoPortsAtAll(f: Tier)
    requires f.portCount == 0
    ensures Lower(f, 1) == 0
  {
    assert Draws(1, 0, 0, 0) == 1;
  }

  /** Links that start at superspines, at positions of a range. */
  ghost predicate Between(f: Tier, ls: seq<LinkDesc>, lo: nat, hi: nat) {
    forall l | l in ls :: l.unidirectional && HasDelimiter(l.tgt) && exists k, p: nat ::
      1 <= k <= f.superSpines && lo <= p < hi && l.src == PortID(SuperName(k), Upper(f, p))
  }

  predicate Distinct(ls: seq<LinkDesc>) {
    forall i, j | 0 <= i < j < |ls| :: ls[i].src != ls[j].src
  }

  lemma UpBetween(f: Tier, a: nat, podDomain: string, spine: nat)
    ensures Between(f, RoundUp(f, a, podDomain, spine), a, a + 2)
    ensures a + 2 <= f.portCount ==> Distinct(RoundUp(f, a, podDomain, spine))
  {
    hide HasDelimiter, SuperName, PortID, Upper;
    var ls := RoundUp(f, a, podDomain, spine);
    forall q | 0 <= q < |ls|
      ensures ls[q].unidirectional && HasDelimiter(ls[q].tgt)
      ensures 1 <= q / 2 + 1 <= f.superSpines && a <= a + q % 2 < a + 2
      ensures ls[q].src == PortID(SuperName(q / 2 + 1), Upper(f, a + q % 2))
    {
      DomainHasDelimiter(podDomain, DownPort(f, spine, q));
    }
    hide RoundUp;
    if a + 2 <= f.portCount {
      forall i, j | 0 <= i < j < |ls|
        ensures ls[i].src != ls[j].src
      {
        SamePosition(f, i / 2 + 1, a + i % 2, j / 2 + 1, a + j % 2);
      }
    }
  }

  /** In the first round of allocation, ports tell superspines and positions apart. */
  lemma SamePosition(f: Tier, k: nat, p: nat, l: nat, q: nat)
    requires p < f.portCount && q < f.portCount
    ensures PortID(SuperName(k), Upper(f, p)) == PortID(SuperName(l), Upper(f, q)) <==> k == l && p == q
  {
    EarlyPorts(f, p);
    EarlyPorts(f, q);
    NamesDiffer(k, l);
    NamesDiffer(l, k);
    SamePort(SuperName(k), p + 1, SuperName(l), q + 1);
    hide SuperName, PortID;
  }

  lemma Joined(f: Tier, x: seq<LinkDesc>, y: seq<LinkDesc>, lo: nat, mid: nat, hi: nat)
    requires lo <= mid <= hi && Between(f, x, lo, mid) && Between(f, y, mid, hi)
    ensures Between(f, x + y, lo, hi)
    ensures hi <= f.portCount && Distinct(x) && Distinct(y) ==> Distinct(x + y)
  {
    hide SuperName, PortID, HasDelimiter, Upper;
    if hi <= f.portCount && Distinct(x) && Distinct(y) {
      forall i, j | 0 <= i < |x| && 0 <= j < |y|
        ensures x[i].src != y[j].src
      {
        assert x[i] in x && y[j] in y;
        var k, p: nat :| 1 <= k <= f.superSpines && lo <= p < mid && x[i].src == PortID(SuperName(k), Upper(f, p));
        var l, q: nat :| 1 <= l <= f.superSpines && mid <= q < hi && y[j].src == PortID(SuperName(l), Upper(f, q));
        SamePosition(f, k, p, l, q);
      }
    }
  }

  lemma {:induction false} PodUpBetween(f: Tier, podDomain: string, a: nat, n: nat)
    ensures Between(f, PodUp(f, podDomain, a, n), a, a + 2 * n)
    ensures a + 2 * n <= f.portCount ==> Distinct(PodUp(f, podDomain, a, n))
  {
    if n > 0 {
      var c := a + 2 * (n - 1);
      assert c + 2 == a + 2 * n && PodUp(f, podDomain, a, n) == PodUp(f, podDomain, a, n - 1) + RoundUp(f, c, podDomain, n);
      hide *;
      PodUpBetween(f, podDomain, a, n - 1);
      UpBetween(f, c, podDomain, n);
      Joined(f, PodUp(f, podDomain, a, n - 1), RoundUp(f, c, podDomain, n), a, c, c + 2);
    }
  }

  lemma {:induction false} TierUpBetween(f: Tier, n: nat)
    requires n <= |f.podDomains|
    ensures Between(f, TierUp(f, n), 0, Before(f, n))
    ensures Before(f, n) <= f.portCount ==> Distinct(TierUp(f, n))
  {
    if n > 0 {
      TierUpBetween(f, n - 1);
      BeforeNext(f, n);
      PodUpBetween(f, f.podDomains[n - 1], Before(f, n - 1), f.podSpines);
      hide Between, Distinct, PodUp, Before;
      Joined(f, TierUp(f, n - 1), PodUp(f, f.podDomains[n - 1], Before(f, n - 1), f.podSpines),
             0, Before(f, n - 1), Before(f, n));
    }
  }

  // ---- Every position comes up

  lemma PodUpAt(f: Tier, podDomain: string, a: nat, n: nat, p: nat) returns (i: nat)
    requires f.superSpines > 0 && a <= p < a + 2 * n
    ensures i < |PodUp(f, podDomain, a, n)| && PodUp(f, podDomain, a, n)[i].src == PortID(SuperName(1), Upper(f, p))
    ensures i == 0 <==> p == a
  {
    hide SuperName, PortID, Upper;
    if p < a + 2 * (n - 1) {
      i := PodUpAt(f, podDomain, a, n - 1, p);
    } else {
      var c := a + 2 * (n - 1);
      if n > 1 {
        var _ := PodUpAt(f, podDomain, a, n - 1, a);
      }
      i := |PodUp(f, podDomain, a, n - 1)| + (p - c);
      assert PodUp(f, podDomain, a, n)[i] == RoundUp(f, c, podDomain, n)[p - c];
    }
  }

  lemma TierUpAt(f: Tier, n: nat, p: nat) returns (i: nat)
    requires f.superSpines > 0 && n <= |f.podDomains| && p < Before(f, n)
    ensures i < |TierUp(f, n)| && TierUp(f, n)[i].src == PortID(SuperName(1), Upper(f, p))
    ensures i == 0 <==> p == 0
  {
    BeforeNext(f, n);
    hide SuperName, PortID, Upper, PodUp;
    if p < Before(f, n - 1) {
      i := TierUpAt(f, n - 1, p);
    } else {
      var j := PodUpAt(f, f.podDomains[n - 1], Before(f, n - 1), f.podSpines, p);
      if n > 1 {
        BeforeNext(f, n - 1);
        var _ := TierUpAt(f, n - 1, 0);
      }
      i := |TierUp(f, n - 1)| + j;
    }
  }

  lemma SuperPorts(f: Tier, n: nat, k: nat, j: nat)
    ensures Loader.HasPort(Supers(f, n).topology.devices, PortID(SuperName(k), j)) <==> 1 <= k <= n && 1 <= j <= f.portCount
  {
    hide SuperName;
    if n > 0 {
      var ds := Supers(f, n - 1).topology.devices;
      var d := DeviceDesc(SuperName(n), Supers(f, n - 1).agentPort + AGENT_PORT_OFFSET, Ports(f.portCount));
      SuperPorts(f, n - 1, k, j);
      NamesDiffer(n, k);
      NamesDiffer(k, n);
      HasPortSnoc(ds, d, PortID(SuperName(k), j));
      NewDevicePorts(d.id, d.agentPort, f.portCount, SuperName(k), j);
      hide Loader.HasPort, PortID, Ports;
    }
  }

  lemma TierSize(f: Tier, n: nat)
    requires n <= |f.podDomains|
    ensures |TierUp(f, n)| == n * (f.podSpines * (2 * f.superSpines))
  {
    if n > 0 {
      TierSize(f, n - 1);
      PodSize(f, f.podDomains[n - 1], Before(f, n - 1), f.podSpines);
      MulSucc(n - 1, f.podSpines * (2 * f.superSpines));
      hide PodUp, Before;
    }
  }

  lemma PodSize(f: Tier, podDomain: string, a: nat, n: nat)
    ensures |PodUp(f, podDomain, a, n)| == n * (2 * f.superSpines)
  {
    if n > 0 {
      PodSize(f, podDomain, a, n - 1);
      MulSucc(n - 1, 2 * f.superSpines);
    }
  }

  lemma SupersDistinct(f: Tier, n: nat)
    ensures Loader.DistinctDevices(Supers(f, n).topology.devices)
  {
    SupersMade(f, n);
    forall k: nat, l: nat
      ensures SuperName(k) == SuperName(l) ==> k == l
    {
      NamesDiffer(k, l);
    }
    hide Supers, SuperName;
  }

  /** Superspine ports are free from the start; whether they suffice is the only question. */
  lemma TierSources(f: Tier, s: Inventory.Sim)
    requires forall k: nat, j: nat :: Loader.Free(s, PortID(SuperName(k), j)) <==> 1 <= k <= f.superSpines && 1 <= j <= f.portCount
    ensures var ls := TierUp(f, |f.podDomains|);
            Loader.SourcesFree(s, ls) <==> f.superSpines == 0 || Before(f, |f.podDomains|) <= f.portCount
  {
    var n := |f.podDomains|;
    var ls := TierUp(f, n);
    TierUpBetween(f, n);
    hide SuperName, PortID, HasDelimiter, Upper, TierUp, Loader.Free, Before;
    if f.superSpines == 0 || Before(f, n) <= f.portCount {
      forall l | l in ls
        ensures Loader.Free(s, l.src)
      {
        var k, p: nat :| 1 <= k <= f.superSpines && 0 <= p < Before(f, n) && l.src == PortID(SuperName(k), Upper(f, p));
        EarlyPorts(f, p);
      }
      if |ls| > 0 {
        SomeSuper(f, ls, Before(f, n));
      }
    } else {
      var i := TierUpAt(f, n, 0);
      EarlyPorts(f, 0);
      if f.portCount == 0 {
        assert !Loader.Free(s, ls[i].src);
      } else {
        var j := TierUpAt(f, n, f.portCount);
        EarlyPorts(f, f.portCount);
        assert i < j && ls[i].src == ls[j].src;
      }
    }
  }

  lemma SomeSuper(f: Tier, ls: seq<LinkDesc>, hi: nat)
    requires Between(f, ls, 0, hi) && |ls| > 0
    ensures f.superSpines > 0
  {
    var l := ls[0];
    assert l in ls;
  }

  /** The tier's devices loaded, no link made yet. */
  lemma TierStart(f: Tier)
    ensures var (s, o) := Loader.LoadDevices(Inventory.EMPTY, Supers(f, f.superSpines).topology.devices);
            && o == Done && s == Inventory.EMPTY.(devices := s.devices) && |s.devices| == f.superSpines
            && forall k: nat, j: nat :: Loader.Free(s, PortID(SuperName(k), j)) <==> 1 <= k <= f.superSpines && 1 <= j <= f.portCount
  {
    var ds := Supers(f, f.superSpines).topology.devices;
    var s := Loader.LoadDevices(Inventory.EMPTY, ds).0;
    SupersMade(f, f.superSpines);
    SupersDistinct(f, f.superSpines);
    Loader.LoadDevicesIff(ds);
    assert |s.devices| == f.superSpines && s.egress == map[];
    hide Loader.HasPort, Inventory.ValidatePort, Loader.LoadDevices, PortID, SuperName, Supers, Loader.DistinctDevices, Ports;
    forall k: nat, j: nat
      ensures Loader.Free(s, PortID(SuperName(k), j)) <==> 1 <= k <= f.superSpines && 1 <= j <= f.portCount
    {
      Loader.ValidAfterDevices(ds, PortID(SuperName(k), j));
      SuperPorts(f, f.superSpines, k, j);
    }
  }

  lemma TierLoadIs(f: Tier)
    ensures var ds := Supers(f, f.superSpines).topology.devices;
            Loader.Load(Inventory.EMPTY, TierTopology(f)) ==
            Loader.LoadLinks(Loader.LoadDevices(Inventory.EMPTY, ds).0, Loader.DirectedLinks(TierUp(f, |f.podDomains|)))
  {
    PodsTopology(f, |f.podDomains|);
    SupersMade(f, f.superSpines);
    TierStart(f);
    hide Pods, Supers, TierUp, Loader.LoadDevices, Loader.LoadLinks, Loader.Free;
  }

  /** The tier loads exactly if each superspine has two ports for every spine of every pod. */
  lemma TierLoads(f: Tier)
    ensures Loader.Load(Inventory.EMPTY, TierTopology(f)).1 == Done <==>
            f.superSpines == 0 || Before(f, |f.podDomains|) <= f.portCount
    ensures Loader.Load(Inventory.EMPTY, TierTopology(f)).1 == Done ==>
              var r := Loader.Load(Inventory.EMPTY, TierTopology(f)).0;
              && |r.devices| == f.superSpines
              && |r.links| == |f.podDomains| * (f.podSpines * (2 * f.superSpines))
              && r.hosts == map[]
  {
    var n := |f.podDomains|;
    var s := Loader.LoadDevices(Inventory.EMPTY, Supers(f, f.superSpines).topology.devices).0;
    TierLoadIs(f);
    TierStart(f);
    TierSources(f, s);
    TierUpBetween(f, n);
    TierSize(f, n);
    hide Supers, TierUp, TierTopology, Before, HasDelimiter, SuperName, PortID, Upper;
    hide Loader.Load, Loader.LoadDevices, Loader.LoadLinks, Loader.Free, Loader.SourcesFree;
    Loader.ForeignLinksIff(s, TierUp(f, n));
  }

  // ---- Loading an addendum

  /** Links that start at the first `n` spines, at one of the first `m` positions. */
  ghost predicate FromSpines(f: Tier, ls: seq<LinkDesc>, n: nat, m: nat) {
    forall l | l in ls :: l.unidirectional && HasDelimiter(l.tgt) && exists i, q: nat ::
      1 <= i <= n && q < m && l.src == PortID(SpineName(i), Lower(f, q))
  }

  lemma DownFrom(f: Tier, a: nat, spine: nat)
    requires spine > 0
    ensures FromSpines(f, RoundDown(f, a, spine), spine, 2 * f.superSpines)
    ensures 2 * f.superSpines <= f.portCount ==> Distinct(RoundDown(f, a, spine))
  {
    var ls := RoundDown(f, a, spine);
    forall q | 0 <= q < |ls|
      ensures ls[q].unidirectional && HasDelimiter(ls[q].tgt) && ls[q].src == PortID(SpineName(spine), Lower(f, q))
    {
      DomainHasDelimiter(f.domain, UpPort(f, a, q));
    }
    hide HasDelimiter, RoundDown, SpineName, PortID, Lower;
    if 2 * f.superSpines <= f.portCount {
      forall i, j | 0 <= i < j < |ls|
        ensures ls[i].src != ls[j].src
      {
        SameSpinePort(f, spine, i, spine, j);
      }
    }
  }

  lemma SameSpinePort(f: Tier, k: nat, p: nat, l: nat, q: nat)
    requires p < f.portCount && q < f.portCount
    ensures PortID(SpineName(k), Lower(f, p)) == PortID(SpineName(l), Lower(f, q)) <==> k == l && p == q
  {
    EarlyPorts(f, p);
    EarlyPorts(f, q);
    SpineInitial(k);
    SpineInitial(l);
    if SpineName(k) == SpineName(l) {
      SpineNamesDiffer(k, l);
    }
    SamePort(SpineName(k), p + 1, SpineName(l), q + 1);
    hide SpineName, PortID;
  }

  lemma {:induction false} PodDownFrom(f: Tier, a: nat, n: nat)
    ensures FromSpines(f, PodDown(f, a, n), n, 2 * f.superSpines)
    ensures 2 * f.superSpines <= f.portCount ==> Distinct(PodDown(f, a, n))
  {
    if n > 0 {
      PodDownFrom(f, a, n - 1);
      DownFrom(f, a + 2 * (n - 1), n);
      DownJoined(f, PodDown(f, a, n - 1), a + 2 * (n - 1), n);
      hide Distinct, RoundDown, FromSpines;
    }
  }

  lemma DownJoined(f: Tier, x: seq<LinkDesc>, a: nat, n: nat)
    requires n > 0 && FromSpines(f, x, n - 1, 2 * f.superSpines)
    ensures FromSpines(f, x + RoundDown(f, a, n), n, 2 * f.superSpines)
    ensures 2 * f.superSpines <= f.portCount && Distinct(x) ==> Distinct(x + RoundDown(f, a, n))
  {
    var y := RoundDown(f, a, n);
    DownFrom(f, a, n);
    forall q | 0 <= q < |y|
      ensures y[q].src == PortID(SpineName(n), Lower(f, q))
    {
    }
    hide HasDelimiter, RoundDown, SpineName, PortID, Lower;
    if 2 * f.superSpines <= f.portCount && Distinct(x) {
      forall i, j | 0 <= i < |x| && 0 <= j < |y|
        ensures x[i].src != y[j].src
      {
        assert x[i] in x;
        var k, p: nat :| 1 <= k <= n - 1 && p < 2 * f.superSpines && x[i].src == PortID(SpineName(k), Lower(f, p));
        SameSpinePort(f, k, p, n, j);
      }
    }
  }

  /** Every position of every spine comes up in the addendum. */
  lemma PodDownAt(f: Tier, a: nat, n: nat, spine: nat, q: nat) returns (i: nat)
    requires 1 <= spine <= n && q < 2 * f.superSpines
    ensures i < |PodDown(f, a, n)| && PodDown(f, a, n)[i].src == PortID(SpineName(spine), Lower(f, q))
  {
    hide SpineName, PortID, Lower;
    if spine < n {
      i := PodDownAt(f, a, n - 1, spine, q);
    } else {
      i := |PodDown(f, a, n - 1)| + q;
      assert PodDown(f, a, n)[i] == RoundDown(f, a + 2 * (n - 1), n)[q];
    }
  }

  /** What a pod must offer for its addendum to load: spines enough, with room for two links
      to each superspine. */
  predicate Welcomes(f: Tier, spines: nat, room: bool) {
    f.podSpines == 0 || f.superSpines == 0 || (2 * f.superSpines <= f.portCount && f.podSpines <= spines && room)
  }

  lemma WelcomeSources(f: Tier, a: nat, s: Inventory.Sim, spines: nat, room: bool)
    requires f.superSpines > 0 ==> Offers(s, spines, 2 * f.superSpines, room)
    requires Welcomes(f, spines, room)
    ensures Loader.SourcesFree(s, PodDown(f, a, f.podSpines))
  {
    var ls := PodDown(f, a, f.podSpines);
    PodDownFrom(f, a, f.podSpines);
    hide SpineName, PortID, HasDelimiter, Lower, PodDown, Loader.Free;
    if f.podSpines == 0 || f.superSpines == 0 {
      if |ls| > 0 {
        SomeSpine(f, ls, f.podSpines, 2 * f.superSpines);
      }
    } else {
      forall l | l in ls
        ensures Loader.Free(s, l.src)
      {
        var i, q: nat :| 1 <= i <= f.podSpines && q < 2 * f.superSpines && l.src == PortID(SpineName(i), Lower(f, q));
        OfferedPort(s, spines, 2 * f.superSpines, i, q + 1);
        EarlyPorts(f, q);
      }
    }
  }

  lemma OfferedPort(s: Inventory.Sim, spines: nat, n: nat, i: nat, k: nat)
    requires Offers(s, spines, n, true) && 1 <= i <= spines && 1 <= k <= n
    ensures Loader.Free(s, PortID(SpineName(i), k))
  {
    assert FreeFrom(s, i, n);
    hide SpineName, PortID, Loader.Free;
  }

  lemma SomeSpine(f: Tier, ls: seq<LinkDesc>, n: nat, m: nat)
    requires FromSpines(f, ls, n, m) && |ls| > 0
    ensures n > 0 && m > 0
  {
    var l := ls[0];
    assert l in ls;
  }

  /** Past the last port of a spine, allocation goes to port 0. */
  lemma PortZero(f: Tier) returns (q: nat)
    requires f.portCount < 2 * f.superSpines
    ensures q < 2 * f.superSpines && Lower(f, q) == 0
  {
    if f.portCount == 0 {
      NoPortsAtAll(f);
      q := 1;
    } else {
      EarlyPorts(f, f.portCount);
      q := f.portCount;
    }
  }

  lemma SourceAt(f: Tier, a: nat, s: Inventory.Sim, spines: nat, room: bool, spine: nat, q: nat)
    requires Offers(s, spines, 2 * f.superSpines, room) && Loader.SourcesFree(s, PodDown(f, a, f.podSpines))
    requires 1 <= spine <= f.podSpines && q < 2 * f.superSpines
    ensures spine <= spines && Lower(f, q) > 0 && Loader.Free(s, PortID(SpineName(spine), Lower(f, q)))
  {
    hide SpineName, PortID, Lower, PodDown, Loader.Free;
    var i := PodDownAt(f, a, f.podSpines, spine, q);
    assert FreeOnly(s, spine, spines);
  }

  lemma SourcesWelcome(f: Tier, a: nat, s: Inventory.Sim, spines: nat, room: bool)
    requires f.superSpines > 0 ==> Offers(s, spines, 2 * f.superSpines, room)
    requires Loader.SourcesFree(s, PodDown(f, a, f.podSpines))
    ensures Welcomes(f, spines, room)
  {
    hide SpineName, PortID, Lower, PodDown, Loader.Free, Loader.SourcesFree;
    if f.podSpines > 0 && f.superSpines > 0 {
      SourceAt(f, a, s, spines, room, f.podSpines, 0);
      if f.portCount < 2 * f.superSpines {
        var q := PortZero(f);
        SourceAt(f, a, s, spines, room, 1, q);
      } else {
        forall k | 1 <= k <= 2 * f.superSpines
          ensures Loader.Free(s, PortID(SpineName(1), k))
        {
          EarlyPorts(f, k - 1);
          SourceAt(f, a, s, spines, room, 1, k - 1);
        }
        assert FreeFrom(s, 1, 2 * f.superSpines);
      }
    }
  }

  /** A pod can load its addendum exactly if it has enough spines with enough free ports. */
  lemma AddendumIff(f: Tier, pod: nat, s: Inventory.Sim, spines: nat, room: bool)
    requires pod < |f.podDomains| && forall k | k in s.links :: k.src in s.egress
    requires f.superSpines > 0 ==> Offers(s, spines, 2 * f.superSpines, room)
    ensures Loader.Load(s, Addendum(f, pod)).1 == Done <==> Welcomes(f, spines, room)
  {
    var ls := Addendum(f, pod).links;
    PodsAddenda(f, |f.podDomains|, pod);
    PodDownFrom(f, Before(f, pod), f.podSpines);
    if Welcomes(f, spines, room) {
      WelcomeSources(f, Before(f, pod), s, spines, room);
    }
    if Loader.SourcesFree(s, ls) {
      SourcesWelcome(f, Before(f, pod), s, spines, room);
    }
    hide Pods, PodDown, HasDelimiter, SpineName, PortID, Lower, Welcomes, Offers;
    hide Loader.LoadLinks, Loader.SourcesFree;
    Loader.ForeignLinksIff(s, ls);
    JustLinks(s, Addendum(f, pod));
  }

  lemma JustLinks(s: Inventory.Sim, t: Topology)
    requires t.devices == [] && t.hosts == []
    ensures Loader.Load(s, t) == Loader.LoadLinks(s, Loader.DirectedLinks(t.links))
  {
    assert forall u :: Loader.LoadHosts(u, []) == (u, Done);
    assert Loader.LoadDevices(s, []) == (s, Done);
    hide Loader.LoadLinks, Loader.DirectedLinks;
  }

  /** A pod that has loaded a plain fabric can load its addendum exactly if the fabric offers
      enough spines with enough free ports. */
  lemma AddendumLoads(f: Tier, pod: nat, g: PlainFabric.Recipe)
    requires pod < |f.podDomains| && !PlainFabric.Clashes(g) && PlainFabric.Fits(g)
    ensures var s := Loader.Load(Inventory.EMPTY, PlainFabric.PlainTopology(g)).0;
            Loader.Load(s, Addendum(f, pod)).1 == Done <==>
            Welcomes(f, g.spines, PlainFabric.Room(g, 2 * f.superSpines))
  {
    assert PlainFabric.PlainTopology(g) == Made(PlainFabric.PlainScript(g));
    hide *;
    PlainFabric.PlainLoadable(g);
    LoadedSources(PlainFabric.PlainScript(g));
    if f.superSpines > 0 {
      PlainFabric.PlainOffers(g, 2 * f.superSpines);
    }
    AddendumIff(f, pod, Loader.Load(Inventory.EMPTY, PlainFabric.PlainTopology(g)).0, g.spines, PlainFabric.Room(g, 2 * f.superSpines));
  }

  /** A pod that has loaded an access fabric can so only if nothing is attached to the spines,
      since access fabrics reserve no ports. */
  lemma AccessAddendumLoads(f: Tier, pod: nat, g: AccessFabric.Recipe)
    requires pod < |f.podDomains| && !AccessFabric.Clashes(g) && AccessFabric.Fits(g)
    ensures var s := Loader.Load(Inventory.EMPTY, AccessFabric.AccessTopology(g)).0;
            Loader.Load(s, Addendum(f, pod)).1 == Done <==>
            Welcomes(f, g.spines, AccessFabric.Room(g, 2 * f.superSpines))
  {
    AccessFabric.AccessMade(g);
    hide *;
    AccessFabric.AccessLoadable(g);
    LoadedSources(AccessFabric.AccessScript(g));
    if f.superSpines > 0 {
      AccessFabric.AccessOffers(g, 2 * f.superSpines);
    }
    AddendumIff(f, pod, Loader.Load(Inventory.EMPTY, AccessFabric.AccessTopology(g)).0, g.spines, AccessFabric.Room(g, 2 * f.superSpines));
  }
}

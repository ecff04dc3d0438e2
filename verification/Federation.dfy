/** Discovery across domains: a packet sent out on a link to another domain is emitted by the
    peer that serves that domain.

    `FederationExact` says what discovery finds in all domains together, and `TierDiscovery`
    that across a super-spine tier and its pods it finds just the trunks, both ways. */
module Federation {
  import opened Common
  import opened Text
  import opened Inventory
  import opened Lldp

  // ---- Ports of other domains

  /** The text before the first delimiter (all of it when there is none). */
  function BeforeDelimiter(s: string): (r: string)
    ensures |r| <= |s| && s[..|r|] == r
    ensures HasDelimiter(s) ==> |r| + 2 <= |s|
  {
    if |s| < 2 then s
    else if s[0] == ':' && s[1] == ':' then ""
    else
      assert HasDelimiter(s) ==> HasDelimiter(s[1..]) by {
        if HasDelimiter(s) {
          var i :| 0 <= i < |s| - 1 && s[i] == ':' && s[i + 1] == ':';
          assert s[1..][i - 1] == ':' && s[1..][i] == ':';
        }
      }
      [s[0]] + BeforeDelimiter(s[1..])
  }

  /** Domain and port that a foreign port ID names: its first two parts. */
  function PeerOf(id: string): Option<(string, string)> {
    if !HasDelimiter(id) then None
    else
      var domain := BeforeDelimiter(id);
      Some((domain, BeforeDelimiter(id[|domain| + 2..])))
  }

  /** No delimiter starts earlier. */
  lemma {:induction false} FirstDelimiter(s: string, i: nat)
    requires i + 1 < |s| && s[i] == ':' && s[i + 1] == ':'
    ensures |BeforeDelimiter(s)| <= i
  {
    if !(s[0] == ':' && s[1] == ':') {
      assert s[1..][i - 1] == ':' && s[1..][i] == ':';
      FirstDelimiter(s[1..], i - 1);
    }
  }

  lemma {:induction false} BeforeJoined(domain: string, port: string)
    requires !HasDelimiter(domain + ":")
    ensures BeforeDelimiter(domain + "::" + port) == domain
  {
    var s := domain + "::" + port;
    if domain != "" {
      assert s[1..] == domain[1..] + "::" + port && [domain[0]] + domain[1..] == domain;
      var t := domain + ":";
      assert !(t[0] == ':' && t[1] == ':') && s[0] == t[0] && s[1] == t[1];
      assert domain[1..] + ":" == t[1..];
      forall i | 0 <= i < |t[1..]| - 1
        ensures !(t[1..][i] == ':' && t[1..][i + 1] == ':')
      {
        assert t[1..][i] == t[i + 1] && t[1..][i + 1] == t[i + 2];
      }
      BeforeJoined(domain[1..], port);
    }
  }

  lemma {:induction false} NothingBefore(port: string)
    requires !HasDelimiter(port)
    ensures BeforeDelimiter(port) == port
  {
    if |port| >= 2 {
      assert !(port[0] == ':' && port[1] == ':');
      forall i | 0 <= i < |port[1..]| - 1
        ensures !(port[1..][i] == ':' && port[1..][i + 1] == ':')
      {
        assert port[1..][i] == port[i + 1] && port[1..][i + 1] == port[i + 2];
      }
      NothingBefore(port[1..]);
      assert [port[0]] + port[1..] == port;
    }
  }

  /** Domain and port come back from a foreign port ID exactly if the domain has no delimiter
      and does not end in a colon.  A single colon, as before a port number, does no harm. */
  lemma JoinedPeer(domain: string, port: string)
    requires !HasDelimiter(port)
    ensures PeerOf(domain + "::" + port) == Some((domain, port)) <==> !HasDelimiter(domain + ":")
  {
    var s, t := domain + "::" + port, domain + ":";
    DomainHasDelimiter(domain, port);
    assert s[..|t|] == t;
    if i :| 0 <= i < |t| - 1 && t[i] == ':' && t[i + 1] == ':' {
      FirstDelimiter(s, i);
    } else {
      BeforeJoined(domain, port);
      NothingBefore(port);
      assert s[|domain| + 2..] == port;
    }
    hide BeforeDelimiter;
  }

  // ---- Delivery in all domains

  type Place = (string, string)             // a domain and a port

  /** The port that a packet handed to a domain's controller came in on. */
  function CameIn(net: Net, delivery: Delivery): Option<string> {
    match delivery
    case Delivered(packet) =>
      if packet.device in net.devices && packet.ingressPort in net.devices[packet.device].sdnPorts
      then Some(net.devices[packet.device].sdnPorts[packet.ingressPort].id)
      else None
    case _ => None
  }

  /** Where the packet sent out of port `n` of a device shows up. */
  function ShownAt(nets: map<string, Net>, domain: string, d: string, n: nat): Option<Place>
    requires domain in nets && d in nets[domain].devices
  {
    match SentOut(nets[domain], nets[domain].devices[d], n)
    case ToPeer(id) =>
      (match PeerOf(id)
       case None => None
       case Some((other, port)) =>
         if other !in nets then None
         else
           match CameIn(nets[other], Emitted(nets[other], port))
           case None => None
           case Some(p) => Some((other, p)))
    case delivery =>
      match CameIn(nets[domain], delivery)
      case None => None
      case Some(p) => Some((domain, p))
  }

  /** All pairs of places that packets sent out of all ports of all domains show. */
  ghost predicate FoundFrom(nets: map<string, Net>, from: Place, to: Place) {
    exists d, n ::
      && from.0 in nets && d in nets[from.0].devices && n in nets[from.0].devices[d].sdnPorts
      && nets[from.0].devices[d].sdnPorts[n].id == from.1 && ShownAt(nets, from.0, d, n) == Some(to)
  }

  predicate Heard(net: Net, port: string) {
    DeviceOf(port).Some? && DeviceOf(port).value in net.devices && Hears(net.devices[DeviceOf(port).value], port)
  }

  /** Where a link of a domain leads. */
  function LeadsTo(domain: string, l: Link): Option<Place> {
    if External(l) then PeerOf(l.tgt) else Some((domain, l.tgt))
  }

  /** A link that works, within the domain or to another. */
  predicate Carries(nets: map<string, Net>, domain: string, l: Link)
    requires domain in nets
  {
    && PortUp(nets[domain], l.src) && nets[domain].devices[DeviceOf(l.src).value].codecSet
    && LeadsTo(domain, l).Some?
    && LeadsTo(domain, l).value.0 in nets && Heard(nets[LeadsTo(domain, l).value.0], LeadsTo(domain, l).value.1)
  }

  ghost predicate LinkBetween(nets: map<string, Net>, from: Place, to: Place) {
    exists k ::
      && from.0 in nets && k in nets[from.0].inventory.links && nets[from.0].inventory.links[k].src == from.1
      && Carries(nets, from.0, nets[from.0].inventory.links[k])
      && LeadsTo(from.0, nets[from.0].inventory.links[k]) == Some(to)
  }

  /** Every domain is in order, and links lead to ports that exist where their device does:
      otherwise a simulator crashes. */
  ghost predicate Connected(nets: map<string, Net>) {
    && (forall a | a in nets :: Tidy(nets[a].inventory) && Placed(nets[a]))
    && (forall a, k | a in nets && k in nets[a].inventory.links :: Lands(nets, a, nets[a].inventory.links[k]))
  }

  ghost predicate Lands(nets: map<string, Net>, domain: string, l: Link) {
    match LeadsTo(domain, l)
    case None => true
    case Some((other, port)) =>
      other in nets && DeviceOf(port).Some? && DeviceOf(port).value in nets[other].devices ==>
        ValidatePort(nets[other].inventory, port) == Done
  }

  lemma EmittedCameIn(net: Net, port: string)
    requires Placed(net)
    ensures CameIn(net, Emitted(net, port)) == if Heard(net, port) then Some(port) else None
  {
    if Heard(net, port) {
      var d := DeviceOf(port).value;
      assert DevicePlaced(d, net.devices[d], net.inventory.devices[d]);
    }
    hide Placed, DeviceOf;
  }

  /** What happens to a packet that leaves through a link. */
  lemma LinkShows(nets: map<string, Net>, domain: string, d: string, n: nat, l: Link)
    requires domain in nets && Tidy(nets[domain].inventory) && d in nets[domain].devices && n in nets[domain].devices[d].sdnPorts
    requires forall a | a in nets :: Placed(nets[a])
    requires nets[domain].devices[d].sdnPorts[n].id == l.src
    requires l.id in nets[domain].inventory.links && nets[domain].inventory.links[l.id] == l
    ensures ShownAt(nets, domain, d, n) == if Carries(nets, domain, l) then LeadsTo(domain, l) else None
  {
    hide Tidy, Placed, External, PeerOf, Heard, Emitted, CameIn, SentOut, DeviceOf;
    var net := nets[domain];
    SourceDevice(net, d, n);
    SentOver(net, d, n, l);
    NothingCameIn(net);
    EmittedCameIn(net, l.tgt);
    EmittedNear(net, l.tgt);
    if External(l) && PeerOf(l.tgt).Some? && PeerOf(l.tgt).value.0 in nets {
      EmittedCameIn(nets[PeerOf(l.tgt).value.0], PeerOf(l.tgt).value.1);
    }
  }

  lemma SentOver(net: Net, d: string, n: nat, l: Link)
    requires Tidy(net.inventory) && d in net.devices && n in net.devices[d].sdnPorts && net.devices[d].sdnPorts[n].id == l.src
    requires l.id in net.inventory.links && net.inventory.links[l.id] == l
    ensures SentOut(net, net.devices[d], n) ==
            if !net.devices[d].codecSet then Refused
            else if !net.devices[d].sdnPorts[n].enabled then Dropped
            else if External(l) then ToPeer(l.tgt)
            else Emitted(net, l.tgt)
  {
    LookupIsSearch(net.inventory, l.src, l);
    hide Tidy, Emitted, External, LinkFromPort;
  }

  lemma NothingCameIn(net: Net)
    ensures CameIn(net, Refused) == CameIn(net, Dropped) == None
  {
  }

  lemma EmittedNear(net: Net, port: string)
    ensures !Emitted(net, port).ToPeer?
  {
  }

  lemma SourceDevice(net: Net, d: string, n: nat)
    requires Placed(net) && d in net.devices && n in net.devices[d].sdnPorts
    ensures var p := net.devices[d].sdnPorts[n];
            DeviceOf(p.id) == Some(d) && p.id in net.devices[d].ports && net.devices[d].ports[p.id] == p
  {
    assert DevicePlaced(d, net.devices[d], net.inventory.devices[d]);
    hide DeviceOf;
  }

  /** Without a link nothing is shown. */
  lemma NoLinkShowsNothing(nets: map<string, Net>, domain: string, d: string, n: nat)
    requires domain in nets && Tidy(nets[domain].inventory) && d in nets[domain].devices && n in nets[domain].devices[d].sdnPorts
    requires forall k | k in nets[domain].inventory.links ::
               nets[domain].inventory.links[k].src != nets[domain].devices[d].sdnPorts[n].id
    ensures ShownAt(nets, domain, d, n) == None
  {
    var port := nets[domain].devices[d].sdnPorts[n].id;
    LookupIsSearch(nets[domain].inventory, port, Link(LinkID("", ""), "", ""));
    hide Tidy, LinkFromPort;
  }

  /** In all domains together, discovery finds exactly the links that carry packets. */
  lemma FederationExact(nets: map<string, Net>, from: Place, to: Place)
    requires Connected(nets)
    ensures FoundFrom(nets, from, to) <==> LinkBetween(nets, from, to)
  {
    if FoundFrom(nets, from, to) {
      FoundIsLink(nets, from, to);
    }
    if LinkBetween(nets, from, to) {
      LinkIsFound(nets, from, to);
    }
    hide *;
  }

  lemma FoundIsLink(nets: map<string, Net>, from: Place, to: Place)
    requires Connected(nets) && FoundFrom(nets, from, to)
    ensures LinkBetween(nets, from, to)
  {
    hide ShownAt, Tidy, Placed, Carries, LeadsTo, Lands;
    var d, n :|
      && from.0 in nets && d in nets[from.0].devices && n in nets[from.0].devices[d].sdnPorts
      && nets[from.0].devices[d].sdnPorts[n].id == from.1 && ShownAt(nets, from.0, d, n) == Some(to);
    if k :| k in nets[from.0].inventory.links && nets[from.0].inventory.links[k].src == from.1 {
      FiledUnder(nets[from.0].inventory, k);
      LinkShows(nets, from.0, d, n, nets[from.0].inventory.links[k]);
    } else {
      NoLinkShowsNothing(nets, from.0, d, n);
    }
  }

  lemma FiledUnder(s: Sim, k: LinkID)
    requires Tidy(s) && k in s.links
    ensures s.links[k].id == k
  {
  }

  lemma LinkIsFound(nets: map<string, Net>, from: Place, to: Place)
    requires Connected(nets) && LinkBetween(nets, from, to)
    ensures FoundFrom(nets, from, to)
  {
    hide ShownAt, Tidy, Placed, LeadsTo, Lands, Heard;
    var k :|
      && from.0 in nets && k in nets[from.0].inventory.links && nets[from.0].inventory.links[k].src == from.1
      && Carries(nets, from.0, nets[from.0].inventory.links[k])
      && LeadsTo(from.0, nets[from.0].inventory.links[k]) == Some(to);
    var d, n := PortBehind(nets[from.0], from.1);
    FiledUnder(nets[from.0].inventory, k);
    LinkShows(nets, from.0, d, n, nets[from.0].inventory.links[k]);
  }

  lemma PortBehind(net: Net, port: string) returns (d: string, n: nat)
    requires Placed(net) && PortUp(net, port)
    ensures d in net.devices && n in net.devices[d].sdnPorts && net.devices[d].sdnPorts[n].id == port
  {
    d := DeviceOf(port).value;
    n := net.devices[d].ports[port].number;
    assert DevicePlaced(d, net.devices[d], net.inventory.devices[d]);
    hide DeviceOf;
  }
}

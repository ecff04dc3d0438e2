/** The robot file: the devices and links that a test expects a controller to discover.

    `RobotLinksMatch` says exactly when a device's links are those the loader creates with
    the device as their source; `PortNumbersMatch` when port numbers agree as well. */
module Robot {
  import opened Text
  import opened Schema
  import opened Inventory
  import Loader

  datatype RobotLink = RobotLink(target: string, sourcePort: string, targetPort: string)
  datatype RobotDevice = RobotDevice(id: string, agentPort: int, links: seq<RobotLink>)

  const UINT32_LIMIT := 0x1_0000_0000

  const NO_DEVICE := DeviceDesc("", 0, [])

  /** `strconv.ParseUint(s, 10, 32)`, its error ignored: zero for what is no numeral, the
      largest number for what is too large. */
  function ParseUint(s: string): (n: nat)
    ensures n < UINT32_LIMIT
  {
    if s == "" || !IsNumeral(s) then 0
    else if Value(s) < UINT32_LIMIT then Value(s)
    else UINT32_LIMIT - 1
  }

  /** The SDN number of the last port with a number, zero if there is none. */
  function SdnNumber(ports: seq<PortDesc>, number: nat): nat {
    if ports == [] then 0
    else if ports[|ports| - 1].number == number then ports[|ports| - 1].sdnNumber
    else SdnNumber(ports[..|ports| - 1], number)
  }

  function Pid(name: string, d: DeviceDesc): string {
    "[" + name + "](" + Dec(SdnNumber(d.ports, ParseUint(name))) + ")"
  }

  function Did(id: string): string {
    "device:" + id
  }

  function FindDevice(id: string, ds: seq<DeviceDesc>): DeviceDesc {
    if ds == [] then NO_DEVICE else if ds[0].id == id then ds[0] else FindDevice(id, ds[1..])
  }

  /** A directed link as the robot file shows it. */
  function Render(l: Link, ds: seq<DeviceDesc>): RobotLink
    requires '/' in l.src && '/' in l.tgt
  {
    RobotLink(Did(BeforeSlash(l.tgt)),
              Pid(PortNameOf(l.src), FindDevice(BeforeSlash(l.src), ds)),
              Pid(PortNameOf(l.tgt), FindDevice(BeforeSlash(l.tgt), ds)))
  }

  predicate Shown(l: Link, device: string) {
    '/' in l.src && '/' in l.tgt && BeforeSlash(l.src) == device
  }

  /** The directed links that start at a device, rendered. */
  function Expected(ls: seq<Link>, device: string, ds: seq<DeviceDesc>): seq<RobotLink> {
    if ls == [] then []
    else
      var l := ls[|ls| - 1];
      Expected(ls[..|ls| - 1], device, ds) + if Shown(l, device) then [Render(l, ds)] else []
  }

  // ---- Making the file

  method MakePid(name: string, d: DeviceDesc) returns (s: string)
    ensures s == Pid(name, d)
  {
    var id := ParseUint(name);
    var internalPort := 0;
    for i := 0 to |d.ports|
      invariant internalPort == SdnNumber(d.ports[..i], id)
    {
      assert d.ports[..i + 1][..i] == d.ports[..i];
      if d.ports[i].number == id {
        internalPort := d.ports[i].sdnNumber;
      }
    }
    assert d.ports[..|d.ports|] == d.ports;
    s := "[" + name + "](" + Dec(internalPort) + ")";
  }

  method LookUpDevice(id: string, ds: seq<DeviceDesc>) returns (d: DeviceDesc)
    ensures d == FindDevice(id, ds)
  {
    for i := 0 to |ds|
      invariant FindDevice(id, ds) == FindDevice(id, ds[i..])
    {
      if ds[i].id == id {
        return ds[i];
      }
      assert ds[i..][1..] == ds[i + 1..];
    }
    d := NO_DEVICE;
  }

  /** What one link description adds to the links of a device. */
  function Entries(ld: LinkDesc, device: DeviceDesc, ds: seq<DeviceDesc>): seq<RobotLink> {
    if '/' !in ld.src || '/' !in ld.tgt then []
    else if BeforeSlash(ld.src) == device.id then
      [RobotLink(Did(BeforeSlash(ld.tgt)), Pid(PortNameOf(ld.src), device),
                 Pid(PortNameOf(ld.tgt), FindDevice(BeforeSlash(ld.tgt), ds)))]
    else if !ld.unidirectional && BeforeSlash(ld.tgt) == device.id then
      [RobotLink(Did(BeforeSlash(ld.src)), Pid(PortNameOf(ld.tgt), device),
                 Pid(PortNameOf(ld.src), FindDevice(BeforeSlash(ld.src), ds)))]
    else []
  }

  function RobotLinks(links: seq<LinkDesc>, device: DeviceDesc, ds: seq<DeviceDesc>): seq<RobotLink> {
    if links == [] then []
    else RobotLinks(links[..|links| - 1], device, ds) + Entries(links[|links| - 1], device, ds)
  }

  method CreateRobotDevice(device: DeviceDesc, t: Topology) returns (r: RobotDevice)
    ensures r == RobotDevice(Did(device.id), device.agentPort, RobotLinks(t.links, device, t.devices))
  {
    var links: seq<RobotLink> := [];
    for i := 0 to |t.links|
      invariant links == RobotLinks(t.links[..i], device, t.devices)
    {
      assert t.links[..i + 1][..i] == t.links[..i];
      var link := t.links[i];
      if '/' in link.src && '/' in link.tgt {
        var src, tgt := BeforeSlash(link.src), BeforeSlash(link.tgt);
        if src == device.id {
          var there := LookUpDevice(tgt, t.devices);
          var from := MakePid(PortNameOf(link.src), device);
          var to := MakePid(PortNameOf(link.tgt), there);
          links := links + [RobotLink(Did(tgt), from, to)];
        } else if !link.unidirectional && tgt == device.id {
          var there := LookUpDevice(src, t.devices);
          var from := MakePid(PortNameOf(link.tgt), device);
          var to := MakePid(PortNameOf(link.src), there);
          links := links + [RobotLink(Did(src), from, to)];
        }
      }
    }
    assert t.links[..|t.links|] == t.links;
    r := RobotDevice(Did(device.id), device.agentPort, links);
  }

  // ---- The file and the loader

  /** A link both of whose directions start at the device. */
  predicate SelfLink(ld: LinkDesc, device: string) {
    !ld.unidirectional && '/' in ld.src && '/' in ld.tgt && BeforeSlash(ld.src) == BeforeSlash(ld.tgt) == device
  }

  lemma DeviceFound(ds: seq<DeviceDesc>, d: DeviceDesc)
    requires Loader.DistinctDevices(ds) && d in ds
    ensures FindDevice(d.id, ds) == d
  {
    if ds[0] != d {
      assert d in ds[1..];
      DeviceFound(ds[1..], d);
    }
  }

  lemma ExpectedConcat(a: seq<Link>, b: seq<Link>, device: string, ds: seq<DeviceDesc>)
    ensures Expected(a + b, device, ds) == Expected(a, device, ds) + Expected(b, device, ds)
  {
    if b == [] {
      assert a + b == a;
    } else {
      assert (a + b)[..|a + b| - 1] == a + b[..|b| - 1];
      ExpectedConcat(a, b[..|b| - 1], device, ds);
    }
  }

  lemma EntriesMatch(ld: LinkDesc, device: DeviceDesc, ds: seq<DeviceDesc>)
    requires FindDevice(device.id, ds) == device
    ensures var x := Expected(Loader.Directions(ld), device.id, ds);
            && (!SelfLink(ld, device.id) ==> Entries(ld, device, ds) == x)
            && (SelfLink(ld, device.id) ==> |Entries(ld, device, ds)| == 1 && |x| == 2)
  {
    hide Pid, Did, FindDevice, BeforeSlash;
    var f, r := Loader.ConstructLink(ld), Loader.ReverseLink(ld);
    assert [f][..0] == [] && [f, r][..1] == [f];
    assert Expected([], device.id, ds) == [];
    assert Expected([f], device.id, ds) == if Shown(f, device.id) then [Render(f, ds)] else [];
    assert Expected([f, r], device.id, ds) ==
           Expected([f], device.id, ds) + if Shown(r, device.id) then [Render(r, ds)] else [];
  }

  function SelfLinks(links: seq<LinkDesc>, device: string): nat {
    if links == [] then 0
    else SelfLinks(links[..|links| - 1], device) + if SelfLink(links[|links| - 1], device) then 1 else 0
  }

  /** Every link of a device to itself makes the robot file one entry short. */
  lemma {:induction false} RobotLinksMissing(links: seq<LinkDesc>, device: DeviceDesc, ds: seq<DeviceDesc>)
    requires FindDevice(device.id, ds) == device
    ensures var x := Expected(Loader.DirectedLinks(links), device.id, ds);
            && |RobotLinks(links, device, ds)| + SelfLinks(links, device.id) == |x|
            && (SelfLinks(links, device.id) == 0 ==> RobotLinks(links, device, ds) == x)
  {
    if links != [] {
      var n := |links| - 1;
      RobotLinksMissing(links[..n], device, ds);
      EntriesMatch(links[n], device, ds);
      ExpectedConcat(Loader.DirectedLinks(links[..n]), Loader.Directions(links[n]), device.id, ds);
      hide Entries, Expected, SelfLink, Loader.Directions, FindDevice;
    }
  }

  lemma SelfLinksNone(links: seq<LinkDesc>, device: string)
    ensures SelfLinks(links, device) == 0 <==> forall l | l in links :: !SelfLink(l, device)
  {
    if links != [] {
      var n := |links| - 1;
      SelfLinksNone(links[..n], device);
      assert links == links[..n] + [links[n]];
    }
  }

  /** The links shown for a device are, in order and one for one, the directed links that
      the loader creates with the device as source, exactly if no two-way link joins the
      device to itself. */
  lemma RobotLinksMatch(t: Topology, device: DeviceDesc)
    requires Loader.DistinctDevices(t.devices) && device in t.devices
    ensures RobotLinks(t.links, device, t.devices) == Expected(Loader.DirectedLinks(t.links), device.id, t.devices) <==>
            forall l | l in t.links :: !SelfLink(l, device.id)
  {
    DeviceFound(t.devices, device);
    RobotLinksMissing(t.links, device, t.devices);
    SelfLinksNone(t.links, device.id);
    hide *;
  }

  // ---- Port numbers

  predicate DistinctPorts(ports: seq<PortDesc>) {
    forall i, j | 0 <= i < j < |ports| :: ports[i].number != ports[j].number
  }

  lemma SdnNumberFound(ports: seq<PortDesc>, p: PortDesc)
    requires DistinctPorts(ports) && p in ports
    ensures SdnNumber(ports, p.number) == p.sdnNumber
  {
    var n := |ports| - 1;
    if ports[n] != p {
      assert p in ports[..n];
      SdnNumberFound(ports[..n], p);
    }
  }

  /** The number shown in parentheses is the one the loaded device has for the port exactly
      if the description gives one: the loader falls back to the port number, the robot
      file to zero. */
  lemma PortNumbersMatch(d: DeviceDesc, p: PortDesc)
    requires DistinctPorts(d.ports) && p in d.ports && p.number < UINT32_LIMIT
    ensures SdnNumber(d.ports, ParseUint(Dec(p.number))) == Loader.ConstructPort(d.id, p).internalNumber <==>
            p.sdnNumber != 0 || p.number == 0
  {
    SdnNumberFound(d.ports, p);
    ValueOfDec(p.number);
  }

  // ---- Looking up ports and devices

  /** The number shown is that of the last port with the number, zero if there is none. */
  lemma {:induction false} LastNumbered(ports: seq<PortDesc>, number: nat) returns (i: int)
    ensures -1 <= i < |ports| && forall j | i < j < |ports| :: ports[j].number != number
    ensures if i < 0 then SdnNumber(ports, number) == 0
            else ports[i].number == number && SdnNumber(ports, number) == ports[i].sdnNumber
  {
    var n := |ports| - 1;
    if ports == [] || ports[n].number == number {
      i := n;
    } else {
      i := LastNumbered(ports[..n], number);
    }
  }

  /** The device found is the first with the ID, one without ID, agent port and ports if there
      is none. */
  lemma {:induction false} FirstWithID(ds: seq<DeviceDesc>, id: string) returns (i: nat)
    ensures i <= |ds| && forall j | 0 <= j < i :: ds[j].id != id
    ensures if i == |ds| then FindDevice(id, ds) == DeviceDesc("", 0, []) else ds[i].id == id && FindDevice(id, ds) == ds[i]
  {
    if ds == [] || ds[0].id == id {
      i := 0;
    } else {
      i := FirstWithID(ds[1..], id);
      assert forall j | 0 < j < i + 1 :: ds[j] == ds[1..][j - 1];
      i := i + 1;
    }
  }

  // ---- The text of an entry

  /** The device is described once, and a port of it with that number once, with an SDN number. */
  ghost predicate Describes(ds: seq<DeviceDesc>, id: string, number: nat, sdn: nat) {
    Loader.DistinctDevices(ds) && exists d :: d in ds && d.id == id && DistinctPorts(d.ports) && PortDesc(number, sdn) in d.ports
  }

  lemma PidReads(ds: seq<DeviceDesc>, id: string, number: nat, sdn: nat)
    requires Describes(ds, id, number, sdn) && number < UINT32_LIMIT
    ensures Pid(Dec(number), FindDevice(id, ds)) == "[" + Dec(number) + "](" + Dec(sdn) + ")"
  {
    var d :| d in ds && d.id == id && DistinctPorts(d.ports) && PortDesc(number, sdn) in d.ports;
    DeviceFound(ds, d);
    SdnNumberFound(d.ports, PortDesc(number, sdn));
    ValueOfDec(number);
    assert ParseUint(Dec(number)) == number;
    hide Dec, FindDevice, SdnNumber;
  }

  /** How a link from one described port to another reads in the file: the device it leads to,
      and the two ports with their SDN numbers. */
  lemma EntryReads(ds: seq<DeviceDesc>, d: string, m: nat, a: nat, e: string, n: nat, b: nat)
    requires '/' !in d && '/' !in e && m < UINT32_LIMIT && n < UINT32_LIMIT
    requires Describes(ds, d, m, a) && Describes(ds, e, n, b)
    ensures var src, tgt := PortID(d, m), PortID(e, n);
            && '/' in src && '/' in tgt
            && Render(Link(LinkID(src, tgt), src, tgt), ds) ==
               RobotLink("device:" + e, "[" + Dec(m) + "](" + Dec(a) + ")", "[" + Dec(n) + "](" + Dec(b) + ")")
  {
    SplitJoined(d, Dec(m));
    SplitJoined(e, Dec(n));
    PidReads(ds, d, m, a);
    PidReads(ds, e, n, b);
    var src, tgt := PortID(d, m), PortID(e, n);
    assert PortNameOf(src) == Dec(m) && PortNameOf(tgt) == Dec(n) && BeforeSlash(src) == d && BeforeSlash(tgt) == e;
    hide Dec, Pid, FindDevice, BeforeSlash, PortNameOf, Describes;
  }
}

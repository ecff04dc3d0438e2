# A verified model of fabric-sim

fabric-sim simulates the control plane of a fabric of P4 switches: an inventory of devices,
links and hosts, the P4Runtime server of every switch, and generators for topologies. This
project models its stateful core in Dafny and proves what holds of it over all inputs and runs.

## Structure

State that the simulator changes in place is kept in classes (`Simulation`, `Builder`, `Table`,
`Forwarding`, `Arbiter`, `StatsCollector`, ...). Each method is proved to carry out a function on
the values of that state, and the theorems are about these functions, over whole runs.

- `Common`, `Text`, `Schema`: outcomes, port IDs, formatted numbers, topology descriptions.
- `Inventory`, `Simulation`: device, link and host inventories and the two port-use maps.
- `Loader`: loading and clearing topologies; exactly which ones load.
- `Builder`, `Scripts`, `ScriptLoads`: the topology builder with its wrapping port allocator. A
  recipe is a script of builder steps; the allocator is analysed once for all scripts, and the
  result is composed with the loader: a script's topology loads if and only if every device is
  within its port budget.
- `Names`, `Addresses`: when formatted names of hosts, IPUs and VMs, and addresses of interfaces,
  run into each other.
- `Racks`, `AccessFabric`, `PlainFabric`, `SuperSpine`: the recipes, and what their parameters must
  satisfy.
- `Generated`, `Wiring`, `Attachments`: what generated topologies describe: device by device, link by
  link, host by host.
- `Deployment`: recipes generated, loaded and surveyed, without any assumption.
- `Robot`: the expected-topology file against the loader.
- `Sorting`, `Entries`, `TableStore`, `Tables`, `Reads`: the P4 table store (section 9.1 of the
  P4Runtime specification) and its refinement to an abstract map; buffered reads.
- `TableContents`: what each operation leaves in a row, part by part, and over runs.
- `Pipeline`, `PuntRules`: batches of writes and the index of Ethernet types punted to the
  controller, told from the description of the pipeline and the entries alone.
- `Mastership`, `Rounds`, `Authority`: arbitration (section 5 of the P4Runtime specification),
  rounds that overlap stream by stream, and write authority.
- `Lldp`, `Stats`: link discovery and I/O accounting.
- `Discovery`: discovery in loaded topologies, against the robot file and against table entries.
- `Federation`, `TierDiscovery`: discovery across domains, and across a super-spine tier and its pods.

## Where the code departs from its comments

The model follows the code; what it takes on trust is under "Left out".

- A plain fabric loads even if its leaf trunks do not fit beside the reserved uplink ports, as long
  as there are as many ports as trunk ends and the first one is not beyond the last: allocation wraps
  round into the reserved ports (`PlainFabric.PlainLoads`, `PlainFabric.UplinksFree`).
- Numbers of racks, hosts and VMs are formatted with at least two digits and then joined, so that
  large recipes give two hosts one name and do not load (`Names.ApartIff`, `AccessFabric.AccessLoads`).
- IPv6 addresses join the numbers of rack and leaf without a separator, so that they coincide in
  every recipe with VMs on more than ten racks (`Addresses.AccessAddresses`,
  `Addresses.PlainAddresses`); MAC and IPv4 addresses never do.
- A minimum port latched on a device that has given out and reserved nothing is 0, which is no port,
  and allocation then comes to it after a round (`Scripts.PortZero`): a leaf without links that more
  hosts are attached to than it has ports uses its port 0 (`PlainFabric.LeafPortZero`,
  `PlainFabric.PortZeroUsed`, `AccessFabric.LeafPortZero`).
- When the master's stream closes, its own ID is submitted once more, so that the others are told
  INVALID_ARGUMENT rather than NOT_FOUND (`Mastership.MasterCloses`, `Mastership.MasterClosesRun`);
  `Mastership.RoundCodes` and `Mastership.ClosingRound` say exactly when each code is sent.
- Claims are recorded under one lock, and streams told one by one under another that rounds share.
  So a smaller claim notified last stands as told OK and the master is told ALREADY_EXISTS
  (`Rounds.OvertakenRound`), or both stand as told OK without any role (`Rounds.TwoToldOK`); for
  each stream the round that told it last decides (`Rounds.LastTellerDecides`).
- A round for a named role reaches only the stream that latched the same role object, so that
  mastership of a named role is not exclusive: an earlier master is never told that it was beaten
  (`Mastership.TwoMasters`, `Mastership.NamedStanding`).
- Table keys leave out field IDs and value lengths, so that different entries can share a row
  (`Entries.KeysCollide`, `TableStore.RefinementIff`).
- Setting a pipeline does not clear the index of punted Ethernet types (`Pipeline.IndexStale`,
  `Pipeline.StaleRun`).
- The guard of a write against a missing pipeline never holds, since a device starts out with an
  empty configuration; an update that reaches for a store before a pipeline is set crashes, and only
  counters and meters refuse what is not a modification before they do
  (`Pipeline.Forwarding.ProcessWrite`).
- With the domain delimiter in a device name the ingress map may lose entries, while the egress map
  stays exact (`Inventory.DelimiterInDeviceName`, `Inventory.ReachableTidy`).
- The robot file shows zero for ports without an SDN number, where the loader uses the port number
  (`Robot.PortNumbersMatch`), and one entry instead of two for a two-way link of a device to itself
  (`Robot.RobotLinksMatch`).
- The window of samples is not capped at 1000: it passes 1000 exactly if a full slice is given room
  for more when a sample is appended, and another sample follows (`Stats.WindowOutgrown`,
  `Stats.SamplesOverflow`).

## Model

| member | source | states |
|---|---|---|
| Inventory.ReachableExact | pkg/simulator/core.go:158-371 | After any sequence of adds and removes of devices, links and hosts, whatever their outcomes, the two port-use maps say exactly what the registered links and hosts say, if no port ID of an added device contains "::" |
| Inventory.UsedPorts | pkg/simulator/core.go:196-210 | Used egress ports are the sources of links disjointly joined with the ports of interfaces; used ingress ports the targets of internal links disjointly joined with the same |
| Inventory.RemoveLinkExactness | pkg/simulator/core.go:262-275 | Removing a link keeps the maps exact if and only if it is not an external link whose target spells the port of a registered interface |
| Inventory.DelimiterInDeviceName | pkg/simulator/core.go:262-275 | With a device named `a::b` a five-step run does leave the maps wrong |
| Inventory.ReachableTidy | pkg/simulator/core.go:158-371 | After any sequence of adds and removes, whatever the names, the egress map says exactly what links and interfaces say, and the ingress map nothing that they do not |
| Inventory.LookupIsSearch | pkg/simulator/core.go:374-379 | In every reachable state looking up the link of a port finds what a linear search through all links by source would |
| Inventory.LinkUndo | pkg/simulator/core.go:172-275 | A successful link add followed by its removal restores the whole state if and only if the link is not external with a target that spells an ingress port in use |
| Inventory.LinkUndoReachable | pkg/simulator/core.go:172-275 | It does so in every reachable state if no port ID of an added device contains "::" |
| Inventory.HostUndo | pkg/simulator/core.go:278-371 | A successful host add followed by its removal restores the whole state |
| Inventory.DeviceUndo | pkg/simulator/core.go:116-167 | A successful device add followed by its removal restores the whole state |
| Inventory.RemoveDeviceTargets | pkg/simulator/core.go:158-167 | Removing a device leaves internal links without a registered target if and only if some led to it |
| Inventory.PortOutcomes | pkg/simulator/core.go:212-229 | A port is invalid if and only if its ID has no device part, not found if and only if it names no registered device with that port |
| Inventory.DeviceOutcomes | pkg/simulator/core.go:116-167 | Adding a device fails, as invalid, if and only if its ID is known; removing one fails, as not found, if and only if it is not |
| Inventory.LinkOutcomes | pkg/simulator/core.go:172-275 | Adding a link is not found if and only if its source, or else its internal target, is; it succeeds if and only if both ends are known and free and the link is new; otherwise it is invalid |
| Inventory.HostOutcomes | pkg/simulator/core.go:278-371 | Adding a host is not found if and only if its first bad interface is; it succeeds if and only if all interfaces are known and free and the host is new; otherwise it is invalid |
| Inventory.RunTargets | pkg/simulator/core.go:116-371 | In every run that removes no device while an internal link leads to it, all targets of internal links stay registered |
| Simulation.Simulation.Validate | pkg/simulator/core.go:212-229 | The check of a port: its ID names a registered device that has it |
| Simulation.Simulation.AddDeviceSimulator | pkg/simulator/core.go:116-125 | The object does what the inventory step says: a new ID is entered, a known one refused; the new device has the described ports under both numbers, all up, and the simulation stays in order if they are regular |
| Simulation.Simulation.RemoveDeviceSimulator | pkg/simulator/core.go:158-167 | The device goes, its links stay; the simulation stays in order if no internal link leads to the device |
| Simulation.Simulation.AddLinkSimulator | pkg/simulator/core.go:172-210 | The object does what the inventory step says, check by check in the same order, and changes nothing on an error |
| Simulation.Simulation.RemoveLinkSimulator | pkg/simulator/core.go:262-275 | The link and both its port uses go |
| Simulation.Simulation.AddHostSimulator | pkg/simulator/core.go:278-308 | The host and the uses of all its ports are entered, if all its ports exist and are free and its ID is new |
| Simulation.Simulation.RemoveHostSimulator | pkg/simulator/core.go:356-371 | The host and the uses of all its ports go |
| Simulation.Simulation.GetLinkFromPort | pkg/simulator/core.go:374-379 | The link entered for the port, none for a port used by an interface |
| Simulation.DeviceSimulator.constructor | pkg/simulator/device.go:94-132 | Ports are filed under their IDs and under their SDN numbers, the same objects in both maps if both are unique |
| Text.SplitJoined | pkg/simulator/core.go:231-238 | The device part and the rest come back from `device/rest` if the device ID has no slash |
| Text.PortIDInjective | pkg/topo/generator.go:183-196 | Port IDs of devices without a slash tell devices and numbers apart |
| Names.ApartIff | pkg/topo/generator.go:286-330 | No two hosts of P racks of H hosts get the same name unless P and H are at least 101, or there are VMs, V a host, and (H, V), (P, H, V) or (P, V) reach (101, 101), (100, 11, 101), (101, 10, 101) or (10011, 10101); then two do |
| Names.LeastClashes | pkg/topo/generator.go:286-330 | Names that coincide for the least numbers that pass those bounds |
| Addresses.MacIPv4Injective | pkg/topo/generator.go:333-341 | MAC and IPv4 addresses determine the numbers of rack, leaf and host |
| Addresses.IPv6Same | pkg/topo/generator.go:343-345 | IPv6 addresses are the same if and only if the host numbers are and the numerals of rack and leaf join to the same digits |
| Addresses.UniqueIff | pkg/topo/generator.go:241-330 | The topology of any script that makes each interface once has addresses of a kind all different if and only if that kind tells the script's interfaces apart |
| Addresses.AccessAddresses | pkg/topo/access_fabric.go:57-59 | In the topology of any access fabric no two interfaces have the same MAC address, nor the same IPv4 address, and no two the same IPv6 address if and only if there are not VMs on hosts of more than ten pairs |
| Addresses.PlainAddresses | pkg/topo/plain_fabric.go:36-40 | The same for plain fabrics, whose leaves take the place of pairs |
| Loader.LoadIff | pkg/topo/loader.go:51-157 | A topology loads into an empty simulation if and only if it is well formed (device IDs differ, every end and interface is on an existing port, every port is used at most once in each direction); the simulation then holds each described device, directed link and host, as described, and nothing else |
| Loader.LoadedAsDescribed | pkg/topo/loader.go:51-176 | In a loaded topology each device has just the described ports, each link leads from source to target and, if two-way, back, each host has its interfaces in order with their ports and addresses, and everything held is described |
| Loader.LoadLinksIff | pkg/topo/loader.go:102-120 | From any state, a list of links loads if and only if each one fits and no two clash; what is then registered and used |
| Loader.LoadHostsIff | pkg/topo/loader.go:146-157 | From any state, hosts load if and only if their IDs are new and their interfaces get existing ports of their own |
| Loader.ForeignLinksIff | pkg/topo/loader.go:102-132 | From any state, links to other domains load if and only if they start at free, existing, different ports |
| Loader.LoadStopsAt | pkg/topo/loader.go:16-39 | A topology that does not load leaves exactly what was loaded before its first error, devices before links before hosts, and reports that error |
| Loader.BuildDevice | pkg/topo/loader.go:72-99 | The device handed to the simulation, with port numbers standing in for missing SDN numbers |
| Loader.BuildHost | pkg/topo/loader.go:160-176 | The host handed to the simulation |
| Loader.CreateDevices | pkg/topo/loader.go:51-69 | Devices are added in order up to the first error; without one all are there as described, and the simulation stays in order if all are regular |
| Loader.CreateLinks | pkg/topo/loader.go:102-120 | Each link is followed by its reverse unless it is unidirectional, up to the first error |
| Loader.CreateHosts | pkg/topo/loader.go:146-157 | Hosts are added in order up to the first error |
| Loader.LoadTopology | pkg/topo/loader.go:16-39 | Devices, then links, then hosts, up to the first error; without one all devices are there as described, and the simulation stays in order if they are regular |
| Loader.ClearTopology | pkg/topo/loader.go:179-239 | From any reachable state, whatever the names, removing all hosts, links and devices, each in any order, never fails and leaves nothing |
| TopologyBuilder.Builder.NextAgentPort | pkg/topo/generator.go:176-180 | Agent ports are given out one after the other |
| TopologyBuilder.Builder.NextDevicePortID | pkg/topo/generator.go:183-196 | The next port of the device, wrapping from the maximum to the minimum |
| TopologyBuilder.Builder.CreateSwitch | pkg/topo/generator.go:199-226 | What creating a switch does to builder and topology |
| TopologyBuilder.Builder.CreateLinkTrunk | pkg/topo/generator.go:229-238 | A trunk is as many single links |
| TopologyBuilder.Builder.CreateServerIPUAndVMs | pkg/topo/generator.go:294-330 | An IPU with two uplinks, the interface of its host, and its VMs |
| TopologyBuilder.Builder.CreateRackHosts | pkg/topo/generator.go:241-292 | All hosts of a rack, with or without IPUs, on one leaf or two |
| Scripts.AllocatorClosedForm | pkg/topo/generator.go:183-196 | The k-th port given out, from any start between minimum and maximum, is the minimum plus the start's offset plus k modulo the width of the window |
| Scripts.DrawnOverall | pkg/topo/generator.go:183-212 | Over a whole run of builder steps a device whose minimum is never latched, or which stays within its first round, gives out consecutive ports from the first unreserved one, round and round |
| Scripts.DrawnByAllocator | pkg/topo/generator.go:183-196 | Whatever the minimum, a run of builder steps that does not latch it takes from a device just what the allocator yields one after the other |
| Scripts.YieldWindow | pkg/topo/generator.go:183-196 | That is the window between minimum and maximum, gone round from where allocation starts |
| Scripts.DrawnLatched | pkg/topo/access_fabric.go:53-55 | Over a run that latches the minimum midway a device first goes round all its ports, then round the window from the latched minimum, the port it has reached (or 0, see below), to its last, for however many allocations |
| Scripts.PortZero | pkg/topo/access_fabric.go:53-55 | Over such a run port 0 is given out if and only if nothing was taken or reserved before the latch and more than a round is taken after it |
| Scripts.DrawnYield | pkg/topo/generator.go:183-212 | A device never latched gives out what its allocator yields from the first port past the reserved ones, even if that is past the last port |
| Scripts.CycleDistinct | pkg/topo/generator.go:183-196 | Allocations less than one round apart are different |
| Scripts.UsesAreDraws | pkg/topo/generator.go:183-330 | A port is the end of links and place of interfaces in the generated topology as often as the allocator gave it out, if device names have no slash |
| ScriptLoads.ScriptLoad | pkg/topo/generator.go:183-330 | What any recipe generates loads if and only if every device has a port for each of its allocations, and then there are as many devices, directed links and hosts as steps created |
| ScriptLoads.ReservedFree | pkg/topo/plain_fabric.go:17-22 | Reserved ports of a device stay unused if and only if there are none, allocation does not come round to them, or all ports are reserved and at most one is given out |
| ScriptLoads.AllPortsOnce | pkg/topo/generator.go:294-330 | A device that gives out as many ports as it has gives out each once |
| Generated.MadeDevices | pkg/topo/generator.go:176-226 | In any generated topology the devices are those created, in order, with agent ports 20000, 20001, ..., and port k of each has SDN number k + 200 |
| Generated.MadeRegular | pkg/topo/generator.go:183-226 | The devices of any script without slashes in device names have port IDs and SDN numbers of their own, as loading in order needs |
| Generated.AccessRegular | pkg/topo/access_fabric.go:21-63 | Those of any access fabric are |
| Generated.PlainRegular | pkg/topo/plain_fabric.go:10-44 | Those of any plain fabric are |
| Generated.TierDevices | pkg/topo/superspine_tier.go:15-26 | The same for the devices of a super-spine tier; the addenda of its pods describe none |
| Wiring.MadeCables | pkg/topo/generator.go:229-238 | Two devices of a generated topology are joined by as many two-way links as its script lays cables between them |
| Wiring.AccessLinks | pkg/topo/access_fabric.go:31-59 | In any access fabric a spine is joined to each leaf by a trunk, the leaves of a pair to each other by theirs, an IPU to both leaves of its pair by one link each, and no other two devices are |
| Wiring.PlainLinks | pkg/topo/plain_fabric.go:24-40 | In any plain fabric a spine is joined to each leaf by a trunk, an IPU to its leaf by two links, and no other two devices are |
| Attachments.AccessHosts | pkg/topo/access_fabric.go:57-59 | The hosts of any access fabric, exactly: for each pair and number a host of that name on both leaves, or on its IPU with its VMs, each interface with the addresses made from its numbers |
| Attachments.PlainHosts | pkg/topo/plain_fabric.go:36-40 | The same for plain fabrics, on one leaf |
| Deployment.DeployAccess | pkg/topo/access_fabric.go:21-63 | A generated access fabric loads if and only if the recipe fits; the simulation is then in order, and each device has its ports up, port k under SDN number k + 200 |
| Deployment.DeployPlain | pkg/topo/plain_fabric.go:10-44 | The same for plain fabrics |
| Deployment.DeployTier | pkg/topo/superspine_tier.go:15-50 | The same for super-spine tiers |
| Deployment.SurveyAccess | pkg/simulator/device.go:515-614 | With everything up, discovery in a deployed access fabric finds exactly the described pairs of ports |
| Deployment.SurveyPlain | pkg/simulator/device.go:515-614 | The same for plain fabrics |
| AccessFabric.GenerateAccessFabric | pkg/topo/access_fabric.go:21-63 | The nested loops carry out the recipe's script |
| AccessFabric.AccessLoads | pkg/topo/access_fabric.go:21-63 | The topology of any recipe loads if and only if spines and leaves have the ports the recipe asks for and no two hosts get the same name, and then has the closed-form numbers of devices, directed links and hosts |
| AccessFabric.AccessIpuPorts | pkg/topo/access_fabric.go:57-59 | If names are apart, every port of every IPU is used exactly once |
| AccessFabric.LeafPortZero | pkg/topo/access_fabric.go:34-59 | In the topology of any recipe, even one that gives two hosts the same name, port 0 of a leaf is used if and only if its pair has no links and more hosts than the leaf has ports |
| PlainFabric.GeneratePlainFabric | pkg/topo/plain_fabric.go:10-44 | The nested loops carry out the recipe's script |
| PlainFabric.PlainLoads | pkg/topo/plain_fabric.go:10-44 | The same for plain fabrics, whose trunks may wrap round into the reserved ports |
| PlainFabric.PlainIpuPorts | pkg/topo/plain_fabric.go:36-40 | If names are apart, every port of every IPU is used exactly once |
| PlainFabric.LeafPortZero | pkg/topo/plain_fabric.go:24-40 | In the topology of any recipe port 0 of a leaf is used if and only if it has no uplinks and more is attached to it than it has ports |
| PlainFabric.PortZeroUsed | pkg/topo/plain_fabric.go:24-40 | A recipe with one leaf of one port and two hosts whose topology uses `leaf1/0` |
| PlainFabric.UplinksFree | pkg/topo/plain_fabric.go:17-22 | The reserved uplink ports of a spine stay free if and only if there are none, the leaf trunks fit beside them, or a single link leaves from beyond the last port; names being apart |
| PlainFabric.UplinkRoom | pkg/topo/plain_fabric.go:17-33 | The first ports of a spine of a loaded plain fabric are all there and free if and only if nothing is attached, or they are reserved and the trunks fit beside the reserved ones |
| SuperSpine.CreateExternalLinkTrunk | pkg/topo/superspine_tier.go:53-73 | Each link is entered on both sides, each side naming the other's port under its domain |
| SuperSpine.GenerateSuperSpineTier | pkg/topo/superspine_tier.go:15-50 | The nested loops build the tier and, pod by pod, the addenda |
| SuperSpine.TierMirrors | pkg/topo/superspine_tier.go:28-73 | The tier's links are one slice per pod, each mirroring that pod's addendum link by link once domains are stripped |
| SuperSpine.AddendumLinks | pkg/topo/superspine_tier.go:28-73 | In a pod's addendum each spine is joined to each superspine by two links, and no other devices are |
| SuperSpine.TierLoads | pkg/topo/superspine_tier.go:15-50 | The tier loads if and only if each superspine has two ports for every spine of every pod (or there are none), with the closed-form number of links |
| SuperSpine.AddendumLoads | pkg/topo/superspine_tier.go:28-50 | A pod that has loaded a plain fabric can load its addendum if and only if the fabric has enough spines whose first ports, two for each superspine, are free |
| SuperSpine.AccessAddendumLoads | pkg/topo/superspine_tier.go:28-50 | A pod that has loaded an access fabric can load its addendum if and only if the fabric has enough spines with enough ports and nothing attached to them |
| Robot.MakePid | pkg/topo/robot.go:87-96 | The SDN number of the last port with the parsed number, zero if there is none |
| Robot.LookUpDevice | pkg/topo/robot.go:141-149 | The first device with the ID, an empty one if there is none |
| Robot.CreateRobotDevice | pkg/topo/robot.go:98-124 | One entry for every link that starts at the device or, if two-way, ends there |
| Robot.RobotLinksMatch | pkg/topo/robot.go:98-124 | The entries are, in order and one for one, the directed links the loader creates with the device as source, if and only if no two-way link joins the device to itself |
| Robot.LastNumbered | pkg/topo/robot.go:87-96 | The number shown is that of the last port with the number, zero if there is none |
| Robot.FirstWithID | pkg/topo/robot.go:141-149 | The device found is the first with the ID, an empty one if there is none |
| Robot.EntryReads | pkg/topo/robot.go:87-124 | A link between described ports reads as the device it leads to and the two port numbers, each with its SDN number |
| Robot.PortNumbersMatch | pkg/topo/robot.go:87-96 | The number shown for a port is the one the loaded device has if and only if the description gives an SDN number (or the port number is zero) |
| Sorting.SortInPlace | pkg/simulator/entries/table.go:427-430 | Sorting in place yields the stable sort |
| Sorting.StableSortCorrect | pkg/simulator/entries/table.go:427-430 | Keys come out in order, and elements with equal keys in their original order |
| Sorting.SortedUnique | pkg/simulator/entries/table.go:427-430 | These two properties determine the result |
| Entries.PermutedKey | pkg/simulator/entries/table.go:374-430 | Entries of equal priority whose matches are permutations of each other with distinct field IDs have the same key |
| Entries.KeyInjective | pkg/simulator/entries/table.go:374-425 | Entries of one schema (same fields, kinds and widths, prefix lengths below 2^24) with equal key bytes are equal in matches and priority |
| Entries.OneMatchKeys | pkg/simulator/entries/table.go:374-425 | Exactly which entries with a single match and of equal priority have the same key: patterns of one kind with the same bytes, parts joined, prefix lengths modulo 2^24, whatever the field |
| Entries.KeysCollide | pkg/simulator/entries/table.go:378-424 | Without that, key bytes of different entries coincide: field IDs, value lengths and high prefix bits are not in them |
| TableStore.FailureChangesNothing | pkg/simulator/entries/table.go:195-295 | An operation that fails changes nothing |
| TableStore.ModifyKeepsCounter | pkg/simulator/entries/table.go:233-241 | A modification without counter data keeps the counter, and any keeps meter data and all other rows |
| TableStore.RunKeyed | pkg/simulator/entries/table.go:195-259 | After any operations each row holds a canonical entry under the key of that entry |
| TableStore.RunRefines | pkg/simulator/entries/table.go:195-295 | Over any sequence of operations on the default row and on entries with different key bytes, the table holds what an abstract map from canonical matches and priority to rows holds, and answers the same |
| TableStore.RefinementIff | pkg/simulator/entries/table.go:195-295 | On a set of entries the table answers every sequence of operations as the abstract map does if and only if no two of the entries share key bytes |
| TableStore.SchemaInjective | pkg/simulator/entries/table.go:374-425 | Entries of one schema satisfy that condition |
| TableStore.SchemaConforms | pkg/simulator/entries/table.go:195-295 | Over any sequence of operations, on the default row among others, whose other entries are of one schema the table is, and answers as, the abstract map |
| TableContents.InsertStores | pkg/simulator/entries/table.go:195-242 | An insert succeeds if and only if the entry is new, not the default one and has not too many matches; the row then has the canonical entry, the counter data given or zeros, the meter configuration and data given, and nothing else changes |
| TableContents.ModifyStores | pkg/simulator/entries/table.go:195-242 | A modification succeeds if and only if the entry is there; entry and meter configuration are replaced, counter data if any is given, meter data not |
| TableContents.DefaultStores | pkg/simulator/entries/table.go:195-206 | The default row is set by modifications without matches only, to the entry and its resources, and no other row changes |
| TableContents.RemoveDrops | pkg/simulator/entries/table.go:245-259 | A removal takes the row away, if there is one, and touches no other |
| TableContents.CounterStores | pkg/simulator/entries/table.go:262-277 | Setting a counter succeeds if and only if the entry is there; its row then has exactly the data given and is otherwise as before |
| TableContents.MeterStores | pkg/simulator/entries/table.go:280-295 | The same for a meter and its configuration |
| TableContents.RunContents | pkg/simulator/entries/table.go:195-295 | Over any run a row is there if and only if the last operation done on it that brought one or its end brought one, and its entry, counter data, meter configuration and meter data are what the last operation brought that brought any |
| TableContents.RunDefault | pkg/simulator/entries/table.go:195-206 | The default row is the one last brought |
| TableContents.SetStepOn | pkg/simulator/entries/table.go:98-145 | An operation is done on the table that its entry names, or not found, and no other table changes |
| TableContents.FreshTables | pkg/simulator/entries/table.go:56-74 | A new pipeline has the tables described, empty, of those with one ID the last, with its number of fields |
| TableContents.OtherUpdates | pkg/simulator/device.go:705-787 | Inserts and deletions of counters and meters are refused, unspecified updates and ignored entities change nothing and succeed, others get the verdict of their store |
| TableContents.EntryUpdated | pkg/simulator/device.go:705-787 | A successful insert or modify update leaves the canonical entry in the row of the table it names, new or there before; a delete leaves no row |
| TableContents.ResourceUpdated | pkg/simulator/device.go:705-760 | A successful update of a direct counter or meter leaves the row with the data given and otherwise as before |
| TableContents.CounterReadBack | pkg/simulator/entries/table.go:262-366 | Once a counter is set, a read of counters hands the data over with the entry filed there, which has the canonical matches and priority named if the two follow one schema |
| Tables.Table.EntryKey | pkg/simulator/entries/table.go:374-421 | The key bytes, or an error if there are more matches than fields |
| Tables.Table.ModifyTableEntry | pkg/simulator/entries/table.go:195-242 | The table with its row objects does what the store step says: inserts, modifications, the default row, all errors |
| Tables.Table.RemoveTableEntry | pkg/simulator/entries/table.go:245-259 | The row goes; removing what is not there succeeds, removing the default is an error |
| Tables.Table.ModifyDirectCounterEntry | pkg/simulator/entries/table.go:262-277 | The counter of the row is replaced, or there is no such row |
| Tables.Table.ModifyDirectMeterEntry | pkg/simulator/entries/table.go:280-295 | The meter configuration of the row is replaced, or there is no such row |
| Tables.Table.Entries | pkg/simulator/entries/table.go:183-192 | All entries, the default one included |
| Tables.Tables.constructor | pkg/simulator/entries/table.go:56-74 | Empty tables, of those with one ID the last |
| Tables.Tables.ModifyTableEntry | pkg/simulator/entries/table.go:98-104 | The operation on the table the entry names, or an error if there is none |
| Tables.Tables.ModifyDirectCounterEntry | pkg/simulator/entries/table.go:116-125 | Inserts are refused; otherwise the operation on the named table |
| Reads.EntityBuffer.SendEntity | pkg/simulator/entries/table.go:310-319 | An entity joins the buffer, or fills it up and all are sent |
| Reads.EntityBuffer.Flush | pkg/simulator/entries/table.go:322-326 | What is in the buffer is sent and the buffer reset |
| Reads.ReadTableEntries | pkg/simulator/entries/table.go:329-347 | The receiver gets exactly the batches that the rows in some order and then the default row make, up to the first batch it refuses |
| Reads.BatchesExact | pkg/simulator/entries/table.go:302-326 | Batches concatenate to the entities; all but the last hold 64, the last fewer |
| Reads.EntriesRead | pkg/simulator/entries/table.go:329-366 | An entry is handed over as often as rows, the default one included, hold it, nothing else is, and the default one comes last |
| Reads.CountersRead | pkg/simulator/entries/table.go:350-366 | A read of counters pairs each row's entry with its counter data |
| Reads.MetersRead | pkg/simulator/entries/table.go:350-366 | A read of meters pairs it with its meter configuration and meter data |
| Reads.ReadExact | pkg/simulator/entries/table.go:310-347 | A read that is not refused hands everything over, one that is hands over a prefix |
| Pipeline.Forwarding.SetPipelineConfig | pkg/simulator/device.go:406-437 | New empty tables and new facts about punting, the old index left standing, recorded as an event of the history |
| Pipeline.Forwarding.CheckPuntToCPU | pkg/simulator/device.go:925-956 | The index made anew agrees with a full scan of the tables that can punt |
| Pipeline.Forwarding.ProcessUpdate | pkg/simulator/device.go:705-787 | One update of a batch, the index made anew after each successful table write |
| Pipeline.Forwarding.ProcessWrite | pkg/simulator/device.go:677-703 | A batch up to its first failure; the history of updates it adds; once a table write has succeeded the index agrees with the tables |
| Pipeline.BatchPrefix | pkg/simulator/device.go:684-702 | A batch leaves the state its longest error-free prefix leaves, and reports an error if and only if that is not all of it |
| Pipeline.IndexExact | pkg/simulator/device.go:684-713 | In every possible history, from the first table write that succeeds after a pipeline is set until the next one is set, the index has an Ethernet type if and only if some entry punts it, with the role agent of one such entry |
| PuntRules.IndexByEntries | pkg/simulator/device.go:925-956 | From then on the index has an Ethernet type if and only if an entry of a table of the pipeline punts it: its action is one named *_to_cpu, a ternary match on the least field named eth_type starts with its two bytes; and the role agent is what the first parameter for set_role_agent_id decodes to, or zero |
| PuntRules.EntryRulesAre | pkg/simulator/device.go:949-1012 | The rules an entry makes are those, read off the description of the pipeline position by position |
| Pipeline.IndexStale | pkg/simulator/device.go:406-437 | Right after a pipeline is set the index agrees with the tables if and only if it was empty |
| Pipeline.StaleRun | pkg/simulator/device.go:406-437 | A possible history that ends with a stale index |
| Mastership.Comparisons | pkg/simulator/device.go:305-308 | The word-wise comparisons of election IDs are those of High * 2^64 + Low |
| Mastership.RecordAnswers | pkg/simulator/device.go:295-312 | Records never decrease; the answer is the new ID, nothing, or the standing winner according as the submission is greater, equal or smaller |
| Mastership.RecordedIsMaximum | pkg/simulator/device.go:295-312 | After any run of submissions the ID recorded for a role is one submitted for it and the numerically greatest |
| Mastership.Arbiter.RecordRoleElection | pkg/simulator/device.go:295-312 | The record and the answer, as the function says |
| Mastership.Arbiter.RunMastershipArbitration | pkg/simulator/device.go:328-361 | A round records the claim, finds the code for losers, and tells every registered stream |
| Mastership.StreamState.LatchMastershipArbitration | pkg/northbound/device/p4runtime/v1/p4runtime.go:169-182 | Role and election ID are taken over, the code last sent is kept |
| Mastership.StreamState.SendMastershipArbitration | pkg/northbound/device/p4runtime/v1/p4runtime.go:141-166 | A stream of the same role object is sent OK if it holds the winning ID object, the given code if not, unless that was sent last |
| Mastership.Arbiter.AddStreamResponder | pkg/simulator/device.go:364-370 | The given stream is registered, at the end |
| Mastership.Arbiter.RemoveStreamResponder | pkg/simulator/device.go:373-383 | The given stream goes, all others stay in their order |
| Mastership.Arbiter.LatchRegistered | pkg/northbound/device/p4runtime/v1/p4runtime.go:169-182 | A registered stream that latches is a latch event of the run |
| Mastership.Arbiter.ProcessArbitration | pkg/northbound/device/p4runtime/v1/p4runtime.go:265-268 | An arbitration message is latched, and a round is run with what it brought |
| Mastership.Arbiter.CloseStream | pkg/northbound/device/p4runtime/v1/p4runtime.go:218-221 | A stream that closes is removed, and a round is run with what it had latched |
| Mastership.Arbiter.CheckMaster | pkg/simulator/device.go:280-289 | The write check on the object: conflict for another chassis, unauthorized unless the ID is by value the recorded one |
| Mastership.Arbiter.CheckedIff | pkg/simulator/device.go:280-289 | In every run it passes if and only if the chassis is the device's own and the ID the greatest submitted for the role |
| Mastership.NeverRepeats | pkg/northbound/device/p4runtime/v1/p4runtime.go:152-165 | Over all runs of connecting, latching, rounds and disconnecting, no stream is ever sent the same code twice in a row |
| Mastership.RoundTells | pkg/northbound/device/p4runtime/v1/p4runtime.go:141-166 | After a round without a role every stream without a role was last told OK if it latched the object that won and one common code if not |
| Mastership.ExclusiveMaster | pkg/simulator/device.go:328-361 | At any time such a round leaves at most one stream last told OK; it holds the recorded ID, which no ID submitted so far exceeds |
| Mastership.RoundCodes | pkg/simulator/device.go:341-358 | Exactly when a round tells a stream of its role object each of the four codes, by what is recorded, what is submitted and which streams hold the number that then stands |
| Mastership.ClosingRound | pkg/northbound/device/p4runtime/v1/p4runtime.go:218-221 | When a stream closes, the others of its role object are told INVALID_ARGUMENT if and only if its number is the recorded one, and NOT_FOUND if and only if it is not and none left holds the number that then stands |
| Mastership.MasterCloses | pkg/northbound/device/p4runtime/v1/p4runtime.go:218-221 | When the master without a role closes, every stream without a role is told INVALID_ARGUMENT |
| Mastership.MasterClosesRun | pkg/northbound/device/p4runtime/v1/p4runtime.go:218-221 | A run in which that happens |
| Mastership.UnlatchedClaim | pkg/northbound/device/p4runtime/v1/p4runtime.go:146-150 | A round in which the recorded ID is submitted again tells a stream that has latched nothing OK |
| Mastership.WinnerByNumberOnly | pkg/northbound/device/p4runtime/v1/p4runtime.go:146-150 | A stream that holds the winning number in another object is told ALREADY_EXISTS |
| Mastership.RoleRoundReaches | pkg/northbound/device/p4runtime/v1/p4runtime.go:141-144 | As long as each latched role is an object of its own, a round for a named role changes at most one stream |
| Mastership.NamedStanding | pkg/northbound/device/p4runtime/v1/p4runtime.go:141-166 | In every run in which each role object is latched by one message and claimed once, a stream with a role stands as told OK if and only if its claim was, when made, greater than all before it for a role of that name |
| Mastership.BothStand | pkg/northbound/device/p4runtime/v1/p4runtime.go:141-144 | Two streams of one role name both stand as told OK if and only if both claims were the greatest when made |
| Mastership.TwoMasters | pkg/northbound/device/p4runtime/v1/p4runtime.go:141-144 | A run after which two streams of one role name both stand as told OK |
| Rounds.PassInOneGo | pkg/simulator/device.go:332-358 | Looking for the winner stream by stream and telling every stream, with nothing in between, tells them what one round does |
| Rounds.RoundInSteps | pkg/simulator/device.go:328-361 | A round run in one go is its steps one after the other: recording, taking the read lock, looking, telling, releasing |
| Rounds.NeverRepeatsInSteps | pkg/northbound/device/p4runtime/v1/p4runtime.go:152-165 | However the steps of rounds interleave with each other and with latching, no stream is ever sent the same code twice in a row |
| Rounds.LastTellerDecides | pkg/simulator/device.go:328-361 | However they interleave, with a role or without, a stream stands as told OK if and only if it holds the ID object that the round which told it last since it latched was answered; and that is the recorded ID if and only if no greater one was submitted for its role so far |
| Rounds.TwoTellers | pkg/simulator/device.go:332-358 | Two streams that both stand as told OK were told last by rounds that were answered different IDs |
| Rounds.OvertakenRound | pkg/simulator/device.go:332-358 | A run of two rounds notified one after the other, after which the smaller claim stands as told OK |
| Rounds.TwoToldOK | pkg/simulator/device.go:332-358 | A run of two rounds whose notifications interleave, after which both of two streams without a role stand as told OK |
| Authority.CheckIff | pkg/simulator/device.go:280-289 | A write passes its mastership check if and only if its ID is the greatest submitted for its role so far |
| Authority.AppliedWasChecked | pkg/northbound/device/p4runtime/v1/p4runtime.go:55-67 | In every interleaving of claims, checks and applications, every write applied passed a check at a step when its ID was the greatest submitted |
| Authority.SmallerNeverPasses | pkg/simulator/device.go:280-312 | Once an ID is submitted no smaller one passes a check for that role again |
| Authority.AppliedInTime | pkg/northbound/device/p4runtime/v1/p4runtime.go:55-67 | A write that passed is applied with an ID that is still the greatest if and only if none greater was submitted in between |
| Authority.StaleWrite | pkg/northbound/device/p4runtime/v1/p4runtime.go:55-67 | A run in which one was |
| Lldp.ProcessLLDPPacket | pkg/simulator/device.go:559-583 | A packet goes through the link at an enabled port to its target or to a peer, or is dropped |
| Lldp.EmitLLDPPacket | pkg/simulator/device.go:587-614 | It is handed to the controller if the port is up, LLDP is punted and the pipeline is set; a port ID without a device is dropped |
| Lldp.ProcessPacketOut | pkg/simulator/device.go:515-545 | A packet is refused if the sending device has no pipeline |
| Lldp.Deliveries | pkg/simulator/device.go:515-614 | Exactly when a packet is refused, goes to a peer or is handed in, and then with which ingress port number and role agent; it is dropped otherwise |
| Lldp.DiscoveryExact | pkg/simulator/device.go:515-614 | If targets of internal links are registered, the pairs of ports shown by packets sent out of all ports of all devices are exactly the source and target of the internal links with both ends up, a source with a pipeline and a target that punts and has one |
| Lldp.Discover | pkg/simulator/device.go:515-614 | Sending them one by one finds exactly those pairs |
| Discovery.LoadedDiscovery | pkg/topo/loader.go:102-143 | In any topology that loads, with every device set up, discovery finds exactly the pairs of the described links inside the domain |
| Discovery.Survey | pkg/simulator/device.go:515-614 | Discovery in a simulation that has loaded a topology finds just those |
| Discovery.FoundAsListed | pkg/topo/robot.go:98-124 | For a device without links to itself, and no links out of the domain, the robot file lists exactly what discovery then finds from its ports |
| Discovery.DiscoveryByEntries | pkg/simulator/device.go:684-713 | Once every device with a pipeline has had a table write, discovery finds exactly the internal links between ports that are up whose source has a pipeline and whose target has one and a table entry that punts LLDP |
| Discovery.PacketInByEntries | pkg/simulator/device.go:587-614 | A packet handed in came over a working link into the port it names, and carries the role agent of a table entry that punts LLDP there |
| Federation.JoinedPeer | pkg/simulator/device.go:617-622 | From `domain::port`, the port without a delimiter, domain and port come back if and only if the domain has no delimiter and does not end in a colon |
| Federation.FederationExact | pkg/simulator/device.go:515-634 | In any number of domains together, packets sent out of all ports show exactly the links, within a domain or to another, whose source is up with a pipeline and whose target is up, punts and has one |
| TierDiscovery.ShippedDomains | topologies/superspine_recipe.yaml:10-13 | The domains of the shipped recipes, host names with a port number, are distinct for any number of pods and can be told from what follows the delimiter |
| TierDiscovery.TrunksFound | pkg/topo/superspine_tier.go:15-73 | With a tier and all its pods loaded, each in a domain of its own whose name can be told from what follows the delimiter (it has no delimiter and does not end in a colon), and everything up, the links between domains that discovery finds are exactly the trunks, each in both directions |
| Stats.IOStats.UpdateIOStats | pkg/simulator/device.go:135-146 | Bytes and one message are added to one direction, modulo 2^32 |
| Stats.IOStats.AddAndResetStats | pkg/simulator/device.go:149-164 | The counters are added to the total and start from zero |
| Stats.StatsCollector.CreateSample | pkg/simulator/stats.go:50-67 | All devices are swept up, in whatever order, into a new sample; the slice of samples grows, or drops its first |
| Stats.NothingLost | pkg/simulator/device.go:135-164 | Over any run all samples ever made, counters still on devices and counters lost with removed devices add up, modulo 2^32, to what was fed in |
| Stats.FieldsConserved | pkg/simulator/device.go:135-164 | Counter by counter, bytes and messages of each direction in all samples, on devices and lost are, modulo 2^32, the sum and the number of the updates of that direction |
| Stats.CountersExact | pkg/simulator/device.go:135-146 | The counters of a device show what it was fed, in each direction, since it was registered or last swept up |
| Stats.SampleTimes | pkg/simulator/stats.go:50-67 | Every request makes one sample, from the time of the one before, or the start, to its own |
| Stats.SampleExact | pkg/simulator/stats.go:50-67 | A new sample has the counters of all devices added up and leaves them at zero |
| Stats.WindowIsRecent | pkg/simulator/stats.go:50-67 | The samples kept are always the latest, all of them or at least 1000, and cover time without a gap |
| Stats.WindowOutgrown | pkg/simulator/stats.go:61-65 | More than 1000 samples are kept if and only if one after the first 1000, and not the last, found the slice grow beyond 1000 |
| Stats.SamplesOverflow | pkg/simulator/stats.go:61-65 | A run of 1002 samples after which 1001 are kept |

## Left out

- Numbers that the original keeps in 32 bits are unbounded where wrap-around is not the point: agent
  and port numbers, port counts. I/O counters, election IDs, priorities, prefix lengths and parsed
  port numbers have their widths.
- The hash over key bytes and the IDs made from link ends are taken to be injective.
- Go maps are gone through in unspecified order; where that matters the order is arbitrary (methods
  choose any element) or a parameter (`Loader.ClearTopology`).
- Loader.LoadTopology: reading files and the requests to the server that carry out each add are not modelled; neither is starting device agents.
- SuperSpine.GenerateSuperSpineTier: the format that pod domains are made from is replaced by the list of domains, and saving the addenda by returning them.
- TopologyBuilder.Builder.CreateSwitch: grid positions and device types are left out.
- Tables.Table.ModifyTableEntry: requests are values; that sorting also reorders the match list of the request object itself is not modelled.
- Reads.ReadTableEntries: reads of all tables at once repeat this for every table; they are not modelled.
- Pipeline.Forwarding.ProcessWrite: batches that crash the simulator are ruled out: those that reach an update for a store before a pipeline is set, and those that reach an entry which punts on an Ethernet type value shorter than two bytes, which breaks the scan of the tables.
- Pipeline.Forwarding.ProcessUpdate: counters, meters, action profiles and packet replication are kept elsewhere; the verdict of their stores is part of the update.
- Pipeline.Forwarding.CheckPuntToCPU: decoding of the role agent ID is a parameter; the library that does it is not part of this model.
- Mastership.Arbiter.RunMastershipArbitration: role configurations, connection records and the queue behind a stream are left out; rounds are one step here (`Rounds` takes them apart), and streams that a round looks at must have latched an ID, since the code dereferences it. That each message brings an election ID object, and role object, of its own is part of what events are allowed and runs are proper.
- Mastership.Arbiter.CloseStream: a stream that closes without having latched submits no ID: the code records nil if nothing was submitted without a role before, and crashes otherwise; an ID is required.
- Rounds.LastTellerDecides: latching a stream, looking at one and telling one are a step each, though the code guards a stream's fields by no lock.
- Authority.AppliedWasChecked: whether the pipeline is set is checked separately and does not bear on authority.
- Lldp.ProcessPacketOut: packets and metadata are not decoded, and other packets than LLDP are not looked at; the filter of role configurations on streams comes after what is modelled.
- Lldp.EmitLLDPPacket: a link target whose device or port is gone crashes the code; targets are required to be registered.
- Federation.FederationExact: looking up the peer that serves a domain and the request to it are replaced by a map of domains.
- Stats.StatsCollector.CreateSample: how far a full slice grows is a parameter; time is a parameter.
- Links and ports keep no status beyond a port's being enabled; the tree of gNMI paths, ARP emission, traffic simulation, the fixed fabric recipe, the network configuration file and the command line are left out.

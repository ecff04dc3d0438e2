/** Topology descriptions, as kept in topology files and as generated from recipes. */
module Schema {
  datatype PortDesc = PortDesc(number: nat, sdnNumber: nat)
  datatype DeviceDesc = DeviceDesc(id: string, agentPort: int, ports: seq<PortDesc>)
  datatype LinkDesc = LinkDesc(src: string, tgt: string, unidirectional: bool)
  datatype NicDesc = NicDesc(mac: string, ipv4: string, ipv6: string, port: string)
  datatype HostDesc = HostDesc(id: string, nics: seq<NicDesc>)
  datatype Topology = Topology(devices: seq<DeviceDesc>, links: seq<LinkDesc>, hosts: seq<HostDesc>)
}

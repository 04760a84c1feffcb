/** The discovered-source record shared by the download components. */
module Sources {
  import opened Common

  type Ipv4 = x: nat | x < 0x1_0000_0000
  type Port = x: nat | x < 0x1_0000
  type Word32 = x: nat | x < 0x1_0000_0000
  type Endpoint = (Ipv4, Port)
  type Hash16 = seq<bv8>
  type FileHash = string

  datatype FoundSource = FoundSource(
    fileHash: FileHash,
    ip: Ipv4,
    tcpPort: Port,
    clientId: Word32,
    lowId: bool,
    obfuscationOptions: Option<bv8>,
    userHash: Option<Hash16>,
    sourceServer: Option<Endpoint>,
    buddyId: Option<Hash16>,
    buddyEndpoint: Option<Endpoint>,
    sourceUdpPort: Option<Port>)

  function EndpointOf(s: FoundSource): Endpoint {
    (s.ip, s.tcpPort)
  }
}

/** The protocol constants of lib/rupnp/constants.rb. */
module Constants {
  /** The SSDP multicast group. */
  const MulticastIp: string := "239.255.255.250"

  /** The SSDP port. */
  const DiscoveryPort: int := 1900

  const DefaultTtl: int := 2

  const UpnpVersion: string := "1.1"
}

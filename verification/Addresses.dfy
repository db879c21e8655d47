/** Addresses: only what demultiplexing and source selection look at. */
module Addresses {
  datatype Domain = Inet | Inet6

  datatype Ip = V4(bits: nat) | V6(bits: nat) {
    predicate Unspecified() { bits == 0 }

    predicate Loopback() {
      if V4? then bits / 0x100_0000 == 127 else bits == 1
    }

    function Family(): Domain { if V4? then Inet else Inet6 }
  }

  datatype Endpoint = Endpoint(ip: Ip, port: nat)

  /** The loopback address of the same family. */
  function Localhost(ip: Ip): Ip {
    if ip.V4? then V4(0x7F00_0001) else V6(1)
  }
}

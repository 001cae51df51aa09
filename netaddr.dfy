/** Network addresses as the device code sees them (Go's netip.Addr):
    the zero value is not a valid address. */
module Netip {
  import opened Base

  datatype Addr = NoAddr | IP(octets: seq<Byte>)
  {
    /** netip.Addr.IsValid: every address but the zero value. */
    predicate IsValid()
    {
      IP?
    }
  }

  /** netip.AddrFrom4 of a four-byte record. */
  function AddrFrom4(data: seq<Byte>): (a: Addr)
    requires |data| == 4
    ensures a.IsValid() && a.octets == data
  {
    IP(data)
  }
}

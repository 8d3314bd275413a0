/** The values the lookup layer exchanges with the resolver engine and with its caller. */
module Types {

  type byte = x: int | 0 <= x < 256

  datatype Option<T> = None | Some(value: T)

  /** Address families (AF_UNSPEC, AF_INET, AF_INET6 on Linux). */
  const AfUnspec: int := 0
  const AfInet: int := 2
  const AfInet6: int := 10

  /** Resource-record types A (section 3.2.2 of RFC 1035), PTR (same section)
      and AAAA (section 2.1 of RFC 3596), and the class IN (section 3.2.4 of RFC 1035). */
  const TypeA: int := 1
  const TypePtr: int := 12
  const TypeAAAA: int := 28
  const ClassIn: int := 1

  /** PROTO_ADDRESS_SIZE: the RDATA length of an A record (section 3.4.1 of RFC 1035)
      and of an AAAA record (section 2.2 of RFC 3596). */
  function AddressSize(af: int): (n: nat)
    requires af == AfInet || af == AfInet6
    ensures af == AfInet ==> n == 4
    ensures af == AfInet6 ==> n == 16
  {
    if af == AfInet then 4 else 16
  }

  /** The process-wide trust-policy configuration (the static ubdns_cfg). */
  datatype Config = Config(acceptBogus: bool, requireSecure: bool, logging: bool)

  /** The static initial configuration: every flag off. */
  const DefaultConfig: Config := Config(false, false, false)

  /** The part of an engine result (struct ub_result) the layer reads: whether an
      answer came back, the validation flags, and the RDATA of each answer record. */
  datatype UbResult = UbResult(havedata: bool, secure: bool, bogus: bool, data: seq<seq<byte>>)

  /** One query to the engine: owner name, record type and class. */
  datatype Query = Query(name: string, rrtype: int, rrclass: int)

  /** What ub_resolve() gives back: its status (0 on success) and the result. */
  datatype Reply = Reply(status: int, result: UbResult)

  /** One entry of the caller's address list (struct address). */
  datatype Address = Address(family: int, scope: int, address: seq<byte>)
}

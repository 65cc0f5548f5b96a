/** The passive packet decoder as functions on byte sequences
    (agent/internal/collectors/passivenetwork/normalizer.go). */
module Normalizer {
  import opened Wrappers
  import opened Numerals
  import opened Packets

  datatype Confidence = Known | Inferred | Unknown | Unsupported

  datatype Flag =
    | MALFORMED_FRAME | TRUNCATED_PACKET | UNSUPPORTED_PROTOCOL
    | MODBUS_INVALID_MBAP | MODBUS_TRUNCATED_PAYLOAD | MODBUS_UNSUPPORTED_FUNCTION

  datatype Evidence = Evidence(
    transactionID: U16, protocolID: U16, length: U16, unitID: Byte, functionCode: Byte, functionName: string,
    isException: bool, exceptionCode: Option<Byte>, direction: string,
    startingAddress: Option<U16>, quantity: Option<U16>)

  datatype Meta = Text(text: string) | Number(number: int) | Flagged(value: bool) | Decoded(evidence: Evidence)

  /** Addresses are byte sequences, empty where the source holds the empty string. */
  datatype Observation = Observation(
    observedAt: int, iface: string, srcMAC: seq<Byte>, dstMAC: seq<Byte>, srcIP: seq<Byte>, dstIP: seq<Byte>,
    srcPort: U16, dstPort: U16, transport: string, vlan: Option<U16>, hint: string, confidence: Confidence,
    payloadLength: nat, metadata: map<string, Meta>, flags: seq<Flag>)

  datatype Raw = Raw(data: seq<Byte>, timestamp: int, iface: string, linkType: string)

  /** An observation and the application payload, if any. */
  type Result = (Observation, Option<seq<Byte>>)

  function Blank(raw: Raw): Observation {
    Observation(raw.timestamp, raw.iface, [], [], [], [], 0, 0, "", None, "unknown", Unknown, 0, map[], [])
  }

  function Fail(o: Observation, f: Flag): Result {
    (o.(flags := o.flags + [f], confidence := Unsupported), None)
  }

  function HexDigit(d: nat): char
    requires d < 16
  {
    if d < 10 then '0' + d as char else 'A' + (d - 10) as char
  }

  /** Four upper-case hexadecimal digits. */
  function Hex4(v: U16): string {
    [HexDigit(v / 4096), HexDigit(v / 256 % 16), HexDigit(v / 16 % 16), HexDigit(v % 16)]
  }

  function DecodeTcp(o: Observation, l4: seq<Byte>): Result {
    if |l4| < 20 then Fail(o, TRUNCATED_PACKET)
    else
      var o' := o.(transport := "TCP", srcPort := U16At(l4, 0), dstPort := U16At(l4, 2));
      var dataOffset := l4[12] / 16 * 4;
      if dataOffset < 20 || |l4| < dataOffset then Fail(o', MALFORMED_FRAME)
      else (o'.(confidence := Known, payloadLength := |l4| - dataOffset), Some(l4[dataOffset..]))
  }

  function DecodeUdp(o: Observation, l4: seq<Byte>): Result {
    if |l4| < 8 then Fail(o, TRUNCATED_PACKET)
    else (o.(transport := "UDP", srcPort := U16At(l4, 0), dstPort := U16At(l4, 2), confidence := Known,
             payloadLength := |l4| - 8),
          Some(l4[8..]))
  }

  function DecodeIcmp(o: Observation, l4: seq<Byte>): Result {
    if |l4| < 4 then Fail(o, TRUNCATED_PACKET)
    else (o.(transport := "ICMP", confidence := Known, payloadLength := |l4|,
             metadata := o.metadata["icmp_type" := Number(l4[0])]["icmp_code" := Number(l4[1])]),
          Some(l4))
  }

  function DecodeSegment(o: Observation, protocol: Byte, l4: seq<Byte>): Result {
    if protocol == 6 then DecodeTcp(o, l4)
    else if protocol == 17 then DecodeUdp(o, l4)
    else if protocol == 1 then DecodeIcmp(o, l4)
    else Fail(o.(transport := "IP_" + Decimal(protocol)), UNSUPPORTED_PROTOCOL)
  }

  /** d starts at the IP header. */
  function DecodeIPv4(o: Observation, d: seq<Byte>): Result {
    if |d| < 20 then Fail(o, TRUNCATED_PACKET)
    else if d[0] / 16 != 4 then Fail(o, MALFORMED_FRAME)
    else
      var ihl := d[0] % 16 * 4;
      if ihl < 20 || |d| < ihl then Fail(o, MALFORMED_FRAME)
      else DecodeSegment(o.(srcIP := d[12..16], dstIP := d[16..20]), d[9], d[ihl..])
  }

  function OperationName(operation: U16): string {
    if operation == 1 then "request" else if operation == 2 then "reply" else "opcode_" + Decimal(operation)
  }

  /** d starts at the ARP header. */
  function DecodeArp(o: Observation, d: seq<Byte>): Result {
    if |d| < 28 then Fail(o, TRUNCATED_PACKET)
    else if U16At(d, 0) != 1 || U16At(d, 2) != 0x0800 || d[4] != 6 || d[5] != 4 then
      Fail(o.(transport := "ARP"), UNSUPPORTED_PROTOCOL)
    else
      (o.(transport := "ARP", confidence := Known, srcMAC := d[8..14], dstMAC := d[18..24], srcIP := d[14..18],
          dstIP := d[24..28], metadata := o.metadata["arp_operation" := Text(OperationName(U16At(d, 6)))]),
       None)
  }

  function DecodePacket(o: Observation, etherType: U16, d: seq<Byte>): Result {
    if etherType == 0x0806 then DecodeArp(o, d)
    else if etherType == 0x0800 then DecodeIPv4(o, d)
    else Fail(o.(transport := "ETH_0x" + Hex4(etherType)), UNSUPPORTED_PROTOCOL)
  }

  function Normalize(raw: Raw): Result {
    var o, d := Blank(raw), raw.data;
    if d == [] then Fail(o, TRUNCATED_PACKET)
    else if raw.linkType == "raw_ip" then DecodePacket(o, 0x0800, d)
    else if |d| < 14 then Fail(o, TRUNCATED_PACKET)
    else
      var o' := o.(dstMAC := d[0..6], srcMAC := d[6..12]);
      var etherType := U16At(d, 12);
      if etherType == 0x8100 then
        if |d| < 18 then Fail(o', TRUNCATED_PACKET)
        else DecodePacket(o'.(vlan := Some(U16At(d, 14) % 4096)), U16At(d, 16), d[18..])
      else DecodePacket(o', etherType, d[14..])
  }
}

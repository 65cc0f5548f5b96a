/** The wire format of the frames the passive decoder recognises: Ethernet II with an optional 802.1Q tag
    (section 9.6 of IEEE 802.1Q), ARP (RFC 826), IPv4 (section 3.1 of RFC 791), TCP (section 3.1 of RFC 9293),
    UDP (RFC 768) and ICMP. A frame value holds every byte, the ones the decoder ignores included. */
module Packets {
  type Byte = x: int | 0 <= x < 256
  type U16 = x: int | 0 <= x < 65536

  /** Big-endian 16-bit fields. */
  function Be(v: U16): seq<Byte> {
    [v / 256, v % 256]
  }

  function U16At(d: seq<Byte>, i: nat): U16
    requires i + 2 <= |d|
  {
    256 * (d[i] as int) + d[i + 1] as int
  }

  lemma BeOfU16At(d: seq<Byte>, i: nat)
    requires i + 2 <= |d|
    ensures Be(U16At(d, i)) == d[i..i + 2]
  {
  }

  /** priority holds the PCP and DEI bits of the tag. */
  datatype Link =
    | Ethernet(dst: seq<Byte>, src: seq<Byte>)
    | Tagged(dst: seq<Byte>, src: seq<Byte>, priority: int, vlan: int)
    | RawIP

  /** numbers: sequence and acknowledgement; control: flags, window, checksum and urgent field. */
  datatype Segment =
    | Tcp(srcPort: U16, dstPort: U16, numbers: seq<Byte>, reserved: int, control: seq<Byte>, options: seq<Byte>,
          payload: seq<Byte>)
    | Udp(srcPort: U16, dstPort: U16, lengthAndChecksum: seq<Byte>, payload: seq<Byte>)
    | Icmp(kind: Byte, code: Byte, rest: seq<Byte>)

  /** fixed: type of service, total length, identification, fragment field and time to live. */
  datatype Packet =
    | Arp(operation: U16, sha: seq<Byte>, spa: seq<Byte>, tha: seq<Byte>, tpa: seq<Byte>, trailer: seq<Byte>)
    | IPv4(fixed: seq<Byte>, checksum: seq<Byte>, src: seq<Byte>, dst: seq<Byte>, ipOptions: seq<Byte>,
           segment: Segment)

  datatype Frame = Frame(link: Link, packet: Packet)

  predicate Options(s: seq<Byte>) {
    |s| <= 40 && |s| % 4 == 0
  }

  predicate WellFormedSegment(s: Segment) {
    match s
    case Tcp(_, _, numbers, reserved, control, options, _) =>
      |numbers| == 8 && 0 <= reserved < 16 && |control| == 7 && Options(options)
    case Udp(_, _, lengthAndChecksum, _) => |lengthAndChecksum| == 4
    case Icmp(_, _, rest) => |rest| >= 2
  }

  predicate WellFormedPacket(p: Packet) {
    match p
    case Arp(_, sha, spa, tha, tpa, _) => |sha| == 6 && |spa| == 4 && |tha| == 6 && |tpa| == 4
    case IPv4(fixed, checksum, src, dst, options, segment) =>
      |fixed| == 8 && |checksum| == 2 && |src| == 4 && |dst| == 4 && Options(options) && WellFormedSegment(segment)
  }

  predicate WellFormedLink(l: Link) {
    match l
    case Ethernet(dst, src) => |dst| == 6 && |src| == 6
    case Tagged(dst, src, priority, vlan) => |dst| == 6 && |src| == 6 && 0 <= priority < 16 && 0 <= vlan < 4096
    case RawIP => true
  }

  /** A raw IP capture carries IPv4 only. */
  predicate WellFormed(f: Frame) {
    WellFormedLink(f.link) && WellFormedPacket(f.packet) && (f.link.RawIP? ==> f.packet.IPv4?)
  }

  function EncodeSegment(s: Segment): seq<Byte>
    requires WellFormedSegment(s)
  {
    match s
    case Tcp(srcPort, dstPort, numbers, reserved, control, options, payload) =>
      Be(srcPort) + Be(dstPort) + numbers + [(5 + |options| / 4) * 16 + reserved] + control + options + payload
    case Udp(srcPort, dstPort, lengthAndChecksum, payload) => Be(srcPort) + Be(dstPort) + lengthAndChecksum + payload
    case Icmp(kind, code, rest) => [kind, code] + rest
  }

  function ProtocolNumber(s: Segment): Byte {
    match s
    case Tcp(_, _, _, _, _, _, _) => 6
    case Udp(_, _, _, _) => 17
    case Icmp(_, _, _) => 1
  }

  function EncodePacket(p: Packet): seq<Byte>
    requires WellFormedPacket(p)
  {
    match p
    case Arp(operation, sha, spa, tha, tpa, trailer) =>
      Be(1) + Be(0x0800) + [6, 4] + Be(operation) + sha + spa + tha + tpa + trailer
    case IPv4(fixed, checksum, src, dst, options, segment) =>
      [4 * 16 + 5 + |options| / 4] + fixed + [ProtocolNumber(segment)] + checksum + src + dst + options
          + EncodeSegment(segment)
  }

  function EtherType(p: Packet): U16 {
    if p.Arp? then 0x0806 else 0x0800
  }

  function EncodeLink(l: Link, etherType: U16): seq<Byte>
    requires WellFormedLink(l)
  {
    match l
    case Ethernet(dst, src) => dst + src + Be(etherType)
    case Tagged(dst, src, priority, vlan) => dst + src + Be(0x8100) + Be(priority * 4096 + vlan) + Be(etherType)
    case RawIP => []
  }

  function Encode(f: Frame): seq<Byte>
    requires WellFormed(f)
  {
    EncodeLink(f.link, EtherType(f.packet)) + EncodePacket(f.packet)
  }
}

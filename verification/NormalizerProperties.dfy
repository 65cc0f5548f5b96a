/** The decoder recognises exactly the frames of the wire format, recovers their fields, and reports nothing
    about any other input but why it was refused. */
module NormalizerProperties {
  import opened Wrappers
  import opened Packets
  import opened Normalizer

  // ----- What a frame shows -----

  function SeenSegment(o: Observation, s: Segment): Result
    requires WellFormedSegment(s)
  {
    match s
    case Tcp(srcPort, dstPort, _, _, _, _, payload) =>
      (o.(transport := "TCP", srcPort := srcPort, dstPort := dstPort, confidence := Known, payloadLength := |payload|),
       Some(payload))
    case Udp(srcPort, dstPort, _, payload) =>
      (o.(transport := "UDP", srcPort := srcPort, dstPort := dstPort, confidence := Known, payloadLength := |payload|),
       Some(payload))
    case Icmp(kind, code, rest) =>
      (o.(transport := "ICMP", confidence := Known, payloadLength := 2 + |rest|,
          metadata := o.metadata["icmp_type" := Number(kind)]["icmp_code" := Number(code)]),
       Some([kind, code] + rest))
  }

  function SeenPacket(o: Observation, p: Packet): Result
    requires WellFormedPacket(p)
  {
    match p
    case Arp(operation, sha, spa, tha, tpa, _) =>
      (o.(transport := "ARP", confidence := Known, srcMAC := sha, dstMAC := tha, srcIP := spa, dstIP := tpa,
          metadata := o.metadata["arp_operation" := Text(OperationName(operation))]),
       None)
    case IPv4(_, _, src, dst, _, segment) => SeenSegment(o.(srcIP := src, dstIP := dst), segment)
  }

  function SeenLink(o: Observation, l: Link): Observation {
    match l
    case Ethernet(dst, src) => o.(dstMAC := dst, srcMAC := src)
    case Tagged(dst, src, _, vlan) =>
      o.(dstMAC := dst, srcMAC := src, vlan := if 0 <= vlan < 4096 then Some(vlan) else None)
    case RawIP => o
  }

  function Seen(o: Observation, f: Frame): Result
    requires WellFormed(f)
  {
    SeenPacket(SeenLink(o, f.link), f.packet)
  }

  /** The capture labels agree with the frame. */
  predicate Captures(raw: Raw, f: Frame) {
    WellFormed(f) && raw.data == Encode(f) && (raw.linkType == "raw_ip" <==> f.link.RawIP?)
  }

  // ----- Round trip -----

  lemma TcpRoundTrip(o: Observation, s: Segment)
    requires WellFormedSegment(s) && s.Tcp?
    ensures DecodeTcp(o, EncodeSegment(s)) == SeenSegment(o, s)
  {
    var d := EncodeSegment(s);
    assert d[12] == (5 + |s.options| / 4) * 16 + s.reserved;
    assert d[12] / 16 * 4 == 20 + |s.options|;
    assert d[20 + |s.options|..] == s.payload;
  }

  lemma UdpRoundTrip(o: Observation, s: Segment)
    requires WellFormedSegment(s) && s.Udp?
    ensures DecodeUdp(o, EncodeSegment(s)) == SeenSegment(o, s)
  {
    assert EncodeSegment(s)[8..] == s.payload;
  }

  lemma SegmentRoundTrip(o: Observation, s: Segment)
    requires WellFormedSegment(s)
    ensures DecodeSegment(o, ProtocolNumber(s), EncodeSegment(s)) == SeenSegment(o, s)
  {
    match s
    case Tcp(_, _, _, _, _, _, _) => TcpRoundTrip(o, s);
    case Udp(_, _, _, _) => UdpRoundTrip(o, s);
    case Icmp(_, _, _) =>
  }

  lemma ArpRoundTrip(o: Observation, p: Packet)
    requires WellFormedPacket(p) && p.Arp?
    ensures DecodeArp(o, EncodePacket(p)) == SeenPacket(o, p)
  {
    var d := EncodePacket(p);
    assert d[8..14] == p.sha && d[14..18] == p.spa && d[18..24] == p.tha && d[24..28] == p.tpa;
  }

  lemma IPv4RoundTrip(o: Observation, p: Packet)
    requires WellFormedPacket(p) && p.IPv4?
    ensures DecodeIPv4(o, EncodePacket(p)) == SeenPacket(o, p)
  {
    hide DecodeSegment, SeenSegment, EncodeSegment, ProtocolNumber;
    var d := EncodePacket(p);
    assert d[12..16] == p.src && d[16..20] == p.dst && d[9] == ProtocolNumber(p.segment);
    assert d[0] / 16 == 4 && d[0] % 16 * 4 == 20 + |p.ipOptions|;
    assert d[20 + |p.ipOptions|..] == EncodeSegment(p.segment);
    SegmentRoundTrip(o.(srcIP := p.src, dstIP := p.dst), p.segment);
  }

  lemma PacketRoundTrip(o: Observation, p: Packet)
    requires WellFormedPacket(p)
    ensures DecodePacket(o, EtherType(p), EncodePacket(p)) == SeenPacket(o, p)
  {
    hide DecodeArp, DecodeIPv4, SeenPacket, EncodePacket;
    if p.Arp? {
      ArpRoundTrip(o, p);
    } else {
      IPv4RoundTrip(o, p);
    }
  }

  lemma PacketNonempty(p: Packet)
    requires WellFormedPacket(p)
    ensures |EncodePacket(p)| >= 20
  {
  }

  /** Decoding an encoded frame returns exactly its addresses, ports, tag and payload, whatever the options
      and the bytes the decoder ignores. */
  lemma FrameRoundTrip(raw: Raw, f: Frame)
    requires Captures(raw, f)
    ensures Normalize(raw) == Seen(Blank(raw), f)
  {
    hide DecodePacket, SeenPacket, EncodePacket;
    var p, o := EncodePacket(f.packet), Blank(raw);
    PacketNonempty(f.packet);
    PacketRoundTrip(SeenLink(o, f.link), f.packet);
    match f.link
    case Ethernet(dst, src) =>
      assert raw.data[0..6] == dst && raw.data[6..12] == src && raw.data[14..] == p;
    case Tagged(dst, src, priority, vlan) =>
      assert raw.data[0..6] == dst && raw.data[6..12] == src && raw.data[18..] == p;
      assert U16At(raw.data, 14) == priority * 4096 + vlan;
    case RawIP =>
      assert raw.data == p;
  }

  // ----- Soundness: nothing else is Known -----

  function SegmentOf(protocol: Byte, d: seq<Byte>): Segment
    requires |d| >= 4 && (protocol == 6 ==> |d| >= 20 && 20 <= d[12] / 16 * 4 <= |d|) && (protocol == 17 ==> |d| >= 8)
  {
    if protocol == 6 then
      var n := d[12] / 16 * 4;
      Tcp(U16At(d, 0), U16At(d, 2), d[4..12], d[12] % 16, d[13..20], d[20..n], d[n..])
    else if protocol == 17 then Udp(U16At(d, 0), U16At(d, 2), d[4..8], d[8..])
    else Icmp(d[0], d[1], d[2..])
  }

  lemma TcpSound(d: seq<Byte>)
    requires |d| >= 20 && 20 <= d[12] / 16 * 4 <= |d|
    ensures var s := SegmentOf(6, d); WellFormedSegment(s) && EncodeSegment(s) == d
  {
    var n := d[12] / 16 * 4;
    BeOfU16At(d, 0);
    BeOfU16At(d, 2);
    assert [(5 + |d[20..n]| / 4) * 16 + d[12] % 16] == d[12..13];
    assert d == d[0..2] + d[2..4] + d[4..12] + d[12..13] + d[13..20] + d[20..n] + d[n..];
  }

  lemma SegmentSound(o: Observation, protocol: Byte, d: seq<Byte>) returns (s: Segment)
    requires DecodeSegment(o, protocol, d).0.confidence == Known
    requires o.confidence == Unknown
    ensures WellFormedSegment(s) && EncodeSegment(s) == d && ProtocolNumber(s) == protocol
  {
    s := SegmentOf(protocol, d);
    if protocol == 6 {
      TcpSound(d);
    }
  }

  lemma ArpSound(o: Observation, d: seq<Byte>) returns (p: Packet)
    requires DecodeArp(o, d).0.confidence == Known
    ensures WellFormedPacket(p) && EncodePacket(p) == d && p.Arp?
  {
    p := Arp(U16At(d, 6), d[8..14], d[14..18], d[18..24], d[24..28], d[28..]);
    BeOfU16At(d, 0);
    BeOfU16At(d, 2);
    BeOfU16At(d, 6);
    assert d[4..6] == [6, 4];
    ArpBytes(d);
  }

  lemma ArpBytes(d: seq<Byte>)
    requires |d| >= 28
    ensures d == d[0..2] + d[2..4] + d[4..6] + d[6..8] + d[8..14] + d[14..18] + d[18..24] + d[24..28] + d[28..]
  {
  }

  lemma IPv4Sound(o: Observation, d: seq<Byte>) returns (p: Packet)
    requires DecodeIPv4(o, d).0.confidence == Known && o.confidence == Unknown
    ensures WellFormedPacket(p) && EncodePacket(p) == d && p.IPv4?
  {
    hide DecodeSegment, EncodeSegment, WellFormedSegment, ProtocolNumber;
    var n := d[0] % 16 * 4;
    var s := SegmentSound(o.(srcIP := d[12..16], dstIP := d[16..20]), d[9], d[n..]);
    p := IPv4(d[1..9], d[10..12], d[12..16], d[16..20], d[20..n], s);
    HeaderBytes(d, n);
    assert [ProtocolNumber(s)] == d[9..10];
    assert EncodePacket(p) == d[0..1] + d[1..9] + d[9..10] + d[10..12] + d[12..16] + d[16..20] + d[20..n] + d[n..];
  }

  lemma HeaderBytes(d: seq<Byte>, n: nat)
    requires |d| >= 20 && d[0] / 16 == 4 && n == d[0] % 16 * 4 && 20 <= n <= |d|
    ensures [4 * 16 + 5 + |d[20..n]| / 4] == d[0..1] && Options(d[20..n])
    ensures d == d[0..1] + d[1..9] + d[9..10] + d[10..12] + d[12..16] + d[16..20] + d[20..n] + d[n..]
  {
  }

  lemma PacketSound(o: Observation, etherType: U16, d: seq<Byte>) returns (p: Packet)
    requires DecodePacket(o, etherType, d).0.confidence == Known && o.confidence == Unknown
    ensures WellFormedPacket(p) && EncodePacket(p) == d && EtherType(p) == etherType
  {
    hide DecodeArp, DecodeIPv4, EncodePacket, WellFormedPacket;
    if etherType == 0x0806 {
      p := ArpSound(o, d);
    } else {
      p := IPv4Sound(o, d);
    }
  }

  /** Whatever is reported as Known is an encoded frame: no other bytes are taken for traffic. */
  lemma KnownIsAFrame(raw: Raw) returns (f: Frame)
    requires Normalize(raw).0.confidence == Known
    ensures Captures(raw, f) && Normalize(raw) == Seen(Blank(raw), f)
  {
    f := LinkSound(raw);
    FrameRoundTrip(raw, f);
  }

  lemma LinkSound(raw: Raw) returns (f: Frame)
    requires Normalize(raw).0.confidence == Known
    ensures Captures(raw, f)
  {
    hide DecodePacket, EncodePacket, WellFormedPacket, EncodeLink;
    var o, d := Blank(raw), raw.data;
    if raw.linkType == "raw_ip" {
      var p := PacketSound(o, 0x0800, d);
      f := Frame(RawIP, p);
      NoLinkHeader(EtherType(p));
    } else {
      var o' := o.(dstMAC := d[0..6], srcMAC := d[6..12]);
      if U16At(d, 12) == 0x8100 {
        var p := PacketSound(o'.(vlan := Some(U16At(d, 14) % 4096)), U16At(d, 16), d[18..]);
        f := Frame(Tagged(d[0..6], d[6..12], U16At(d, 14) / 4096, U16At(d, 14) % 4096), p);
        TaggedBytes(d);
      } else {
        var p := PacketSound(o', U16At(d, 12), d[14..]);
        f := Frame(Ethernet(d[0..6], d[6..12]), p);
        EthernetBytes(d);
      }
    }
  }

  lemma NoLinkHeader(etherType: U16)
    ensures EncodeLink(RawIP, etherType) == []
  {
  }

  lemma EthernetBytes(d: seq<Byte>)
    requires |d| >= 14
    ensures EncodeLink(Ethernet(d[0..6], d[6..12]), U16At(d, 12)) + d[14..] == d
  {
    BeOfU16At(d, 12);
    assert d == d[0..6] + d[6..12] + d[12..14] + d[14..];
  }

  lemma TaggedBytes(d: seq<Byte>)
    requires |d| >= 18 && U16At(d, 12) == 0x8100
    ensures EncodeLink(Tagged(d[0..6], d[6..12], U16At(d, 14) / 4096, U16At(d, 14) % 4096), U16At(d, 16)) + d[18..] == d
  {
    BeOfU16At(d, 12);
    BeOfU16At(d, 14);
    BeOfU16At(d, 16);
    assert d == d[0..6] + d[6..12] + d[12..14] + d[14..16] + d[16..18] + d[18..];
  }

  /** The decoder recognises exactly the frames of the format. */
  lemma KnownExactlyFrames(raw: Raw)
    ensures Normalize(raw).0.confidence == Known <==> exists f :: Captures(raw, f)
  {
    if Normalize(raw).0.confidence == Known {
      var f := KnownIsAFrame(raw);
    }
    forall f | Captures(raw, f) ensures Normalize(raw).0.confidence == Known {
      FrameRoundTrip(raw, f);
    }
  }

  // ----- Refusals -----

  predicate IsSuffix(s: seq<Byte>, d: seq<Byte>) {
    |s| <= |d| && s == d[|d| - |s|..]
  }

  /** Known or refused: a refused input carries one flag and no payload, a known one no flag; the payload is
      a suffix of the captured bytes and its length is the one reported. */
  ghost predicate Clean(r: Result, d: seq<Byte>) {
    && (r.0.confidence == Known || r.0.confidence == Unsupported)
    && (r.0.confidence == Known <==> r.0.flags == [])
    && (r.0.confidence == Unsupported <==> |r.0.flags| == 1)
    && (r.0.confidence == Unsupported ==> r.1 == None && r.0.payloadLength == 0)
    && (r.1.Some? ==> IsSuffix(r.1.value, d) && r.0.payloadLength == |r.1.value|)
    && (r.1.None? ==> r.0.payloadLength == 0)
    && r.0.hint == "unknown"
  }

  ghost predicate Fresh(o: Observation) {
    o.flags == [] && o.confidence == Unknown && o.payloadLength == 0 && o.hint == "unknown"
  }

  lemma SegmentClean(o: Observation, protocol: Byte, d: seq<Byte>)
    requires Fresh(o)
    ensures Clean(DecodeSegment(o, protocol, d), d)
  {
  }

  lemma PacketClean(o: Observation, etherType: U16, d: seq<Byte>)
    requires Fresh(o)
    ensures Clean(DecodePacket(o, etherType, d), d)
  {
    hide DecodeSegment;
    if etherType == 0x0800 && |d| >= 20 && d[0] / 16 == 4 && 20 <= d[0] % 16 * 4 <= |d| {
      SegmentClean(o.(srcIP := d[12..16], dstIP := d[16..20]), d[9], d[d[0] % 16 * 4..]);
    }
  }

  lemma NormalizeIsClean(raw: Raw)
    ensures Clean(Normalize(raw), raw.data)
  {
    hide DecodePacket;
    var o, d := Blank(raw), raw.data;
    if raw.linkType == "raw_ip" {
      PacketClean(o, 0x0800, d);
    } else if |d| >= 14 {
      var o' := o.(dstMAC := d[0..6], srcMAC := d[6..12]);
      if U16At(d, 12) != 0x8100 {
        PacketClean(o', U16At(d, 12), d[14..]);
      } else if |d| >= 18 {
        PacketClean(o'.(vlan := Some(U16At(d, 14) % 4096)), U16At(d, 16), d[18..]);
      }
    }
  }

  // ----- Truncation -----

  function SegmentHeader(s: Segment): nat {
    match s
    case Tcp(_, _, _, _, _, options, _) => 20 + |options|
    case Udp(_, _, _, _) => 8
    case Icmp(_, _, _) => 4
  }

  function PacketHeader(p: Packet): nat {
    match p
    case Arp(_, _, _, _, _, _) => 28
    case IPv4(_, _, _, _, options, segment) => 20 + |options| + SegmentHeader(segment)
  }

  function LinkHeader(l: Link): nat {
    match l
    case Ethernet(_, _) => 14
    case Tagged(_, _, _, _) => 18
    case RawIP => 0
  }

  function Header(f: Frame): nat {
    LinkHeader(f.link) + PacketHeader(f.packet)
  }

  /** The segment with its payload cut to n bytes in all. */
  function CutSegment(s: Segment, n: nat): Segment
    requires WellFormedSegment(s) && SegmentHeader(s) <= n <= |EncodeSegment(s)|
  {
    match s
    case Tcp(srcPort, dstPort, numbers, reserved, control, options, payload) =>
      Tcp(srcPort, dstPort, numbers, reserved, control, options, payload[..n - SegmentHeader(s)])
    case Udp(srcPort, dstPort, lengthAndChecksum, payload) => Udp(srcPort, dstPort, lengthAndChecksum, payload[..n - 8])
    case Icmp(kind, code, rest) => Icmp(kind, code, rest[..n - 2])
  }

  lemma SegmentCut(o: Observation, s: Segment, n: nat)
    requires WellFormedSegment(s) && n <= |EncodeSegment(s)| && o.confidence == Unknown
    ensures n < SegmentHeader(s) ==>
              DecodeSegment(o, ProtocolNumber(s), EncodeSegment(s)[..n]).0.confidence == Unsupported
    ensures n >= SegmentHeader(s) ==>
              DecodeSegment(o, ProtocolNumber(s), EncodeSegment(s)[..n]) == SeenSegment(o, CutSegment(s, n))
  {
    if n >= SegmentHeader(s) {
      CutEncodes(s, n);
      SegmentRoundTrip(o, CutSegment(s, n));
    } else if s.Tcp? && n >= 20 {
      assert EncodeSegment(s)[12] == (5 + |s.options| / 4) * 16 + s.reserved;
    }
  }

  lemma CutEncodes(s: Segment, n: nat)
    requires WellFormedSegment(s) && SegmentHeader(s) <= n <= |EncodeSegment(s)|
    ensures WellFormedSegment(CutSegment(s, n)) && ProtocolNumber(CutSegment(s, n)) == ProtocolNumber(s)
    ensures EncodeSegment(CutSegment(s, n)) == EncodeSegment(s)[..n]
  {
    match s
    case Tcp(_, _, _, _, _, _, _) => CutTcp(s, n);
    case Udp(srcPort, dstPort, lengthAndChecksum, payload) =>
      AppendCut(Be(srcPort) + Be(dstPort) + lengthAndChecksum, payload, n);
    case Icmp(kind, code, rest) =>
      AppendCut([kind, code], rest, n);
  }

  function TcpHead(s: Segment): seq<Byte>
    requires s.Tcp? && WellFormedSegment(s)
  {
    Be(s.srcPort) + Be(s.dstPort) + s.numbers + [(5 + |s.options| / 4) * 16 + s.reserved] + s.control + s.options
  }

  lemma TcpHeadFirst(s: Segment)
    requires s.Tcp? && WellFormedSegment(s)
    ensures EncodeSegment(s) == TcpHead(s) + s.payload && |TcpHead(s)| == SegmentHeader(s)
  {
  }

  lemma CutKeepsHead(s: Segment, n: nat)
    requires s.Tcp? && WellFormedSegment(s) && SegmentHeader(s) <= n <= |EncodeSegment(s)|
    ensures CutSegment(s, n).Tcp? && WellFormedSegment(CutSegment(s, n))
    ensures TcpHead(CutSegment(s, n)) == TcpHead(s)
    ensures |EncodeSegment(s)| == SegmentHeader(s) + |s.payload|
    ensures CutSegment(s, n).payload == s.payload[..n - SegmentHeader(s)]
  {
  }

  lemma CutTcp(s: Segment, n: nat)
    requires s.Tcp? && WellFormedSegment(s) && SegmentHeader(s) <= n <= |EncodeSegment(s)|
    ensures EncodeSegment(CutSegment(s, n)) == EncodeSegment(s)[..n]
  {
    hide EncodeSegment, CutSegment, TcpHead;
    TcpHeadFirst(s);
    CutKeepsHead(s, n);
    TcpHeadFirst(CutSegment(s, n));
    AppendCut(TcpHead(s), s.payload, n);
  }

  lemma AppendCut(head: seq<Byte>, tail: seq<Byte>, n: nat)
    requires |head| <= n <= |head| + |tail|
    ensures (head + tail)[..n] == head + tail[..n - |head|]
    ensures (head + tail)[..n][|head|..] == tail[..n - |head|]
  {
  }

  function CutPacket(p: Packet, n: nat): Packet
    requires WellFormedPacket(p) && PacketHeader(p) <= n <= |EncodePacket(p)|
  {
    match p
    case Arp(_, _, _, _, _, trailer) => p.(trailer := trailer[..n - 28])
    case IPv4(_, _, _, _, options, segment) => p.(segment := CutSegment(segment, n - 20 - |options|))
  }

  lemma PacketCut(o: Observation, p: Packet, n: nat)
    requires WellFormedPacket(p) && n <= |EncodePacket(p)| && o.confidence == Unknown
    ensures var d := EncodePacket(p)[..n];
            && (n < PacketHeader(p) ==> DecodePacket(o, EtherType(p), d).0.confidence == Unsupported)
            && (n >= PacketHeader(p) ==> WellFormedPacket(CutPacket(p, n))
                                         && DecodePacket(o, EtherType(p), d) == SeenPacket(o, CutPacket(p, n)))
  {
    hide DecodeSegment, SeenSegment, EncodeSegment, ProtocolNumber, CutSegment, SegmentHeader, WellFormedSegment,
        DecodeArp;
    match p
    case Arp(_, _, _, _, _, trailer) => ArpCut(o, p, n);
    case IPv4(fixed, checksum, src, dst, options, segment) =>
      var d, h := EncodePacket(p), 20 + |options|;
      assert d[0] / 16 == 4 && d[0] % 16 * 4 == h;
      if n >= h {
        IPv4Fields(p);
        assert d[..n][12..16] == src && d[..n][16..20] == dst;
        assert d[..n][h..] == EncodeSegment(segment)[..n - h];
        SegmentCut(o.(srcIP := src, dstIP := dst), segment, n - h);
        if n - h >= SegmentHeader(segment) {
          CutEncodes(segment, n - h);
        }
      }
  }

  lemma IPv4Fields(p: Packet)
    requires WellFormedPacket(p) && p.IPv4?
    ensures var d := EncodePacket(p);
            && d[9] == ProtocolNumber(p.segment) && d[12..16] == p.src && d[16..20] == p.dst
            && d[20 + |p.ipOptions|..] == EncodeSegment(p.segment)
  {
    hide EncodeSegment, ProtocolNumber;
  }

  lemma ArpCut(o: Observation, p: Packet, n: nat)
    requires WellFormedPacket(p) && n <= |EncodePacket(p)| && p.Arp?
    ensures n < 28 ==> DecodeArp(o, EncodePacket(p)[..n]).0.confidence == Unsupported
    ensures n >= 28 ==>
              WellFormedPacket(CutPacket(p, n)) && DecodeArp(o, EncodePacket(p)[..n]) == SeenPacket(o, CutPacket(p, n))
  {
    if n >= 28 {
      assert EncodePacket(CutPacket(p, n)) == EncodePacket(p)[..n] by { hide DecodeArp, SeenPacket; }
      hide EncodePacket;
      ArpRoundTrip(o, CutPacket(p, n));
    }
  }

  lemma PacketHeaderFits(p: Packet)
    requires WellFormedPacket(p)
    ensures 20 <= PacketHeader(p) <= |EncodePacket(p)|
  {
  }

  /** A frame captured only in part is Known exactly when its headers are all there. What is lost behind them
      merely shortens the payload, whatever length the headers declare. */
  lemma TruncatedCapture(raw: Raw, f: Frame, n: nat)
    requires Captures(raw, f) && n <= |raw.data|
    ensures var r := Normalize(raw.(data := raw.data[..n]));
            && (r.0.confidence == Known <==> n >= Header(f))
            && (n >= Header(f) ==>
                  var p := CutPacket(f.packet, n - LinkHeader(f.link));
                  WellFormedPacket(p) && r == Seen(Blank(raw), f.(packet := p)))
  {
    hide DecodePacket, SeenPacket, EncodePacket, PacketHeader, CutPacket, WellFormedPacket;
    var e, o, h := EncodePacket(f.packet), Blank(raw), LinkHeader(f.link);
    var d := raw.data[..n];
    PacketHeaderFits(f.packet);
    if n < h {
      LinkTooShort(raw, f, n);
    } else {
      LinkCut(raw, f, n);
      PacketCut(SeenLink(o, f.link), f.packet, n - h);
      if n - h >= PacketHeader(f.packet) {
        SeenIsKnown(SeenLink(o, f.link), CutPacket(f.packet, n - h));
      }
    }
  }

  lemma LinkCut(raw: Raw, f: Frame, n: nat)
    requires Captures(raw, f) && LinkHeader(f.link) <= n <= |raw.data|
    ensures LinkHeader(f.link) + |EncodePacket(f.packet)| == |raw.data|
    ensures var d := raw.data[..n];
            && Normalize(raw.(data := d)) == if d == [] then Fail(Blank(raw), TRUNCATED_PACKET) else
                 DecodePacket(SeenLink(Blank(raw), f.link), EtherType(f.packet),
                              EncodePacket(f.packet)[..n - LinkHeader(f.link)])
  {
    hide DecodePacket, EncodePacket, WellFormedPacket;
    var d := raw.data[..n];
    AppendCut(EncodeLink(f.link, EtherType(f.packet)), EncodePacket(f.packet), n);
    match f.link
    case Ethernet(dst, src) =>
      assert d[0..6] == dst && d[6..12] == src;
    case Tagged(dst, src, priority, vlan) =>
      assert d[0..6] == dst && d[6..12] == src;
      assert U16At(d, 14) == priority * 4096 + vlan;
    case RawIP =>
      assert d == EncodePacket(f.packet)[..n];
  }

  lemma LinkTooShort(raw: Raw, f: Frame, n: nat)
    requires Captures(raw, f) && n < LinkHeader(f.link) && n <= |raw.data|
    ensures Normalize(raw.(data := raw.data[..n])).0.confidence == Unsupported
  {
    hide DecodePacket, EncodePacket, WellFormedPacket;
    if f.link.Tagged? && n >= 14 {
      assert U16At(raw.data[..n], 12) == 0x8100;
    }
  }

  lemma SeenIsKnown(o: Observation, p: Packet)
    requires WellFormedPacket(p)
    ensures SeenPacket(o, p).0.confidence == Known
  {
  }

  // ----- Which refusal -----

  /** Too short for its link header. */
  predicate NoLink(raw: Raw) {
    var d := raw.data;
    d == [] || (raw.linkType != "raw_ip" && (|d| < 14 || (U16At(d, 12) == 0x8100 && |d| < 18)))
  }

  /** Where the packet begins. */
  function PacketStart(raw: Raw): nat
    requires !NoLink(raw)
  {
    if raw.linkType == "raw_ip" then 0 else if U16At(raw.data, 12) == 0x8100 then 18 else 14
  }

  /** The type of the packet, behind the tag if there is one. */
  function PacketType(raw: Raw): U16
    requires !NoLink(raw)
  {
    if raw.linkType == "raw_ip" then 0x0800 else U16At(raw.data, PacketStart(raw) - 2)
  }

  /** Ethernet and IPv4 addresses of their usual lengths. */
  predicate ArpHeader(p: seq<Byte>) {
    |p| >= 28 && U16At(p, 0) == 1 && U16At(p, 2) == 0x0800 && p[4] == 6 && p[5] == 4
  }

  /** Version 4 and a header length that is neither too small nor beyond the bytes there are. */
  predicate Ipv4Header(p: seq<Byte>) {
    |p| >= 20 && p[0] / 16 == 4 && 20 <= p[0] % 16 * 4 <= |p|
  }

  /** Bytes of the smallest header of a protocol. */
  function SmallestHeader(protocol: Byte): nat {
    if protocol == 6 then 20 else if protocol == 17 then 8 else if protocol == 1 then 4 else 0
  }

  predicate BadDataOffset(l4: seq<Byte>) {
    |l4| >= 20 && !(20 <= l4[12] / 16 * 4 <= |l4|)
  }

  lemma PacketRefusal(o: Observation, t: U16, p: seq<Byte>)
    requires Fresh(o)
    ensures var flags := DecodePacket(o, t, p).0.flags;
            && (UNSUPPORTED_PROTOCOL in flags <==>
                  || t !in {0x0800, 0x0806}
                  || (t == 0x0806 && |p| >= 28 && !ArpHeader(p))
                  || (t == 0x0800 && Ipv4Header(p) && p[9] !in {1, 6, 17}))
            && (MALFORMED_FRAME in flags <==>
                  && t == 0x0800 && |p| >= 20
                  && (!Ipv4Header(p) || (p[9] == 6 && BadDataOffset(p[p[0] % 16 * 4..]))))
            && (TRUNCATED_PACKET in flags <==>
                  || (t == 0x0806 && |p| < 28)
                  || (t == 0x0800 && |p| < 20)
                  || (t == 0x0800 && Ipv4Header(p) && |p| - p[0] % 16 * 4 < SmallestHeader(p[9])))
  {
    hide Hex4, OperationName, Numerals.Decimal;
  }

  /** Why a capture is refused, on arbitrary bytes: unsupported for another packet type, other ARP addresses or
      another transport; malformed for a bad IPv4 header or a bad TCP data offset; truncated when a header ends
      before it is complete. Every refused capture has exactly one of the three. */
  lemma RefusalExactly(raw: Raw)
    ensures NoLink(raw) ==> Normalize(raw).0.flags == [TRUNCATED_PACKET]
    ensures !NoLink(raw) ==>
              var flags, t, p := Normalize(raw).0.flags, PacketType(raw), raw.data[PacketStart(raw)..];
              && (UNSUPPORTED_PROTOCOL in flags <==>
                    || t !in {0x0800, 0x0806}
                    || (t == 0x0806 && |p| >= 28 && !ArpHeader(p))
                    || (t == 0x0800 && Ipv4Header(p) && p[9] !in {1, 6, 17}))
              && (MALFORMED_FRAME in flags <==>
                    && t == 0x0800 && |p| >= 20
                    && (!Ipv4Header(p) || (p[9] == 6 && BadDataOffset(p[p[0] % 16 * 4..]))))
              && (TRUNCATED_PACKET in flags <==>
                    || (t == 0x0806 && |p| < 28)
                    || (t == 0x0800 && |p| < 20)
                    || (t == 0x0800 && Ipv4Header(p) && |p| - p[0] % 16 * 4 < SmallestHeader(p[9])))
  {
    hide DecodePacket, ArpHeader, Ipv4Header, BadDataOffset, SmallestHeader;
    if !NoLink(raw) {
      var d := raw.data;
      var o := LinkRead(raw);
      PacketRefusal(o, PacketType(raw), d[PacketStart(raw)..]);
    }
  }

  lemma LinkRead(raw: Raw) returns (o: Observation)
    requires !NoLink(raw)
    ensures Normalize(raw) == DecodePacket(o, PacketType(raw), raw.data[PacketStart(raw)..])
    ensures Fresh(o) && o.observedAt == raw.timestamp && o.iface == raw.iface
  {
    hide DecodePacket;
    var d := raw.data;
    o := Blank(raw);
    if raw.linkType != "raw_ip" {
      o := o.(dstMAC := d[0..6], srcMAC := d[6..12]);
      if U16At(d, 12) == 0x8100 {
        o := o.(vlan := Some(U16At(d, 14) % 4096));
      }
    }
  }

  // ----- Names and labels -----

  /** A capture keeps its time and interface, whatever becomes of it, and one whose packet type or transport is not
      decoded is still named by it. */
  lemma LabelsExactly(raw: Raw)
    ensures Normalize(raw).0.observedAt == raw.timestamp && Normalize(raw).0.iface == raw.iface
    ensures !NoLink(raw) ==>
              var transport, t, p := Normalize(raw).0.transport, PacketType(raw), raw.data[PacketStart(raw)..];
              && (t !in {0x0800, 0x0806} ==> transport == "ETH_0x" + Hex4(t))
              && (t == 0x0806 && |p| >= 28 ==> transport == "ARP")
              && (t == 0x0800 && Ipv4Header(p) && p[9] !in {1, 6, 17} ==> transport == "IP_" + Numerals.Decimal(p[9]))
  {
    hide DecodePacket, Ipv4Header, Hex4, Numerals.Decimal;
    if !NoLink(raw) {
      var o := LinkRead(raw);
      PacketLabels(o, PacketType(raw), raw.data[PacketStart(raw)..]);
    }
  }

  lemma PacketLabels(o: Observation, t: U16, p: seq<Byte>)
    ensures var r := DecodePacket(o, t, p).0;
            && r.observedAt == o.observedAt && r.iface == o.iface
            && (t !in {0x0800, 0x0806} ==> r.transport == "ETH_0x" + Hex4(t))
            && (t == 0x0806 && |p| >= 28 ==> r.transport == "ARP")
            && (t == 0x0800 && Ipv4Header(p) && p[9] !in {1, 6, 17} ==>
                  r.transport == "IP_" + Numerals.Decimal(p[9]))
  {
    hide Hex4, OperationName, Numerals.Decimal;
  }

  /** The operation of an ARP message is told by its name. */
  lemma OperationNameTells(a: U16, b: U16)
    ensures OperationName(1) == "request" && OperationName(2) == "reply"
    ensures OperationName(a) == OperationName(b) ==> a == b
  {
    hide Numerals.Decimal;
    if OperationName(a) == OperationName(b) {
      var s, t := OperationName(a), OperationName(b);
      assert s[0] == t[0];
      if a > 2 || a == 0 {
        assert s[7..] == Numerals.Decimal(a) && t[7..] == Numerals.Decimal(b);
        Numerals.DecimalInjective(a, b);
      }
    }
  }

  function HexValue(c: char): int {
    if '0' <= c <= '9' then c as int - '0' as int else c as int - 'A' as int + 10
  }

  /** Four digits, upper case, that read back as the number. */
  lemma HexReadsBack(v: U16)
    ensures |Hex4(v)| == 4 && forall i | 0 <= i < 4 :: '0' <= Hex4(v)[i] <= '9' || 'A' <= Hex4(v)[i] <= 'F'
    ensures var s := Hex4(v);
            4096 * HexValue(s[0]) + 256 * HexValue(s[1]) + 16 * HexValue(s[2]) + HexValue(s[3]) == v
  {
    hide HexDigit, HexValue;
    HexDigitReadsBack(v / 4096);
    HexDigitReadsBack(v / 256 % 16);
    HexDigitReadsBack(v / 16 % 16);
    HexDigitReadsBack(v % 16);
    HexParts(v);
  }

  lemma HexParts(v: int)
    requires 0 <= v < 65536
    ensures 4096 * (v / 4096) + 256 * (v / 256 % 16) + 16 * (v / 16 % 16) + v % 16 == v
  {
    assert v / 256 == v / 16 / 16 && v / 4096 == v / 16 / 16 / 16;
  }

  lemma HexDigitReadsBack(d: nat)
    requires d < 16
    ensures HexValue(HexDigit(d)) == d
    ensures '0' <= HexDigit(d) <= '9' || 'A' <= HexDigit(d) <= 'F'
  {
  }
}

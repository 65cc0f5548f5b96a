/** The passive decoder in its imperative form: decoders that fill a shared observation in place, a Modbus
    decoder that fills an evidence record, and the fixture encoders that write header fields into buffers. */
module PassiveNetworkObjects {
  import opened Wrappers
  import opened Packets
  import opened Normalizer
  import opened NormalizerProperties
  import opened Modbus
  import opened PassiveNetwork

  class NormalizedObservation {
    const observedAt: int
    const iface: string
    var srcMAC: seq<Byte>
    var dstMAC: seq<Byte>
    var srcIP: seq<Byte>
    var dstIP: seq<Byte>
    var srcPort: U16
    var dstPort: U16
    var transportProtocol: string
    var vlanID: Option<U16>
    var protocolHint: string
    var confidence: Confidence
    var payloadLength: nat
    var metadata: map<string, Meta>
    var qualityFlags: seq<Flag>

    constructor (raw: Raw)
      ensures View() == Blank(raw)
    {
      observedAt, iface := raw.timestamp, raw.iface;
      srcMAC, dstMAC, srcIP, dstIP, srcPort, dstPort := [], [], [], [], 0, 0;
      transportProtocol, vlanID, protocolHint, confidence := "", None, "unknown", Unknown;
      payloadLength, metadata, qualityFlags := 0, map[], [];
    }

    function View(): Observation
      reads this
    {
      Observation(observedAt, iface, srcMAC, dstMAC, srcIP, dstIP, srcPort, dstPort, transportProtocol, vlanID,
                  protocolHint, confidence, payloadLength, metadata, qualityFlags)
    }

    method Refuse(flag: Flag)
      modifies this
      ensures View() == old(Fail(View(), flag).0)
    {
      qualityFlags := qualityFlags + [flag];
      confidence := Unsupported;
    }
  }

  method DecodeTCP(l4: seq<Byte>, obs: NormalizedObservation) returns (payload: Option<seq<Byte>>)
    modifies obs
    ensures (obs.View(), payload) == old(DecodeTcp(obs.View(), l4))
  {
    if |l4| < 20 {
      obs.Refuse(TRUNCATED_PACKET);
      return None;
    }
    obs.transportProtocol := "TCP";
    obs.srcPort := U16At(l4, 0);
    obs.dstPort := U16At(l4, 2);
    var dataOffset := l4[12] / 16 * 4;
    if dataOffset < 20 || |l4| < dataOffset {
      obs.Refuse(MALFORMED_FRAME);
      return None;
    }
    obs.confidence := Known;
    payload := Some(l4[dataOffset..]);
    obs.payloadLength := |payload.value|;
  }

  method DecodeUDP(l4: seq<Byte>, obs: NormalizedObservation) returns (payload: Option<seq<Byte>>)
    modifies obs
    ensures (obs.View(), payload) == old(DecodeUdp(obs.View(), l4))
  {
    if |l4| < 8 {
      obs.Refuse(TRUNCATED_PACKET);
      return None;
    }
    obs.transportProtocol := "UDP";
    obs.srcPort := U16At(l4, 0);
    obs.dstPort := U16At(l4, 2);
    obs.confidence := Known;
    payload := Some(l4[8..]);
    obs.payloadLength := |payload.value|;
  }

  method DecodeICMP(l4: seq<Byte>, obs: NormalizedObservation) returns (payload: Option<seq<Byte>>)
    modifies obs
    ensures (obs.View(), payload) == old(DecodeIcmp(obs.View(), l4))
  {
    if |l4| < 4 {
      obs.Refuse(TRUNCATED_PACKET);
      return None;
    }
    obs.transportProtocol := "ICMP";
    obs.confidence := Known;
    obs.metadata := obs.metadata["icmp_type" := Number(l4[0])];
    obs.metadata := obs.metadata["icmp_code" := Number(l4[1])];
    obs.payloadLength := |l4|;
    payload := Some(l4);
  }

  method DecodeIPv4At(data: seq<Byte>, offset: nat, obs: NormalizedObservation) returns (payload: Option<seq<Byte>>)
    requires offset <= |data|
    modifies obs
    ensures (obs.View(), payload) == old(DecodeIPv4(obs.View(), data[offset..]))
  {
    hide DecodeTcp, DecodeUdp, DecodeIcmp;
    if |data| < offset + 20 {
      obs.Refuse(TRUNCATED_PACKET);
      return None;
    }
    var ver := data[offset] / 16;
    if ver != 4 {
      obs.Refuse(MALFORMED_FRAME);
      return None;
    }
    var ihl := data[offset] % 16 * 4;
    if ihl < 20 || |data| < offset + ihl {
      obs.Refuse(MALFORMED_FRAME);
      return None;
    }
    var protocol := data[offset + 9];
    obs.srcIP := data[offset + 12..offset + 16];
    obs.dstIP := data[offset + 16..offset + 20];
    var l4Offset := offset + ihl;
    var l4Data := data[l4Offset..];
    ghost var d := data[offset..];
    assert d[12..16] == obs.srcIP && d[16..20] == obs.dstIP && d[ihl..] == l4Data;
    if protocol == 6 {
      payload := DecodeTCP(l4Data, obs);
    } else if protocol == 17 {
      payload := DecodeUDP(l4Data, obs);
    } else if protocol == 1 {
      payload := DecodeICMP(l4Data, obs);
    } else {
      obs.transportProtocol := "IP_" + Numerals.Decimal(protocol);
      obs.Refuse(UNSUPPORTED_PROTOCOL);
      payload := None;
    }
  }

  method DecodeARPAt(data: seq<Byte>, offset: nat, obs: NormalizedObservation) returns (payload: Option<seq<Byte>>)
    requires offset <= |data|
    modifies obs
    ensures (obs.View(), payload) == old(DecodeArp(obs.View(), data[offset..]))
  {
    hide OperationName, U16At;
    payload := None;
    if |data| < offset + 28 {
      obs.Refuse(TRUNCATED_PACKET);
      return;
    }
    ArpFields(data, offset);
    var htype, ptype, hlen, plen := U16At(data, offset), U16At(data, offset + 2), data[offset + 4], data[offset + 5];
    var oper := U16At(data, offset + 6);
    if htype != 1 || ptype != 0x0800 || hlen != 6 || plen != 4 {
      obs.transportProtocol := "ARP";
      obs.Refuse(UNSUPPORTED_PROTOCOL);
      return;
    }
    RecordArp(obs, oper, data[offset + 8..offset + 14], data[offset + 14..offset + 18], data[offset + 18..offset + 24],
              data[offset + 24..offset + 28]);
  }

  method RecordArp(obs: NormalizedObservation, oper: U16, sha: seq<Byte>, spa: seq<Byte>, tha: seq<Byte>,
                   tpa: seq<Byte>)
    modifies obs
    ensures obs.View() == old(obs.View()).(transport := "ARP", confidence := Known, srcMAC := sha, dstMAC := tha,
                                           srcIP := spa, dstIP := tpa,
                                           metadata := old(obs.metadata)["arp_operation" := Text(OperationName(oper))])
  {
    hide OperationName;
    obs.transportProtocol := "ARP";
    obs.confidence := Known;
    obs.srcMAC, obs.dstMAC, obs.srcIP, obs.dstIP := sha, tha, spa, tpa;
    var operation := OperationText(oper);
    obs.metadata := obs.metadata["arp_operation" := Text(operation)];
  }

  method OperationText(oper: U16) returns (text: string)
    ensures text == OperationName(oper)
  {
    if oper == 1 {
      text := "request";
    } else if oper == 2 {
      text := "reply";
    } else {
      text := "opcode_" + Numerals.Decimal(oper);
    }
  }

  lemma ArpFields(data: seq<Byte>, offset: nat)
    requires offset + 28 <= |data|
    ensures var d := data[offset..];
            && U16At(data, offset) == U16At(d, 0) && U16At(data, offset + 2) == U16At(d, 2)
            && U16At(data, offset + 6) == U16At(d, 6)
            && data[offset + 8..offset + 14] == d[8..14] && data[offset + 14..offset + 18] == d[14..18]
            && data[offset + 18..offset + 24] == d[18..24] && data[offset + 24..offset + 28] == d[24..28]
  {
  }

  method NormalizeRawObservation(raw: Raw) returns (obs: NormalizedObservation, payload: Option<seq<Byte>>)
    ensures fresh(obs)
    ensures (obs.View(), payload) == Normalize(raw)
  {
    hide DecodePacket;
    obs := new NormalizedObservation(raw);
    payload := None;
    var data := raw.data;
    if |data| == 0 {
      obs.Refuse(TRUNCATED_PACKET);
      return;
    }
    var offset := 0;
    var etherType: U16 := 0x0800;
    if raw.linkType != "raw_ip" {
      if |data| < 14 {
        obs.Refuse(TRUNCATED_PACKET);
        return;
      }
      obs.dstMAC := data[0..6];
      obs.srcMAC := data[6..12];
      etherType := U16At(data, 12);
      offset := 14;
      if etherType == 0x8100 {
        if |data| < offset + 4 {
          obs.Refuse(TRUNCATED_PACKET);
          return;
        }
        var tci := U16At(data, offset);
        obs.vlanID := Some(tci % 4096);
        etherType := U16At(data, offset + 2);
        offset := offset + 4;
      }
    }
    assert data[0..] == data;
    payload := Route(data, offset, etherType, obs);
  }

  /** Routing by EtherType. */
  method Route(data: seq<Byte>, offset: nat, etherType: U16, obs: NormalizedObservation)
    returns (payload: Option<seq<Byte>>)
    requires offset <= |data|
    modifies obs
    ensures (obs.View(), payload) == old(DecodePacket(obs.View(), etherType, data[offset..]))
  {
    hide DecodeArp, DecodeIPv4, Hex4;
    payload := None;
    if etherType == 0x0806 {
      payload := DecodeARPAt(data, offset, obs);
    } else if etherType == 0x0800 {
      payload := DecodeIPv4At(data, offset, obs);
    } else {
      obs.transportProtocol := "ETH_0x" + Hex4(etherType);
      obs.Refuse(UNSUPPORTED_PROTOCOL);
    }
  }

  class ModbusEvidence {
    var transactionID: U16
    var protocolID: U16
    var length: U16
    var unitID: Byte
    var functionCode: Byte
    var functionName: string
    var isException: bool
    var exceptionCode: Option<Byte>
    var direction: string
    var startingAddress: Option<U16>
    var quantity: Option<U16>

    constructor (txID: U16, protoID: U16, mbapLen: U16, unit: Byte, rawFC: Byte)
      ensures View() == Evidence(txID, protoID, mbapLen, unit, rawFC, "", false, None, "unknown", None, None)
    {
      transactionID, protocolID, length, unitID, functionCode := txID, protoID, mbapLen, unit, rawFC;
      functionName, isException, exceptionCode, direction := "", false, None, "unknown";
      startingAddress, quantity := None, None;
    }

    function View(): Evidence
      reads this
    {
      Evidence(transactionID, protocolID, length, unitID, functionCode, functionName, isException, exceptionCode,
               direction, startingAddress, quantity)
    }
  }

  method DecodeModbus(obs: NormalizedObservation?, payload: seq<Byte>)
    returns (evidence: ModbusEvidence?, confidence: Confidence, flags: seq<Flag>)
    ensures evidence != null ==> fresh(evidence)
    ensures var o := if obs == null then None else Some(obs.View());
            var r := DecodeModbusTCP(o, payload);
            && r.1 == confidence && r.2 == flags
            && r.0 == if evidence == null then None else Some(evidence.View())
  {
    hide Described, U16At;
    evidence, confidence, flags := null, Inferred, [];
    if |payload| < 7 {
      flags := flags + [MODBUS_TRUNCATED_PAYLOAD];
      return;
    }
    var txID, protoID, mbapLen, unitID := U16At(payload, 0), U16At(payload, 2), U16At(payload, 4), payload[6];
    if protoID != 0 {
      flags := flags + [MODBUS_INVALID_MBAP];
      return;
    }
    if mbapLen < 2 {
      flags := flags + [MODBUS_INVALID_MBAP];
      return;
    }
    if |payload| < 8 {
      flags := flags + [MODBUS_TRUNCATED_PAYLOAD];
      return;
    }
    var rawFC := payload[7];
    var e := new ModbusEvidence(txID, protoID, mbapLen, unitID, rawFC);
    evidence, confidence := e, Known;
    if obs != null {
      if obs.dstPort == 502 && obs.srcPort != 502 {
        e.direction := "request";
      } else if obs.srcPort == 502 && obs.dstPort != 502 {
        e.direction := "response";
      }
    }
    flags := DescribeFunction(e, payload);
  }

  /** Exception, function name and the bounded function-specific fields. */
  method DescribeFunction(e: ModbusEvidence, payload: seq<Byte>) returns (flags: seq<Flag>)
    requires |payload| >= 8 && e.functionCode == payload[7]
    modifies e
    ensures e.View() == Described(old(e.View()), payload).0
    ensures flags == Described(old(e.View()), payload).1
  {
    hide FunctionName, U16At;
    flags := [];
    var rawFC := payload[7];
    if rawFC >= 0x80 {
      e.isException := true;
      e.direction := "response";
      var (name, _) := FunctionName(rawFC % 128);
      e.functionName := name + "_exception";
      if |payload| >= 9 {
        e.exceptionCode := Some(payload[8]);
      } else {
        flags := flags + [MODBUS_TRUNCATED_PAYLOAD];
      }
      return;
    }
    var (name, supported) := FunctionName(rawFC);
    e.functionName := name;
    SupportedCodes(rawFC);
    if !supported {
      flags := flags + [MODBUS_UNSUPPORTED_FUNCTION];
      return;
    }
    PduFields(payload);
    var more := ParsePdu(e, payload[8..]);
    flags := flags + more;
  }

  lemma PduFields(d: seq<Byte>)
    requires |d| >= 8
    ensures |d| >= 12 ==> U16At(d[8..], 0) == U16At(d, 8) && U16At(d[8..], 2) == U16At(d, 10)
  {
  }

  /** Bounded parsing of the supported functions. */
  method ParsePdu(e: ModbusEvidence, pduPayload: seq<Byte>) returns (flags: seq<Flag>)
    requires WritesOne(e.functionCode) || TakesRange(e.functionCode)
    modifies e
    ensures var needs := WritesOne(e.functionCode) || old(e.direction) == "request";
            && e.View() == old(e.View()).(
                 startingAddress := if needs && |pduPayload| >= 4 then Some(U16At(pduPayload, 0))
                     else old(e.startingAddress),
                 quantity := if needs && !WritesOne(e.functionCode) && |pduPayload| >= 4 then Some(U16At(pduPayload, 2))
                             else old(e.quantity))
            && flags == if needs && |pduPayload| < 4 then [MODBUS_TRUNCATED_PAYLOAD] else []
  {
    flags := [];
    if e.functionCode == 5 || e.functionCode == 6 {
      if |pduPayload| >= 4 {
        e.startingAddress := Some(U16At(pduPayload, 0));
      } else {
        flags := flags + [MODBUS_TRUNCATED_PAYLOAD];
      }
    } else {
      if e.direction == "request" {
        if |pduPayload| >= 4 {
          e.startingAddress := Some(U16At(pduPayload, 0));
          e.quantity := Some(U16At(pduPayload, 2));
        } else {
          flags := flags + [MODBUS_TRUNCATED_PAYLOAD];
        }
      }
    }
  }

  lemma SupportedCodes(fc: Byte)
    ensures FunctionName(fc).1 <==> WritesOne(fc) || TakesRange(fc)
  {
  }

  method IdentifyProtocol(obs: NormalizedObservation?, payload: Option<seq<Byte>>)
    returns (hint: string, confidence: Confidence)
    modifies obs
    ensures obs == null ==> hint == "unknown" && confidence == Unknown
    ensures obs != null ==> (obs.View(), hint, confidence) == old(Identify(obs.View(), payload))
  {
    hide DecodeModbusTCP, WithEvidence;
    hint, confidence := "unknown", Unknown;
    if obs == null {
      return;
    }
    if obs.transportProtocol == "TCP" {
      if obs.srcPort == 502 || obs.dstPort == 502 {
        var evidence, conf, flags := DecodeModbus(obs, Bytes(payload));
        ghost var e := if evidence == null then None else Some(evidence.View());
        var i := 0;
        while i < |flags|
          invariant 0 <= i <= |flags|
          invariant evidence != null ==> evidence.View() == e.value
          invariant obs.View() == old(obs.View()).(flags := old(obs.qualityFlags) + flags[..i])
        {
          obs.qualityFlags := obs.qualityFlags + [flags[i]];
          i := i + 1;
        }
        assert flags[..|flags|] == flags;
        if evidence != null {
          RecordEvidence(obs, evidence);
        }
        return "modbus", conf;
      } else if obs.srcPort == 20000 || obs.dstPort == 20000 {
        return "dnp3", Inferred;
      } else if obs.srcPort == 44818 || obs.dstPort == 44818 {
        return "ethernet_ip", Inferred;
      } else if obs.srcPort == 102 || obs.dstPort == 102 {
        return "s7", Inferred;
      }
    } else if obs.transportProtocol == "UDP" {
      if obs.srcPort == 20000 || obs.dstPort == 20000 {
        return "dnp3", Inferred;
      } else if obs.srcPort == 2222 || obs.dstPort == 2222 {
        return "ethernet_ip", Inferred;
      }
    }
  }

  method RecordEvidence(obs: NormalizedObservation, evidence: ModbusEvidence)
    modifies obs
    ensures obs.View() == old(obs.View()).(metadata := old(WithEvidence(obs.metadata, evidence.View())))
  {
    var m := obs.metadata;
    m := m["protocol_evidence" := Decoded(evidence.View())];
    m := m["modbus_transaction_id" := Number(evidence.transactionID)];
    m := m["modbus_protocol_id" := Number(evidence.protocolID)];
    m := m["modbus_length" := Number(evidence.length)];
    m := m["modbus_unit_id" := Number(evidence.unitID)];
    m := m["modbus_function_code" := Number(evidence.functionCode)];
    m := m["modbus_function_name" := Text(evidence.functionName)];
    m := m["modbus_direction" := Text(evidence.direction)];
    m := m["modbus_is_exception" := Flagged(evidence.isException)];
    if evidence.startingAddress.Some? {
      m := m["modbus_starting_address" := Number(evidence.startingAddress.value)];
    }
    if evidence.quantity.Some? {
      m := m["modbus_quantity" := Number(evidence.quantity.value)];
    }
    if evidence.exceptionCode.Some? {
      m := m["modbus_exception_code" := Number(evidence.exceptionCode.value)];
    }
    obs.metadata := m;
  }

  /** The first half of the collector's processing of one capture. */
  method ProcessRaw(raw: Raw) returns (obs: NormalizedObservation)
    ensures fresh(obs) && obs.View() == Process(raw)
  {
    hide Normalize, Identify;
    var payload;
    obs, payload := NormalizeRawObservation(raw);
    var hint, conf := IdentifyProtocol(obs, payload);
    obs.protocolHint := hint;
    if conf != Unknown {
      obs.confidence := conf;
    }
  }

  // ----- The fixture encoders -----

  method PutUint16(buf: array<Byte>, at: nat, v: U16)
    requires at + 2 <= buf.Length
    modifies buf
    ensures buf[..] == old(buf[..at]) + Be(v) + old(buf[at + 2..])
  {
    buf[at] := v / 256;
    buf[at + 1] := v % 256;
  }

  function Be32(v: int): seq<Byte>
    requires 0 <= v < 0x1_0000_0000
  {
    Be(v / 65536) + Be(v % 65536)
  }

  method PutUint32(buf: array<Byte>, at: nat, v: int)
    requires at + 4 <= buf.Length && 0 <= v < 0x1_0000_0000
    modifies buf
    ensures buf[..] == old(buf[..at]) + Be32(v) + old(buf[at + 4..])
  {
    PutUint16(buf, at, v / 65536);
    PutUint16(buf, at + 2, v % 65536);
  }

  method Copy(buf: array<Byte>, at: nat, src: seq<Byte>)
    requires at + |src| <= buf.Length
    modifies buf
    ensures buf[..] == old(buf[..at]) + src + old(buf[at + |src|..])
  {
    var i := 0;
    while i < |src|
      invariant 0 <= i <= |src|
      invariant buf[..] == old(buf[..at]) + src[..i] + old(buf[at + i..])
    {
      buf[at + i] := src[i];
      i := i + 1;
    }
    assert src[..|src|] == src;
  }

  lemma BeLength(v: U16)
    ensures |Be(v)| == 2
  {
  }

  method PutAddresses(buf: array<Byte>, dstMAC: seq<Byte>, srcMAC: seq<Byte>)
    requires |srcMAC| == 6 && |dstMAC| == 6 && buf.Length >= 12
    modifies buf
    ensures buf[..] == dstMAC + srcMAC + old(buf[12..])
  {
    Copy(buf, 0, dstMAC);
    Copy(buf, 6, srcMAC);
  }

  method BuildEthernetHeader(srcMAC: seq<Byte>, dstMAC: seq<Byte>, etherType: U16) returns (buf: array<Byte>)
    requires |srcMAC| == 6 && |dstMAC| == 6
    ensures fresh(buf) && buf[..] == EncodeLink(Ethernet(dstMAC, srcMAC), etherType)
  {
    hide Be;
    buf := new Byte[14](_ => 0);
    BeLength(etherType);
    PutAddresses(buf, dstMAC, srcMAC);
    PutUint16(buf, 12, etherType);
  }

  /** The tag's priority bits are 0 and the identifier is masked to twelve bits. */
  method BuildVLANHeader(srcMAC: seq<Byte>, dstMAC: seq<Byte>, vlanID: U16, innerEtherType: U16)
    returns (buf: array<Byte>)
    requires |srcMAC| == 6 && |dstMAC| == 6
    ensures fresh(buf) && buf[..] == EncodeLink(Tagged(dstMAC, srcMAC, 0, vlanID % 4096), innerEtherType)
  {
    hide Be;
    buf := new Byte[18](_ => 0);
    BeLength(0x8100); BeLength(vlanID % 4096); BeLength(innerEtherType);
    PutAddresses(buf, dstMAC, srcMAC);
    PutUint16(buf, 12, 0x8100);
    assert buf[..14] == dstMAC + srcMAC + Be(0x8100);
    PutUint16(buf, 14, vlanID % 4096);
    assert buf[..16] == dstMAC + srcMAC + Be(0x8100) + Be(vlanID % 4096);
    PutUint16(buf, 16, innerEtherType);
  }


  /** The total length is truncated to sixteen bits. */
  function FixtureFixed(payloadLen: nat): seq<Byte> {
    [0] + Be((20 + payloadLen) % 65536) + Be(0x1234) + Be(0) + [64]
  }

  function FixturePacket(src: seq<Byte>, dst: seq<Byte>, s: Segment): Packet
    requires WellFormedSegment(s)
  {
    IPv4(FixtureFixed(|EncodeSegment(s)|), [0, 0], src, dst, [], s)
  }

  method BuildIPv4Header(srcIP: seq<Byte>, dstIP: seq<Byte>, protocol: Byte, payloadLen: nat) returns (buf: array<Byte>)
    requires |srcIP| == 4 && |dstIP| == 4
    ensures fresh(buf) && buf[..] == [0x45] + FixtureFixed(payloadLen) + [protocol] + [0, 0] + srcIP + dstIP
  {
    hide FixtureFixed;
    buf := new Byte[20](_ => 0);
    PutFixed(buf, protocol, payloadLen);
    Copy(buf, 12, srcIP);
    Copy(buf, 16, dstIP);
  }

  /** Everything before the addresses. */
  method PutFixed(buf: array<Byte>, protocol: Byte, payloadLen: nat)
    requires buf.Length == 20
    modifies buf
    ensures |FixtureFixed(payloadLen)| == 8
    ensures buf[..12] == [0x45] + FixtureFixed(payloadLen) + [protocol] + [0, 0]
  {
    buf[0] := 0x45;
    buf[1] := 0;
    var totalLen := 20 + payloadLen;
    PutUint16(buf, 2, totalLen % 65536);
    PutUint16(buf, 4, 0x1234);
    PutUint16(buf, 6, 0);
    buf[8] := 64;
    buf[9] := protocol;
    assert buf[..10] == [0x45] + FixtureFixed(payloadLen) + [protocol];
    PutUint16(buf, 10, 0);
  }

  function FixtureTcp(srcPort: U16, dstPort: U16, payload: seq<Byte>): Segment {
    Tcp(srcPort, dstPort, Be32(1000) + Be32(0), 0, [2, 255, 255, 0, 0, 0, 0], [], payload)
  }

  method BuildTCPHeader(srcPort: U16, dstPort: U16, payload: seq<Byte>) returns (buf: array<Byte>)
    ensures fresh(buf) && buf[..] == EncodeSegment(FixtureTcp(srcPort, dstPort, payload))
  {
    hide Be32;
    buf := new Byte[20 + |payload|](_ => 0);
    PutUint16(buf, 0, srcPort);
    PutUint16(buf, 2, dstPort);
    assert buf[..4] == Be(srcPort) + Be(dstPort);
    PutUint32(buf, 4, 1000);
    PutUint32(buf, 8, 0);
    assert buf[..12] == Be(srcPort) + Be(dstPort) + (Be32(1000) + Be32(0));
    PutControl(buf);
    assert buf[..20] == Be(srcPort) + Be(dstPort) + (Be32(1000) + Be32(0)) + [0x50] + [2, 255, 255, 0, 0, 0, 0];
    Copy(buf, 20, payload);
    assert buf[..] == EncodeSegment(FixtureTcp(srcPort, dstPort, payload));
  }

  /** Data offset, flags, window, checksum and urgent field. */
  method PutControl(buf: array<Byte>)
    requires buf.Length >= 20
    modifies buf
    ensures buf[..] == old(buf[..12]) + ([0x50] + [2, 255, 255, 0, 0, 0, 0]) + old(buf[20..])
  {
    buf[12] := 0x50;
    buf[13] := 0x02;
    PutUint16(buf, 14, 65535);
    PutUint16(buf, 16, 0);
    PutUint16(buf, 18, 0);
  }

  /** The length field is truncated to sixteen bits. */
  function FixtureUdp(srcPort: U16, dstPort: U16, payload: seq<Byte>): Segment {
    Udp(srcPort, dstPort, Be((8 + |payload|) % 65536) + Be(0), payload)
  }

  method BuildUDPHeader(srcPort: U16, dstPort: U16, payload: seq<Byte>) returns (buf: array<Byte>)
    ensures fresh(buf) && buf[..] == EncodeSegment(FixtureUdp(srcPort, dstPort, payload))
  {
    buf := new Byte[8 + |payload|](_ => 0);
    PutUint16(buf, 0, srcPort);
    PutUint16(buf, 2, dstPort);
    PutUint16(buf, 4, (8 + |payload|) % 65536);
    PutUint16(buf, 6, 0);
    assert buf[..8] == Be(srcPort) + Be(dstPort) + (Be((8 + |payload|) % 65536) + Be(0));
    Copy(buf, 8, payload);
  }

  method BuildARP(sha: seq<Byte>, tha: seq<Byte>, spa: seq<Byte>, tpa: seq<Byte>, oper: U16) returns (res: seq<Byte>)
    requires |sha| == 6 && |tha| == 6 && |spa| == 4 && |tpa| == 4
    ensures res == Encode(Frame(Ethernet(tha, sha), Arp(oper, sha, spa, tha, tpa, [])))
  {
    var eth := BuildEthernetHeader(sha, tha, 0x0806);
    var arp := new Byte[28](_ => 0);
    PutUint16(arp, 0, 1);
    PutUint16(arp, 2, 0x0800);
    arp[4], arp[5] := 6, 4;
    PutUint16(arp, 6, oper);
    assert arp[..8] == Be(1) + Be(0x0800) + [6, 4] + Be(oper);
    Copy(arp, 8, sha);
    Copy(arp, 14, spa);
    assert arp[..18] == Be(1) + Be(0x0800) + [6, 4] + Be(oper) + sha + spa;
    Copy(arp, 18, tha);
    Copy(arp, 24, tpa);
    assert arp[..] == Be(1) + Be(0x0800) + [6, 4] + Be(oper) + sha + spa + tha + tpa + [];
    res := eth[..] + arp[..];
  }

  method BuildEthernetIPv4TCP(srcMAC: seq<Byte>, dstMAC: seq<Byte>, srcIP: seq<Byte>, dstIP: seq<Byte>, srcPort: U16,
                              dstPort: U16, payload: seq<Byte>)
    returns (res: seq<Byte>)
    requires |srcMAC| == 6 && |dstMAC| == 6 && |srcIP| == 4 && |dstIP| == 4
    ensures res == Encode(Frame(Ethernet(dstMAC, srcMAC),
                                FixturePacket(srcIP, dstIP, FixtureTcp(srcPort, dstPort, payload))))
  {
    hide EncodeSegment, EncodeLink;
    var tcp := BuildTCPHeader(srcPort, dstPort, payload);
    var ip := BuildIPv4Header(srcIP, dstIP, 6, tcp.Length);
    var eth := BuildEthernetHeader(srcMAC, dstMAC, 0x0800);
    PacketBytes(srcIP, dstIP, FixtureTcp(srcPort, dstPort, payload));
    res := eth[..] + ip[..];
    res := res + tcp[..];
  }

  method BuildEthernetIPv4UDP(srcMAC: seq<Byte>, dstMAC: seq<Byte>, srcIP: seq<Byte>, dstIP: seq<Byte>, srcPort: U16,
                              dstPort: U16, payload: seq<Byte>)
    returns (res: seq<Byte>)
    requires |srcMAC| == 6 && |dstMAC| == 6 && |srcIP| == 4 && |dstIP| == 4
    ensures res == Encode(Frame(Ethernet(dstMAC, srcMAC),
                                FixturePacket(srcIP, dstIP, FixtureUdp(srcPort, dstPort, payload))))
  {
    hide EncodeSegment, EncodeLink;
    var udp := BuildUDPHeader(srcPort, dstPort, payload);
    var ip := BuildIPv4Header(srcIP, dstIP, 17, udp.Length);
    var eth := BuildEthernetHeader(srcMAC, dstMAC, 0x0800);
    PacketBytes(srcIP, dstIP, FixtureUdp(srcPort, dstPort, payload));
    res := eth[..] + ip[..];
    res := res + udp[..];
  }

  method BuildEthernetVLANIPv4TCP(srcMAC: seq<Byte>, dstMAC: seq<Byte>, vlanID: U16, srcIP: seq<Byte>, dstIP: seq<Byte>,
                                  srcPort: U16, dstPort: U16, payload: seq<Byte>)
    returns (res: seq<Byte>)
    requires |srcMAC| == 6 && |dstMAC| == 6 && |srcIP| == 4 && |dstIP| == 4
    ensures res == Encode(Frame(Tagged(dstMAC, srcMAC, 0, vlanID % 4096),
                                FixturePacket(srcIP, dstIP, FixtureTcp(srcPort, dstPort, payload))))
  {
    hide EncodeSegment, EncodeLink;
    var tcp := BuildTCPHeader(srcPort, dstPort, payload);
    var ip := BuildIPv4Header(srcIP, dstIP, 6, tcp.Length);
    var vlan := BuildVLANHeader(srcMAC, dstMAC, vlanID, 0x0800);
    PacketBytes(srcIP, dstIP, FixtureTcp(srcPort, dstPort, payload));
    res := vlan[..] + ip[..];
    res := res + tcp[..];
  }

  lemma PacketBytes(src: seq<Byte>, dst: seq<Byte>, s: Segment)
    requires |src| == 4 && |dst| == 4 && WellFormedSegment(s)
    ensures EncodePacket(FixturePacket(src, dst, s))
            == [0x45] + FixtureFixed(|EncodeSegment(s)|) + [ProtocolNumber(s)] + [0, 0] + src + dst + EncodeSegment(s)
  {
    hide EncodeSegment, FixtureFixed;
    assert src + dst + [] == src + dst;
  }

  /** What the tagged fixture shows once decoded: its tag modulo 4096, its addresses, ports and payload. */
  lemma VlanFixtureRoundTrip(raw: Raw, srcMAC: seq<Byte>, dstMAC: seq<Byte>, vlanID: U16, srcIP: seq<Byte>,
                             dstIP: seq<Byte>, srcPort: U16, dstPort: U16, payload: seq<Byte>)
    requires |srcMAC| == 6 && |dstMAC| == 6 && |srcIP| == 4 && |dstIP| == 4 && raw.linkType != "raw_ip"
    requires raw.data == Encode(Frame(Tagged(dstMAC, srcMAC, 0, vlanID % 4096),
                                      FixturePacket(srcIP, dstIP, FixtureTcp(srcPort, dstPort, payload))))
    ensures var (o, app) := Normalize(raw);
            && app == Some(payload) && o.payloadLength == |payload| && o.confidence == Known && o.flags == []
            && o.vlan == Some(vlanID % 4096) && (vlanID < 4096 ==> o.vlan == Some(vlanID))
            && o.srcMAC == srcMAC && o.dstMAC == dstMAC && o.srcIP == srcIP && o.dstIP == dstIP
            && o.srcPort == srcPort && o.dstPort == dstPort && o.transport == "TCP"
  {
    hide Normalize, Encode;
    FrameRoundTrip(raw, Frame(Tagged(dstMAC, srcMAC, 0, vlanID % 4096),
                              FixturePacket(srcIP, dstIP, FixtureTcp(srcPort, dstPort, payload))));
  }

  method BuildModbusTCPPayload(txID: U16, protoID: U16, unitID: Byte, fc: Byte, funcData: seq<Byte>)
    returns (buf: array<Byte>)
    ensures fresh(buf) && buf[..] == BuiltPayload(txID, protoID, unitID, fc, funcData)
  {
    var length := (1 + 1 + |funcData|) % 65536;
    buf := new Byte[7 + 1 + |funcData|](_ => 0);
    PutUint16(buf, 0, txID);
    PutUint16(buf, 2, protoID);
    PutUint16(buf, 4, length);
    buf[6] := unitID;
    buf[7] := fc;
    assert buf[..8] == Be(txID) + Be(protoID) + Be(length) + [unitID, fc];
    Copy(buf, 8, funcData);
  }
}

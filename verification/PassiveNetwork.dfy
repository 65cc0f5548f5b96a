/** From captured bytes to the reported protocol: identification
    (agent/internal/collectors/passivenetwork/protocols.go) and the collector's use of it
    (agent/internal/collectors/passivenetwork/collector.go). */
module PassiveNetwork {
  import opened Wrappers
  import opened Packets
  import opened Normalizer
  import opened NormalizerProperties
  import opened Modbus

  predicate OnPort(o: Observation, port: U16) {
    o.srcPort == port || o.dstPort == port
  }

  function WithEvidence(m: map<string, Meta>, e: Evidence): map<string, Meta> {
    var m := m["protocol_evidence" := Decoded(e)]["modbus_transaction_id" := Number(e.transactionID)]
              ["modbus_protocol_id" := Number(e.protocolID)]["modbus_length" := Number(e.length)]
              ["modbus_unit_id" := Number(e.unitID)]["modbus_function_code" := Number(e.functionCode)]
              ["modbus_function_name" := Text(e.functionName)]["modbus_direction" := Text(e.direction)]
              ["modbus_is_exception" := Flagged(e.isException)];
    var m := if e.startingAddress.Some? then m["modbus_starting_address" := Number(e.startingAddress.value)] else m;
    var m := if e.quantity.Some? then m["modbus_quantity" := Number(e.quantity.value)] else m;
    if e.exceptionCode.Some? then m["modbus_exception_code" := Number(e.exceptionCode.value)] else m
  }

  /** A missing payload has length zero. */
  function Bytes(payload: Option<seq<Byte>>): seq<Byte> {
    if payload.Some? then payload.value else []
  }

  function Identify(o: Observation, payload: Option<seq<Byte>>): (Observation, string, Confidence) {
    if o.transport == "TCP" then
      if OnPort(o, 502) then
        var (evidence, confidence, flags) := DecodeModbusTCP(Some(o), Bytes(payload));
        var o' := o.(flags := o.flags + flags);
        (if evidence.Some? then o'.(metadata := WithEvidence(o.metadata, evidence.value)) else o', "modbus", confidence)
      else if OnPort(o, 20000) then (o, "dnp3", Inferred)
      else if OnPort(o, 44818) then (o, "ethernet_ip", Inferred)
      else if OnPort(o, 102) then (o, "s7", Inferred)
      else (o, "unknown", Unknown)
    else if o.transport == "UDP" then
      if OnPort(o, 20000) then (o, "dnp3", Inferred)
      else if OnPort(o, 2222) then (o, "ethernet_ip", Inferred)
      else (o, "unknown", Unknown)
    else (o, "unknown", Unknown)
  }

  /** The observation the collector turns into an event. */
  function Process(raw: Raw): Observation {
    var (o, payload) := Normalize(raw);
    var (o', hint, confidence) := Identify(o, payload);
    var o'' := o'.(hint := hint);
    if confidence != Unknown then o''.(confidence := confidence) else o''
  }

  // ----- Properties -----

  /** Identification only adds: what the frame showed stays, and so do the reasons it was refused. */
  lemma ProcessKeepsEvidence(raw: Raw)
    ensures var o, o' := Normalize(raw).0, Process(raw);
            && o'.srcMAC == o.srcMAC && o'.dstMAC == o.dstMAC && o'.srcIP == o.srcIP && o'.dstIP == o.dstIP
            && o'.srcPort == o.srcPort && o'.dstPort == o.dstPort && o'.transport == o.transport && o'.vlan == o.vlan
            && o'.payloadLength == o.payloadLength && o.flags <= o'.flags
            && (forall k | k in o.metadata :: k in o'.metadata && o'.metadata[k] == o.metadata[k])
  {
    hide Normalize, DecodeModbusTCP, WithEvidence, OnPort, Bytes;
    TransportShapes(raw);
  }

  /** The ports that make the identifier infer a protocol without evidence. */
  predicate Hinted(o: Observation) {
    || (o.transport == "TCP" && (OnPort(o, 502) || OnPort(o, 20000) || OnPort(o, 44818) || OnPort(o, 102)))
    || (o.transport == "UDP" && (OnPort(o, 20000) || OnPort(o, 2222)))
  }

  /** The capture is a TCP frame on port 502 whose payload is the data unit a. */
  predicate CarriesAdu(raw: Raw, f: Frame, a: Adu) {
    && Captures(raw, f) && f.packet.IPv4? && f.packet.segment.Tcp?
    && (f.packet.segment.srcPort == 502 || f.packet.segment.dstPort == 502)
    && IsAdu(a, f.packet.segment.payload)
  }

  lemma Shown(raw: Raw, f: Frame)
    requires Captures(raw, f) && f.packet.IPv4? && f.packet.segment.Tcp?
    ensures var (o, payload) := Normalize(raw);
            && payload == Some(f.packet.segment.payload) && o.transport == "TCP"
            && o.srcPort == f.packet.segment.srcPort && o.dstPort == f.packet.segment.dstPort
            && o.srcIP == f.packet.src && o.dstIP == f.packet.dst && o.confidence == Known && o.metadata == map[]
               && o.flags == []
  {
    hide Normalize;
    FrameRoundTrip(raw, f);
  }

  lemma EvidenceStored(m: map<string, Meta>, e: Evidence)
    ensures "protocol_evidence" in WithEvidence(m, e) && WithEvidence(m, e)["protocol_evidence"] == Decoded(e)
  {
  }

  /** End to end: a data unit in a captured frame is reported as known Modbus between the right addresses,
      with its own header as evidence. */
  lemma ModbusEndToEnd(raw: Raw, f: Frame, a: Adu)
    requires CarriesAdu(raw, f, a)
    ensures var o := Process(raw);
            && o.hint == "modbus" && o.confidence == Known
            && o.srcIP == f.packet.src && o.dstIP == f.packet.dst
            && "protocol_evidence" in o.metadata && o.metadata["protocol_evidence"].Decoded?
            && var e := o.metadata["protocol_evidence"].evidence;
            && e.transactionID == a.transaction && e.unitID == a.unit && e.functionCode == a.fc && e.length == a.length
  {
    hide Normalize, DecodeModbusTCP, WithEvidence, EncodeAdu, Encode;
    Shown(raw, f);
    var (o, payload) := Normalize(raw);
    AduRoundTrip(Some(o), a);
    var e := DecodeModbusTCP(Some(o), payload.value).0.value;
    EvidenceStored(o.metadata, e);
  }

  /** Conversely nothing but such a capture is ever reported as known Modbus: neither the port nor a damaged
      frame is enough. */
  lemma KnownModbusExactlyAdus(raw: Raw)
    ensures Process(raw).hint == "modbus" && Process(raw).confidence == Known <==> exists f, a :: CarriesAdu(raw, f, a)
  {
    hide Normalize, DecodeModbusTCP, WithEvidence, EncodeAdu, Encode;
    if Process(raw).hint == "modbus" && Process(raw).confidence == Known {
      var (o, payload) := Normalize(raw);
      EvidenceExactlyAdus(Some(o), Bytes(payload));
      var a :| IsAdu(a, Bytes(payload));
      NormalizeIsClean(raw);
      NoEmptyAdu(a);
      var f := KnownIsAFrame(raw);
      OnlyTcpSaysTcp(raw, f);
      Shown(raw, f);
      assert CarriesAdu(raw, f, a);
    }
    forall f, a | CarriesAdu(raw, f, a) ensures Process(raw).hint == "modbus" && Process(raw).confidence == Known {
      ModbusEndToEnd(raw, f, a);
    }
  }

  lemma NoEmptyAdu(a: Adu)
    ensures EncodeAdu(a) != []
  {
  }

  lemma OnlyTcpSaysTcp(raw: Raw, f: Frame)
    requires Captures(raw, f)
    ensures Normalize(raw).0.transport == "TCP" <==> f.packet.IPv4? && f.packet.segment.Tcp?
  {
    hide Normalize;
    FrameRoundTrip(raw, f);
  }

  /** The final confidence, exactly: Known needs evidence of the application or a known frame without a hint. */
  lemma FinalConfidence(raw: Raw)
    ensures var (o, payload) := Normalize(raw);
            var evidence := o.transport == "TCP" && OnPort(o, 502) && DecodeModbusTCP(Some(o), Bytes(payload)).0.Some?;
            Process(raw).confidence == if evidence then Known else if Hinted(o) then Inferred else o.confidence
  {
    hide Normalize, DecodeModbusTCP, WithEvidence;
    var (o, payload) := Normalize(raw);
    EvidenceExactlyAdus(Some(o), Bytes(payload));
  }

  /** A refused frame stays Unsupported unless its TCP ports were read before the refusal and hint at a
      protocol: then the collector reports it as Inferred. */
  lemma RefusedFrames(raw: Raw)
    requires Normalize(raw).0.confidence == Unsupported
    ensures var o := Normalize(raw).0;
            && Process(raw).confidence == (if Hinted(o) then Inferred else Unsupported)
            && (Hinted(o) ==> o.transport == "TCP" && o.flags == [MALFORMED_FRAME])
            && Process(raw).flags != []
  {
    hide Normalize, DecodeModbusTCP, WithEvidence;
    FinalConfidence(raw);
    NormalizeIsClean(raw);
    TransportShapes(raw);
    ProcessKeepsEvidence(raw);
    EvidenceExactlyAdus(Some(Normalize(raw).0), []);
  }

  lemma OtherNames(o: Observation, protocol: Byte, etherType: U16)
    ensures "IP_" + Numerals.Decimal(protocol) != "TCP" && "IP_" + Numerals.Decimal(protocol) != "UDP"
    ensures "ETH_0x" + Hex4(etherType) != "TCP" && "ETH_0x" + Hex4(etherType) != "UDP"
  {
    assert ("IP_" + Numerals.Decimal(protocol))[0] == 'I' && ("ETH_0x" + Hex4(etherType))[0] == 'E';
  }

  /** What the transport name says of an observation the normalizer made. */
  ghost predicate TransportShape(o: Observation) {
    && (o.confidence == Unsupported ==> o.transport != "UDP" && (o.transport == "TCP" ==> o.flags == [MALFORMED_FRAME]))
    && (o.transport == "TCP" ==> o.metadata == map[])
  }

  lemma SegmentShape(o: Observation, protocol: Byte, d: seq<Byte>)
    requires Fresh(o) && o.transport == "" && o.metadata == map[]
    ensures TransportShape(DecodeSegment(o, protocol, d).0)
  {
    OtherNames(o, protocol, 0);
  }

  lemma PacketShape(o: Observation, etherType: U16, d: seq<Byte>)
    requires Fresh(o) && o.transport == "" && o.metadata == map[]
    ensures TransportShape(DecodePacket(o, etherType, d).0)
  {
    hide DecodeSegment;
    OtherNames(o, 0, etherType);
    if etherType == 0x0800 && |d| >= 20 && d[0] / 16 == 4 && 20 <= d[0] % 16 * 4 <= |d| {
      SegmentShape(o.(srcIP := d[12..16], dstIP := d[16..20]), d[9], d[d[0] % 16 * 4..]);
    }
  }

  lemma TransportShapes(raw: Raw)
    ensures TransportShape(Normalize(raw).0)
  {
    hide DecodePacket;
    var o, d := Blank(raw), raw.data;
    if raw.linkType == "raw_ip" {
      PacketShape(o, 0x0800, d);
    } else if |d| >= 14 {
      var o' := o.(dstMAC := d[0..6], srcMAC := d[6..12]);
      if U16At(d, 12) != 0x8100 {
        PacketShape(o', U16At(d, 12), d[14..]);
      } else if |d| >= 18 {
        PacketShape(o'.(vlan := Some(U16At(d, 14) % 4096)), U16At(d, 16), d[18..]);
      }
    }
  }

  /** The protocol reported is read off the transport and the ports, the first of the list that fits; Modbus alone is
      also decoded, and only its flags are added to those of the frame. */
  lemma HintExactly(raw: Raw)
    ensures var (o, payload) := Normalize(raw);
            var tcp, udp, hint := o.transport == "TCP", o.transport == "UDP", Process(raw).hint;
            && (tcp && (o.srcPort == 502 || o.dstPort == 502) ==>
                  hint == "modbus" && Process(raw).flags == o.flags + DecodeModbusTCP(Some(o), Bytes(payload)).2)
            && (!(tcp && (o.srcPort == 502 || o.dstPort == 502)) ==>
                  && Process(raw).flags == o.flags && Process(raw).metadata == o.metadata
                  && hint == if (tcp || udp) && (o.srcPort == 20000 || o.dstPort == 20000) then "dnp3"
                             else if tcp && (o.srcPort == 44818 || o.dstPort == 44818) then "ethernet_ip"
                             else if tcp && (o.srcPort == 102 || o.dstPort == 102) then "s7"
                             else if udp && (o.srcPort == 2222 || o.dstPort == 2222) then "ethernet_ip"
                             else "unknown")
  {
    hide Normalize, DecodeModbusTCP, WithEvidence;
  }

  /** Every field of the evidence lies in the metadata under its own key. */
  lemma EvidenceInMetadata(m: map<string, Meta>, e: Evidence)
    ensures var m' := WithEvidence(m, e);
            && Has(m', "modbus_transaction_id", Number(e.transactionID))
            && Has(m', "modbus_protocol_id", Number(e.protocolID))
            && Has(m', "modbus_length", Number(e.length))
            && Has(m', "modbus_unit_id", Number(e.unitID))
            && Has(m', "modbus_function_code", Number(e.functionCode))
            && Has(m', "modbus_function_name", Normalizer.Text(e.functionName))
            && Has(m', "modbus_direction", Normalizer.Text(e.direction))
            && Has(m', "modbus_is_exception", Flagged(e.isException))
  {
  }

  /** The optional fields are there exactly if the evidence has them. */
  lemma OptionalEvidenceExactly(m: map<string, Meta>, e: Evidence)
    requires "modbus_starting_address" !in m && "modbus_quantity" !in m && "modbus_exception_code" !in m
    ensures var m' := WithEvidence(m, e);
            && (forall x :: Has(m', "modbus_starting_address", Number(x)) <==> e.startingAddress == Some(x))
            && (forall x :: Has(m', "modbus_quantity", Number(x)) <==> e.quantity == Some(x))
            && (forall x :: Has(m', "modbus_exception_code", Number(x)) <==> e.exceptionCode == Some(x))
  {
  }

  predicate Has(m: map<string, Meta>, key: string, value: Meta) {
    key in m && m[key] == value
  }

  // ----- Damaged TCP on a hinting port -----

  /** Where an IPv4 header is looked for. */
  function IpBytes(raw: Raw): Option<seq<Byte>> {
    var d := raw.data;
    if raw.linkType == "raw_ip" then (if d == [] then None else Some(d))
    else if |d| >= 14 && U16At(d, 12) == 0x0800 then Some(d[14..])
    else if |d| >= 18 && U16At(d, 12) == 0x8100 && U16At(d, 16) == 0x0800 then Some(d[18..])
    else None
  }

  /** An IPv4 header the decoder accepts, followed by a TCP header whose data offset is below 20 bytes or beyond
      the captured bytes. */
  predicate DamagedTcp(d: seq<Byte>) {
    && |d| >= 20 && d[0] / 16 == 4 && 20 <= d[0] % 16 * 4 <= |d| && d[9] == 6
    && var l4 := d[d[0] % 16 * 4..];
    && |l4| >= 20 && !(20 <= l4[12] / 16 * 4 <= |l4|)
  }

  predicate HintingPort(port: U16) {
    port == 502 || port == 20000 || port == 44818 || port == 102
  }

  predicate HintedDamagedTcp(raw: Raw) {
    var d := IpBytes(raw);
    && d.Some? && DamagedTcp(d.value)
    && var l4 := d.value[d.value[0] % 16 * 4..];
    && (HintingPort(U16At(l4, 0)) || HintingPort(U16At(l4, 2)))
  }

  /** The frames the normalizer refuses as Unsupported and the collector still reports as Inferred are exactly
      these. */
  lemma RefusedYetInferredExactly(raw: Raw)
    ensures Normalize(raw).0.confidence == Unsupported && Process(raw).confidence == Inferred <==> HintedDamagedTcp(raw)
  {
    hide Normalize, DecodeModbusTCP, IpBytes, DamagedTcp;
    FinalConfidence(raw);
    NormalizeIsClean(raw);
    TransportShapes(raw);
    EvidenceExactlyAdus(Some(Normalize(raw).0), []);
    if IpBytes(raw).Some? {
      var d := IpBytes(raw).value;
      var o := ReadsIp(raw);
      DamagedExactly(o, d);
    } else {
      NoIpNoTcp(raw);
    }
  }

  lemma ReadsIp(raw: Raw) returns (o: Observation)
    requires IpBytes(raw).Some?
    ensures Normalize(raw) == DecodeIPv4(o, IpBytes(raw).value) && Fresh(o) && o.transport == ""
  {
    hide DecodeIPv4, DecodeArp;
    var d := raw.data;
    o := Blank(raw);
    if raw.linkType != "raw_ip" {
      o := o.(dstMAC := d[0..6], srcMAC := d[6..12]);
      if U16At(d, 12) == 0x8100 {
        o := o.(vlan := Some(U16At(d, 14) % 4096));
      }
    }
  }

  lemma NoIpNoTcp(raw: Raw)
    requires IpBytes(raw).None?
    ensures Normalize(raw).0.transport != "TCP"
  {
    hide DecodeIPv4, Hex4;
    if |raw.data| >= 14 { OtherNames(Blank(raw), 0, U16At(raw.data, 12)); }
    if |raw.data| >= 18 { OtherNames(Blank(raw), 0, U16At(raw.data, 16)); }
  }

  lemma DamagedExactly(o: Observation, d: seq<Byte>)
    requires Fresh(o) && o.transport == ""
    ensures var r := DecodeIPv4(o, d).0;
            && (r.confidence == Unsupported && r.transport == "TCP" <==> DamagedTcp(d))
            && (DamagedTcp(d) ==>
                  var l4 := d[d[0] % 16 * 4..];
                  r.srcPort == U16At(l4, 0) && r.dstPort == U16At(l4, 2))
  {
    if |d| >= 20 { OtherNames(o, d[9], 0); }
  }

  /** Such a capture: an IPv4 header with protocol 6, then a TCP header to port 502 with a data offset of one
      word; all other bytes are 0. */
  function DamagedByte(i: nat): Byte {
    if i == 0 then 0x45 else if i == 9 then 6
    else if i == 22 then 1 else if i == 23 then 246
    else if i == 32 then 0x10
    else 0
  }

  function DamagedCapture(): Raw {
    Raw(seq(40, i requires 0 <= i < 40 => DamagedByte(i)), 0, "tun0", "raw_ip")
  }

  lemma DamagedCaptureIsInferred()
    ensures Normalize(DamagedCapture()).0.confidence == Unsupported && Process(DamagedCapture()).confidence == Inferred
  {
    hide Normalize, Process;
    var d := DamagedCapture().data;
    assert d[0] == 0x45 && d[9] == 6;
    var l4 := d[20..];
    assert l4[12] == 0x10 && U16At(l4, 2) == 502;
    RefusedYetInferredExactly(DamagedCapture());
  }
}

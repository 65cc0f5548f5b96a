/** The Modbus/TCP decoder (agent/internal/collectors/passivenetwork/modbus.go) and the MBAP format of section
    3.1.3 of the MODBUS Messaging on TCP/IP Implementation Guide V1.0b. */
module Modbus {
  import opened Wrappers
  import opened Numerals
  import opened Packets
  import opened Normalizer

  function FunctionName(fc: Byte): (string, bool) {
    match fc
    case 1 => ("read_coils", true)
    case 2 => ("read_discrete_inputs", true)
    case 3 => ("read_holding_registers", true)
    case 4 => ("read_input_registers", true)
    case 5 => ("write_single_coil", true)
    case 6 => ("write_single_register", true)
    case 15 => ("write_multiple_coils", true)
    case 16 => ("write_multiple_registers", true)
    case _ => ("unsupported_fc_" + Decimal(fc), false)
  }

  function Direction(o: Option<Observation>): string {
    if o.None? then "unknown"
    else if o.value.dstPort == 502 && o.value.srcPort != 502 then "request"
    else if o.value.srcPort == 502 && o.value.dstPort != 502 then "response"
    else "unknown"
  }

  type Decoding = (Option<Evidence>, Confidence, seq<Flag>)

  /** The evidence of a payload whose header was accepted. */
  function Understand(o: Option<Observation>, d: seq<Byte>): (Evidence, seq<Flag>)
    requires |d| >= 8
  {
    Described(Evidence(U16At(d, 0), U16At(d, 2), U16At(d, 4), d[6], d[7], "", false, None, Direction(o), None, None), d)
  }

  /** The function-specific part. */
  function Described(e: Evidence, d: seq<Byte>): (Evidence, seq<Flag>)
    requires |d| >= 8
  {
    var fc := d[7];
    if fc >= 0x80 then
      var e' := e.(isException := true, direction := "response",
                   functionName := FunctionName(fc % 128).0 + "_exception");
      if |d| >= 9 then (e'.(exceptionCode := Some(d[8])), []) else (e', [MODBUS_TRUNCATED_PAYLOAD])
    else
      var (name, supported) := FunctionName(fc);
      var e' := e.(functionName := name);
      if !supported then (e', [MODBUS_UNSUPPORTED_FUNCTION])
      else if fc in {5, 6} then
        if |d| >= 12 then (e'.(startingAddress := Some(U16At(d, 8))), []) else (e', [MODBUS_TRUNCATED_PAYLOAD])
      else if e'.direction != "request" then (e', [])
      else if |d| >= 12 then (e'.(startingAddress := Some(U16At(d, 8)), quantity := Some(U16At(d, 10))), [])
      else (e', [MODBUS_TRUNCATED_PAYLOAD])
  }

  function DecodeModbusTCP(o: Option<Observation>, d: seq<Byte>): Decoding {
    if |d| < 7 then (None, Inferred, [MODBUS_TRUNCATED_PAYLOAD])
    else if U16At(d, 2) != 0 then (None, Inferred, [MODBUS_INVALID_MBAP])
    else if U16At(d, 4) < 2 then (None, Inferred, [MODBUS_INVALID_MBAP])
    else if |d| < 8 then (None, Inferred, [MODBUS_TRUNCATED_PAYLOAD])
    else
      var (e, flags) := Understand(o, d);
      (Some(e), Known, flags)
  }

  // ----- The application data unit -----

  /** length is the declared one: unit identifier and PDU. */
  datatype Adu = Adu(transaction: U16, length: U16, unit: Byte, fc: Byte, data: seq<Byte>)

  function EncodeAdu(a: Adu): seq<Byte> {
    Be(a.transaction) + Be(0) + Be(a.length) + [a.unit, a.fc] + a.data
  }

  predicate IsAdu(a: Adu, d: seq<Byte>) {
    a.length >= 2 && d == EncodeAdu(a)
  }

  /** Known, evidence and a valid header are one and the same; anything else is only Inferred and says nothing
      but why. */
  lemma EvidenceExactlyAdus(o: Option<Observation>, d: seq<Byte>)
    ensures var r := DecodeModbusTCP(o, d);
            && (r.1 == Known <==> r.0.Some?)
            && (r.1 == Known <==> |d| >= 8 && U16At(d, 2) == 0 && U16At(d, 4) >= 2)
            && (r.1 == Known <==> exists a :: IsAdu(a, d))
            && (r.1 == Known || r.1 == Inferred)
            && (r.1 == Inferred ==> |r.2| == 1)
  {
    var r := DecodeModbusTCP(o, d);
    if r.1 == Known {
      var a := AduOf(d);
      assert IsAdu(a, d);
    }
    forall a | IsAdu(a, d) ensures r.1 == Known {
      AduFields(a);
    }
  }

  lemma AduOf(d: seq<Byte>) returns (a: Adu)
    requires |d| >= 8 && U16At(d, 2) == 0
    ensures EncodeAdu(a) == d && a.length == U16At(d, 4)
  {
    a := Adu(U16At(d, 0), U16At(d, 4), d[6], d[7], d[8..]);
    BeOfU16At(d, 0);
    BeOfU16At(d, 2);
    BeOfU16At(d, 4);
    assert d == d[0..2] + d[2..4] + d[4..6] + d[6..8] + d[8..];
  }

  lemma AduFields(a: Adu)
    ensures var d := EncodeAdu(a);
            && |d| == 8 + |a.data| && U16At(d, 0) == a.transaction && U16At(d, 2) == 0 && U16At(d, 4) == a.length
            && d[6] == a.unit && d[7] == a.fc && d[8..] == a.data
            && (forall i | 0 <= i < |a.data| :: d[8 + i] == a.data[i])
  {
  }

  predicate WritesOne(fc: Byte) {
    fc == 5 || fc == 6
  }

  predicate TakesRange(fc: Byte) {
    1 <= fc <= 4 || fc == 15 || fc == 16
  }

  /** What the decoder reports of a data unit: its header as sent; for an exception its code; the address for
      the functions that carry one in this direction; and a flag exactly for what is missing. */
  lemma AduRoundTrip(o: Option<Observation>, a: Adu)
    requires a.length >= 2
    ensures var r := DecodeModbusTCP(o, EncodeAdu(a));
            var exception, needs := a.fc >= 128, WritesOne(a.fc) || (TakesRange(a.fc) && Direction(o) == "request");
            && r.0.Some? && r.1 == Known
            && var e := r.0.value;
            && e.transactionID == a.transaction && e.protocolID == 0 && e.length == a.length
            && e.unitID == a.unit && e.functionCode == a.fc
            && e.isException == exception && e.direction == (if exception then "response" else Direction(o))
            && (e.exceptionCode == if exception && a.data != [] then Some(a.data[0]) else None)
            && (e.startingAddress == if needs && |a.data| >= 4 then Some(U16At(a.data, 0)) else None)
            && (e.quantity == if needs && TakesRange(a.fc) && |a.data| >= 4 then Some(U16At(a.data, 2)) else None)
            && (r.2 == if (exception && a.data == []) || (needs && |a.data| < 4) then [MODBUS_TRUNCATED_PAYLOAD]
                       else if !exception && !WritesOne(a.fc) && !TakesRange(a.fc) then [MODBUS_UNSUPPORTED_FUNCTION]
                       else [])
  {
    hide EncodeAdu, Decimal;
    AduFields(a);
  }

  /** An encoded request gives back its address and quantity. */
  lemma RequestRoundTrip(o: Observation, a: Adu, address: U16, quantity: U16, rest: seq<Byte>)
    requires a.length >= 2 && TakesRange(a.fc) && a.data == Be(address) + Be(quantity) + rest
    requires o.dstPort == 502 && o.srcPort != 502
    ensures var r := DecodeModbusTCP(Some(o), EncodeAdu(a));
            && r.0.Some? && r.0.value.startingAddress == Some(address) && r.0.value.quantity == Some(quantity)
            && r.0.value.direction == "request" && r.2 == []
  {
    hide EncodeAdu, DecodeModbusTCP;
    AduRoundTrip(Some(o), a);
    assert U16At(a.data, 0) == address && U16At(a.data, 2) == quantity;
  }

  /** The payload the test fixtures build; the declared length wraps at 16 bits. */
  function BuiltPayload(transaction: U16, protocol: U16, unit: Byte, fc: Byte, data: seq<Byte>): seq<Byte> {
    Be(transaction) + Be(protocol) + Be((2 + |data|) % 65536) + [unit, fc] + data
  }

  /** A built payload is understood exactly if its protocol identifier is 0 and its length did not wrap to 0 or 1. */
  lemma BuiltPayloadRoundTrip(o: Option<Observation>, transaction: U16, protocol: U16, unit: Byte, fc: Byte,
                              data: seq<Byte>)
    ensures var r := DecodeModbusTCP(o, BuiltPayload(transaction, protocol, unit, fc, data));
            && (r.0.Some? <==> protocol == 0 && (2 + |data|) % 65536 >= 2)
            && (r.0.Some? ==> r.0.value.transactionID == transaction && r.0.value.unitID == unit
                              && r.0.value.functionCode == fc && r.0.value.length == (2 + |data|) % 65536)
  {
    hide Understand;
    var d := BuiltPayload(transaction, protocol, unit, fc, data);
    assert U16At(d, 2) == protocol && U16At(d, 4) == (2 + |data|) % 65536;
    if protocol == 0 && (2 + |data|) % 65536 >= 2 {
      var a := Adu(transaction, (2 + |data|) % 65536, unit, fc, data);
      assert d == EncodeAdu(a);
      AduRoundTrip(o, a);
    }
  }

  /** Cutting a data unit never produces other evidence: with the function code there it is the data unit with
      less data, and without it there is none. */
  lemma TruncatedAdu(o: Option<Observation>, a: Adu, n: nat)
    requires a.length >= 2 && n <= |EncodeAdu(a)|
    ensures DecodeModbusTCP(o, EncodeAdu(a)[..n]).0.Some? <==> n >= 8
    ensures n >= 8 ==> EncodeAdu(a)[..n] == EncodeAdu(a.(data := a.data[..n - 8]))
  {
    hide Understand;
    if n >= 8 {
      assert EncodeAdu(a)[..n] == EncodeAdu(a.(data := a.data[..n - 8]));
      EvidenceExactlyAdus(o, EncodeAdu(a)[..n]);
      assert IsAdu(a.(data := a.data[..n - 8]), EncodeAdu(a)[..n]);
    }
  }

  /** The direction is read off the ports: to 502 from another port is a request, from 502 to another a response. */
  lemma DirectionExactly(o: Observation)
    ensures Direction(Some(o)) == "request" <==> o.dstPort == 502 && o.srcPort != 502
    ensures Direction(Some(o)) == "response" <==> o.srcPort == 502 && o.dstPort != 502
    ensures Direction(Some(o)) == "unknown" <==> (o.srcPort == 502 <==> o.dstPort == 502)
  {
    var a, b, c := "request", "response", "unknown";
    assert |a| == 7 && |b| == 8 && |c| == 7 && a[0] == 'r' && c[0] == 'u';
  }

  /** Why a payload is refused: a header that is there and says another protocol or too short a length is invalid;
      everything else is too short, and an invalid header is reported even if the function code is missing. */
  lemma RefusalExactly(o: Option<Observation>, d: seq<Byte>)
    ensures var r := DecodeModbusTCP(o, d);
            && (r.0.None? && r.2 == [MODBUS_INVALID_MBAP] <==> |d| >= 7 && (U16At(d, 2) != 0 || U16At(d, 4) < 2))
            && (r.0.None? && r.2 == [MODBUS_TRUNCATED_PAYLOAD] <==>
                  |d| < 7 || (|d| == 7 && U16At(d, 2) == 0 && U16At(d, 4) >= 2))
  {
    hide Understand;
  }

  // ----- Function names -----

  /** The names of section 6 of the MODBUS Application Protocol Specification V1.1b3. */
  lemma NamesOfSupported()
    ensures forall fc :: FunctionName(fc).1 <==> fc in {1, 2, 3, 4, 5, 6, 15, 16}
    ensures FunctionName(1).0 == "read_coils" && FunctionName(2).0 == "read_discrete_inputs"
    ensures FunctionName(3).0 == "read_holding_registers" && FunctionName(4).0 == "read_input_registers"
    ensures FunctionName(5).0 == "write_single_coil" && FunctionName(6).0 == "write_single_register"
    ensures FunctionName(15).0 == "write_multiple_coils" && FunctionName(16).0 == "write_multiple_registers"
  {
  }

  lemma NameShape(fc: Byte)
    ensures var (name, supported) := FunctionName(fc);
            && |name| >= 10
            && (supported <==> name[0] != 'u')
            && (supported <==> WritesOne(fc) || TakesRange(fc))
            && name[|name| - 1] != 'n'
  {
    if !WritesOne(fc) && !TakesRange(fc) {
      var s := Decimal(fc);
      assert FunctionName(fc).0[|FunctionName(fc).0| - 1] == s[|s| - 1];
    }
  }

  lemma SupportedNamesDiffer(a: Byte, b: Byte)
    requires FunctionName(a).1 && FunctionName(b).1 && FunctionName(a).0 == FunctionName(b).0
    ensures a == b
  {
    var s, t := FunctionName(a).0, FunctionName(b).0;
    assert |s| == |t| && s[0] == t[0] && s[5] == t[5] && s[7] == t[7];
  }

  lemma NamesDiffer(a: Byte, b: Byte)
    requires FunctionName(a).0 == FunctionName(b).0
    ensures a == b
  {
    hide FunctionName, Decimal;
    NameShape(a);
    NameShape(b);
    if FunctionName(a).1 {
      SupportedNamesDiffer(a, b);
    } else {
      UnsupportedName(a);
      UnsupportedName(b);
      assert FunctionName(a).0[15..] == Decimal(a) && FunctionName(b).0[15..] == Decimal(b);
      DecimalInjective(a, b);
    }
  }

  lemma UnsupportedName(fc: Byte)
    ensures !FunctionName(fc).1 ==> FunctionName(fc).0 == "unsupported_fc_" + Decimal(fc)
  {
  }

  lemma ReportedName(o: Option<Observation>, d: seq<Byte>)
    requires |d| >= 8
    ensures Understand(o, d).0.functionName == FunctionName(d[7] % 128).0 + if d[7] >= 128 then "_exception" else ""
  {
    hide FunctionName;
    assert d[7] < 128 ==> FunctionName(d[7] % 128).0 + "" == FunctionName(d[7]).0;
  }

  /** The reported function name tells the function code and the exception bit. */
  lemma FunctionNameIdentifiesCode(o: Option<Observation>, c: seq<Byte>, d: seq<Byte>)
    requires |c| >= 8 && |d| >= 8
    requires Understand(o, c).0.functionName == Understand(o, d).0.functionName
    ensures c[7] == d[7]
  {
    hide FunctionName, Understand;
    ReportedName(o, c);
    ReportedName(o, d);
    NameShape(c[7] % 128);
    NameShape(d[7] % 128);
    SuffixTells(FunctionName(c[7] % 128).0, c[7] >= 128, FunctionName(d[7] % 128).0, d[7] >= 128);
    NamesDiffer(c[7] % 128, d[7] % 128);
  }

  lemma SuffixTells(s: string, x: bool, t: string, y: bool)
    requires s != "" && t != "" && s[|s| - 1] != 'n' && t[|t| - 1] != 'n'
    requires (s + if x then "_exception" else "") == (t + if y then "_exception" else "")
    ensures s == t && x == y
  {
    var u := s + if x then "_exception" else "";
    assert u[|u| - 1] == 'n' <==> x;
    assert u[|u| - 1] == 'n' <==> y;
    var n := if x then |u| - 10 else |u|;
    assert u[..n] == s && u[..n] == t;
  }
}

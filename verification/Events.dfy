/** The canonical event, its schema check and its stored text (pkg/events/canonical.go). */
module Events {
  import opened Wrappers
  import opened Floats

  /** Seconds since the epoch. */
  type Time = int

  /** The years 0 to 9999, which JSON text of a time can name. */
  predicate JsonTime(t: Time) {
    -62167219200 <= t < 253402300800
  }

  datatype Severity = Debug | Info | Warning | Critical | Fatal | Unlisted(name: string)

  /** An event id up to the spelling of the UUID. A finding's id is the UUIDv5 of its
      four-part name, taken as collision-free; Malformed is text that is no UUID. */
  datatype EventId =
    | Uuid(bits: nat)
    | NameUuid(name: string)
    | Malformed(text: string)

  const NO_ID := Malformed("")

  /** Free-form metadata and tag lists: either JSON can carry them or it cannot. */
  datatype Metadata = Plain(json: string) | Unencodable(text: string)

  /** The text columns whose width the schema check bounds. */
  datatype Columns = Columns(assetId: string, sensorId: string, source: string, category: string,
                             protocol: string, src: string, dst: string, action: string,
                             ruleId: string, ruleVersion: string)

  datatype CanonicalEvent = CanonicalEvent(
    eventId: EventId,
    tenantId: string,
    siteId: string,
    occurredAt: Option<Time>,
    receivedAt: Time,
    seqNo: int,
    severity: Severity,
    confidence: Option<Float>,
    columns: Columns,
    metadata: Metadata,
    schemaVersion: string)

  /** Stored text: the JSON of some event, or text that is not JSON of any event. */
  datatype Payload = Json(event: CanonicalEvent) | Raw(text: string)

  /** The zero time of an unset date lies in year 1. */
  predicate Datable(e: CanonicalEvent) {
    e.occurredAt.Some? ==> JsonTime(e.occurredAt.value)
  }

  predicate Encodable(e: CanonicalEvent) {
    && Datable(e) && JsonTime(e.receivedAt)
    && (e.confidence.Some? ==> e.confidence.value.Num?)
    && e.metadata.Plain?
  }

  function Serialize(e: CanonicalEvent): Option<Payload> {
    if Encodable(e) then Some(Json(e)) else None
  }

  /** The text a caller sees when it ignores the serialization error. */
  function Text(e: CanonicalEvent): Payload {
    match Serialize(e)
    case Some(p) => p
    case None => Raw("")
  }

  function Deserialize(p: Payload): Option<CanonicalEvent> {
    match p
    case Json(e) => Some(e)
    case Raw(_) => None
  }

  const CURRENT_SCHEMA_VERSION := "1.0.0"

  predicate NameChar(c: char) {
    'a' <= c <= 'z' || 'A' <= c <= 'Z' || '0' <= c <= '9' || c == '-'
  }

  predicate ValidName(s: string) {
    0 < |s| <= 128 && forall c | c in s :: NameChar(c)
  }

  predicate ColumnsFit(c: Columns) {
    && |c.assetId| <= 128 && |c.sensorId| <= 128
    && |c.source| <= 255 && |c.category| <= 255
    && |c.protocol| <= 128 && |c.src| <= 255
    && |c.dst| <= 255 && |c.action| <= 128
    && |c.ruleId| <= 255 && |c.ruleVersion| <= 64
  }

  predicate Validate(e: CanonicalEvent) {
    && !e.eventId.Malformed?
    && e.occurredAt.Some?
    && e.columns.source != "" && e.columns.category != ""
    && ValidName(e.tenantId) && ValidName(e.siteId)
    && 0 <= e.seqNo
    && !e.severity.Unlisted?
    && ColumnsFit(e.columns)
    && (e.confidence.Some? ==>
          && !e.confidence.value.NaN?
          && !Less(e.confidence.value, Num(0.0))
          && !Less(Num(100.0), e.confidence.value))
    && e.schemaVersion == CURRENT_SCHEMA_VERSION
  }

  /** What passes the schema check can be written unless its metadata cannot or a date lies outside the years 0
      to 9999, which the check does not ask; and it reads back as itself. No accepted confidence is one that
      JSON lacks. */
  lemma ValidEventsRoundTrip(e: CanonicalEvent)
    requires Validate(e)
    ensures Serialize(e).Some? <==> e.metadata.Plain? && JsonTime(e.occurredAt.value) && JsonTime(e.receivedAt)
    ensures Serialize(e).Some? ==> Deserialize(Serialize(e).value) == Some(e)
  {
  }

  const YEAR_10000 := CanonicalEvent(Uuid(1), "t", "s", Some(253402300800), 0, 0, Info, None,
                                     Columns("", "", "src", "cat", "", "", "", "", "", ""), Plain(""),
                                     CURRENT_SCHEMA_VERSION)

  /** An event of the year 10000 passes the schema check and cannot be written. */
  lemma ValidEventsCanBeUnwritable()
    ensures Validate(YEAR_10000) && Serialize(YEAR_10000).None?
  {
    assert ValidName("t") && ValidName("s");
  }

  // ----- The schema check and the table it guards -----

  /** The schema check, requirement by requirement. */
  lemma ValidExactly(e: CanonicalEvent)
    ensures Validate(e) <==>
              && (e.eventId.Uuid? || e.eventId.NameUuid?)
              && e.occurredAt.Some? && 0 <= e.seqNo && e.schemaVersion == "1.0.0"
              && e.severity in {Debug, Info, Warning, Critical, Fatal}
              && (e.confidence.Some? ==> e.confidence.value.Num? && 0.0 <= e.confidence.value.r <= 100.0)
              && e.columns.source != "" && e.columns.category != "" && e.tenantId != "" && e.siteId != ""
              && (forall c | c in e.tenantId + e.siteId ::
                    'a' <= c <= 'z' || 'A' <= c <= 'Z' || '0' <= c <= '9' || c == '-')
              && FitsWidths(e)
  {
    assert (forall c | c in e.tenantId :: NameChar(c)) && (forall c | c in e.siteId :: NameChar(c)) <==>
             forall c | c in e.tenantId + e.siteId :: NameChar(c);
  }

  /** The widths of the columns of the events table. */
  predicate FitsWidths(e: CanonicalEvent) {
    var c := e.columns;
    && |e.tenantId| <= 128 && |e.siteId| <= 128 && |c.assetId| <= 128 && |c.sensorId| <= 128
    && |c.source| <= 255 && |c.category| <= 255 && |c.protocol| <= 128 && |c.src| <= 255 && |c.dst| <= 255
    && |c.action| <= 128 && |c.ruleId| <= 255 && |c.ruleVersion| <= 64 && |e.schemaVersion| <= 32
  }

  /** Text that a column takes whatever its width: the code zero cannot be stored (section 8.3 of the PostgreSQL
      documentation). */
  predicate Storable(s: string) {
    '\0' !in s
  }

  predicate FitsTable(e: CanonicalEvent) {
    && e.occurredAt.Some? && FitsWidths(e)
    && forall s | s in {e.tenantId, e.siteId, e.columns.assetId, e.columns.sensorId, e.columns.source,
                        e.columns.category, e.columns.protocol, e.columns.src, e.columns.dst, e.columns.action,
                        e.columns.ruleId, e.columns.ruleVersion, e.schemaVersion} :: Storable(s)
  }

  /** An event that passes the schema check fits the table's columns exactly if no text it leaves free contains the
      code zero, which the check does not ask; such an event could never be persisted. */
  lemma ValidEventsFitExactly(e: CanonicalEvent)
    requires Validate(e)
    ensures FitsTable(e) <==>
              forall s | s in {e.columns.assetId, e.columns.sensorId, e.columns.source, e.columns.category,
                               e.columns.protocol, e.columns.src, e.columns.dst, e.columns.action,
                               e.columns.ruleId, e.columns.ruleVersion} :: Storable(s)
  {
    assert forall c | NameChar(c) :: c != '\0';
    assert Storable(CURRENT_SCHEMA_VERSION);
  }
}

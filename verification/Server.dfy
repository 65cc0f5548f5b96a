/** The server side: ingest handler, Valkey stream with its pending list, worker, and the two Postgres
    tables (server/internal/api, server/internal/queue, server/internal/db). */
module Server {
  import opened Wrappers
  import opened Events
  import opened Storage

  // ----- Postgres (repository.go) -----

  datatype Key = Key(tenantId: string, eventId: EventId)

  function KeyOf(e: CanonicalEvent): Key {
    Key(e.tenantId, e.eventId)
  }

  /** The two tables by primary key and unique key; an alert row keeps its severity. */
  datatype Pg = Pg(events: map<Key, CanonicalEvent>, alerts: map<Key, Severity>)

  const EMPTY_PG := Pg(map[], map[])

  predicate Alarming(s: Severity) {
    s == Critical || s == Fatal
  }

  datatype PersistEnv = PersistEnv(beginFails: bool, insertFails: bool, alertFails: bool, commit: Commit)

  datatype Persisted = Persisted(pg: Pg, alert: bool, ok: bool)

  function Persist(pg: Pg, e: CanonicalEvent, env: PersistEnv): Persisted {
    var k := KeyOf(e);
    if env.beginFails || env.insertFails then Persisted(pg, false, false)
    else if k in pg.events then Persisted(pg, false, true)
    else if Alarming(e.severity) && env.alertFails then Persisted(pg, false, false)
    else
      var alerts := if Alarming(e.severity) && k !in pg.alerts then pg.alerts[k := e.severity] else pg.alerts;
      var pg' := Pg(pg.events[k := e], alerts);
      match env.commit
      case Committed => Persisted(pg', Alarming(e.severity), true)
      case RolledBack(_) => Persisted(pg, false, false)
      case Unreported(_) => Persisted(pg', false, false)
  }

  // ----- The stream (producer.go, consumer.go) -----

  datatype Wire = Text(payload: Payload) | NotAString

  /** A stream entry; delivered and not acknowledged means pending for some consumer. */
  datatype Entry = Entry(wire: Wire, delivered: bool, acked: bool)

  datatype Poison = BadType | Unparsable | Invalid

  datatype DeadLetter = DeadLetter(message: nat, poison: Poison)

  /** Messages are named by their position in the stream. */
  datatype Queue = Queue(stream: seq<Entry>, dead: seq<DeadLetter>)

  const EMPTY_QUEUE := Queue([], [])

  /** What becomes of an append to a stream. */
  datatype Append = Appended | AppendedSilently | NotAppended

  /** The event the worker will persist, or the reason it will not. */
  function Parse(w: Wire): (CanonicalEvent, Option<Poison>) {
    match w
    case NotAString => (BLANK, Some(BadType))
    case Text(p) =>
      match Deserialize(p)
      case None => (BLANK, Some(Unparsable))
      case Some(e) => (e, if Validate(e) then None else Some(Invalid))
  }

  const BLANK := CanonicalEvent(NO_ID, "", "", None, 0, 0, Unlisted(""), None,
                                Columns("", "", "", "", "", "", "", "", "", ""), Plain(""), "")

  predicate Healthy(w: Wire) {
    Parse(w).1.None?
  }

  function Publish(q: Queue, e: CanonicalEvent, env: Append): (Queue, bool) {
    match Serialize(e)
    case None => (q, false)
    case Some(p) =>
      var q' := q.(stream := q.stream + [Entry(Text(p), false, false)]);
      match env
      case Appended => (q', true)
      case AppendedSilently => (q', false)
      case NotAppended => (q, false)
  }

  function Ack(q: Queue, m: nat, applied: bool): Queue
    requires m < |q.stream|
  {
    if applied then q.(stream := q.stream[m := q.stream[m].(acked := true)]) else q
  }

  function SendToDLQ(q: Queue, m: nat, p: Poison, env: Append): (Queue, bool) {
    var q' := q.(dead := q.dead + [DeadLetter(m, p)]);
    match env
    case Appended => (q', true)
    case AppendedSilently => (q', false)
    case NotAppended => (q, false)
  }

  datatype WorkEnv = WorkEnv(deadLetter: Append, persist: PersistEnv, ackApplied: bool)

  /** One message processed from start to end, with no other worker in between. */
  function ProcessMessage(q: Queue, pg: Pg, m: nat, env: WorkEnv): (Queue, Pg)
    requires m < |q.stream|
  {
    var (e, poison) := Parse(q.stream[m].wire);
    match poison
    case Some(p) =>
      var (q', ok) := SendToDLQ(q, m, p, env.deadLetter);
      if ok then (Ack(q', m, env.ackApplied), pg) else (q', pg)
    case None =>
      var r := Persist(pg, e, env.persist);
      if r.ok then (Ack(q, m, env.ackApplied), r.pg) else (q, r.pg)
  }

  const RECOVERY_BATCH := 100

  /** The first n delivered, unacknowledged messages among the first k of the stream. */
  function Pending(q: Queue, k: nat, n: nat): (ms: seq<nat>)
    requires k <= |q.stream|
    ensures |ms| <= n
    ensures forall m | m in ms :: m < k && q.stream[m].delivered && !q.stream[m].acked
    ensures |ms| < n ==> forall m | 0 <= m < k && q.stream[m].delivered && !q.stream[m].acked :: m in ms
  {
    if k == 0 then []
    else
      var ms := Pending(q, k - 1, n);
      if q.stream[k - 1].delivered && !q.stream[k - 1].acked && |ms| < n then ms + [k - 1] else ms
  }

  /** Whether a pending message is idle long enough, claimed and read back, and how its processing goes. */
  datatype ClaimEnv = ClaimEnv(idle: bool, claimed: bool, readBack: bool, work: WorkEnv)

  /** Claims and processes the listed messages from the i-th on. */
  function Reclaim(q: Queue, pg: Pg, ms: seq<nat>, i: nat, envs: nat -> ClaimEnv): (r: (Queue, Pg))
    requires i <= |ms| && forall m | m in ms :: m < |q.stream|
    ensures |r.0.stream| == |q.stream|
    decreases |ms| - i
  {
    if i == |ms| then (q, pg)
    else
      assert ms[i] in ms;
      if envs(i).idle && envs(i).claimed && envs(i).readBack then
        var (q', pg') := ProcessMessage(q, pg, ms[i], envs(i).work);
        Reclaim(q', pg', ms, i + 1, envs)
      else
        Reclaim(q, pg, ms, i + 1, envs)
  }

  // ----- The ingest handler (ingest.go) -----

  datatype Body = TooLarge | NotOneEvent | OneEvent(event: CanonicalEvent)

  datatype Request = Request(post: bool, tenantParam: string, body: Body)

  datatype Status = Accepted | BadRequest | MethodNotAllowed | EntityTooLarge | InternalError | OtherStatus(code: int)

  function ServeHTTP(q: Queue, req: Request, now: Time, env: Append): (Queue, Status) {
    if !req.post then (q, MethodNotAllowed)
    else if req.tenantParam == "" then (q, BadRequest)
    else
      match req.body
      case TooLarge => (q, EntityTooLarge)
      case NotOneEvent => (q, BadRequest)
      case OneEvent(e) =>
        if e.tenantId != req.tenantParam then (q, BadRequest)
        else
          var stamped := e.(receivedAt := now);
          if !Validate(stamped) then (q, BadRequest)
          else
            var (q', ok) := Publish(q, stamped, env);
            (q', if ok then Accepted else InternalError)
  }

  // ----- Exactly-once effect in Postgres -----

  /** The delivery took effect or had already: an ok reply, or a commit that only went unreported. */
  predicate TookEffect(pg: Pg, e: CanonicalEvent, env: PersistEnv) {
    KeyOf(e) in Persist(pg, e, env).pg.events && !env.beginFails && !env.insertFails
  }

  /** events holds, for each key delivered, the first event delivered under it. */
  ghost predicate FirstOccurrences(ds: seq<CanonicalEvent>, events: map<Key, CanonicalEvent>) {
    && (forall d | d in ds :: KeyOf(d) in events)
    && (forall k | k in events :: exists i: nat :: IsFirst(ds, i, k, events[k]))
  }

  ghost predicate IsFirst(ds: seq<CanonicalEvent>, i: nat, k: Key, e: CanonicalEvent) {
    i < |ds| && ds[i] == e && KeyOf(e) == k && forall j | 0 <= j < i :: KeyOf(ds[j]) != k
  }

  /** Alerts: exactly one per stored event of an alarming severity, none otherwise. */
  ghost predicate AlertsMatch(pg: Pg) {
    forall k :: (k in pg.alerts <==> k in pg.events && Alarming(pg.events[k].severity))
                && (k in pg.alerts ==> pg.alerts[k] == pg.events[k].severity)
  }

  ghost predicate PgIs(ds: seq<CanonicalEvent>, pg: Pg) {
    FirstOccurrences(ds, pg.events) && AlertsMatch(pg)
  }

  /** The deliveries determine the table. */
  lemma FirstOccurrencesUnique(ds: seq<CanonicalEvent>, a: map<Key, CanonicalEvent>, b: map<Key, CanonicalEvent>)
    requires FirstOccurrences(ds, a) && FirstOccurrences(ds, b)
    ensures a == b
  {
    forall k | k in a ensures k in b && a[k] == b[k] {
      var i: nat :| IsFirst(ds, i, k, a[k]);
      assert ds[i] in ds;
      var j: nat :| IsFirst(ds, j, k, b[k]);
      assert i == j;
    }
    forall k | k in b ensures k in a {
      var j: nat :| IsFirst(ds, j, k, b[k]);
      assert ds[j] in ds;
    }
  }

  /** The tables after any deliveries with any faults, and the deliveries that took effect. */
  function PersistAll(es: seq<CanonicalEvent>, envs: seq<PersistEnv>): (Pg, seq<CanonicalEvent>)
    requires |es| == |envs|
  {
    if es == [] then (EMPTY_PG, [])
    else
      var n := |es| - 1;
      var (pg, ds) := PersistAll(es[..n], envs[..n]);
      (Persist(pg, es[n], envs[n]).pg, if TookEffect(pg, es[n], envs[n]) then ds + [es[n]] else ds)
  }

  lemma PersistStep(pg: Pg, ds: seq<CanonicalEvent>, e: CanonicalEvent, env: PersistEnv)
    requires PgIs(ds, pg)
    ensures var r := Persist(pg, e, env);
            && PgIs(if TookEffect(pg, e, env) then ds + [e] else ds, r.pg)
            && (r.ok ==> TookEffect(pg, e, env))
            && (forall k | k in pg.events :: k in r.pg.events && r.pg.events[k] == pg.events[k])
            && (KeyOf(e) in pg.events ==> r.pg == pg && !r.alert)
            && (r.alert ==> KeyOf(e) in r.pg.alerts && KeyOf(e) !in pg.alerts)
  {
    hide FirstOccurrences;
    FirstStep(ds, pg.events, e);
  }

  lemma FirstStep(ds: seq<CanonicalEvent>, events: map<Key, CanonicalEvent>, e: CanonicalEvent)
    requires FirstOccurrences(ds, events)
    ensures FirstOccurrences(ds + [e], if KeyOf(e) in events then events else events[KeyOf(e) := e])
  {
    var ds' := ds + [e];
    var events' := if KeyOf(e) in events then events else events[KeyOf(e) := e];
    forall k | k in events' ensures exists i: nat :: IsFirst(ds', i, k, events'[k]) {
      if k in events {
        var i: nat :| IsFirst(ds, i, k, events[k]);
        assert IsFirst(ds', i, k, events'[k]);
      } else {
        assert IsFirst(ds', |ds|, k, e);
      }
    }
  }

  /** Exactly-once effect: after any sequence of deliveries, repeated or faulty, the tables are those of
      the first effective delivery per (tenant, event id), with one alert exactly for each alarming row. */
  lemma {:induction false} ExactlyOnceEffect(es: seq<CanonicalEvent>, envs: seq<PersistEnv>)
    requires |es| == |envs|
    ensures PgIs(PersistAll(es, envs).1, PersistAll(es, envs).0)
  {
    if es != [] {
      var n := |es| - 1;
      ExactlyOnceEffect(es[..n], envs[..n]);
      PersistStep(PersistAll(es[..n], envs[..n]).0, PersistAll(es[..n], envs[..n]).1, es[n], envs[n]);
    }
  }
}

/** The agent's durable store as a value: two tables, a sequence counter and drop counters
    (agent/internal/storage/sqlite.go). Every statement that can fail takes its fate from an
    oracle argument, so one function covers all outcomes of one call. */
module Storage {
  import opened Wrappers
  import opened Events

  datatype Row = Row(seqNo: int, severity: Severity, payload: Payload, attempts: int, nextAttempt: Option<Time>)

  /** The constraint UNIQUE(device_id, seq_no); the device id never changes. */
  ghost predicate UniqueSeqs(t: map<EventId, Row>) {
    forall a, b :: SeqsDiffer(t, a, b)
  }

  ghost predicate SeqsDiffer(t: map<EventId, Row>, a: EventId, b: EventId) {
    a in t && b in t && a != b ==> t[a].seqNo != t[b].seqNo
  }

  /** The events table, keyed by its primary key. */
  type Table = t: map<EventId, Row> | UniqueSeqs(t) witness map[]

  datatype Failure = UncertainCommit | TenantMismatch | SerializationError | Http400 | LocalDeserialization

  datatype DeadRow = DeadRow(seqNo: int, payload: Payload, failure: Failure)

  datatype Dropped = Dropped(total: nat, debug: nat, info: nat, warning: nat)

  datatype Pressure = Unset | Ok | Pruning | Emergency

  datatype Db = Db(
    events: Table,
    dlq: map<EventId, DeadRow>,
    nextSeqNo: int,
    dropped: Dropped,
    pressure: Pressure)

  const EMPTY_DB := Db(map[], map[], 1, Dropped(0, 0, 0, 0), Unset)

  datatype Cause = Canceled | Deadline | Io | EmptyId | Integrity | Encoding | Constraint | StorageEmergency

  datatype StoreResult = Stored | FailedBeforeCommit(cause: Cause) | Uncertain(cause: Cause)

  /** What becomes of a transaction's commit. */
  datatype Commit = Committed | RolledBack(cause: Cause) | Unreported(cause: Cause)

  /** What becomes of the statements of one step of the quota sweep. */
  datatype Fault =
    | NoFault
    | StatementFails(cause: Cause)      // nothing is changed
    | CounterFails(cause: Cause)        // the batch is deleted and not counted
    | CounterUnreported(cause: Cause)   // everything is done, and an error returned

  /** One reading of the file sizes (None: the files cannot be read) and the fate of what follows it. */
  datatype Probe = Probe(size: Option<int>, fault: Fault)

  type Disk = nat -> Probe

  datatype StoreEnv = StoreEnv(
    lookupEvents: Option<Cause>,
    lookupDlq: Option<Cause>,
    jsonLength: nat,
    disk: Disk,
    begin: Option<Cause>,
    write: Option<Cause>,
    commit: Commit)

  /** What becomes of a single UPDATE. */
  datatype Fate = Landed | LandedSilently | NotLanded

  /** Fate of the other transactions and statements. */
  datatype TxEnv = TxEnv(fails: bool, commit: Commit)

  // ----- SELECT ... ORDER BY seq_no ASC LIMIT n -----

  ghost predicate IsLeast(t: Table, c: set<EventId>, x: EventId)
    requires c <= t.Keys
  {
    x in c && forall y | y in c :: t[x].seqNo <= t[y].seqNo
  }

  lemma LeastExists(t: Table, c: set<EventId>)
    requires c <= t.Keys && c != {}
    ensures exists x :: IsLeast(t, c, x)
  {
    var a :| a in c;
    var rest := c - {a};
    if rest == {} {
      assert c == {a};
      assert IsLeast(t, c, a);
    } else {
      LeastExists(t, rest);
      var b :| IsLeast(t, rest, b);
      var x := if t[b].seqNo <= t[a].seqNo then b else a;
      forall y | y in c ensures t[x].seqNo <= t[y].seqNo {
        assert y == a || y in rest;
      }
      assert IsLeast(t, c, x);
    }
  }

  function Least(t: Table, c: set<EventId>): (x: EventId)
    requires c <= t.Keys && c != {}
    ensures IsLeast(t, c, x)
  {
    LeastExists(t, c);
    assert exists x :: x in c && forall y | y in c :: t[x].seqNo <= t[y].seqNo by {
      var x :| IsLeast(t, c, x);
    }
    assert forall a, b :: SeqsDiffer(t, a, b);
    assert forall a, b | a in c && b in c && t[a].seqNo == t[b].seqNo :: a == b by {
      forall a, b | a in c && b in c && t[a].seqNo == t[b].seqNo ensures a == b { assert SeqsDiffer(t, a, b); }
    }
    var x :| x in c && forall y | y in c :: t[x].seqNo <= t[y].seqNo;
    x
  }

  /** The n rows of c with the smallest sequence numbers, in ascending order. */
  function Oldest(t: Table, c: set<EventId>, n: nat): (ids: seq<EventId>)
    requires c <= t.Keys
    decreases n
    ensures forall id | id in ids :: id in c
    ensures |ids| == if n <= |c| then n else |c|
    ensures Ascending(t, ids) && NoneOlder(t, c, ids)
  {
    if n == 0 || c == {} then
      []
    else
      var x := Least(t, c);
      var rest := Oldest(t, c - {x}, n - 1);
      OldestFirst(t, c, x, rest);
      [x] + rest
  }

  lemma OldestFirst(t: Table, c: set<EventId>, x: EventId, rest: seq<EventId>)
    requires c <= t.Keys && IsLeast(t, c, x)
    requires forall id | id in rest :: id in c - {x}
    requires Ascending(t, rest) && NoneOlder(t, c - {x}, rest)
    ensures Ascending(t, [x] + rest) && NoneOlder(t, c, [x] + rest)
    ensures |c - {x}| == |c| - 1
  {
    forall y | y in c && y != x ensures t[x].seqNo < t[y].seqNo { assert SeqsDiffer(t, x, y); }
  }

  ghost predicate Ascending(t: Table, ids: seq<EventId>)
    requires forall id | id in ids :: id in t
  {
    forall i, j | 0 <= i < j < |ids| :: t[ids[i]].seqNo < t[ids[j]].seqNo
  }

  ghost predicate NoneOlder(t: Table, c: set<EventId>, ids: seq<EventId>)
    requires c <= t.Keys && forall id | id in ids :: id in t
  {
    forall a, b | a in ids && b in c && b !in ids :: t[a].seqNo < t[b].seqNo
  }

  /** Writing a row keeps the numbers unique when no other row has its number. */
  lemma StillUnique(t: Table, id: EventId, row: Row)
    requires (id in t && t[id].seqNo == row.seqNo) || forall a | a in t :: t[a].seqNo != row.seqNo
    ensures UniqueSeqs(t[id := row])
  {
    var t' := t[id := row];
    forall a, b ensures SeqsDiffer(t', a, b) {
      assert SeqsDiffer(t, a, b);
      assert SeqsDiffer(t, a, id);
      assert SeqsDiffer(t, id, b);
    }
  }

  function IdSet(ids: seq<EventId>): set<EventId> {
    set id | id in ids
  }

  // ----- Quota (enforceQuota) -----

  const BATCH := 50

  const PRUNABLE: seq<Severity> := [Debug, Info, Warning]

  function OfClass(t: Table, s: Severity): set<EventId> {
    set id | id in t && t[id].severity == s
  }

  /** 90% of the quota, truncated towards zero. */
  function LowWater(quota: int): int {
    if quota >= 0 then quota * 9 / 10 else -((-quota) * 9 / 10)
  }

  /** A size that cannot be read counts as zero where the error is ignored. */
  function SizeOrZero(p: Probe): int {
    match p.size
    case Some(n) => n
    case None => 0
  }

  function CountDropped(d: Dropped, s: Severity, n: nat): Dropped {
    match s
    case Debug => d.(total := d.total + n, debug := d.debug + n)
    case Info => d.(total := d.total + n, info := d.info + n)
    case Warning => d.(total := d.total + n, warning := d.warning + n)
    case _ => d
  }

  function Without(t: Table, ids: set<EventId>): Table {
    assert UniqueSeqs(t - ids) by {
      forall a, b ensures SeqsDiffer(t - ids, a, b) { assert SeqsDiffer(t, a, b); }
    }
    t - ids
  }

  datatype QuotaResult = Fits | Refused(cause: Cause) | Exhausted

  /** uncounted: rows deleted whose counter update then failed. */
  datatype Swept = Swept(db: Db, result: QuotaResult, uncounted: nat)

  /** The update to OK skips a column that was never set: NULL is not unequal to anything. */
  function Relaxed(p: Pressure): Pressure {
    if p == Unset then Unset else Ok
  }

  /** What is decided once no class is left to prune. */
  function Settle(db: Db, incoming: Severity, estimate: int, quota: int, p: Probe): Swept {
    if SizeOrZero(p) + estimate >= quota then
      match p.fault
      case StatementFails(c) => Swept(db, Refused(c), 0)
      case CounterUnreported(c) => Swept(db.(pressure := Emergency), Refused(c), 0)
      case _ =>
        var db' := db.(pressure := Emergency);
        if incoming == Critical || incoming == Fatal then Swept(db', Fits, 0)
        else Swept(db', Exhausted, 0)
    else
      match p.fault
      case StatementFails(c) => Swept(db, Refused(c), 0)
      case CounterUnreported(c) => Swept(db.(pressure := Relaxed(db.pressure)), Refused(c), 0)
      case _ => Swept(db.(pressure := Relaxed(db.pressure)), Fits, 0)
  }

  /** The next batch of a class: its oldest rows. */
  function Batch(t: Table, s: Severity): (ids: seq<EventId>)
    ensures forall id | id in ids :: id in t && t[id].severity == s
    ensures Ascending(t, ids) && NoneOlder(t, OfClass(t, s), ids)
    ensures ids == [] <==> OfClass(t, s) == {}
  {
    Oldest(t, OfClass(t, s), BATCH)
  }

  /** One round on one class: stop, go on to the next class, or repeat after a batch. */
  datatype Round = Stop(swept: Swept) | NextClass | Repeat(db: Db)

  function PruneRound(db: Db, s: Severity, estimate: int, quota: int, p: Probe): Round {
    if SizeOrZero(p) + estimate < LowWater(quota) then
      Stop(Swept(db, Fits, 0))
    else if p.fault.StatementFails? then
      Stop(Swept(db, Refused(p.fault.cause), 0))
    else
      var ids := Batch(db.events, s);
      if ids == [] then
        NextClass
      else
        var smaller := db.(events := Without(db.events, IdSet(ids)));
        if p.fault.CounterFails? then
          Stop(Swept(smaller, Refused(p.fault.cause), |ids|))
        else
          var counted := smaller.(dropped := CountDropped(db.dropped, s, |ids|), pressure := Pruning);
          if p.fault.CounterUnreported? then Stop(Swept(counted, Refused(p.fault.cause), 0)) else Repeat(counted)
  }

  /** The sweep from class i on; k counts the size readings taken. */
  function Sweep(db: Db, i: nat, incoming: Severity, estimate: int, quota: int, disk: Disk, k: nat): Swept
    requires i <= |PRUNABLE|
    decreases |PRUNABLE| - i, |db.events|
  {
    if i == |PRUNABLE| then
      Settle(db, incoming, estimate, quota, disk(k))
    else
      match PruneRound(db, PRUNABLE[i], estimate, quota, disk(k))
      case Stop(swept) => swept
      case NextClass => Sweep(db, i + 1, incoming, estimate, quota, disk, k + 1)
      case Repeat(db') =>
        RepeatShrinks(db, PRUNABLE[i], estimate, quota, disk(k));
        Sweep(db', i, incoming, estimate, quota, disk, k + 1)
  }

  lemma RepeatShrinks(db: Db, s: Severity, estimate: int, quota: int, p: Probe)
    requires PruneRound(db, s, estimate, quota, p).Repeat?
    ensures |PruneRound(db, s, estimate, quota, p).db.events| < |db.events|
  {
    hide Oldest, OfClass;
    FewerRows(db.events, IdSet(Batch(db.events, s)), Batch(db.events, s)[0]);
  }

  lemma FewerRows(t: map<EventId, Row>, ids: set<EventId>, x: EventId)
    requires x in ids && x in t
    ensures |t - ids| < |t|
  {
    assert (t - ids).Keys <= t.Keys - {x};
    SubsetSize((t - ids).Keys, t.Keys - {x});
    assert |(t - ids).Keys| == |t - ids| && |t.Keys| == |t|;
  }

  lemma SubsetSize<T>(a: set<T>, b: set<T>)
    requires a <= b
    ensures |a| <= |b|
  {
    assert b == a + (b - a);
    assert |b| == |a| + |b - a|;
  }

  function EnforceQuota(db: Db, incoming: Severity, estimate: int, quota: int, disk: Disk): Swept {
    match disk(0).size
    case None => Swept(db, Refused(Io), 0)
    case Some(size) =>
      if size + estimate < quota then Swept(db, Fits, 0)
      else Sweep(db, 0, incoming, estimate, quota, disk, 1)
  }

  // ----- Store -----

  /** The stored event comes back with the sequence number Store gave it. */
  datatype StoreReply = StoreReply(db: Db, event: CanonicalEvent, result: StoreResult, uncounted: nat)

  /** Outcome of finding the id in a table already. */
  function Recheck(db: Db, e: CanonicalEvent, seqNo: int, held: Payload): StoreReply {
    var e' := e.(seqNo := seqNo);
    StoreReply(db, e', if held == Text(e') then Stored else FailedBeforeCommit(Integrity), 0)
  }

  /** The insert transaction, after the quota has made room. begin: the fate of opening it and of reading the
      counter. */
  function Insert(db: Db, e: CanonicalEvent, env: StoreEnv, uncounted: nat): StoreReply {
    if env.begin.Some? then
      StoreReply(db, e, FailedBeforeCommit(env.begin.value), uncounted)
    else if e.eventId in db.events then
      StoreReply(db, e, Stored, uncounted)
    else
      var e' := e.(seqNo := db.nextSeqNo);
      if !Encodable(e') then
        StoreReply(db, e', FailedBeforeCommit(Encoding), uncounted)
      else if env.write.Some? then
        StoreReply(db, e', FailedBeforeCommit(env.write.value), uncounted)
      else if exists id | id in db.events :: db.events[id].seqNo == db.nextSeqNo then
        StoreReply(db, e', FailedBeforeCommit(Constraint), uncounted)
      else
        var row := Row(db.nextSeqNo, e.severity, Json(e'), 0, None);
        StillUnique(db.events, e.eventId, row);
        var db' := db.(events := db.events[e.eventId := row], nextSeqNo := db.nextSeqNo + 1);
        match env.commit
        case Committed => StoreReply(db', e', Stored, uncounted)
        case RolledBack(c) => StoreReply(db, e', Uncertain(c), uncounted)
        case Unreported(c) => StoreReply(db', e', Uncertain(c), uncounted)
  }

  function Store(db: Db, quota: int, e: CanonicalEvent, env: StoreEnv): StoreReply {
    if e.eventId == NO_ID then
      StoreReply(db, e, FailedBeforeCommit(EmptyId), 0)
    else if env.lookupEvents.Some? then
      StoreReply(db, e, FailedBeforeCommit(env.lookupEvents.value), 0)
    else if e.eventId in db.events then
      Recheck(db, e, db.events[e.eventId].seqNo, db.events[e.eventId].payload)
    else if env.lookupDlq.Some? then
      StoreReply(db, e, FailedBeforeCommit(env.lookupDlq.value), 0)
    else if e.eventId in db.dlq then
      Recheck(db, e, db.dlq[e.eventId].seqNo, db.dlq[e.eventId].payload)
    else
      var swept := EnforceQuota(db, e.severity, env.jsonLength + 1024, quota, env.disk);
      match swept.result
      case Refused(c) => StoreReply(swept.db, e, FailedBeforeCommit(c), swept.uncounted)
      case Exhausted => StoreReply(swept.db, e, FailedBeforeCommit(StorageEmergency), swept.uncounted)
      case Fits => Insert(swept.db, e, env, swept.uncounted)
  }

  // ----- Dead-letter queue, removal, retry -----

  datatype MoveReply = MoveReply(db: Db, ok: bool)

  function MoveRaw(db: Db, id: EventId, seqNo: int, payload: Payload, failure: Failure, env: TxEnv): MoveReply {
    if env.fails then
      MoveReply(db, false)
    else if id in db.dlq && db.dlq[id].payload != payload then
      MoveReply(db, false)
    else
      var dlq' := if id in db.dlq then db.dlq else db.dlq[id := DeadRow(seqNo, payload, failure)];
      var db' := db.(dlq := dlq', events := Without(db.events, {id}));
      match env.commit
      case Committed => MoveReply(db', true)
      case RolledBack(_) => MoveReply(db, false)
      case Unreported(_) => MoveReply(db', false)
  }

  function MoveToDLQ(db: Db, e: CanonicalEvent, failure: Failure, env: TxEnv): MoveReply {
    match Serialize(e)
    case None => MoveReply(db, false)
    case Some(p) => MoveRaw(db, e.eventId, e.seqNo, p, failure, env)
  }

  function RemoveEvent(db: Db, id: EventId, env: TxEnv): MoveReply {
    if env.fails then MoveReply(db, false)
    else
      var db' := db.(events := Without(db.events, {id}));
      match env.commit
      case Committed => MoveReply(db', true)
      case RolledBack(_) => MoveReply(db, false)
      case Unreported(_) => MoveReply(db', false)
  }

  const MAX_BACKOFF := 3600
  const MAX_RETRY_AFTER := 86400

  function Pow2(n: nat): nat {
    if n == 0 then 1 else 2 * Pow2(n - 1)
  }

  /** The failure count after one more failure; a wrapped count restarts at one. */
  function NextAttempts(attempts: int): int {
    if attempts + 1 < 0 then 1 else attempts + 1
  }

  /** Seconds until the next attempt; attempts already counts the failed one. */
  function Delay(attempts: nat, retryAfter: int, jitter: nat): int {
    if retryAfter > 0 then
      if retryAfter > MAX_RETRY_AFTER then MAX_RETRY_AFTER else retryAfter
    else if attempts >= 10 then
      MAX_BACKOFF + jitter
    else
      var backoff := 5 * Pow2(attempts);
      (if backoff > MAX_BACKOFF then MAX_BACKOFF else backoff) + jitter
  }

  /** nanos: the clock's nanosecond reading that jitters the delay. */
  function MarkFailed(db: Db, id: EventId, retryAfter: int, now: Time, nanos: nat, fate: Fate): MoveReply {
    if id !in db.events || fate.NotLanded? then
      MoveReply(db, false)
    else
      var row := db.events[id];
      var attempts := NextAttempts(row.attempts);
      var row' := row.(attempts := attempts, nextAttempt := Some(now + Delay(attempts, retryAfter, nanos % 10)));
      StillUnique(db.events, id, row');
      MoveReply(db.(events := db.events[id := row']), fate.Landed?)
  }

  // ----- GetPendingEvents -----

  function Eligible(t: Table, now: Time): set<EventId> {
    set id | id in t && (t[id].nextAttempt.None? || t[id].nextAttempt.value <= now)
  }

  /** Rows of the batch that decode, as events, in batch order. */
  function Decoded(t: Table, ids: seq<EventId>): (r: seq<CanonicalEvent>)
    requires forall id | id in ids :: id in t
  {
    if ids == [] then []
    else
      var init := Decoded(t, ids[..|ids| - 1]);
      match Deserialize(t[ids[|ids| - 1]].payload)
      case Some(e) => init + [e]
      case None => init
  }

  /** Rows of the batch that do not decode, in batch order. */
  function Corrupt(t: Table, ids: seq<EventId>): (r: seq<EventId>)
    requires forall id | id in ids :: id in t
    ensures forall id | id in r :: id in ids && t[id].payload.Raw?
  {
    if ids == [] then []
    else
      var last := ids[|ids| - 1];
      var init := Corrupt(t, ids[..|ids| - 1]);
      if t[last].payload.Raw? then init + [last] else init
  }

  /** Dead-letters the rows read as t one transaction at a time, stopping at the first failure. */
  function MoveAll(db: Db, t: Table, ids: seq<EventId>, envs: nat -> TxEnv, k: nat): MoveReply
    requires k <= |ids|
    requires forall id | id in ids :: id in t
    decreases |ids| - k
  {
    if k == |ids| then MoveReply(db, true)
    else
      var moved := MoveRaw(db, ids[k], t[ids[k]].seqNo, t[ids[k]].payload, LocalDeserialization, envs(k));
      if !moved.ok then moved else MoveAll(moved.db, t, ids, envs, k + 1)
  }

  datatype FetchEnv = FetchEnv(queryFails: bool, moves: nat -> TxEnv)

  datatype Fetched = Fetched(db: Db, events: Option<seq<CanonicalEvent>>)

  function GetPendingEvents(db: Db, now: Time, limit: nat, env: FetchEnv): Fetched {
    if env.queryFails then
      Fetched(db, None)
    else
      var ids := Oldest(db.events, Eligible(db.events, now), limit);
      var moved := MoveAll(db, db.events, Corrupt(db.events, ids), env.moves, 0);
      Fetched(moved.db, if moved.ok then Some(Decoded(db.events, ids)) else None)
  }
}

/** What every operation of the agent's store keeps, and what each one does to the two tables. */
module StorageProperties {
  import opened Wrappers
  import opened Events
  import opened Storage
  import opened QuotaProperties

  // ----- The storage invariant -----

  /** The row's payload, when it is JSON, is that of an event with the row's id, number and severity. */
  ghost predicate RowFits(id: EventId, row: Row, nextSeqNo: int) {
    && 1 <= row.seqNo < nextSeqNo
    && 0 <= row.attempts
    && (row.payload.Json? ==>
          && row.payload.event.eventId == id
          && row.payload.event.seqNo == row.seqNo
          && row.payload.event.severity == row.severity)
  }

  ghost predicate Inv(db: Db) {
    && 1 <= db.nextSeqNo
    && (forall id | id in db.events :: RowFits(id, db.events[id], db.nextSeqNo))
    && db.events.Keys !! db.dlq.Keys
    && (forall id | id in db.dlq && db.dlq[id].payload.Json? :: db.dlq[id].payload.event.eventId == id)
    && db.dropped.total == db.dropped.debug + db.dropped.info + db.dropped.warning
  }

  // ----- Store -----

  /** The text of e lies under its id in one of the tables. */
  ghost predicate Held(db: Db, e: CanonicalEvent) {
    || (e.eventId in db.events && db.events[e.eventId].payload == Text(e))
    || (e.eventId in db.dlq && db.dlq[e.eventId].payload == Text(e))
  }

  predicate Present(db: Db, id: EventId) {
    id in db.events || id in db.dlq
  }

  /** The row a first insertion of e writes. */
  function FreshRow(db: Db, e: CanonicalEvent): Row {
    Row(db.nextSeqNo, e.severity, Json(e.(seqNo := db.nextSeqNo)), 0, None)
  }

  lemma QuotaKeepsInv(db: Db, incoming: Severity, estimate: int, quota: int, disk: Disk)
    requires Inv(db)
    ensures Inv(EnforceQuota(db, incoming, estimate, quota, disk).db)
  {
    hide EnforceQuota;
    QuotaSpec(db, incoming, estimate, quota, disk, Debug);
  }

  /** The insert transaction either changes nothing or writes exactly the fresh row and advances the
      counter by one; under the invariant its uniqueness constraints never fire. */
  lemma InsertSpec(db: Db, e: CanonicalEvent, env: StoreEnv, uncounted: nat)
    requires Inv(db) && !Present(db, e.eventId)
    ensures var r := Insert(db, e, env, uncounted);
            && r.uncounted == uncounted
            && Inv(r.db)
            && r.event == e.(seqNo := r.event.seqNo)
            && (r.result.Stored? <==> env.begin.None? && Encodable(e) && env.write.None? && env.commit.Committed?)
            && (r.db == db || (r.db.events == db.events[e.eventId := FreshRow(db, e)]
                               && r.db == db.(events := r.db.events, nextSeqNo := db.nextSeqNo + 1)))
            && (r.db != db <==> env.begin.None? && Encodable(e) && env.write.None? && !env.commit.RolledBack?)
            && (r.result.Stored? ==> Held(r.db, r.event) && e.eventId in r.db.events)
            && (r.result.FailedBeforeCommit? ==> r.db == db)
            && (r.result.Uncertain? <==> env.begin.None? && Encodable(e) && env.write.None? && !env.commit.Committed?)
  {
  }

  /** A Store may prune as the quota sweep does and may insert e under the next number; nothing else. */
  ghost predicate StoreWrites(db: Db, e: CanonicalEvent, db': Db) {
    && (forall id | id in db'.events && id != e.eventId :: id in db.events && db'.events[id] == db.events[id])
    && (forall a | a in db.events && a !in db'.events :: ClassRank(db.events[a].severity) < 3)
    && (forall a, b | a in db.events && a !in db'.events && b in db'.events && b != e.eventId ::
          GivenUpBefore(db.events[a], db.events[b]))
    && (if e.eventId in db'.events && e.eventId !in db.events
        then db'.nextSeqNo == db.nextSeqNo + 1 && db'.events[e.eventId] == FreshRow(db, e)
        else db'.nextSeqNo == db.nextSeqNo)
  }

  lemma PruneThenInsert(db: Db, swept: Db, e: CanonicalEvent, db': Db)
    requires !Present(db, e.eventId)
    requires PrunedFrom(db.events, swept.events) && SameBeside(db, swept)
    requires db' == swept || (db'.events == swept.events[e.eventId := FreshRow(swept, e)]
                              && db' == swept.(events := db'.events, nextSeqNo := swept.nextSeqNo + 1))
    ensures StoreWrites(db, e, db') && db'.dlq == db.dlq
  {
  }

  lemma StoreNew(db: Db, quota: int, e: CanonicalEvent, env: StoreEnv)
    requires Inv(db) && !Present(db, e.eventId)
    ensures var s := EnforceQuota(db, e.severity, env.jsonLength + 1024, quota, env.disk);
            var r := Insert(s.db, e, env, s.uncounted);
            && Inv(s.db) && StoreWrites(db, e, s.db) && s.db.dlq == db.dlq
            && Inv(r.db) && StoreWrites(db, e, r.db) && r.db.dlq == db.dlq
            && r.event == e.(seqNo := r.event.seqNo)
            && (r.result.Stored? ==> Held(r.db, r.event))
            && e.eventId !in s.db.events
            && (r.result.FailedBeforeCommit? ==> r.db == s.db)
  {
    hide EnforceQuota, Insert, Inv;
    var s := EnforceQuota(db, e.severity, env.jsonLength + 1024, quota, env.disk);
    QuotaSpec(db, e.severity, env.jsonLength + 1024, quota, env.disk, Debug);
    QuotaKeepsInv(db, e.severity, env.jsonLength + 1024, quota, env.disk);
    InsertSpec(s.db, e, env, s.uncounted);
    PruneThenInsert(db, s.db, e, s.db);
    PruneThenInsert(db, s.db, e, Insert(s.db, e, env, s.uncounted).db);
  }

  /** What one call of Store does, whatever fails in it. */
  lemma StoreSpec(db: Db, quota: int, e: CanonicalEvent, env: StoreEnv)
    requires Inv(db)
    ensures var r := Store(db, quota, e, env);
            && Inv(r.db)
            && r.db.dlq == db.dlq
            && r.event == e.(seqNo := r.event.seqNo)
            && (r.result.Stored? ==> Held(r.db, r.event))
            && (Present(db, e.eventId) ==> r.db == db && !r.result.Uncertain?)
            && (e.eventId == NO_ID ==> r.db == db && r.result.FailedBeforeCommit?)
            && (r.result.FailedBeforeCommit? ==> (e.eventId in r.db.events <==> e.eventId in db.events))
            && StoreWrites(db, e, r.db)
  {
    hide EnforceQuota, Insert, Inv;
    assert StoreWrites(db, e, db);
    hide StoreWrites;
    if !Present(db, e.eventId) {
      StoreNew(db, quota, e, env);
    }
  }

  /** The number of the row, live or dead, that an id present in the tables has. */
  function Number(db: Db, id: EventId): int
    requires Present(db, id)
  {
    if id in db.events then db.events[id].seqNo else db.dlq[id].seqNo
  }

  /** For an id already present, Store answers from the tables alone: it succeeds exactly when no lookup
      fails and the text matches, and it never touches the database, so nothing is pruned for a retry. */
  lemma RestoreIsNoop(db: Db, quota: int, e: CanonicalEvent, env: StoreEnv)
    requires Inv(db) && Present(db, e.eventId)
    ensures var r := Store(db, quota, e, env);
            && r.db == db && r.uncounted == 0
            && (r.result.Stored? <==>
                  && e.eventId != NO_ID
                  && env.lookupEvents.None?
                  && (e.eventId in db.dlq ==> env.lookupDlq.None?)
                  && Held(db, e.(seqNo := Number(db, e.eventId))))
  {
    hide EnforceQuota, Insert;
  }

  /** The first cause there is. */
  function First(a: Option<Cause>, b: Option<Cause>, c: Option<Cause>, d: Option<Cause>): Option<Cause> {
    if a.Some? then a else if b.Some? then b else if c.Some? then c else d
  }

  function If(condition: bool, cause: Cause): Option<Cause> {
    if condition then Some(cause) else None
  }

  /** Why the quota keeps an event out, if it does. */
  function Refusal(result: QuotaResult): Option<Cause> {
    match result
    case Fits => None
    case Refused(c) => Some(c)
    case Exhausted => Some(StorageEmergency)
  }

  /** The answer for a present id names what stood in the way first: no id, a failing lookup, another text. */
  lemma RestoreAnswers(db: Db, quota: int, e: CanonicalEvent, env: StoreEnv)
    requires Inv(db) && Present(db, e.eventId)
    ensures var numbered := e.(seqNo := Number(db, e.eventId));
            var dead := e.eventId in db.dlq;
            var payload := if dead then db.dlq[e.eventId].payload else db.events[e.eventId].payload;
            var cause := First(If(e.eventId == NO_ID, EmptyId), env.lookupEvents,
                               if dead then env.lookupDlq else None, If(payload != Text(numbered), Integrity));
            var r := Store(db, quota, e, env);
            r.result == if cause.Some? then FailedBeforeCommit(cause.value) else Stored
  {
    hide EnforceQuota, Insert;
  }

  /** The answer for a new id names what stood in the way first, in the order of the steps: a missing id, the
      lookups, the quota for the event's JSON and a kilobyte of overhead, the transaction, the serialization, the
      statements. Without such a cause the commit decides. The row is there exactly if no cause was met and the
      commit took effect. */
  lemma StoreAnswers(db: Db, quota: int, e: CanonicalEvent, env: StoreEnv)
    requires Inv(db) && !Present(db, e.eventId)
    ensures var s := EnforceQuota(db, e.severity, env.jsonLength + 1024, quota, env.disk);
            var early := First(If(e.eventId == NO_ID, EmptyId), env.lookupEvents, env.lookupDlq, None);
            var late := First(Refusal(s.result), env.begin, If(!Encodable(e), Encoding), env.write);
            var r := Store(db, quota, e, env);
            && r.result == (if early.Some? then FailedBeforeCommit(early.value)
                            else if late.Some? then FailedBeforeCommit(late.value)
                            else if env.commit.Committed? then Stored
                            else Uncertain(env.commit.cause))
            && (early.Some? ==> r.db == db)
            && r.event == (if early.None? && Refusal(s.result).None? && env.begin.None?
                           then e.(seqNo := db.nextSeqNo) else e)
            && (e.eventId in r.db.events <==> early.None? && late.None? && !env.commit.RolledBack?)
            && (env.disk(0).size.Some? && env.disk(0).size.value + env.jsonLength + 1024 < quota ==>
                  r.db == if e.eventId in r.db.events
                          then db.(events := db.events[e.eventId := FreshRow(db, e)], nextSeqNo := db.nextSeqNo + 1)
                          else db)
  {
    hide EnforceQuota, Insert, Inv, FreshRow, StoreWrites;
    var s := EnforceQuota(db, e.severity, env.jsonLength + 1024, quota, env.disk);
    StoreNew(db, quota, e, env);
    InsertAnswers(s.db, e, env, s.uncounted);
    QuotaSpec(db, e.severity, env.jsonLength + 1024, quota, env.disk, Debug);
  }

  lemma InsertAnswers(db: Db, e: CanonicalEvent, env: StoreEnv, uncounted: nat)
    requires Inv(db) && e.eventId !in db.events
    ensures var cause := First(env.begin, If(!Encodable(e), Encoding), env.write, None);
            var r := Insert(db, e, env, uncounted);
            && r.result == (if cause.Some? then FailedBeforeCommit(cause.value)
                            else if env.commit.Committed? then Stored else Uncertain(env.commit.cause))
            && r.event == (if env.begin.None? then e.(seqNo := db.nextSeqNo) else e)
            && r.db == if cause.None? && !env.commit.RolledBack?
                       then db.(events := db.events[e.eventId := FreshRow(db, e)], nextSeqNo := db.nextSeqNo + 1)
                       else db
  {
  }

  // ----- Dead-lettering, removal, retry -----

  /** From db to db' rows may have moved to the dead-letter queue, only rows of ids in s, and nothing else. */
  ghost predicate MovesOnly(db: Db, db': Db, s: set<EventId>) {
    && db'.nextSeqNo == db.nextSeqNo && db'.dropped == db.dropped
    && db'.events.Keys <= db.events.Keys
    && (forall id | id in db'.events :: db'.events[id] == db.events[id])
    && (forall id | id in db.events && id !in db'.events :: id in s && id in db'.dlq)
    && (forall id | id in db.dlq :: id in db'.dlq && db'.dlq[id] == db.dlq[id])
    && (forall id | id in db'.dlq && id !in db.dlq :: id in s)
  }

  lemma MovesTransitive(a: Db, b: Db, c: Db, s: set<EventId>)
    requires MovesOnly(a, b, s) && MovesOnly(b, c, s)
    ensures MovesOnly(a, c, s)
  {
  }

  /** A move is all or nothing: it reports success exactly when the id ends up in the dead-letter queue
      only, under the given text, by a commit that was reported; a conflicting dead row blocks it. */
  lemma MoveRawSpec(db: Db, id: EventId, seqNo: int, payload: Payload, failure: Failure, env: TxEnv)
    requires Inv(db) && (payload.Json? ==> payload.event.eventId == id)
    ensures var r := MoveRaw(db, id, seqNo, payload, failure, env);
            && Inv(r.db)
            && MovesOnly(db, r.db, {id})
            && (r.db == db || (id !in r.db.events && id in r.db.dlq && r.db.dlq[id].payload == payload))
            && (r.ok ==> id !in r.db.events && id in r.db.dlq && r.db.dlq[id].payload == payload)
            && (r.ok <==> !env.fails && env.commit.Committed? && (id in db.dlq ==> db.dlq[id].payload == payload))
            && (id in r.db.dlq && id !in db.dlq ==> r.db.dlq[id] == DeadRow(seqNo, payload, failure))
  {
  }

  /** The move as the two tables show it: both change or neither does, reported or not. */
  lemma MoveRawDecides(db: Db, id: EventId, seqNo: int, payload: Payload, failure: Failure, env: TxEnv)
    ensures var d := MoveRaw(db, id, seqNo, payload, failure, env).db;
            if !env.fails && !env.commit.RolledBack? && (id in db.dlq ==> db.dlq[id].payload == payload) then
              && d.events == db.events - {id}
              && d.dlq == (if id in db.dlq then db.dlq else db.dlq[id := DeadRow(seqNo, payload, failure)])
              && d == db.(events := d.events, dlq := d.dlq)
            else d == db
  {
  }

  lemma MoveToDLQSpec(db: Db, e: CanonicalEvent, failure: Failure, env: TxEnv)
    requires Inv(db)
    ensures var r := MoveToDLQ(db, e, failure, env);
            && Inv(r.db)
            && MovesOnly(db, r.db, {e.eventId})
            && (r.ok ==> Encodable(e) && e.eventId !in r.db.events && Held(r.db, e))
            && (forall id | id in r.db.dlq && id !in db.dlq :: r.db.dlq[id].payload == Json(e))
            && (r.ok <==> Encodable(e) && !env.fails && env.commit.Committed?
                          && (e.eventId in db.dlq ==> db.dlq[e.eventId].payload == Json(e)))
  {
    hide Inv;
    if Encodable(e) {
      MoveRawSpec(db, e.eventId, e.seqNo, Json(e), failure, env);
    } else {
      assert MovesOnly(db, db, {e.eventId});
    }
  }

  lemma RemoveSpec(db: Db, id: EventId, env: TxEnv)
    requires Inv(db)
    ensures var r := RemoveEvent(db, id, env);
            && Inv(r.db)
            && r.db == db.(events := r.db.events)
            && r.db.events == (if env.fails || env.commit.RolledBack? then db.events else db.events - {id})
            && (r.ok <==> !env.fails && env.commit.Committed?)
  {
  }

  lemma {:induction false} Pow2Bounds(n: nat)
    ensures 1 <= Pow2(n)
    ensures 1 <= n ==> 2 <= Pow2(n)
    ensures n <= 9 ==> Pow2(n) <= 512
  {
    if n > 0 {
      Pow2Bounds(n - 1);
      PowSmall(n);
    }
  }

  lemma PowSmall(n: nat)
    ensures n <= 9 ==> Pow2(n) <= 512
  {
    if n <= 9 {
      assert Pow2(3) == 8 && Pow2(6) == 8 * Pow2(3) && Pow2(9) == 8 * Pow2(6);
    }
  }

  /** The wait before the next attempt lies between 10 seconds and an hour and nine seconds, or, when the
      server names a wait, between one second and a day, never longer than asked for. */
  lemma DelayBounds(attempts: nat, retryAfter: int, jitter: nat)
    requires 1 <= attempts && jitter <= 9
    ensures var d := Delay(attempts, retryAfter, jitter);
            if retryAfter > 0 then 1 <= d <= 86400 && d <= retryAfter else 10 <= d <= 3609
  {
    Pow2Bounds(attempts);
  }

  /** The wait without a wait named by the server, before jitter: it doubles from ten seconds until the cap of an
      hour takes over at the tenth failure. A wait the server names is cut to a day and gets no jitter. */
  lemma DelayExactly(attempts: nat, retryAfter: int, jitter: nat)
    requires 1 <= attempts
    ensures retryAfter > 0 ==> Delay(attempts, retryAfter, jitter) == if retryAfter <= 86400 then retryAfter else 86400
    ensures retryAfter <= 0 ==>
              Delay(attempts, retryAfter, jitter)
              == (if attempts <= 9 then [10, 20, 40, 80, 160, 320, 640, 1280, 2560][attempts - 1] else 3600) + jitter
  {
    assert Pow2(1) == 2 && Pow2(2) == 4 && Pow2(3) == 8;
    assert Pow2(4) == 16 && Pow2(5) == 32 && Pow2(6) == 64;
    assert Pow2(7) == 128 && Pow2(8) == 256 && Pow2(9) == 512;
  }

  /** A failure only counts the attempt and postpones the row: no row is lost, moved or rewritten. */
  lemma MarkFailedSpec(db: Db, id: EventId, retryAfter: int, now: Time, nanos: nat, fate: Fate)
    requires Inv(db)
    ensures var r := MarkFailed(db, id, retryAfter, now, nanos, fate);
            && Inv(r.db)
            && (r.ok <==> id in db.events && fate.Landed?)
            && (r.db != db <==> id in db.events && !fate.NotLanded?)
            && r.db == db.(events := r.db.events)
            && r.db.events.Keys == db.events.Keys
            && (forall x | x in db.events && x != id :: r.db.events[x] == db.events[x])
            && (r.db != db ==>
                  var row := r.db.events[id];
                  && row == db.events[id].(attempts := db.events[id].attempts + 1, nextAttempt := row.nextAttempt)
                  && row.nextAttempt.Some?
                  && now + 1 <= row.nextAttempt.value <= now + 86400)
  {
    if id in db.events && !fate.NotLanded? {
      DelayBounds(db.events[id].attempts + 1, retryAfter, nanos % 10);
    }
  }

  // ----- GetPendingEvents -----

  /** Each event of r is the payload of a row of ids, and each JSON payload of ids is in r. */
  ghost predicate DecodedRows(t: Table, ids: seq<EventId>, r: seq<CanonicalEvent>)
    requires forall id | id in ids :: id in t
  {
    && (forall e | e in r :: e.eventId in ids && t[e.eventId].payload == Json(e))
    && (forall id | id in ids && t[id].payload.Json? :: t[id].payload.event in r)
  }

  lemma {:induction false} DecodedSpec(db: Db, ids: seq<EventId>)
    requires Inv(db)
    requires forall id | id in ids :: id in db.events
    requires Ascending(db.events, ids)
    ensures var r := Decoded(db.events, ids);
            && |r| <= |ids|
            && DecodedRows(db.events, ids, r)
            && (forall i, j | 0 <= i < j < |r| :: r[i].seqNo < r[j].seqNo)
  {
    if ids != [] {
      var t, n := db.events, |ids| - 1;
      DecodedSpec(db, ids[..n]);
      DecodedStep(db, ids[..n], ids[n], Decoded(t, ids[..n]));
      assert ids == ids[..n] + [ids[n]];
    }
  }

  lemma DecodedStep(db: Db, init: seq<EventId>, last: EventId, r: seq<CanonicalEvent>)
    requires Inv(db) && last in db.events
    requires forall id | id in init :: id in db.events && db.events[id].seqNo < db.events[last].seqNo
    requires DecodedRows(db.events, init, r)
    requires forall i, j | 0 <= i < j < |r| :: r[i].seqNo < r[j].seqNo
    ensures match Deserialize(db.events[last].payload)
            case None => DecodedRows(db.events, init + [last], r)
            case Some(e) =>
              && DecodedRows(db.events, init + [last], r + [e])
              && (forall i, j | 0 <= i < j < |r + [e]| :: (r + [e])[i].seqNo < (r + [e])[j].seqNo)
  {
    assert RowFits(last, db.events[last], db.nextSeqNo);
    forall e | e in r ensures e.seqNo < db.events[last].seqNo {
      assert RowFits(e.eventId, db.events[e.eventId], db.nextSeqNo);
    }
  }

  lemma {:induction false} MoveAllSpec(db: Db, t: Table, ids: seq<EventId>, envs: nat -> TxEnv, k: nat)
    requires k <= |ids| && Inv(db)
    requires forall id | id in ids :: id in t && t[id].payload.Raw?
    ensures var r := MoveAll(db, t, ids, envs, k);
            && Inv(r.db)
            && MovesOnly(db, r.db, IdSet(ids))
            && (r.ok ==> forall i | k <= i < |ids| :: ids[i] !in r.db.events)
    decreases |ids| - k
  {
    hide Inv, MoveRaw;
    if k < |ids| {
      var moved := MoveRaw(db, ids[k], t[ids[k]].seqNo, t[ids[k]].payload, LocalDeserialization, envs(k));
      MoveRawSpec(db, ids[k], t[ids[k]].seqNo, t[ids[k]].payload, LocalDeserialization, envs(k));
      assert MovesOnly(db, moved.db, IdSet(ids));
      if moved.ok {
        MoveAllSpec(moved.db, t, ids, envs, k + 1);
        MovesTransitive(db, moved.db, MoveAll(moved.db, t, ids, envs, k + 1).db, IdSet(ids));
      }
    }
  }

  /** A fetch hands out the oldest rows that are due, in ascending order of sequence number, each decoded
      from its own row and still present; rows that do not decode go to the dead-letter queue, and a fetch
      whose moves fail hands out nothing. No id leaves both tables. */
  lemma FetchSpec(db: Db, now: Time, limit: nat, env: FetchEnv)
    requires Inv(db)
    ensures var r := GetPendingEvents(db, now, limit, env);
            && Inv(r.db)
            && MovesOnly(db, r.db, set id | id in db.events && db.events[id].payload.Raw?)
            && (r.events.Some? ==>
                  var es := r.events.value;
                  && |es| <= limit
                  && (forall i, j | 0 <= i < j < |es| :: es[i].seqNo < es[j].seqNo)
                  && (forall e | e in es ::
                        e.eventId in Eligible(db.events, now) && db.events[e.eventId].payload == Json(e)
                        && e.eventId in r.db.events)
                  && (forall id, e | id in Eligible(db.events, now) && db.events[id].payload.Json?
                                     && e in es && db.events[id].payload.event !in es ::
                        e.seqNo < db.events[id].seqNo)
                  && (forall id | id in Eligible(db.events, now) && db.events[id].payload.Json?
                                  && |Eligible(db.events, now)| <= limit ::
                        db.events[id].payload.event in es))
  {
    hide Oldest, Inv, MoveAll;
    if !env.queryFails {
      var c := Eligible(db.events, now);
      var ids := Oldest(db.events, c, limit);
      var raw := Corrupt(db.events, ids);
      MoveAllSpec(db, db.events, raw, env.moves, 0);
      DecodedSpec(db, ids);
      PayloadNumbers(db);
      if |c| <= limit { AllTaken(db.events, c, ids); }
    }
  }

  lemma PayloadNumbers(db: Db)
    requires Inv(db)
    ensures forall id | id in db.events && db.events[id].payload.Json? ::
              db.events[id].payload.event.seqNo == db.events[id].seqNo
  {
  }

  lemma AllTaken(t: Table, c: set<EventId>, ids: seq<EventId>)
    requires c <= t.Keys && (forall id | id in ids :: id in c) && Ascending(t, ids) && |ids| == |c|
    ensures forall id | id in c :: id in ids
  {
    DistinctSize(ids);
    assert IdSet(ids) <= c;
    if exists id :: id in c && id !in ids {
      var id :| id in c && id !in ids;
      SubsetSize(IdSet(ids), c - {id});
    }
  }

  ghost predicate Distinct(ids: seq<EventId>) {
    forall i, j | 0 <= i < j < |ids| :: ids[i] != ids[j]
  }

  lemma AscendingIsDistinct(t: Table, ids: seq<EventId>)
    requires (forall id | id in ids :: id in t) && Ascending(t, ids)
    ensures Distinct(ids)
  {
  }

  /** The moves stop at the first one that is not reported, and each row moved keeps its number and text and is
      marked as undecodable. */
  lemma {:induction false} MoveAllExactly(db: Db, t: Table, ids: seq<EventId>, envs: nat -> TxEnv, k: nat)
    requires k <= |ids| && Inv(db)
    requires forall id | id in ids :: id in t && t[id].payload.Raw?
    requires Distinct(ids) && forall i | k <= i < |ids| :: ids[i] !in db.dlq
    ensures var r := MoveAll(db, t, ids, envs, k);
            && (r.ok <==> forall i | k <= i < |ids| :: !envs(i).fails && envs(i).commit.Committed?)
            && (forall id | id in r.db.dlq && id !in db.dlq ::
                  id in ids && r.db.dlq[id] == DeadRow(t[id].seqNo, t[id].payload, LocalDeserialization))
            && (r.ok ==> forall i | k <= i < |ids| :: ids[i] in r.db.dlq)
    decreases |ids| - k
  {
    hide Inv, MoveRaw;
    if k < |ids| {
      var moved := MoveRaw(db, ids[k], t[ids[k]].seqNo, t[ids[k]].payload, LocalDeserialization, envs(k));
      MoveRawSpec(db, ids[k], t[ids[k]].seqNo, t[ids[k]].payload, LocalDeserialization, envs(k));
      if moved.ok {
        MoveAllExactly(moved.db, t, ids, envs, k + 1);
        MoveAllSpec(moved.db, t, ids, envs, k + 1);
      }
    }
  }

  /** The rows that do not decode, of a list without repetitions. */
  lemma {:induction false} CorruptExactly(t: Table, ids: seq<EventId>)
    requires (forall id | id in ids :: id in t) && Distinct(ids)
    ensures var r := Corrupt(t, ids);
            (forall id :: id in r <==> id in ids && t[id].payload.Raw?) && Distinct(r)
  {
    if ids != [] {
      var n := |ids| - 1;
      CorruptExactly(t, ids[..n]);
      assert ids == ids[..n] + [ids[n]];
      assert ids[n] !in ids[..n];
      var init := Corrupt(t, ids[..n]);
      assert forall i | 0 <= i < |init| :: init[i] in init;
    }
  }

  /** A row is due when no attempt has failed or its wait is over. */
  predicate Due(row: Row, now: Time) {
    match row.nextAttempt
    case None => true
    case Some(t) => t <= now
  }

  /** A fetch answers with events exactly if its query and all its moves work, and whatever it moves was due and
      undecodable and keeps its number and text. */
  lemma FetchAnswers(db: Db, now: Time, limit: nat, env: FetchEnv)
    requires Inv(db)
    ensures var r := GetPendingEvents(db, now, limit, env);
            var moves := |Corrupt(db.events, Oldest(db.events, Eligible(db.events, now), limit))|;
            && (r.events.Some? <==>
                  !env.queryFails
                  && forall i | 0 <= i < moves :: !env.moves(i).fails && env.moves(i).commit.Committed?)
            && (forall id | id in r.db.dlq && id !in db.dlq ::
                  && id in db.events && Due(db.events[id], now) && db.events[id].payload.Raw?
                  && r.db.dlq[id] == DeadRow(db.events[id].seqNo, db.events[id].payload, LocalDeserialization))
  {
    hide Oldest, Inv, MoveAll, GetPendingEvents, Eligible, Corrupt, Due;
    DueExactly(db.events, now);
    var ids := Oldest(db.events, Eligible(db.events, now), limit);
    var raw := Corrupt(db.events, ids);
    AscendingIsDistinct(db.events, ids);
    CorruptExactly(db.events, ids);
    Apart(db);
    MoveAllExactly(db, db.events, raw, env.moves, 0);
    FetchUnfolds(db, now, limit, env);
  }

  /** What a fetch hands out is due, and within the limit it hands out every due row, or dead-letters it if it does
      not decode. */
  lemma FetchTakesDue(db: Db, now: Time, limit: nat, env: FetchEnv)
    requires Inv(db) && GetPendingEvents(db, now, limit, env).events.Some?
    ensures var r := GetPendingEvents(db, now, limit, env);
            && (forall e | e in r.events.value :: e.eventId in db.events && Due(db.events[e.eventId], now))
            && (|db.events| <= limit ==>
                  forall id | id in db.events && Due(db.events[id], now) ::
                    match db.events[id].payload
                    case Json(e) => e in r.events.value
                    case Raw(_) => id in r.db.dlq && id !in r.db.events)
  {
    hide Oldest, Inv, MoveAll, GetPendingEvents, Eligible, Corrupt, Due;
    DueExactly(db.events, now);
    FetchSpec(db, now, limit, env);
    if |db.events| <= limit { RawDueMoved(db, now, limit, env); }
  }

  lemma RawDueMoved(db: Db, now: Time, limit: nat, env: FetchEnv)
    requires Inv(db) && GetPendingEvents(db, now, limit, env).events.Some? && |db.events| <= limit
    ensures var d := GetPendingEvents(db, now, limit, env).db;
            forall id | id in Eligible(db.events, now) && db.events[id].payload.Raw? ::
              id in d.dlq && id !in d.events
  {
    hide Oldest, Inv, MoveAll, GetPendingEvents, Eligible, Corrupt;
    DueExactly(db.events, now);
    var c := Eligible(db.events, now);
    var ids := Oldest(db.events, c, limit);
    var raw := Corrupt(db.events, ids);
    AllTaken(db.events, c, ids);
    AscendingIsDistinct(db.events, ids);
    CorruptExactly(db.events, ids);
    Apart(db);
    MoveAllExactly(db, db.events, raw, env.moves, 0);
    MoveAllSpec(db, db.events, raw, env.moves, 0);
    FetchUnfolds(db, now, limit, env);
  }

  lemma DueExactly(t: Table, now: Time)
    ensures forall id :: id in Eligible(t, now) <==> id in t && Due(t[id], now)
    ensures Eligible(t, now) <= t.Keys && |Eligible(t, now)| <= |t|
  {
    SubsetSize(Eligible(t, now), t.Keys);
  }

  lemma Apart(db: Db)
    requires Inv(db)
    ensures forall id | id in db.events :: id !in db.dlq
  {
  }

  lemma FetchUnfolds(db: Db, now: Time, limit: nat, env: FetchEnv)
    ensures var raw := Corrupt(db.events, Oldest(db.events, Eligible(db.events, now), limit));
            var r := GetPendingEvents(db, now, limit, env);
            if env.queryFails then r == Fetched(db, None)
            else
              var moved := MoveAll(db, db.events, raw, env.moves, 0);
              r.db == moved.db && (r.events.Some? <==> moved.ok)
  {
    hide Oldest, MoveAll, Corrupt, Decoded;
  }

  /** A failed event is held back for exactly its wait: no fetch hands it out before, and from then on every fetch
      that works and has room does. */
  lemma HeldBackForTheWait(db: Db, id: EventId, retryAfter: int, at: Time, nanos: nat, fate: Fate, now: Time,
                           limit: nat, env: FetchEnv)
    requires Inv(db) && id in db.events && db.events[id].payload.Json? && !fate.NotLanded?
    ensures 0 <= db.events[id].attempts
    ensures var r := GetPendingEvents(MarkFailed(db, id, retryAfter, at, nanos, fate).db, now, limit, env);
            var until := at + Delay(db.events[id].attempts + 1, retryAfter, nanos % 10);
            r.events.Some? ==>
              && (now < until ==> forall e | e in r.events.value :: e.eventId != id)
              && (until <= now && |db.events| <= limit ==> db.events[id].payload.event in r.events.value)
  {
    hide GetPendingEvents, Oldest, Eligible, Corrupt, Delay;
    assert RowFits(id, db.events[id], db.nextSeqNo);
    var db' := MarkFailed(db, id, retryAfter, at, nanos, fate).db;
    MarkFailedSpec(db, id, retryAfter, at, nanos, fate);
    assert |db'.events| == |db'.events.Keys| == |db.events.Keys| == |db.events|;
    if GetPendingEvents(db', now, limit, env).events.Some? { FetchTakesDue(db', now, limit, env); }
  }
}

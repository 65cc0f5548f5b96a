/** The agent's store in its own form: one object whose methods update its tables and counters step by
    step. Each method is proved to do to the fields exactly what the function of module Storage says. */
module SQLite {
  import opened Wrappers
  import opened Events
  import opened Storage

  /** The sweep's next round, spelled out. */
  lemma SweepUnfolds(db: Db, i: nat, incoming: Severity, estimate: int, quota: int, disk: Disk, k: nat)
    requires i < |PRUNABLE|
    ensures var s := Sweep(db, i, incoming, estimate, quota, disk, k);
            var ids := Batch(db.events, PRUNABLE[i]);
            var rest := Without(db.events, IdSet(ids));
            if SizeOrZero(disk(k)) + estimate < LowWater(quota) then s == Swept(db, Fits, 0)
            else if disk(k).fault.StatementFails? then s == Swept(db, Refused(disk(k).fault.cause), 0)
            else if ids == [] then s == Sweep(db, i + 1, incoming, estimate, quota, disk, k + 1)
            else && |rest| < |db.events|
                 && if disk(k).fault.CounterFails?
                    then s == Swept(db.(events := rest), Refused(disk(k).fault.cause), |ids|)
                    else if disk(k).fault.CounterUnreported?
                    then s == Swept(db.(events := rest, dropped := CountDropped(db.dropped, PRUNABLE[i], |ids|),
                                        pressure := Pruning),
                                    Refused(disk(k).fault.cause), 0)
                    else s == Sweep(db.(events := rest, dropped := CountDropped(db.dropped, PRUNABLE[i], |ids|),
                                        pressure := Pruning),
                                    i, incoming, estimate, quota, disk, k + 1)
  {
    hide Oldest, OfClass;
    var ids := Batch(db.events, PRUNABLE[i]);
    if ids != [] {
      FewerRows(db.events, IdSet(ids), ids[0]);
    }
  }

  lemma SweepSettles(db: Db, incoming: Severity, estimate: int, quota: int, disk: Disk, k: nat)
    ensures Sweep(db, |PRUNABLE|, incoming, estimate, quota, disk, k) == Settle(db, incoming, estimate, quota, disk(k))
  {
  }

  class SQLiteStorage {
    const quotaBytes: int
    var events: Table
    var dlq: map<EventId, DeadRow>
    var nextSeqNo: int
    var dropped: Dropped
    var pressure: Pressure

    function Contents(): Db
      reads this
    {
      Db(events, dlq, nextSeqNo, dropped, pressure)
    }

    constructor (quotaBytes: int)
      ensures this.quotaBytes == quotaBytes && Contents() == EMPTY_DB
    {
      this.quotaBytes := quotaBytes;
      events, dlq, nextSeqNo := map[], map[], 1;
      dropped, pressure := Dropped(0, 0, 0, 0), Unset;
    }

    method EnforceQuota(incoming: Severity, estimate: int, disk: Disk) returns (result: QuotaResult)
      modifies this
      ensures var s := Storage.EnforceQuota(old(Contents()), incoming, estimate, quotaBytes, disk);
              Contents() == s.db && result == s.result
    {
      hide Batch, Sweep, PruneRound, Settle, CountDropped;
      if disk(0).size.None? {
        return Refused(Io);
      }
      if disk(0).size.value + estimate < quotaBytes {
        return Fits;
      }
      var k := 1;
      ghost var goal := Sweep(Contents(), 0, incoming, estimate, quotaBytes, disk, 1);
      for i := 0 to |PRUNABLE|
        invariant goal == Sweep(Contents(), i, incoming, estimate, quotaBytes, disk, k)
      {
        while true
          invariant goal == Sweep(Contents(), i, incoming, estimate, quotaBytes, disk, k)
          decreases |events|
        {
          SweepUnfolds(Contents(), i, incoming, estimate, quotaBytes, disk, k);
          var reading := disk(k);
          if SizeOrZero(reading) + estimate < LowWater(quotaBytes) {
            return Fits;
          }
          if reading.fault.StatementFails? {
            return Refused(reading.fault.cause);
          }
          var ids := Batch(events, PRUNABLE[i]);
          if ids == [] {
            k := k + 1;
            break;
          }
          events := Without(events, IdSet(ids));
          if reading.fault.CounterFails? {
            return Refused(reading.fault.cause);
          }
          dropped := CountDropped(dropped, PRUNABLE[i], |ids|);
          pressure := Pruning;
          if reading.fault.CounterUnreported? {
            return Refused(reading.fault.cause);
          }
          k := k + 1;
        }
      }
      SweepSettles(Contents(), incoming, estimate, quotaBytes, disk, k);
      result := SettlePressure(incoming, estimate, disk(k));
    }

    method SettlePressure(incoming: Severity, estimate: int, last: Probe) returns (result: QuotaResult)
      modifies this
      ensures var s := Settle(old(Contents()), incoming, estimate, quotaBytes, last);
              Contents() == s.db && result == s.result
    {
      if last.fault.StatementFails? {
        return Refused(last.fault.cause);
      }
      if SizeOrZero(last) + estimate >= quotaBytes {
        pressure := Emergency;
        if last.fault.CounterUnreported? {
          return Refused(last.fault.cause);
        }
        return if incoming == Critical || incoming == Fatal then Fits else Exhausted;
      }
      // UPDATE ... WHERE storage_pressure_state != 'OK' matches no row while the column is NULL.
      if !pressure.Unset? {
        pressure := Ok;
      }
      if last.fault.CounterUnreported? {
        return Refused(last.fault.cause);
      }
      return Fits;
    }

    method Store(e: CanonicalEvent, env: StoreEnv) returns (e': CanonicalEvent, result: StoreResult)
      modifies this
      ensures var r := Storage.Store(old(Contents()), quotaBytes, e, env);
              Contents() == r.db && e' == r.event && result == r.result
    {
      e' := e;
      if e.eventId == NO_ID {
        return e', FailedBeforeCommit(EmptyId);
      }
      // Idempotency before quota: a retry must not prune other telemetry.
      if env.lookupEvents.Some? {
        return e', FailedBeforeCommit(env.lookupEvents.value);
      }
      if e.eventId in events {
        e' := e.(seqNo := events[e.eventId].seqNo);
        return e', if events[e.eventId].payload == Text(e') then Stored else FailedBeforeCommit(Integrity);
      }
      if env.lookupDlq.Some? {
        return e', FailedBeforeCommit(env.lookupDlq.value);
      }
      if e.eventId in dlq {
        e' := e.(seqNo := dlq[e.eventId].seqNo);
        return e', if dlq[e.eventId].payload == Text(e') then Stored else FailedBeforeCommit(Integrity);
      }
      var room := EnforceQuota(e.severity, env.jsonLength + 1024, env.disk);
      match room {
        case Refused(c) => return e', FailedBeforeCommit(c);
        case Exhausted => return e', FailedBeforeCommit(StorageEmergency);
        case Fits =>
      }
      if env.begin.Some? {
        return e', FailedBeforeCommit(env.begin.value);
      }
      if e.eventId in events {
        return e', Stored;
      }
      e' := e.(seqNo := nextSeqNo);
      var payload := Serialize(e');
      if payload.None? {
        return e', FailedBeforeCommit(Encoding);
      }
      if env.write.Some? {
        return e', FailedBeforeCommit(env.write.value);
      }
      if exists id | id in events :: events[id].seqNo == nextSeqNo {
        return e', FailedBeforeCommit(Constraint);
      }
      var row := Row(nextSeqNo, e.severity, payload.value, 0, None);
      StillUnique(events, e.eventId, row);
      match env.commit {
        case Committed =>
          events, nextSeqNo := events[e.eventId := row], nextSeqNo + 1;
          return e', Stored;
        case RolledBack(c) =>
          return e', Uncertain(c);
        case Unreported(c) =>
          events, nextSeqNo := events[e.eventId := row], nextSeqNo + 1;
          return e', Uncertain(c);
      }
    }

    method MoveRawToDLQLocked(id: EventId, seqNo: int, payload: Payload, failure: Failure, env: TxEnv)
      returns (ok: bool)
      modifies this
      ensures var r := MoveRaw(old(Contents()), id, seqNo, payload, failure, env);
              Contents() == r.db && ok == r.ok
    {
      if env.fails {
        return false;
      }
      var newDlq := dlq;
      if id in dlq {
        if dlq[id].payload != payload {
          return false;
        }
      } else {
        newDlq := dlq[id := DeadRow(seqNo, payload, failure)];
      }
      if !env.commit.RolledBack? {
        dlq, events := newDlq, Without(events, {id});
      }
      return env.commit.Committed?;
    }

    method MoveToDLQ(e: CanonicalEvent, failure: Failure, env: TxEnv) returns (ok: bool)
      modifies this
      ensures var r := Storage.MoveToDLQ(old(Contents()), e, failure, env);
              Contents() == r.db && ok == r.ok
    {
      var payload := Serialize(e);
      if payload.None? {
        return false;
      }
      ok := MoveRawToDLQLocked(e.eventId, e.seqNo, payload.value, failure, env);
    }

    method RemoveEvent(id: EventId, env: TxEnv) returns (ok: bool)
      modifies this
      ensures var r := Storage.RemoveEvent(old(Contents()), id, env);
              Contents() == r.db && ok == r.ok
    {
      if env.fails {
        return false;
      }
      if !env.commit.RolledBack? {
        events := Without(events, {id});
      }
      return env.commit.Committed?;
    }

    method MarkFailed(id: EventId, retryAfter: int, now: Time, nanos: nat, fate: Fate) returns (ok: bool)
      modifies this
      ensures var r := Storage.MarkFailed(old(Contents()), id, retryAfter, now, nanos, fate);
              Contents() == r.db && ok == r.ok
    {
      if id !in events {
        return false;
      }
      var attempts := events[id].attempts + 1;
      if attempts < 0 {
        attempts := 1;
      }
      if fate.NotLanded? {
        return false;
      }
      var row := events[id].(attempts := attempts, nextAttempt := Some(now + Delay(attempts, retryAfter, nanos % 10)));
      StillUnique(events, id, row);
      events := events[id := row];
      return fate.Landed?;
    }

    method GetPendingEvents(now: Time, limit: nat, env: FetchEnv) returns (results: Option<seq<CanonicalEvent>>)
      modifies this
      ensures var r := Storage.GetPendingEvents(old(Contents()), now, limit, env);
              Contents() == r.db && results == r.events
    {
      hide Oldest, MoveRaw;
      if env.queryFails {
        return None;
      }
      var rows := Oldest(events, Eligible(events, now), limit);
      var decoded, corrupt := [], [];
      for i := 0 to |rows|
        invariant decoded == Decoded(events, rows[..i])
        invariant corrupt == Corrupt(events, rows[..i])
      {
        assert rows[..i + 1][..i] == rows[..i];
        match Deserialize(events[rows[i]].payload) {
          case Some(e) => decoded := decoded + [e];
          case None => corrupt := corrupt + [rows[i]];
        }
      }
      assert rows[..|rows|] == rows;
      var read := events;
      for k := 0 to |corrupt|
        invariant MoveAll(Contents(), read, corrupt, env.moves, k)
                == MoveAll(old(Contents()), read, corrupt, env.moves, 0)
      {
        var id := corrupt[k];
        var ok := MoveRawToDLQLocked(id, read[id].seqNo, read[id].payload, LocalDeserialization, env.moves(k));
        if !ok {
          return None;
        }
      }
      return Some(decoded);
    }
  }
}

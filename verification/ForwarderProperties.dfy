/** What becomes of an event that is sent, for each answer, and of every event of a batch
    (agent/internal/forwarder/forwarder.go). */
module ForwardingProperties {
  import opened Wrappers
  import opened Events
  import opened Storage
  import opened StorageProperties
  import opened Server
  import opened ServerProperties
  import opened Forwarding

  // ----- What can become of an event -----

  /** Its row is gone and nothing else changed. */
  ghost predicate Deleted(db: Db, id: EventId, db': Db) {
    db'.events == db.events - {id} && db' == db.(events := db'.events)
  }

  /** Its row is gone, the dead-letter queue has its text under the reason given, unless it had it already, and
      nothing else changed. */
  ghost predicate Buried(db: Db, e: CanonicalEvent, failure: Failure, db': Db) {
    && db'.events == db.events - {e.eventId}
    && (if e.eventId in db.dlq then db'.dlq == db.dlq && db.dlq[e.eventId].payload == Json(e)
        else db'.dlq == db.dlq[e.eventId := DeadRow(e.seqNo, Json(e), failure)])
    && db' == db.(events := db'.events, dlq := db'.dlq)
  }

  /** Its row has one attempt more and waits, and nothing else changed. */
  ghost predicate Postponed(db: Db, id: EventId, until: Time, db': Db) {
    && id in db.events
    && db'.events == db.events[id := db.events[id].(attempts := db.events[id].attempts + 1, nextAttempt := Some(until))]
    && db' == db.(events := db'.events)
  }

  /** The dead-letter queue holds another text under the id, which blocks a move. */
  predicate Blocked(db: Db, e: CanonicalEvent) {
    e.eventId in db.dlq && db.dlq[e.eventId].payload != Json(e)
  }

  /** The transaction takes effect, reported or not. */
  predicate TakesEffect(env: TxEnv) {
    !env.fails && !env.commit.RolledBack?
  }

  lemma MoveDecides(db: Db, e: CanonicalEvent, failure: Failure, env: TxEnv)
    ensures var db' := MoveToDLQ(db, e, failure, env).db;
            if Encodable(e) && TakesEffect(env) && !Blocked(db, e) then Buried(db, e, failure, db') else db' == db
  {
  }

  lemma RemoveDecides(db: Db, id: EventId, env: TxEnv)
    ensures var db' := RemoveEvent(db, id, env).db;
            if TakesEffect(env) then Deleted(db, id, db') else db' == db
  {
  }

  lemma RetryDecides(db: Db, id: EventId, retryAfter: int, now: Time, nanos: nat, fate: Fate)
    requires Inv(db)
    ensures var db' := MarkFailed(db, id, retryAfter, now, nanos, fate).db;
            if id in db.events && !fate.NotLanded?
            then Postponed(db, id, now + Delay(db.events[id].attempts + 1, retryAfter, nanos % 10), db')
            else db' == db
  {
    hide Delay;
    if id in db.events { assert RowFits(id, db.events[id], db.nextSeqNo); }
  }

  /** What one send makes of its event, by the tenant, the answer and what the statements do, for any event,
      whether its row is still there or not. Another tenant's event is buried, and so is one answered 400; a 202
      deletes the row; every other answer and every failure leaves the row for a later attempt, after the wait
      that only a 429 may name; an event that cannot be written is left alone. Nothing else in the store is
      touched. */
  lemma SendDecides(db: Db, e: CanonicalEvent, tenantId: string, x: Exchange, env: TxEnv, now: Time, nanos: nat,
                    fate: Fate)
    requires Inv(db)
    ensures var id := e.eventId;
            var db' := AfterSend(db, e, tenantId, x, env, now, nanos, fate);
            && (!Encodable(e) ==> db' == db)
            && (Encodable(e) && e.tenantId != tenantId ==>
                  if TakesEffect(env) && !Blocked(db, e) then Buried(db, e, TenantMismatch, db') else db' == db)
            && (Encodable(e) && e.tenantId == tenantId ==>
                  if x.Answered? && x.status == Accepted then
                    if TakesEffect(env) then Deleted(db, id, db') else db' == db
                  else if x.Answered? && x.status == BadRequest then
                    if TakesEffect(env) && !Blocked(db, e) then Buried(db, e, Http400, db') else db' == db
                  else if id in db.events && !fate.NotLanded? then
                    var asked := if x.Answered? && x.status == OtherStatus(429) && x.retryAfter.Some?
                                 then x.retryAfter.value else 0;
                    Postponed(db, id, now + Delay(db.events[id].attempts + 1, asked, nanos % 10), db')
                  else db' == db)
  {
    hide MoveToDLQ, RemoveEvent, MarkFailed, Delay, Inv, Encodable, Deleted, Buried, Postponed, Blocked;
    MoveDecides(db, e, TenantMismatch, env);
    MoveDecides(db, e, SerializationError, env);
    MoveDecides(db, e, Http400, env);
    RemoveDecides(db, e.eventId, env);
    RetryDecides(db, e.eventId, RetryAfterOf(x), now, nanos, fate);
  }

  /** The agent counts as online exactly after a request of its own tenant that was answered, whatever the answer,
      and as offline exactly after one that failed without being cancelled. */
  lemma NetworkExactly(net: NetworkState, e: CanonicalEvent, tenantId: string, x: Exchange)
    ensures var net' := NetworkAfter(net, e, tenantId, x);
            var sent := e.tenantId == tenantId && Encodable(e);
            && (sent && x.Answered? ==> net' == NetworkOnline)
            && (sent && x == Failed(false) ==> net' == NetworkOffline)
            && (!sent || x.NotBuilt? || x == Failed(true) ==> net' == net)
  {
    hide Encodable;
  }

  // ----- A batch -----

  /** What the two tables hold under an id. */
  function At(db: Db, id: EventId): (Option<Row>, Option<DeadRow>) {
    (if id in db.events then Some(db.events[id]) else None, if id in db.dlq then Some(db.dlq[id]) else None)
  }

  /** A send touches its own id only. */
  lemma SendTouchesOwn(db: Db, e: CanonicalEvent, tenantId: string, x: Exchange, env: TxEnv, now: Time, nanos: nat,
                       fate: Fate)
    requires Inv(db)
    ensures var db' := AfterSend(db, e, tenantId, x, env, now, nanos, fate);
            Inv(db') && forall id | id != e.eventId :: At(db', id) == At(db, id)
  {
    hide AfterSend, Delay, Inv, Encodable, Blocked;
    SendDecides(db, e, tenantId, x, env, now, nanos, fate);
    SendKeepsInv(db, e, tenantId, x, env, now, nanos, fate);
  }

  /** What a send makes of its event depends on what the tables hold under its id only. */
  lemma SendReadsOwn(db: Db, db1: Db, e: CanonicalEvent, tenantId: string, x: Exchange, env: TxEnv, now: Time,
                     nanos: nat, fate: Fate)
    requires Inv(db) && Inv(db1) && At(db1, e.eventId) == At(db, e.eventId)
    ensures At(AfterSend(db1, e, tenantId, x, env, now, nanos, fate), e.eventId)
            == At(AfterSend(db, e, tenantId, x, env, now, nanos, fate), e.eventId)
  {
    hide AfterSend, Delay, Inv, Encodable;
    SendDecides(db, e, tenantId, x, env, now, nanos, fate);
    SendDecides(db1, e, tenantId, x, env, now, nanos, fate);
  }

  lemma SendKeepsInv(db: Db, e: CanonicalEvent, tenantId: string, x: Exchange, env: TxEnv, now: Time, nanos: nat,
                     fate: Fate)
    requires Inv(db)
    ensures Inv(AfterSend(db, e, tenantId, x, env, now, nanos, fate))
  {
    hide MoveToDLQ, RemoveEvent, MarkFailed, Inv, Encodable;
    MoveToDLQSpec(db, e, TenantMismatch, env);
    MoveToDLQSpec(db, e, SerializationError, env);
    MoveToDLQSpec(db, e, Http400, env);
    RemoveSpec(db, e.eventId, env);
    MarkFailedSpec(db, e.eventId, RetryAfterOf(x), now, nanos, fate);
  }

  ghost predicate DistinctIds(es: seq<CanonicalEvent>) {
    forall i, j | 0 <= i < j < |es| :: es[i].eventId != es[j].eventId
  }

  /** In a batch every event that is sent meets the fate of its own exchange, as if it were sent alone; the events
      after the stop and everything else in the store stay as they are. */
  lemma {:induction false} BatchIsIndependent(db: Db, net: NetworkState, es: seq<CanonicalEvent>, i: nat,
                                              tenantId: string, exchanges: nat -> Exchange, envs: nat -> TxEnv,
                                              now: Time, nanos: nat, fates: nat -> Fate, stopAfter: nat)
    requires i <= |es| && Inv(db) && DistinctIds(es)
    ensures var db' := SendAll(db, net, es, i, tenantId, exchanges, envs, now, nanos, fates, stopAfter).0;
            && Inv(db')
            && (forall j | i <= j < |es| && j < stopAfter ::
                  At(db', es[j].eventId)
                  == At(AfterSend(db, es[j], tenantId, exchanges(j), envs(j), now, nanos, fates(j)), es[j].eventId))
            && (forall id | (forall j | i <= j < |es| && j < stopAfter :: es[j].eventId != id) ::
                  At(db', id) == At(db, id))
    decreases |es| - i
  {
    hide AfterSend, NetworkAfter, Inv, At;
    if i < |es| && i < stopAfter {
      var next := AfterSend(db, es[i], tenantId, exchanges(i), envs(i), now, nanos, fates(i));
      SendTouchesOwn(db, es[i], tenantId, exchanges(i), envs(i), now, nanos, fates(i));
      BatchIsIndependent(next, NetworkAfter(net, es[i], tenantId, exchanges(i)), es, i + 1, tenantId, exchanges, envs,
                         now, nanos, fates, stopAfter);
      forall j | i < j < |es| && j < stopAfter
        ensures At(AfterSend(next, es[j], tenantId, exchanges(j), envs(j), now, nanos, fates(j)), es[j].eventId)
                == At(AfterSend(db, es[j], tenantId, exchanges(j), envs(j), now, nanos, fates(j)), es[j].eventId)
      {
        SendReadsOwn(db, next, es[j], tenantId, exchanges(j), envs(j), now, nanos, fates(j));
      }
    }
  }

  lemma FetchedIdsDiffer(db: Db, es: seq<CanonicalEvent>)
    requires forall e | e in es :: e.eventId in db.events && db.events[e.eventId].payload == Json(e)
    requires forall i, j | 0 <= i < j < |es| :: es[i].seqNo < es[j].seqNo
    ensures DistinctIds(es)
  {
    forall i, j | 0 <= i < j < |es| ensures es[i].eventId != es[j].eventId {
      assert es[i] in es && es[j] in es;
    }
  }

  /** The fate of one event of a batch whose statements take effect: the answer alone decides in which table it is
      found, and what its row there says. */
  ghost predicate Settled(before: Row, e: CanonicalEvent, x: Exchange, now: Time, nanos: nat,
                          after: (Option<Row>, Option<DeadRow>))
    requires 0 <= before.attempts
  {
    if x.Answered? && x.status == Accepted then after == (None, None)
    else if x.Answered? && x.status == BadRequest then after == (None, Some(DeadRow(e.seqNo, Json(e), Http400)))
    else
      var asked := if x.Answered? && x.status == OtherStatus(429) && x.retryAfter.Some? then x.retryAfter.value else 0;
      var row := before.(attempts := before.attempts + 1,
                         nextAttempt := Some(now + Delay(before.attempts + 1, asked, nanos % 10)));
      after == (Some(row), None)
  }

  lemma SendSettles(db: Db, e: CanonicalEvent, tenantId: string, x: Exchange, env: TxEnv, now: Time, nanos: nat,
                    fate: Fate)
    requires Inv(db) && e.eventId in db.events && e.tenantId == tenantId && Encodable(e)
    requires TakesEffect(env) && !fate.NotLanded?
    ensures Settled(db.events[e.eventId], e, x, now, nanos,
                    At(AfterSend(db, e, tenantId, x, env, now, nanos, fate), e.eventId))
  {
    hide AfterSend, Delay, Encodable;
    SendDecides(db, e, tenantId, x, env, now, nanos, fate);
  }

  lemma CountsAreNatural(db: Db)
    requires Inv(db)
    ensures forall id | id in db.events :: 0 <= db.events[id].attempts
  {
  }

  /** One ProcessPending from the fetch to the last send: every event of the batch, up to the stop, that is the
      tenant's own and whose statements take effect ends as its own answer decides, and every row that was not
      sent, other than the undecodable ones the fetch moves away, is as it was. */
  lemma ProcessPendingDecides(db: Db, net: NetworkState, fetch: FetchEnv, tenantId: string,
                              exchanges: nat -> Exchange, envs: nat -> TxEnv, now: Time, nanos: nat,
                              fates: nat -> Fate, stopAfter: nat)
    requires Inv(db) && GetPendingEvents(db, now, 50, fetch).events.Some?
    ensures var r := GetPendingEvents(db, now, 50, fetch);
            var es := r.events.value;
            var db' := SendAll(r.db, net, es, 0, tenantId, exchanges, envs, now, nanos, fates, stopAfter).0;
            && (forall e | e in es :: e.eventId in db.events && db.events[e.eventId].payload == Json(e))
            && (forall j | 0 <= j < |es| && j < stopAfter && es[j].tenantId == tenantId && Encodable(es[j])
                           && TakesEffect(envs(j)) && !fates(j).NotLanded? ::
                  Settled(db.events[es[j].eventId], es[j], exchanges(j), now, nanos, At(db', es[j].eventId)))
            && (forall id | id in db.events && db.events[id].payload.Json?
                            && (forall j | 0 <= j < |es| && j < stopAfter :: es[j].eventId != id) ::
                  At(db', id) == (Some(db.events[id]), None))
  {
    hide GetPendingEvents, SendAll, AfterSend, Settled, Encodable, Inv, At;
    var r := GetPendingEvents(db, now, 50, fetch);
    var es := r.events.value;
    CountsAreNatural(db);
    FetchSpec(db, now, 50, fetch);
    FetchedIdsDiffer(db, es);
    BatchIsIndependent(r.db, net, es, 0, tenantId, exchanges, envs, now, nanos, fates, stopAfter);
    forall j | 0 <= j < |es| && j < stopAfter && es[j].tenantId == tenantId && Encodable(es[j])
               && TakesEffect(envs(j)) && !fates(j).NotLanded?
      ensures Settled(db.events[es[j].eventId], es[j], exchanges(j), now, nanos,
                      At(AfterSend(r.db, es[j], tenantId, exchanges(j), envs(j), now, nanos, fates(j)), es[j].eventId))
    {
      assert es[j] in es;
      SendSettles(r.db, es[j], tenantId, exchanges(j), envs(j), now, nanos, fates(j));
    }
    forall id | id in db.events && db.events[id].payload.Json? ensures At(r.db, id) == (Some(db.events[id]), None) {
      LeftBehind(db, r.db, id);
    }
  }

  lemma LeftBehind(db: Db, db': Db, id: EventId)
    requires Inv(db) && Inv(db') && id in db.events && db.events[id].payload.Json?
    requires MovesOnly(db, db', set id | id in db.events && db.events[id].payload.Raw?)
    ensures At(db', id) == (Some(db.events[id]), None)
  {
  }

  // ----- The answers of the handler -----

  /** An event sent to the ingest handler, with the statements on its row working: it is buried exactly if the
      schema check refuses it or no tenant is named, it is deleted exactly if its text was appended and that was
      reported, and otherwise, as on every outage of the queue, its row stays for a later attempt. */
  lemma OutagesNeverBury(db: Db, q: Queue, e: CanonicalEvent, tenantId: string, fits: bool, served: Time,
                         append: Append, header: Option<int>, env: TxEnv, now: Time, nanos: nat, fate: Fate)
    requires Inv(db) && e.eventId in db.events && e.tenantId == tenantId && Encodable(e)
    requires TakesEffect(env) && !fate.NotLanded?
    ensures var stamped := e.(receivedAt := served);
            var req := Request(true, tenantId, if fits then OneEvent(e) else TooLarge);
            var (q', status) := ServeHTTP(q, req, served, append);
            var db' := AfterSend(db, e, tenantId, Answered(status, header), env, now, nanos, fate);
            var (row, dead) := At(db', e.eventId);
            && (dead == Some(DeadRow(e.seqNo, Json(e), Http400)) <==> tenantId == "" || (fits && !Validate(stamped)))
            && (row.None? && dead.None? <==> fits && Validate(stamped) && JsonTime(served) && append.Appended?)
            && (row.None? && dead.None? ==> q'.stream == q.stream + [Entry(Text(Json(stamped)), false, false)])
            && (row.None? || dead.None?)
            && (row.Some? ==> row.value.payload == db.events[e.eventId].payload
                              && row.value.attempts == db.events[e.eventId].attempts + 1)
  {
    hide ServeHTTP, AfterSend, At, Delay, Validate, JsonTime, Inv;
    var stamped := e.(receivedAt := served);
    var req := Request(true, tenantId, if fits then OneEvent(e) else TooLarge);
    var status := ServeHTTP(q, req, served, append).1;
    HandlerAnswers(q, req, served, append);
    HandlerQueues(q, q, req, served, append);
    CountsAreNatural(db);
    NoTenantIsInvalid(stamped);
    SendSettles(db, e, tenantId, Answered(status, header), env, now, nanos, fate);
  }

  lemma NoTenantIsInvalid(e: CanonicalEvent)
    ensures Validate(e) ==> e.tenantId != "" && e.occurredAt.Some?
  {
  }
}

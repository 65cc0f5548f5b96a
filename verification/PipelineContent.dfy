/** What survives end to end is the content, not only the id, provided an id always names one event. */
module PipelineContent {
  import opened Wrappers
  import opened Events
  import opened Storage
  import opened StorageProperties
  import opened Server
  import opened Pipeline

  /** An id and the event it was issued for. */
  datatype Origin = Origin(id: EventId, event: CanonicalEvent)

  /** Everything but the fields the store and the handler set. */
  function Core(e: CanonicalEvent): CanonicalEvent {
    e.(seqNo := 0, receivedAt := 0)
  }

  /** Under the id there is only the event it was issued for. */
  predicate Genuine(o: Origin, e: CanonicalEvent) {
    e.eventId == o.id ==> Core(e) == Core(o.event)
  }

  predicate GenuineWire(d: Deployment, o: Origin, w: Wire) {
    Healthy(w) && Parse(w).0.tenantId == d.tenantId ==> Genuine(o, Parse(w).0)
  }

  /** Producers use the id for its event only, nobody forges a message of this tenant under it, and its stored
      text does not rot. What happens under other ids does not matter. */
  predicate Disciplined(d: Deployment, o: Origin, a: Action) {
    match a
    case AStore(e, _) => Genuine(o, e)
    case ARecover(e, _) => Genuine(o, e)
    case AInject(w) => GenuineWire(d, o, w)
    case ACorrupt(id, _) => id != o.id
    case _ => true
  }

  predicate GenuinePayload(o: Origin, id: EventId, p: Payload) {
    id == o.id ==> p.Json? && p.event.eventId == id && Core(p.event) == Core(o.event)
  }

  ghost predicate GenuineDb(o: Origin, db: Db) {
    && (forall id | id in db.events :: GenuinePayload(o, id, db.events[id].payload))
    && (forall id | id in db.dlq :: GenuinePayload(o, id, db.dlq[id].payload))
  }

  ghost predicate GenuineAgent(d: Deployment, o: Origin, s: Sys) {
    && GenuineDb(o, s.db)
    && (forall e | e in s.batch :: Genuine(o, e))
    && (forall e | e in s.requests :: Genuine(o, e))
  }

  ghost predicate GenuineServer(d: Deployment, o: Origin, s: Sys) {
    && (forall m | 0 <= m < |s.queue.stream| :: GenuineWire(d, o, s.queue.stream[m].wire))
    && (forall k | k in s.pg.events ::
          KeyOf(s.pg.events[k]) == k && (k.tenantId == d.tenantId ==> Genuine(o, s.pg.events[k])))
  }

  lemma StoreGenuine(o: Origin, db: Db, quota: int, e: CanonicalEvent, env: StoreEnv)
    requires Inv(db) && GenuineDb(o, db) && Genuine(o, e)
    ensures GenuineDb(o, Store(db, quota, e, env).db)
  {
    hide Store, Inv;
    StoreSpec(db, quota, e, env);
    var db' := Store(db, quota, e, env).db;
    forall id | id in db'.events ensures GenuinePayload(o, id, db'.events[id].payload) {
      if id == e.eventId && id in db.events { assert db' == db; }
    }
  }

  lemma MoveGenuine(o: Origin, db: Db, e: CanonicalEvent, f: Failure, env: TxEnv)
    requires Inv(db) && GenuineDb(o, db) && Genuine(o, e)
    ensures GenuineDb(o, MoveToDLQ(db, e, f, env).db)
  {
    hide MoveToDLQ, Inv;
    MoveToDLQSpec(db, e, f, env);
  }

  lemma RetryGenuine(o: Origin, db: Db, e: CanonicalEvent, r: RetryEnv)
    requires Inv(db) && GenuineDb(o, db)
    ensures GenuineDb(o, Retry(db, e, r))
  {
    hide MarkFailed, Inv;
    MarkFailedSpec(db, e.eventId, r.retryAfter, r.now, r.nanos, r.fate);
  }

  lemma FetchGenuine(o: Origin, db: Db, now: Time, limit: nat, env: FetchEnv)
    requires Inv(db) && GenuineDb(o, db)
    ensures var r := GetPendingEvents(db, now, limit, env);
            && GenuineDb(o, r.db)
            && (r.events.Some? ==> forall e | e in r.events.value :: Genuine(o, e))
  {
    hide GetPendingEvents, Inv;
    FetchSpec(db, now, limit, env);
  }

  lemma AgentStepGenuine(d: Deployment, o: Origin, s: Sys, a: Action)
    requires AgentInv(d, s) && GenuineAgent(d, o, s) && Disciplined(d, o, a)
    ensures GenuineAgent(d, o, Next(d, s, a))
  {
    hide Inv, Store, MoveToDLQ, GetPendingEvents, Retry, RemoveEvent, GenuineDb, Genuine, Somewhere, Safe;
    match a
    case AStore(e, env) => StoreGenuine(o, s.db, d.quota, e, env);
    case ARecover(e, env) => MoveGenuine(o, s.db, e, UncertainCommit, env);
    case AFetch(now, limit, env) => FetchGenuine(o, s.db, now, limit, env);
    case ASend(env) =>
      if s.batch != [] {
        MoveGenuine(o, s.db, s.batch[0], TenantMismatch, env);
        MoveGenuine(o, s.db, s.batch[0], SerializationError, env);
      }
    case AReceive(status, env, retry) =>
      if s.awaiting.Some? {
        MoveGenuine(o, s.db, s.awaiting.value, Http400, env);
        RetryGenuine(o, s.db, s.awaiting.value, retry);
        RemoveGenuine(o, s.db, s.awaiting.value.eventId, env);
      }
    case AGiveUp(retry) =>
      if s.awaiting.Some? { RetryGenuine(o, s.db, s.awaiting.value, retry); }
    case ACorrupt(id, text) => CorruptGenuine(o, s.db, id, text);
    case _ =>
  }

  lemma CorruptGenuine(o: Origin, db: Db, id: EventId, text: string)
    requires GenuineDb(o, db) && id != o.id
    ensures GenuineDb(o, Corrupted(db, id, text))
  {
  }

  lemma RemoveGenuine(o: Origin, db: Db, id: EventId, env: TxEnv)
    requires Inv(db) && GenuineDb(o, db)
    ensures GenuineDb(o, RemoveEvent(db, id, env).db)
  {
    hide RemoveEvent, Inv;
    RemoveSpec(db, id, env);
  }

  lemma ServeGenuine(d: Deployment, o: Origin, s: Sys, e: CanonicalEvent, fits: bool, now: Time, append: Append)
    requires GenuineServer(d, o, s) && (e in s.requests ==> Genuine(o, e))
    ensures GenuineServer(d, o, Next(d, s, AServe(e, fits, now, append)))
  {
    var s' := Next(d, s, AServe(e, fits, now, append));
    if |s'.queue.stream| > |s.queue.stream| {
      assert s'.queue.stream[|s.queue.stream|].wire == Text(Json(e.(receivedAt := now)));
    }
  }

  lemma PersistGenuine(d: Deployment, o: Origin, s: Sys, m: nat, env: PersistEnv)
    requires GenuineServer(d, o, s)
    ensures GenuineServer(d, o, Next(d, s, APersist(m, env)))
  {
    hide TookEffect;
  }

  lemma ServerStepGenuine(d: Deployment, o: Origin, s: Sys, a: Action)
    requires GenuineAgent(d, o, s) && GenuineServer(d, o, s) && Disciplined(d, o, a)
    ensures GenuineServer(d, o, Next(d, s, a))
  {
    hide Store, MoveToDLQ, GetPendingEvents, Respond, Retry, GenuineDb, TookEffect, Persist, ServeHTTP, Genuine;
    match a
    case AServe(e, fits, now, append) => ServeGenuine(d, o, s, e, fits, now, append);
    case APersist(m, env) => PersistGenuine(d, o, s, m, env);
    case _ =>
  }

  lemma {:induction false} RunGenuine(d: Deployment, o: Origin, actions: seq<Action>)
    requires forall a | a in actions :: Disciplined(d, o, a)
    ensures GenuineAgent(d, o, Run(d, actions)) && GenuineServer(d, o, Run(d, actions))
  {
    hide Next, Disciplined;
    if actions != [] {
      hide GenuineAgent, GenuineServer;
      var n := |actions| - 1;
      RunGenuine(d, o, actions[..n]);
      RunKeepsSysInv(d, actions[..n]);
      AgentStepGenuine(d, o, Run(d, actions[..n]), actions[n]);
      ServerStepGenuine(d, o, Run(d, actions[..n]), actions[n]);
    }
  }

  /** The payload is that of the event, but for its number and receipt time. */
  predicate Says(p: Payload, e: CanonicalEvent) {
    p.Json? && Core(p.event) == Core(e)
  }

  /** No loss of content: in every run in which an id is used for one event only, that event, once it entered
      the store, was pruned under the quota and not stored again, or some place still holds it, equal but for
      its number and receipt time. */
  lemma NoContentIsLost(d: Deployment, o: Origin, actions: seq<Action>)
    requires forall a | a in actions :: Disciplined(d, o, a)
    requires o.id in Run(d, actions).entered
    ensures var s, key := Run(d, actions), Key(d.tenantId, o.id);
            || o.id in s.pruned
            || (o.id in s.db.events && Says(s.db.events[o.id].payload, o.event))
            || (o.id in s.db.dlq && Says(s.db.dlq[o.id].payload, o.event))
            || (exists m: nat :: Carries(s.queue, m, key) && Core(Parse(s.queue.stream[m].wire).0) == Core(o.event))
            || (key in s.pg.events && Core(s.pg.events[key]) == Core(o.event))
  {
    var id := o.id;
    hide Next, Disciplined;
    NoEventIsLost(d, actions, id);
    RunGenuine(d, o, actions);
    var s := Run(d, actions);
    if exists m: nat :: Carries(s.queue, m, Key(d.tenantId, id)) {
      var m: nat :| Carries(s.queue, m, Key(d.tenantId, id));
      assert GenuineWire(d, o, s.queue.stream[m].wire);
    }
  }

  // ----- Without the discipline content can be lost -----

  const DEPLOYMENT := Deployment("t", 10000)
  const FIRST := CanonicalEvent(Uuid(1), "t", "s", Some(1), 0, 0, Debug, None,
                                Columns("", "", "src", "cat", "", "", "", "", "", ""), Plain("first"),
                                CURRENT_SCHEMA_VERSION)
  const SECOND := FIRST.(metadata := Plain("second"))
  const URGENT := FIRST.(eventId := Uuid(2), severity := Critical)

  /** Files of the given size, except that a full disk shrinks after the first batch went. */
  function Sizes(full: bool): Disk {
    n => Probe(Some(if full && n < 2 then 10000 else 0), NoFault)
  }

  function Smooth(full: bool): StoreEnv {
    StoreEnv(None, None, 0, Sizes(full), None, None, Committed)
  }

  const FINE := TxEnv(false, Committed)
  const READABLE := FetchEnv(false, _ => FINE)
  const LATER := RetryEnv(0, 0, 0, Landed)

  /** FIRST is sent and accepted but its row is pruned before the answer arrives; the id is reused for SECOND, and
      the answer for FIRST then removes SECOND. */
  const REUSE: seq<Action> := [
    AStore(FIRST, Smooth(false)),
    AFetch(0, 50, READABLE),
    ASend(FINE),
    AServe(FIRST.(seqNo := 1), true, 7, Appended),
    AStore(URGENT, Smooth(true)),
    AStore(SECOND, Smooth(false)),
    AReceive(Accepted, FINE, LATER)
  ]

  function RowOf(e: CanonicalEvent, n: int): Row {
    Row(n, e.severity, Json(e.(seqNo := n)), 0, None)
  }

  /** With room on the disk a new event is stored under the next number. */
  lemma StoredSmoothly(db: Db, e: CanonicalEvent)
    requires Inv(db) && !Present(db, e.eventId) && Encodable(e) && e.eventId != NO_ID
    ensures var r := Store(db, DEPLOYMENT.quota, e, Smooth(false));
            && r.result == Stored && r.db.dlq == db.dlq
            && r.db.events == db.events[e.eventId := RowOf(e, db.nextSeqNo)] && r.db.nextSeqNo == db.nextSeqNo + 1
  {
    hide Sweep, Insert;
    InsertSpec(db, e, Smooth(false), 0);
    assert EnforceQuota(db, e.severity, 1024, DEPLOYMENT.quota, Sizes(false)) == Swept(db, Fits, 0);
  }

  lemma FetchesOne(db: Db, e: CanonicalEvent)
    requires Inv(db) && db.events == map[e.eventId := RowOf(e, e.seqNo)] && db.dlq == map[]
    ensures GetPendingEvents(db, 0, 50, READABLE) == Fetched(db, Some([e]))
  {
    hide Oldest, MoveAll;
    var ids := Oldest(db.events, Eligible(db.events, 0), 50);
    assert Eligible(db.events, 0) == {e.eventId};
    assert |Eligible(db.events, 0)| == 1 && ids[0] in ids;
    assert ids == [e.eventId];
    assert ids[..0] == [];
    assert db.events[ids[0]].payload == Json(e);
    assert ids[..|ids| - 1] == [] && Decoded(db.events, []) == [] && Corrupt(db.events, []) == [];
    assert Deserialize(Json(e)) == Some(e);
    assert Decoded(db.events, ids) == [e];
    NothingMoved(db, db.events);
    var none := Corrupt(db.events, ids);
    assert none == [];
    assert MoveAll(db, db.events, none, READABLE.moves, 0) == MoveReply(db, true);
    var r := GetPendingEvents(db, 0, 50, READABLE);
    assert r.db == db;
    assert r.events == Some(Decoded(db.events, ids));
  }

  lemma NothingMoved(db: Db, t: Table)
    ensures MoveAll(db, t, [], READABLE.moves, 0) == MoveReply(db, true)
  {
  }

  /** On a full disk the one DEBUG row makes room for URGENT. */
  lemma StoredByPruning(db: Db)
    requires Inv(db) && db.events == map[FIRST.eventId := RowOf(FIRST, 1)] && db.dlq == map[] && db.nextSeqNo == 2
    ensures var r := Store(db, DEPLOYMENT.quota, URGENT, Smooth(true));
            && r.db.dlq == map[] && r.db.nextSeqNo == 3
            && r.db.events == map[URGENT.eventId := RowOf(URGENT, 2)]
  {
    hide Oldest, Insert;
    assert FIRST.eventId in OfClass(db.events, Debug);
    var ids := Batch(db.events, Debug);
    assert IdSet(ids) == {FIRST.eventId} by { assert ids[0] in ids; }
    var less := db.(events := Without(db.events, IdSet(ids)), dropped := CountDropped(db.dropped, Debug, |ids|),
                    pressure := Pruning);
    assert less.events == map[];
    assert PruneRound(db, Debug, 1024, DEPLOYMENT.quota, Sizes(true)(1)) == Repeat(less);
    SweepEnds(less);
    var swept := EnforceQuota(db, URGENT.severity, 1024, DEPLOYMENT.quota, Sizes(true));
    assert swept == Swept(less, Fits, |ids| * 0);
    QuotaKeepsInv(db, URGENT.severity, 1024, DEPLOYMENT.quota, Sizes(true));
    InsertSpec(less, URGENT, Smooth(true), 0);
  }

  lemma SweepEnds(db: Db)
    ensures Sweep(db, 0, URGENT.severity, 1024, DEPLOYMENT.quota, Sizes(true), 2) == Swept(db, Fits, 0)
  {
  }

  lemma RunStep(k: nat)
    requires k < |REUSE|
    ensures Run(DEPLOYMENT, REUSE[..k + 1]) == Next(DEPLOYMENT, Run(DEPLOYMENT, REUSE[..k]), REUSE[k])
  {
    assert REUSE[..k + 1][..k] == REUSE[..k];
  }

  lemma Removed(db: Db, id: EventId)
    ensures RemoveEvent(db, id, FINE).db == db.(events := Without(db.events, {id}))
  {
  }

  const FIRST_STORED := FIRST.(seqNo := 1)
  const SENT := FIRST_STORED.(receivedAt := 7)

  /** The state once FIRST's message is on the stream and its 202 on the way back. */
  function AfterAnswer(): Sys {
    var db := Store(EMPTY_DB, DEPLOYMENT.quota, FIRST, Smooth(false)).db;
    INIT.(db := db, awaiting := Some(FIRST_STORED), requests := {FIRST_STORED}, responses := {(FIRST_STORED, Accepted)},
          queue := Queue([Entry(Text(Json(SENT)), false, false)], []), entered := {FIRST.eventId}, published := {0})
  }

  lemma FirstIsAccepted()
    ensures ServeHTTP(EMPTY_QUEUE, RequestFor(FIRST_STORED, DEPLOYMENT.tenantId, true), 7, Appended)
            == (Queue([Entry(Text(Json(SENT)), false, false)], []), Accepted)
  {
    assert ValidName("t") && ValidName("s");
    assert Validate(SENT);
    assert [] + [Entry(Text(Json(SENT)), false, false)] == [Entry(Text(Json(SENT)), false, false)];
  }

  lemma SentAndAnswered(s: Sys, s': Sys, s'': Sys)
    requires s == INIT.(db := s.db, batch := [FIRST_STORED], entered := {FIRST.eventId})
    requires s' == Next(DEPLOYMENT, s, ASend(FINE))
    requires s'' == Next(DEPLOYMENT, s', AServe(FIRST_STORED, true, 7, Appended))
    ensures s'' == INIT.(db := s.db, awaiting := Some(FIRST_STORED), requests := {FIRST_STORED},
                         responses := {(FIRST_STORED, Accepted)},
                         queue := Queue([Entry(Text(Json(SENT)), false, false)], []), entered := {FIRST.eventId},
                         published := {0})
  {
    hide ServeHTTP, MoveToDLQ;
    FirstIsAccepted();
    assert s' == INIT.(db := s.db, awaiting := Some(FIRST_STORED), requests := {FIRST_STORED},
                       entered := {FIRST.eventId});
  }

  lemma FirstHalf()
    ensures Run(DEPLOYMENT, REUSE[..4]) == AfterAnswer()
    ensures AfterAnswer().db.events == map[FIRST.eventId := RowOf(FIRST, 1)] && AfterAnswer().db.dlq == map[]
            && AfterAnswer().db.nextSeqNo == 2
  {
    hide Store, GetPendingEvents, ServeHTTP, MoveToDLQ, Run;
    StoredSmoothly(EMPTY_DB, FIRST);
    var db := Store(EMPTY_DB, DEPLOYMENT.quota, FIRST, Smooth(false)).db;
    StoreSpec(EMPTY_DB, DEPLOYMENT.quota, FIRST, Smooth(false));
    FetchesOne(db, FIRST_STORED);
    Prefixes();
    var s1 := INIT.(db := db, entered := {FIRST.eventId});
    assert Run(DEPLOYMENT, REUSE[..1]) == s1;
    var s2 := s1.(batch := [FIRST_STORED]);
    assert Run(DEPLOYMENT, REUSE[..2]) == s2;
    SentAndAnswered(s2, Run(DEPLOYMENT, REUSE[..3]), Run(DEPLOYMENT, REUSE[..4]));
  }

  lemma Prefixes()
    ensures Run(DEPLOYMENT, REUSE[..1]) == Next(DEPLOYMENT, INIT, AStore(FIRST, Smooth(false)))
    ensures Run(DEPLOYMENT, REUSE[..2]) == Next(DEPLOYMENT, Run(DEPLOYMENT, REUSE[..1]), AFetch(0, 50, READABLE))
    ensures Run(DEPLOYMENT, REUSE[..3]) == Next(DEPLOYMENT, Run(DEPLOYMENT, REUSE[..2]), ASend(FINE))
    ensures Run(DEPLOYMENT, REUSE[..4])
            == Next(DEPLOYMENT, Run(DEPLOYMENT, REUSE[..3]), AServe(FIRST_STORED, true, 7, Appended))
    ensures Run(DEPLOYMENT, REUSE[..5]) == Next(DEPLOYMENT, Run(DEPLOYMENT, REUSE[..4]), AStore(URGENT, Smooth(true)))
    ensures Run(DEPLOYMENT, REUSE[..6]) == Next(DEPLOYMENT, Run(DEPLOYMENT, REUSE[..5]), AStore(SECOND, Smooth(false)))
    ensures Run(DEPLOYMENT, REUSE) == Next(DEPLOYMENT, Run(DEPLOYMENT, REUSE[..6]), AReceive(Accepted, FINE, LATER))
  {
    hide Next;
    assert REUSE[..0] == [] && REUSE[..7] == REUSE;
    RunStep(0); RunStep(1); RunStep(2); RunStep(3); RunStep(4); RunStep(5); RunStep(6);
  }

  lemma SecondHalf(s4: Sys, s5: Sys, s6: Sys, s7: Sys)
    requires Inv(s4.db) && Inv(s5.db)
    requires s4 == AfterAnswer() && s4.db.events == map[FIRST.eventId := RowOf(FIRST, 1)] && s4.db.dlq == map[]
            && s4.db.nextSeqNo == 2
    requires s5 == Next(DEPLOYMENT, s4, AStore(URGENT, Smooth(true)))
    requires s6 == Next(DEPLOYMENT, s5, AStore(SECOND, Smooth(false)))
    requires s7 == Next(DEPLOYMENT, s6, AReceive(Accepted, FINE, LATER))
    ensures Store(s5.db, DEPLOYMENT.quota, SECOND, Smooth(false)).result == Stored
    ensures SECOND.eventId !in s7.db.events && SECOND.eventId !in s7.db.dlq && s7.pg == EMPTY_PG && s7.queue == s4.queue
    ensures SECOND.eventId !in s7.pruned
  {
    hide Store, RemoveEvent, Inv;
    StoredByPruning(s4.db);
    StoredSmoothly(s5.db, SECOND);
    Removed(s6.db, FIRST.eventId);
  }

  /** The answer for FIRST removes SECOND's row: at the end SECOND, stored successfully, is in no table, on no
      stream and not in Postgres. The id-level guarantee still holds, because FIRST's message carries the id. */
  lemma ReusedIdLosesContent()
    ensures var s := Run(DEPLOYMENT, REUSE);
            && Store(Run(DEPLOYMENT, REUSE[..5]).db, DEPLOYMENT.quota, SECOND, Smooth(false)).result == Stored
            && SECOND.eventId !in s.db.events && SECOND.eventId !in s.db.dlq && s.pg == EMPTY_PG
            && (forall m | 0 <= m < |s.queue.stream| :: Core(Parse(s.queue.stream[m].wire).0) != Core(SECOND))
            && SECOND.eventId in s.entered && SECOND.eventId !in s.pruned
  {
    hide Run, Next, Store, SysInv;
    Prefixes();
    FirstHalf();
    assert Inv(Run(DEPLOYMENT, REUSE[..4]).db) && Inv(Run(DEPLOYMENT, REUSE[..5]).db)
        && SECOND.eventId in Run(DEPLOYMENT, REUSE).entered by {
      RunsKeepInv(REUSE[..4]);
      RunsKeepInv(REUSE[..5]);
      StaysEntered();
    }
    SecondHalf(Run(DEPLOYMENT, REUSE[..4]), Run(DEPLOYMENT, REUSE[..5]), Run(DEPLOYMENT, REUSE[..6]),
               Run(DEPLOYMENT, REUSE));
  }

  lemma RunsKeepInv(actions: seq<Action>)
    ensures Inv(Run(DEPLOYMENT, actions).db)
  {
    RunKeepsSysInv(DEPLOYMENT, actions);
  }

  lemma StaysEntered()
    ensures SECOND.eventId in Run(DEPLOYMENT, REUSE).entered
  {
    hide Run, Next;
    Prefixes();
    FirstHalf();
    EnteredStays(DEPLOYMENT, Run(DEPLOYMENT, REUSE[..4]), AStore(URGENT, Smooth(true)));
    EnteredStays(DEPLOYMENT, Run(DEPLOYMENT, REUSE[..5]), AStore(SECOND, Smooth(false)));
    EnteredStays(DEPLOYMENT, Run(DEPLOYMENT, REUSE[..6]), AReceive(Accepted, FINE, LATER));
  }

  lemma EnteredStays(d: Deployment, s: Sys, a: Action)
    ensures s.entered <= Next(d, s, a).entered
  {
    hide Store, MoveToDLQ, GetPendingEvents, Respond, Retry, ServeHTTP, Persist;
  }
}
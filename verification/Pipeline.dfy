/** The whole pipeline as one machine: the agent's store, the forwarder, the network, the ingest handler,
    the stream, any number of workers and Postgres, interleaved step by step. Crashes, lost responses,
    timeouts, duplicate sends and claims by other workers need no state of their own: a step that is never
    taken, or taken again, is one of them. */
module Pipeline {
  import opened Wrappers
  import opened Events
  import opened Storage
  import opened StorageProperties
  import opened Server

  datatype Sys = Sys(
    db: Db,
    batch: seq<CanonicalEvent>,           // events fetched and not yet sent
    awaiting: Option<CanonicalEvent>,     // event sent whose response the forwarder awaits
    requests: set<CanonicalEvent>,        // requests that are or were on the wire
    responses: set<(CanonicalEvent, Status)>,
    queue: Queue,
    settled: set<nat>,                    // messages some worker may acknowledge
    pg: Pg,
    // history
    entered: set<EventId>,                // ids that were ever in the events table
    pruned: set<EventId>,                 // ids the quota sweep deleted and nobody stored since
    published: set<nat>,                  // messages the handler appended
    deliveries: seq<CanonicalEvent>)      // deliveries that took effect in Postgres

  const INIT := Sys(EMPTY_DB, [], None, {}, {}, EMPTY_QUEUE, {}, EMPTY_PG, {}, {}, {}, [])

  datatype RetryEnv = RetryEnv(retryAfter: int, now: Time, nanos: nat, fate: Fate)

  datatype Action =
    | AStore(event: CanonicalEvent, storeEnv: StoreEnv)
    | ARecover(event: CanonicalEvent, env: TxEnv)
    | AFetch(now: Time, limit: nat, fetchEnv: FetchEnv)
    | ASend(env: TxEnv)
    | AServe(event: CanonicalEvent, fits: bool, now: Time, append: Append)
    | AReceive(status: Status, env: TxEnv, retry: RetryEnv)
    | AGiveUp(retry: RetryEnv)
    | ARestart
    | ACorrupt(id: EventId, text: string)
    | AInject(wire: Wire)
    | ADeliver(m: nat)
    | APersist(m: nat, persist: PersistEnv)
    | ABury(m: nat, append: Append)
    | AAck(m: nat, applied: bool)

  datatype Deployment = Deployment(tenantId: string, quota: int)

  // ----- Forwarder (forwarder.go) -----

  /** Sends the next event, or dead-letters it when it is another tenant's or cannot be encoded. */
  function Send(s: Sys, tenantId: string, env: TxEnv): Sys {
    if s.batch == [] || s.awaiting.Some? then s
    else
      var e, rest := s.batch[0], s.batch[1..];
      if e.tenantId != tenantId then s.(db := MoveToDLQ(s.db, e, TenantMismatch, env).db, batch := rest)
      else if !Encodable(e) then s.(db := MoveToDLQ(s.db, e, SerializationError, env).db, batch := rest)
      else s.(batch := rest, awaiting := Some(e), requests := s.requests + {e})
  }

  /** What the forwarder does with a response: 202 removes, 400 dead-letters, anything else retries later. */
  function Respond(db: Db, e: CanonicalEvent, status: Status, env: TxEnv, retry: RetryEnv): Db {
    match status
    case Accepted => RemoveEvent(db, e.eventId, env).db
    case BadRequest => MoveToDLQ(db, e, Http400, env).db
    case _ => Retry(db, e, retry)
  }

  function Retry(db: Db, e: CanonicalEvent, r: RetryEnv): Db {
    MarkFailed(db, e.eventId, r.retryAfter, r.now, r.nanos, r.fate).db
  }

  function RequestFor(e: CanonicalEvent, tenantId: string, fits: bool): Request {
    Request(true, tenantId, if fits then OneEvent(e) else TooLarge)
  }

  /** The stored text of a row turns into something that is no JSON event. */
  function Corrupted(db: Db, id: EventId, text: string): Db {
    if id !in db.events then db
    else
      StillUnique(db.events, id, db.events[id].(payload := Raw(text)));
      db.(events := db.events[id := db.events[id].(payload := Raw(text))])
  }

  // ----- Steps -----

  /** The effect of an action; an action that is not enabled changes nothing. */
  function Next(d: Deployment, s: Sys, a: Action): Sys {
    match a
    case AStore(e, env) =>
      var db' := Store(s.db, d.quota, e, env).db;
      s.(db := db', entered := s.entered + db'.events.Keys,
         pruned := (s.pruned + (s.db.events.Keys - db'.events.Keys)) - db'.events.Keys)
    case ARecover(e, env) =>
      s.(db := MoveToDLQ(s.db, e, UncertainCommit, env).db)
    case AFetch(now, limit, env) =>
      var r := GetPendingEvents(s.db, now, limit, env);
      s.(db := r.db, batch := if r.events.Some? && s.batch == [] && s.awaiting.None? then r.events.value else s.batch)
    case ASend(env) =>
      Send(s, d.tenantId, env)
    case AServe(e, fits, now, append) =>
      if e !in s.requests then s
      else
        var (q', status) := ServeHTTP(s.queue, RequestFor(e, d.tenantId, fits), now, append);
        s.(queue := q',
           responses := s.responses + {(e, status)},
           published := if |q'.stream| > |s.queue.stream| then s.published + {|s.queue.stream|} else s.published)
    case AReceive(status, env, retry) =>
      if s.awaiting.None? || (s.awaiting.value, status) !in s.responses then s
      else s.(db := Respond(s.db, s.awaiting.value, status, env, retry), awaiting := None)
    case AGiveUp(retry) =>
      if s.awaiting.None? then s
      else s.(db := Retry(s.db, s.awaiting.value, retry), awaiting := None)
    case ARestart =>
      s.(batch := [], awaiting := None)
    case ACorrupt(id, text) =>
      s.(db := Corrupted(s.db, id, text))
    case AInject(wire) =>
      s.(queue := s.queue.(stream := s.queue.stream + [Entry(wire, false, false)]))
    case ADeliver(m) =>
      if m >= |s.queue.stream| then s
      else s.(queue := s.queue.(stream := s.queue.stream[m := s.queue.stream[m].(delivered := true)]))
    case APersist(m, env) =>
      if m >= |s.queue.stream| || !s.queue.stream[m].delivered || !Healthy(s.queue.stream[m].wire) then s
      else
        var e := Parse(s.queue.stream[m].wire).0;
        var r := Persist(s.pg, e, env);
        s.(pg := r.pg,
           settled := if r.ok then s.settled + {m} else s.settled,
           deliveries := if TookEffect(s.pg, e, env) then s.deliveries + [e] else s.deliveries)
    case ABury(m, append) =>
      if m >= |s.queue.stream| || !s.queue.stream[m].delivered || Healthy(s.queue.stream[m].wire) then s
      else
        var (q', ok) := SendToDLQ(s.queue, m, Parse(s.queue.stream[m].wire).1.value, append);
        s.(queue := q', settled := if ok then s.settled + {m} else s.settled)
    case AAck(m, applied) =>
      if m >= |s.queue.stream| || m !in s.settled then s
      else s.(queue := Ack(s.queue, m, applied))
  }

  function Run(d: Deployment, actions: seq<Action>): Sys {
    if actions == [] then INIT else Next(d, Run(d, actions[..|actions| - 1]), actions[|actions| - 1])
  }

  /** The machine after the actions, from any state. */
  function After(d: Deployment, s: Sys, actions: seq<Action>): Sys
    decreases |actions|
  {
    if actions == [] then s else After(d, Next(d, s, actions[0]), actions[1..])
  }

  lemma {:induction false} RunThenAfter(d: Deployment, before: seq<Action>, actions: seq<Action>)
    ensures Run(d, before + actions) == After(d, Run(d, before), actions)
    decreases |actions|
  {
    hide Next;
    if actions == [] {
      assert before + actions == before;
    } else {
      var more := before + [actions[0]];
      assert more[..|more| - 1] == before;
      RunThenAfter(d, more, actions[1..]);
      assert more + actions[1..] == before + actions;
    }
  }

  lemma {:induction false} AfterBoth(d: Deployment, s: Sys, first: seq<Action>, second: seq<Action>)
    ensures After(d, s, first + second) == After(d, After(d, s, first), second)
    decreases |first|
  {
    hide Next;
    if first == [] {
      assert first + second == second;
    } else {
      assert (first + second)[1..] == first[1..] + second;
      AfterBoth(d, Next(d, s, first[0]), first[1..], second);
    }
  }

  lemma AfterCons(d: Deployment, s: Sys, a: Action, rest: seq<Action>)
    ensures After(d, s, [a] + rest) == After(d, Next(d, s, a), rest)
  {
    assert ([a] + rest)[1..] == rest;
  }

  lemma TwoSteps(d: Deployment, s: Sys, a: Action, b: Action)
    ensures After(d, s, [a] + [] + [b]) == Next(d, Next(d, s, a), b)
  {
    hide Next;
    AfterCons(d, s, a, [b]);
    AfterCons(d, Next(d, s, a), b, []);
    assert [a] + [] + [b] == [a] + [b] && [b] + [] == [b];
  }

  lemma ThreeSteps(d: Deployment, s: Sys, a: Action, b: Action, c: Action)
    ensures After(d, s, [a] + [b] + [c]) == Next(d, Next(d, Next(d, s, a), b), c)
  {
    hide Next;
    AfterCons(d, s, a, [b] + [c]);
    TwoSteps(d, Next(d, s, a), b, c);
    assert [a] + [b] + [c] == [a] + ([b] + [c]) && [b] + [] + [c] == [b] + [c];
  }

  // ----- The server side never loses what it accepted -----

  /** The key is in Postgres, or on the stream in a healthy message not yet acknowledged. */
  ghost predicate Safe(q: Queue, pg: Pg, k: Key) {
    k in pg.events || exists m: nat :: Carries(q, m, k)
  }

  ghost predicate Carries(q: Queue, m: nat, k: Key) {
    m < |q.stream| && !q.stream[m].acked && Healthy(q.stream[m].wire) && KeyOf(Parse(q.stream[m].wire).0) == k
  }

  ghost predicate Buried(q: Queue, m: nat) {
    exists i | 0 <= i < |q.dead| :: q.dead[i].message == m
  }

  ghost predicate SettledWell(q: Queue, pg: Pg, m: nat) {
    && m < |q.stream|
    && if Healthy(q.stream[m].wire) then KeyOf(Parse(q.stream[m].wire).0) in pg.events else Buried(q, m)
  }

  /** Acknowledged messages are settled, settled ones are in Postgres or in the dead-letter stream, only
      unhealthy messages are dead-lettered, and the handler publishes only healthy ones. */
  ghost predicate ServerInv(s: Sys) {
    && (forall m | m in s.settled :: SettledWell(s.queue, s.pg, m))
    && (forall m | 0 <= m < |s.queue.stream| && s.queue.stream[m].acked :: m in s.settled)
    && (forall i | 0 <= i < |s.queue.dead| ::
          s.queue.dead[i].message < |s.queue.stream| && !Healthy(s.queue.stream[s.queue.dead[i].message].wire))
    && (forall m | m in s.published :: m < |s.queue.stream| && Healthy(s.queue.stream[m].wire))
  }

  /** The stream only grows, its texts stay, acknowledgements stay, and Postgres only grows. */
  ghost predicate Grows(s: Sys, s': Sys) {
    && |s.queue.stream| <= |s'.queue.stream|
    && (forall m | 0 <= m < |s.queue.stream| :: s'.queue.stream[m].wire == s.queue.stream[m].wire)
    && (forall m | 0 <= m < |s.queue.stream| && s'.queue.stream[m].acked :: m in s'.settled)
    && s.queue.dead <= s'.queue.dead
    && (forall k | k in s.pg.events :: k in s'.pg.events && s'.pg.events[k] == s.pg.events[k])
  }

  lemma SafeStays(s: Sys, s': Sys, k: Key)
    requires Grows(s, s') && ServerInv(s') && Safe(s.queue, s.pg, k)
    ensures Safe(s'.queue, s'.pg, k)
  {
    if k !in s.pg.events {
      var m: nat :| Carries(s.queue, m, k);
      if s'.queue.stream[m].acked {
        assert SettledWell(s'.queue, s'.pg, m);
      } else {
        assert Carries(s'.queue, m, k);
      }
    }
  }

  // ----- Every step keeps the server's promise -----

  /** The parts of the machine the server side owns. */
  predicate SameServer(s: Sys, s': Sys) {
    && s'.queue == s.queue && s'.settled == s.settled && s'.pg == s.pg && s'.published == s.published
    && s'.deliveries == s.deliveries
  }

  ghost predicate ServerStep(s: Sys, s': Sys) {
    Grows(s, s') && ServerInv(s') && PgIs(s'.deliveries, s'.pg)
  }

  lemma ServeStep(d: Deployment, s: Sys, e: CanonicalEvent, fits: bool, now: Time, append: Append)
    requires ServerInv(s) && PgIs(s.deliveries, s.pg)
    ensures var a := AServe(e, fits, now, append);
            var s' := Next(d, s, a);
            && ServerStep(s, s')
            && (e in s.requests && (e, Accepted) in s'.responses && (e, Accepted) !in s.responses ==>
                  e.tenantId == d.tenantId && Carries(s'.queue, |s.queue.stream|, Key(d.tenantId, e.eventId))
                  && |s.queue.stream| in s'.published)
  {
    hide PgIs;
    var s' := Next(d, s, AServe(e, fits, now, append));
    ServeAppends(s.queue, e, d.tenantId, fits, now, append);
    forall m | m in s'.settled ensures SettledWell(s'.queue, s'.pg, m) {
      assert SettledWell(s.queue, s.pg, m);
    }
  }

  /** The handler either leaves the stream alone or appends one healthy message with the sender's key,
      and it says 202 only in the latter case. */
  lemma ServeAppends(q: Queue, e: CanonicalEvent, tenantId: string, fits: bool, now: Time, append: Append)
    ensures var (q', status) := ServeHTTP(q, RequestFor(e, tenantId, fits), now, append);
            && q'.dead == q.dead
            && (q' == q || (exists w :: q'.stream == q.stream + [Entry(w, false, false)] && Healthy(w)
                                        && KeyOf(Parse(w).0) == Key(tenantId, e.eventId) && e.tenantId == tenantId))
            && (status == Accepted ==> q' != q)
  {
    var (q', status) := ServeHTTP(q, RequestFor(e, tenantId, fits), now, append);
    if q' != q {
      var w := Text(Json(e.(receivedAt := now)));
      assert q'.stream == q.stream + [Entry(w, false, false)] && Healthy(w);
    }
  }

  lemma InjectStep(d: Deployment, s: Sys, wire: Wire)
    requires ServerInv(s) && PgIs(s.deliveries, s.pg)
    ensures ServerStep(s, Next(d, s, AInject(wire)))
  {
    hide PgIs;
    var s' := Next(d, s, AInject(wire));
    forall m | m in s'.settled ensures SettledWell(s'.queue, s'.pg, m) {
      assert SettledWell(s.queue, s.pg, m);
    }
  }

  lemma DeliverStep(d: Deployment, s: Sys, m: nat)
    requires ServerInv(s) && PgIs(s.deliveries, s.pg)
    ensures ServerStep(s, Next(d, s, ADeliver(m)))
  {
    hide PgIs;
    var s' := Next(d, s, ADeliver(m));
    forall n | n in s'.settled ensures SettledWell(s'.queue, s'.pg, n) {
      assert SettledWell(s.queue, s.pg, n);
    }
  }

  lemma PersistsStep(d: Deployment, s: Sys, m: nat, env: PersistEnv)
    requires ServerInv(s) && PgIs(s.deliveries, s.pg)
    ensures ServerStep(s, Next(d, s, APersist(m, env)))
  {
    hide PgIs, Persist;
    var s' := Next(d, s, APersist(m, env));
    if m < |s.queue.stream| {
      PersistStep(s.pg, s.deliveries, Parse(s.queue.stream[m].wire).0, env);
    }
    forall n | n in s'.settled ensures SettledWell(s'.queue, s'.pg, n) {
      if n in s.settled { assert SettledWell(s.queue, s.pg, n); }
    }
  }

  lemma BuryStep(d: Deployment, s: Sys, m: nat, append: Append)
    requires ServerInv(s) && PgIs(s.deliveries, s.pg)
    ensures ServerStep(s, Next(d, s, ABury(m, append)))
  {
    hide PgIs;
    var s' := Next(d, s, ABury(m, append));
    forall n | n in s'.settled ensures SettledWell(s'.queue, s'.pg, n) {
      if n in s.settled {
        assert SettledWell(s.queue, s.pg, n);
        if Buried(s.queue, n) {
          var i :| 0 <= i < |s.queue.dead| && s.queue.dead[i].message == n;
          assert s'.queue.dead[i].message == n;
        }
      } else {
        assert s'.queue.dead[|s.queue.dead|].message == n;
      }
    }
  }

  lemma AckStep(d: Deployment, s: Sys, m: nat, applied: bool)
    requires ServerInv(s) && PgIs(s.deliveries, s.pg)
    ensures ServerStep(s, Next(d, s, AAck(m, applied)))
  {
    hide PgIs;
    var s' := Next(d, s, AAck(m, applied));
    forall n | n in s'.settled ensures SettledWell(s'.queue, s'.pg, n) {
      assert SettledWell(s.queue, s.pg, n);
    }
  }

  lemma EveryServerStep(d: Deployment, s: Sys, a: Action)
    requires ServerInv(s) && PgIs(s.deliveries, s.pg)
    ensures ServerStep(s, Next(d, s, a))
  {
    hide ServerInv, PgIs, ServerStep, Store, MoveToDLQ, GetPendingEvents;
    match a
    case AServe(e, fits, now, append) => ServeStep(d, s, e, fits, now, append);
    case AInject(wire) => InjectStep(d, s, wire);
    case ADeliver(m) => DeliverStep(d, s, m);
    case APersist(m, env) => PersistsStep(d, s, m, env);
    case ABury(m, append) => BuryStep(d, s, m, append);
    case AAck(m, applied) => AckStep(d, s, m, applied);
    case _ => IdleStep(s, Next(d, s, a));
  }

  lemma IdleStep(s: Sys, s': Sys)
    requires ServerInv(s) && PgIs(s.deliveries, s.pg) && SameServer(s, s')
    ensures ServerStep(s, s')
  {
  }

  // ----- Every step keeps every event somewhere -----

  /** The id is in the agent's store, live or dead, was pruned under the quota, or is safe on the server. */
  ghost predicate Somewhere(d: Deployment, s: Sys, id: EventId) {
    id in s.db.events || id in s.db.dlq || id in s.pruned || Safe(s.queue, s.pg, Key(d.tenantId, id))
  }

  ghost predicate AgentInv(d: Deployment, s: Sys) {
    && Inv(s.db)
    && (forall e | e in s.requests :: e.tenantId == d.tenantId)
    && (s.awaiting.Some? ==> s.awaiting.value in s.requests)
    && (forall e | (e, Accepted) in s.responses ::
          e.tenantId == d.tenantId && Safe(s.queue, s.pg, Key(d.tenantId, e.eventId)))
    && s.db.events.Keys <= s.entered
    && (forall id | id in s.entered :: Somewhere(d, s, id))
  }

  ghost predicate SysInv(d: Deployment, s: Sys) {
    ServerInv(s) && PgIs(s.deliveries, s.pg) && AgentInv(d, s)
  }

  /** From s to s' no id leaves the agent's store for nowhere. */
  ghost predicate KeepsIds(d: Deployment, s: Sys, s': Sys) {
    && (forall id | id in s.db.events && id !in s'.db.events ::
          id in s'.db.dlq || id in s'.pruned || Safe(s'.queue, s'.pg, Key(d.tenantId, id)))
    && s.db.dlq.Keys <= s'.db.dlq.Keys
    && s.pruned <= s'.pruned + s'.db.events.Keys
    && s'.db.events.Keys <= s'.entered <= s.entered + s'.db.events.Keys
  }

  lemma StaysSomewhere(d: Deployment, s: Sys, s': Sys)
    requires AgentInv(d, s) && Grows(s, s') && ServerInv(s') && KeepsIds(d, s, s')
    ensures forall id | id in s'.entered :: Somewhere(d, s', id)
  {
    hide Grows, ServerInv, Inv, Safe;
    forall id | id in s'.entered ensures Somewhere(d, s', id) {
      if id in s.entered {
        assert Somewhere(d, s, id);
        if Safe(s.queue, s.pg, Key(d.tenantId, id)) { SafeStays(s, s', Key(d.tenantId, id)); }
      }
    }
  }

  lemma StoreStep(d: Deployment, s: Sys, e: CanonicalEvent, env: StoreEnv)
    requires AgentInv(d, s)
    ensures var s' := Next(d, s, AStore(e, env));
            Inv(s'.db) && KeepsIds(d, s, s')
  {
    hide Inv, Store, Safe;
    StoreSpec(s.db, d.quota, e, env);
  }

  lemma MoveStep(d: Deployment, s: Sys, e: CanonicalEvent, f: Failure, env: TxEnv)
    requires AgentInv(d, s)
    ensures var s' := s.(db := MoveToDLQ(s.db, e, f, env).db);
            Inv(s'.db) && KeepsIds(d, s, s')
  {
    hide Inv, MoveToDLQ, Safe;
    MoveToDLQSpec(s.db, e, f, env);
  }

  lemma FetchStep(d: Deployment, s: Sys, now: Time, limit: nat, env: FetchEnv)
    requires AgentInv(d, s)
    ensures var s' := Next(d, s, AFetch(now, limit, env));
            Inv(s'.db) && KeepsIds(d, s, s')
  {
    hide Inv, GetPendingEvents, Safe;
    FetchSpec(s.db, now, limit, env);
  }

  lemma RetryStep(d: Deployment, s: Sys, e: CanonicalEvent, r: RetryEnv)
    requires AgentInv(d, s)
    ensures var s' := s.(db := Retry(s.db, e, r));
            Inv(s'.db) && KeepsIds(d, s, s')
  {
    hide Inv, MarkFailed, Safe;
    MarkFailedSpec(s.db, e.eventId, r.retryAfter, r.now, r.nanos, r.fate);
  }

  /** Removing an event on 202 is safe because the server vouches for its key. */
  lemma ReceiveStep(d: Deployment, s: Sys, status: Status, env: TxEnv, retry: RetryEnv)
    requires AgentInv(d, s)
    ensures var s' := Next(d, s, AReceive(status, env, retry));
            Inv(s'.db) && KeepsIds(d, s, s')
  {
    hide Inv, RemoveEvent, MoveToDLQ, Retry, Safe;
    if s.awaiting.Some? && (s.awaiting.value, status) in s.responses {
      var e := s.awaiting.value;
      match status
      case Accepted => RemoveSpec(s.db, e.eventId, env);
      case BadRequest => MoveStep(d, s, e, Http400, env);
      case _ => RetryStep(d, s, e, retry);
    }
  }

  lemma SendStep(d: Deployment, s: Sys, env: TxEnv)
    requires AgentInv(d, s)
    ensures var s' := Next(d, s, ASend(env));
            Inv(s'.db) && KeepsIds(d, s, s')
  {
    hide Inv, MoveToDLQ, Safe;
    if s.batch != [] {
      MoveStep(d, s, s.batch[0], TenantMismatch, env);
      MoveStep(d, s, s.batch[0], SerializationError, env);
    }
  }

  lemma EveryAgentStep(d: Deployment, s: Sys, a: Action)
    requires AgentInv(d, s)
    ensures var s' := Next(d, s, a);
            Inv(s'.db) && KeepsIds(d, s, s')
  {
    hide Inv, AgentInv, KeepsIds, Store, MoveToDLQ, GetPendingEvents, MarkFailed, Respond, Retry, Send;
    match a
    case AStore(e, env) => StoreStep(d, s, e, env);
    case ARecover(e, env) => MoveStep(d, s, e, UncertainCommit, env);
    case AFetch(now, limit, env) => FetchStep(d, s, now, limit, env);
    case ASend(env) => SendStep(d, s, env);
    case AReceive(status, env, retry) => ReceiveStep(d, s, status, env, retry);
    case AGiveUp(retry) => GiveUpStep(d, s, retry);
    case ACorrupt(id, text) => CorruptStep(d, s, id, text);
    case _ => QuietStep(d, s, Next(d, s, a));
  }

  lemma GiveUpStep(d: Deployment, s: Sys, retry: RetryEnv)
    requires AgentInv(d, s)
    ensures var s' := Next(d, s, AGiveUp(retry));
            Inv(s'.db) && KeepsIds(d, s, s')
  {
    hide Inv, Retry, Safe;
    if s.awaiting.Some? { RetryStep(d, s, s.awaiting.value, retry); }
  }

  lemma CorruptStep(d: Deployment, s: Sys, id: EventId, text: string)
    requires AgentInv(d, s)
    ensures var s' := Next(d, s, ACorrupt(id, text));
            Inv(s'.db) && KeepsIds(d, s, s')
  {
    hide Safe;
  }

  lemma QuietStep(d: Deployment, s: Sys, s': Sys)
    requires AgentInv(d, s) && s'.db == s.db && s'.entered == s.entered && s'.pruned == s.pruned
    ensures Inv(s'.db) && KeepsIds(d, s, s')
  {
  }

  /** Responses: a new 202 carries its own guarantee, an old one keeps it. */
  lemma ResponsesStep(d: Deployment, s: Sys, a: Action)
    requires AgentInv(d, s) && ServerInv(s) && PgIs(s.deliveries, s.pg)
    requires ServerStep(s, Next(d, s, a))
    ensures var s' := Next(d, s, a);
            && (forall e | e in s'.requests :: e.tenantId == d.tenantId)
            && (s'.awaiting.Some? ==> s'.awaiting.value in s'.requests)
            && (forall e | (e, Accepted) in s'.responses ::
                  e.tenantId == d.tenantId && Safe(s'.queue, s'.pg, Key(d.tenantId, e.eventId)))
  {
    hide Inv, Store, MoveToDLQ, GetPendingEvents, Respond, Retry, PgIs, ServerInv, Grows, Persist, Safe, Somewhere;
    var s' := Next(d, s, a);
    forall e | (e, Accepted) in s'.responses
      ensures e.tenantId == d.tenantId && Safe(s'.queue, s'.pg, Key(d.tenantId, e.eventId))
    {
      if (e, Accepted) in s.responses {
        SafeStays(s, s', Key(d.tenantId, e.eventId));
      } else {
        ServeStep(d, s, a.event, a.fits, a.now, a.append);
        CarriedIsSafe(s', |s.queue.stream|, Key(d.tenantId, e.eventId));
      }
    }
  }

  lemma CarriedIsSafe(s: Sys, m: nat, k: Key)
    requires Carries(s.queue, m, k)
    ensures Safe(s.queue, s.pg, k)
  {
  }

  lemma StepKeepsSysInv(d: Deployment, s: Sys, a: Action)
    requires SysInv(d, s)
    ensures SysInv(d, Next(d, s, a)) && Grows(s, Next(d, s, a))
  {
    hide Inv, ServerInv, Grows, PgIs, KeepsIds, Next, Safe, Somewhere;
    var s' := Next(d, s, a);
    EveryServerStep(d, s, a);
    EveryAgentStep(d, s, a);
    ResponsesStep(d, s, a);
    StaysSomewhere(d, s, s');
    assert s'.db.events.Keys <= s'.entered by { EnteredGrows(d, s, s'); }
  }

  lemma EnteredGrows(d: Deployment, s: Sys, s': Sys)
    requires KeepsIds(d, s, s')
    ensures s'.db.events.Keys <= s'.entered
  {
  }

  lemma {:induction false} RunKeepsSysInv(d: Deployment, actions: seq<Action>)
    ensures SysInv(d, Run(d, actions))
  {
    hide Next;
    if actions == [] {
      assert PgIs([], EMPTY_PG);
    } else {
      hide SysInv;
      RunKeepsSysInv(d, actions[..|actions| - 1]);
      StepKeepsSysInv(d, Run(d, actions[..|actions| - 1]), actions[|actions| - 1]);
    }
  }

  // ----- The main theorems -----

  /** No loss, end to end: in every reachable state each event id that was ever in the agent's events table
      is there still, or in its dead-letter queue, or was deleted by the quota sweep, or is on the stream in
      a healthy unacknowledged message, or is in Postgres. */
  lemma NoEventIsLost(d: Deployment, actions: seq<Action>, id: EventId)
    requires id in Run(d, actions).entered
    ensures var s := Run(d, actions);
            || id in s.db.events || id in s.db.dlq || id in s.pruned
            || Key(d.tenantId, id) in s.pg.events
            || exists m: nat :: Carries(s.queue, m, Key(d.tenantId, id))
  {
    RunKeepsSysInv(d, actions);
    assert Somewhere(d, Run(d, actions), id);
  }

  /** A 202 is a promise: once the handler has answered 202 for an event, in every later state its key is on
      the stream unacknowledged or in Postgres. */
  lemma AcceptedStaysSafe(d: Deployment, before: seq<Action>, after: seq<Action>, e: CanonicalEvent)
    requires (e, Accepted) in Run(d, before).responses
    ensures Safe(Run(d, before + after).queue, Run(d, before + after).pg, Key(d.tenantId, e.eventId))
    decreases |after|
  {
    hide Next, Safe, ServerInv, Somewhere, Grows, PgIs, Inv;
    if after == [] {
      assert before + after == before;
      RunKeepsSysInv(d, before);
    } else {
      var n := |after| - 1;
      AcceptedStaysSafe(d, before, after[..n], e);
      assert (before + after)[..|before + after| - 1] == before + after[..n];
      RunKeepsSysInv(d, before + after[..n]);
      StepKeepsSysInv(d, Run(d, before + after[..n]), after[n]);
      SafeStays(Run(d, before + after[..n]), Run(d, before + after), Key(d.tenantId, e.eventId));
    }
  }

  /** The worker acknowledges a message only after its event is in Postgres or the message is in the
      dead-letter stream, and it never dead-letters a message the handler published. */
  lemma AcknowledgedIsSettled(d: Deployment, actions: seq<Action>, m: nat)
    requires m < |Run(d, actions).queue.stream|
    ensures var s := Run(d, actions);
            && (s.queue.stream[m].acked && Healthy(s.queue.stream[m].wire) ==>
                  KeyOf(Parse(s.queue.stream[m].wire).0) in s.pg.events)
            && (s.queue.stream[m].acked && !Healthy(s.queue.stream[m].wire) ==> Buried(s.queue, m))
            && (m in s.published ==> !Buried(s.queue, m))
  {
    RunKeepsSysInv(d, actions);
    var s := Run(d, actions);
    if s.queue.stream[m].acked { assert SettledWell(s.queue, s.pg, m); }
  }

  /** Exactly-once effect over whole runs: Postgres is the table of first effective deliveries with exactly
      one alert per alarming row. */
  lemma PostgresIsExactlyOnce(d: Deployment, actions: seq<Action>)
    ensures PgIs(Run(d, actions).deliveries, Run(d, actions).pg)
  {
    RunKeepsSysInv(d, actions);
  }
}

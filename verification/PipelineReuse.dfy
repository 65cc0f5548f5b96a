/** When using an id for two events loses the second one: exactly when their contents differ. */
module PipelineReuse {
  import opened Wrappers
  import opened Events
  import opened Storage
  import opened StorageProperties
  import Runs = StorageRuns
  import opened Server
  import opened Pipeline
  import opened PipelineContent

  /** An event the pipeline takes all the way. */
  predicate Admissible(d: Deployment, e: CanonicalEvent) {
    e.tenantId == d.tenantId && Encodable(e) && Validate(e)
  }

  /** Under the id of b only a and b are used, by producers, recoveries and anybody who writes to the stream, and
      its stored text does not rot. */
  predicate OnlyThese(d: Deployment, a: CanonicalEvent, b: CanonicalEvent, action: Action) {
    match action
    case AStore(e, _) => e.eventId == b.eventId ==> e == a || e == b
    case ARecover(e, _) => e.eventId == b.eventId ==> Core(e) == Core(a) || Core(e) == Core(b)
    case AInject(w) =>
      Healthy(w) && KeyOf(Parse(w).0) == Key(d.tenantId, b.eventId) ==>
        Core(Parse(w).0) == Core(a) || Core(Parse(w).0) == Core(b)
    case ACorrupt(id, _) => id != b.eventId
    case _ => true
  }

  /** The k-th action stores b, and the store answers that it did. */
  predicate StoredAt(d: Deployment, actions: seq<Action>, b: CanonicalEvent, k: nat) {
    && k < |actions| && actions[k].AStore? && actions[k].event == b
    && Store(Run(d, actions[..k]).db, d.quota, b, actions[k].storeEnv).result == Stored
  }

  /** Some place holds the content of b, or the quota sweep deleted it. */
  ghost predicate Kept(d: Deployment, s: Sys, b: CanonicalEvent) {
    var key := Key(d.tenantId, b.eventId);
    || b.eventId in s.pruned
    || (b.eventId in s.db.events && Says(s.db.events[b.eventId].payload, b))
    || (b.eventId in s.db.dlq && Says(s.db.dlq[b.eventId].payload, b))
    || (exists m: nat :: Carries(s.queue, m, key) && Core(Parse(s.queue.stream[m].wire).0) == Core(b))
    || (key in s.pg.events && Core(s.pg.events[key]) == Core(b))
  }

  /** In this run b was stored with success, and its content is gone. */
  ghost predicate Loses(d: Deployment, a: CanonicalEvent, b: CanonicalEvent, actions: seq<Action>) {
    && (forall x | x in actions :: OnlyThese(d, a, b, x))
    && (exists k: nat :: StoredAt(d, actions, b, k))
    && !Kept(d, Run(d, actions), b)
  }

  // ----- With equal contents nothing is lost -----

  lemma {:induction false} StaysFrom(d: Deployment, actions: seq<Action>, k: nat)
    requires k <= |actions|
    ensures Run(d, actions[..k]).entered <= Run(d, actions).entered
    ensures Run(d, actions[..k]).db.dlq.Keys <= Run(d, actions).db.dlq.Keys
    decreases |actions|
  {
    hide Next, SysInv, AgentInv, KeepsIds;
    if k == |actions| {
      assert actions[..k] == actions;
    } else {
      var n := |actions| - 1;
      assert actions[..n][..k] == actions[..k];
      StaysFrom(d, actions[..n], k);
      StepStays(d, actions[..n], actions[n]);
    }
  }

  lemma StepStays(d: Deployment, before: seq<Action>, action: Action)
    ensures var s, s' := Run(d, before), Next(d, Run(d, before), action);
            s.entered <= s'.entered && s.db.dlq.Keys <= s'.db.dlq.Keys
  {
    hide Next, Run, ServerInv, PgIs, Inv, Somewhere;
    RunKeepsSysInv(d, before);
    EveryAgentStep(d, Run(d, before), action);
    EnteredStays(d, Run(d, before), action);
  }

  lemma StoredIsPresent(d: Deployment, actions: seq<Action>, b: CanonicalEvent, k: nat)
    requires StoredAt(d, actions, b, k)
    ensures b.eventId in Run(d, actions).entered || b.eventId in Run(d, actions).db.dlq
  {
    hide Store, Inv, ServerInv, PgIs, Somewhere;
    var s := Run(d, actions[..k]);
    RunKeepsSysInv(d, actions[..k]);
    StoreSpec(s.db, d.quota, b, actions[k].storeEnv);
    assert actions[..k + 1][..k] == actions[..k];
    assert Run(d, actions[..k + 1]) == Next(d, s, actions[k]);
    StaysFrom(d, actions, k + 1);
  }

  lemma EqualContentsAreKept(d: Deployment, a: CanonicalEvent, b: CanonicalEvent, actions: seq<Action>, k: nat)
    requires a.eventId == b.eventId && Core(a) == Core(b)
    requires forall x | x in actions :: OnlyThese(d, a, b, x)
    requires StoredAt(d, actions, b, k)
    ensures Kept(d, Run(d, actions), b)
  {
    hide Run, Next;
    var o := Origin(b.eventId, b);
    forall x | x in actions ensures Disciplined(d, o, x) {
      assert OnlyThese(d, a, b, x);
    }
    StoredIsPresent(d, actions, b, k);
    if b.eventId in Run(d, actions).entered {
      NoContentIsLost(d, o, actions);
    } else {
      RunGenuine(d, o, actions);
    }
  }

  // ----- With different contents something can be -----

  /** What the stream carries of e stored under number n. */
  function Sent(e: CanonicalEvent, n: int): CanonicalEvent {
    e.(seqNo := n, receivedAt := 7)
  }

  function EntryOf(e: CanonicalEvent, n: int): Entry {
    Entry(Text(Json(Sent(e, n))), false, false)
  }

  /** An event stored, fetched, sent, accepted and removed, without any failure. */
  function Cycle(d: Deployment, e: CanonicalEvent, n: int): seq<Action> {
    [AStore(e, Runs.Roomy(d.quota))]
    + ([AFetch(0, 50, READABLE)]
       + ([ASend(FINE)]
          + ([AServe(e.(seqNo := n), true, 7, Appended)]
             + [AReceive(Accepted, FINE, LATER)])))
  }

  const PERSISTS := PersistEnv(false, false, false, Committed)

  /** The worker takes both messages and acknowledges the second. */
  const WORK: seq<Action> :=
    [ADeliver(0)] + ([APersist(0, PERSISTS)] + ([ADeliver(1)] + ([APersist(1, PERSISTS)] + [AAck(1, true)])))

  function LosingRun(d: Deployment, a: CanonicalEvent, b: CanonicalEvent): seq<Action> {
    Cycle(d, a, 1) + (Cycle(d, b, 2) + WORK)
  }

  lemma FiveSteps(d: Deployment, s: Sys, a: Action, b: Action, c: Action, x: Action, y: Action)
    ensures After(d, s, [a] + ([b] + ([c] + ([x] + [y]))))
            == Next(d, Next(d, Next(d, Next(d, Next(d, s, a), b), c), x), y)
  {
    hide Next;
    var s1 := Next(d, s, a);
    var s2 := Next(d, s1, b);
    AfterCons(d, s, a, [b] + ([c] + ([x] + [y])));
    AfterCons(d, s1, b, [c] + ([x] + [y]));
    ThreeSteps(d, s2, c, x, y);
    assert [c] + ([x] + [y]) == [c] + [x] + [y];
  }

  lemma StoredRoomily(db: Db, e: CanonicalEvent, quota: int)
    requires Inv(db) && !Present(db, e.eventId) && Encodable(e) && e.eventId != NO_ID
    ensures var r := Store(db, quota, e, Runs.Roomy(quota));
            && r.result == Stored && Inv(r.db) && r.db.dlq == db.dlq
            && r.db.events == db.events[e.eventId := RowOf(e, db.nextSeqNo)] && r.db.nextSeqNo == db.nextSeqNo + 1
  {
    hide Sweep, Insert, Inv;
    InsertSpec(db, e, Runs.Roomy(quota), 0);
  }

  /** The agent between two cycles: nothing stored, nothing under way. */
  ghost predicate Idle(s: Sys, n: int) {
    && Inv(s.db) && s.db.events == map[] && s.db.dlq == map[] && s.db.nextSeqNo == n
    && s.batch == [] && s.awaiting == None && s.pruned == {}
  }

  lemma StoreAndFetch(d: Deployment, s: Sys, e: CanonicalEvent, n: int)
    requires Idle(s, n) && Admissible(d, e)
    ensures var s' := Next(d, Next(d, s, AStore(e, Runs.Roomy(d.quota))), AFetch(0, 50, READABLE));
            && Inv(s'.db) && s'.db.dlq == map[] && s'.db.events.Keys == {e.eventId} && s'.db.nextSeqNo == n + 1
            && s'.batch == [e.(seqNo := n)] && s'.awaiting == None && s'.pruned == {} && SameServer(s, s')
            && s'.requests == s.requests && s'.responses == s.responses
  {
    hide Store, GetPendingEvents, Inv, Validate;
    assert e.eventId != NO_ID by { ValidHasId(e); }
    StoredRoomily(s.db, e, d.quota);
    FetchesOne(Store(s.db, d.quota, e, Runs.Roomy(d.quota)).db, e.(seqNo := n));
  }

  lemma ValidHasId(e: CanonicalEvent)
    requires Validate(e)
    ensures e.eventId != NO_ID && e.tenantId != ""
  {
  }

  lemma SendAndServe(d: Deployment, s: Sys, e: CanonicalEvent, n: int)
    requires s.batch == [e.(seqNo := n)] && s.awaiting == None && Admissible(d, e) && n >= 0
    ensures var e' := e.(seqNo := n);
            var s' := Next(d, Next(d, s, ASend(FINE)), AServe(e', true, 7, Appended));
            && s'.db == s.db && s'.batch == [] && s'.awaiting == Some(e') && s'.pruned == s.pruned
            && s'.queue == Queue(s.queue.stream + [EntryOf(e, n)], s.queue.dead)
            && s'.settled == s.settled && s'.pg == s.pg && (e', Accepted) in s'.responses
  {
    hide ServeHTTP, Validate;
    IsAccepted(d, s.queue, e, n);
  }

  lemma IsAccepted(d: Deployment, q: Queue, e: CanonicalEvent, n: int)
    requires Admissible(d, e) && n >= 0
    ensures ServeHTTP(q, RequestFor(e.(seqNo := n), d.tenantId, true), 7, Appended)
            == (Queue(q.stream + [EntryOf(e, n)], q.dead), Accepted)
  {
    assert Validate(Sent(e, n)) && Encodable(Sent(e, n));
  }

  lemma ReceiveRemoves(d: Deployment, s: Sys, e: CanonicalEvent)
    requires Inv(s.db) && s.db.events.Keys == {e.eventId}
    requires s.awaiting == Some(e) && (e, Accepted) in s.responses
    ensures var s' := Next(d, s, AReceive(Accepted, FINE, LATER));
            && Inv(s'.db) && s'.db.events == map[] && s'.db.dlq == s.db.dlq && s'.db.nextSeqNo == s.db.nextSeqNo
            && s'.batch == s.batch && s'.awaiting == None && s'.pruned == s.pruned && SameServer(s, s')
  {
    hide RemoveEvent, Inv;
    RemoveSpec(s.db, e.eventId, FINE);
    Removed(s.db, e.eventId);
  }

  lemma CycleAppends(d: Deployment, s: Sys, e: CanonicalEvent, n: int)
    requires Idle(s, n) && Admissible(d, e) && n >= 0
    ensures var s' := After(d, s, Cycle(d, e, n));
            && Idle(s', n + 1)
            && s'.queue == Queue(s.queue.stream + [EntryOf(e, n)], s.queue.dead)
            && s'.settled == s.settled && s'.pg == s.pg
  {
    hide Next, Inv, Admissible;
    var e' := e.(seqNo := n);
    FiveSteps(d, s, AStore(e, Runs.Roomy(d.quota)), AFetch(0, 50, READABLE), ASend(FINE),
              AServe(e', true, 7, Appended), AReceive(Accepted, FINE, LATER));
    StoreAndFetch(d, s, e, n);
    var s2 := Next(d, Next(d, s, AStore(e, Runs.Roomy(d.quota))), AFetch(0, 50, READABLE));
    SendAndServe(d, s2, e, n);
    ReceiveRemoves(d, Next(d, Next(d, s2, ASend(FINE)), AServe(e', true, 7, Appended)), e');
  }

  /** The worker's part: Postgres keeps the first event and the second message is acknowledged. */
  lemma WorkKeepsTheFirst(d: Deployment, s: Sys, a: CanonicalEvent, b: CanonicalEvent)
    requires s.queue == Queue([EntryOf(a, 1), EntryOf(b, 2)], []) && s.settled == {} && s.pg == EMPTY_PG
    requires Admissible(d, a) && Admissible(d, b) && a.eventId == b.eventId
    ensures var s' := After(d, s, WORK);
            && s'.db == s.db && s'.pruned == s.pruned
            && s'.pg.events == map[Key(d.tenantId, a.eventId) := Sent(a, 1)]
            && s'.queue.stream == [EntryOf(a, 1).(delivered := true), EntryOf(b, 2).(delivered := true, acked := true)]
  {
    hide Validate, Next;
    FiveSteps(d, s, ADeliver(0), APersist(0, PERSISTS), ADeliver(1), APersist(1, PERSISTS), AAck(1, true));
    var s2 := Next(d, Next(d, s, ADeliver(0)), APersist(0, PERSISTS));
    DeliverAndPersist(d, s, 0, a, 1);
    var s4 := Next(d, Next(d, s2, ADeliver(1)), APersist(1, PERSISTS));
    DeliverAndPersist(d, s2, 1, b, 2);
    Acknowledge(d, s4, 1);
  }

  /** A healthy message is delivered and persisted: the first of its key stays in Postgres. */
  lemma DeliverAndPersist(d: Deployment, s: Sys, m: nat, e: CanonicalEvent, n: int)
    requires m < |s.queue.stream| && s.queue.stream[m] == EntryOf(e, n) && Validate(e) && n >= 0
    ensures var s' := Next(d, Next(d, s, ADeliver(m)), APersist(m, PERSISTS));
            && s'.db == s.db && s'.pruned == s.pruned && s'.settled == s.settled + {m}
            && s'.queue == s.queue.(stream := s.queue.stream[m := EntryOf(e, n).(delivered := true)])
            && s'.pg.events == if KeyOf(e) in s.pg.events then s.pg.events else s.pg.events[KeyOf(e) := Sent(e, n)]
  {
    hide Validate;
    SentIsHealthy(e, n);
  }

  lemma Acknowledge(d: Deployment, s: Sys, m: nat)
    requires m < |s.queue.stream| && m in s.settled
    ensures Next(d, s, AAck(m, true))
            == s.(queue := s.queue.(stream := s.queue.stream[m := s.queue.stream[m].(acked := true)]))
  {
  }

  lemma SentIsHealthy(e: CanonicalEvent, n: int)
    requires Validate(e) && n >= 0
    ensures Healthy(Text(Json(Sent(e, n)))) && Parse(Text(Json(Sent(e, n)))).0 == Sent(e, n)
  {
  }

  lemma DifferentContentsAreLost(d: Deployment, a: CanonicalEvent, b: CanonicalEvent)
    requires a.eventId == b.eventId && Admissible(d, a) && Admissible(d, b) && Core(a) != Core(b)
    ensures Loses(d, a, b, LosingRun(d, a, b))
  {
    hide Run, Next, After, Store, Inv, Admissible, Kept, Validate, Encodable;
    var first, second := Cycle(d, a, 1), Cycle(d, b, 2);
    var actions := LosingRun(d, a, b);
    StartsIdle();
    CycleAppends(d, INIT, a, 1);
    var s1 := After(d, INIT, first);
    CycleAppends(d, s1, b, 2);
    var s2 := After(d, s1, second);
    assert [] + [EntryOf(a, 1)] + [EntryOf(b, 2)] == [EntryOf(a, 1), EntryOf(b, 2)];
    WorkKeepsTheFirst(d, s2, a, b);
    RunsAre(d, first, second + WORK);
    AfterBoth(d, INIT, first, second + WORK);
    AfterBoth(d, s1, second, WORK);
    Admitted(d, a);
    Admitted(d, b);
    NotKept(d, After(d, s2, WORK), a, b);
    StoredRoomily(s1.db, b, d.quota);
    assert actions[..5] == first && actions[5] == AStore(b, Runs.Roomy(d.quota));
    assert StoredAt(d, actions, b, 5);
    forall x | x in actions ensures OnlyThese(d, a, b, x) { OnlyTheseInRun(d, a, b, x); }
  }

  lemma Admitted(d: Deployment, e: CanonicalEvent)
    requires Admissible(d, e)
    ensures e.eventId != NO_ID && Encodable(e) && Validate(e)
  {
  }

  lemma StartsIdle()
    ensures Idle(INIT, 1)
  {
  }

  lemma RunsAre(d: Deployment, first: seq<Action>, rest: seq<Action>)
    ensures Run(d, first) == After(d, INIT, first) && Run(d, first + rest) == After(d, INIT, first + rest)
  {
    hide Next;
    RunThenAfter(d, [], first);
    RunThenAfter(d, [], first + rest);
    assert [] + first == first && [] + (first + rest) == first + rest;
    assert Run(d, []) == INIT;
  }

  lemma OnlyTheseInRun(d: Deployment, a: CanonicalEvent, b: CanonicalEvent, x: Action)
    requires x in LosingRun(d, a, b)
    ensures OnlyThese(d, a, b, x)
  {
  }

  lemma NotKept(d: Deployment, s: Sys, a: CanonicalEvent, b: CanonicalEvent)
    requires s.db.events == map[] && s.db.dlq == map[] && s.pruned == {}
    requires a.eventId == b.eventId && Core(a) != Core(b) && Validate(a)
    requires s.pg.events == map[Key(d.tenantId, a.eventId) := Sent(a, 1)]
    requires s.queue.stream == [EntryOf(a, 1).(delivered := true), EntryOf(b, 2).(delivered := true, acked := true)]
    ensures !Kept(d, s, b)
  {
    hide Inv, Validate;
    SentIsHealthy(a, 1);
  }

  /** The exact condition under which an id used for two events can lose one of them: some run that uses only a
      and b under the id stores b with success and ends with its content in no table, not pruned, on no
      unacknowledged message and not in Postgres, if and only if the contents differ. */
  lemma ReuseLosesContentExactly(d: Deployment, a: CanonicalEvent, b: CanonicalEvent)
    requires a.eventId == b.eventId && Admissible(d, a) && Admissible(d, b)
    ensures (exists actions :: Loses(d, a, b, actions)) <==> Core(a) != Core(b)
  {
    hide Run, Kept, StoredAt, OnlyThese, Admissible, LosingRun;
    if Core(a) == Core(b) {
      forall actions ensures !Loses(d, a, b, actions) {
        if (forall x | x in actions :: OnlyThese(d, a, b, x)) && exists k: nat :: StoredAt(d, actions, b, k) {
          var k: nat :| StoredAt(d, actions, b, k);
          EqualContentsAreKept(d, a, b, actions, k);
        }
      }
    } else {
      DifferentContentsAreLost(d, a, b);
    }
  }
}

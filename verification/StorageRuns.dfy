/** Whole runs of the agent's store: the invariant holds throughout and every row is accounted for. */
module StorageRuns {
  import opened Wrappers
  import opened Events
  import opened Storage
  import opened QuotaProperties
  import opened StorageProperties

  datatype Op =
    | OpStore(event: CanonicalEvent, storeEnv: StoreEnv)
    | OpMove(event: CanonicalEvent, failure: Failure, env: TxEnv)
    | OpRemove(id: EventId, env: TxEnv)
    | OpFail(id: EventId, retryAfter: int, now: Time, nanos: nat, fate: Fate)
    | OpFetch(now: Time, limit: nat, fetchEnv: FetchEnv)

  function Apply(db: Db, quota: int, op: Op): Db {
    match op
    case OpStore(e, env) => Store(db, quota, e, env).db
    case OpMove(e, f, env) => MoveToDLQ(db, e, f, env).db
    case OpRemove(id, env) => RemoveEvent(db, id, env).db
    case OpFail(id, r, now, nanos, fate) => MarkFailed(db, id, r, now, nanos, fate).db
    case OpFetch(now, limit, env) => GetPendingEvents(db, now, limit, env).db
  }

  function Run(db: Db, quota: int, ops: seq<Op>): Db {
    if ops == [] then db else Apply(Run(db, quota, ops[..|ops| - 1]), quota, ops[|ops| - 1])
  }

  lemma ApplyKeepsInv(db: Db, quota: int, op: Op)
    requires Inv(db)
    ensures Inv(Apply(db, quota, op))
  {
    hide Inv, Store, MoveToDLQ, RemoveEvent, MarkFailed, GetPendingEvents;
    match op
    case OpStore(e, env) => StoreSpec(db, quota, e, env);
    case OpMove(e, f, env) => MoveToDLQSpec(db, e, f, env);
    case OpRemove(id, env) => RemoveSpec(db, id, env);
    case OpFail(id, r, now, nanos, fate) => MarkFailedSpec(db, id, r, now, nanos, fate);
    case OpFetch(now, limit, env) => FetchSpec(db, now, limit, env);
  }

  /** Every state a run reaches satisfies the invariant, whatever fails on the way. */
  lemma {:induction false} RunKeepsInv(db: Db, quota: int, ops: seq<Op>)
    requires Inv(db)
    ensures Inv(Run(db, quota, ops))
  {
    if ops != [] {
      RunKeepsInv(db, quota, ops[..|ops| - 1]);
      ApplyKeepsInv(Run(db, quota, ops[..|ops| - 1]), quota, ops[|ops| - 1]);
    }
  }

  /** What a run did to the events table, operation by operation. */
  datatype Ledger = Ledger(inserted: nat, removed: nat, deadLettered: nat, uncounted: nat)

  function Came(db: Db, db': Db, id: EventId): nat {
    if id !in db.events && id in db'.events then 1 else 0
  }

  function Book(l: Ledger, db: Db, quota: int, op: Op): Ledger {
    var db' := Apply(db, quota, op);
    match op
    case OpStore(e, env) =>
      l.(inserted := l.inserted + Came(db, db', e.eventId),
         uncounted := l.uncounted + Store(db, quota, e, env).uncounted)
    case OpMove(e, _, _) => l.(deadLettered := l.deadLettered + Came(db', db, e.eventId))
    case OpRemove(id, _) => l.(removed := l.removed + Came(db', db, id))
    case OpFail(_, _, _, _, _) => l
    case OpFetch(_, _, _) => l.(deadLettered := l.deadLettered + |db.events.Keys - db'.events.Keys|)
  }

  function Books(db: Db, quota: int, ops: seq<Op>): Ledger {
    if ops == [] then Ledger(0, 0, 0, 0)
    else
      var n := |ops| - 1;
      Book(Books(db, quota, ops[..n]), Run(db, quota, ops[..n]), quota, ops[n])
  }

  lemma KeysMore(t: Table, t': Table, id: EventId)
    requires t'.Keys == t.Keys + {id}
    ensures |t'| == |t| + if id in t then 0 else 1
  {
    assert |t'.Keys| == |t'| && |t.Keys| == |t|;
  }

  lemma KeysGone(t: Table, t': Table)
    requires t'.Keys <= t.Keys
    ensures |t'| == |t| - |t.Keys - t'.Keys|
  {
    assert |t'.Keys| == |t'| && |t.Keys| == |t|;
    assert t.Keys == t'.Keys + (t.Keys - t'.Keys);
  }

  lemma InsertAccounts(db: Db, e: CanonicalEvent, env: StoreEnv, uncounted: nat)
    requires Inv(db) && !Present(db, e.eventId)
    ensures var r := Insert(db, e, env, uncounted);
            && Accounted(r.db) == Accounted(db) + Came(db, r.db, e.eventId)
            && r.db.nextSeqNo == db.nextSeqNo + Came(db, r.db, e.eventId)
            && r.uncounted == uncounted
  {
    hide Insert, Inv, FreshRow, Held, Encodable;
    InsertSpec(db, e, env, uncounted);
    var t := Insert(db, e, env, uncounted).db.events;
    if t != db.events { KeysMore(db.events, t, e.eventId); }
  }

  lemma StoreAccounts(db: Db, quota: int, e: CanonicalEvent, env: StoreEnv)
    requires Inv(db)
    ensures var r := Store(db, quota, e, env);
            && Accounted(db) + Came(db, r.db, e.eventId) == Accounted(r.db) + r.uncounted
            && r.db.nextSeqNo == db.nextSeqNo + Came(db, r.db, e.eventId)
            && (CountersHold(env.disk) ==> r.uncounted == 0)
  {
    hide EnforceQuota, Insert, Inv, PrunedFrom, CountersHold;
    if !Present(db, e.eventId) {
      var s := EnforceQuota(db, e.severity, env.jsonLength + 1024, quota, env.disk);
      QuotaSpec(db, e.severity, env.jsonLength + 1024, quota, env.disk, Debug);
      QuotaKeepsInv(db, e.severity, env.jsonLength + 1024, quota, env.disk);
      PrunedKeys(db.events, s.db.events);
      InsertAccounts(s.db, e, env, s.uncounted);
      hide Accounted;
    }
  }

  lemma PrunedKeys(t: Table, t': Table)
    requires PrunedFrom(t, t')
    ensures t'.Keys <= t.Keys
  {
  }

  /** The rows gone from t are exactly those of the ids in s that were there. */
  lemma OneGone(db: Db, db': Db, id: EventId)
    requires db'.events.Keys <= db.events.Keys
    requires forall x | x in db.events && x !in db'.events :: x == id
    requires db'.dropped == db.dropped
    ensures Accounted(db') == Accounted(db) - Came(db', db, id)
  {
    KeysGone(db.events, db'.events);
    assert db.events.Keys - db'.events.Keys == if Came(db', db, id) == 1 then {id} else {};
  }

  ghost predicate Balanced(db: Db, l: Ledger, db': Db, l': Ledger) {
    && Accounted(db') + l'.removed + l'.deadLettered + l'.uncounted - l'.inserted
       == Accounted(db) + l.removed + l.deadLettered + l.uncounted - l.inserted
    && db'.nextSeqNo - l'.inserted == db.nextSeqNo - l.inserted
  }

  /** One operation balances: rows that came in and rows that went out, each under its own heading. */
  lemma ApplyBalances(db: Db, quota: int, op: Op, l: Ledger)
    requires Inv(db)
    ensures Balanced(db, l, Apply(db, quota, op), Book(l, db, quota, op))
    ensures (op.OpStore? ==> CountersHold(op.storeEnv.disk)) ==> Book(l, db, quota, op).uncounted == l.uncounted
  {
    hide Inv, Apply, Book, Balanced, CountersHold;
    match op
    case OpStore(_, _) => StoreBalances(db, quota, op, l);
    case OpMove(_, _, _) => MoveBalances(db, quota, op, l);
    case OpRemove(_, _) => RemoveBalances(db, quota, op, l);
    case OpFail(_, _, _, _, _) => OthersBalance(db, quota, op, l);
    case OpFetch(_, _, _) => OthersBalance(db, quota, op, l);
  }

  lemma StoreBalances(db: Db, quota: int, op: Op, l: Ledger)
    requires Inv(db) && op.OpStore?
    ensures Balanced(db, l, Apply(db, quota, op), Book(l, db, quota, op))
    ensures CountersHold(op.storeEnv.disk) ==> Book(l, db, quota, op).uncounted == l.uncounted
  {
    hide Inv, Store, Accounted, Came, CountersHold;
    StoreAccounts(db, quota, op.event, op.storeEnv);
  }

  lemma MoveBalances(db: Db, quota: int, op: Op, l: Ledger)
    requires Inv(db) && op.OpMove?
    ensures Balanced(db, l, Apply(db, quota, op), Book(l, db, quota, op))
    ensures Book(l, db, quota, op).uncounted == l.uncounted
  {
    hide Inv, MoveToDLQ, Accounted, Came;
    MoveToDLQSpec(db, op.event, op.failure, op.env);
    OneGone(db, MoveToDLQ(db, op.event, op.failure, op.env).db, op.event.eventId);
  }

  lemma RemoveBalances(db: Db, quota: int, op: Op, l: Ledger)
    requires Inv(db) && op.OpRemove?
    ensures Balanced(db, l, Apply(db, quota, op), Book(l, db, quota, op))
    ensures Book(l, db, quota, op).uncounted == l.uncounted
  {
    hide Inv, RemoveEvent, Accounted, Came;
    RemoveSpec(db, op.id, op.env);
    OneGone(db, RemoveEvent(db, op.id, op.env).db, op.id);
  }

  lemma OthersBalance(db: Db, quota: int, op: Op, l: Ledger)
    requires Inv(db) && (op.OpFail? || op.OpFetch?)
    ensures Balanced(db, l, Apply(db, quota, op), Book(l, db, quota, op))
    ensures Book(l, db, quota, op).uncounted == l.uncounted
  {
    hide Inv, MarkFailed, GetPendingEvents, Accounted;
    match op {
      case OpFail(id, r, now, nanos, fate) => FailBalances(db, id, r, now, nanos, fate);
      case OpFetch(now, limit, env) => FetchBalances(db, now, limit, env);
    }
  }

  lemma FailBalances(db: Db, id: EventId, retryAfter: int, now: Time, nanos: nat, fate: Fate)
    requires Inv(db)
    ensures var db' := MarkFailed(db, id, retryAfter, now, nanos, fate).db;
            Accounted(db') == Accounted(db) && db'.nextSeqNo == db.nextSeqNo
  {
    hide Inv, MarkFailed;
    var db' := MarkFailed(db, id, retryAfter, now, nanos, fate).db;
    MarkFailedSpec(db, id, retryAfter, now, nanos, fate);
    KeysGone(db.events, db'.events);
    assert db.events.Keys - db'.events.Keys == {};
  }

  lemma FetchBalances(db: Db, now: Time, limit: nat, env: FetchEnv)
    requires Inv(db)
    ensures var db' := GetPendingEvents(db, now, limit, env).db;
            Accounted(db') == Accounted(db) - |db.events.Keys - db'.events.Keys| && db'.nextSeqNo == db.nextSeqNo
  {
    hide Inv, GetPendingEvents;
    FetchSpec(db, now, limit, env);
    KeysGone(db.events, GetPendingEvents(db, now, limit, env).db.events);
  }

  /** Conservation: over any run from an empty store, the rows ever inserted are the rows alive, the rows
      removed, the rows dead-lettered, the rows counted as dropped, and the rows of batches whose counter
      update failed. Every insertion took a number of its own, and the drop total is the sum of its parts. */
  lemma {:induction false} EventsAreConserved(quota: int, ops: seq<Op>)
    ensures var db := Run(EMPTY_DB, quota, ops);
            var l := Books(EMPTY_DB, quota, ops);
            && l.inserted == |db.events| + l.removed + l.deadLettered + db.dropped.total + l.uncounted
            && db.nextSeqNo == 1 + l.inserted
            && db.dropped.total == db.dropped.debug + db.dropped.info + db.dropped.warning
            && ((forall op | op in ops && op.OpStore? :: CountersHold(op.storeEnv.disk)) ==> l.uncounted == 0)
  {
    hide Apply, Book;
    RunKeepsInv(EMPTY_DB, quota, ops);
    if ops != [] {
      var n := |ops| - 1;
      EventsAreConserved(quota, ops[..n]);
      RunKeepsInv(EMPTY_DB, quota, ops[..n]);
      ApplyBalances(Run(EMPTY_DB, quota, ops[..n]), quota, ops[n], Books(EMPTY_DB, quota, ops[..n]));
    }
  }

  // ----- Which numbers can be given again -----

  /** After the operations some row has number n that did not have it before. */
  ghost predicate Given(db: Db, quota: int, ops: seq<Op>, x: EventId, n: int) {
    var db' := Run(db, quota, ops);
    x in db'.events && db'.events[x].seqNo == n && (x in db.events ==> db.events[x].seqNo != n)
  }

  ghost predicate NumbersUpwards(db: Db, db': Db) {
    && db.nextSeqNo <= db'.nextSeqNo
    && forall x | x in db'.events ::
         (x in db.events && db'.events[x].seqNo == db.events[x].seqNo) || db.nextSeqNo <= db'.events[x].seqNo
  }

  lemma ApplyNumbersUpwards(db: Db, quota: int, op: Op)
    requires Inv(db)
    ensures NumbersUpwards(db, Apply(db, quota, op))
  {
    hide Inv, Store, MoveToDLQ, RemoveEvent, MarkFailed, GetPendingEvents;
    match op
    case OpStore(e, env) => StoreSpec(db, quota, e, env);
    case OpMove(e, f, env) => MoveToDLQSpec(db, e, f, env);
    case OpRemove(id, env) => RemoveSpec(db, id, env);
    case OpFail(id, r, now, nanos, fate) => MarkFailedSpec(db, id, r, now, nanos, fate);
    case OpFetch(now, limit, env) => FetchSpec(db, now, limit, env);
  }

  lemma {:induction false} RunNumbersUpwards(db: Db, quota: int, ops: seq<Op>)
    requires Inv(db)
    ensures NumbersUpwards(db, Run(db, quota, ops))
  {
    hide Inv, Apply;
    if ops != [] {
      var n := |ops| - 1;
      RunNumbersUpwards(db, quota, ops[..n]);
      RunKeepsInv(db, quota, ops[..n]);
      ApplyNumbersUpwards(Run(db, quota, ops[..n]), quota, ops[n]);
    }
  }

  lemma {:induction false} AboveAll(s: set<EventId>) returns (b: nat)
    ensures forall id | id in s && id.Uuid? :: id.bits < b
  {
    if s == {} {
      b := 0;
    } else {
      var x :| x in s;
      b := AboveAll(s - {x});
      if x.Uuid? && b <= x.bits { b := x.bits + 1; }
    }
  }

  function Roomy(quota: int): StoreEnv {
    var probe := Probe(Some(quota - 2048), NoFault);
    StoreEnv(None, None, 0, _ => probe, None, None, Committed)
  }

  const ANY_EVENT := CanonicalEvent(NO_ID, "", "", None, 0, 0, Info, None,
                                    Columns("", "", "", "", "", "", "", "", "", ""), Plain(""), "")

  /** One more event can always be stored, under the next number. */
  lemma NextIsGiven(db: Db, quota: int) returns (op: Op, x: EventId)
    requires Inv(db)
    ensures var db' := Apply(db, quota, op);
            x in db'.events && db'.events[x].seqNo == db.nextSeqNo && db'.nextSeqNo == db.nextSeqNo + 1
  {
    hide Inv, Sweep, Insert;
    var b := AboveAll(db.events.Keys + db.dlq.Keys);
    x := Uuid(b);
    var e := ANY_EVENT.(eventId := x);
    op := OpStore(e, Roomy(quota));
    InsertSpec(db, e, Roomy(quota), 0);
  }

  lemma {:induction false} CounterReaches(db: Db, quota: int, n: int) returns (ops: seq<Op>)
    requires Inv(db) && n >= db.nextSeqNo
    ensures Run(db, quota, ops).nextSeqNo == n
    decreases n - db.nextSeqNo
  {
    hide Inv, Apply;
    if n == db.nextSeqNo {
      ops := [];
    } else {
      var before := CounterReaches(db, quota, n - 1);
      RunKeepsInv(db, quota, before);
      var op, x := NextIsGiven(Run(db, quota, before), quota);
      ops := before + [op];
      assert ops[..|ops| - 1] == before;
    }
  }

  /** A number can be given, or given again, exactly if it is not below the counter. */
  lemma NumbersGivenExactly(db: Db, quota: int, n: int)
    requires Inv(db)
    ensures (exists ops, x :: Given(db, quota, ops, x, n)) <==> n >= db.nextSeqNo
  {
    hide Apply;
    forall ops, x | Given(db, quota, ops, x, n) ensures n >= db.nextSeqNo {
      RunNumbersUpwards(db, quota, ops);
    }
    if n >= db.nextSeqNo {
      var before := CounterReaches(db, quota, n);
      RunKeepsInv(db, quota, before);
      hide Inv;
      var op, x := NextIsGiven(Run(db, quota, before), quota);
      var ops := before + [op];
      assert ops[..|ops| - 1] == before;
      NoRowAt(db, x, n);
      assert Given(db, quota, ops, x, n);
    }
  }

  lemma NoRowAt(db: Db, x: EventId, n: int)
    requires Inv(db) && n >= db.nextSeqNo
    ensures x in db.events ==> db.events[x].seqNo != n
  {
  }

  /** The number under which an event is dead-lettered can be given to a later event exactly if it is not below
      the counter then, as after rolled-back commits. */
  lemma DeadLetterNumberGivenExactly(db: Db, quota: int, e: CanonicalEvent, failure: Failure, env: TxEnv)
    requires Inv(db) && e.eventId !in db.dlq && MoveToDLQ(db, e, failure, env).ok
    ensures var r := MoveToDLQ(db, e, failure, env).db;
            && e.eventId in r.dlq && r.dlq[e.eventId].seqNo == e.seqNo
            && ((exists ops, x :: Given(r, quota, ops, x, e.seqNo)) <==> e.seqNo >= db.nextSeqNo)
  {
    hide Inv, MoveRaw, Given;
    MoveToDLQSpec(db, e, failure, env);
    MoveRawSpec(db, e.eventId, e.seqNo, Json(e), failure, env);
    NumbersGivenExactly(MoveToDLQ(db, e, failure, env).db, quota, e.seqNo);
  }
}
